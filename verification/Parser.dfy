/**
 The command parser: whitespace-separated tokens, an upper-cased command name, and the
 allowed characters. Strings are sequences of runes.
 */
module Parser {

  // ---------------------------------------------------------------- characters

  predicate IsAnyLetter(c: char) { 'a' <= c <= 'z' || 'A' <= c <= 'Z' }

  predicate IsUpperLetter(c: char) { 'A' <= c <= 'Z' }

  predicate IsDigit(c: char) { '0' <= c <= '9' }

  predicate IsPunctuation(c: char) { c in ['*', '/', '_', '.'] }

  predicate ValidateCommand(raw: string) {
    forall i :: 0 <= i < |raw| ==> IsUpperLetter(raw[i])
  }

  predicate ValidateArgument(raw: string) {
    forall i :: 0 <= i < |raw| ==> IsAnyLetter(raw[i]) || IsDigit(raw[i]) || IsPunctuation(raw[i])
  }

  /** unicode.IsSpace. */
  predicate IsSpace(c: char) {
    var u := c as int;
    || 9 <= u <= 13 || u == 32 || u == 0x85 || u == 0xA0 || u == 0x1680 || 0x2000 <= u <= 0x200A
    || u == 0x2028 || u == 0x2029 || u == 0x202F || u == 0x205F || u == 0x3000
  }

  /**
   unicode.ToUpper as far as validation can see it: besides the ASCII letters exactly two
   runes have an upper case in A..Z, dotless i (U+0131) and long s (U+017F). Every other
   rune maps outside A..Z, whatever its image, and is left as it is.
   */
  function UpperRune(c: char): char {
    if 'a' <= c <= 'z' then (c as int - 32) as char
    else if c as int == 0x131 then 'I'
    else if c as int == 0x17F then 'S'
    else c
  }

  function ToUpper(s: string): string { seq(|s|, i requires 0 <= i < |s| => UpperRune(s[i])) }

  // ---------------------------------------------------------------- splitting

  ghost predicate AllSpace(s: string) { forall i :: 0 <= i < |s| ==> IsSpace(s[i]) }

  ghost predicate IsWord(s: string) { s != [] && forall i :: 0 <= i < |s| ==> !IsSpace(s[i]) }

  function TrimLeft(s: string): string {
    if s != [] && IsSpace(s[0]) then TrimLeft(s[1..]) else s
  }

  function TrimRight(s: string): string {
    if s != [] && IsSpace(s[|s| - 1]) then TrimRight(s[..|s| - 1]) else s
  }

  function TrimSpace(s: string): string { TrimRight(TrimLeft(s)) }

  /** Length of the leading run without whitespace. */
  function WordLength(s: string): (n: nat)
    ensures n <= |s| && (forall i :: 0 <= i < n ==> !IsSpace(s[i])) && (n < |s| ==> IsSpace(s[n]))
  {
    if s == [] || IsSpace(s[0]) then 0 else 1 + WordLength(s[1..])
  }

  /** strings.Fields. */
  function Fields(s: string): seq<string>
    decreases |s|
  {
    if s == [] then []
    else if IsSpace(s[0]) then Fields(s[1..])
    else
      var n := WordLength(s);
      [s[..n]] + Fields(s[n..])
  }

  /** Words set apart by gaps: gaps[0] word gaps[1] word ... gaps[n]. */
  function Join(words: seq<string>, gaps: seq<string>): string
    requires |gaps| == |words| + 1
  {
    if words == [] then gaps[0] else gaps[0] + (words[0] + Join(words[1..], gaps[1..]))
  }

  ghost predicate AreWords(words: seq<string>) {
    forall i :: 0 <= i < |words| ==> IsWord(words[i])
  }

  /** All gaps are whitespace, and the inner ones are not empty. */
  ghost predicate AreGaps(gaps: seq<string>) {
    && (forall i :: 0 <= i < |gaps| ==> AllSpace(gaps[i]))
    && (forall i :: 0 < i < |gaps| - 1 ==> gaps[i] != [])
  }

  lemma {:induction false} FieldsSkipsSpace(ws: string, s: string)
    requires AllSpace(ws)
    ensures Fields(ws + s) == Fields(s)
  {
    if ws == [] {
      assert ws + s == s;
    } else {
      assert (ws + s)[1..] == ws[1..] + s;
      FieldsSkipsSpace(ws[1..], s);
    }
  }

  /** A string has no word exactly when it is all whitespace. */
  lemma {:induction false} NoFieldsIff(s: string)
    ensures Fields(s) == [] <==> forall i :: 0 <= i < |s| ==> IsSpace(s[i])
  {
    if s != [] && IsSpace(s[0]) {
      NoFieldsIff(s[1..]);
      assert forall i :: 0 < i < |s| ==> s[i] == s[1..][i - 1];
    }
  }

  lemma WordLengthOf(w: string, rest: string)
    requires IsWord(w) && (rest == [] || IsSpace(rest[0]))
    ensures WordLength(w + rest) == |w|
  {
    assert forall i :: 0 <= i < |w| ==> (w + rest)[i] == w[i];
    assert rest != [] ==> (w + rest)[|w|] == rest[0];
  }

  lemma FieldsTakesWord(w: string, rest: string)
    requires IsWord(w) && (rest == [] || IsSpace(rest[0]))
    ensures Fields(w + rest) == [w] + Fields(rest)
  {
    WordLengthOf(w, rest);
    assert (w + rest)[..|w|] == w && (w + rest)[|w|..] == rest;
    assert !IsSpace((w + rest)[0]);
  }

  lemma JoinTail(words: seq<string>, gaps: seq<string>)
    requires |gaps| == |words| + 1 && words != [] && AreWords(words) && AreGaps(gaps)
    ensures AreWords(words[1..]) && AreGaps(gaps[1..])
    ensures var rest := Join(words[1..], gaps[1..]); rest == [] || IsSpace(rest[0])
  {
    var g := gaps[1];
    assert AllSpace(g);
    if words[1..] != [] {
      assert g != [];
      assert Join(words[1..], gaps[1..])[0] == g[0];
    }
  }

  /** Splitting undoes joining, whatever the whitespace between and around the words. */
  lemma {:induction false} FieldsOfJoin(words: seq<string>, gaps: seq<string>)
    requires |gaps| == |words| + 1 && AreWords(words) && AreGaps(gaps)
    ensures Fields(Join(words, gaps)) == words
  {
    if words == [] {
      assert gaps[0] + [] == gaps[0];
      FieldsSkipsSpace(gaps[0], []);
    } else {
      JoinTail(words, gaps);
      var rest := Join(words[1..], gaps[1..]);
      FieldsSkipsSpace(gaps[0], words[0] + rest);
      FieldsTakesWord(words[0], rest);
      FieldsOfJoin(words[1..], gaps[1..]);
    }
  }

  lemma {:induction false} FieldsTrailingSpace(s: string, ws: string)
    requires AllSpace(ws)
    ensures Fields(s + ws) == Fields(s)
    decreases |s|
  {
    if s == [] {
      assert s + ws == ws + [];
      FieldsSkipsSpace(ws, []);
    } else if IsSpace(s[0]) {
      assert (s + ws)[1..] == s[1..] + ws;
      FieldsTrailingSpace(s[1..], ws);
    } else {
      var n := WordLength(s);
      var w, rest := s[..n], s[n..];
      assert s == w + rest && s + ws == w + (rest + ws);
      FieldsTakesWord(w, rest);
      FieldsTakesWord(w, rest + ws);
      FieldsTrailingSpace(rest, ws);
    }
  }

  lemma {:induction false} FieldsOfTrimRight(s: string)
    ensures Fields(TrimRight(s)) == Fields(s)
  {
    if s != [] && IsSpace(s[|s| - 1]) {
      var front := s[..|s| - 1];
      FieldsOfTrimRight(front);
      assert s == front + [s[|s| - 1]];
      FieldsTrailingSpace(front, [s[|s| - 1]]);
    }
  }

  lemma {:induction false} FieldsOfTrimLeft(s: string)
    ensures Fields(TrimLeft(s)) == Fields(s)
  {
    if s != [] && IsSpace(s[0]) { FieldsOfTrimLeft(s[1..]); }
  }

  lemma FieldsOfTrim(s: string)
    ensures Fields(TrimSpace(s)) == Fields(s)
  {
    FieldsOfTrimLeft(s);
    FieldsOfTrimRight(TrimLeft(s));
  }

  lemma LongerFirstGap(c: char, gaps: seq<string>)
    requires gaps != [] && AreGaps(gaps) && IsSpace(c)
    ensures AreGaps(gaps[0 := [c] + gaps[0]])
  {
    var g := gaps[0 := [c] + gaps[0]];
    assert AllSpace(gaps[0]);
    forall i | 0 <= i < |g| ensures AllSpace(g[i]) {
      assert i > 0 ==> g[i] == gaps[i] && AllSpace(gaps[i]);
    }
    forall i | 0 < i < |g| - 1 ensures g[i] != [] {
      assert g[i] == gaps[i];
    }
  }

  lemma {:induction false} JoinLongerFirstGap(c: char, words: seq<string>, gaps: seq<string>)
    requires |gaps| == |words| + 1
    ensures Join(words, gaps[0 := [c] + gaps[0]]) == [c] + Join(words, gaps)
  {
    var g := gaps[0 := [c] + gaps[0]];
    if words != [] {
      assert g[1..] == gaps[1..];
      var rest := words[0] + Join(words[1..], gaps[1..]);
      assert ([c] + gaps[0]) + rest == [c] + (gaps[0] + rest);
    }
  }

  lemma JoinStartsWithWord(words: seq<string>, gaps: seq<string>)
    requires |gaps| == |words| + 1 && words != [] && AreWords(words)
    ensures gaps[0] == [] ==> Join(words, gaps) != [] && !IsSpace(Join(words, gaps)[0])
  {
    assert IsWord(words[0]);
  }

  lemma {:induction false} JoinAfterWord(w: string, words: seq<string>, g: seq<string>)
    requires |g| == |words| + 1
    ensures Join([w] + words, [[]] + g) == w + Join(words, g)
  {
    assert ([w] + words)[1..] == words && ([[]] + g)[1..] == g;
  }

  lemma GapsAfterWord(g: seq<string>)
    requires AreGaps(g) && (|g| > 1 ==> g[0] != [])
    ensures AreGaps([[]] + g)
  {
    var gaps := [[]] + g;
    forall i | 0 <= i < |gaps| ensures AllSpace(gaps[i]) { assert i > 0 ==> gaps[i] == g[i - 1]; }
    forall i | 0 < i < |gaps| - 1 ensures gaps[i] != [] { assert gaps[i] == g[i - 1]; }
  }

  /** s is the words, joined by the gaps. */
  ghost predicate Splits(s: string, words: seq<string>, gaps: seq<string>) {
    AreWords(words) && |gaps| == |words| + 1 && AreGaps(gaps) && s == Join(words, gaps)
  }

  lemma SplitsAfterSpace(c: char, rest: string, words: seq<string>, g: seq<string>)
    requires Splits(rest, words, g) && IsSpace(c)
    ensures Splits([c] + rest, words, g[0 := [c] + g[0]])
  {
    LongerFirstGap(c, g);
    JoinLongerFirstGap(c, words, g);
  }

  lemma SplitsAfterWord(w: string, rest: string, words: seq<string>, g: seq<string>)
    requires Splits(rest, words, g) && IsWord(w) && (rest == [] || IsSpace(rest[0]))
    ensures Splits(w + rest, [w] + words, [[]] + g)
  {
    if words != [] { JoinStartsWithWord(words, g); }
    GapsAfterWord(g);
    JoinAfterWord(w, words, g);
  }

  /** Every string is its fields, joined by some gaps. */
  lemma {:induction false} EveryStringIsJoined(s: string) returns (gaps: seq<string>)
    ensures Splits(s, Fields(s), gaps)
    decreases |s|
  {
    if s == [] {
      gaps := [[]];
    } else if IsSpace(s[0]) {
      var g := EveryStringIsJoined(s[1..]);
      SplitsAfterSpace(s[0], s[1..], Fields(s[1..]), g);
      gaps := g[0 := [s[0]] + g[0]];
      assert s == [s[0]] + s[1..];
    } else {
      var n := WordLength(s);
      var g := EveryStringIsJoined(s[n..]);
      SplitsAfterWord(s[..n], s[n..], Fields(s[n..]), g);
      gaps := [[]] + g;
      assert s == s[..n] + s[n..];
    }
  }

  // ---------------------------------------------------------------- parsing

  datatype ParseError = ErrEmptyCommand | ErrInvalidCommand | ErrInvalidArgument

  datatype Parsed = Tokens(tokens: seq<string>) | Rejected(error: ParseError)

  /** The verdict on a list of words. */
  function Judge(words: seq<string>): Parsed {
    if words == [] then Rejected(ErrEmptyCommand)
    else
      var tokens := words[0 := ToUpper(words[0])];
      if !ValidateCommand(tokens[0]) then Rejected(ErrInvalidCommand)
      else if exists i :: 0 <= i < |tokens| && !ValidateArgument(tokens[i]) then Rejected(ErrInvalidArgument)
      else Tokens(tokens)
  }

  method ParseAndValidate(raw: string) returns (r: Parsed)
    ensures r == Judge(Fields(raw))
    ensures r == Rejected(ErrEmptyCommand) <==> forall i :: 0 <= i < |raw| ==> IsSpace(raw[i])
  {
    FieldsOfTrim(raw);
    NoFieldsIff(raw);
    var tokens := Fields(TrimSpace(raw));
    if |tokens| == 0 {
      return Rejected(ErrEmptyCommand);
    }
    tokens := tokens[0 := ToUpper(tokens[0])];
    if !ValidateCommand(tokens[0]) {
      return Rejected(ErrInvalidCommand);
    }
    for n := 0 to |tokens|
      invariant forall i :: 0 <= i < n ==> ValidateArgument(tokens[i])
    {
      if !ValidateArgument(tokens[n]) {
        return Rejected(ErrInvalidArgument);
      }
    }
    return Tokens(tokens);
  }

  predicate BadInCommand(c: char) {
    !('A' <= c <= 'Z' || 'a' <= c <= 'z' || c as int == 0x131 || c as int == 0x17F)
  }

  predicate BadInArgument(c: char) {
    !('A' <= c <= 'Z' || 'a' <= c <= 'z' || '0' <= c <= '9' || c == '*' || c == '/' || c == '_' || c == '.')
  }

  ghost predicate HasRune(word: string, bad: char -> bool) {
    exists j :: 0 <= j < |word| && bad(word[j])
  }

  lemma ArgumentIff(word: string)
    ensures ValidateArgument(word) <==> !HasRune(word, BadInArgument)
  {
    if ValidateArgument(word) {
      forall j | 0 <= j < |word| ensures !BadInArgument(word[j]) {
        assert IsAnyLetter(word[j]) || IsDigit(word[j]) || IsPunctuation(word[j]);
      }
    }
  }

  lemma CommandIff(word: string)
    ensures ValidateCommand(ToUpper(word)) <==> !HasRune(word, BadInCommand)
    ensures ValidateCommand(ToUpper(word)) ==> ValidateArgument(ToUpper(word))
  {
    AcceptedCommandIff(word);
    if ValidateCommand(ToUpper(word)) {
      forall j | 0 <= j < |word| ensures !BadInCommand(word[j]) { assert IsUpperLetter(ToUpper(word)[j]); }
      forall j | 0 <= j < |word| ensures IsAnyLetter(ToUpper(word)[j]) { assert IsUpperLetter(ToUpper(word)[j]); }
    }
  }

  /** The white space of Unicode, code point by code point. */
  const WHITE_SPACE := [9, 10, 11, 12, 13, 32, 133, 160, 5760,
    8192, 8193, 8194, 8195, 8196, 8197, 8198, 8199, 8200, 8201, 8202, 8232, 8233, 8239, 8287, 12288]

  lemma SpaceIff(c: char)
    ensures IsSpace(c) <==> c as int in WHITE_SPACE
  {
  }

  /**
   The verdict on words, rune by rune. ErrEmptyCommand: there is no word. ErrInvalidCommand:
   the first word has a rune other than an ASCII letter, dotless i or long s.
   ErrInvalidArgument: it has none, but a later word has a rune other than an ASCII letter, a
   digit or one of * / _ and the full stop. Otherwise the words are accepted, the first one
   upper-cased.
   */
  lemma VerdictIff(words: seq<string>)
    ensures Judge(words) == Rejected(ErrEmptyCommand) <==> words == []
    ensures Judge(words) == Rejected(ErrInvalidCommand) <==> words != [] && HasRune(words[0], BadInCommand)
    ensures Judge(words) == Rejected(ErrInvalidArgument) <==>
      && words != [] && !HasRune(words[0], BadInCommand)
      && exists i :: 0 < i < |words| && HasRune(words[i], BadInArgument)
    ensures Judge(words).Tokens? <==>
      && words != [] && !HasRune(words[0], BadInCommand)
      && forall i :: 0 < i < |words| ==> !HasRune(words[i], BadInArgument)
    ensures Judge(words).Tokens? ==>
      && |Judge(words).tokens| == |words| && Judge(words).tokens[1..] == words[1..]
      && IsUpperCase(Judge(words).tokens[0], words[0])
  {
    if words != [] {
      CommandIff(words[0]);
      var tokens := words[0 := ToUpper(words[0])];
      forall i | 0 < i < |words| ensures ValidateArgument(tokens[i]) <==> !HasRune(words[i], BadInArgument) {
        ArgumentIff(words[i]);
      }
      if exists i :: 0 <= i < |tokens| && !ValidateArgument(tokens[i]) {
        var i :| 0 <= i < |tokens| && !ValidateArgument(tokens[i]);
        assert ValidateCommand(tokens[0]) ==> i > 0;
      }
      if i :| 0 < i < |words| && HasRune(words[i], BadInArgument) { assert !ValidateArgument(tokens[i]); }
    }
  }

  /** up is word with small ASCII letters, dotless i and long s replaced by their capitals. */
  ghost predicate IsUpperCase(up: string, word: string) {
    && |up| == |word|
    && forall j :: 0 <= j < |word| ==>
         && ('a' <= word[j] <= 'z' ==> up[j] as int == word[j] as int - 32)
         && (word[j] as int == 0x131 ==> up[j] == 'I')
         && (word[j] as int == 0x17F ==> up[j] == 'S')
         && ('A' <= word[j] <= 'Z' ==> up[j] == word[j])
  }

  /** What is accepted: non-empty tokens without whitespace, the first all upper-case letters. */
  lemma AcceptedTokens(raw: string)
    requires Judge(Fields(raw)).Tokens?
    ensures var ts := Judge(Fields(raw)).tokens;
      && ts != [] && AreWords(ts) && ValidateCommand(ts[0])
      && |ts| == |Fields(raw)| && ts[1..] == Fields(raw)[1..]
      && forall i :: 0 <= i < |ts| ==> ValidateArgument(ts[i])
  {
    var gaps := EveryStringIsJoined(raw);
    var ts := Judge(Fields(raw)).tokens;
    assert IsWord(Fields(raw)[0]);
    forall i | 0 <= i < |ts| ensures IsWord(ts[i]) {
      assert ValidateArgument(ts[i]);
      assert i > 0 ==> ts[i] == Fields(raw)[i] && IsWord(Fields(raw)[i]);
    }
  }

  lemma UpperIsFixed(s: string)
    requires ValidateCommand(s)
    ensures ToUpper(s) == s
  {
  }

  /** Accepted tokens, set apart by any whitespace, parse to themselves; so parsing is idempotent. */
  lemma ParseRoundTrip(raw: string, gaps: seq<string>)
    requires Judge(Fields(raw)).Tokens?
    requires |gaps| == |Judge(Fields(raw)).tokens| + 1 && AreGaps(gaps)
    ensures Judge(Fields(Join(Judge(Fields(raw)).tokens, gaps))) == Judge(Fields(raw))
  {
    AcceptedTokens(raw);
    var ts := Judge(Fields(raw)).tokens;
    FieldsOfJoin(ts, gaps);
    UpperIsFixed(ts[0]);
    assert ts[0 := ToUpper(ts[0])] == ts;
  }

  /**
   A command name is accepted exactly when its runes are ASCII letters, dotless i or long
   s. The last two are accepted although ErrInvalidCommand is documented for everything
   but ASCII letters.
   */
  lemma AcceptedCommandIff(word: string)
    ensures ValidateCommand(ToUpper(word)) <==>
            forall i :: 0 <= i < |word| ==> IsAnyLetter(word[i]) || word[i] as int == 0x131 || word[i] as int == 0x17F
  {
    if ValidateCommand(ToUpper(word)) {
      forall i | 0 <= i < |word| ensures IsAnyLetter(word[i]) || word[i] as int == 0x131 || word[i] as int == 0x17F {
        assert IsUpperLetter(ToUpper(word)[i]);
      }
    }
  }
}
