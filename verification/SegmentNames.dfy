/**
 Segment file names, mask + decimal nanoseconds + ".log", and the sorted directory
 listing that recovery replays. Strings are compared as sort.Strings does.
 */
module SegmentNames {
  import opened Sorting

  function Digit(d: nat): char
    requires d < 10
  {
    ('0' as int + d) as char
  }

  /** fmt's %d on a non-negative number. */
  function Digits(n: nat): (s: string)
    ensures |s| > 0 && forall i :: 0 <= i < |s| ==> '0' <= s[i] <= '9'
  {
    if n < 10 then [Digit(n)] else Digits(n / 10) + [Digit(n % 10)]
  }

  const SUFFIX := ".log"

  function Name(mask: string, stamp: nat): string {
    mask + Digits(stamp) + SUFFIX
  }

  function Path(directory: string, name: string): string {
    directory + "/" + name
  }

  predicate Less(a: string, b: string) {
    b != [] && (a == [] || a[0] < b[0] || (a[0] == b[0] && Less(a[1..], b[1..])))
  }

  predicate Leq(a: string, b: string) { a == b || Less(a, b) }

  /** b without its last k decimal digits. */
  function Cut(b: nat, k: nat): nat
    decreases k
  {
    if k == 0 then b else Cut(b / 10, k - 1)
  }

  // ---------------------------------------------------------------- the order on strings

  lemma {:induction false} LessTotal(a: string, b: string)
    ensures Less(a, b) || Less(b, a) || a == b
    ensures !(Less(a, b) && Less(b, a)) && !Less(a, a)
  {
    if a != [] && b != [] {
      LessTotal(a[1..], b[1..]);
      assert a == [a[0]] + a[1..] && b == [b[0]] + b[1..];
    }
    if a != [] { LessTotal(a[1..], a[1..]); }
  }

  lemma {:induction false} LessTransitive(a: string, b: string, c: string)
    requires Less(a, b) && Less(b, c)
    ensures Less(a, c)
  {
    if a != [] && a[0] == b[0] && b[0] == c[0] {
      LessTransitive(a[1..], b[1..], c[1..]);
    }
  }

  lemma LeqIsOrder(s: seq<string>)
    ensures IsOrder(Leq, s) && NoTies(Leq, s)
  {
    forall x, y ensures (Leq(x, y) || Leq(y, x)) && (Leq(x, y) && Leq(y, x) ==> x == y) {
      LessTotal(x, y);
    }
    forall x, y, z | Leq(x, y) && Leq(y, z) ensures Leq(x, z) {
      if Less(x, y) && Less(y, z) { LessTransitive(x, y, z); }
    }
  }

  lemma {:induction false} LessSamePrefix(p: string, u: string, v: string)
    ensures Less(p + u, p + v) <==> Less(u, v)
  {
    if p == [] {
      assert p + u == u && p + v == v;
    } else {
      assert (p + u)[1..] == p[1..] + u && (p + v)[1..] == p[1..] + v;
      LessSamePrefix(p[1..], u, v);
    }
  }

  lemma {:induction false} LessDecidedEarly(x: string, y: string, u: string, v: string)
    requires |x| == |y| && Less(x, y)
    ensures Less(x + u, y + v)
  {
    assert (x + u)[1..] == x[1..] + u && (y + v)[1..] == y[1..] + v;
    if x[0] == y[0] { LessDecidedEarly(x[1..], y[1..], u, v); }
  }

  // ---------------------------------------------------------------- numbers as strings

  lemma {:induction false} DigitsMonotone(a: nat, b: nat)
    requires a < b && |Digits(a)| == |Digits(b)|
    ensures Less(Digits(a), Digits(b))
  {
    if a >= 10 {
      var x, y := Digits(a / 10), Digits(b / 10);
      if a / 10 < b / 10 {
        DigitsMonotone(a / 10, b / 10);
        LessDecidedEarly(x, y, [Digit(a % 10)], [Digit(b % 10)]);
      } else {
        LessSamePrefix(x, [Digit(a % 10)], [Digit(b % 10)]);
      }
    }
  }

  lemma {:induction false} MoreDigits(a: nat, b: nat)
    requires a <= b
    ensures |Digits(a)| <= |Digits(b)|
  {
    if b >= 10 && a >= 10 { MoreDigits(a / 10, b / 10); }
  }

  lemma {:induction false} DigitsPrefix(b: nat, k: nat)
    requires k < |Digits(b)|
    ensures Digits(b)[..|Digits(b)| - k] == Digits(Cut(b, k))
  {
    if k == 0 {
      assert Digits(b)[..|Digits(b)|] == Digits(b);
    } else {
      DigitsPrefix(b / 10, k - 1);
      assert Digits(b)[..|Digits(b)| - k] == Digits(b / 10)[..|Digits(b / 10)| - (k - 1)];
    }
  }

  /** x and y are digit strings, x no longer than y; p is the part of y as long as x. */
  lemma SuffixedOrder(x: string, p: string, rest: string)
    requires |x| == |p| && forall i :: 0 <= i < |rest| ==> '0' <= rest[i] <= '9'
    ensures Less(x, p) ==> Less(x + SUFFIX, p + (rest + SUFFIX))
    ensures Less(p, x) ==> !Less(x + SUFFIX, p + (rest + SUFFIX))
    ensures x == p && rest != [] ==> Less(x + SUFFIX, p + (rest + SUFFIX))
  {
    if Less(x, p) {
      LessDecidedEarly(x, p, SUFFIX, rest + SUFFIX);
    }
    if Less(p, x) {
      LessDecidedEarly(p, x, rest + SUFFIX, SUFFIX);
      LessTotal(x + SUFFIX, p + (rest + SUFFIX));
    }
    if x == p && rest != [] {
      LessSamePrefix(x, SUFFIX, rest + SUFFIX);
      assert SUFFIX[0] < (rest + SUFFIX)[0];
    }
  }

  lemma NameParts(mask: string, n: nat, k: nat)
    requires k <= |Digits(n)|
    ensures Name(mask, n) == mask + (Digits(n)[..k] + (Digits(n)[k..] + SUFFIX))
    ensures k == |Digits(n)| ==> Name(mask, n) == mask + (Digits(n) + SUFFIX)
  {
    assert Digits(n) == Digits(n)[..k] + Digits(n)[k..];
  }

  /**
   Of two timestamps the smaller lists first exactly when it does not exceed the larger
   one cut to as many leading digits.
   */
  lemma NamesChronologicalIff(mask: string, a: nat, b: nat)
    requires a < b
    ensures |Digits(a)| <= |Digits(b)|
    ensures Less(Name(mask, a), Name(mask, b)) <==> a <= Cut(b, |Digits(b)| - |Digits(a)|)
  {
    MoreDigits(a, b);
    var x, y := Digits(a), Digits(b);
    var cut := Cut(b, |y| - |x|);
    var p, rest := y[..|x|], y[|x|..];
    assert p == Digits(cut) by { DigitsPrefix(b, |y| - |x|); }
    NameParts(mask, a, |x|);
    NameParts(mask, b, |x|);
    LessSamePrefix(mask, x + SUFFIX, p + (rest + SUFFIX));
    SuffixedOrder(x, p, rest);
    if a < cut {
      DigitsMonotone(a, cut);
    } else if a > cut {
      DigitsMonotone(cut, a);
    } else {
      assert rest != [];
    }
  }

  /** The number a decimal string denotes. */
  function Denotes(s: string): int {
    if s == [] then 0 else 10 * Denotes(s[..|s| - 1]) + (s[|s| - 1] as int - '0' as int)
  }

  /** A file's name is the mask, the timestamp in decimal without leading zeros, and .log. */
  lemma {:induction false} NameDenotes(mask: string, n: nat)
    ensures Denotes(Digits(n)) == n && (Digits(n)[0] == '0' ==> n == 0)
    ensures Name(mask, n) == mask + Digits(n) + ".log"
  {
    if n >= 10 { NameDenotes(mask, n / 10); }
  }

  // ---------------------------------------------------------------- the listing

  datatype Entry = Entry(name: string, isDir: bool)

  function Paths(directory: string, entries: seq<Entry>): seq<string> {
    if entries == [] then []
    else
      var e := entries[|entries| - 1];
      Paths(directory, entries[..|entries| - 1]) + (if e.isDir then [] else [Path(directory, e.name)])
  }

  function HasPath(directory: string, p: string): Entry -> bool {
    (e: Entry) => !e.isDir && directory + "/" + e.name == p
  }

  /** Paths lists the regular files, each once, and nothing else. */
  lemma {:induction false} PathsCount(directory: string, entries: seq<Entry>, p: string)
    ensures multiset(Paths(directory, entries))[p] == |Where(HasPath(directory, p), entries)|
  {
    if entries == [] {
      assert Where(HasPath(directory, p), entries) == {};
    } else {
      var n := |entries| - 1;
      PathsCount(directory, entries[..n], p);
      WhereLast(HasPath(directory, p), entries[..n], entries[n]);
      assert entries == entries[..n] + [entries[n]];
      assert Path(directory, entries[n].name) == directory + "/" + entries[n].name;
      assert entries[n].isDir ==> Paths(directory, entries) == Paths(directory, entries[..n]);
    }
  }

  /**
   GetFileList: a sorted list in which a path occurs as often as there are entries that are
   not directories and have it.
   */
  method GetFileList(directory: string, entries: seq<Entry>) returns (list: seq<string>)
    ensures Sorted(Leq, list)
    ensures forall p :: multiset(list)[p] ==
              |set i: nat | i < |entries| && !entries[i].isDir && directory + "/" + entries[i].name == p|
    ensures forall p :: p in list <==>
              exists i :: 0 <= i < |entries| && !entries[i].isDir && directory + "/" + entries[i].name == p
  {
    var names: seq<string> := [];
    for i := 0 to |entries|
      invariant names == Paths(directory, entries[..i])
    {
      assert entries[..i + 1][..i] == entries[..i];
      if entries[i].isDir {
        continue;
      }
      names := names + [Path(directory, entries[i].name)];
    }
    assert entries[..|entries|] == entries;
    LeqIsOrder(names);
    SortSorts(Leq, names);
    list := Sort(Leq, names);
    forall p
      ensures multiset(list)[p] == |set i: nat | i < |entries| && !entries[i].isDir && directory + "/" + entries[i].name == p|
      ensures p in list <==> exists i :: 0 <= i < |entries| && !entries[i].isDir && directory + "/" + entries[i].name == p
    {
      PathListed(directory, entries, list, p);
    }
  }

  lemma PathListed(directory: string, entries: seq<Entry>, list: seq<string>, p: string)
    requires multiset(list) == multiset(Paths(directory, entries))
    ensures multiset(list)[p] == |set i: nat | i < |entries| && !entries[i].isDir && directory + "/" + entries[i].name == p|
    ensures p in list <==> exists i :: 0 <= i < |entries| && !entries[i].isDir && directory + "/" + entries[i].name == p
  {
    PathsCount(directory, entries, p);
    var at := Where(HasPath(directory, p), entries);
    assert at == set i: nat | i < |entries| && !entries[i].isDir && directory + "/" + entries[i].name == p;
    assert p in list <==> multiset(list)[p] > 0;
    if at != {} { var i :| i in at; }
    if i :| 0 <= i < |entries| && !entries[i].isDir && directory + "/" + entries[i].name == p { assert i in at; }
  }

  function SegmentPaths(directory: string, mask: string, stamps: seq<nat>): seq<string> {
    seq(|stamps|, i requires 0 <= i < |stamps| => Path(directory, Name(mask, stamps[i])))
  }

  /** b without its last digits, as many leading ones as a has, is at least a. */
  predicate CutBelow(a: nat, b: nat)
    requires a < b
  {
    MoreDigits(a, b);
    a <= Cut(b, |Digits(b)| - |Digits(a)|)
  }

  /** Whether a file created at a lists before one created at b. */
  predicate ListsBefore(a: nat, b: nat) {
    (a < b && CutBelow(a, b)) || (b < a && !CutBelow(b, a))
  }

  lemma {:induction false} DigitsInjective(a: nat, b: nat)
    requires Digits(a) == Digits(b)
    ensures a == b
  {
    if a < b { DigitsMonotone(a, b); LessTotal(Digits(a), Digits(b)); }
    if b < a { DigitsMonotone(b, a); LessTotal(Digits(a), Digits(b)); }
  }

  /** Names are injective in the timestamp. */
  lemma PathsDiffer(directory: string, mask: string, a: nat, b: nat)
    requires a != b
    ensures Path(directory, Name(mask, a)) != Path(directory, Name(mask, b))
  {
    var x, y := Path(directory, Name(mask, a)), Path(directory, Name(mask, b));
    if x == y {
      var h := |directory| + 1 + |mask|;
      assert x[h..|x| - |SUFFIX|] == Digits(a) && y[h..|y| - |SUFFIX|] == Digits(b);
      DigitsInjective(a, b);
    }
  }

  lemma PathOrderIncreasing(directory: string, mask: string, a: nat, b: nat)
    requires a < b
    ensures Less(Path(directory, Name(mask, a)), Path(directory, Name(mask, b))) <==> CutBelow(a, b)
  {
    LessSamePrefix(directory + "/", Name(mask, a), Name(mask, b));
    NamesChronologicalIff(mask, a, b);
  }

  /** The order of two paths, for any two timestamps. */
  lemma PathOrder(directory: string, mask: string, a: nat, b: nat)
    ensures Less(Path(directory, Name(mask, a)), Path(directory, Name(mask, b))) <==> ListsBefore(a, b)
  {
    LessTotal(Path(directory, Name(mask, a)), Path(directory, Name(mask, b)));
    if a < b {
      PathOrderIncreasing(directory, mask, a, b);
    } else if b < a {
      PathOrderIncreasing(directory, mask, b, a);
      PathsDiffer(directory, mask, a, b);
    }
  }

  /** Names are created exclusively, so timestamps of one directory differ. */
  ghost predicate Distinct(stamps: seq<nat>) {
    forall i, j :: 0 <= i < j < |stamps| ==> stamps[i] != stamps[j]
  }

  /** Every file lists before the one created next. */
  ghost predicate InOrder(stamps: seq<nat>) {
    forall i {:trigger stamps[i]} :: 0 < i < |stamps| ==> ListsBefore(stamps[i - 1], stamps[i])
  }

  lemma {:induction false} InOrderFar(directory: string, mask: string, stamps: seq<nat>, i: nat, j: nat)
    requires InOrder(stamps) && i < j < |stamps|
    ensures var ps := SegmentPaths(directory, mask, stamps); Less(ps[i], ps[j])
    decreases j
  {
    var ps := SegmentPaths(directory, mask, stamps);
    assert ListsBefore(stamps[j - 1], stamps[j]);
    PathOrder(directory, mask, stamps[j - 1], stamps[j]);
    if i < j - 1 {
      InOrderFar(directory, mask, stamps, i, j - 1);
      LessTransitive(ps[i], ps[j - 1], ps[j]);
    }
  }

  /** Paths climb exactly when the timestamps are in order. */
  lemma SortedIffInOrder(directory: string, mask: string, stamps: seq<nat>)
    requires Distinct(stamps)
    ensures Sorted(Leq, SegmentPaths(directory, mask, stamps)) <==> InOrder(stamps)
  {
    var ps := SegmentPaths(directory, mask, stamps);
    if InOrder(stamps) {
      forall i, j | 0 <= i < j < |ps| ensures Leq(ps[i], ps[j]) { InOrderFar(directory, mask, stamps, i, j); }
    }
    if Sorted(Leq, ps) {
      forall i | 0 < i < |stamps| ensures ListsBefore(stamps[i - 1], stamps[i]) {
        assert Leq(ps[i - 1], ps[i]);
        PathsDiffer(directory, mask, stamps[i - 1], stamps[i]);
        PathOrder(directory, mask, stamps[i - 1], stamps[i]);
      }
    }
  }

  /**
   Whatever order the directory is read in, and whatever the clock did between the
   creations, the sorted listing is the creation order exactly when every file's timestamp
   lists before the next one's.
   */
  lemma ListingChronologicalIff(directory: string, mask: string, stamps: seq<nat>, list: seq<string>)
    requires Distinct(stamps)
    requires IsSorting(Leq, SegmentPaths(directory, mask, stamps), list)
    ensures list == SegmentPaths(directory, mask, stamps) <==> InOrder(stamps)
  {
    var ps := SegmentPaths(directory, mask, stamps);
    SortedIffInOrder(directory, mask, stamps);
    if InOrder(stamps) {
      LeqIsOrder(ps);
      SortOfSorted(Leq, ps, list);
    }
  }

  ghost predicate Increasing(stamps: seq<nat>) {
    forall i, j :: 0 <= i < j < |stamps| ==> stamps[i] < stamps[j]
  }

  lemma LaterStampsList(a: nat, b: nat)
    requires a < b && |Digits(a)| == |Digits(b)|
    ensures ListsBefore(a, b) && !ListsBefore(b, a)
  {
    assert Cut(b, 0) == b;
  }

  /** Timestamps with equally many digits, as nanosecond clocks give, list chronologically when they increase. */
  lemma ListingIsChronological(directory: string, mask: string, stamps: seq<nat>, list: seq<string>)
    requires Increasing(stamps)
    requires forall i, j :: 0 <= i < |stamps| && 0 <= j < |stamps| ==> |Digits(stamps[i])| == |Digits(stamps[j])|
    requires IsSorting(Leq, SegmentPaths(directory, mask, stamps), list)
    ensures list == SegmentPaths(directory, mask, stamps)
  {
    forall i | 0 < i < |stamps| ensures ListsBefore(stamps[i - 1], stamps[i]) {
      LaterStampsList(stamps[i - 1], stamps[i]);
    }
    ListingChronologicalIff(directory, mask, stamps, list);
  }

  /** The digit count matters: of the timestamps 9 and 10 the later one lists first. */
  lemma ListingBreaksAcrossDigitCounts(directory: string, mask: string, list: seq<string>)
    requires IsSorting(Leq, SegmentPaths(directory, mask, [9, 10]), list)
    ensures list != SegmentPaths(directory, mask, [9, 10])
  {
    var stamps: seq<nat> := [9, 10];
    assert |Digits(9)| == 1 && |Digits(10)| == 2;
    assert Cut(10, 1) == Cut(1, 0) == 1;
    assert !ListsBefore(stamps[1 - 1], stamps[1]);
    ListingChronologicalIff(directory, mask, stamps, list);
  }

  /** So does the clock: a file created at 10 after one created at 20 lists first. */
  lemma ListingBreaksWhenTheClockStepsBack(directory: string, mask: string, list: seq<string>)
    requires IsSorting(Leq, SegmentPaths(directory, mask, [20, 10]), list)
    ensures list != SegmentPaths(directory, mask, [20, 10])
  {
    var stamps: seq<nat> := [20, 10];
    LaterStampsList(10, 20);
    assert !ListsBefore(stamps[1 - 1], stamps[1]);
    ListingChronologicalIff(directory, mask, stamps, list);
  }
}
