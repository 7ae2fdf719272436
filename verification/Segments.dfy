/**
 Segment files: lazy creation, next-fit rotation, size tracking and reopening after a
 restart. A write is a chunk: its payload, its length in bytes, and whether the writer
 reported success. Disk faults are inputs.
 */
module Segments {
  import opened Sorting
  import opened SegmentNames

  datatype Chunk<+T> = Chunk(data: T, size: nat, acked: bool)

  /** stamp is the nanosecond timestamp in the file's name. */
  datatype File<+T> = File(stamp: nat, chunks: seq<Chunk<T>>)

  /** How WriteFile ends: data on disk, nothing on disk, or an error with the data on disk (failed Sync). */
  datatype Io = Stored | Lost | LeftBehind

  /** What the disk does during one Write: whether a file creation succeeds, under which timestamp. */
  datatype Env = Env(creates: bool, stamp: nat, io: Io)

  /** Where segments are kept, and the first part of their names. */
  datatype Site = Site(directory: string, mask: string)

  /**
   files is the directory: first the files found at the last listing, as listed, then those
   created since. The write target is the last one. hasFile is seg.file != nil.
   */
  datatype Segment<+T> = Segment(
    files: seq<File<T>>, hasFile: bool, closed: bool, segmentSize: int, maxSegmentSize: int)

  datatype Written<+T> = Written(seg: Segment<T>, ok: bool)

  function Total<T>(chunks: seq<Chunk<T>>): nat {
    if chunks == [] then 0 else Total(chunks[..|chunks| - 1]) + chunks[|chunks| - 1].size
  }

  function AllChunks<T>(files: seq<File<T>>): seq<Chunk<T>> {
    if files == [] then [] else AllChunks(files[..|files| - 1]) + files[|files| - 1].chunks
  }

  /** O_EXCL: a name that is taken fails the creation. */
  predicate CanCreate<T>(seg: Segment<T>, env: Env) {
    env.creates && forall i :: 0 <= i < |seg.files| ==> seg.files[i].stamp != env.stamp
  }

  function Create<T>(seg: Segment<T>, env: Env): Segment<T> {
    seg.(files := seg.files + [File(env.stamp, [])], hasFile := true, closed := false, segmentSize := 0)
  }

  predicate MustRotate<T>(seg: Segment<T>, size: nat) {
    seg.maxSegmentSize > 0 && seg.segmentSize > 0 && seg.segmentSize + size > seg.maxSegmentSize
  }

  /** The part of Write before the data is written. A failed rotation has already closed the old file. */
  function Target<T>(seg: Segment<T>, size: nat, env: Env): Written<T> {
    if !seg.hasFile then
      if CanCreate(seg, env) then Written(Create(seg, env), true) else Written(seg, false)
    else if MustRotate(seg, size) then
      if CanCreate(seg, env) then Written(Create(seg, env), true) else Written(seg.(closed := true), false)
    else Written(seg, true)
  }

  function AppendChunk<T>(files: seq<File<T>>, c: Chunk<T>): seq<File<T>>
    requires files != []
  {
    var n := |files| - 1;
    files[..n] + [files[n].(chunks := files[n].chunks + [c])]
  }

  function Write<T>(seg: Segment<T>, data: T, size: nat, env: Env): Written<T>
    requires seg.hasFile ==> seg.files != []
  {
    var t := Target(seg, size, env);
    if !t.ok || t.seg.closed then Written(t.seg, false)
    else match env.io
      case Stored =>
        Written(t.seg.(files := AppendChunk(t.seg.files, Chunk(data, size, true)),
                       segmentSize := t.seg.segmentSize + size), true)
      case Lost => Written(t.seg, false)
      case LeftBehind =>
        Written(t.seg.(files := AppendChunk(t.seg.files, Chunk(data, size, false))), false)
  }

  /** SetFile on the last file; when Stat fails the size is taken as 0. */
  function Reopen<T>(files: seq<File<T>>, maxSegmentSize: int, statOk: bool): Segment<T>
    requires files != []
  {
    Segment(files, true, false, if statOk then Total(files[|files| - 1].chunks) else 0, maxSegmentSize)
  }

  /** NewSegment. */
  function Unopened<T>(files: seq<File<T>>, maxSegmentSize: int): Segment<T> {
    Segment(files, false, false, 0, maxSegmentSize)
  }

  // ---------------------------------------------------------------- the log only grows

  lemma AppendChunkAll<T>(files: seq<File<T>>, c: Chunk<T>)
    requires files != []
    ensures AllChunks(AppendChunk(files, c)) == AllChunks(files) + [c]
  {
    var n := |files| - 1;
    var f' := AppendChunk(files, c);
    assert f'[..n] == files[..n];
    assert AllChunks(f') == AllChunks(files[..n]) + (files[n].chunks + [c]);
  }

  lemma CreateAll<T>(seg: Segment<T>, env: Env)
    ensures AllChunks(Create(seg, env).files) == AllChunks(seg.files)
  {
    var f' := Create(seg, env).files;
    assert f'[..|f'| - 1] == seg.files;
  }

  /** What one Write leaves on disk. */
  function Added<T>(seg: Segment<T>, data: T, size: nat, env: Env): seq<Chunk<T>> {
    var t := Target(seg, size, env);
    if !t.ok || t.seg.closed || env.io == Lost then [] else [Chunk(data, size, env.io == Stored)]
  }

  /**
   A write adds exactly its own chunk at the end of the log when it succeeds, and on an
   error adds nothing or its unacknowledged chunk; it never changes what was there.
   */
  lemma WriteExtendsLog<T>(seg: Segment<T>, data: T, size: nat, env: Env)
    requires seg.hasFile ==> seg.files != []
    ensures var w := Write(seg, data, size, env);
      && (w.seg.hasFile ==> w.seg.files != [])
      && (w.ok ==> w.seg.hasFile)
      && AllChunks(w.seg.files) == AllChunks(seg.files) + Added(seg, data, size, env)
      && (w.ok <==> Added(seg, data, size, env) == [Chunk(data, size, true)])
      && (!w.ok ==> Added(seg, data, size, env) == [] || Added(seg, data, size, env) == [Chunk(data, size, false)])
  {
    var t := Target(seg, size, env);
    CreateAll(seg, env);
    if t.seg.files != [] {
      AppendChunkAll(t.seg.files, Chunk(data, size, true));
      AppendChunkAll(t.seg.files, Chunk(data, size, false));
    }
  }

  /**
   When a write succeeds: the data is stored, and either a file has to be started, can be,
   and its name is not taken, or none has to be and the current one is not closed.
   */
  lemma WriteSucceedsIff<T>(seg: Segment<T>, data: T, size: nat, env: Env)
    requires seg.hasFile ==> seg.files != []
    ensures Write(seg, data, size, env).ok <==>
      && env.io == Stored
      && (if !seg.hasFile || (seg.maxSegmentSize > 0 && seg.segmentSize > 0 && seg.segmentSize + size > seg.maxSegmentSize)
          then env.creates && forall i :: 0 <= i < |seg.files| ==> seg.files[i].stamp != env.stamp
          else !seg.closed)
  {
  }

  /** The directory after a write that has to start a file, whether it succeeded or not. */
  lemma WriteNewFile<T>(seg: Segment<T>, data: T, size: nat, env: Env)
    requires seg.hasFile ==> seg.files != []
    requires !seg.hasFile || (seg.maxSegmentSize > 0 && seg.segmentSize > 0 && seg.segmentSize + size > seg.maxSegmentSize)
    ensures var now := Write(seg, data, size, env).seg;
      var left := if env.io == Lost then [] else [Chunk(data, size, env.io == Stored)];
      if env.creates && forall i :: 0 <= i < |seg.files| ==> seg.files[i].stamp != env.stamp
      then now == Segment(seg.files + [File(env.stamp, left)], true, false, if env.io == Stored then size else 0, seg.maxSegmentSize)
      else now == seg.(closed := seg.closed || seg.hasFile)
  {
    var empty: File<T> := File(env.stamp, []);
    assert forall c: Chunk<T> :: AppendChunk(seg.files + [empty], c) == seg.files + [File(env.stamp, [c])] by {
      forall c: Chunk<T> ensures AppendChunk(seg.files + [empty], c) == seg.files + [File(env.stamp, [c])] {
        assert [] + [c] == [c];
      }
    }
  }

  /** The directory after a write that goes to the current file. */
  lemma WriteSameFile<T>(seg: Segment<T>, data: T, size: nat, env: Env)
    requires seg.hasFile && seg.files != []
    requires !(seg.maxSegmentSize > 0 && seg.segmentSize > 0 && seg.segmentSize + size > seg.maxSegmentSize)
    ensures var now, n := Write(seg, data, size, env).seg, |seg.files| - 1;
      var left := if env.io == Lost then [] else [Chunk(data, size, env.io == Stored)];
      if seg.closed then now == seg
      else now == seg.(files := seg.files[..n] + [File(seg.files[n].stamp, seg.files[n].chunks + left)],
                       segmentSize := seg.segmentSize + if env.io == Stored then size else 0)
  {
    var n := |seg.files| - 1;
    assert seg.files == seg.files[..n] + [seg.files[n]];
    assert seg.files[n].chunks + [] == seg.files[n].chunks;
  }

  // ---------------------------------------------------------------- the listing

  function PathOf(site: Site, stamp: nat): string { Path(site.directory, Name(site.mask, stamp)) }

  function PathLeq<T>(site: Site): (File<T>, File<T>) -> bool {
    (a: File<T>, b: File<T>) => Leq(PathOf(site, a.stamp), PathOf(site, b.stamp))
  }

  /** The directory as GetList lists it: its files sorted by path. */
  function Listing<T>(site: Site, files: seq<File<T>>): seq<File<T>> { Sort(PathLeq<T>(site), files) }

  function Stamps<T>(files: seq<File<T>>): seq<nat> { Image((f: File<T>) => f.stamp, files) }

  /** Every file lists before the next one. */
  ghost predicate FilesInOrder<T>(files: seq<File<T>>) { InOrder(Stamps(files)) }

  lemma ListingSorts<T>(site: Site, files: seq<File<T>>)
    ensures IsSorting(PathLeq<T>(site), files, Listing(site, files))
    ensures |Listing(site, files)| == |files|
  {
    assert IsOrder(PathLeq<T>(site), files) by {
      forall x, y, z | Leq(x, y) && Leq(y, z) ensures Leq(x, z) { LeqIsOrder([x, y, z]); }
      forall x, y ensures Leq(x, y) || Leq(y, x) { LeqIsOrder([x, y]); }
    }
    SortSorts(PathLeq<T>(site), files);
    SameLength(Listing(site, files), files);
  }

  lemma InListing<T>(site: Site, files: seq<File<T>>, f: File<T>)
    ensures f in Listing(site, files) <==> f in files
  {
    assert f in Listing(site, files) <==> f in multiset(Listing(site, files));
    assert f in files <==> f in multiset(files);
  }

  lemma InOrderSorted<T>(site: Site, files: seq<File<T>>)
    requires FilesInOrder(files)
    ensures Sorted(PathLeq<T>(site), files) && NoTies(PathLeq<T>(site), files)
  {
    forall i, j | 0 <= i < j < |files|
      ensures PathLeq<T>(site)(files[i], files[j]) && !PathLeq<T>(site)(files[j], files[i])
    {
      InOrderFar(site.directory, site.mask, Stamps(files), i, j);
      LessTotal(PathOf(site, files[i].stamp), PathOf(site, files[j].stamp));
    }
  }

  /** The one order in which a directory lists. */
  lemma ListingOf<T>(site: Site, files: seq<File<T>>, list: seq<File<T>>)
    requires multiset(list) == multiset(files) && FilesInOrder(list)
    ensures Listing(site, files) == list
  {
    InOrderSorted(site, list);
    ListingSorts(site, files);
    SortingUnique(PathLeq<T>(site), list, Listing(site, files));
  }

  /** Files in order are listed as they are. */
  lemma ListingInOrder<T>(site: Site, files: seq<File<T>>)
    requires FilesInOrder(files)
    ensures Listing(site, files) == files
  {
    ListingOf(site, files, files);
  }

  /** A directory of distinct names is listed in the order of files exactly when the timestamps are in order. */
  lemma ListingInOrderIff<T>(site: Site, files: seq<File<T>>)
    requires Distinct(Stamps(files))
    ensures Listing(site, files) == files <==> FilesInOrder(files)
  {
    if FilesInOrder(files) {
      ListingInOrder(site, files);
    }
    if Listing(site, files) == files {
      ListingSorts(site, files);
      var ps := SegmentPaths(site.directory, site.mask, Stamps(files));
      assert forall i, j :: 0 <= i < j < |files| ==> PathLeq<T>(site)(files[i], files[j]) ==> Leq(ps[i], ps[j]);
      SortedIffInOrder(site.directory, site.mask, Stamps(files));
    }
  }

  ghost predicate DistinctNames<T>(files: seq<File<T>>) {
    forall i, j :: 0 <= i < j < |files| ==> files[i].stamp != files[j].stamp
  }

  lemma ListingDistinct<T>(site: Site, files: seq<File<T>>)
    requires DistinctNames(files)
    ensures DistinctNames(Listing(site, files))
  {
    var stamp := (f: File<T>) => f.stamp;
    var list := Listing(site, files);
    PermutedImage(stamp, list, files);
    forall i, j | 0 <= i < j < |list| ensures list[i].stamp != list[j].stamp {
      if list[i].stamp == list[j].stamp {
        Twice(Image(stamp, list), i, j);
        assert Image(stamp, list)[i] in multiset(Image(stamp, files));
        OnceOnly(Image(stamp, files), list[i].stamp);
      }
    }
  }

  lemma Twice(s: seq<nat>, i: nat, j: nat)
    requires i < j < |s| && s[i] == s[j]
    ensures multiset(s)[s[i]] >= 2
  {
    assert s == s[..j] + s[j..];
    assert s[i] in s[..j] && s[j] in s[j..];
  }

  lemma {:induction false} OnceOnly(s: seq<nat>, x: nat)
    requires Distinct(s)
    ensures multiset(s)[x] <= 1
  {
    if s != [] {
      var n := |s| - 1;
      assert s == s[..n] + [s[n]];
      OnceOnly(s[..n], x);
      if s[n] == x { assert x !in s[..n]; }
    }
  }

  /** A write never takes a name that is in use. */
  lemma WriteKeepsNames<T>(seg: Segment<T>, data: T, size: nat, env: Env)
    requires DistinctNames(seg.files) && (seg.hasFile ==> seg.files != [])
    ensures DistinctNames(Write(seg, data, size, env).seg.files)
  {
  }

  lemma ListingPaths<T>(site: Site, files: seq<File<T>>)
    ensures IsSorting(Leq, SegmentPaths(site.directory, site.mask, Stamps(files)),
                      SegmentPaths(site.directory, site.mask, Stamps(Listing(site, files))))
  {
    var sorted := Listing(site, files);
    var path := (f: File<T>) => PathOf(site, f.stamp);
    ListingSorts(site, files);
    PermutedImage(path, sorted, files);
    assert Image(path, files) == SegmentPaths(site.directory, site.mask, Stamps(files));
    assert Image(path, sorted) == SegmentPaths(site.directory, site.mask, Stamps(sorted));
    forall i, j | 0 <= i < j < |sorted| ensures Leq(PathOf(site, sorted[i].stamp), PathOf(site, sorted[j].stamp)) {
      assert PathLeq<T>(site)(sorted[i], sorted[j]);
    }
  }

  /** The entries that are regular files of a name. */
  function RegularAt(entries: seq<Entry>, name: string): (at: set<nat>)
    ensures forall i: nat :: i in at <==> i < |entries| && !entries[i].isDir && entries[i].name == name
  {
    set i: nat | i < |entries| && !entries[i].isDir && entries[i].name == name
  }

  /** The segments of a name. */
  function SegmentsAt<T>(mask: string, files: seq<File<T>>, name: string): (at: set<nat>)
    ensures forall i: nat :: i in at <==> i < |files| && Name(mask, files[i].stamp) == name
  {
    set i: nat | i < |files| && Name(mask, files[i].stamp) == name
  }

  /**
   What GetFileList returns for a directory whose regular files are the segments, in
   whatever order it is read and whatever directories it holds besides, are the paths of
   the listing.
   */
  lemma FileListIsListing<T>(site: Site, files: seq<File<T>>, entries: seq<Entry>, list: seq<string>)
    requires forall name :: |RegularAt(entries, name)| == |SegmentsAt(site.mask, files, name)|
    requires Sorted(Leq, list)
    requires forall p :: multiset(list)[p] ==
               |set i: nat | i < |entries| && !entries[i].isDir && site.directory + "/" + entries[i].name == p|
    ensures list == SegmentPaths(site.directory, site.mask, Stamps(Listing(site, files)))
  {
    var ps := SegmentPaths(site.directory, site.mask, Stamps(files));
    forall p ensures multiset(list)[p] == multiset(ps)[p] {
      SamePathCount(site, files, entries, p);
      assert Where(HasPath(site.directory, p), entries) ==
             set i: nat | i < |entries| && !entries[i].isDir && site.directory + "/" + entries[i].name == p;
    }
    assert multiset(list) == multiset(ps);
    ListingPaths(site, files);
    LeqIsOrder(list);
    SortingUnique(Leq, list, SegmentPaths(site.directory, site.mask, Stamps(Listing(site, files))));
  }

  lemma SamePathCount<T>(site: Site, files: seq<File<T>>, entries: seq<Entry>, p: string)
    requires forall name :: |RegularAt(entries, name)| == |SegmentsAt(site.mask, files, name)|
    ensures |Where(HasPath(site.directory, p), entries)| ==
            multiset(SegmentPaths(site.directory, site.mask, Stamps(files)))[p]
  {
    var ps, dir := SegmentPaths(site.directory, site.mask, Stamps(files)), site.directory + "/";
    CountWhere(ps, p);
    var found := Where(HasPath(site.directory, p), entries);
    var segments := Where(Is(p), ps);
    if |dir| <= |p| && p[..|dir|] == dir {
      var name := p[|dir|..];
      forall n: string ensures dir + n == p <==> n == name { BehindPrefix(dir, n, p); }
      assert found == RegularAt(entries, name);
      assert segments == SegmentsAt(site.mask, files, name);
    } else {
      forall n: string ensures dir + n != p { NotBehindPrefix(dir, n, p); }
      assert found == {} && segments == {};
    }
  }

  lemma BehindPrefix(dir: string, n: string, p: string)
    requires |dir| <= |p| && p[..|dir|] == dir
    ensures dir + n == p <==> n == p[|dir|..]
  {
    assert p == dir + p[|dir|..] && (dir + n)[|dir|..] == n;
  }

  lemma NotBehindPrefix(dir: string, n: string, p: string)
    requires !(|dir| <= |p| && p[..|dir|] == dir)
    ensures dir + n != p
  {
    assert (dir + n)[..|dir|] == dir;
  }

  // ---------------------------------------------------------------- next-fit packing

  /** What happens to a directory over its life: writes, and restarts that list it and reopen the last file. */
  datatype Event<+T> = Put(data: T, size: nat, env: Env) | Restart(env: Env, statOk: bool)

  /** CreateFile in an empty directory, SetFile on the last listed file otherwise, as Recovery ends. */
  function Restarted<T>(site: Site, files: seq<File<T>>, maxSegmentSize: int, env: Env, statOk: bool): Segment<T> {
    if files == [] then Create(Unopened([], maxSegmentSize), env)
    else ListingSorts(site, files); Reopen(Listing(site, files), maxSegmentSize, statOk)
  }

  function After<T>(site: Site, seg: Segment<T>, events: seq<Event<T>>): Segment<T>
    requires AllSucceed(site, seg, events)
    decreases |events|, 1
  {
    if events == [] then seg
    else Happen(site, After(site, seg, events[..|events| - 1]), events[|events| - 1])
  }

  predicate Succeeds<T>(seg: Segment<T>, e: Event<T>) {
    match e
    case Put(data, size, env) => (seg.hasFile ==> seg.files != []) && Write(seg, data, size, env).ok
    case Restart(env, statOk) => statOk && (seg.files == [] ==> CanCreate(seg, env))
  }

  function Happen<T>(site: Site, seg: Segment<T>, e: Event<T>): Segment<T>
    requires Succeeds(seg, e)
  {
    match e
    case Put(data, size, env) => Write(seg, data, size, env).seg
    case Restart(env, statOk) => Restarted(site, seg.files, seg.maxSegmentSize, env, statOk)
  }

  predicate AllSucceed<T>(site: Site, seg: Segment<T>, events: seq<Event<T>>)
    decreases |events|, 0
  {
    events == [] ||
    (AllSucceed(site, seg, events[..|events| - 1]) &&
     Succeeds(After(site, seg, events[..|events| - 1]), events[|events| - 1]))
  }

  /** At every restart the files list in the order they were created in. */
  ghost predicate RestartsInOrder<T>(site: Site, seg: Segment<T>, events: seq<Event<T>>)
    requires AllSucceed(site, seg, events)
  {
    events == [] ||
    (RestartsInOrder(site, seg, events[..|events| - 1]) &&
     (events[|events| - 1].Restart? ==> FilesInOrder(After(site, seg, events[..|events| - 1]).files)))
  }

  /** The data of the writes among events, in order. */
  function Puts<T>(events: seq<Event<T>>): seq<Chunk<T>> {
    if events == [] then []
    else
      var before := Puts(events[..|events| - 1]);
      match events[|events| - 1]
      case Put(data, size, _) => before + [Chunk(data, size, true)]
      case Restart(_, _) => before
  }

  ghost predicate AtMostOneNonEmpty<T>(chunks: seq<Chunk<T>>) {
    exists i :: OnlyAt(chunks, i)
  }

  ghost predicate OnlyAt<T>(chunks: seq<Chunk<T>>, i: int) {
    0 <= i < |chunks| && forall j :: 0 <= j < |chunks| && j != i ==> chunks[j].size == 0
  }

  /** The tracked size is the length of the file being written. */
  ghost predicate Tracked<T>(seg: Segment<T>) {
    && (seg.hasFile ==> seg.files != [])
    && !seg.closed
    && (seg.hasFile ==> seg.segmentSize == Total(seg.files[|seg.files| - 1].chunks))
    && (!seg.hasFile ==> seg.segmentSize == 0 && seg.files == [])
  }

  ghost predicate Bounded<T>(max: int, chunks: seq<Chunk<T>>) {
    Total(chunks) <= max || AtMostOneNonEmpty(chunks)
  }

  /** Both files hold something, and the first write of b did not fit into a. */
  ghost predicate DidNotFit<T>(max: int, a: File<T>, b: File<T>) {
    a.chunks != [] && b.chunks != [] && Total(a.chunks) + b.chunks[0].size > max
  }

  ghost predicate NextFit<T>(max: int, files: seq<File<T>>) {
    forall i {:trigger files[i]} :: 0 < i < |files| ==> DidNotFit(max, files[i - 1], files[i])
  }

  lemma {:induction false} ZeroTotal<T>(chunks: seq<Chunk<T>>)
    requires Total(chunks) == 0
    ensures forall i :: 0 <= i < |chunks| ==> chunks[i].size == 0
  {
    if chunks != [] { ZeroTotal(chunks[..|chunks| - 1]); }
  }

  /** Adding a chunk to the current file keeps it bounded when rotation was not due. */
  lemma BoundedAppend<T>(max: int, chunks: seq<Chunk<T>>, c: Chunk<T>)
    requires max > 0 && !(Total(chunks) > 0 && Total(chunks) + c.size > max)
    ensures Bounded(max, chunks + [c]) && Total(chunks + [c]) == Total(chunks) + c.size
  {
    assert (chunks + [c])[..|chunks|] == chunks;
    if Total(chunks) == 0 {
      ZeroTotal(chunks);
      assert OnlyAt(chunks + [c], |chunks|);
    }
  }

  lemma RestartKeeps<T>(site: Site, seg: Segment<T>, env: Env)
    requires seg.maxSegmentSize > 0 && forall f :: f in seg.files ==> Bounded(seg.maxSegmentSize, f.chunks)
    ensures var now := Restarted(site, seg.files, seg.maxSegmentSize, env, true);
      && Tracked(now) && (forall f :: f in now.files ==> Bounded(now.maxSegmentSize, f.chunks))
      && (FilesInOrder(seg.files) ==>
            AllChunks(now.files) == AllChunks(seg.files) && (seg.files != [] ==> now.files == seg.files))
  {
    ListingSorts(site, seg.files);
    CreateAll(Unopened<T>([], seg.maxSegmentSize), env);
    var now := Restarted(site, seg.files, seg.maxSegmentSize, env, true);
    forall f | f in now.files ensures Bounded(now.maxSegmentSize, f.chunks) {
      if seg.files == [] {
        assert f.chunks == [] && Total(f.chunks) == 0;
      } else {
        InListing(site, seg.files, f);
      }
    }
    if FilesInOrder(seg.files) { ListingInOrder(site, seg.files); }
  }

  /**
   Over any life of a fresh directory in which nothing fails, whatever the clock does: the
   tracked size is the current file's length, and every file is within the limit or holds
   one non-empty write. When the files list in creation order at every restart, they hold
   all data written in order with no write split, and, when no write is empty, a new file
   is started only when the write did not fit.
   */
  lemma {:induction false} SegmentsStayPacked<T>(site: Site, seg: Segment<T>, events: seq<Event<T>>)
    requires seg == Unopened([], seg.maxSegmentSize) && seg.maxSegmentSize > 0
    requires AllSucceed(site, seg, events)
    ensures var now := After(site, seg, events);
      && now.maxSegmentSize == seg.maxSegmentSize
      && Tracked(now)
      && (forall f :: f in now.files ==> Bounded(now.maxSegmentSize, f.chunks))
      && (RestartsInOrder(site, seg, events) ==> AllChunks(now.files) == Puts(events))
      && (RestartsInOrder(site, seg, events) && NoEmptyPuts(events) ==> NextFit(now.maxSegmentSize, now.files))
  {
    if events != [] {
      var n := |events| - 1;
      SegmentsStayPacked(site, seg, events[..n]);
      var before := After(site, seg, events[..n]);
      assert NoEmptyPuts(events) ==> NoEmptyPuts(events[..n]);
      match events[n] {
        case Put(data, size, env) =>
          PutKeeps(before, data, size, env);
          if RestartsInOrder(site, seg, events) && NoEmptyPuts(events) {
            assert events[n].size > 0;
            PutKeepsNextFit(before, data, size, env);
          }
        case Restart(env, _) => RestartKeeps(site, before, env);
      }
    }
  }

  ghost predicate NoEmptyPuts<T>(events: seq<Event<T>>) {
    forall i :: 0 <= i < |events| && events[i].Put? ==> events[i].size > 0
  }

  lemma SingleTotal<T>(c: Chunk<T>)
    ensures Total([c]) == c.size
  {
    assert [c][..0] == [];
  }

  lemma PutInNewFile<T>(seg: Segment<T>, now: Segment<T>, stamp: nat, c: Chunk<T>)
    requires seg.maxSegmentSize > 0 && forall f :: f in seg.files ==> Bounded(seg.maxSegmentSize, f.chunks)
    requires now == Segment(seg.files + [File(stamp, [c])], true, false, c.size, seg.maxSegmentSize)
    ensures Tracked(now) && forall f :: f in now.files ==> Bounded(now.maxSegmentSize, f.chunks)
  {
    SingleTotal(c);
    BoundedAppend(seg.maxSegmentSize, [], c);
    assert [] + [c] == [c];
  }

  lemma PutInSameFile<T>(seg: Segment<T>, now: Segment<T>, c: Chunk<T>)
    requires seg.maxSegmentSize > 0 && Tracked(seg) && seg.hasFile
    requires forall f :: f in seg.files ==> Bounded(seg.maxSegmentSize, f.chunks)
    requires !(seg.segmentSize > 0 && seg.segmentSize + c.size > seg.maxSegmentSize)
    requires var n := |seg.files| - 1;
      now == seg.(files := seg.files[..n] + [File(seg.files[n].stamp, seg.files[n].chunks + [c])],
                  segmentSize := seg.segmentSize + c.size)
    ensures Tracked(now) && forall f :: f in now.files ==> Bounded(now.maxSegmentSize, f.chunks)
  {
    BoundedAppend(seg.maxSegmentSize, seg.files[|seg.files| - 1].chunks, c);
  }

  lemma PutKeeps<T>(seg: Segment<T>, data: T, size: nat, env: Env)
    requires seg.maxSegmentSize > 0 && Tracked(seg) && Write(seg, data, size, env).ok
    requires forall f :: f in seg.files ==> Bounded(seg.maxSegmentSize, f.chunks)
    ensures var now := Write(seg, data, size, env).seg;
      && now.maxSegmentSize == seg.maxSegmentSize
      && Tracked(now)
      && AllChunks(now.files) == AllChunks(seg.files) + [Chunk(data, size, true)]
      && forall f :: f in now.files ==> Bounded(now.maxSegmentSize, f.chunks)
  {
    WriteExtendsLog(seg, data, size, env);
    if !seg.hasFile || MustRotate(seg, size) {
      PutKeepsNew(seg, data, size, env);
    } else {
      PutKeepsSame(seg, data, size, env);
    }
  }

  lemma PutKeepsNew<T>(seg: Segment<T>, data: T, size: nat, env: Env)
    requires seg.maxSegmentSize > 0 && (seg.hasFile ==> seg.files != []) && Write(seg, data, size, env).ok
    requires forall f :: f in seg.files ==> Bounded(seg.maxSegmentSize, f.chunks)
    requires !seg.hasFile || MustRotate(seg, size)
    ensures var now := Write(seg, data, size, env).seg;
      && now.maxSegmentSize == seg.maxSegmentSize
      && Tracked(now) && forall f :: f in now.files ==> Bounded(now.maxSegmentSize, f.chunks)
  {
    var c := Chunk(data, size, true);
    var now := Segment(seg.files + [File(env.stamp, [c])], true, false, size, seg.maxSegmentSize);
    assert Write(seg, data, size, env).seg == now by {
      WriteSucceedsIff(seg, data, size, env);
      WriteNewFile(seg, data, size, env);
    }
    PutInNewFile(seg, now, env.stamp, c);
  }

  lemma PutKeepsSame<T>(seg: Segment<T>, data: T, size: nat, env: Env)
    requires seg.maxSegmentSize > 0 && Tracked(seg) && seg.hasFile && Write(seg, data, size, env).ok
    requires forall f :: f in seg.files ==> Bounded(seg.maxSegmentSize, f.chunks)
    requires !MustRotate(seg, size)
    ensures var now := Write(seg, data, size, env).seg;
      && now.maxSegmentSize == seg.maxSegmentSize
      && Tracked(now) && forall f :: f in now.files ==> Bounded(now.maxSegmentSize, f.chunks)
  {
    var c, n := Chunk(data, size, true), |seg.files| - 1;
    var now := seg.(files := seg.files[..n] + [File(seg.files[n].stamp, seg.files[n].chunks + [c])],
                    segmentSize := seg.segmentSize + size);
    assert Write(seg, data, size, env).seg == now by {
      WriteSucceedsIff(seg, data, size, env);
      WriteSameFile(seg, data, size, env);
    }
    PutInSameFile(seg, now, c);
  }

  lemma NextFitNewFile<T>(max: int, files: seq<File<T>>, f: File<T>)
    requires NextFit(max, files) && (files != [] ==> DidNotFit(max, files[|files| - 1], f))
    ensures NextFit(max, files + [f])
  {
    var now := files + [f];
    forall i | 0 < i < |now| ensures DidNotFit(max, now[i - 1], now[i]) {
      assert i < |files| ==> now[i] == files[i] && now[i - 1] == files[i - 1];
    }
  }

  lemma NextFitSameFile<T>(max: int, files: seq<File<T>>, c: Chunk<T>)
    requires NextFit(max, files) && files != []
    ensures var n := |files| - 1; NextFit(max, files[..n] + [File(files[n].stamp, files[n].chunks + [c])])
  {
    var n := |files| - 1;
    var last := File(files[n].stamp, files[n].chunks + [c]);
    forall i | 0 < i < n ensures DidNotFit(max, files[..n][i - 1], files[..n][i]) { assert DidNotFit(max, files[i - 1], files[i]); }
    if n > 0 {
      assert DidNotFit(max, files[n - 1], files[n]);
      assert DidNotFit(max, files[n - 1], last);
    }
    NextFitNewFile(max, files[..n], last);
  }

  lemma PutKeepsNextFit<T>(seg: Segment<T>, data: T, size: nat, env: Env)
    requires seg.maxSegmentSize > 0 && Tracked(seg) && Write(seg, data, size, env).ok && size > 0
    requires NextFit(seg.maxSegmentSize, seg.files)
    ensures NextFit(seg.maxSegmentSize, Write(seg, data, size, env).seg.files)
  {
    var c, n := Chunk(data, size, true), |seg.files| - 1;
    WriteSucceedsIff(seg, data, size, env);
    if !seg.hasFile || MustRotate(seg, size) {
      WriteNewFile(seg, data, size, env);
      LastIsFull(seg, size);
      NextFitNewFile(seg.maxSegmentSize, seg.files, File(env.stamp, [c]));
    } else {
      WriteSameFile(seg, data, size, env);
      NextFitSameFile(seg.maxSegmentSize, seg.files, c);
    }
  }

  /** A file that is left holds something, and the data did not fit into it. */
  lemma LastIsFull<T>(seg: Segment<T>, size: nat)
    requires Tracked(seg) && (!seg.hasFile || MustRotate(seg, size))
    ensures seg.files != [] ==>
      var last := seg.files[|seg.files| - 1].chunks; last != [] && Total(last) + size > seg.maxSegmentSize
  {
    assert Total<T>([]) == 0;
  }

  // ---------------------------------------------------------------- consequences of next-fit

  lemma {:induction false} TotalConcat<T>(a: seq<Chunk<T>>, b: seq<Chunk<T>>)
    ensures Total(a + b) == Total(a) + Total(b)
  {
    if b == [] {
      assert a + b == a;
    } else {
      assert (a + b)[..|a + b| - 1] == a + b[..|b| - 1];
      TotalConcat(a, b[..|b| - 1]);
    }
  }

  lemma TotalAtLeast<T>(chunks: seq<Chunk<T>>, i: nat)
    requires i < |chunks|
    ensures Total(chunks) >= chunks[i].size
    ensures i + 1 < |chunks| ==> Total(chunks) >= chunks[i].size + chunks[i + 1].size
  {
    assert chunks == chunks[..i] + chunks[i..];
    TotalConcat(chunks[..i], chunks[i..]);
    var rest := chunks[i + 1..];
    assert chunks[i..] == [chunks[i]] + rest;
    TotalConcat([chunks[i]], rest);
    if rest != [] {
      assert rest == [rest[0]] + rest[1..];
      TotalConcat([rest[0]], rest[1..]);
    }
  }

  lemma LastTwoFiles<T>(files: seq<File<T>>)
    requires |files| > 1
    ensures var n := |files|;
      Total(AllChunks(files)) ==
      Total(AllChunks(files[..n - 2])) + Total(files[n - 2].chunks) + Total(files[n - 1].chunks)
  {
    var n := |files|;
    assert files[..n - 1][..n - 2] == files[..n - 2];
    TotalConcat(AllChunks(files[..n - 1]), files[n - 1].chunks);
    TotalConcat(AllChunks(files[..n - 2]), files[n - 2].chunks);
  }

  lemma HalfBound(n: nat, max: int, front: nat, pair: nat)
    requires n > 1 && pair > max && (n > 3 ==> front > ((n - 2) / 2) * max)
    ensures front + pair > (n / 2) * max
  {
    assert n / 2 == (n - 2) / 2 + 1;
    var h := (n - 2) / 2;
    assert (h + 1) * max == h * max + max;
    if n <= 3 { assert h == 0; }
  }

  /** k segments hold more than floor(k/2) times the limit, so rotation wastes at most half the space. */
  lemma {:induction false} NextFitBound<T>(max: int, files: seq<File<T>>)
    requires max > 0 && NextFit(max, files) && |files| > 1
    ensures Total(AllChunks(files)) > (|files| / 2) * max
  {
    var n := |files|;
    var front, a, b := files[..n - 2], files[n - 2].chunks, files[n - 1].chunks;
    assert DidNotFit(max, files[n - 2], files[n - 1]);
    TotalAtLeast(b, 0);
    LastTwoFiles(files);
    if n > 3 {
      NextFitBound(max, front);
    }
    HalfBound(n, max, Total(AllChunks(front)), Total(a) + Total(b));
  }

  // ---------------------------------------------------------------- one write per file

  ghost predicate OneChunkPerFile<T>(files: seq<File<T>>) {
    forall i :: 0 <= i < |files| ==> |files[i].chunks| <= 1
  }

  ghost predicate NeighboursOverflow<T>(max: int, chunks: seq<Chunk<T>>) {
    forall i {:trigger chunks[i]} :: 0 < i < |chunks| ==> chunks[i - 1].size + chunks[i].size > max
  }

  ghost predicate NoneEmpty<T>(chunks: seq<Chunk<T>>) {
    forall i :: 0 <= i < |chunks| ==> chunks[i].size > 0
  }

  lemma {:induction false} FilesInLog<T>(files: seq<File<T>>, f: nat) returns (at: nat)
    requires f < |files|
    ensures at + |files[f].chunks| <= |AllChunks(files)|
    ensures AllChunks(files)[at..at + |files[f].chunks|] == files[f].chunks
  {
    var n := |files| - 1;
    if f == n {
      at := |AllChunks(files[..n])|;
    } else {
      at := FilesInLog(files[..n], f);
      var front := AllChunks(files[..n]);
      assert AllChunks(files)[..|front|] == front;
      assert AllChunks(files)[at..at + |files[f].chunks|] == front[at..at + |files[f].chunks|];
    }
  }

  lemma {:induction false} SingletonLog<T>(files: seq<File<T>>)
    requires forall i :: 0 <= i < |files| ==> |files[i].chunks| == 1
    ensures |AllChunks(files)| == |files|
    ensures forall i :: 0 <= i < |files| ==> AllChunks(files)[i] == files[i].chunks[0]
  {
    if files != [] { SingletonLog(files[..|files| - 1]); }
  }

  lemma {:induction false} PutsNonEmpty<T>(events: seq<Event<T>>)
    requires NoEmptyPuts(events)
    ensures NoneEmpty(Puts(events))
  {
    if events != [] {
      var n := |events| - 1;
      PutsNonEmpty(events[..n]);
      assert events[n].Put? ==> events[n].size > 0;
    }
  }

  lemma SharedFileFits<T>(max: int, files: seq<File<T>>, f: nat)
    requires f < |files| && |files[f].chunks| > 1 && Bounded(max, files[f].chunks)
    requires NoneEmpty(AllChunks(files))
    ensures !NeighboursOverflow(max, AllChunks(files))
  {
    var at := FilesInLog(files, f);
    var all, cs := AllChunks(files), files[f].chunks;
    assert cs[0] == all[at] && cs[1] == all[at + 1];
    assert all[at].size > 0 && all[at + 1].size > 0;
    TotalAtLeast(cs, 0);
    assert all[at + 1 - 1].size + all[at + 1].size <= max;
  }

  /** Files filled by next-fit with non-empty writes. */
  ghost predicate Packed<T>(max: int, files: seq<File<T>>) {
    && (forall f :: f in files ==> Bounded(max, f.chunks))
    && NextFit(max, files) && NoneEmpty(AllChunks(files))
  }

  lemma NoFileEmpty<T>(max: int, files: seq<File<T>>, i: nat)
    requires NextFit(max, files) && i < |files| && |files| > 1
    ensures files[i].chunks != []
    ensures i > 0 ==> DidNotFit(max, files[i - 1], files[i])
  {
    var j := if i == 0 then 1 else i;
    assert DidNotFit(max, files[j - 1], files[j]);
  }

  lemma SeparateFilesOverflow<T>(max: int, files: seq<File<T>>)
    requires NextFit(max, files) && OneChunkPerFile(files) && |files| > 1
    ensures NeighboursOverflow(max, AllChunks(files))
  {
    forall i | 0 <= i < |files| ensures |files[i].chunks| == 1 { NoFileEmpty(max, files, i); }
    SingletonLog(files);
    var all := AllChunks(files);
    forall i | 0 < i < |all| ensures all[i - 1].size + all[i].size > max {
      NoFileEmpty(max, files, i);
      assert files[i - 1].chunks == [all[i - 1]];
    }
  }

  /**
   Every file holds at most one write exactly when every two consecutive writes overflow
   the limit together. This is what recovery needs to replay the directory.
   */
  lemma OneWritePerFileIff<T>(max: int, files: seq<File<T>>)
    requires Packed(max, files)
    ensures OneChunkPerFile(files) <==> NeighboursOverflow(max, AllChunks(files))
  {
    if OneChunkPerFile(files) {
      if |files| > 1 {
        SeparateFilesOverflow(max, files);
      } else if |files| == 1 {
        assert files[..0] == [];
        assert AllChunks(files) == files[0].chunks;
      }
    } else {
      var f :| 0 <= f < |files| && |files[f].chunks| > 1;
      SharedFileFits(max, files, f);
    }
  }

  /** The files of a fresh directory are packed after any life in which writes succeed and none is empty. */
  lemma FreshDirectoryIsPacked<T>(site: Site, seg: Segment<T>, events: seq<Event<T>>)
    requires seg == Unopened([], seg.maxSegmentSize) && seg.maxSegmentSize > 0
    requires AllSucceed(site, seg, events) && RestartsInOrder(site, seg, events) && NoEmptyPuts(events)
    ensures Packed(seg.maxSegmentSize, After(site, seg, events).files)
  {
    SegmentsStayPacked(site, seg, events);
    PutsNonEmpty(events);
  }

  // ---------------------------------------------------------------- changing limits

  /**
   limits[i] is the limit in force when the i-th write was made, 0 when the writer saw none.
   Every write but the first overflows it together with the one before.
   */
  ghost predicate Overflows<T>(limits: seq<int>, chunks: seq<Chunk<T>>) {
    |limits| == |chunks| && forall i :: 0 < i < |chunks| ==> OverflowsAt(limits, chunks, i)
  }

  ghost predicate OverflowsAt<T>(limits: seq<int>, chunks: seq<Chunk<T>>, i: int)
    requires 0 < i < |chunks| == |limits|
  {
    limits[i] > 0 && chunks[i - 1].size + chunks[i].size > limits[i]
  }

  /** The writes have files of their own exactly when they overflow; then the last one is alone in the last file. */
  ghost predicate Separated<T>(files: seq<File<T>>, limits: seq<int>) {
    && |limits| == |AllChunks(files)| && NoneEmpty(AllChunks(files))
    && (OneChunkPerFile(files) <==> Overflows(limits, AllChunks(files)))
    && (OneChunkPerFile(files) && AllChunks(files) != [] ==>
          files[|files| - 1].chunks == [AllChunks(files)[|AllChunks(files)| - 1]])
  }

  /** The next write compares the last file's length with limit, or no length at all with none. */
  ghost predicate InForce<T>(seg: Segment<T>, limit: int)
    requires seg.files != []
  {
    || (seg.segmentSize == Total(seg.files[|seg.files| - 1].chunks) && limit == seg.maxSegmentSize)
    || (seg.segmentSize == 0 && limit == 0)
  }

  lemma OverflowsMore<T>(limits: seq<int>, chunks: seq<Chunk<T>>, limit: int, c: Chunk<T>)
    requires |limits| == |chunks|
    ensures Overflows(limits + [limit], chunks + [c]) <==>
            Overflows(limits, chunks) && (chunks != [] ==> limit > 0 && chunks[|chunks| - 1].size + c.size > limit)
  {
    var ls, all := limits + [limit], chunks + [c];
    assert forall i :: 0 < i < |chunks| ==> OverflowsAt(ls, all, i) == OverflowsAt(limits, chunks, i);
    if chunks != [] {
      assert OverflowsAt(ls, all, |chunks|) == (limit > 0 && chunks[|chunks| - 1].size + c.size > limit);
    }
  }

  lemma SeparatedMore<T>(files: seq<File<T>>, now: seq<File<T>>, limits: seq<int>, limit: int, c: Chunk<T>)
    requires Separated(files, limits) && c.size > 0 && AllChunks(now) == AllChunks(files) + [c]
    requires var all := AllChunks(files);
      OneChunkPerFile(now) <==> OneChunkPerFile(files) && (all != [] ==> limit > 0 && all[|all| - 1].size + c.size > limit)
    requires OneChunkPerFile(now) ==> now != [] && now[|now| - 1].chunks == [c]
    ensures Separated(now, limits + [limit])
  {
    OverflowsMore(limits, AllChunks(files), limit, c);
  }

  /** A write into a directory where some writes share a file. */
  lemma PutStaysShared<T>(seg: Segment<T>, data: T, size: nat, env: Env)
    requires seg.files != [] && !OneChunkPerFile(seg.files) && Write(seg, data, size, env).ok
    ensures !OneChunkPerFile(Write(seg, data, size, env).seg.files)
  {
    var i :| 0 <= i < |seg.files| && |seg.files[i].chunks| > 1;
    assert |Write(seg, data, size, env).seg.files[i].chunks| > 1;
  }

  /** A write into a directory where every write has its own file. */
  lemma PutAlone<T>(seg: Segment<T>, limit: int, data: T, size: nat, env: Env)
    requires seg.hasFile && seg.files != [] && InForce(seg, limit) && Write(seg, data, size, env).ok
    requires OneChunkPerFile(seg.files) && NoneEmpty(AllChunks(seg.files))
    requires AllChunks(seg.files) != [] ==> seg.files[|seg.files| - 1].chunks == [AllChunks(seg.files)[|AllChunks(seg.files)| - 1]]
    ensures var now := Write(seg, data, size, env).seg; var all := AllChunks(seg.files);
      && (OneChunkPerFile(now.files) <==> (all != [] ==> limit > 0 && all[|all| - 1].size + size > limit))
      && (OneChunkPerFile(now.files) ==>
            && now.files[|now.files| - 1].chunks == [Chunk(data, size, true)]
            && now.segmentSize == size)
  {
    var n, all := |seg.files|, AllChunks(seg.files);
    var now := Write(seg, data, size, env).seg;
    var last := seg.files[n - 1].chunks;
    if all == [] {
      FileChunksLast(seg.files);
      assert last == [] && Total(last) == 0;
      assert now.files[n - 1].chunks == [Chunk(data, size, true)];
    } else {
      assert last[..0] == [];
      assert Total(last) == last[0].size == all[|all| - 1].size > 0;
      if MustRotate(seg, size) {
        assert now.files[n].chunks == [Chunk(data, size, true)];
      } else {
        assert |now.files[n - 1].chunks| == 2;
      }
    }
  }

  lemma FileChunksLast<T>(files: seq<File<T>>)
    requires files != [] && AllChunks(files) == []
    ensures files[|files| - 1].chunks == []
  {
  }

  lemma PutKeepsFile<T>(seg: Segment<T>, data: T, size: nat, env: Env)
    requires seg.hasFile && seg.files != [] && Write(seg, data, size, env).ok
    ensures var now := Write(seg, data, size, env).seg;
      now.hasFile && now.files != [] && AllChunks(now.files) == AllChunks(seg.files) + [Chunk(data, size, true)]
  {
    WriteExtendsLog(seg, data, size, env);
  }

  lemma PutSeparatesAlone<T>(seg: Segment<T>, limits: seq<int>, limit: int, data: T, size: nat, env: Env)
    requires seg.hasFile && seg.files != [] && Separated(seg.files, limits) && size > 0 && Write(seg, data, size, env).ok
    requires OneChunkPerFile(seg.files) && InForce(seg, limit)
    ensures var now := Write(seg, data, size, env).seg;
      && now.files != [] && Separated(now.files, limits + [limit])
      && (OneChunkPerFile(now.files) ==> InForce(now, now.maxSegmentSize))
  {
    var now, c := Write(seg, data, size, env).seg, Chunk(data, size, true);
    PutKeepsFile(seg, data, size, env);
    PutAlone(seg, limit, data, size, env);
    SingleTotal(c);
    SeparatedMore(seg.files, now.files, limits, limit, c);
  }

  lemma PutSeparatesShared<T>(seg: Segment<T>, limits: seq<int>, limit: int, data: T, size: nat, env: Env)
    requires seg.hasFile && seg.files != [] && Separated(seg.files, limits) && size > 0 && Write(seg, data, size, env).ok
    requires !OneChunkPerFile(seg.files)
    ensures var now := Write(seg, data, size, env).seg;
      now.files != [] && Separated(now.files, limits + [limit]) && !OneChunkPerFile(now.files)
  {
    PutKeepsFile(seg, data, size, env);
    PutStaysShared(seg, data, size, env);
    SeparatedMore(seg.files, Write(seg, data, size, env).seg.files, limits, limit, Chunk(data, size, true));
  }

  /** Every successful write keeps the equivalence, under the limit in force. */
  lemma PutSeparates<T>(seg: Segment<T>, limits: seq<int>, limit: int, data: T, size: nat, env: Env)
    requires seg.hasFile && seg.files != [] && Separated(seg.files, limits) && size > 0 && Write(seg, data, size, env).ok
    requires OneChunkPerFile(seg.files) ==> InForce(seg, limit)
    ensures var now := Write(seg, data, size, env).seg;
      && now.hasFile && now.files != [] && Separated(now.files, limits + [limit])
      && (OneChunkPerFile(now.files) ==> InForce(now, now.maxSegmentSize))
  {
    PutKeepsFile(seg, data, size, env);
    if OneChunkPerFile(seg.files) {
      PutSeparatesAlone(seg, limits, limit, data, size, env);
    } else {
      PutSeparatesShared(seg, limits, limit, data, size, env);
    }
  }
}
