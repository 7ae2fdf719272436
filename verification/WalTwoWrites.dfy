/**
 Two writes one after another into an empty directory, the smallest life in which recovery
 can fail to rebuild the live table: when both share a segment it does not decode, and when
 the second segment's name lists first the first write wins.
 */
module WalTwoWrites {
  import opened Sorting
  import opened Records
  import opened SegmentNames
  import opened Segments
  import opened Recovery
  import opened WalMachine
  import opened WalDurability
  import opened WalLimits
  import opened WalRuns
  import opened WalRestarts

  /** Who runs, and the timestamps of the first and of a second segment file. */
  datatype Setting = Setting(site: Site, cfg: Config, max: int, a: nat, b: nat)

  /** A process alone in an empty directory. */
  function Alone(x: Setting, steps: seq<Step>): Life { Life(x.cfg, x.max, [], Env(true, x.a, Stored), true, steps) }

  function Start(x: Setting): State { Boot(x.site, [], Alone(x, [])) }

  function Stamped(x: Setting): Fate { Encoded(Env(true, x.b, Stored)) }

  function First(op: Op): Log { ToLog(op, 1) }

  function Second(op: Op): Log { ToLog(op, 2) }

  function Size(x: Setting, r: Log): nat { x.cfg.streamSize([r]) }

  function ChunkOf(x: Setting, r: Log): Stream { Chunk([r], Size(x, r), true) }

  /** Batches of one record, which have a size. */
  ghost predicate OneByOne(x: Setting, p: Op, q: Op) {
    x.a != x.b && x.cfg.batchCount == 1 && Size(x, First(p)) > 0 && Size(x, Second(q)) > 0
  }

  /** The two writes overflow the limit together. */
  predicate Overflow(x: Setting, p: Op, q: Op) { x.max > 0 && Size(x, First(p)) + Size(x, Second(q)) > x.max }

  lemma Starts(x: Setting)
    ensures CanBoot(x.site, [], Alone(x, [])) && Initial(Start(x)) && Quiet(Start(x)) && Start(x).table == map[]
    ensures Start(x).cfg == x.cfg && Start(x).disk == Segment([File(x.a, [])], true, false, 0, x.max)
  {
    ListingSorts<seq<Log>>(x.site, []);
    BootIsInitial(x.site, [], Alone(x, []));
    assert Concat<Log>([]) == [];
    var file: LogFile := File(x.a, []);
    assert [] + [file] == [file];
  }

  /** The disk after the first write. */
  function OneChunk(x: Setting, p: Op): Segment<seq<Log>> {
    Segment([File(x.a, [ChunkOf(x, First(p))])], true, false, Size(x, First(p)), x.max)
  }

  lemma FirstWrite(x: Setting, p: Op)
    ensures var s := Start(x); s.disk.files != [] && LonePersist(s, p, Stamped(x)) == Written(OneChunk(x, p), true)
  {
    Starts(x);
    var files := Start(x).disk.files;
    assert LoneRequest(Start(x), p).log == First(p);
    assert [] + [ChunkOf(x, First(p))] == [ChunkOf(x, First(p))];
    assert AppendChunk(files, ChunkOf(x, First(p))) == [File(x.a, [ChunkOf(x, First(p))])];
  }

  /** The files after both. */
  function Files(x: Setting, p: Op, q: Op): seq<LogFile> {
    var c, d := ChunkOf(x, First(p)), ChunkOf(x, Second(q));
    if Overflow(x, p, q) then [File(x.a, [c]), File(x.b, [d])] else [File(x.a, [c, d])]
  }

  lemma SecondWrite(x: Setting, p: Op, q: Op)
    requires OneByOne(x, p, q)
    ensures var w := Segments.Write(OneChunk(x, p), [Second(q)], Size(x, Second(q)), Stamped(x).env);
      w.ok && w.seg.files == Files(x, p, q)
  {
    var c, d := ChunkOf(x, First(p)), ChunkOf(x, Second(q));
    var seg := OneChunk(x, p);
    if Overflow(x, p, q) {
      assert CanCreate(seg, Stamped(x).env);
      assert [] + [d] == [d];
      assert AppendChunk(seg.files + [File(x.b, [])], d) == [File(x.a, [c]), File(x.b, [d])];
    } else {
      assert [c] + [d] == [c, d];
      assert AppendChunk(seg.files, d) == [File(x.a, [c, d])];
    }
  }

  /** The state between the writes. */
  function Between(x: Setting, p: Op): State
    requires Start(x).disk.hasFile ==> Start(x).disk.files != []
  {
    LoneDone(Start(x), p, Stamped(x))
  }

  /** Both writes, each to its end. */
  function Steps(x: Setting, p: Op, q: Op): seq<Step>
    requires Start(x).disk.hasFile ==> Start(x).disk.files != []
  {
    LoneFlush(Start(x), p, Stamped(x)) + LoneFlush(Between(x, p), q, Stamped(x))
  }

  lemma Middle(x: Setting, p: Op)
    requires x.cfg.batchCount == 1
    ensures var s := Start(x);
      && s.disk.files != []
      && Legal(s, LoneFlush(s, p, Stamped(x))) && Run(s, LoneFlush(s, p, Stamped(x))) == Between(x, p)
      && Quiet(Between(x, p)) && Between(x, p).gen.counter == 1 && |Between(x, p).calls| == 1
      && Between(x, p).cfg == x.cfg && Between(x, p).disk == OneChunk(x, p)
      && Between(x, p).table == ApplyOrSkip(map[], First(p))
      && |Between(x, p).flushes| == 1 && Between(x, p).flushes[0].ok
  {
    Starts(x);
    FirstWrite(x, p);
    LoneFlushed(Start(x), p, Stamped(x));
  }

  /** The life of a process that makes two writes. */
  ghost function TwoWrites(x: Setting, p: Op, q: Op): Life
    requires x.cfg.batchCount == 1
  {
    Middle(x, p);
    Alone(x, Steps(x, p, q))
  }

  lemma Runs(x: Setting, p: Op, q: Op)
    requires OneByOne(x, p, q)
    ensures Start(x).disk.files != [] && Legal(Start(x), Steps(x, p, q))
    ensures var now := Run(Start(x), Steps(x, p, q));
      && now.disk.files == Files(x, p, q) && now.flusher == Select(Serving) && |now.gen.slots| == 2
      && now.table == ApplyOrSkip(ApplyOrSkip(map[], First(p)), Second(q))
      && forall j :: 0 <= j < |now.flushes| ==> now.flushes[j].ok
  {
    Middle(x, p);
    SecondHalf(x, p, q);
    RunConcat(Start(x), LoneFlush(Start(x), p, Stamped(x)), LoneFlush(Between(x, p), q, Stamped(x)));
  }

  lemma SecondHalf(x: Setting, p: Op, q: Op)
    requires OneByOne(x, p, q)
    ensures Start(x).disk.files != [] && Legal(Between(x, p), LoneFlush(Between(x, p), q, Stamped(x)))
    ensures var now := Run(Between(x, p), LoneFlush(Between(x, p), q, Stamped(x)));
      && now.disk.files == Files(x, p, q) && now.flusher == Select(Serving) && |now.gen.slots| == 2
      && now.table == ApplyOrSkip(ApplyOrSkip(map[], First(p)), Second(q))
      && forall j :: 0 <= j < |now.flushes| ==> now.flushes[j].ok
  {
    Middle(x, p);
    SecondWrite(x, p, q);
    assert LoneRequest(Between(x, p), q).log == Second(q);
    LoneFlushed(Between(x, p), q, Stamped(x));
  }

  /** The life is legal, and what it leaves behind. */
  lemma TwoWritesRun(x: Setting, p: Op, q: Op)
    requires OneByOne(x, p, q)
    ensures LegalLives(x.site, [TwoWrites(x, p, q)])
    ensures var now := Now(x.site, [TwoWrites(x, p, q)]);
      && now.disk.files == Files(x, p, q) && !MidFlush(now.flusher) && InRange(now)
      && now.table == ApplyOrSkip(ApplyOrSkip(map[], First(p)), Second(q))
      && NothingLeftBehind(now.flushes)
  {
    var life := TwoWrites(x, p, q);
    Starts(x);
    Runs(x, p, q);
    LivesMore(x.site, [], life);
    assert [] + [life] == [life];
    assert [life][..0] == [];
  }

  lemma TwoWritesInRange(x: Setting, p: Op, q: Op)
    requires OneByOne(x, p, q)
    ensures LegalLives(x.site, [TwoWrites(x, p, q)]) && AllInRange(x.site, [TwoWrites(x, p, q)])
  {
    TwoWritesRun(x, p, q);
    var lives := [TwoWrites(x, p, q)];
    assert lives[..0] == [];
  }

  /**
   Two acknowledged writes that share a segment cannot be recovered: no process boots on
   that directory again. Another one can exactly when the writes overflowed the limit.
   */
  lemma TwoFlushesInOneSegment(x: Setting, p: Op, q: Op)
    requires OneByOne(x, p, q)
    ensures LegalLives(x.site, [TwoWrites(x, p, q)])
    ensures (exists next: Life :: LegalLives(x.site, [TwoWrites(x, p, q)] + [next])) <==> Overflow(x, p, q)
  {
    var lives := [TwoWrites(x, p, q)];
    TwoWritesRun(x, p, q);
    TwoWritesInRange(x, p, q);
    NextBootsIff(x.site, lives);
    LivesKeepGoodLog(x.site, lives);
    DecodesIffOneFlushPerFile(Files(x, p, q));
    SharedIff(x, p, q);
  }

  lemma SharedIff(x: Setting, p: Op, q: Op)
    ensures OneChunkPerFile(Files(x, p, q)) <==> Overflow(x, p, q)
  {
    if !Overflow(x, p, q) { assert |Files(x, p, q)[0].chunks| == 2; }
  }

  // ---------------------------------------------------------------- names and the clock

  /** Every recovery of what the lives left rebuilds the live table. */
  ghost predicate RecoversLive(site: Site, lives: seq<Life>) {
    && lives != [] && LegalLives(site, lives)
    && forall orders :: SortsFiles(Listing(site, Now(site, lives).disk.files), orders) ==>
         Replay(map[], Concat(orders)) == Replayed(Now(site, lives).table, true)
  }

  lemma SortOne(r: Log)
    ensures Sort(LsnLeq, [r]) == [r]
  {
    assert [r][..0] == [];
  }

  lemma TwoFiles(f: LogFile, g: LogFile)
    ensures AllChunks([f, g]) == f.chunks + g.chunks
  {
    assert [f, g][..1] == [f] && [f][..0] == [];
    assert AllChunks([f]) == f.chunks;
  }

  lemma TwoStreams(c: Stream, d: Stream)
    ensures ReplayOrder([c] + [d]) == Sort(LsnLeq, c.data) + Sort(LsnLeq, d.data)
  {
    ReplayOrderConcat([c], [d]);
    ReplayOrderOne(c);
    ReplayOrderOne(d);
  }

  lemma TwoRecords(t: Table, r: Log, r': Log)
    ensures ApplyAll(t, [r] + [r']) == ApplyOrSkip(ApplyOrSkip(t, r), r')
  {
    assert ([r] + [r'])[..1] == [r] && [r][..0] == [];
    assert ApplyAll(t, [r]) == ApplyOrSkip(t, r);
  }

  lemma SecondFileFirst(x: Setting, p: Op, q: Op)
    requires Overflow(x, p, q) && ListsBefore(x.b, x.a)
    ensures Listing(x.site, Files(x, p, q)) == [Files(x, p, q)[1], Files(x, p, q)[0]]
  {
    var files := Files(x, p, q);
    assert multiset([files[1], files[0]]) == multiset(files) by { assert files == [files[0], files[1]]; }
    ListingOf(x.site, files, [files[1], files[0]]);
  }

  lemma GoodTwo(x: Setting, p: Op, q: Op)
    ensures GoodLog([ChunkOf(x, Second(q))] + [ChunkOf(x, First(p))])
  {
    assert FromOp(First(p)) && FromOp(Second(q));
  }

  /** When the second file lists first, recovery applies the second write first. */
  lemma FirstWriteWins(x: Setting, p: Op, q: Op, orders: seq<seq<Log>>)
    requires Overflow(x, p, q) && ListsBefore(x.b, x.a) && SortsFiles(Listing(x.site, Files(x, p, q)), orders)
    ensures Replay(map[], Concat(orders)) == Replayed(ApplyOrSkip(ApplyOrSkip(map[], Second(q)), First(p)), true)
  {
    var c, d := ChunkOf(x, First(p)), ChunkOf(x, Second(q));
    var f, g := File(x.b, [d]), File(x.a, [c]);
    SecondFileFirst(x, p, q);
    GoodTwo(x, p, q);
    TwoFiles(f, g);
    BootTable([f, g], orders);
    TwoStreams(d, c);
    SortOne(First(p));
    SortOne(Second(q));
    TwoRecords(map[], Second(q), First(p));
  }

  /** Then, of two values set under one key, the older one comes back. */
  lemma OlderValueComesBack(x: Setting, k: string, v: string, w: string, orders: seq<seq<Log>>)
    requires OneByOne(x, SetOp(k, v), SetOp(k, w)) && Overflow(x, SetOp(k, v), SetOp(k, w)) && ListsBefore(x.b, x.a)
    requires SortsFiles(Listing(x.site, Files(x, SetOp(k, v), SetOp(k, w))), orders)
    ensures LegalLives(x.site, [TwoWrites(x, SetOp(k, v), SetOp(k, w))])
    ensures Now(x.site, [TwoWrites(x, SetOp(k, v), SetOp(k, w))]).table == map[k := w]
    ensures Replay(map[], Concat(orders)) == Replayed(map[k := v], true)
  {
    var p, q := SetOp(k, v), SetOp(k, w);
    TwoWritesRun(x, p, q);
    FirstWriteWins(x, p, q, orders);
    SetTwice(k, v, w, 1, 2);
    SetTwice(k, w, v, 2, 1);
  }

  lemma SetTwice(k: string, v: string, w: string, i: int, j: int)
    ensures ApplyOrSkip(ApplyOrSkip(map[], ToLog(SetOp(k, v), i)), ToLog(SetOp(k, w), j)) == map[k := w]
  {
    assert ApplyOrSkip(map[], ToLog(SetOp(k, v), i)) == map[k := v];
  }

  /** The clock stepping back is enough: a second file stamped 10 after a first one stamped 20. */
  lemma ClockStepsBack(x: Setting, orders: seq<seq<Log>>)
    requires x.a == 20 && x.b == 10
    requires OneByOne(x, SetOp("k", "a"), SetOp("k", "b")) && Overflow(x, SetOp("k", "a"), SetOp("k", "b"))
    requires SortsFiles(Listing(x.site, Files(x, SetOp("k", "a"), SetOp("k", "b"))), orders)
    ensures LegalLives(x.site, [TwoWrites(x, SetOp("k", "a"), SetOp("k", "b"))])
    ensures Now(x.site, [TwoWrites(x, SetOp("k", "a"), SetOp("k", "b"))]).table == map["k" := "b"]
    ensures Replay(map[], Concat(orders)) == Replayed(map["k" := "a"], true)
  {
    LaterStampsList(10, 20);
    OlderValueComesBack(x, "k", "a", "b", orders);
  }

  lemma OneFileEachRecovers(x: Setting, p: Op, q: Op)
    requires OneByOne(x, p, q) && Overflow(x, p, q) && ListsBefore(x.a, x.b)
    ensures RecoversLive(x.site, [TwoWrites(x, p, q)])
  {
    var lives := [TwoWrites(x, p, q)];
    TwoWritesRun(x, p, q);
    TwoWritesInRange(x, p, q);
    forall orders | SortsFiles(Listing(x.site, Now(x.site, lives).disk.files), orders)
      ensures Replay(map[], Concat(orders)) == Replayed(Now(x.site, lives).table, true)
    {
      RecoveryEqualsLive(x.site, lives, orders);
    }
  }

  lemma SomeRecoveryLoses(x: Setting, k: string, v: string, w: string)
    requires OneByOne(x, SetOp(k, v), SetOp(k, w)) && Overflow(x, SetOp(k, v), SetOp(k, w)) && ListsBefore(x.b, x.a)
    requires v != w
    ensures !RecoversLive(x.site, [TwoWrites(x, SetOp(k, v), SetOp(k, w))])
  {
    var p, q := SetOp(k, v), SetOp(k, w);
    var lives := [TwoWrites(x, p, q)];
    TwoWritesRun(x, p, q);
    TwoWritesInRange(x, p, q);
    LivesKeepGoodLog(x.site, lives);
    DecodesIffOneFlushPerFile(Files(x, p, q));
    SharedIff(x, p, q);
    ListingDecodes(x.site, Files(x, p, q));
    ListedGoodLog(x.site, Files(x, p, q));
    RecoverableIff(Listing(x.site, Files(x, p, q)));
    var orders :| SortsFiles(Listing(x.site, Files(x, p, q)), orders);
    OlderValueComesBack(x, k, v, w, orders);
    assert map[k := v][k] != map[k := w][k];
  }

  /**
   The timestamps decide: where every two writes get a file each, recovery rebuilds the
   live table whatever the two writes are exactly when the first file's timestamp lists
   before the second's.
   */
  lemma TimestampsDecide(x: Setting)
    requires x.a != x.b && x.cfg.batchCount == 1 && x.max > 0
    requires forall r, r' :: Size(x, r) > 0 && Size(x, r) + Size(x, r') > x.max
    ensures (forall p, q :: RecoversLive(x.site, [TwoWrites(x, p, q)])) <==> ListsBefore(x.a, x.b)
  {
    if ListsBefore(x.a, x.b) {
      forall p, q ensures RecoversLive(x.site, [TwoWrites(x, p, q)]) {
        assert OneByOne(x, p, q) && Overflow(x, p, q);
        OneFileEachRecovers(x, p, q);
      }
    } else {
      assert OneByOne(x, SetOp("k", "a"), SetOp("k", "b")) && Overflow(x, SetOp("k", "a"), SetOp("k", "b"));
      SomeRecoveryLoses(x, "k", "a", "b");
    }
  }
}
