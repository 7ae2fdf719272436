/**
 Runs and restarts: a process boots by recovering the directory, runs any steps, and may
 stop or crash between any two of them. What recovery rebuilds is the live table.
 */
module WalRestarts {
  import opened Sorting
  import opened Records
  import opened Segments
  import opened Recovery
  import opened WalMachine
  import opened WalOwnership
  import opened WalAnswers
  import opened WalDurability
  import opened WalLimits
  import opened WalRuns

  // ---------------------------------------------------------------- requests and their records

  lemma SortedLogs(b: Batch, sorted: Batch)
    requires IsSorting(RequestLeq, b, sorted) && DistinctLsns(Logs(b))
    ensures Logs(sorted) == Sort(LsnLeq, Logs(b))
  {
    var log := (r: Request) => r.log;
    PermutedImage(log, sorted, b);
    assert Image(log, b) == Logs(b) && Image(log, sorted) == Logs(sorted);
    SortingIsSort(Logs(b), Logs(sorted));
  }

  lemma RequestOrder(b: Batch)
    ensures IsOrder(RequestLeq, b)
  {
  }

  // ---------------------------------------------------------------- the table and the run's part of the log

  /** Failed writes left nothing on disk. */
  ghost predicate NothingLeftBehind(fs: seq<Flush>) {
    forall j :: 0 <= j < |fs| && !fs[j].ok ==> fs[j].left == []
  }

  ghost predicate FlushesFine(fs: seq<Flush>) {
    forall j :: 0 <= j < |fs| ==> FlushShape(fs[j]) && DistinctLsns(Logs(fs[j].batch))
  }

  lemma FineFront(fs: seq<Flush>)
    requires fs != [] && FlushesFine(fs) && NothingLeftBehind(fs)
    ensures FlushesFine(fs[..|fs| - 1]) && NothingLeftBehind(fs[..|fs| - 1])
  {
    assert forall j :: 0 <= j < |fs| - 1 ==> fs[..|fs| - 1][j] == fs[j];
  }

  /** done are the batches of the successful writes, each sorted. */
  ghost predicate SortsOks(fs: seq<Flush>, done: seq<Batch>) {
    |done| == |Oks(fs)| && forall k :: 0 <= k < |done| ==> IsSorting(RequestLeq, Oks(fs)[k], done[k])
  }

  lemma SortsOksFront(fs: seq<Flush>, done: seq<Batch>)
    requires fs != [] && fs[|fs| - 1].ok && SortsOks(fs, done)
    ensures SortsOks(fs[..|fs| - 1], done[..|done| - 1])
    ensures done != [] && IsSorting(RequestLeq, fs[|fs| - 1].batch, done[|done| - 1])
  {
    var front := Oks(fs[..|fs| - 1]);
    assert forall k :: 0 <= k < |front| ==> Oks(fs)[k] == front[k];
  }

  /** One more successful write, applied in the order b. */
  lemma OneWriteMore(left: seq<Stream>, f: Flush, done: seq<Batch>, b: Batch)
    requires FlushShape(f) && f.ok && DistinctLsns(Logs(f.batch)) && IsSorting(RequestLeq, f.batch, b)
    requires ReplayOrder(left) == Logs(Concat(done))
    ensures ReplayOrder(left + f.left) == Logs(Concat(done + [b]))
  {
    SortedLogs(f.batch, b);
    assert f.left == [f.left[0]];
    ReplayOrderConcat(left, f.left);
    ReplayOrderOne(f.left[0]);
    ConcatAppend(done, b);
    LogsConcat(Concat(done), b);
  }

  lemma LastOk(fs: seq<Flush>, done: seq<Batch>)
    requires fs != [] && fs[|fs| - 1].ok && FlushesFine(fs) && SortsOks(fs, done) && done != []
    requires ReplayOrder(Left(fs[..|fs| - 1])) == Logs(Concat(done[..|done| - 1]))
    ensures ReplayOrder(Left(fs)) == Logs(Concat(done))
  {
    var m := |done| - 1;
    SortsOksFront(fs, done);
    OneWriteMore(Left(fs[..|fs| - 1]), fs[|fs| - 1], done[..m], done[m]);
    assert done == done[..m] + [done[m]];
  }

  lemma LastFailed(fs: seq<Flush>)
    requires fs != [] && !fs[|fs| - 1].ok && NothingLeftBehind(fs)
    ensures Left(fs) == Left(fs[..|fs| - 1]) && Oks(fs) == Oks(fs[..|fs| - 1])
  {
  }

  /** The records the writes left on disk, in replay order, are those of the successful batches as applied. */
  lemma {:induction false} WritesAsApplied(fs: seq<Flush>, done: seq<Batch>)
    requires FlushesFine(fs) && NothingLeftBehind(fs) && SortsOks(fs, done)
    ensures ReplayOrder(Left(fs)) == Logs(Concat(done))
  {
    if fs != [] {
      FineFront(fs);
      if fs[|fs| - 1].ok {
        SortsOksFront(fs, done);
        WritesAsApplied(fs[..|fs| - 1], done[..|done| - 1]);
        LastOk(fs, done);
      } else {
        LastFailed(fs);
        WritesAsApplied(fs[..|fs| - 1], done);
      }
    }
  }

  lemma RunFlushesFine(s: State)
    requires Inv(s) && InRange(s)
    ensures FlushesFine(s.flushes)
  {
    forall j | 0 <= j < |s.flushes| ensures DistinctLsns(Logs(s.flushes[j].batch)) { FlushHasDistinctLsns(s, j); }
  }

  /** The batch being flushed in the order it is or may be applied, and how far. */
  function Order(f: Flusher): Batch {
    if f.Applying? then AsPushed(f.sorted) else if f.Notifying? then Sort(RequestLeq, AsPushed(f.batch)) else []
  }

  function At(f: Flusher): nat { if f.Applying? then f.at else 0 }

  lemma OrderSorts(s: State)
    requires Inv(s) && MidFlush(s.flusher)
    ensures s.flushes != [] && s.flushes[|s.flushes| - 1].ok && At(s.flusher) <= |Order(s.flusher)|
    ensures IsSorting(RequestLeq, s.flushes[|s.flushes| - 1].batch, Order(s.flusher))
  {
    if s.flusher.Notifying? {
      RequestOrder(AsPushed(s.flusher.batch));
      SortSorts(RequestLeq, AsPushed(s.flusher.batch));
    }
  }

  lemma DoneWithOrder(s: State)
    requires Inv(s) && MidFlush(s.flusher)
    ensures SortsOks(s.flushes, s.done + [Order(s.flusher)])
  {
    OrderSorts(s);
    OksLast(s.flushes);
  }

  lemma AppliedSoFar(s: State)
    requires Inv(s) && MidFlush(s.flusher)
    ensures At(s.flusher) <= |Order(s.flusher)|
    ensures Applied(s.flusher, s.done) == Concat(s.done) + Order(s.flusher)[..At(s.flusher)]
  {
    OrderSorts(s);
    assert Order(s.flusher)[..0] == [];
  }

  lemma RestApplied(t: Table, done: Batch, order: Batch, at: nat)
    requires at <= |order|
    ensures ApplyAll(t, Logs(done + order)) == ApplyAll(ApplyAll(t, Logs(done + order[..at])), Logs(order[at..]))
  {
    assert done + order == (done + order[..at]) + order[at..] by { assert order == order[..at] + order[at..]; }
    LogsConcat(done + order[..at], order[at..]);
    ApplyAllConcat(t, Logs(done + order[..at]), Logs(order[at..]));
  }

  /** The live table once the flush in progress, if any, is applied. */
  function Settled(s: State): Table {
    if MidFlush(s.flusher) && At(s.flusher) <= |Order(s.flusher)|
    then ApplyAll(s.table, Logs(Order(s.flusher)[At(s.flusher)..]))
    else s.table
  }

  /** All batches of the run's successful writes, the one in progress last. */
  function AllDone(s: State): seq<Batch> { if MidFlush(s.flusher) then s.done + [Order(s.flusher)] else s.done }

  lemma SettledIsAllDone(s: State)
    requires Inv(s)
    ensures Settled(s) == ApplyAll(s.base, Logs(Concat(AllDone(s)))) && SortsOks(s.flushes, AllDone(s))
  {
    if MidFlush(s.flusher) {
      DoneWithOrder(s);
      AppliedSoFar(s);
      ConcatAppend(s.done, Order(s.flusher));
      RestApplied(s.base, Concat(s.done), Order(s.flusher), At(s.flusher));
    } else {
      assert Applied(s.flusher, s.done) == Concat(s.done);
    }
  }

  /** The run's part of the log, replayed on the table the run started from, is the settled live table. */
  lemma SettledIsReplay(s: State)
    requires Inv(s) && InRange(s) && NothingLeftBehind(s.flushes)
    ensures ApplyAll(s.base, ReplayOrder(Left(s.flushes))) == Settled(s)
  {
    RunFlushesFine(s);
    SettledIsAllDone(s);
    WritesAsApplied(s.flushes, AllDone(s));
  }

  // ---------------------------------------------------------------- the records are the machine's own

  lemma OwnBatch(s: State, j: nat)
    requires Inv(s) && j < |s.flushes|
    ensures AllFromOps(Logs(s.flushes[j].batch))
  {
    var b := s.flushes[j].batch;
    forall r | r in Logs(b) ensures FromOp(r) {
      var k :| 0 <= k < |b| && Logs(b)[k] == r;
      assert In(b, b[k]) > 0;
      InFlushesAt(s.flushes, j, b[k]);
      assert OwnedAt(s, b[k]);
      assert r == ToLog(s.calls[b[k].chan].op, r.lsn);
    }
  }

  lemma {:induction false} LeftFromFlush(fs: seq<Flush>, c: Stream) returns (j: nat)
    requires c in Left(fs)
    ensures j < |fs| && c in fs[j].left
  {
    var n := |fs| - 1;
    if c in fs[n].left { j := n; } else { j := LeftFromFlush(fs[..n], c); }
  }

  ghost predicate GoodLog(chunks: seq<Stream>) {
    DistinctStreams(chunks) && forall c :: c in chunks ==> AllFromOps(c.data) && c.data != []
  }

  lemma RunKeepsGoodLog(s: State)
    requires Inv(s) && InRange(s) && GoodLog(s.baseLog)
    ensures GoodLog(AllChunks(s.disk.files))
  {
    RunFlushesFine(s);
    forall c | c in Left(s.flushes) ensures DistinctLsns(c.data) && AllFromOps(c.data) && c.data != [] {
      var j := LeftFromFlush(s.flushes, c);
      assert FlushShape(s.flushes[j]) && c == s.flushes[j].left[0];
      OwnBatch(s, j);
    }
  }

  // ---------------------------------------------------------------- lives

  /**
   One process: its configuration and segment limit, how its recovery sorted the files,
   what the disk did when it opened the segment, and what the process did.
   */
  datatype Life = Life(cfg: Config, max: int, orders: seq<seq<Log>>, env: Env, statOk: bool, steps: seq<Step>)

  /** Recovery succeeds on this directory. */
  ghost predicate CanBoot(site: Site, files: seq<LogFile>, life: Life) {
    && SortsFiles(Listing(site, files), life.orders) && Replay(map[], Concat(life.orders)).ok
    && (files == [] ==> CanCreate(Unopened<seq<Log>>([], life.max), life.env))
  }

  /** The state in which Start is called. */
  function Boot(site: Site, files: seq<LogFile>, life: Life): State {
    var t := Replay(map[], Concat(life.orders)).table;
    State(life.cfg, Ids.NewGen(0), [], [], 0, [], [], Select(Serving), false,
          Restarted(site, files, life.max, life.env, life.statOk), t, false,
          [], [], t, AllChunks(Listing(site, files)))
  }

  ghost predicate LegalLives(site: Site, lives: seq<Life>)
    decreases |lives|, 0
  {
    lives == [] ||
    var front, life := lives[..|lives| - 1], lives[|lives| - 1];
    LegalLives(site, front) && CanBoot(site, FilesAfter(site, front), life) &&
    Legal(Boot(site, FilesAfter(site, front), life), life.steps)
  }

  /** What the processes leave on disk, starting from an empty directory. */
  ghost function FilesAfter(site: Site, lives: seq<Life>): seq<LogFile>
    requires LegalLives(site, lives)
    decreases |lives|, 1
  {
    if lives == [] then []
    else
      var front, life := lives[..|lives| - 1], lives[|lives| - 1];
      Run(Boot(site, FilesAfter(site, front), life), life.steps).disk.files
  }

  /** The state the last process is in. */
  ghost function Now(site: Site, lives: seq<Life>): State
    requires lives != [] && LegalLives(site, lives)
  {
    var front, life := lives[..|lives| - 1], lives[|lives| - 1];
    Run(Boot(site, FilesAfter(site, front), life), life.steps)
  }

  /** No process started more writes than there are LSNs. */
  ghost predicate AllInRange(site: Site, lives: seq<Life>)
    requires LegalLives(site, lives)
  {
    lives == [] || (InRange(Now(site, lives)) && AllInRange(site, lives[..|lives| - 1]))
  }

  lemma BootIsInitial(site: Site, files: seq<LogFile>, life: Life)
    ensures Initial(Boot(site, files, life))
  {
    CreateAll(Unopened<seq<Log>>([], life.max), life.env);
    ListingSorts(site, files);
  }

  lemma ListedGoodLog(site: Site, files: seq<LogFile>)
    requires GoodLog(AllChunks(files))
    ensures GoodLog(AllChunks(Listing(site, files)))
  {
    forall c | c in AllChunks(Listing(site, files)) ensures c in AllChunks(files) { ListingChunks(site, files, c); }
  }

  /** What one process keeps: its invariant, and where it started from. */
  lemma OneLife(site: Site, files: seq<LogFile>, life: Life)
    requires Legal(Boot(site, files, life), life.steps)
    ensures var boot := Boot(site, files, life); var now := Run(boot, life.steps);
      && Initial(boot) && Inv(now)
      && now.base == boot.base && now.baseLog == AllChunks(Listing(site, files)) && now.cfg == life.cfg
  {
    var boot := Boot(site, files, life);
    BootIsInitial(site, files, life);
    RunKeepsBase(boot, life.steps);
    ReachableInv(boot, life.steps);
  }

  /** Over any number of lives the log holds the machine's own records, each flush with distinct LSNs. */
  lemma {:induction false} LivesKeepGoodLog(site: Site, lives: seq<Life>)
    requires LegalLives(site, lives) && AllInRange(site, lives)
    ensures GoodLog(AllChunks(FilesAfter(site, lives)))
  {
    if lives != [] {
      var front, life := lives[..|lives| - 1], lives[|lives| - 1];
      LivesKeepGoodLog(site, front);
      ListedGoodLog(site, FilesAfter(site, front));
      OneLife(site, FilesAfter(site, front), life);
      RunKeepsGoodLog(Now(site, lives));
    }
  }

  /** What recovery computes from a good log. */
  lemma BootTable(files: seq<LogFile>, orders: seq<seq<Log>>)
    requires SortsFiles(files, orders) && GoodLog(AllChunks(files))
    ensures Replay(map[], Concat(orders)) == Replayed(ApplyAll(map[], ReplayOrder(AllChunks(files))), true)
  {
    FilesOwnRecords(files, orders);
    OwnRecordsReplay(map[], Concat(orders));
    RecoveryOrder(files, orders);
  }

  /** A process starts from the replay of the whole log. */
  lemma BaseIsReplay(site: Site, lives: seq<Life>)
    requires lives != [] && LegalLives(site, lives) && AllInRange(site, lives)
    ensures var now := Now(site, lives);
      Inv(now) && GoodLog(now.baseLog) && now.base == ApplyAll(map[], ReplayOrder(now.baseLog))
  {
    var front, life := lives[..|lives| - 1], lives[|lives| - 1];
    var files := FilesAfter(site, front);
    LivesKeepGoodLog(site, front);
    ListedGoodLog(site, files);
    OneLife(site, files, life);
    BootTable(Listing(site, files), life.orders);
  }

  /** The same for one state: replaying the directory gives the settled table. */
  lemma StateRecovers(site: Site, s: State, orders: seq<seq<Log>>)
    requires Inv(s) && InRange(s) && GoodLog(s.baseLog) && s.base == ApplyAll(map[], ReplayOrder(s.baseLog))
    requires NothingLeftBehind(s.flushes) && FilesInOrder(s.disk.files)
    requires SortsFiles(Listing(site, s.disk.files), orders)
    ensures Replay(map[], Concat(orders)) == Replayed(Settled(s), true)
  {
    ListingInOrder(site, s.disk.files);
    RunKeepsGoodLog(s);
    BootTable(s.disk.files, orders);
    ReplayOrderConcat(s.baseLog, Left(s.flushes));
    ApplyAllConcat(map[], ReplayOrder(s.baseLog), ReplayOrder(Left(s.flushes)));
    SettledIsReplay(s);
  }

  /**
   Recovery equals the live table. Over any number of processes, each stopped or crashed
   between any two steps, whatever the clock and the disk did in earlier ones: if the last
   process's failed writes left nothing on disk and the directory lists in the order of its
   files, replaying the listing gives, for every choice sort.Slice makes, the live table
   with the rest of the flush in progress applied; between flushes, exactly the live table.
   LSNs restart with every process and files are not in LSN order.
   */
  lemma RecoveryEqualsLive(site: Site, lives: seq<Life>, orders: seq<seq<Log>>)
    requires lives != [] && LegalLives(site, lives) && AllInRange(site, lives)
    requires var fs := Now(site, lives).flushes; forall j :: 0 <= j < |fs| && !fs[j].ok ==> fs[j].left == []
    requires FilesInOrder(Now(site, lives).disk.files)
    requires SortsFiles(Listing(site, Now(site, lives).disk.files), orders)
    ensures var now := Now(site, lives);
      && Replay(map[], Concat(orders)) == Replayed(Settled(now), true)
      && (!MidFlush(now.flusher) ==> Settled(now) == now.table)
  {
    BaseIsReplay(site, lives);
    StateRecovers(site, Now(site, lives), orders);
  }

  // ---------------------------------------------------------------- the listing of what lives left

  lemma {:induction false} RunKeepsNames(s: State, steps: seq<Step>)
    requires Initial(s) && Legal(s, steps) && DistinctNames(s.disk.files)
    ensures DistinctNames(Run(s, steps).disk.files)
  {
    if steps != [] {
      var mid, step := Run(s, steps[..|steps| - 1]), steps[|steps| - 1];
      RunKeepsNames(s, steps[..|steps| - 1]);
      if step.Write? {
        var data := Logs(mid.flusher.batch);
        if step.fate.Encoded? { WriteKeepsNames(mid.disk, data, mid.cfg.streamSize(data), step.fate.env); }
      } else {
        NonWriteKeepsDisk(mid, step);
      }
    }
  }

  lemma {:induction false} LivesKeepNames(site: Site, lives: seq<Life>)
    requires LegalLives(site, lives)
    ensures DistinctNames(FilesAfter(site, lives))
  {
    if lives != [] {
      var front, life := lives[..|lives| - 1], lives[|lives| - 1];
      LivesKeepNames(site, front);
      ListingDistinct(site, FilesAfter(site, front));
      BootIsInitial(site, FilesAfter(site, front), life);
      RunKeepsNames(Boot(site, FilesAfter(site, front), life), life.steps);
    }
  }

  /** Whatever processes left lists in the order of its files exactly when every timestamp lists before the next. */
  lemma LivesListInOrderIff(site: Site, lives: seq<Life>)
    requires LegalLives(site, lives)
    ensures Listing(site, FilesAfter(site, lives)) == FilesAfter(site, lives) <==> FilesInOrder(FilesAfter(site, lives))
  {
    LivesKeepNames(site, lives);
    ListingInOrderIff(site, FilesAfter(site, lives));
  }

  // ---------------------------------------------------------------- when recovery succeeds

  lemma LivesMore(site: Site, lives: seq<Life>, life: Life)
    ensures LegalLives(site, lives + [life]) <==>
            && LegalLives(site, lives) && CanBoot(site, FilesAfter(site, lives), life)
            && Legal(Boot(site, FilesAfter(site, lives), life), life.steps)
  {
    assert (lives + [life])[..|lives|] == lives;
  }

  lemma OrdersBoot(site: Site, files: seq<LogFile>, life: Life)
    requires SortsFiles(Listing(site, files), life.orders) && Replay(map[], Concat(life.orders)).ok
    requires life.env == Env(true, 0, Stored) && life.steps == []
    ensures CanBoot(site, files, life) && Legal(Boot(site, files, life), life.steps)
  {
  }

  /** A directory of good records that decodes can be booted from. */
  lemma CanonicalReplays(site: Site, files: seq<LogFile>)
    requires GoodLog(AllChunks(files)) && Decodes(files)
    ensures var list := Listing(site, files);
      SortsFiles(list, CanonicalOrders(list)) && Replay(map[], Concat(CanonicalOrders(list))).ok
  {
    ListedGoodLog(site, files);
    ListingDecodes(site, files);
    CanonicalSorts(Listing(site, files));
    BootTable(Listing(site, files), CanonicalOrders(Listing(site, files)));
  }

  lemma BootDecodes(site: Site, files: seq<LogFile>, next: Life)
    requires CanBoot(site, files, next)
    ensures Decodes(files)
  {
    ListingDecodes(site, files);
  }

  /** After any lives another process can boot exactly when no file holds two flushes. */
  lemma NextBootsIff(site: Site, lives: seq<Life>)
    requires lives != [] && LegalLives(site, lives) && AllInRange(site, lives)
    ensures (exists next: Life :: LegalLives(site, lives + [next])) <==> Decodes(FilesAfter(site, lives))
  {
    if next: Life :| LegalLives(site, lives + [next]) {
      LivesMore(site, lives, next);
      BootDecodes(site, FilesAfter(site, lives), next);
    }
    if Decodes(FilesAfter(site, lives)) {
      LivesKeepGoodLog(site, lives);
      CanonicalReplays(site, FilesAfter(site, lives));
      var orders := CanonicalOrders(Listing(site, FilesAfter(site, lives)));
      var next := lives[0].(orders := orders, env := Env(true, 0, Stored), steps := []);
      OrdersBoot(site, FilesAfter(site, lives), next);
      LivesMore(site, lives, next);
    }
  }

  ghost predicate PositiveSizes(cfg: Config) {
    forall rs: seq<Log> :: rs != [] ==> cfg.streamSize(rs) > 0
  }

  ghost predicate AllOk(fs: seq<Flush>) { forall j :: 0 <= j < |fs| ==> fs[j].ok }

  /** The limit against which a process makes its n-th write: none for the first one when Stat had failed. */
  function LimitOf(life: Life, n: nat): int { if n == 0 && !life.statOk then 0 else life.max }

  function LimitsOf(life: Life, n: nat): seq<int> { seq(n, i requires 0 <= i < n => LimitOf(life, i)) }

  ghost predicate RunSeparated(s: State, before: seq<int>, life: Life) {
    && s.disk.hasFile && s.disk.files != [] && s.disk.maxSegmentSize == life.max
    && Separated(s.disk.files, before + LimitsOf(life, |s.flushes|))
    && (OneChunkPerFile(s.disk.files) ==> InForce(s.disk, LimitOf(life, |s.flushes|)))
  }

  lemma WriteSeparates(s: State, fate: Fate, before: seq<int>, life: Life)
    requires RunSeparated(s, before, life) && FlusherOk(s) && Enabled(s, Write(fate)) && PositiveSizes(s.cfg)
    requires DoWrite(s, fate).flusher.ok
    ensures RunSeparated(DoWrite(s, fate), before, life)
  {
    var data, n := Logs(s.flusher.batch), |s.flushes|;
    assert data != [];
    PutSeparates(s.disk, before + LimitsOf(life, n), LimitOf(life, n), data, s.cfg.streamSize(data), fate.env);
    LimitsMore(before, life, n);
  }

  lemma LimitsMore(before: seq<int>, life: Life, n: nat)
    ensures before + LimitsOf(life, n) + [LimitOf(life, n)] == before + LimitsOf(life, n + 1)
  {
    assert LimitsOf(life, n + 1) == LimitsOf(life, n) + [LimitOf(life, n)];
  }

  lemma NonWriteKeepsDisk(s: State, step: Step)
    requires Enabled(s, step) && !step.Write?
    ensures Do(s, step).disk == s.disk && Do(s, step).flushes == s.flushes
  {
    if LeavesCalls(step) { CallsLeft(s, step); }
  }

  lemma StepWasOk(s: State, step: Step)
    requires Enabled(s, step) && AllOk(Do(s, step).flushes)
    ensures AllOk(s.flushes) && (step.Write? ==> DoWrite(s, step.fate).flusher.ok)
  {
    if step.Write? {
      var fs := DoWrite(s, step.fate).flushes;
      assert fs[|s.flushes|].ok;
      assert forall j :: 0 <= j < |s.flushes| ==> s.flushes[j] == fs[j];
    } else {
      NonWriteKeepsDisk(s, step);
    }
  }

  lemma {:induction false} RunSeparates(s: State, steps: seq<Step>, before: seq<int>, life: Life)
    requires Initial(s) && Legal(s, steps) && RunSeparated(s, before, life) && PositiveSizes(s.cfg)
    requires AllOk(Run(s, steps).flushes)
    ensures RunSeparated(Run(s, steps), before, life)
  {
    if steps != [] {
      var mid, step := Run(s, steps[..|steps| - 1]), steps[|steps| - 1];
      StepWasOk(mid, step);
      RunSeparates(s, steps[..|steps| - 1], before, life);
      RunKeepsBase(s, steps[..|steps| - 1]);
      ReachableInv(s, steps[..|steps| - 1]);
      if step.Write? { WriteSeparates(mid, step.fate, before, life); } else { NonWriteKeepsDisk(mid, step); }
    }
  }

  lemma BootSeparated(site: Site, files: seq<LogFile>, before: seq<int>, life: Life)
    requires Separated(files, before) && FilesInOrder(files)
    ensures RunSeparated(Boot(site, files, life), before, life)
  {
    var disk := Boot(site, files, life).disk;
    assert before + LimitsOf(life, 0) == before;
    ListingInOrder(site, files);
    if files == [] {
      CreateAll(Unopened<seq<Log>>([], life.max), life.env);
      assert disk.files == [File(life.env.stamp, [])];
      assert Total<seq<Log>>([]) == 0;
    }
  }

  /** No write of any process failed. */
  ghost predicate AllWritesOk(site: Site, lives: seq<Life>)
    requires LegalLives(site, lives)
  {
    lives == [] || (AllOk(Now(site, lives).flushes) && AllWritesOk(site, lives[..|lives| - 1]))
  }

  /** Whenever a process booted, the files listed in the order they were created in. */
  ghost predicate BootsInOrder(site: Site, lives: seq<Life>)
    requires LegalLives(site, lives)
  {
    lives == [] ||
    (BootsInOrder(site, lives[..|lives| - 1]) && FilesInOrder(FilesAfter(site, lives[..|lives| - 1])))
  }

  /** The limits in force at the writes of all processes, in order. */
  ghost function Limits(site: Site, lives: seq<Life>): seq<int>
    requires LegalLives(site, lives)
  {
    if lives == [] then []
    else Limits(site, lives[..|lives| - 1]) + LimitsOf(lives[|lives| - 1], |Now(site, lives).flushes|)
  }

  lemma OneLifeSeparates(site: Site, files: seq<LogFile>, life: Life, before: seq<int>)
    requires Separated(files, before) && FilesInOrder(files) && PositiveSizes(life.cfg)
    requires Legal(Boot(site, files, life), life.steps) && AllOk(Run(Boot(site, files, life), life.steps).flushes)
    ensures var now := Run(Boot(site, files, life), life.steps);
      Separated(now.disk.files, before + LimitsOf(life, |now.flushes|))
  {
    BootSeparated(site, files, before, life);
    BootIsInitial(site, files, life);
    RunSeparates(Boot(site, files, life), life.steps, before, life);
  }

  lemma {:induction false} LivesSeparate(site: Site, lives: seq<Life>)
    requires LegalLives(site, lives) && AllWritesOk(site, lives) && BootsInOrder(site, lives)
    requires forall k :: 0 <= k < |lives| ==> PositiveSizes(lives[k].cfg)
    ensures Separated(FilesAfter(site, lives), Limits(site, lives))
  {
    if lives == [] {
      assert Overflows<seq<Log>>([], AllChunks([]));
    } else {
      var front, life := lives[..|lives| - 1], lives[|lives| - 1];
      LivesSeparate(site, front);
      OneLifeSeparates(site, FilesAfter(site, front), life, Limits(site, front));
    }
  }

  /**
   When a restart succeeds, and what it yields. Over any number of processes without a
   failed write, each with its own configuration, segment limit and luck with Stat: another
   process can boot exactly when every write but the first overflows, together with the one
   before it, the limit it was made against; and when the directory lists in order and no
   flush is in progress, every recovery rebuilds exactly the live table.
   */
  lemma RestartSucceedsIff(site: Site, lives: seq<Life>)
    requires lives != [] && LegalLives(site, lives) && AllInRange(site, lives)
    requires AllWritesOk(site, lives) && BootsInOrder(site, lives)
    requires forall k :: 0 <= k < |lives| ==> PositiveSizes(lives[k].cfg)
    ensures (exists next: Life :: LegalLives(site, lives + [next])) <==>
            Overflows(Limits(site, lives), AllChunks(Now(site, lives).disk.files))
    ensures var now := Now(site, lives);
      !MidFlush(now.flusher) && FilesInOrder(now.disk.files) ==>
      forall orders :: SortsFiles(Listing(site, now.disk.files), orders) ==>
        Replay(map[], Concat(orders)) == Replayed(now.table, true)
  {
    var now := Now(site, lives);
    LivesSeparate(site, lives);
    LivesKeepGoodLog(site, lives);
    NextBootsIff(site, lives);
    DecodesIffOneFlushPerFile(now.disk.files);
    if !MidFlush(now.flusher) && FilesInOrder(now.disk.files) {
      forall orders | SortsFiles(Listing(site, now.disk.files), orders)
        ensures Replay(map[], Concat(orders)) == Replayed(now.table, true)
      {
        RecoveryEqualsLive(site, lives, orders);
      }
    }
  }
}
