/**
 The objects behind the steps of the machine: promises over one-shot channels, the hash
 table, the segment, and the WAL's own methods. A method runs one locked section or one
 flush; the functions its contract names are those the machine steps use.
 */
module WalObjects {
  import opened Sorting
  import opened Records
  import opened Segments
  import opened Recovery
  import Machine = WalMachine
  import Ids = IdGenerator

  // ---------------------------------------------------------------- promises

  /** nil is the zero value of error. */
  datatype Error = Nil | Failed

  /** A channel of capacity one. */
  class Channel {
    var buffer: seq<Error>
    var closed: bool

    constructor ()
      ensures buffer == [] && !closed
    {
      buffer, closed := [], false;
    }

    ghost predicate Ready()
      reads this
    {
      buffer == [] && !closed
    }
  }

  /** A struct: copies share the channel but not the flag. */
  datatype Promise = Promise(result: Channel, promised: bool)

  method NewPromise() returns (p: Promise)
    ensures fresh(p.result) && p.result.Ready() && !p.promised
  {
    var c := new Channel();
    p := Promise(c, false);
  }

  /** Set on one copy. Sending on a closed channel would panic, on a full one block. */
  method Set(p: Promise, value: Error) returns (p': Promise)
    requires !p.promised ==> p.result.Ready()
    modifies p.result
    ensures p' == Promise(p.result, true)
    ensures p.promised ==> unchanged(p.result)
    ensures !p.promised ==> p.result.buffer == [value] && p.result.closed
  {
    if p.promised { return p; }
    p.result.buffer := p.result.buffer + [value];
    p.result.closed := true;
    p' := p.(promised := true);
  }

  /** Future.Get; it would block on an open empty channel. A closed empty one yields the zero value. */
  method Get(result: Channel) returns (value: Error)
    requires result.buffer != [] || result.closed
    modifies result
    ensures old(result.buffer) != [] ==> value == old(result.buffer)[0] && result.buffer == old(result.buffer)[1..]
    ensures old(result.buffer) == [] ==> value == Nil && result.buffer == []
    ensures result.closed == old(result.closed)
  {
    if result.buffer == [] { return Nil; }
    value := result.buffer[0];
    result.buffer := result.buffer[1..];
  }

  /** Only the first Get sees the outcome: after an error a second Get reads success. */
  method GetTwice(p: Promise, value: Error) returns (first: Error, second: Error)
    requires !p.promised && p.result.Ready()
    modifies p.result
    ensures first == value && second == Nil
  {
    var _ := Set(p, value);
    first := Get(p.result);
    second := Get(p.result);
  }

  // ---------------------------------------------------------------- the hash table

  class HashTable {
    var data: Table

    constructor ()
      ensures data == map[]
    {
      data := map[];
    }

    method Set(key: string, value: string)
      modifies this
      ensures data == old(data)[key := value]
    {
      data := data[key := value];
    }

    method Get(key: string) returns (value: string, ok: bool)
      ensures ok <==> key in data
      ensures value == if ok then data[key] else ""
    {
      if key in data { return data[key], true; }
      return "", false;
    }

    method Del(key: string)
      modifies this
      ensures data == old(data) - {key}
    {
      data := data - {key};
    }

    /** Wal.apply. */
    method Apply(r: Log) returns (ok: bool)
      modifies this
      ensures !ok <==> (r.commandId == 1 && |r.arguments| < 2) || (r.commandId == 2 && |r.arguments| < 1)
      ensures data == if ok && r.commandId == 1 then old(data)[r.arguments[0] := r.arguments[1]]
                      else if ok && r.commandId == 2 then old(data) - {r.arguments[0]}
                      else old(data)
      ensures ok <==> Records.Apply(old(data), r).Some?
      ensures data == ApplyOrSkip(old(data), r)
    {
      if r.commandId == COMMAND_SET_ID {
        if |r.arguments| < 2 { return false; }
        Set(r.arguments[0], r.arguments[1]);
      } else if r.commandId == COMMAND_DEL_ID {
        if |r.arguments| < 1 { return false; }
        Del(r.arguments[0]);
      }
      return true;
    }
  }

  // ---------------------------------------------------------------- the segment

  class SegmentObject {
    var files: seq<LogFile>
    var hasFile: bool
    var closed: bool
    var segmentSize: int
    const maxSegmentSize: int

    constructor (files: seq<LogFile>, maxSegmentSize: int)
      ensures Value() == Unopened(files, maxSegmentSize)
    {
      this.files, this.maxSegmentSize := files, maxSegmentSize;
      hasFile, closed, segmentSize := false, false, 0;
    }

    function Value(): Segment<seq<Log>>
      reads this
    {
      Segment(files, hasFile, closed, segmentSize, maxSegmentSize)
    }

    ghost predicate Valid()
      reads this
    {
      hasFile ==> files != []
    }

    /** O_EXCL: it fails when the disk does or when the name is taken. */
    method CreateFile(env: Env) returns (ok: bool)
      modifies this
      ensures ok <==> env.creates && forall i :: 0 <= i < |old(files)| ==> old(files)[i].stamp != env.stamp
      ensures ok ==> files == old(files) + [File(env.stamp, [])] && hasFile && !closed && segmentSize == 0
      ensures Value() == if ok then Create(old(Value()), env) else old(Value())
    {
      if !CanCreate(Value(), env) { return false; }
      files := files + [File(env.stamp, [])];
      hasFile, closed, segmentSize := true, false, 0;
      return true;
    }

    /** getNextSegment: the old file is closed before the new one is created. */
    method NextSegment(env: Env) returns (ok: bool)
      requires hasFile
      modifies this
      ensures ok <==> env.creates && forall i :: 0 <= i < |old(files)| ==> old(files)[i].stamp != env.stamp
      ensures Value() == if ok then Create(old(Value()), env) else old(Value()).(closed := true)
    {
      closed := true;
      ok := CreateFile(env);
    }

    /** Write up to the write itself: a first file is created, a full one is left. */
    method Prepare(size: nat, env: Env) returns (ok: bool)
      requires Valid()
      modifies this
      ensures Written(Value(), ok) == Target(old(Value()), size, env)
      ensures ok ==> hasFile && files != []
      ensures Valid()
    {
      ok := true;
      if !hasFile {
        ok := CreateFile(env);
        return;
      }
      if maxSegmentSize > 0 && segmentSize > 0 && segmentSize + size > maxSegmentSize {
        ok := NextSegment(env);
      }
    }

    method Write(data: seq<Log>, size: nat, env: Env) returns (ok: bool)
      requires Valid()
      modifies this
      ensures Valid()
      ensures ok <==>
        && env.io == Stored
        && (if !old(hasFile) || (maxSegmentSize > 0 && old(segmentSize) > 0 && old(segmentSize) + size > maxSegmentSize)
            then env.creates && forall i :: 0 <= i < |old(files)| ==> old(files)[i].stamp != env.stamp
            else !old(closed))
      ensures Written(Value(), ok) == Segments.Write(old(Value()), data, size, env)
    {
      WriteSucceedsIff(Value(), data, size, env);
      ok := Prepare(size, env);
      if ok { ok := WriteData(data, size, env); }
    }

    /** WriteFile on the current file, and the size that is tracked. */
    method WriteData(data: seq<Log>, size: nat, env: Env) returns (ok: bool)
      requires hasFile && files != []
      modifies this
      ensures ok <==> !old(closed) && env.io == Stored
      ensures Value() == old(Value()).(
        files := if old(closed) || env.io == Lost then old(files)
                 else AppendChunk(old(files), Chunk(data, size, env.io == Stored)),
        segmentSize := if ok then old(segmentSize) + size else old(segmentSize))
    {
      if closed || env.io == Lost { return false; }
      files := AppendChunk(files, Chunk(data, size, env.io == Stored));
      if env.io == LeftBehind { return false; }
      segmentSize := segmentSize + size;
      return true;
    }

    /** GetList: the directory in the order of its sorted paths. */
    method GetList(site: Site) returns (list: seq<LogFile>)
      modifies this
      ensures list == files == Listing(site, old(files)) && Value() == old(Value()).(files := files)
      ensures |files| == |old(files)|
    {
      ListingSorts(site, files);
      files := Listing(site, files);
      list := files;
    }

    /** SetFile on the last file, or on none. */
    method SetFile(present: bool, statOk: bool)
      requires present ==> files != []
      modifies this
      ensures files == old(files) && hasFile == present && !closed
      ensures segmentSize == if present && statOk then Total(files[|files| - 1].chunks) else 0
      ensures Value() == if present then Reopen(old(files), maxSegmentSize, statOk) else Unopened(old(files), maxSegmentSize)
    {
      hasFile, closed, segmentSize := present, false, 0;
      if !present { return; }
      if statOk { segmentSize := Total(files[|files| - 1].chunks); }
    }
  }

  // ---------------------------------------------------------------- the WAL

  datatype WriteRequest = WriteRequest(log: Log, promise: Promise)

  function RecordsOf(b: seq<WriteRequest>): (rs: seq<Log>)
    ensures |rs| == |b| && forall i :: 0 <= i < |b| ==> rs[i] == b[i].log
  {
    seq(|b|, i requires 0 <= i < |b| => b[i].log)
  }

  predicate RequestLeq(a: WriteRequest, b: WriteRequest) { LsnLeq(a.log, b.log) }

  ghost function Channels(b: seq<WriteRequest>): set<Channel> { set r | r in b :: r.promise.result }

  /** Requests whose promises nobody has resolved, on channels of their own. */
  ghost predicate Unanswered(b: seq<WriteRequest>)
    reads Channels(b)
  {
    && (forall i :: 0 <= i < |b| ==> !b[i].promise.promised && b[i].promise.result.Ready())
    && (forall i, j :: 0 <= i < j < |b| ==> b[i].promise.result != b[j].promise.result)
  }

  ghost predicate AllAnswered(b: seq<WriteRequest>, response: Error)
    reads Channels(b)
  {
    forall i :: 0 <= i < |b| ==> b[i].promise.result.buffer == [response] && b[i].promise.result.closed
  }

  /** The batch with the flags of its first n copies set. */
  function Flagged(b: seq<WriteRequest>, n: nat): seq<WriteRequest> {
    seq(|b|, i requires 0 <= i < |b| => if i < n then b[i].(promise := b[i].promise.(promised := true)) else b[i])
  }

  /** WalWriter.notification; the batch's own copies are flagged. */
  method Notification(response: Error, b: seq<WriteRequest>) returns (b': seq<WriteRequest>)
    requires Unanswered(b)
    modifies Channels(b)
    ensures AllAnswered(b, response) && b' == Flagged(b, |b|)
  {
    b' := b;
    for n := 0 to |b|
      invariant b' == Flagged(b, n)
      invariant forall i :: 0 <= i < n ==> b[i].promise.result.buffer == [response] && b[i].promise.result.closed
      invariant forall i :: n <= i < |b| ==> b[i].promise.result.Ready()
    {
      assert b[n] in b;
      var p := Set(b'[n].promise, response);
      b' := b'[n := b'[n].(promise := p)];
    }
  }

  ghost predicate AllEncode(encodes: Log -> bool, b: seq<WriteRequest>) {
    forall i :: 0 <= i < |b| ==> encodes(b[i].log)
  }

  datatype RecoveryResult =
    | Recovered | ErrFailedToReadDirectory | ErrRead(file: nat) | ErrFailedDecode(file: nat) | ErrApplyRecord(file: nat)
    | ErrFileCreate | ErrOpenLast

  class Wal {
    const cfg: Machine.Config
    var batch: seq<WriteRequest>
    var activeBatchVolume: int
    var batches: seq<seq<WriteRequest>>
    const table: HashTable
    const segment: SegmentObject

    constructor (cfg: Machine.Config, segment: SegmentObject, table: HashTable)
      ensures this.cfg == cfg && this.segment == segment && this.table == table
      ensures batch == [] && activeBatchVolume == 0 && batches == []
    {
      this.cfg, this.segment, this.table := cfg, segment, table;
      batch, activeBatchVolume, batches := [], 0, [];
    }

    method SealBatch() returns (sealed: seq<WriteRequest>)
      modifies this
      ensures sealed == old(batch) && batch == [] && activeBatchVolume == 0 && batches == old(batches)
    {
      sealed := batch;
      batch, activeBatchVolume := [], 0;
    }

    /** push up to the end of its locked section: a fresh promise, and the batch to send, if any. */
    method Push(lsn: int, op: Op) returns (record: WriteRequest, sealed: seq<WriteRequest>)
      modifies this
      ensures record.log == ToLog(op, lsn) && !record.promise.promised
      ensures fresh(record.promise.result) && record.promise.result.Ready()
      ensures var all, volume := old(batch) + [record], old(activeBatchVolume) + cfg.recordSize(record.log);
        if |all| >= cfg.batchCount || volume >= cfg.batchVolume
        then sealed == all && batch == [] && activeBatchVolume == 0
        else sealed == [] && batch == all && activeBatchVolume == volume
      ensures Machine.Accepted(batch, activeBatchVolume, sealed) ==
              Machine.Accept(cfg.batchCount, cfg.batchVolume, old(batch), old(activeBatchVolume), record, cfg.recordSize(record.log))
      ensures batches == old(batches)
    {
      var p := NewPromise();
      record := WriteRequest(ToLog(op, lsn), p);
      sealed := [];
      batch := batch + [record];
      activeBatchVolume := activeBatchVolume + cfg.recordSize(record.log);
      if |batch| >= cfg.batchCount || activeBatchVolume >= cfg.batchVolume {
        sealed := batch;
        batch, activeBatchVolume := [], 0;
      }
    }

    /** The send at the end of push; on a full channel it would block. */
    method Send(sealed: seq<WriteRequest>)
      requires |batches| < Machine.CHANNEL_CAPACITY
      modifies this
      ensures batches == if sealed == [] then old(batches) else old(batches) + [sealed]
      ensures batch == old(batch) && activeBatchVolume == old(activeBatchVolume)
    {
      if |sealed| > 0 { batches := batches + [sealed]; }
    }

    /**
     WalWriter.Write: one stream for the whole batch, unless a record does not encode; then
     every promise gets the outcome.
     */
    method WriteBatch(b: seq<WriteRequest>, encodes: Log -> bool, env: Env) returns (err: Error, b': seq<WriteRequest>)
      requires segment.Valid() && Unanswered(b)
      modifies segment, Channels(b)
      ensures segment.Valid() && AllAnswered(b, err) && b' == Flagged(b, |b|)
      ensures AllEncode(encodes, b) ==>
        Written(segment.Value(), err == Nil) ==
        Segments.Write(old(segment.Value()), RecordsOf(b), cfg.streamSize(RecordsOf(b)), env)
      ensures !AllEncode(encodes, b) ==> err == Failed && segment.Value() == old(segment.Value())
    {
      var buffer: seq<Log> := [];
      for n := 0 to |b|
        invariant buffer == RecordsOf(b)[..n] && forall i :: 0 <= i < n ==> encodes(b[i].log)
      {
        if !encodes(b[n].log) {
          err := Failed;
          b' := Notification(err, b);
          return;
        }
        buffer := buffer + [b[n].log];
      }
      assert buffer == RecordsOf(b);
      var ok := segment.Write(buffer, cfg.streamSize(buffer), env);
      err := if ok then Nil else Failed;
      b' := Notification(err, b);
    }

    /** The flusher's use of a batch; sorted is the order in which sort.Slice left it. */
    method FlushBatch(b: seq<WriteRequest>, encodes: Log -> bool, env: Env)
      returns (err: Error, ghost sorted: seq<WriteRequest>)
      requires segment.Valid() && Unanswered(b)
      modifies segment, table, Channels(b)
      ensures segment.Valid()
      ensures b == [] ==> err == Nil && segment.Value() == old(segment.Value()) && table.data == old(table.data)
      ensures b != [] && AllEncode(encodes, b) ==>
        Written(segment.Value(), err == Nil) ==
        Segments.Write(old(segment.Value()), RecordsOf(b), cfg.streamSize(RecordsOf(b)), env)
      ensures !AllEncode(encodes, b) ==> err == Failed && segment.Value() == old(segment.Value())
      ensures AllAnswered(b, err)
      ensures err != Nil ==> table.data == old(table.data)
      ensures err == Nil ==>
        IsSorting(RequestLeq, Flagged(b, |b|), sorted) && table.data == ApplyAll(old(table.data), RecordsOf(sorted))
    {
      err, sorted := Nil, [];
      if |b| > 0 {
        var b';
        err, b' := WriteBatch(b, encodes, env);
        if err != Nil { return; }
        sorted := SortAndApply(b');
      }
    }

    /** The second half of flushBatch: an apply error is logged and skipped. */
    method SortAndApply(b: seq<WriteRequest>) returns (ghost sorted: seq<WriteRequest>)
      modifies table
      ensures IsSorting(RequestLeq, b, sorted) && table.data == ApplyAll(old(table.data), RecordsOf(sorted))
    {
      assert IsOrder(RequestLeq, b);
      SortSorts(RequestLeq, b);
      var inOrder := Sort(RequestLeq, b);
      sorted := inOrder;
      for n := 0 to |inOrder|
        invariant table.data == ApplyAll(old(table.data), RecordsOf(inOrder)[..n])
      {
        assert RecordsOf(inOrder)[..n + 1][..n] == RecordsOf(inOrder)[..n];
        var _ := table.Apply(inOrder[n].log);
      }
      assert RecordsOf(inOrder)[..|inOrder|] == RecordsOf(inOrder);
    }

    /** One file of recovery, already decoded: sort and apply, stopping at the first record that fails. */
    method ReplayFile(logs: seq<Log>) returns (ok: bool, ghost order: seq<Log>)
      modifies table
      ensures IsSorting(LsnLeq, logs, order)
      ensures Replay(old(table.data), order) == Replayed(table.data, ok)
    {
      LsnOrder(logs);
      SortSorts(LsnLeq, logs);
      var inOrder := Sort(LsnLeq, logs);
      order := inOrder;
      for n := 0 to |inOrder|
        invariant Replay(old(table.data), inOrder[..n]) == Replayed(table.data, true)
      {
        assert inOrder[..n + 1][..n] == inOrder[..n];
        ok := table.Apply(inOrder[n]);
        if !ok {
          ReplayStuck(old(table.data), inOrder, n + 1);
          return;
        }
      }
      assert inOrder[..|inOrder|] == inOrder;
      ok := true;
    }

    /** Recovery's loop over the listed files. */
    method ReplayFiles(files: seq<LogFile>, readable: LogFile -> bool)
      returns (result: RecoveryResult, ghost orders: seq<seq<Log>>)
      modifies table
      ensures result.Recovered? ==>
        SortsFiles(files, orders) && Replay(old(table.data), Concat(orders)) == Replayed(table.data, true)
      ensures result.ErrRead? ==> result.file < |files| && !readable(files[result.file])
      ensures result.ErrFailedDecode? ==> result.file < |files| && Decode(files[result.file]).None?
      ensures result.ErrRead? || result.ErrFailedDecode? ==>
        && SortsFiles(files[..result.file], orders)
        && Replay(old(table.data), Concat(orders)) == Replayed(table.data, true)
      ensures result.ErrApplyRecord? ==>
        && result.file < |files| && SortsFiles(files[..result.file + 1], orders)
        && Replay(old(table.data), Concat(orders)) == Replayed(table.data, false)
      ensures !result.ErrFailedToReadDirectory? && !result.ErrFileCreate? && !result.ErrOpenLast?
    {
      orders := [];
      for n := 0 to |files|
        invariant SortsFiles(files[..n], orders)
        invariant Replay(old(table.data), Concat(orders)) == Replayed(table.data, true)
      {
        if !readable(files[n]) { return ErrRead(n), orders; }
        var decoded := Decode(files[n]);
        if decoded.None? { return ErrFailedDecode(n), orders; }
        var ok, order := ReplayFile(decoded.value);
        OneFileMore(old(table.data), files, n, orders, order);
        orders := orders + [order];
        if !ok { return ErrApplyRecord(n), orders; }
      }
      assert files[..|files|] == files;
      return Recovered, orders;
    }

    /**
     Wal.Recovery: list the directory, replay the files as listed, then create the first
     file or reopen the last listed one.
     */
    method Recover(site: Site, lists: bool, readable: LogFile -> bool, env: Env, opens: bool, statOk: bool)
      returns (result: RecoveryResult, ghost orders: seq<seq<Log>>)
      modifies table, segment
      ensures result.Recovered? ==>
        && SortsFiles(Listing(site, old(segment.files)), orders)
        && Replay(old(table.data), Concat(orders)) == Replayed(table.data, true)
        && (old(segment.files) == [] ==> CanCreate(Unopened<seq<Log>>([], segment.maxSegmentSize), env))
        && segment.hasFile && !segment.closed
        && segment.files == (if old(segment.files) == [] then [File(env.stamp, [])] else Listing(site, old(segment.files)))
        && segment.segmentSize == (if statOk then Total(segment.files[|segment.files| - 1].chunks) else 0)
        && segment.Value() == Restarted(site, old(segment.files), segment.maxSegmentSize, env, statOk)
      ensures result.ErrRead? ==>
        result.file < |Listing(site, old(segment.files))| && !readable(Listing(site, old(segment.files))[result.file])
      ensures result.ErrFailedDecode? ==>
        result.file < |Listing(site, old(segment.files))| && Decode(Listing(site, old(segment.files))[result.file]).None?
      ensures result.ErrRead? || result.ErrFailedDecode? ==>
        && result.file <= |Listing(site, old(segment.files))|
        && SortsFiles(Listing(site, old(segment.files))[..result.file], orders)
        && Replay(old(table.data), Concat(orders)) == Replayed(table.data, true)
      ensures result.ErrFailedToReadDirectory? <==> !lists
      ensures result.ErrFailedToReadDirectory? ==> unchanged(table) && unchanged(segment)
      ensures result.ErrFileCreate? ==> old(segment.files) == [] && !env.creates
      ensures result.ErrOpenLast? ==> old(segment.files) != [] && !opens
      ensures OwnFiles(old(segment.files)) ==> !result.ErrApplyRecord?
    {
      ListingSorts(site, segment.files);
      if !lists { return ErrFailedToReadDirectory, []; }
      ghost var before, found := table.data, segment.files;
      var list := segment.GetList(site);
      result, orders := ReplayFiles(list, readable);
      if result.ErrApplyRecord? {
        OwnListing(site, found);
        OwnPrefixReplays(before, list, result.file + 1, orders);
      }
      if !result.Recovered? { return; }
      if |list| == 0 {
        var created := segment.CreateFile(env);
        if !created { return ErrFileCreate, orders; }
        segment.SetFile(true, statOk);
      } else if opens {
        segment.SetFile(true, statOk);
      } else {
        result := ErrOpenLast;
      }
    }
  }

  // ---------------------------------------------------------------- the engine

  /** Writes draw an LSN before they reach the WAL; reads go straight to the table. */
  class Engine {
    const wal: Wal
    const currentLSN: Ids.IDGenerator

    constructor (wal: Wal)
      ensures this.wal == wal && fresh(currentLSN) && currentLSN.counter == 0
    {
      this.wal := wal;
      currentLSN := new Ids.IDGenerator(0);
    }

    /** Set and Del up to the end of the WAL's locked section; None is ErrFailedGenerateLSN. */
    method Submit(op: Op) returns (record: Option<WriteRequest>, sealed: seq<WriteRequest>)
      modifies wal, currentLSN
      ensures currentLSN.counter ==
              if old(currentLSN.counter) == 9223372036854775807 then 1 else old(currentLSN.counter) + 1
      ensures record.None? <==> currentLSN.counter == 0
      ensures record.None? ==> unchanged(wal) && sealed == []
      ensures record.Some? ==>
        && record.value.log == ToLog(op, currentLSN.counter) && !record.value.promise.promised
        && fresh(record.value.promise.result) && record.value.promise.result.Ready()
        && wal.batches == old(wal.batches)
        && var all, volume := old(wal.batch) + [record.value],
                              old(wal.activeBatchVolume) + wal.cfg.recordSize(record.value.log);
        if |all| >= wal.cfg.batchCount || volume >= wal.cfg.batchVolume
        then sealed == all && wal.batch == [] && wal.activeBatchVolume == 0
        else sealed == [] && wal.batch == all && wal.activeBatchVolume == volume
    {
      var lsn := currentLSN.Generate();
      if lsn == 0 { return None, []; }
      var r, s := wal.Push(lsn, op);
      return Some(r), s;
    }

    method Get(key: string) returns (value: Option<string>)
      ensures value == Lookup(wal.table.data, key)
    {
      var v, ok := wal.table.Get(key);
      return if ok then Some(v) else None;
    }
  }

  /** Once a record fails, the rest changes nothing. */
  lemma {:induction false} ReplayStuck(t: Table, rs: seq<Log>, n: nat)
    requires n <= |rs| && !Replay(t, rs[..n]).ok
    ensures Replay(t, rs) == Replay(t, rs[..n])
  {
    if n == |rs| {
      assert rs[..n] == rs;
    } else {
      assert rs[..|rs| - 1][..n] == rs[..n];
      ReplayStuck(t, rs[..|rs| - 1], n);
    }
  }

  lemma {:induction false} ReplayConcat(t: Table, a: seq<Log>, b: seq<Log>)
    requires Replay(t, a).ok
    ensures Replay(t, a + b) == Replay(Replay(t, a).table, b)
  {
    if b == [] {
      assert a + b == a;
    } else {
      assert (a + b)[..|a + b| - 1] == a + b[..|b| - 1];
      ReplayConcat(t, a, b[..|b| - 1]);
    }
  }

  lemma OneFileMore(t: Table, files: seq<LogFile>, n: nat, orders: seq<seq<Log>>, order: seq<Log>)
    requires n < |files| && SortsFiles(files[..n], orders) && Replay(t, Concat(orders)).ok
    requires Decode(files[n]).Some? && IsSorting(LsnLeq, Decode(files[n]).value, order)
    ensures SortsFiles(files[..n + 1], orders + [order])
    ensures Replay(t, Concat(orders + [order])) == Replay(Replay(t, Concat(orders)).table, order)
  {
    assert (orders + [order])[..|orders|] == orders;
    ReplayConcat(t, Concat(orders), order);
  }

  lemma {:induction false} ChunksOfPrefix(files: seq<LogFile>, n: nat)
    requires n <= |files| && OwnFiles(files)
    ensures OwnFiles(files[..n])
  {
    if n == |files| {
      assert files[..n] == files;
    } else {
      var front := files[..|files| - 1];
      assert forall c :: c in AllChunks(front) ==> c in AllChunks(files);
      ChunksOfPrefix(front, n);
      assert front[..n] == files[..n];
    }
  }

  /** A directory of own records replays without an apply error, as far as it decodes. */
  lemma OwnPrefixReplays(t: Table, files: seq<LogFile>, n: nat, orders: seq<seq<Log>>)
    requires n <= |files| && SortsFiles(files[..n], orders)
    ensures OwnFiles(files) ==> Replay(t, Concat(orders)).ok
  {
    if OwnFiles(files) {
      ChunksOfPrefix(files, n);
      FilesOwnRecords(files[..n], orders);
      OwnRecordsReplay(t, Concat(orders));
    }
  }

  lemma OwnListing(site: Site, files: seq<LogFile>)
    ensures OwnFiles(files) ==> OwnFiles(Listing(site, files))
  {
    forall c | c in AllChunks(Listing(site, files)) ensures c in AllChunks(files) { ListingChunks(site, files, c); }
  }
}
