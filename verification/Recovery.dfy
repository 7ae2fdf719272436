/**
 What recovery reads back. Every flush is written by a fresh gob encoder but a file is
 read by one decoder, so a file with two non-empty streams does not decode.
 */
module Recovery {
  import opened Sorting
  import opened Records
  import opened Segments

  type Stream = Chunk<seq<Log>>
  type LogFile = File<seq<Log>>

  /** The non-empty streams of a file. */
  function Streams(chunks: seq<Stream>): seq<Stream> {
    if chunks == [] then []
    else
      var before := Streams(chunks[..|chunks| - 1]);
      if chunks[|chunks| - 1].data == [] then before else before + [chunks[|chunks| - 1]]
  }

  /** The decode loop over one file; None is ErrFailedDecode. */
  function Decode(file: LogFile): Option<seq<Log>> {
    var ss := Streams(file.chunks);
    if |ss| == 0 then Some([]) else if |ss| == 1 then Some(ss[0].data) else None
  }

  predicate Decodes(files: seq<LogFile>) {
    forall i :: 0 <= i < |files| ==> Decode(files[i]).Some?
  }

  /** orders are what sort.Slice may return for the files, one by one. */
  ghost predicate SortsFiles(files: seq<LogFile>, orders: seq<seq<Log>>) {
    && |orders| == |files|
    && forall i :: 0 <= i < |files| ==> Decode(files[i]).Some? && IsSorting(LsnLeq, Decode(files[i]).value, orders[i])
  }

  ghost predicate OwnFiles(files: seq<LogFile>) {
    forall c :: c in AllChunks(files) ==> AllFromOps(c.data)
  }

  ghost predicate DistinctStreams(chunks: seq<Stream>) {
    forall c :: c in chunks ==> DistinctLsns(c.data)
  }

  function SortedEach(chunks: seq<Stream>): seq<seq<Log>> {
    Image((c: Stream) => Sort(LsnLeq, c.data), chunks)
  }

  /** The records of a log in the order of its flushes, each in LSN order. */
  function ReplayOrder(chunks: seq<Stream>): seq<Log> { Concat(SortedEach(chunks)) }

  lemma ReplayOrderConcat(a: seq<Stream>, b: seq<Stream>)
    ensures ReplayOrder(a + b) == ReplayOrder(a) + ReplayOrder(b)
  {
    assert SortedEach(a + b) == SortedEach(a) + SortedEach(b);
    ConcatConcat(SortedEach(a), SortedEach(b));
  }

  lemma ReplayOrderOne(c: Stream)
    ensures ReplayOrder([c]) == Sort(LsnLeq, c.data)
  {
    assert SortedEach([c]) == [] + [Sort(LsnLeq, c.data)];
    ConcatAppend([], Sort(LsnLeq, c.data));
  }

  lemma {:induction false} EmptyStreamsAddNothing(chunks: seq<Stream>)
    ensures ReplayOrder(Streams(chunks)) == ReplayOrder(chunks)
  {
    if chunks != [] {
      var front, c := chunks[..|chunks| - 1], chunks[|chunks| - 1];
      EmptyStreamsAddNothing(front);
      assert chunks == front + [c];
      ReplayOrderConcat(front, [c]);
      ReplayOrderConcat(Streams(front), [c]);
      ReplayOrderOne(c);
    }
  }

  lemma {:induction false} StreamsAreChunks(chunks: seq<Stream>)
    ensures forall c :: c in Streams(chunks) ==> c in chunks
  {
    if chunks != [] { StreamsAreChunks(chunks[..|chunks| - 1]); }
  }

  lemma SortingIsSort(rs: seq<Log>, out: seq<Log>)
    requires IsSorting(LsnLeq, rs, out) && DistinctLsns(rs)
    ensures out == Sort(LsnLeq, rs)
  {
    LsnOrder(rs);
    SortSorts(LsnLeq, rs);
    MultisetIn(out, multiset(rs));
    assert NoTies(LsnLeq, out) by {
      forall x, y | x in out && y in out && LsnLeq(x, y) && LsnLeq(y, x) ensures x == y {
        assert x in multiset(rs) && y in multiset(rs);
      }
    }
    SortingUnique(LsnLeq, out, Sort(LsnLeq, rs));
  }

  /** The one sorted order of a decodable file is the order of its flush. */
  lemma FileOrder(file: LogFile, order: seq<Log>)
    requires Decode(file).Some? && IsSorting(LsnLeq, Decode(file).value, order)
    requires DistinctStreams(file.chunks)
    ensures order == ReplayOrder(file.chunks)
  {
    var ss := Streams(file.chunks);
    EmptyStreamsAddNothing(file.chunks);
    StreamsAreChunks(file.chunks);
    if |ss| == 1 {
      assert ss[0] in ss;
      SortingIsSort(ss[0].data, order);
      assert ss == [ss[0]];
      ReplayOrderOne(ss[0]);
    } else {
      SameLength(order, []);
    }
  }

  /**
   When all files decode, the records that recovery applies, file by file and whatever
   sort.Slice does, are those of all flushes in order, each in LSN order.
   */
  lemma {:induction false} RecoveryOrder(files: seq<LogFile>, orders: seq<seq<Log>>)
    requires SortsFiles(files, orders) && DistinctStreams(AllChunks(files))
    ensures Concat(orders) == ReplayOrder(AllChunks(files))
  {
    if files != [] {
      var n := |files| - 1;
      var front := AllChunks(files[..n]);
      assert AllChunks(files) == front + files[n].chunks;
      assert forall c :: c in front ==> c in AllChunks(files);
      assert forall c :: c in files[n].chunks ==> c in AllChunks(files);
      RecoveryOrder(files[..n], orders[..n]);
      FileOrder(files[n], orders[n]);
      ReplayOrderConcat(front, files[n].chunks);
    }
  }

  lemma SortedOwnRecords(rs: seq<Log>, out: seq<Log>)
    requires IsSorting(LsnLeq, rs, out) && AllFromOps(rs)
    ensures AllFromOps(out)
  {
    forall r | r in out ensures FromOp(r) { assert r in multiset(rs); }
  }

  lemma {:induction false} FilesOwnRecords(files: seq<LogFile>, orders: seq<seq<Log>>)
    requires SortsFiles(files, orders) && OwnFiles(files)
    ensures AllFromOps(Concat(orders))
  {
    if files != [] {
      var n := |files| - 1;
      assert AllChunks(files) == AllChunks(files[..n]) + files[n].chunks;
      FilesOwnRecords(files[..n], orders[..n]);
      StreamsAreChunks(files[n].chunks);
      var ss := Streams(files[n].chunks);
      assert AllFromOps(Decode(files[n]).value) by {
        if |ss| == 1 { assert ss[0] in ss; }
      }
      SortedOwnRecords(Decode(files[n]).value, orders[n]);
    }
  }

  /** The sort choices Recovery would make if Sort were sort.Slice. */
  function CanonicalOrders(files: seq<LogFile>): seq<seq<Log>> {
    seq(|files|, i requires 0 <= i < |files| =>
      match Decode(files[i]) case Some(rs) => Sort(LsnLeq, rs) case None => [])
  }

  lemma CanonicalSorts(files: seq<LogFile>)
    requires Decodes(files)
    ensures SortsFiles(files, CanonicalOrders(files))
  {
    forall i | 0 <= i < |files| ensures IsSorting(LsnLeq, Decode(files[i]).value, CanonicalOrders(files)[i]) {
      LsnOrder(Decode(files[i]).value);
      SortSorts(LsnLeq, Decode(files[i]).value);
    }
  }

  /**
   A directory of own records can be recovered exactly when no file holds two non-empty
   streams; what recovery then computes, for every choice sort.Slice makes, is the
   replay of all records.
   */
  lemma RecoverableIff(files: seq<LogFile>)
    requires OwnFiles(files)
    ensures (exists orders :: SortsFiles(files, orders)) <==> Decodes(files)
    ensures forall orders :: SortsFiles(files, orders) ==>
              Replay(map[], Concat(orders)) == Replayed(ApplyAll(map[], Concat(orders)), true)
  {
    if Decodes(files) {
      CanonicalSorts(files);
    }
    forall orders | SortsFiles(files, orders)
      ensures Replay(map[], Concat(orders)) == Replayed(ApplyAll(map[], Concat(orders)), true)
    {
      FilesOwnRecords(files, orders);
      OwnRecordsReplay(map[], Concat(orders));
    }
  }

  ghost predicate NoEmptyStreams(chunks: seq<Stream>) {
    forall c :: c in chunks ==> c.data != []
  }

  lemma {:induction false} AllStreams(chunks: seq<Stream>)
    requires NoEmptyStreams(chunks)
    ensures Streams(chunks) == chunks
  {
    if chunks != [] {
      var n := |chunks| - 1;
      assert chunks[n] in chunks && chunks == chunks[..n] + [chunks[n]];
      AllStreams(chunks[..n]);
    }
  }

  lemma {:induction false} FileChunksInLog(files: seq<LogFile>, i: nat)
    requires i < |files|
    ensures forall c :: c in files[i].chunks ==> c in AllChunks(files)
  {
    var n := |files| - 1;
    if i < n { FileChunksInLog(files[..n], i); }
  }

  /** A directory without empty streams decodes exactly when no file holds two flushes. */
  lemma DecodesIffOneFlushPerFile(files: seq<LogFile>)
    requires NoEmptyStreams(AllChunks(files))
    ensures Decodes(files) <==> OneChunkPerFile(files)
  {
    forall i | 0 <= i < |files| ensures Decode(files[i]).Some? <==> |files[i].chunks| <= 1 {
      FileChunksInLog(files, i);
      AllStreams(files[i].chunks);
    }
  }

  // ---------------------------------------------------------------- the listed directory

  lemma {:induction false} ChunkInFile(files: seq<LogFile>, c: Stream) returns (i: nat)
    requires c in AllChunks(files)
    ensures i < |files| && c in files[i].chunks
  {
    var n := |files| - 1;
    if c in files[n].chunks { i := n; } else { i := ChunkInFile(files[..n], c); }
  }

  /** Listing the directory neither adds nor loses a flush. */
  lemma ListingChunks(site: Site, files: seq<LogFile>, c: Stream)
    ensures c in AllChunks(Listing(site, files)) <==> c in AllChunks(files)
  {
    var list := Listing(site, files);
    if c in AllChunks(list) {
      var i := ChunkInFile(list, c);
      InListing(site, files, list[i]);
      var j :| 0 <= j < |files| && files[j] == list[i];
      FileChunksInLog(files, j);
    }
    if c in AllChunks(files) {
      var i := ChunkInFile(files, c);
      InListing(site, files, files[i]);
      var j :| 0 <= j < |list| && list[j] == files[i];
      FileChunksInLog(list, j);
    }
  }

  lemma ListingDecodes(site: Site, files: seq<LogFile>)
    ensures Decodes(Listing(site, files)) <==> Decodes(files)
  {
    var list := Listing(site, files);
    if Decodes(files) {
      forall i | 0 <= i < |list| ensures Decode(list[i]).Some? { InListing(site, files, list[i]); }
    }
    if Decodes(list) {
      forall i | 0 <= i < |files| ensures Decode(files[i]).Some? { InListing(site, files, files[i]); }
    }
  }
}
