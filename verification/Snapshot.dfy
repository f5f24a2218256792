/** cmd/scomp sendSnapshot and the attach-replay messages of protocol/protocol.go,
    for one session: the session id is the same in every message and is left out. */
module Snapshot {
  import opened Common

  type Client = string

  const CHUNK: nat := 49152          // protocol.SnapshotChunkBytes, 48 << 10
  const UINT32: nat := 0x1_0000_0000

  datatype Msg =
    | Start(client: Client, total: nat)
    | Chunk(client: Client, seqNo: nat, data: seq<byte>)
    | End(client: Client, seqNo: nat)
    | Output(data: seq<byte>)

  /** How many chunks carry n bytes. */
  function ChunkCount(n: nat): nat { (n + CHUNK - 1) / CHUNK }

  /** seq++ on a uint32. */
  function Next32(n: nat): (r: nat)
    ensures n < UINT32 ==> r == (n + 1) % UINT32
  {
    if n + 1 < UINT32 then n + 1 else 0
  }

  /** What is still to be sent once `offset` bytes went out in `seqNo` chunks.
      The sequence number is a uint32 and wraps. */
  function Rest(client: Client, data: seq<byte>, offset: nat, seqNo: nat): seq<Msg>
    decreases |data| - offset
  {
    if offset >= |data| then [End(client, seqNo)]
    else
      var next := Next32(seqNo);
      [Chunk(client, next, data[offset..Min(offset + CHUNK, |data|)])] + Rest(client, data, offset + CHUNK, next)
  }

  /** The whole replay of `data` to one client. */
  function Batch(client: Client, data: seq<byte>): seq<Msg>
  {
    [Start(client, |data|)] + Rest(client, data, 0, 0)
  }

  /** Queues the replay, stopping at the first refusal: `enqueue` accepts `room` messages and
      then fails. What was accepted is exactly a prefix of the batch, and all of it unless refused. */
  method SendSnapshot(client: Client, data: seq<byte>, room: nat) returns (queued: seq<Msg>)
    ensures queued <= Batch(client, data)
    ensures |queued| == Min(room, |Batch(client, data)|)
  {
    if room == 0 {
      return [];
    }
    queued := [Start(client, |data|)];
    var seqNo: nat, offset: nat := 0, 0;
    while offset < |data|
      invariant Batch(client, data) == queued + Rest(client, data, offset, seqNo)
      invariant |queued| <= room
    {
      seqNo := Next32(seqNo);
      var chunk := data[offset..Min(offset + CHUNK, |data|)];
      if |queued| == room {
        return;
      }
      queued := queued + [Chunk(client, seqNo, chunk)];
      offset := offset + CHUNK;
    }
    if |queued| < room {
      queued := queued + [End(client, seqNo)];
    }
  }

  /** The chunks of a batch: ceil(len/CHUNK) of them, numbered from 1, none empty or too long,
      together the data; the closing message carries the last number. */
  ghost predicate WellChunked(client: Client, data: seq<byte>, offset: nat, seqNo: nat, ms: seq<Msg>)
  {
    var n := ChunkCount(|data| - Min(offset, |data|));
    && |ms| == n + 1
    && ms[n] == End(client, seqNo + n)
    && (forall i :: 0 <= i < n ==>
          && ms[i].Chunk? && ms[i].client == client && ms[i].seqNo == seqNo + i + 1
          && 1 <= |ms[i].data| <= CHUNK)
    && Payload(ms) == data[Min(offset, |data|)..]
  }

  /** The replay bytes carried by a list of messages. */
  function Payload(ms: seq<Msg>): seq<byte>
  {
    if ms == [] then [] else (if ms[0].Chunk? then ms[0].data else []) + Payload(ms[1..])
  }

  lemma ChunkCountStep(n: nat)
    requires n > 0
    ensures ChunkCount(n) == 1 + ChunkCount(n - Min(n, CHUNK))
  {
  }

  /** One more chunk in front of a well-chunked rest. */
  lemma ChunkInFront(client: Client, data: seq<byte>, offset: nat, seqNo: nat, m: Msg, tail: seq<Msg>)
    requires offset < |data|
    requires WellChunked(client, data, offset + CHUNK, seqNo + 1, tail)
    requires m == Chunk(client, seqNo + 1, data[offset..Min(offset + CHUNK, |data|)])
    ensures WellChunked(client, data, offset, seqNo, [m] + tail)
  {
    var cut, ms := Min(offset + CHUNK, |data|), [m] + tail;
    ChunkCountStep(|data| - offset);
    assert ms[1..] == tail;
    JoinSlices(data, offset, cut, |data|);
    assert WellChunked(client, data, offset, seqNo, ms);
  }

  lemma NoMoreChunks(client: Client, data: seq<byte>, offset: nat, seqNo: nat)
    requires offset >= |data|
    ensures WellChunked(client, data, offset, seqNo, [End(client, seqNo)])
  {
    assert [End(client, seqNo)][1..] == [];
  }

  lemma {:induction false} RestWellChunked(client: Client, data: seq<byte>, offset: nat, seqNo: nat)
    requires seqNo + ChunkCount(|data| - Min(offset, |data|)) < UINT32
    ensures WellChunked(client, data, offset, seqNo, Rest(client, data, offset, seqNo))
    decreases |data| - offset
  {
    var ms := Rest(client, data, offset, seqNo);
    if offset < |data| {
      ChunkCountStep(|data| - offset);
      RestWellChunked(client, data, offset + CHUNK, seqNo + 1);
      var m := Chunk(client, seqNo + 1, data[offset..Min(offset + CHUNK, |data|)]);
      ChunkInFront(client, data, offset, seqNo, m, Rest(client, data, offset + CHUNK, seqNo + 1));
    } else {
      NoMoreChunks(client, data, offset, seqNo);
    }
    assert WellChunked(client, data, offset, seqNo, ms);
  }

  /** Chunked reassembly, for data of any length whose chunk count fits in the sequence number. */
  lemma BatchReassembles(client: Client, data: seq<byte>)
    requires ChunkCount(|data|) < UINT32
    ensures var b := Batch(client, data);
      && b[0] == Start(client, |data|)
      && WellChunked(client, data, 0, 0, b[1..])
      && Payload(b) == data
  {
    RestWellChunked(client, data, 0, 0);
    var b := Batch(client, data);
    assert b[1..] == Rest(client, data, 0, 0);
    assert data[0..] == data;
  }

  /** What one client has been shown, as a receiver that only knows the message format. */
  datatype View =
    | Waiting
    | Replaying(total: nat, got: seq<byte>, last: nat)
    | Following(bytes: seq<byte>)

  function Receive(v: View, client: Client, m: Msg): View
  {
    match m
    case Start(c, total) => if c == client then Replaying(total, [], 0) else v
    case Chunk(c, n, d) =>
      if c != client then v
      else if v.Replaying? && n == v.last + 1 then Replaying(v.total, v.got + d, n)
      else Waiting
    case End(c, n) =>
      if c != client then v
      else if v.Replaying? && n == v.last && |v.got| == v.total then Following(v.got)
      else Waiting
    case Output(d) =>
      match v
      case Waiting => Waiting            // dropped until the client's snapshot starts
      case Replaying(_, _, _) => Waiting // live output inside a batch would corrupt the replay
      case Following(bytes) => Following(bytes + d)
  }

  function ReceiveAll(v: View, client: Client, ms: seq<Msg>): View
  {
    if ms == [] then v else Receive(ReceiveAll(v, client, ms[..|ms| - 1]), client, ms[|ms| - 1])
  }

  lemma {:induction false} ReceiveAppend(v: View, client: Client, xs: seq<Msg>, ys: seq<Msg>)
    ensures ReceiveAll(v, client, xs + ys) == ReceiveAll(ReceiveAll(v, client, xs), client, ys)
  {
    if ys == [] {
      assert xs + ys == xs;
    } else {
      var k := |ys| - 1;
      assert (xs + ys)[..|xs + ys| - 1] == xs + ys[..k];
      ReceiveAppend(v, client, xs, ys[..k]);
    }
  }

  /** Another client's batch, or any part of it, is invisible. */
  lemma {:induction false} OthersUnaffected(v: View, client: Client, ms: seq<Msg>)
    requires forall m :: m in ms ==> !m.Output? && m.client != client
    ensures ReceiveAll(v, client, ms) == v
  {
    if ms != [] {
      OthersUnaffected(v, client, ms[..|ms| - 1]);
    }
  }

  lemma {:induction false} RestFor(client: Client, data: seq<byte>, offset: nat, seqNo: nat)
    ensures forall m :: m in Rest(client, data, offset, seqNo) ==> !m.Output? && m.client == client
    decreases |data| - offset
  {
    if offset < |data| {
      RestFor(client, data, offset + CHUNK, Next32(seqNo));
    }
  }

  lemma BatchFor(client: Client, data: seq<byte>)
    ensures forall m :: m in Batch(client, data) ==> !m.Output? && m.client == client
  {
    RestFor(client, data, 0, 0);
  }

  /** The client's own batch: mid-way it is still replaying, at the end it has exactly the data. */
  lemma {:induction false} ReceiveRest(v: View, client: Client, data: seq<byte>, offset: nat, seqNo: nat, k: nat)
    requires seqNo + ChunkCount(|data| - Min(offset, |data|)) < UINT32
    requires v == Replaying(|data|, data[..Min(offset, |data|)], seqNo)
    requires k <= |Rest(client, data, offset, seqNo)|
    ensures var ms := Rest(client, data, offset, seqNo);
      if k == |ms| then ReceiveAll(v, client, ms[..k]) == Following(data)
      else ReceiveAll(v, client, ms[..k]).Replaying?
    decreases |data| - offset
  {
    var ms := Rest(client, data, offset, seqNo);
    if k == 0 {
    } else if offset >= |data| {
      assert ms[..k] == [End(client, seqNo)];
      assert ms[..k][..0] == [];
      assert data[..|data|] == data;
    } else {
      var tail := Rest(client, data, offset + CHUNK, seqNo + 1);
      var cut := Min(offset + CHUNK, |data|);
      assert data[..cut] == data[..offset] + data[offset..cut];
      assert ms == [ms[0]] + tail;
      assert ms[..k] == [ms[0]] + tail[..k - 1];
      ReceiveAppend(v, client, [ms[0]], tail[..k - 1]);
      assert [ms[0]][..0] == [];
      ReceiveRest(Receive(v, client, ms[0]), client, data, offset + CHUNK, seqNo + 1, k - 1);
    }
  }

  lemma ReceiveBatch(v: View, client: Client, data: seq<byte>, k: nat)
    requires ChunkCount(|data|) < UINT32
    requires 0 < k <= |Batch(client, data)|
    ensures var ms := Batch(client, data);
      if k == |ms| then ReceiveAll(v, client, ms[..k]) == Following(data)
      else ReceiveAll(v, client, ms[..k]).Replaying?
  {
    var ms, tail := Batch(client, data), Rest(client, data, 0, 0);
    assert ms[..k] == [ms[0]] + tail[..k - 1];
    ReceiveAppend(v, client, [ms[0]], tail[..k - 1]);
    assert [ms[0]][..0] == [];
    ReceiveRest(Receive(v, client, ms[0]), client, data, 0, 0, k - 1);
  }
}
