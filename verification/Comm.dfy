/** Sending a report or diagnostics to the Director in chunks over a stream. */
module Comm {
  import opened Prelude

  const CHUNK_SIZE := 64 * 1024 - 4

  // ----- What chunking means -----

  /** The chunks of a byte string. */
  function Chunks(data: Bytes): seq<Bytes>
    decreases |data|
  {
    if data == [] then []
    else if |data| <= CHUNK_SIZE then [data]
    else [data[..CHUNK_SIZE]] + Chunks(data[CHUNK_SIZE..])
  }

  function Concat(chunks: seq<Bytes>): Bytes {
    if chunks == [] then [] else chunks[0] + Concat(chunks[1..])
  }

  /** The number of chunks the code logs. */
  function LoggedCount(length: nat): nat {
    (length + CHUNK_SIZE - 1) / CHUNK_SIZE
  }

  /** Every chunk is non-empty and no longer than the limit, and all but the last are of the limit's
      length. */
  predicate WellSized(chunks: seq<Bytes>) {
    && (forall i :: 0 <= i < |chunks| ==> 0 < |chunks[i]| <= CHUNK_SIZE)
    && (forall i :: 0 <= i < |chunks| - 1 ==> |chunks[i]| == CHUNK_SIZE)
  }

  /** Putting the chunks together gives the data back. */
  lemma {:induction false} ChunksRoundTrip(data: Bytes)
    ensures Concat(Chunks(data)) == data
    ensures WellSized(Chunks(data))
    decreases |data|
  {
    if |data| > CHUNK_SIZE {
      ChunksRoundTrip(data[CHUNK_SIZE..]);
      assert data[..CHUNK_SIZE] + data[CHUNK_SIZE..] == data;
      assert Chunks(data)[1..] == Chunks(data[CHUNK_SIZE..]);
    } else if data != [] {
      assert Concat([]) == [] && data + [] == data;
    }
  }

  /** The log line announces the right number of chunks. */
  lemma {:induction false} ChunksCount(data: Bytes)
    ensures |Chunks(data)| == LoggedCount(|data|)
    decreases |data|
  {
    if |data| > CHUNK_SIZE {
      ChunksCount(data[CHUNK_SIZE..]);
    }
  }

  /** Nothing else is a well-sized chunking of the data. */
  lemma {:induction false} ChunksUnique(chunks: seq<Bytes>)
    requires WellSized(chunks)
    ensures Chunks(Concat(chunks)) == chunks
  {
    if chunks != [] {
      var data, rest := Concat(chunks), chunks[1..];
      ChunksUnique(rest);
      if rest == [] {
        assert data == chunks[0] + [] == chunks[0];
      } else {
        assert |Concat(rest)| >= |rest[0]| > 0;
        assert data[..CHUNK_SIZE] == chunks[0] && data[CHUNK_SIZE..] == Concat(rest);
      }
    }
  }

  /** Cutting at the k-th multiple of the limit leaves the chunks from the k-th on. */
  lemma {:induction false} ChunksFrom(data: Bytes, k: nat)
    requires k * CHUNK_SIZE < |data|
    ensures k < |Chunks(data)|
    ensures Chunks(data)[k..] == Chunks(data[k * CHUNK_SIZE..])
    decreases k
  {
    if k == 0 {
      assert data[0..] == data;
    } else {
      ChunksFrom(data[CHUNK_SIZE..], k - 1);
      assert data[CHUNK_SIZE..][(k - 1) * CHUNK_SIZE..] == data[k * CHUNK_SIZE..];
      assert Chunks(data)[k..] == Chunks(data[CHUNK_SIZE..])[k - 1..];
    }
  }

  // ----- The stream and the loop -----

  datatype StreamError = MarshalFailed | OpenFailed | SendFailed | CloseFailed

  /** A client stream to the Director: what has been sent on it, and after how many messages sending
      fails, if it does. */
  class Stream {
    var sent: seq<Bytes>
    const failsAfter: Option<nat>
    const closeFails: bool

    constructor (failsAfter: Option<nat>, closeFails: bool)
      ensures sent == [] && this.failsAfter == failsAfter && this.closeFails == closeFails
    {
      sent := [];
      this.failsAfter := failsAfter;
      this.closeFails := closeFails;
    }

    predicate Fails()
      reads this
    {
      failsAfter.Some? && |sent| >= failsAfter.value
    }

    method Send(chunk: Bytes) returns (failed: bool)
      modifies this
      ensures failed == old(Fails())
      ensures sent == if failed then old(sent) else old(sent) + [chunk]
    {
      if Fails() {
        return true;
      }
      sent := sent + [chunk];
      return false;
    }
  }

  /** What marshalling gives, and the stream that opening gives. */
  datatype Attempt = Attempt(marshalled: Option<Bytes>, stream: Option<Stream>)

  class RPCComm {
    /** The wake-up channel of capacity one: is there a message in it? */
    var rptWake: bool

    constructor ()
      ensures !rptWake
    {
      rptWake := false;
    }

    /** The non-blocking send that asks the retriever to restart. */
    method Wake()
      modifies this
      ensures rptWake
    {
      if !rptWake {
        rptWake := true;
      }
    }

    /** Report and StreamDiagnostics: on success the stream carried exactly the chunks of the data;
        on a send error, the chunks before the one that failed; the retriever is woken in any case. */
    method Report(attempt: Attempt) returns (r: Result<(), StreamError>)
      requires attempt.stream.Some? ==> attempt.stream.value.sent == []
      modifies this, if attempt.stream.Some? then {attempt.stream.value} else {}
      ensures rptWake
      ensures attempt.marshalled.None? <==> r == Err(MarshalFailed)
      ensures r == Err(OpenFailed) <==> attempt.marshalled.Some? && attempt.stream.None?
      ensures attempt.marshalled.None? && attempt.stream.Some? ==> attempt.stream.value.sent == []
      ensures attempt.marshalled.Some? && attempt.stream.Some? ==>
                var chunks, stream := Chunks(attempt.marshalled.value), attempt.stream.value;
                var cut := if stream.failsAfter.Some? && stream.failsAfter.value < |chunks|
                           then stream.failsAfter.value else |chunks|;
                && stream.sent == chunks[..cut]
                && r == if cut < |chunks| then Err(SendFailed)
                        else if stream.closeFails then Err(CloseFailed) else Ok(())
    {
      Wake();
      if attempt.marshalled.None? {
        return Err(MarshalFailed);
      }
      if attempt.stream.None? {
        return Err(OpenFailed);
      }
      var stream := attempt.stream.value;
      var failed := SendChunks(stream, attempt.marshalled.value);
      if failed {
        return Err(SendFailed);
      }
      if stream.closeFails {
        return Err(CloseFailed);
      }
      return Ok(());
    }

    /** The loop over the data. */
    method SendChunks(stream: Stream, data: Bytes) returns (failed: bool)
      requires stream.sent == []
      modifies stream
      ensures failed <==> stream.failsAfter.Some? && stream.failsAfter.value < |Chunks(data)|
      ensures stream.sent == if failed then Chunks(data)[..stream.failsAfter.value] else Chunks(data)
    {
      var i := 0;
      ghost var k := 0;
      while i < |data|
        invariant 0 <= k && i == k * CHUNK_SIZE
        invariant k <= |Chunks(data)| && stream.sent == Chunks(data)[..k]
        invariant i < |data| ==> Chunks(data)[k..] == Chunks(data[i..]) && k < |Chunks(data)|
        invariant i >= |data| ==> k == |Chunks(data)|
        invariant stream.failsAfter.Some? ==> k <= stream.failsAfter.value
        decreases |data| - i
      {
        var j := i + CHUNK_SIZE;
        var chunk;
        if j < |data| {
          chunk := data[i..j];
        } else {
          chunk := data[i..];
        }
        NextChunk(data, i, k);
        assert Chunks(data)[..k] + [Chunks(data)[k]] == Chunks(data)[..k + 1];
        failed := stream.Send(chunk);
        if failed {
          return;
        }
        i := j;
        k := k + 1;
      }
      assert Chunks(data)[..|Chunks(data)|] == Chunks(data);
      return false;
    }
  }

  /** The chunk cut at position `i` is the k-th, and what is left has the rest. */
  lemma NextChunk(data: Bytes, i: nat, k: nat)
    requires i == k * CHUNK_SIZE && i < |data|
    ensures k < |Chunks(data)|
    ensures Chunks(data)[k] == if i + CHUNK_SIZE < |data| then data[i..i + CHUNK_SIZE] else data[i..]
    ensures i + CHUNK_SIZE < |data| ==>
              k + 1 < |Chunks(data)| && Chunks(data)[k + 1..] == Chunks(data[i + CHUNK_SIZE..])
    ensures i + CHUNK_SIZE >= |data| ==> k + 1 == |Chunks(data)|
  {
    ChunksFrom(data, k);
    FirstChunk(data[i..]);
    assert Chunks(data)[k] == Chunks(data)[k..][0];
    if i + CHUNK_SIZE < |data| {
      ChunksFrom(data, k + 1);
      assert data[i..][..CHUNK_SIZE] == data[i..i + CHUNK_SIZE];
    }
  }

  lemma FirstChunk(data: Bytes)
    requires data != []
    ensures |Chunks(data)| > 0
    ensures Chunks(data)[0] == if CHUNK_SIZE < |data| then data[..CHUNK_SIZE] else data
    ensures |Chunks(data)| > 1 <==> CHUNK_SIZE < |data|
  {
  }
}
