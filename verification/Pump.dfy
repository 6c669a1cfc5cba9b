/** One direction of a relay session (tcpProxyFunc in main.go): read up to `mtu` bytes from `src`, write
    what was read to `dst`, until a read or a write fails. The sockets are replaced by the scripted results
    of their calls. */
module Pump {
  import opened Wrappers

  /** An error value returned by a socket call (io.EOF among them); never nil. */
  datatype IoError = IoError(code: nat)

  /** One `src.Read(buf)`: the bytes placed in `buf` and the error returned beside them. */
  datatype ReadResult = ReadResult(data: seq<Byte>, err: Option<IoError>)

  /** How the loop ended: it returned the error of a failed Read or of a failed Write (it has no other
      way to return, and never returns nil), or it is still blocked inside a Read or a Write whose result
      the script does not give. */
  datatype PumpEnd = ReadFailed(err: IoError) | WriteFailed(err: IoError) | BlockedInRead | BlockedInWrite
  {
    /** The value tcpProxyFunc returns, if it has returned. */
    function Returned(): Option<IoError>
    {
      match this
      case ReadFailed(e) => Some(e)
      case WriteFailed(e) => Some(e)
      case _ => None
    }
  }

  /** The io.Reader contract for a buffer of `mtu` bytes: a read never returns more than the buffer holds. */
  predicate ReadsFit(srcReads: seq<ReadResult>, mtu: nat)
  {
    forall j :: 0 <= j < |srcReads| ==> |srcReads[j].data| <= mtu
  }

  /** The bytes the pump forwards from one read: none when the read also returned an error. */
  function Payload(r: ReadResult): seq<Byte>
  {
    if r.err.None? then r.data else []
  }

  /** The writes the first `n` reads give rise to: one per read with a non-empty payload, in order. */
  function Chunks(srcReads: seq<ReadResult>, n: nat): (cs: seq<seq<Byte>>)
    requires n <= |srcReads|
    ensures |cs| <= n
  {
    if n == 0 then []
    else
      var last := Payload(srcReads[n - 1]);
      Chunks(srcReads, n - 1) + (if |last| > 0 then [last] else [])
  }

  /** All payload bytes of the first `n` reads, in order. */
  function Received(srcReads: seq<ReadResult>, n: nat): seq<Byte>
    requires n <= |srcReads|
  {
    if n == 0 then [] else Received(srcReads, n - 1) + Payload(srcReads[n - 1])
  }

  /** The bytes of `chunks`, concatenated in order. */
  function Flatten(chunks: seq<seq<Byte>>): seq<Byte>
  {
    if |chunks| == 0 then [] else Flatten(chunks[..|chunks| - 1]) + chunks[|chunks| - 1]
  }

  /** One more read adds its payload as one more write, unless it is empty. */
  lemma ChunksStep(srcReads: seq<ReadResult>, i: nat)
    requires i < |srcReads|
    ensures |Payload(srcReads[i])| == 0 ==> Chunks(srcReads, i + 1) == Chunks(srcReads, i)
    ensures |Payload(srcReads[i])| > 0 ==> Chunks(srcReads, i + 1) == Chunks(srcReads, i) + [Payload(srcReads[i])]
  {
    if |Payload(srcReads[i])| == 0 {
      assert Chunks(srcReads, i) + [] == Chunks(srcReads, i);
    }
  }

  /** Flattening distributes over appending one chunk. */
  lemma FlattenAppendOne(a: seq<seq<Byte>>, c: seq<Byte>)
    ensures Flatten(a + [c]) == Flatten(a) + c
  {
    assert (a + [c])[..|a|] == a;
  }

  /** Byte exactness: the writes carry exactly the bytes read, in order, with nothing merged or lost
      beyond what a failing read drops. */
  lemma {:induction false} ChunksCarryReceived(srcReads: seq<ReadResult>, n: nat)
    requires n <= |srcReads|
    ensures Flatten(Chunks(srcReads, n)) == Received(srcReads, n)
  {
    if n > 0 {
      ChunksCarryReceived(srcReads, n - 1);
      var last := Payload(srcReads[n - 1]);
      if |last| > 0 {
        FlattenAppendOne(Chunks(srcReads, n - 1), last);
      } else {
        assert Chunks(srcReads, n) == Chunks(srcReads, n - 1);
        assert Received(srcReads, n) == Received(srcReads, n - 1) + [];
      }
    }
  }

  /** Every write is non-empty, and at most `mtu` bytes when every read fits the buffer. */
  lemma {:induction false} ChunksFit(srcReads: seq<ReadResult>, n: nat, mtu: nat)
    requires n <= |srcReads|
    requires ReadsFit(srcReads, mtu)
    ensures forall k :: 0 <= k < |Chunks(srcReads, n)| ==> 0 < |Chunks(srcReads, n)[k]| <= mtu
  {
    if n > 0 {
      ChunksFit(srcReads, n - 1, mtu);
    }
  }

  /** What holds when tcpProxyFunc stops after `consumed` reads, having passed `issued` to `dst.Write`:
      the writes are the non-empty payloads of those reads, in order; every read and write before the
      last one succeeded; and the last read explains the stop. */
  ghost predicate Stopped(srcReads: seq<ReadResult>, dstWrites: seq<Option<IoError>>,
                          issued: seq<seq<Byte>>, consumed: nat, end: PumpEnd)
  {
    && consumed <= |srcReads|
    && issued == Chunks(srcReads, consumed)
    && (forall j :: 0 <= j < consumed - 1 ==> srcReads[j].err.None?)
    && (forall k :: 0 <= k < |issued| - 1 ==> k < |dstWrites| && dstWrites[k].None?)
    && match end
       case ReadFailed(e) =>
         && 0 < consumed && srcReads[consumed - 1].err == Some(e)
         && |issued| <= |dstWrites| && (0 < |issued| ==> dstWrites[|issued| - 1].None?)
       case WriteFailed(e) =>
         && 0 < consumed && srcReads[consumed - 1].err.None? && |srcReads[consumed - 1].data| > 0
         && 0 < |issued| <= |dstWrites| && dstWrites[|issued| - 1] == Some(e)
       case BlockedInWrite =>
         && 0 < consumed && srcReads[consumed - 1].err.None? && |srcReads[consumed - 1].data| > 0
         && |issued| == |dstWrites| + 1
       case BlockedInRead =>
         && consumed == |srcReads| && (0 < consumed ==> srcReads[consumed - 1].err.None?)
         && |issued| <= |dstWrites| && (0 < |issued| ==> dstWrites[|issued| - 1].None?)
  }

  /** The loop's invariant while it keeps going: the writes so far are the chunks of the reads so far,
      and every read and write so far succeeded. */
  ghost predicate Running(srcReads: seq<ReadResult>, dstWrites: seq<Option<IoError>>, issued: seq<seq<Byte>>, consumed: nat)
  {
    && consumed <= |srcReads|
    && issued == Chunks(srcReads, consumed)
    && |issued| <= |dstWrites|
    && (forall j :: 0 <= j < consumed ==> srcReads[j].err.None?)
    && (forall k :: 0 <= k < |issued| ==> dstWrites[k].None?)
  }

  /** tcpProxyFunc. `srcReads` are the successive results of `src.Read`, `dstWrites` those of `dst.Write`
      (None: all bytes written). Returns the buffers passed to `dst.Write` in call order, how many reads
      were made, and how the loop ended. */
  method TcpProxyFunc(mtu: nat, srcReads: seq<ReadResult>, dstWrites: seq<Option<IoError>>)
    returns (issued: seq<seq<Byte>>, consumed: nat, end: PumpEnd)
    requires ReadsFit(srcReads, mtu)
    ensures Stopped(srcReads, dstWrites, issued, consumed, end)
    ensures forall k :: 0 <= k < |issued| ==> |issued[k]| <= mtu
    ensures end.Returned().Some? ==>
      && 0 < consumed
      && (end.Returned() == srcReads[consumed - 1].err
          || (0 < |issued| <= |dstWrites| && end.Returned() == dstWrites[|issued| - 1]))
  {
    issued, consumed := [], 0;
    while consumed < |srcReads|
      invariant Running(srcReads, dstWrites, issued, consumed)
      decreases |srcReads| - consumed
    {
      var r := srcReads[consumed];
      if r.err.Some? {
        StopOnReadError(srcReads, dstWrites, issued, consumed);
        ChunksFit(srcReads, consumed + 1, mtu);
        return issued, consumed + 1, ReadFailed(r.err.value);
      }
      if |r.data| > 0 && |issued| == |dstWrites| {
        StopOnPendingWrite(srcReads, dstWrites, issued, consumed);
        ChunksFit(srcReads, consumed + 1, mtu);
        return issued + [r.data], consumed + 1, BlockedInWrite;
      }
      if |r.data| > 0 && dstWrites[|issued|].Some? {
        StopOnWriteError(srcReads, dstWrites, issued, consumed);
        ChunksFit(srcReads, consumed + 1, mtu);
        return issued + [r.data], consumed + 1, WriteFailed(dstWrites[|issued|].value);
      }
      KeepGoing(srcReads, dstWrites, issued, consumed);
      if |r.data| > 0 {
        issued := issued + [r.data];
      }
      consumed := consumed + 1;
    }
    StopOnPendingRead(srcReads, dstWrites, issued);
    ChunksFit(srcReads, consumed, mtu);
    end := BlockedInRead;
  }

  /** A read without error whose payload, if any, is written successfully keeps the loop going. */
  lemma KeepGoing(srcReads: seq<ReadResult>, dstWrites: seq<Option<IoError>>, issued: seq<seq<Byte>>, i: nat)
    requires Running(srcReads, dstWrites, issued, i)
    requires i < |srcReads| && srcReads[i].err.None?
    requires |srcReads[i].data| > 0 ==> |issued| < |dstWrites| && dstWrites[|issued|].None?
    ensures Running(srcReads, dstWrites, if |srcReads[i].data| > 0 then issued + [srcReads[i].data] else issued, i + 1)
  {
    ChunksStep(srcReads, i);
  }

  /** A failed Read returns its error at once; its bytes are dropped. */
  lemma StopOnReadError(srcReads: seq<ReadResult>, dstWrites: seq<Option<IoError>>, issued: seq<seq<Byte>>, i: nat)
    requires Running(srcReads, dstWrites, issued, i)
    requires i < |srcReads| && srcReads[i].err.Some?
    ensures Stopped(srcReads, dstWrites, issued, i + 1, ReadFailed(srcReads[i].err.value))
  {
    ChunksStep(srcReads, i);
  }

  /** A failed Write returns its error after the chunk was handed over. */
  lemma StopOnWriteError(srcReads: seq<ReadResult>, dstWrites: seq<Option<IoError>>, issued: seq<seq<Byte>>, i: nat)
    requires Running(srcReads, dstWrites, issued, i)
    requires i < |srcReads| && srcReads[i].err.None? && |srcReads[i].data| > 0
    requires |issued| < |dstWrites| && dstWrites[|issued|].Some?
    ensures Stopped(srcReads, dstWrites, issued + [srcReads[i].data], i + 1, WriteFailed(dstWrites[|issued|].value))
  {
    ChunksStep(srcReads, i);
  }

  /** A Write whose result is not given leaves the loop blocked inside that Write. */
  lemma StopOnPendingWrite(srcReads: seq<ReadResult>, dstWrites: seq<Option<IoError>>, issued: seq<seq<Byte>>, i: nat)
    requires Running(srcReads, dstWrites, issued, i)
    requires i < |srcReads| && srcReads[i].err.None? && |srcReads[i].data| > 0
    requires |issued| == |dstWrites|
    ensures Stopped(srcReads, dstWrites, issued + [srcReads[i].data], i + 1, BlockedInWrite)
  {
    ChunksStep(srcReads, i);
  }

  /** After the last given read succeeded, the loop is blocked in the next Read. */
  lemma StopOnPendingRead(srcReads: seq<ReadResult>, dstWrites: seq<Option<IoError>>, issued: seq<seq<Byte>>)
    requires Running(srcReads, dstWrites, issued, |srcReads|)
    ensures Stopped(srcReads, dstWrites, issued, |srcReads|, BlockedInRead)
  {
  }
}
