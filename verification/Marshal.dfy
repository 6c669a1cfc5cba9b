/** The bounded copy of a Go string into a buffer owned by the host (copyStrToBuf in main.go). */
module Marshal {
  import opened Wrappers

  /** Length of the `(*[1 << 30]byte)` array through which copyStrToBuf writes: a copy that keeps this
      many bytes or more indexes past it and panics. */
  const ArrayView: nat := 0x4000_0000

  function Min(a: int, b: int): int
  {
    if a <= b then a else b
  }

  /** How many bytes of a message of `msgLen` bytes reach a buffer whose declared length is `bufLen`:
      the message is cut to `bufLen - 1` bytes as soon as it does not leave room for the terminator,
      so a message exactly `bufLen` bytes long is truncated too. */
  function CopiedLength(msgLen: nat, bufLen: int): (n: nat)
    requires bufLen >= 1
    ensures n == Min(msgLen, bufLen - 1)
    ensures n < bufLen
    ensures n == msgLen <==> msgLen < bufLen
  {
    if msgLen >= bufLen then bufLen - 1 else msgLen
  }

  /** Host memory after `copyStrToBuf(msg, buf, bufLen)`. `buf` is the memory the host owns, at least
      `bufLen` bytes of it; a `bufLen` below 1 makes the Go code slice with a negative bound and panic. */
  function CopyStrToBuf(msg: seq<Byte>, buf: seq<Byte>, bufLen: int): (r: seq<Byte>)
    requires 1 <= bufLen <= |buf|
    requires Min(|msg|, bufLen - 1) < ArrayView
    ensures |r| == |buf|
    ensures var n := Min(|msg|, bufLen - 1);
      && r[..n] == msg[..n]
      && r[n] == 0
      && r[n + 1..] == buf[n + 1..]
    ensures forall i :: bufLen <= i < |buf| ==> r[i] == buf[i]
  {
    var n := CopiedLength(|msg|, bufLen);
    msg[..n] + [0] + buf[n + 1..]
  }

  /** Index of the first 0 byte of `mem`, or `|mem|` when there is none: how far the host's
      `strlen`-style scan of the buffer looks. */
  function CStringLength(mem: seq<Byte>): (k: nat)
    ensures k <= |mem|
    ensures forall i :: 0 <= i < k ==> mem[i] != 0
    ensures k < |mem| ==> mem[k] == 0
  {
    if |mem| == 0 || mem[0] == 0 then 0 else 1 + CStringLength(mem[1..])
  }

  /** The C string a host reads from memory `mem`. */
  function ReadCString(mem: seq<Byte>): (s: seq<Byte>)
    ensures s <= mem
    ensures forall i :: 0 <= i < |s| ==> s[i] != 0
  {
    mem[..CStringLength(mem)]
  }

  /** The first 0 byte is the only position with a 0 byte and only non-zero bytes before it. */
  lemma CStringLengthIs(mem: seq<Byte>, k: nat)
    requires k <= |mem|
    requires forall i :: 0 <= i < k ==> mem[i] != 0
    requires k < |mem| ==> mem[k] == 0
    ensures CStringLength(mem) == k
  {
  }

  /** Memory that starts with the first `n` bytes of `msg` followed by a 0 byte reads back as those
      bytes, cut at the first 0 byte among them. */
  lemma ReadTerminatedPrefix(msg: seq<Byte>, mem: seq<Byte>, n: nat)
    requires n <= |msg| && n < |mem|
    requires mem[..n] == msg[..n] && mem[n] == 0
    ensures CStringLength(mem) == Min(CStringLength(msg), n)
    ensures ReadCString(mem) == msg[..Min(CStringLength(msg), n)]
  {
    var m := Min(CStringLength(msg), n);
    forall i | 0 <= i < m
      ensures mem[i] != 0
    {
      assert mem[..n][i] == msg[..n][i];
    }
    if m < n {
      assert mem[..n][m] == msg[..n][m];
    }
    CStringLengthIs(mem, m);
    assert mem[..m] == mem[..n][..m];
  }

  /** Reading the buffer back as a C string yields the message, cut at the copy bound or at the
      message's own first 0 byte, whichever comes first; the terminator is always found inside the
      declared length. */
  lemma ReadBack(msg: seq<Byte>, buf: seq<Byte>, bufLen: int)
    requires 1 <= bufLen <= |buf|
    requires Min(|msg|, bufLen - 1) < ArrayView
    ensures CStringLength(CopyStrToBuf(msg, buf, bufLen)) < bufLen
    ensures ReadCString(CopyStrToBuf(msg, buf, bufLen)) == msg[..Min(CStringLength(msg), Min(|msg|, bufLen - 1))]
  {
    ReadTerminatedPrefix(msg, CopyStrToBuf(msg, buf, bufLen), Min(|msg|, bufLen - 1));
  }

  /** A message without 0 bytes that leaves room for the terminator comes back whole. */
  lemma ReadBackWhole(msg: seq<Byte>, buf: seq<Byte>, bufLen: int)
    requires 1 <= bufLen <= |buf|
    requires Min(|msg|, bufLen - 1) < ArrayView
    requires forall i :: 0 <= i < |msg| ==> msg[i] != 0
    requires |msg| < bufLen
    ensures ReadCString(CopyStrToBuf(msg, buf, bufLen)) == msg
  {
    CStringLengthIs(msg, |msg|);
    ReadBack(msg, buf, bufLen);
  }

  /** The same copy on the host's array, byte by byte. Returns how many message bytes were copied. */
  method CopyStrToArray(msg: seq<Byte>, buf: array<Byte>, bufLen: int) returns (n: nat)
    requires 1 <= bufLen <= buf.Length
    requires Min(|msg|, bufLen - 1) < ArrayView
    modifies buf
    ensures n == Min(|msg|, bufLen - 1)
    ensures buf[..] == CopyStrToBuf(msg, old(buf[..]), bufLen)
  {
    n := CopiedLength(|msg|, bufLen);
    var i := 0;
    while i < n
      invariant 0 <= i <= n
      invariant buf[..i] == msg[..i]
      invariant buf[i..] == old(buf[..])[i..]
    {
      buf[i] := msg[i];
      i := i + 1;
    }
    buf[n] := 0;
  }
}
