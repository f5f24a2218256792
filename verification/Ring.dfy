/** internal/ring: the circular byte buffer behind every session's replay. */
module Ring {
  import opened Common

  /** `b` with `src` written over it from index `at`. */
  ghost function Overwrite(b: seq<byte>, at: nat, src: seq<byte>): seq<byte>
    requires at + |src| <= |b|
  {
    b[..at] + src + b[at + |src|..]
  }

  /** Go's copy(dst[at:], src) where the whole of src fits. */
  method CopyInto(dst: array<byte>, at: nat, src: seq<byte>)
    requires at + |src| <= dst.Length
    modifies dst
    ensures dst[..] == Overwrite(old(dst[..]), at, src)
  {
    for i := 0 to |src|
      invariant forall k :: 0 <= k < i ==> dst[at + k] == src[k]
      invariant forall k :: 0 <= k < dst.Length && !(at <= k < at + i) ==> dst[k] == old(dst[k])
    {
      dst[at + i] := src[i];
    }
  }

  /** The buffered bytes in chronological order. */
  ghost function Ordered(b: seq<byte>, head: nat, full: bool): seq<byte>
    requires head <= |b|
  {
    if full then b[head..] + b[..head] else b[..head]
  }

  /** A write at least as long as the buffer replaces all of it. */
  lemma WriteWhole(kept: seq<byte>, p: seq<byte>, size: nat)
    requires |p| >= size
    ensures Suffix(kept + p, size) == p[|p| - size..]
  {
    var all := kept + p;
    assert all[|all| - size..] == p[|p| - size..];
  }

  /** What the array holds after a write that reaches at most its end. */
  lemma OverwriteLayout(b: seq<byte>, head: nat, p: seq<byte>)
    requires head + |p| <= |b|
    ensures var b', at := Overwrite(b, head, p), head + |p|;
      |b'| == |b| && b'[..at] == b[..head] + p && b'[at..] == b[at..]
  {
  }

  /** Nothing is lost while the buffer has not wrapped. */
  lemma FirstRound(b: seq<byte>, head: nat, p: seq<byte>)
    requires head + |p| <= |b|
    ensures Suffix(b[..head] + p, |b|) == b[..head] + p
  {
  }

  /** A full buffer loses as many old bytes as it gains. */
  lemma LaterRound(b: seq<byte>, head: nat, p: seq<byte>)
    requires head + |p| <= |b|
    ensures Suffix(b[head..] + b[..head] + p, |b|) == b[head + |p|..] + (b[..head] + p)
  {
    var all := b[head..] + b[..head] + p;
    assert all == b[head..head + |p|] + (b[head + |p|..] + (b[..head] + p));
    assert all[|p|..] == b[head + |p|..] + (b[..head] + p);
  }

  /** At the end of the array the order starts at its first byte again. */
  lemma EndReached(b: seq<byte>)
    ensures Ordered(b, 0, true) == b[..|b|]
  {
    assert b[0..] + b[..0] == b[..|b|];
  }

  /** A write that reaches at most the end of the buffer. */
  lemma WriteWithoutWrap(b: seq<byte>, head: nat, full: bool, p: seq<byte>)
    requires head < |b| && 0 < |p| < |b| && head + |p| <= |b|
    ensures var b' := Overwrite(b, head, p);
      Suffix(Ordered(b, head, full) + p, |b|)
      == if head + |p| == |b| then Ordered(b', 0, true) else Ordered(b', head + |p|, full)
  {
    var b', at := Overwrite(b, head, p), head + |p|;
    OverwriteLayout(b, head, p);
    FirstRound(b, head, p);
    LaterRound(b, head, p);
    hide Overwrite, Suffix;
    if at == |b| {
      EndReached(b');
      assert b[at..] == [];
      assert [] + (b[..head] + p) == b[..head] + p;
    }
  }

  /** A write that continues at the start of the buffer after its first n bytes. */
  lemma WriteWithWrap(b: seq<byte>, head: nat, full: bool, p: seq<byte>, n: nat, b1: seq<byte>, b': seq<byte>)
    requires head < |b| && |p| < |b| && head + n == |b| && n < |p|
    requires b1 == Overwrite(b, head, p[..n])
    requires b' == Overwrite(b1, 0, p[n..])
    ensures Suffix(Ordered(b, head, full) + p, |b|) == Ordered(b', |p| - n, true)
  {
    var x, m := Ordered(b, head, full), |p| - n;
    var k := |x| - head + m;
    assert (x + p)[k..] == b[m..head] + p;
    WrapLayout(b, head, p, n, b1, b');
  }

  lemma WrapLayout(b: seq<byte>, head: nat, p: seq<byte>, n: nat, b1: seq<byte>, b': seq<byte>)
    requires head < |b| && |p| < |b| && head + n == |b| && n < |p|
    requires b1 == Overwrite(b, head, p[..n])
    requires b' == Overwrite(b1, 0, p[n..])
    ensures Ordered(b', |p| - n, true) == b[|p| - n..head] + p
  {
    var m := |p| - n;
    assert b'[m..] == b1[m..];
    assert b1[m..] == b[m..head] + p[..n];
    assert b'[..m] == p[n..];
    assert b[m..head] + p[..n] + p[n..] == b[m..head] + p;
  }

  class Buffer {
    var buf: array<byte>
    var head: nat   // next write position
    var full: bool  // true once the buffer has wrapped at least once

    /** Everything written since the last reset; the buffer keeps only its tail. */
    ghost var written: seq<byte>

    ghost predicate Valid()
      reads this, buf
    {
      && (if buf.Length == 0 then head == 0 && !full else head < buf.Length)
      && Ordered(buf[..], head, full) == Suffix(written, buf.Length)
    }

    constructor (size: nat)
      ensures Valid() && fresh(buf) && buf.Length == size
      ensures written == []
    {
      buf := new byte[size](_ => 0);
      head, full := 0, false;
      written := [];
    }

    /** Appends p, overwriting the oldest data when the buffer is full. */
    method Write(p: seq<byte>)
      requires Valid()
      modifies this, buf
      ensures Valid() && buf == old(buf)
      ensures written == old(written) + p
    {
      SuffixAppend(written, p, buf.Length);
      written := written + p;
      if |p| == 0 || buf.Length == 0 {
        assert p == [] ==> old(written) + p == old(written);
      } else {
        Store(p);
      }
    }

    /** The body of Write for a non-empty buffer and p, seen as one change of the kept bytes. */
    method Store(p: seq<byte>)
      requires head < buf.Length && 0 < |p|
      modifies this`head, this`full, buf
      ensures head < buf.Length
      ensures Ordered(buf[..], head, full) == Suffix(old(Ordered(buf[..], head, full)) + p, buf.Length)
    {
      ghost var b := buf[..];
      var size := buf.Length;
      if |p| >= size {
        WriteWhole(Ordered(b, head, full), p, size);
        CopyInto(buf, 0, p[|p| - size..]);
        assert buf[..] == p[|p| - size..];
        head, full := 0, true;
        return;
      }
      var tail := size - head;
      if |p| <= tail {
        WriteWithoutWrap(b, head, full, p);
        CopyInto(buf, head, p);
        head := head + |p|;
        if head == size {
          head, full := 0, true;
        }
      } else {
        CopyInto(buf, head, p[..tail]);
        ghost var b1 := buf[..];
        CopyInto(buf, 0, p[tail..]);
        WriteWithWrap(b, head, full, p, tail, b1, buf[..]);
        head, full := |p| - tail, true;
      }
    }

    /** All buffered data, oldest first: the tail of what was written since the last reset. */
    method Snapshot() returns (out: seq<byte>)
      requires Valid()
      ensures out == Suffix(written, buf.Length)
    {
      if head == 0 && !full {
        return [];
      }
      if !full {
        return buf[..head];
      }
      out := buf[head..] + buf[..head];
    }

    method Reset()
      requires Valid()
      modifies this
      ensures Valid() && buf == old(buf)
      ensures written == []
    {
      head, full := 0, false;
      written := [];
    }
  }
}
