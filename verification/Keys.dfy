/** fakeshell/term/keys.go: terminal input bytes to keys, across message boundaries. */
module Keys {
  import opened Common

  /** A Unicode code point, a C0 control code, or one of the special keys above the Unicode range. */
  type Key = int

  const MAX_RUNE: int := 0x10FFFF
  const RUNE_ERROR: int := 0xFFFD

  const KEY_UP: Key := MAX_RUNE + 1
  const KEY_DOWN: Key := MAX_RUNE + 2
  const KEY_RIGHT: Key := MAX_RUNE + 3
  const KEY_LEFT: Key := MAX_RUNE + 4
  const KEY_HOME: Key := MAX_RUNE + 5
  const KEY_END: Key := MAX_RUNE + 6
  const KEY_DELETE: Key := MAX_RUNE + 7
  const KEY_PAGE_UP: Key := MAX_RUNE + 8
  const KEY_PAGE_DOWN: Key := MAX_RUNE + 9
  const KEY_UNKNOWN: Key := MAX_RUNE + 10
  const KEY_BACKSPACE: Key := 0x7f
  const KEY_ENTER: Key := 0x0d
  const KEY_ESC: Key := 0x1b

  const ESC: byte := 0x1b
  const CR: byte := 0x0d
  const LF: byte := 0x0a
  const MAX_CSI: nat := 16
  const UTF_MAX: nat := 4

  predicate Printable(k: Key) { 0x20 <= k <= MAX_RUNE && k != KEY_BACKSPACE }

  // ---- unicode/utf8, as far as the decoder uses it --------------------------------------------

  /** Bytes in the sequence started by b; 1 also for bytes that start none. */
  function SeqLen(b: byte): nat
  {
    if 0xC2 <= b <= 0xDF then 2 else if 0xE0 <= b <= 0xEF then 3 else if 0xF0 <= b <= 0xF4 then 4 else 1
  }

  /** Section 3 of RFC 3629: which second bytes may follow b. */
  predicate SecondOk(b: byte, b1: byte)
  {
    var lo := if b == 0xE0 then 0xA0 else if b == 0xF0 then 0x90 else 0x80;
    var hi := if b == 0xED then 0x9F else if b == 0xF4 then 0x8F else 0xBF;
    lo <= b1 <= hi
  }

  predicate Continuation(b: byte) { 0x80 <= b <= 0xBF }

  /** utf8.FullRune: p starts with a complete rune, or with something already known to be invalid. */
  predicate FullRune(p: seq<byte>)
  {
    && p != []
    && (|p| >= SeqLen(p[0]) || (|p| > 1 && !SecondOk(p[0], p[1])) || (|p| > 2 && !Continuation(p[2])))
  }

  /** utf8.DecodeRune, without the width. */
  function DecodeRune(p: seq<byte>): int
    requires p != []
  {
    var n := SeqLen(p[0]);
    if p[0] < 0x80 then p[0]
    else if n == 1 || |p| < n || !SecondOk(p[0], p[1]) then RUNE_ERROR
    else if n == 2 then (p[0] as int - 0xC0) * 0x40 + (p[1] as int - 0x80)
    else if !Continuation(p[2]) then RUNE_ERROR
    else if n == 3 then (p[0] as int - 0xE0) * 0x1000 + (p[1] as int - 0x80) * 0x40 + (p[2] as int - 0x80)
    else if !Continuation(p[3]) then RUNE_ERROR
    else (p[0] as int - 0xF0) * 0x40000 + (p[1] as int - 0x80) * 0x1000 + (p[2] as int - 0x80) * 0x40 + (p[3] as int - 0x80)
  }

  // ---- the decoder ----------------------------------------------------------------------------

  datatype Mode = Ground | Esc | Csi | CsiDiscard | Ss3

  datatype Decode = Decode(mode: Mode, params: seq<byte>, utf: seq<byte>, lastCR: bool)

  const START: Decode := Decode(Ground, [], [], false)

  predicate FinalByte(b: byte) { 0x40 <= b <= 0x7e }

  function CsiKey(params: seq<byte>, final: byte): Key
  {
    if final == 65 then KEY_UP
    else if final == 66 then KEY_DOWN
    else if final == 67 then KEY_RIGHT
    else if final == 68 then KEY_LEFT
    else if final == 72 then KEY_HOME
    else if final == 70 then KEY_END
    else if final == 126 then
      if params == [49] || params == [55] then KEY_HOME
      else if params == [52] || params == [56] then KEY_END
      else if params == [51] then KEY_DELETE
      else if params == [53] then KEY_PAGE_UP
      else if params == [54] then KEY_PAGE_DOWN
      else KEY_UNKNOWN
    else KEY_UNKNOWN
  }

  function Ss3Key(b: byte): Key
  {
    if b == 65 then KEY_UP
    else if b == 66 then KEY_DOWN
    else if b == 67 then KEY_RIGHT
    else if b == 68 then KEY_LEFT
    else if b == 72 then KEY_HOME
    else if b == 70 then KEY_END
    else KEY_UNKNOWN
  }

  /** Decoder.ground: one byte outside any escape sequence. */
  function GroundByte(d: Decode, b: byte): (Decode, seq<Key>)
  {
    if d.utf != [] || b >= 0x80 then
      var utf := d.utf + [b];
      var e := d.(lastCR := false);
      if FullRune(utf) then
        var r := DecodeRune(utf);
        (e.(utf := []), if r != RUNE_ERROR then [r] else [])
      else (e.(utf := if |utf| >= UTF_MAX then [] else utf), [])
    else if b == CR then (d.(lastCR := true), [KEY_ENTER])
    else if b == LF then (d.(lastCR := false), if d.lastCR then [] else [KEY_ENTER]) // CR LF is one Enter
    else if b == 0x08 then (d.(lastCR := false), [KEY_BACKSPACE])
    else (d.(lastCR := false), [b])
  }

  /** One byte; `last` says that it is the last of its message. */
  function DecodeByte(d: Decode, b: byte, last: bool): (Decode, seq<Key>)
  {
    match d.mode
    case Esc =>
      if b == 91 then (d.(mode := Csi, params := []), [])
      else if b == 79 then (d.(mode := Ss3), [])
      else var (e, keys) := GroundByte(d.(mode := Ground), b); (e, [KEY_ESC] + keys) // Alt+key
    case Csi =>
      if FinalByte(b) then (d.(mode := Ground), [CsiKey(d.params, b)])
      else if |d.params| >= MAX_CSI then (d.(mode := CsiDiscard), [])
      else (d.(params := d.params + [b]), [])
    case CsiDiscard => if FinalByte(b) then (d.(mode := Ground), [KEY_UNKNOWN]) else (d, [])
    case Ss3 => (d.(mode := Ground), [Ss3Key(b)])
    case Ground =>
      if b != ESC then GroundByte(d, b)
      else if last then (d, [KEY_ESC])
      else (d.(mode := Esc), [])
  }

  /** The bytes p of one message; `end` says that the message ends with p. */
  function DecodeBytes(d: Decode, p: seq<byte>, end: bool): (Decode, seq<Key>)
  {
    if p == [] then (d, [])
    else
      var k := |p| - 1;
      var (e, keys) := DecodeBytes(d, p[..k], false);
      var (f, more) := DecodeByte(e, p[k], end);
      (f, keys + more)
  }

  /** One call of Feed. */
  function FeedMsg(d: Decode, p: seq<byte>): (Decode, seq<Key>) { DecodeBytes(d, p, true) }

  class Decoder {
    var mode: Mode
    var params: seq<byte>
    var utf: seq<byte>
    var lastCR: bool

    ghost function Value(): Decode
      reads this
    {
      Decode(mode, params, utf, lastCR)
    }

    constructor ()
      ensures Value() == START
    {
      mode, params, utf, lastCR := Ground, [], [], false;
    }

    method Feed(p: seq<byte>) returns (out: seq<Key>)
      modifies this
      ensures (Value(), out) == FeedMsg(old(Value()), p)
    {
      out := [];
      ghost var start := Value();
      for i := 0 to |p|
        invariant (Value(), out) == DecodeBytes(start, p[..i], i == |p|)
      {
        assert p[..i + 1][..i] == p[..i];
        var b := p[i];
        out := FeedByte(out, b, i == |p| - 1);
      }
      assert p[..|p|] == p;
    }

    method FeedByte(out: seq<Key>, b: byte, last: bool) returns (out': seq<Key>)
      modifies this
      ensures Value() == DecodeByte(old(Value()), b, last).0
      ensures out' == out + DecodeByte(old(Value()), b, last).1
    {
      out' := out;
      match mode {
        case Esc =>
          if b == 91 {
            mode, params := Csi, [];
          } else if b == 79 {
            mode := Ss3;
          } else {
            mode := Ground;
            out' := out' + [KEY_ESC];
            out' := GroundStep(out', b);
          }
        case Csi =>
          if FinalByte(b) {
            mode := Ground;
            out' := out' + [CsiKey(params, b)];
          } else if |params| >= MAX_CSI {
            mode := CsiDiscard;
          } else {
            params := params + [b];
          }
        case CsiDiscard =>
          if FinalByte(b) {
            mode := Ground;
            out' := out' + [KEY_UNKNOWN];
          }
        case Ss3 =>
          mode := Ground;
          out' := out' + [Ss3Key(b)];
        case Ground =>
          if b == ESC {
            if last {
              out' := out' + [KEY_ESC];
            } else {
              mode := Esc;
            }
          } else {
            out' := GroundStep(out', b);
          }
      }
    }

    method GroundStep(out: seq<Key>, b: byte) returns (out': seq<Key>)
      modifies this
      ensures Value() == GroundByte(old(Value()), b).0
      ensures out' == out + GroundByte(old(Value()), b).1
    {
      out' := out;
      var cr := lastCR;
      lastCR := false;
      if |utf| > 0 || b >= 0x80 {
        utf := utf + [b];
        if FullRune(utf) {
          var r := DecodeRune(utf);
          utf := [];
          if r != RUNE_ERROR {
            out' := out' + [r];
          }
        } else if |utf| >= UTF_MAX {
          assert false; // the source clears utf here; four bytes are always a full rune
        }
      } else if b == CR {
        lastCR := true;
        out' := out' + [KEY_ENTER];
      } else if b == LF {
        if !cr {
          out' := out' + [KEY_ENTER];
        }
      } else if b == 0x08 {
        out' := out' + [KEY_BACKSPACE];
      } else {
        out' := out' + [b];
      }
    }
  }

  // ---- bounded buffers --------------------------------------------------------------------------

  /** What every reachable decoder keeps: short buffers, and a pending UTF-8 prefix that is still open. */
  predicate Bounded(d: Decode)
  {
    |d.params| <= MAX_CSI && |d.utf| < UTF_MAX && !FullRune(d.utf)
  }

  lemma ByteBounded(d: Decode, b: byte, last: bool)
    requires Bounded(d)
    ensures Bounded(DecodeByte(d, b, last).0)
  {
    var utf := d.utf + [b];
    assert |utf| >= 4 ==> FullRune(utf);
  }

  lemma {:induction false} BuffersBounded(d: Decode, p: seq<byte>, end: bool)
    requires Bounded(d)
    ensures Bounded(DecodeBytes(d, p, end).0)
  {
    if p != [] {
      var k := |p| - 1;
      BuffersBounded(d, p[..k], false);
      ByteBounded(DecodeBytes(d, p[..k], false).0, p[k], end);
    }
  }

  // ---- message boundaries -------------------------------------------------------------------------

  lemma DecodeOne(d: Decode, b: byte, end: bool)
    ensures DecodeBytes(d, [b], end) == DecodeByte(d, b, end)
  {
    hide DecodeByte;
    var (e, keys) := DecodeByte(d, b, end);
    assert [b][..0] == [] && [] + keys == keys;
  }

  lemma {:induction false} DecodeAppend(d: Decode, p: seq<byte>, q: seq<byte>, end: bool)
    requires q != []
    ensures var (e, keys) := DecodeBytes(d, p, false);
      var (f, more) := DecodeBytes(e, q, end);
      DecodeBytes(d, p + q, end) == (f, keys + more)
  {
    hide DecodeByte;
    var k := |q| - 1;
    assert (p + q)[..|p| + k] == p + q[..k] && (p + q)[|p| + k] == q[k];
    var (e, keys) := DecodeBytes(d, p, false);
    if k == 0 {
      assert p + q[..k] == p && q == [q[k]];
      DecodeOne(e, q[k], end);
    } else {
      DecodeAppend(d, p, q[..k], false);
      var (f, more) := DecodeBytes(e, q[..k], false);
      var last := DecodeByte(f, q[k], end).1;
      assert keys + more + last == keys + (more + last);
    }
  }

  /** The last byte of p is an ESC read outside any escape sequence. */
  predicate EndsInEsc(d: Decode, p: seq<byte>)
  {
    p != [] && p[|p| - 1] == ESC && DecodeBytes(d, p[..|p| - 1], false).0.mode.Ground?
  }

  /** Two messages decode like one. */
  predicate SplitAgrees(d: Decode, p: seq<byte>, q: seq<byte>)
  {
    var (e, keys) := FeedMsg(d, p);
    var (f, more) := FeedMsg(e, q);
    FeedMsg(d, p + q) == (f, keys + more)
  }

  lemma SplitWithoutEsc(d: Decode, p: seq<byte>, q: seq<byte>)
    requires !EndsInEsc(d, p)
    ensures SplitAgrees(d, p, q)
  {
    assert DecodeBytes(d, p, true) == DecodeBytes(d, p, false);
    if q == [] {
      assert p + q == p;
      var keys := FeedMsg(d, p).1;
      assert keys + [] == keys;
    } else {
      DecodeAppend(d, p, q, true);
    }
  }

  /** Decoding does not depend on where a message is cut, exactly unless the first part ends in such
      an ESC: then the cut is visible to some continuation. */
  lemma BoundariesInvisible(d: Decode, p: seq<byte>)
    ensures (forall q :: SplitAgrees(d, p, q)) <==> !EndsInEsc(d, p)
  {
    if EndsInEsc(d, p) {
      var q: seq<byte> := [91];
      DecodeAppend(d, p, q, true);
      DecodeOne(DecodeBytes(d, p, false).0, 91, true);
      DecodeOne(DecodeBytes(d, p, true).0, 91, true);
      assert !SplitAgrees(d, p, q);
    } else {
      forall q ensures SplitAgrees(d, p, q) {
        SplitWithoutEsc(d, p, q);
      }
    }
  }

  // ---- a cut after an ESC --------------------------------------------------------------------------

  /** The number of ESC bytes at the start of q. */
  function Escapes(q: seq<byte>): (n: nat)
    ensures n <= |q| && (n < |q| ==> q[n] != ESC)
    ensures forall i :: 0 <= i < n ==> q[i] == ESC
  {
    if q != [] && q[0] == ESC then 1 + Escapes(q[1..]) else 0
  }

  predicate Introducer(b: byte) { b == 91 || b == 79 }

  /** Whether the cut stays invisible, for a decoder that reads the ESC before it in state g: the first
      byte after all ESC bytes must not be the second byte of an escape sequence. A single ESC after the
      cut also shows when it cuts short a rune, or comes between a CR and the LF that belongs to it. */
  predicate Unnoticed(g: Decode, q: seq<byte>)
  {
    var n := Escapes(q);
    && (n < |q| ==> !Introducer(q[n]))
    && (n == 1 ==> g.utf == [] && (g.lastCR ==> |q| > 1 && q[1] != LF))
  }

  /** A rune torn apart by two ESC bytes whose next byte is again no ASCII, with yet another ESC later. */
  predicate Torn(g: Decode, q: seq<byte>)
  {
    g.utf != [] && |q| > 1 && q[0] == ESC && q[1] >= 0x80 && ESC in q[1..]
  }

  /** Exactly which continuations notice a cut after such an ESC. */
  lemma SplitAfterEsc(d: Decode, p: seq<byte>, q: seq<byte>)
    requires Bounded(d) && EndsInEsc(d, p)
    ensures var g := DecodeBytes(d, p[..|p| - 1], false).0;
      !Torn(g, q) ==> (SplitAgrees(d, p, q) <==> Unnoticed(g, q))
  {
    var init := p[..|p| - 1];
    var g := DecodeBytes(d, init, false).0;
    BuffersBounded(d, init, false);
    EscAtEnd(d, p);
    if q == [] {
      EmptyContinuation(d, p);
    } else if !Torn(g, q) {
      CatchesUp(d, p, q);
      WhenItCatches(g, q);
    }
  }

  lemma EmptyContinuation(d: Decode, p: seq<byte>)
    ensures SplitAgrees(d, p, [])
  {
    var keys := DecodeBytes(d, p, true).1;
    hide DecodeByte;
    assert p + [] == p && keys + [] == keys;
  }

  /** A decoder that still holds an ESC reports it and then does what the other one does. */
  predicate Catches(g: Decode, q: seq<byte>)
  {
    var apart, joined := DecodeBytes(g, q, true), DecodeBytes(g.(mode := Esc), q, true);
    joined.0 == apart.0 && joined.1 == [KEY_ESC] + apart.1
  }

  lemma CatchesUp(d: Decode, p: seq<byte>, q: seq<byte>)
    requires EndsInEsc(d, p) && q != []
    ensures SplitAgrees(d, p, q) <==> Catches(DecodeBytes(d, p[..|p| - 1], false).0, q)
  {
    hide DecodeByte, DecodeBytes, EndsInEsc;
    EscAtEnd(d, p);
    DecodeAppend(d, p, q, true);
    var before := DecodeBytes(d, p[..|p| - 1], false);
    Compare(before.1, DecodeBytes(before.0.(mode := Esc), q, true), DecodeBytes(before.0, q, true));
  }

  lemma Compare(before: seq<Key>, joined: (Decode, seq<Key>), apart: (Decode, seq<Key>))
    ensures (joined.0, before + joined.1) == (apart.0, before + [KEY_ESC] + apart.1)
       <==> joined.0 == apart.0 && joined.1 == [KEY_ESC] + apart.1
  {
    SamePrefix(before, joined.1, [KEY_ESC] + apart.1);
    assert before + [KEY_ESC] + apart.1 == before + ([KEY_ESC] + apart.1);
  }

  lemma SamePrefix(xs: seq<Key>, ys: seq<Key>, zs: seq<Key>)
    ensures xs + ys == xs + zs <==> ys == zs
  {
    if xs + ys == xs + zs {
      assert ys == (xs + ys)[|xs|..];
      assert zs == (xs + zs)[|xs|..];
    }
  }

  lemma EscAtEnd(d: Decode, p: seq<byte>)
    requires EndsInEsc(d, p)
    ensures p != []
    ensures var (e, keys) := DecodeBytes(d, p[..|p| - 1], false);
      && e.mode.Ground?
      && DecodeBytes(d, p, true) == (e, keys + [KEY_ESC])
      && DecodeBytes(d, p, false) == (e.(mode := Esc), keys)
  {
    var keys := DecodeBytes(d, p[..|p| - 1], false).1;
    assert keys + [] == keys;
  }

  lemma FirstByte(d: Decode, q: seq<byte>)
    requires q != []
    ensures var (e, keys) := DecodeByte(d, q[0], |q| == 1);
      DecodeBytes(d, q, true).0 == DecodeBytes(e, q[1..], true).0 &&
      DecodeBytes(d, q, true).1 == keys + DecodeBytes(e, q[1..], true).1
  {
    hide DecodeByte;
    DecodeOne(d, q[0], |q| == 1);
    if |q| > 1 {
      DecodeAppend(d, [q[0]], q[1..], true);
      assert [q[0]] + q[1..] == q;
    } else {
      assert q == [q[0]];
      var keys := DecodeByte(d, q[0], true).1;
      assert keys + [] == keys;
    }
  }

  /** The state without anything pending. */
  function Settled(g: Decode): Decode { g.(utf := [], lastCR := false) }

  /** An ESC that reaches `ground` is a key of its own, unless it ends a rune that was still open. */
  function Swallowed(g: Decode): seq<Key> { if g.utf == [] then [KEY_ESC] else [] }

  lemma GroundEsc(g: Decode)
    requires Bounded(g)
    ensures GroundByte(g, ESC) == (Settled(g), Swallowed(g))
  {
    if g.utf != [] {
      BrokenRune(g.utf, ESC);
    }
  }

  /** An open prefix followed by an ASCII byte is known to be invalid. */
  lemma BrokenRune(utf: seq<byte>, b: byte)
    requires utf != [] && !FullRune(utf) && b < 0x80
    ensures FullRune(utf + [b]) && DecodeRune(utf + [b]) == RUNE_ERROR
  {
    var p := utf + [b];
    assert p[0] == utf[0] && p[|utf|] == b;
    assert |utf| > 1 ==> p[1] == utf[1];
    assert |utf| > 2 ==> p[2] == utf[2];
  }

  /** In mode Esc an ordinary byte reports Esc and then the byte's own keys. */
  lemma AltByte(g: Decode, b: byte, last: bool)
    requires g.mode.Ground? && !Introducer(b)
    ensures DecodeByte(g.(mode := Esc), b, last) == (GroundByte(g, b).0, [KEY_ESC] + GroundByte(g, b).1)
  {
    hide FullRune, DecodeRune, GroundByte;
    assert g.(mode := Esc).(mode := Ground) == g;
  }

  lemma AltKey(g: Decode, q: seq<byte>)
    requires g.mode.Ground? && q != [] && !Introducer(q[0])
    ensures var h := GroundByte(g, q[0]);
      DecodeBytes(g.(mode := Esc), q, true).0 == DecodeBytes(h.0, q[1..], true).0 &&
      DecodeBytes(g.(mode := Esc), q, true).1 == [KEY_ESC] + (h.1 + DecodeBytes(h.0, q[1..], true).1)
  {
    hide DecodeByte, DecodeBytes, GroundByte;
    FirstByte(g.(mode := Esc), q);
    AltByte(g, q[0], |q| == 1);
    var h := GroundByte(g, q[0]);
    var rest := DecodeBytes(h.0, q[1..], true).1;
    assert [KEY_ESC] + h.1 + rest == [KEY_ESC] + (h.1 + rest);
  }

  /** Outside any sequence a byte other than ESC goes to `ground`. */
  lemma GroundKey(g: Decode, q: seq<byte>)
    requires g.mode.Ground? && q != [] && q[0] != ESC
    ensures var h := GroundByte(g, q[0]);
      DecodeBytes(g, q, true).0 == DecodeBytes(h.0, q[1..], true).0 &&
      DecodeBytes(g, q, true).1 == h.1 + DecodeBytes(h.0, q[1..], true).1
  {
    hide DecodeBytes, GroundByte;
    FirstByte(g, q);
  }

  /** Without an ESC in front, the cut is invisible unless an escape sequence begins there. */
  lemma CatchesPlain(g: Decode, q: seq<byte>)
    requires g.mode.Ground? && q != [] && q[0] != ESC
    ensures Catches(g, q) <==> !Introducer(q[0])
  {
    hide DecodeByte, DecodeBytes, GroundByte;
    if Introducer(q[0]) {
      SequenceKeys(g.(mode := Esc), q);
    } else {
      AltKey(g, q);
      GroundKey(g, q);
    }
  }

  /** What a sequence that begins ESC [ or ESC O reports first is a special key, or nothing. */
  lemma SequenceKeys(d: Decode, q: seq<byte>)
    requires d.mode.Esc? && q != [] && Introducer(q[0])
    ensures var keys := DecodeBytes(d, q, true).1; keys != [] ==> keys[0] > MAX_RUNE
  {
    hide DecodeBytes, GroundByte;
    FirstByte(d, q);
    InsideSequence(DecodeByte(d, q[0], |q| == 1).0, q[1..]);
  }

  lemma {:induction false} InsideSequence(d: Decode, q: seq<byte>)
    requires d.mode.Csi? || d.mode.CsiDiscard? || d.mode.Ss3?
    ensures var keys := DecodeBytes(d, q, true).1; keys != [] ==> keys[0] > MAX_RUNE
    decreases |q|
  {
    hide DecodeByte, DecodeBytes;
    if q == [] {
      DecodeNothing(d);
    } else {
      FirstByte(d, q);
      SequenceByte(d, q[0], |q| == 1);
      var (e, keys) := DecodeByte(d, q[0], |q| == 1);
      if keys == [] {
        InsideSequence(e, q[1..]);
      }
    }
  }

  lemma SequenceByte(d: Decode, b: byte, last: bool)
    requires d.mode.Csi? || d.mode.CsiDiscard? || d.mode.Ss3?
    ensures var (e, keys) := DecodeByte(d, b, last);
      if keys == [] then e.mode.Csi? || e.mode.CsiDiscard? else keys[0] > MAX_RUNE
  {
  }

  /** Two ESC bytes after the cut take both decoders to the same place again. */
  lemma CatchesDouble(g: Decode, q: seq<byte>)
    requires Bounded(g) && g.mode.Ground? && |q| >= 2 && q[0] == q[1] == ESC
    ensures Catches(g, q) <==> |q| == 2 || Catches(Settled(g), q[2..])
  {
    hide DecodeByte, DecodeBytes, GroundByte;
    var x, s := Swallowed(g), Settled(g);
    GroundEsc(g);
    EscByte(g, false);
    FirstByte(g, q);
    AltKey(g, q[1..]);
    AltKey(g, q);
    EscByte(s, |q| == 2);
    FirstByte(s, q[1..]);
    assert q[1..][1..] == q[2..];
    var apart, joined := DecodeBytes(s, q[2..], true), DecodeBytes(s.(mode := Esc), q[2..], true);
    assert DecodeBytes(g, q, true).1 == [KEY_ESC] + (x + apart.1);
    if |q| == 2 {
      DecodeNothing(s);
      assert x + ([KEY_ESC] + []) == [KEY_ESC] + (x + []);
    } else {
      assert DecodeBytes(s, q[1..], true).1 == joined.1;
      SamePrefix([KEY_ESC], x + joined.1, [KEY_ESC] + (x + apart.1));
      SamePrefix(x, joined.1, [KEY_ESC] + apart.1);
      assert [KEY_ESC] + (x + apart.1) == x + ([KEY_ESC] + apart.1);
    }
  }

  lemma EscByte(g: Decode, last: bool)
    requires g.mode.Ground?
    ensures DecodeByte(g, ESC, last) == if last then (g, [KEY_ESC]) else (g.(mode := Esc), [])
  {
    hide GroundByte;
  }

  lemma DecodeNothing(d: Decode)
    ensures DecodeBytes(d, [], true) == (d, [])
  {
  }

  /** One ESC after the cut: what is left to compare. */
  lemma CatchesSingle(g: Decode, q: seq<byte>)
    requires Bounded(g) && g.mode.Ground? && |q| >= 2 && q[0] == ESC
    ensures var apart, joined := DecodeBytes(g.(mode := Esc), q[1..], true), DecodeBytes(Settled(g), q[1..], true);
      Catches(g, q) <==> joined.0 == apart.0 && Swallowed(g) + joined.1 == apart.1
  {
    hide DecodeByte, GroundByte, DecodeBytes;
    GroundEsc(g);
    EscByte(g, false);
    FirstByte(g, q);
    AltKey(g, q);
    var apart, joined := DecodeBytes(g.(mode := Esc), q[1..], true), DecodeBytes(Settled(g), q[1..], true);
    assert [] + apart.1 == apart.1;
    SamePrefix([KEY_ESC], Swallowed(g) + joined.1, apart.1);
  }

  lemma LoneEsc(g: Decode, q: seq<byte>)
    requires Bounded(g) && g.mode.Ground? && q == [ESC]
    ensures Catches(g, q) <==> g.utf == [] && !g.lastCR
  {
    hide DecodeByte, DecodeBytes, GroundByte;
    GroundEsc(g);
    EscByte(g, true);
    AltKey(g, q);
    DecodeOne(g, ESC, true);
    assert q[1..] == [];
    DecodeNothing(Settled(g));
    assert Swallowed(g) + [] == Swallowed(g);
  }

  /** ... when an escape sequence begins there: it swallows what the other decoder reports. */
  lemma SingleThenSequence(g: Decode, q: seq<byte>)
    requires Bounded(g) && g.mode.Ground? && |q| >= 2 && q[0] == ESC && Introducer(q[1])
    ensures !Catches(g, q)
  {
    hide DecodeBytes, GroundByte, Catches;
    CatchesSingle(g, q);
    SequenceKeys(g.(mode := Esc), q[1..]);
    GroundKey(Settled(g), q[1..]);
    PlainKey(Settled(g), q[1]);
    var joined := DecodeBytes(Settled(g), q[1..], true).1;
    assert joined[0] == q[1];
    assert (Swallowed(g) + joined)[0] <= MAX_RUNE;
  }

  /** ... after a complete rune: only a CR before the ESC and an LF after it notice. */
  lemma SingleThenPlain(g: Decode, q: seq<byte>)
    requires Bounded(g) && g.mode.Ground? && |q| >= 2 && q[0] == ESC && q[1] != ESC && !Introducer(q[1]) && g.utf == []
    ensures Catches(g, q) <==> !(g.lastCR && q[1] == LF)
  {
    hide DecodeBytes, GroundByte, Catches;
    CatchesSingle(g, q);
    AltKey(g, q[1..]);
    GroundKey(Settled(g), q[1..]);
    LineFeed(g, q[1]);
    var h, k := GroundByte(g, q[1]), GroundByte(Settled(g), q[1]);
    var rest := DecodeBytes(h.0, q[1..][1..], true);
    SamePrefix([KEY_ESC], k.1 + rest.1, h.1 + rest.1);
  }

  /** A CR read before only matters for an LF, which it makes part of its line end. */
  lemma LineFeed(g: Decode, b: byte)
    requires g.utf == []
    ensures GroundByte(g, b).0 == GroundByte(Settled(g), b).0
    ensures if g.lastCR && b == LF then GroundByte(g, b).1 == [] && GroundByte(Settled(g), b).1 == [KEY_ENTER]
            else GroundByte(g, b).1 == GroundByte(Settled(g), b).1
  {
    hide FullRune, DecodeRune;
  }

  /** ... inside a rune: the ESC before the cut is reported, the one after it lost. */
  lemma SingleInRune(g: Decode, q: seq<byte>)
    requires Bounded(g) && g.mode.Ground? && |q| >= 2 && q[0] == ESC && q[1] != ESC && !Introducer(q[1])
    requires g.utf != [] && (q[1] >= 0x80 ==> ESC !in q[1..])
    ensures !Catches(g, q)
  {
    hide DecodeBytes, GroundByte, Catches;
    CatchesSingle(g, q);
    AltKey(g, q[1..]);
    if q[1] < 0x80 {
      GroundKey(Settled(g), q[1..]);
      PlainKey(Settled(g), q[1]);
    } else {
      NoEscKeys(Settled(g), q[1..]);
    }
    var apart, joined := DecodeBytes(g.(mode := Esc), q[1..], true).1, DecodeBytes(Settled(g), q[1..], true).1;
    assert Swallowed(g) + joined == joined;
    assert apart[0] == KEY_ESC;
  }

  lemma PlainKey(g: Decode, b: byte)
    requires g.utf == [] && !g.lastCR && b < 0x80 && b != ESC
    ensures |GroundByte(g, b).1| == 1 && GroundByte(g, b).1[0] != KEY_ESC
    ensures Introducer(b) ==> GroundByte(g, b).1 == [b as Key]
  {
    hide FullRune, DecodeRune;
  }

  /** Only an ESC byte makes an Esc key. */
  lemma {:induction false} NoEscKeys(g: Decode, q: seq<byte>)
    requires g.mode.Ground? && (g.utf != [] ==> g.utf[0] >= 0x80) && ESC !in q
    ensures KEY_ESC !in DecodeBytes(g, q, true).1
    decreases |q|
  {
    hide DecodeBytes, GroundByte;
    if q == [] {
      DecodeNothing(g);
    } else {
      GroundKey(g, q);
      NoEscKey(g, q[0]);
      NoEscKeys(GroundByte(g, q[0]).0, q[1..]);
    }
  }

  lemma NoEscKey(g: Decode, b: byte)
    requires g.mode.Ground? && (g.utf != [] ==> g.utf[0] >= 0x80) && b != ESC
    ensures var (e, keys) := GroundByte(g, b);
      e.mode.Ground? && (e.utf != [] ==> e.utf[0] >= 0x80) && KEY_ESC !in keys
  {
    if g.utf != [] || b >= 0x80 {
      WideRune(g.utf + [b]);
    }
    hide FullRune, DecodeRune;
  }

  lemma WideRune(p: seq<byte>)
    requires p != [] && p[0] >= 0x80
    ensures DecodeRune(p) >= 0x80
  {
  }

  lemma {:induction false} WhenItCatches(g: Decode, q: seq<byte>)
    requires Bounded(g) && g.mode.Ground? && q != [] && !Torn(g, q)
    ensures Catches(g, q) <==> Unnoticed(g, q)
    decreases |q|
  {
    hide Catches, Bounded;
    if q[0] != ESC {
      CatchesPlain(g, q);
    } else if |q| == 1 {
      LoneEsc(g, q);
      assert Escapes(q) == 1;
    } else if q[1] == ESC {
      CatchesDouble(g, q);
      assert Escapes(q) == 2 + Escapes(q[2..]) by {
        assert q[1..][1..] == q[2..];
      }
      if |q| > 2 {
        SettledBounded(g);
        WhenItCatches(Settled(g), q[2..]);
      }
    } else {
      assert Escapes(q) == 1;
      if Introducer(q[1]) {
        SingleThenSequence(g, q);
      } else if g.utf == [] {
        SingleThenPlain(g, q);
      } else {
        SingleInRune(g, q);
      }
    }
  }

  lemma SettledBounded(g: Decode)
    requires Bounded(g)
    ensures Bounded(Settled(g))
  {
  }

  /** The first byte after all ESC bytes does not decide alone: neither continuation has an introducer,
      but an ESC on each side of the cut parts CR from LF, or loses an ESC inside a rune. */
  lemma NoticedWithoutIntroducer()
    ensures !SplitAgrees(START, [CR, ESC], [ESC, LF])
    ensures !SplitAgrees(START, [0xC3, ESC], [ESC, 97])
  {
    forall b: byte, c: byte | (b == CR && c == LF) || (b == 0xC3 && c == 97)
      ensures !SplitAgrees(START, [b, ESC], [ESC, c])
    {
      var p, q := [b, ESC], [ESC, c];
      assert p[..1] == [b];
      DecodeOne(START, b, false);
      SplitAfterEsc(START, p, q);
      assert Escapes(q) == 1;
    }
  }

  /** A torn rune can go either way. */
  lemma TornEitherWay()
    ensures var g := Decode(Ground, [], [0xE2], false);
      && Torn(g, [ESC, 0x80, ESC, ESC]) && Catches(g, [ESC, 0x80, ESC, ESC])
      && Torn(g, [ESC, 0x80, ESC]) && !Catches(g, [ESC, 0x80, ESC])
  {
    var g := Decode(Ground, [], [0xE2], false);
    var s, u := Settled(g), g.(utf := [0xE2, 0x80]);
    forall tail: seq<byte> | tail == [ESC] || tail == [ESC, ESC]
      ensures Torn(g, [ESC, 0x80] + tail)
      ensures Catches(g, [ESC, 0x80] + tail) <==>
        DecodeBytes(s, tail, true).0 == DecodeBytes(u, tail, true).0 &&
        DecodeBytes(s, tail, true).1 == [KEY_ESC] + DecodeBytes(u, tail, true).1
    {
      TornStep(g, tail);
    }
    assert [ESC, 0x80] + [ESC] == [ESC, 0x80, ESC] && [ESC, 0x80] + [ESC, ESC] == [ESC, 0x80, ESC, ESC];
    hide GroundByte, DecodeByte, DecodeBytes;
    EscByte(s, true);
    EscByte(u, true);
    DecodeOne(s, ESC, true);
    DecodeOne(u, ESC, true);
    TwoEscs(s);
    TwoEscs(u);
  }

  lemma TornStep(g: Decode, tail: seq<byte>)
    requires g == Decode(Ground, [], [0xE2], false) && tail != [] && tail[0] == ESC
    ensures var s, u := Settled(g), g.(utf := [0xE2, 0x80]);
      && Torn(g, [ESC, 0x80] + tail)
      && (Catches(g, [ESC, 0x80] + tail) <==>
        DecodeBytes(s, tail, true).0 == DecodeBytes(u, tail, true).0 &&
        DecodeBytes(s, tail, true).1 == [KEY_ESC] + DecodeBytes(u, tail, true).1)
  {
    hide GroundByte, DecodeByte, DecodeBytes, Catches;
    var q := [ESC, 0x80] + tail;
    var s, u := Settled(g), g.(utf := [0xE2, 0x80]);
    assert q[1..][0] == 0x80 && q[1..][1..] == tail && q[2] == ESC && ESC in q[1..];
    TornByte(g);
    CatchesSingle(g, q);
    AltKey(g, q[1..]);
    GroundKey(s, q[1..]);
    var more, keys := DecodeBytes(s, tail, true).1, DecodeBytes(u, tail, true).1;
    assert [] + ([] + more) == more && [KEY_ESC] + ([] + keys) == [KEY_ESC] + keys;
  }

  lemma TornByte(g: Decode)
    requires g == Decode(Ground, [], [0xE2], false)
    ensures Bounded(g) && GroundByte(g, 0x80) == (g.(utf := [0xE2, 0x80]), []) && GroundByte(Settled(g), 0x80) == (Settled(g), [])
  {
    assert [0xE2] + [0x80] == [0xE2, 0x80] && [] + [0x80] == [0x80];
  }

  lemma TwoEscs(g: Decode)
    requires g.mode.Ground? && Bounded(g)
    ensures DecodeBytes(g, [ESC, ESC], true) == (Settled(g), [KEY_ESC] + Swallowed(g))
  {
    hide GroundByte, DecodeByte, DecodeBytes;
    EscByte(g, false);
    FirstByte(g, [ESC, ESC]);
    assert [ESC, ESC][1..] == [ESC] && [ESC][1..] == [];
    AltKey(g, [ESC]);
    GroundEsc(g);
    DecodeNothing(Settled(g));
    assert [] + ([KEY_ESC] + (Swallowed(g) + [])) == [KEY_ESC] + Swallowed(g);
  }

  // ---- escape sequences ------------------------------------------------------------------------------

  /** A decoder inside a control sequence that has read these parameter bytes. */
  function Inside(d: Decode, params: seq<byte>): Decode
  {
    if |params| <= MAX_CSI then d.(mode := Csi, params := params)
    else d.(mode := CsiDiscard, params := params[..MAX_CSI])
  }

  lemma {:induction false} ReadsParams(d: Decode, params: seq<byte>)
    requires forall i :: 0 <= i < |params| ==> !FinalByte(params[i])
    ensures DecodeBytes(Inside(d, []), params, false) == (Inside(d, params), [])
  {
    if params != [] {
      var k := |params| - 1;
      hide Inside, DecodeByte;
      ReadsParams(d, params[..k]);
      ReadsOne(d, params[..k], params[k]);
      assert params[..k] + [params[k]] == params;
      var none: seq<Key> := [];
      assert none + none == none;
    }
  }

  lemma ReadsOne(d: Decode, params: seq<byte>, b: byte)
    requires !FinalByte(b)
    ensures DecodeByte(Inside(d, params), b, false) == (Inside(d, params + [b]), [])
  {
    if |params| >= MAX_CSI {
      assert (params + [b])[..MAX_CSI] == params[..MAX_CSI];
      assert |params| == MAX_CSI ==> params[..MAX_CSI] == params;
    }
  }

  /** Every control sequence, of any length, is exactly one key and leaves nothing behind; one that is
      too long is discarded whole and reported as unknown. */
  lemma OneKeyPerSequence(d: Decode, params: seq<byte>, final: byte, end: bool)
    requires d.mode.Ground? && 0x40 <= final <= 0x7e
    requires forall i :: 0 <= i < |params| ==> params[i] < 0x40 || params[i] > 0x7e
    ensures var (e, keys) := DecodeBytes(d, [ESC] + [91] + params + [final], end);
      && e == Inside(d, params).(mode := Ground)
      && keys == [if |params| <= MAX_CSI then CsiKey(params, final) else KEY_UNKNOWN]
  {
    hide DecodeBytes;
    DecodeOne(d, ESC, false);
    DecodeOne(d.(mode := Esc), 91, false);
    DecodeAppend(d, [ESC], [91], false);
    var open := [ESC] + [91];
    var none: seq<Key> := [];
    assert none + none == none;
    assert DecodeBytes(d, open, false) == (Inside(d, []), []);
    ReadsParams(d, params);
    if params != [] {
      DecodeAppend(d, open, params, false);
    } else {
      assert open + params == open;
    }
    DecodeOne(Inside(d, params), final, end);
    DecodeAppend(d, open + params, [final], end);
  }

  /** The cursor keys mean the same in application mode. */
  lemma ApplicationKeys(d: Decode, b: byte, end: bool)
    requires d.mode.Ground? && b in {65, 66, 67, 68, 70, 72}
    ensures DecodeBytes(d, [ESC] + [79] + [b], end).1 == DecodeBytes(d, [ESC] + [91] + [] + [b], end).1
    ensures DecodeBytes(d, [ESC] + [79] + [b], end).0 == d
  {
    OneKeyPerSequence(d, [], b, end);
    hide DecodeBytes;
    DecodeOne(d, ESC, false);
    DecodeOne(d.(mode := Esc), 79, false);
    DecodeAppend(d, [ESC], [79], false);
    DecodeOne(d.(mode := Ss3), b, end);
    DecodeAppend(d, [ESC] + [79], [b], end);
  }

  // ---- typing ---------------------------------------------------------------------------------------

  /** A Unicode scalar value that a user can type into a line. */
  predicate Typable(r: int)
  {
    Printable(r) && !(0xD800 <= r <= 0xDFFF) && r != RUNE_ERROR
  }

  predicate AllTypable(s: seq<int>) { forall i :: 0 <= i < |s| ==> Typable(s[i]) }

  /** Section 3 of RFC 3629. */
  function Utf8(r: int): seq<byte>
    requires 0 <= r <= MAX_RUNE
  {
    if r < 0x80 then [r]
    else if r < 0x800 then [0xC0 + r / 0x40, 0x80 + r % 0x40]
    else if r < 0x10000 then [0xE0 + r / 0x1000, 0x80 + r / 0x40 % 0x40, 0x80 + r % 0x40]
    else [0xF0 + r / 0x40000, 0x80 + r / 0x1000 % 0x40, 0x80 + r / 0x40 % 0x40, 0x80 + r % 0x40]
  }

  lemma ThreeBytes(r: int)
    requires 0x800 <= r < 0x10000
    ensures r / 0x1000 * 0x1000 + r / 0x40 % 0x40 * 0x40 + r % 0x40 == r
    ensures 0 <= r / 0x1000 < 16
    ensures r / 0x1000 == 0 ==> r / 0x40 % 0x40 >= 0x20
    ensures r / 0x1000 == 13 && r < 0xD800 ==> r / 0x40 % 0x40 < 0x20
  {
  }

  lemma FourBytes(r: int)
    requires 0x10000 <= r <= MAX_RUNE
    ensures r / 0x40000 * 0x40000 + r / 0x1000 % 0x40 * 0x1000 + r / 0x40 % 0x40 * 0x40 + r % 0x40 == r
    ensures 0 <= r / 0x40000 <= 4
    ensures r / 0x40000 == 0 ==> r / 0x1000 % 0x40 >= 0x10
    ensures r / 0x40000 == 4 ==> r / 0x1000 % 0x40 < 0x10
  {
  }

  /** The encoding is what DecodeRune inverts, and no proper prefix of it is a full rune. */
  lemma Utf8Inverted(r: int)
    requires Typable(r)
    ensures var p := Utf8(r);
      && 0 < |p| <= UTF_MAX && FullRune(p) && DecodeRune(p) == r
      && (forall k :: 0 < k < |p| ==> !FullRune(p[..k]))
      && (if |p| > 1 then forall k :: 0 <= k < |p| ==> p[k] >= 0x80 else r < 0x80 && p == [r])
  {
    var p := Utf8(r);
    if 0x800 <= r < 0x10000 {
      ThreeBytes(r);
    } else if r >= 0x10000 {
      FourBytes(r);
    }
    forall k | 0 < k < |p| ensures !FullRune(p[..k]) {
      assert p[..k][0] == p[0];
    }
  }

  lemma Recombine(a: nat, b: nat, c: nat)
    requires b < 0x40 && c < 0x40
    ensures var r := a * 0x1000 + b * 0x40 + c; r / 0x1000 == a && r / 0x40 % 0x40 == b && r % 0x40 == c && r / 0x40 == a * 0x40 + b
  {
  }

  lemma RecombineFour(a: nat, b: nat, c: nat, d: nat)
    requires b < 0x40 && c < 0x40 && d < 0x40
    ensures var r := a * 0x40000 + b * 0x1000 + c * 0x40 + d;
      r / 0x40000 == a && r / 0x1000 % 0x40 == b && r / 0x40 % 0x40 == c && r % 0x40 == d
  {
    Recombine(a * 0x40 + b, c, d);
  }

  /** Nothing but an encoding is decoded: whatever DecodeRune accepts is a Unicode scalar value, and the
      bytes begin with its encoding. Overlong forms, surrogates and values above U+10FFFF are errors. */
  lemma OnlyEncodings(p: seq<byte>)
    requires p != [] && DecodeRune(p) != RUNE_ERROR
    ensures var r := DecodeRune(p); 0 <= r <= MAX_RUNE && !(0xD800 <= r <= 0xDFFF) && Utf8(r) <= p
  {
    var n := SeqLen(p[0]);
    if n == 3 {
      Recombine(p[0] - 0xE0, p[1] - 0x80, p[2] - 0x80);
    } else if n == 4 {
      RecombineFour(p[0] - 0xF0, p[1] - 0x80, p[2] - 0x80, p[3] - 0x80);
    }
  }

  /** Between two runes the decoder is idle. */
  predicate Resting(d: Decode) { d.mode.Ground? && d.utf == [] }

  /** Part of a multi-byte rune is kept in utf and reports nothing. */
  lemma {:induction false} PendingRune(d: Decode, p: seq<byte>)
    requires Resting(d) && 0 < |p| < UTF_MAX
    requires forall k :: 0 <= k < |p| ==> p[k] >= 0x80
    requires forall k :: 0 < k <= |p| ==> !FullRune(p[..k])
    ensures DecodeBytes(d, p, false) == (d.(utf := p, lastCR := false), [])
  {
    var k := |p| - 1;
    assert p[..|p|] == p && p == p[..k] + [p[k]];
    if k == 0 {
      DecodeOne(d, p[k], false);
      assert [] + [p[0]] == p;
    } else {
      forall i | 0 < i <= k ensures !FullRune(p[..k][..i]) {
        assert p[..k][..i] == p[..i];
      }
      PendingRune(d, p[..k]);
    }
  }

  /** The byte that completes a rune reports it. */
  lemma LastOfRune(d: Decode, b: byte, r: int)
    requires d.mode.Ground? && b >= 0x80 && FullRune(d.utf + [b]) && DecodeRune(d.utf + [b]) == r != RUNE_ERROR
    ensures DecodeByte(d, b, false) == (d.(utf := [], lastCR := false), [r])
  {
  }

  lemma OneRune(d: Decode, r: int)
    requires Resting(d) && Typable(r)
    ensures DecodeBytes(d, Utf8(r), false) == (d.(lastCR := false), [r])
  {
    hide Utf8, FullRune, DecodeRune, DecodeByte, DecodeBytes;
    Utf8Inverted(r);
    var p := Utf8(r);
    var k := |p| - 1;
    if k == 0 {
      AsciiKey(d, r);
    } else {
      var init := p[..k];
      forall i | 0 < i <= k ensures !FullRune(init[..i]) {
        assert init[..i] == p[..i];
      }
      PendingRune(d, init);
      assert init + [p[k]] == p;
      var e := d.(utf := init, lastCR := false);
      LastOfRune(e, p[k], r);
      DecodeOne(e, p[k], false);
      DecodeAppend(d, init, [p[k]], false);
      assert [] + [r] == [r];
    }
  }

  lemma AsciiKey(d: Decode, r: int)
    requires Resting(d) && Typable(r) && r < 0x80
    ensures DecodeBytes(d, [r], false) == (d.(lastCR := false), [r])
  {
    hide DecodeBytes, FullRune, DecodeRune;
    DecodeOne(d, r, false);
  }

  function Utf8All(s: seq<int>): seq<byte>
    requires AllTypable(s)
  {
    if s == [] then [] else Utf8All(s[..|s| - 1]) + Utf8(s[|s| - 1])
  }

  lemma DecodeNone(d: Decode)
    ensures DecodeBytes(d, [], false) == (d, [])
  {
  }

  lemma RuneAfter(d: Decode, a: seq<byte>, r: int)
    requires Typable(r) && Resting(DecodeBytes(d, a, false).0)
    ensures var (e, keys) := DecodeBytes(d, a, false);
      DecodeBytes(d, a + Utf8(r), false) == (e.(lastCR := false), keys + [r])
  {
    hide DecodeBytes, DecodeByte;
    OneRune(DecodeBytes(d, a, false).0, r);
    DecodeAppend(d, a, Utf8(r), false);
  }

  lemma {:induction false} TypedRunes(d: Decode, s: seq<int>)
    requires Resting(d) && AllTypable(s)
    ensures var (e, keys) := DecodeBytes(d, Utf8All(s), false); keys == s && Resting(e)
  {
    DecodeNone(d);
    hide DecodeBytes, Utf8;
    if s != [] {
      var k := |s| - 1;
      TypedRunes(d, s[..k]);
      RuneAfter(d, Utf8All(s[..k]), s[k]);
      assert Utf8All(s) == Utf8All(s[..k]) + Utf8(s[k]);
      assert s[..k] + [s[k]] == s;
    }
  }

  /** A sequence of Feed calls. */
  function FeedMessages(d: Decode, msgs: seq<seq<byte>>): (Decode, seq<Key>)
    decreases |msgs|
  {
    if msgs == [] then (d, [])
    else
      var (e, keys) := FeedMsg(d, msgs[0]);
      var (f, more) := FeedMessages(e, msgs[1..]);
      (f, keys + more)
  }

  /** Without ESC bytes any cutting into messages decodes the same. */
  lemma {:induction false} CutAnywhere(d: Decode, msgs: seq<seq<byte>>)
    requires ESC !in Concat(msgs)
    ensures FeedMessages(d, msgs) == FeedMsg(d, Concat(msgs))
    decreases |msgs|
  {
    if msgs != [] {
      var p, rest := msgs[0], Concat(msgs[1..]);
      assert forall i :: 0 <= i < |p| ==> p[i] == Concat(msgs)[i];
      assert forall b :: b in rest ==> b in Concat(msgs);
      CutAnywhere(FeedMsg(d, p).0, msgs[1..]);
      SplitWithoutEsc(d, p, rest);
    }
  }

  lemma {:induction false} NoEscTyped(s: seq<int>)
    requires AllTypable(s)
    ensures ESC !in Utf8All(s)
  {
    if s != [] {
      var k := |s| - 1;
      NoEscTyped(s[..k]);
      var p := Utf8(s[k]);
      Utf8Inverted(s[k]);
      hide Utf8;
      assert |p| == 1 ==> p[0] == s[k];
      assert ESC !in p;
    }
  }

  /** Typed text and Enter, cut into messages in any way, arrive as exactly those keys. */
  lemma TypedKeys(s: seq<int>, msgs: seq<seq<byte>>)
    requires AllTypable(s)
    requires Concat(msgs) == Utf8All(s) + [CR]
    ensures FeedMessages(START, msgs).1 == s + [KEY_ENTER]
  {
    NoEscTyped(s);
    CutAnywhere(START, msgs);
    TypedRunes(START, s);
    var e := DecodeBytes(START, Utf8All(s), false).0;
    DecodeAppend(START, Utf8All(s), [CR], true);
    DecodeOne(e, CR, true);
  }

  // ---- keys and the bytes that send them ------------------------------------------------------------------

  /** What the keys of a terminal send, as literal bytes. */
  lemma NamedKeys(d: Decode, end: bool)
    requires d.mode.Ground?
    ensures DecodeBytes(d, [0x1b, 0x5b, 0x41], end).1 == [KEY_UP] && DecodeBytes(d, [0x1b, 0x5b, 0x42], end).1 == [KEY_DOWN]
    ensures DecodeBytes(d, [0x1b, 0x5b, 0x43], end).1 == [KEY_RIGHT] && DecodeBytes(d, [0x1b, 0x5b, 0x44], end).1 == [KEY_LEFT]
    ensures DecodeBytes(d, [0x1b, 0x5b, 0x48], end).1 == [KEY_HOME] && DecodeBytes(d, [0x1b, 0x5b, 0x46], end).1 == [KEY_END]
    ensures DecodeBytes(d, [0x1b, 0x5b, 0x31, 0x7e], end).1 == [KEY_HOME] && DecodeBytes(d, [0x1b, 0x5b, 0x37, 0x7e], end).1 == [KEY_HOME]
    ensures DecodeBytes(d, [0x1b, 0x5b, 0x34, 0x7e], end).1 == [KEY_END] && DecodeBytes(d, [0x1b, 0x5b, 0x38, 0x7e], end).1 == [KEY_END]
    ensures DecodeBytes(d, [0x1b, 0x5b, 0x33, 0x7e], end).1 == [KEY_DELETE]
    ensures DecodeBytes(d, [0x1b, 0x5b, 0x35, 0x7e], end).1 == [KEY_PAGE_UP] && DecodeBytes(d, [0x1b, 0x5b, 0x36, 0x7e], end).1 == [KEY_PAGE_DOWN]
  {
    hide DecodeBytes, DecodeByte;
    forall final: byte | final in {0x41, 0x42, 0x43, 0x44, 0x46, 0x48}
      ensures DecodeBytes(d, [0x1b, 0x5b, final], end).1 == [CsiKey([], final)]
    {
      OneKeyPerSequence(d, [], final, end);
      assert [ESC] + [91] + [] + [final] == [0x1b, 0x5b, final];
    }
    forall digit: byte | 0x31 <= digit <= 0x38
      ensures DecodeBytes(d, [0x1b, 0x5b, digit, 0x7e], end).1 == [CsiKey([digit], 0x7e)]
    {
      OneKeyPerSequence(d, [digit], 0x7e, end);
      assert [ESC] + [91] + [digit] + [0x7e] == [0x1b, 0x5b, digit, 0x7e];
    }
  }

  /** Anything else in a control sequence is an unknown key: the final byte decides, and parameters only
      matter before a tilde. */
  lemma UnknownSequences(params: seq<byte>, final: byte)
    ensures CsiKey(params, final) == KEY_UNKNOWN <==>
      && final !in {0x41, 0x42, 0x43, 0x44, 0x46, 0x48}
      && !(final == 0x7e && |params| == 1 && params[0] in {0x31, 0x33, 0x34, 0x35, 0x36, 0x37, 0x38})
    ensures final in {0x41, 0x42, 0x43, 0x44, 0x46, 0x48} ==> CsiKey(params, final) == CsiKey([], final)
    ensures Ss3Key(final) == if final in {0x41, 0x42, 0x43, 0x44, 0x46, 0x48} then CsiKey([], final) else KEY_UNKNOWN
  {
  }

  /** Control bytes between runes: Backspace has two codes, CR and LF are Enter, every other one is its own
      key; an LF right after a CR is part of it. */
  lemma ControlBytes(d: Decode, b: byte, end: bool)
    requires Resting(d) && b != ESC && (b < 0x20 || b == 0x7f)
    ensures DecodeBytes(d, [b], end).1 ==
      if b == 0x0d then [KEY_ENTER] else if b == 0x0a then (if d.lastCR then [] else [KEY_ENTER])
      else if b == 0x08 || b == 0x7f then [KEY_BACKSPACE] else [b as Key]
    ensures DecodeBytes(d, [b], end).0 == d.(lastCR := b == 0x0d)
  {
    hide DecodeBytes;
    DecodeOne(d, b, end);
  }

  /** What a terminal sends for a key, in any of the forms above. */
  function KeyBytes(k: Key): seq<byte>
    requires Sendable(k)
  {
    if Typable(k) then Utf8(k)
    else if k == KEY_UP then [0x1b, 0x5b, 0x41]
    else if k == KEY_DOWN then [0x1b, 0x5b, 0x42]
    else if k == KEY_RIGHT then [0x1b, 0x5b, 0x43]
    else if k == KEY_LEFT then [0x1b, 0x5b, 0x44]
    else if k == KEY_HOME then [0x1b, 0x5b, 0x48]
    else if k == KEY_END then [0x1b, 0x5b, 0x46]
    else if k == KEY_DELETE then [0x1b, 0x5b, 0x33, 0x7e]
    else if k == KEY_PAGE_UP then [0x1b, 0x5b, 0x35, 0x7e]
    else if k == KEY_PAGE_DOWN then [0x1b, 0x5b, 0x36, 0x7e]
    else [k]
  }

  /** Printable runes, special keys, and control keys with a byte of their own. */
  predicate Sendable(k: Key)
  {
    Typable(k) || KEY_UP <= k <= KEY_PAGE_DOWN || k == KEY_BACKSPACE || (0 <= k < 0x20 && k != ESC && k != 0x08 && k != 0x0a)
  }

  lemma SequenceRests(d: Decode, params: seq<byte>, final: byte)
    requires Resting(d) && FinalByte(final) && |params| <= MAX_CSI && forall i :: 0 <= i < |params| ==> !FinalByte(params[i])
    ensures Resting(DecodeBytes(d, [ESC] + [91] + params + [final], false).0)
  {
    hide DecodeBytes;
    OneKeyPerSequence(d, params, final, false);
  }

  lemma OneKey(d: Decode, k: Key)
    requires Resting(d) && Sendable(k)
    ensures DecodeBytes(d, KeyBytes(k), false).1 == [k] && Resting(DecodeBytes(d, KeyBytes(k), false).0)
  {
    hide DecodeBytes, DecodeByte, Utf8;
    if Typable(k) {
      OneRune(d, k);
    } else if KEY_UP <= k <= KEY_PAGE_DOWN {
      NamedKeys(d, false);
      SpecialRests(d, k);
    } else {
      ControlBytes(d, k, false);
    }
  }

  lemma SpecialRests(d: Decode, k: Key)
    requires Resting(d) && KEY_UP <= k <= KEY_PAGE_DOWN
    ensures Resting(DecodeBytes(d, KeyBytes(k), false).0)
  {
    hide DecodeBytes;
    var p := KeyBytes(k);
    var params := p[2..|p| - 1];
    SequenceRests(d, params, p[|p| - 1]);
    assert [ESC] + [91] + params + [p[|p| - 1]] == p;
  }

  function KeysBytes(ks: seq<Key>): seq<byte>
    requires forall i :: 0 <= i < |ks| ==> Sendable(ks[i])
  {
    if ks == [] then [] else KeysBytes(ks[..|ks| - 1]) + KeyBytes(ks[|ks| - 1])
  }

  /** Key round trip: whatever keys are pressed, in whatever order, the bytes a terminal sends for them
      decode to exactly those keys. */
  lemma {:induction false} KeyRoundTrip(ks: seq<Key>)
    requires forall i :: 0 <= i < |ks| ==> Sendable(ks[i])
    ensures DecodeBytes(START, KeysBytes(ks), false).1 == ks && Resting(DecodeBytes(START, KeysBytes(ks), false).0)
  {
    hide DecodeBytes, KeyBytes;
    if ks == [] {
      DecodeNone(START);
    } else {
      var init, k := ks[..|ks| - 1], ks[|ks| - 1];
      KeyRoundTrip(init);
      var d := DecodeBytes(START, KeysBytes(init), false).0;
      OneKey(d, k);
      KeyBytesSome(k);
      DecodeAppend(START, KeysBytes(init), KeyBytes(k), false);
      assert init + [k] == ks;
    }
  }

  lemma KeyBytesSome(k: Key)
    requires Sendable(k)
    ensures KeyBytes(k) != []
  {
  }
}
