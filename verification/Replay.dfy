/** internal/stream with the forwarder of cmd/scomp: the attach-replay protocol of one session,
    as a machine whose steps are the critical sections and channel operations of the source. */
module Replay {
  import opened Common
  import opened Snapshot

  type Chan = nat
  type Conn = nat

  const CHAN_CAP: nat := 256 // room in a forwarder's outputCh

  /** One item on a subscriber's channel. A snapshot remembers the stream position and the last
      reset it was taken at, so that claims can name them; the program does not carry these two. */
  datatype Event =
    | Live(data: seq<byte>)
    | Snap(client: Client, data: seq<byte>, at: nat, base: nat)

  /** Where the holder of Stream.mu is inside Emit or EmitReset. */
  datatype Lock =
    | Free
    | Entered(data: seq<byte>, reset: bool)                          // locked
    | Recorded(data: seq<byte>)                                      // ring written
    | Fanout(data: seq<byte>, pending: set<Chan>, full: Option<Chan>) // subscriber map copied

  /** A subscriber channel with the forwarder that drains it. */
  datatype Sub = Sub(
    conn: Conn,
    subscribed: bool,   // false once the forwarder stopped and unsubscribed
    queue: seq<Event>,  // on the channel
    taken: seq<Event>,  // already received by the forwarder
    outbox: seq<Msg>,   // messages of the last received event still waiting for room
    wire: seq<Msg>,     // messages queued on the connection
    start: int)         // stream position from which live output is delivered

  datatype State = State(
    cap: nat,
    ring: seq<byte>,
    history: seq<byte>, // every byte ever emitted
    base: nat,          // length of the history at the last reset
    lock: Lock,
    subs: map<Chan, Sub>,
    closed: set<Conn>)  // connections whose connDone is closed

  datatype Action =
    | Acquire(data: seq<byte>, reset: bool)
    | Record
    | CopySubs
    | Deliver(ch: Chan)
    | FindFull(ch: Chan)
    | CallOverflow
    | Release
    | Subscribe(ch: Chan, conn: Conn)
    | Unsubscribe(ch: Chan)
    | Request(ch: Chan, client: Client)
    | Take(ch: Chan)
    | Send(ch: Chan)
    | Discard(ch: Chan)
    | Close(conn: Conn)

  function Init(cap: nat): State
  {
    State(cap, [], [], 0, Free, map[], {})
  }

  /** The messages one event becomes. */
  function Messages(e: Event): seq<Msg>
  {
    match e
    case Live(d) => [Output(d)]
    case Snap(c, d, _, _) => Batch(c, d)
  }

  function Wire(es: seq<Event>): seq<Msg>
  {
    if es == [] then [] else Wire(es[..|es| - 1]) + Messages(es[|es| - 1])
  }

  function AcquireStep(s: State, data: seq<byte>, reset: bool): Option<State>
  {
    if s.lock.Free? then Some(s.(lock := Entered(data, reset))) else None
  }

  function RecordStep(s: State): Option<State>
  {
    if !s.lock.Entered? then None
    else
      var ring := if s.lock.reset then [] else s.ring;
      Some(s.(ring := Suffix(ring + s.lock.data, s.cap),
              history := s.history + s.lock.data,
              base := if s.lock.reset then |s.history| else s.base,
              lock := Recorded(s.lock.data)))
  }

  function CopySubsStep(s: State): Option<State>
  {
    if s.lock.Recorded? then Some(s.(lock := Fanout(s.lock.data, Subscribed(s.subs), None))) else None
  }

  predicate Delivering(s: State, ch: Chan)
  {
    s.lock.Fanout? && s.lock.full.None? && ch in s.lock.pending && ch in s.subs
  }

  function DeliverStep(s: State, ch: Chan): Option<State>
  {
    if !(Delivering(s, ch) && |s.subs[ch].queue| < CHAN_CAP) then None
    else Some(s.(lock := s.lock.(pending := s.lock.pending - {ch}),
                 subs := s.subs[ch := Push(s.subs[ch], Live(s.lock.data))]))
  }

  /** The select takes its default case: the event is dropped, overflow is called next. */
  function FindFullStep(s: State, ch: Chan): Option<State>
  {
    if !(Delivering(s, ch) && |s.subs[ch].queue| >= CHAN_CAP) then None
    else Some(s.(lock := s.lock.(pending := s.lock.pending - {ch}, full := Some(ch))))
  }

  function CallOverflowStep(s: State): Option<State>
  {
    if !(s.lock.Fanout? && s.lock.full.Some? && s.lock.full.value in s.subs) then None
    else Some(s.(lock := s.lock.(full := None), closed := s.closed + {s.subs[s.lock.full.value].conn}))
  }

  function ReleaseStep(s: State): Option<State>
  {
    if s.lock.Fanout? && s.lock.pending == {} && s.lock.full.None? then Some(s.(lock := Free)) else None
  }

  /** Subscribe takes only subsMu, so it may happen at any point of an Emit. */
  function SubscribeStep(s: State, ch: Chan, conn: Conn): Option<State>
  {
    if ch in s.subs then None
    else
      var start := if s.lock.Recorded? then |s.history| - |s.lock.data| else |s.history|;
      Some(s.(subs := s.subs[ch := Sub(conn, true, [], [], [], [], start)]))
  }

  /** The forwarder leaves its loop between two events, or because the connection closed. */
  function UnsubscribeStep(s: State, ch: Chan): Option<State>
  {
    if ch in s.subs && s.subs[ch].subscribed && (s.subs[ch].outbox == [] || s.subs[ch].conn in s.closed)
    then Some(s.(subs := s.subs[ch := s.subs[ch].(subscribed := false)])) else None
  }

  /** RequestSnapshot holds mu; when the channel is full its caller closes the connection. */
  function RequestStep(s: State, ch: Chan, client: Client): Option<State>
  {
    if !(s.lock.Free? && ch in s.subs) then None
    else if |s.subs[ch].queue| < CHAN_CAP then
      Some(s.(subs := s.subs[ch := Push(s.subs[ch], Snap(client, s.ring, |s.history|, s.base))]))
    else Some(s.(closed := s.closed + {s.subs[ch].conn}))
  }

  /** The forwarder receives the next event. */
  function TakeStep(s: State, ch: Chan): Option<State>
  {
    if !(ch in s.subs && s.subs[ch].subscribed && s.subs[ch].outbox == [] && s.subs[ch].queue != []) then None
    else
      var sub := s.subs[ch];
      Some(s.(subs := s.subs[ch := sub.(queue := sub.queue[1..], taken := sub.taken + [sub.queue[0]],
                                        outbox := Messages(sub.queue[0]))]))
  }

  /** sendWait queues one message of the event in hand. */
  function SendStep(s: State, ch: Chan): Option<State>
  {
    if !(ch in s.subs && s.subs[ch].subscribed && s.subs[ch].outbox != []) then None
    else
      var sub := s.subs[ch];
      Some(s.(subs := s.subs[ch := sub.(wire := sub.wire + [sub.outbox[0]], outbox := sub.outbox[1..])]))
  }

  /** Once connDone is closed a waiting message may be given up, with the rest of its batch. */
  function DiscardStep(s: State, ch: Chan): Option<State>
  {
    if ch in s.subs && s.subs[ch].conn in s.closed
    then Some(s.(subs := s.subs[ch := s.subs[ch].(outbox := [])])) else None
  }

  /** One atomic step; None when the step cannot happen now. */
  function Step(s: State, a: Action): Option<State>
  {
    match a
    case Acquire(data, reset) => AcquireStep(s, data, reset)
    case Record => RecordStep(s)
    case CopySubs => CopySubsStep(s)
    case Deliver(ch) => DeliverStep(s, ch)
    case FindFull(ch) => FindFullStep(s, ch)
    case CallOverflow => CallOverflowStep(s)
    case Release => ReleaseStep(s)
    case Subscribe(ch, conn) => SubscribeStep(s, ch, conn)
    case Unsubscribe(ch) => UnsubscribeStep(s, ch)
    case Request(ch, client) => RequestStep(s, ch, client)
    case Take(ch) => TakeStep(s, ch)
    case Send(ch) => SendStep(s, ch)
    case Discard(ch) => DiscardStep(s, ch)
    case Close(conn) => Some(s.(closed := s.closed + {conn}))
  }

  function Subscribed(subs: map<Chan, Sub>): set<Chan> { set ch | ch in subs && subs[ch].subscribed }

  function Push(sub: Sub, e: Event): Sub { sub.(queue := sub.queue + [e]) }

  function Exec(s: State, acts: seq<Action>): Option<State>
  {
    if acts == [] then Some(s)
    else
      var p := Exec(s, acts[..|acts| - 1]);
      if p.None? then None else Step(p.value, acts[|acts| - 1])
  }

  // ---- what the queued events mean -------------------------------------------------------

  /** The stream position after the live output in es, counted from start. */
  function EndPos(es: seq<Event>, start: nat): nat
  {
    if es == [] then start
    else
      var e := es[|es| - 1];
      EndPos(es[..|es| - 1], start) + if e.Live? then |e.data| else 0
  }

  /** Where the replay of a snapshot begins in the history. */
  function ReplayFrom(cap: nat, at: nat, base: nat): int { Max(base, at - cap) }

  /** Event e belongs at stream position pos: live output is the next piece of the history,
      a snapshot was taken exactly there and holds what the ring kept. */
  ghost predicate Fits(e: Event, pos: nat, history: seq<byte>, cap: nat)
  {
    match e
    case Live(d) => pos + |d| <= |history| && d == history[pos..pos + |d|]
    case Snap(_, d, at, base) =>
      at == pos <= |history| && base <= at && d == history[ReplayFrom(cap, at, base)..at]
  }

  /** es is an exact piece of the output stream: every event fits where the live output before it ends. */
  ghost predicate Aligned(es: seq<Event>, start: nat, history: seq<byte>, cap: nat)
  {
    es == [] ||
    var init := es[..|es| - 1];
    Aligned(init, start, history, cap) && Fits(es[|es| - 1], EndPos(init, start), history, cap)
  }

  /** How far live output must have reached channel ch, given the step Emit is in. */
  function Reached(lock: Lock, n: nat, ch: Chan): int
  {
    match lock
    case Free => n
    case Entered(_, _) => n
    case Recorded(d) => n - |d|
    case Fanout(d, pending, full) => if ch in pending || full == Some(ch) then n - |d| else n
  }

  /** What holds of one forwarder on an open connection, when output up to `reached` must be queued. */
  ghost predicate Fine(h: seq<byte>, cap: nat, reached: int, sub: Sub)
  {
    && 0 <= sub.start <= |h|
    && Aligned(sub.taken, sub.start, h, cap)
    && (sub.subscribed ==>
          && Aligned(sub.taken + sub.queue, sub.start, h, cap)
          && EndPos(sub.taken + sub.queue, sub.start) == reached)
    && sub.wire + sub.outbox == Wire(sub.taken)
    && (sub.outbox == [] || (sub.taken != [] && |sub.outbox| <= |Messages(sub.taken[|sub.taken| - 1])|))
  }

  ghost predicate LockFine(s: State)
  {
    match s.lock
    case Free => true
    case Entered(_, _) => true
    case Recorded(d) => |d| <= |s.history| && s.history[|s.history| - |d|..] == d
    case Fanout(d, pending, full) =>
      && |d| <= |s.history| && s.history[|s.history| - |d|..] == d
      && pending <= s.subs.Keys && (full.Some? ==> full.value in s.subs && full.value !in pending)
  }

  ghost predicate Inv(s: State)
  {
    && s.base <= |s.history|
    && s.ring == Suffix(s.history[s.base..], s.cap)
    && LockFine(s)
    && (forall ch :: ch in s.subs && s.subs[ch].conn !in s.closed ==>
          Fine(s.history, s.cap, Reached(s.lock, |s.history|, ch), s.subs[ch]))
  }

  // ---- every step keeps the invariant ----------------------------------------------------

  lemma {:induction false} AlignedGrows(es: seq<Event>, start: nat, h: seq<byte>, h': seq<byte>, cap: nat)
    requires h <= h' && Aligned(es, start, h, cap)
    ensures Aligned(es, start, h', cap)
  {
    hide Fits;
    if es != [] {
      var init, e := es[..|es| - 1], es[|es| - 1];
      AlignedGrows(init, start, h, h', cap);
      FitsGrows(e, EndPos(init, start), h, h', cap);
    }
  }

  lemma FitsGrows(e: Event, pos: nat, h: seq<byte>, h': seq<byte>, cap: nat)
    requires h <= h' && Fits(e, pos, h, cap)
    ensures Fits(e, pos, h', cap)
  {
    match e
    case Live(d) => assert h'[pos..pos + |d|] == h[pos..pos + |d|];
    case Snap(_, _, at, base) => assert h'[ReplayFrom(cap, at, base)..at] == h[ReplayFrom(cap, at, base)..at];
  }

  lemma {:induction false} AlignedBounds(es: seq<Event>, start: nat, h: seq<byte>, cap: nat)
    requires start <= |h| && Aligned(es, start, h, cap)
    ensures start <= EndPos(es, start) <= |h|
  {
    if es != [] {
      AlignedBounds(es[..|es| - 1], start, h, cap);
    }
  }

  lemma {:induction false} AlignedPrefix(xs: seq<Event>, ys: seq<Event>, start: nat, h: seq<byte>, cap: nat)
    requires Aligned(xs + ys, start, h, cap)
    ensures Aligned(xs, start, h, cap)
  {
    if ys == [] {
      assert xs + ys == xs;
    } else {
      assert (xs + ys)[..|xs + ys| - 1] == xs + ys[..|ys| - 1];
      AlignedPrefix(xs, ys[..|ys| - 1], start, h, cap);
    }
  }

  lemma AlignedPush(es: seq<Event>, start: nat, h: seq<byte>, cap: nat, e: Event)
    requires Aligned(es, start, h, cap)
    requires Fits(e, EndPos(es, start), h, cap)
    ensures Aligned(es + [e], start, h, cap)
    ensures EndPos(es + [e], start) == EndPos(es, start) + if e.Live? then |e.data| else 0
  {
    assert (es + [e])[..|es|] == es;
  }

  lemma FineRecord(h: seq<byte>, cap: nat, d: seq<byte>, sub: Sub)
    requires Fine(h, cap, |h|, sub)
    ensures Fine(h + d, cap, |h|, sub)
  {
    AlignedGrows(sub.taken, sub.start, h, h + d, cap);
    if sub.subscribed {
      AlignedGrows(sub.taken + sub.queue, sub.start, h, h + d, cap);
    }
  }

  lemma FinePush(h: seq<byte>, cap: nat, reached: nat, sub: Sub, e: Event)
    requires Fine(h, cap, reached, sub) && Fits(e, reached, h, cap)
    ensures Fine(h, cap, reached + (if e.Live? then |e.data| else 0), Push(sub, e))
  {
    if sub.subscribed {
      AlignedPush(sub.taken + sub.queue, sub.start, h, cap, e);
      assert sub.taken + sub.queue + [e] == sub.taken + (sub.queue + [e]);
    }
  }

  lemma FineTake(h: seq<byte>, cap: nat, reached: int, sub: Sub, sub': Sub)
    requires Fine(h, cap, reached, sub) && sub.subscribed && sub.outbox == [] && sub.queue != []
    requires sub' == sub.(queue := sub.queue[1..], taken := sub.taken + [sub.queue[0]], outbox := Messages(sub.queue[0]))
    ensures Fine(h, cap, reached, sub')
  {
    MoveHead(sub.taken, sub.queue);
    AlignedPrefix(sub'.taken, sub'.queue, sub.start, h, cap);
    assert sub'.taken[..|sub'.taken| - 1] == sub.taken;
    assert sub.wire + sub.outbox == sub.wire;
  }

  lemma FineSend(h: seq<byte>, cap: nat, reached: int, sub: Sub, sub': Sub)
    requires Fine(h, cap, reached, sub) && sub.outbox != []
    requires sub' == sub.(wire := sub.wire + [sub.outbox[0]], outbox := sub.outbox[1..])
    ensures Fine(h, cap, reached, sub')
  {
    MoveHead(sub.wire, sub.outbox);
    assert Fine(h, cap, reached, sub');
  }

  lemma FineNew(h: seq<byte>, cap: nat, conn: Conn, start: nat)
    requires start <= |h|
    ensures Fine(h, cap, start, Sub(conn, true, [], [], [], [], start))
  {
    var none: seq<Event> := [];
    assert none + none == none;
  }

  /** The ring after a write holds the tail of the history since the last reset. */
  lemma RingRecord(h: seq<byte>, base: nat, cap: nat, ring: seq<byte>, reset: bool, d: seq<byte>)
    requires base <= |h| && ring == Suffix(h[base..], cap)
    ensures Suffix((if reset then [] else ring) + d, cap) == Suffix((h + d)[if reset then |h| else base..], cap)
  {
    if reset {
      assert (h + d)[|h|..] == [] + d;
    } else {
      SuffixAppend(h[base..], d, cap);
      assert (h + d)[base..] == h[base..] + d;
    }
  }

  lemma RecordKeeps(s: State, s': State)
    requires Inv(s) && RecordStep(s) == Some(s')
    ensures Inv(s')
  {
    var d := s.lock.data;
    RingRecord(s.history, s.base, s.cap, s.ring, s.lock.reset, d);
    assert s'.history[|s.history|..] == d;
    forall ch | ch in s'.subs && s'.subs[ch].conn !in s'.closed
      ensures Fine(s'.history, s'.cap, |s.history|, s'.subs[ch])
    {
      FineRecord(s.history, s.cap, d, s.subs[ch]);
    }
    assert Inv(s');
  }

  lemma DeliverKeeps(s: State, ch: Chan, s': State)
    requires Inv(s) && DeliverStep(s, ch) == Some(s')
    ensures Inv(s')
  {
    var n := |s.history| - |s.lock.data|;
    assert s'.subs.Keys == s.subs.Keys;
    forall c | c in s'.subs && s'.subs[c].conn !in s'.closed
      ensures Fine(s'.history, s'.cap, Reached(s'.lock, |s'.history|, c), s'.subs[c])
    {
      if c == ch {
        FinePush(s.history, s.cap, n, s.subs[ch], Live(s.lock.data));
      } else {
        assert Reached(s'.lock, |s'.history|, c) == Reached(s.lock, |s.history|, c);
      }
    }
    assert Inv(s');
  }

  lemma RequestKeeps(s: State, ch: Chan, client: Client, s': State)
    requires Inv(s) && RequestStep(s, ch, client) == Some(s')
    ensures Inv(s')
  {
    var n, from := |s.history|, ReplayFrom(s.cap, |s.history|, s.base);
    if |s.subs[ch].queue| < CHAN_CAP && s.subs[ch].conn !in s.closed {
      assert s.ring == s.history[from..n];
      FinePush(s.history, s.cap, n, s.subs[ch], Snap(client, s.ring, n, s.base));
    }
  }

  /** A step that only changes one channel's record. */
  lemma OneSubKeeps(s: State, ch: Chan, sub': Sub, s': State)
    requires Inv(s) && ch in s.subs && sub'.conn == s.subs[ch].conn && s' == s.(subs := s.subs[ch := sub'])
    requires sub'.conn !in s.closed ==> Fine(s.history, s.cap, Reached(s.lock, |s.history|, ch), sub')
    ensures Inv(s')
  {
    assert s'.subs.Keys == s.subs.Keys;
    assert Inv(s');
  }

  lemma ForwarderKeeps(s: State, ch: Chan, s': State)
    requires Inv(s) && (TakeStep(s, ch) == Some(s') || SendStep(s, ch) == Some(s'))
    ensures Inv(s')
  {
    var reached := Reached(s.lock, |s.history|, ch);
    if s.subs[ch].conn !in s.closed {
      assert Fine(s.history, s.cap, reached, s.subs[ch]);
      if TakeStep(s, ch) == Some(s') {
        FineTake(s.history, s.cap, reached, s.subs[ch], s'.subs[ch]);
      } else {
        FineSend(s.history, s.cap, reached, s.subs[ch], s'.subs[ch]);
      }
    }
    OneSubKeeps(s, ch, s'.subs[ch], s');
  }

  lemma UnsubscribeKeeps(s: State, ch: Chan, s': State)
    requires Inv(s) && UnsubscribeStep(s, ch) == Some(s')
    ensures Inv(s')
  {
    OneSubKeeps(s, ch, s'.subs[ch], s');
  }

  lemma SubscribeKeeps(s: State, ch: Chan, conn: Conn, s': State)
    requires Inv(s) && SubscribeStep(s, ch, conn) == Some(s')
    ensures Inv(s')
  {
    FineNew(s.history, s.cap, conn, s'.subs[ch].start);
    assert s'.subs.Keys == s.subs.Keys + {ch};
  }

  /** Steps of the lock holder that touch neither the history nor a channel, and connection ends. */
  lemma LockKeeps(s: State, a: Action, s': State)
    requires Inv(s) && Step(s, a) == Some(s')
    requires a.Acquire? || a.CopySubs? || a.FindFull? || a.CallOverflow? || a.Release? || a.Discard? || a.Close?
    ensures Inv(s')
  {
    assert s'.subs.Keys == s.subs.Keys;
    forall ch | ch in s'.subs && s'.subs[ch].conn !in s'.closed
      ensures Fine(s'.history, s'.cap, Reached(s'.lock, |s'.history|, ch), s'.subs[ch])
    {
      var r, r' := Reached(s.lock, |s.history|, ch), Reached(s'.lock, |s'.history|, ch);
      assert Fine(s.history, s.cap, r, s.subs[ch]);
      assert Fine(s'.history, s'.cap, r', s'.subs[ch]);
    }
  }

  lemma StepKeeps(s: State, a: Action, s': State)
    requires Inv(s) && Step(s, a) == Some(s')
    ensures Inv(s')
  {
    match a
    case Record => RecordKeeps(s, s');
    case Deliver(ch) => DeliverKeeps(s, ch, s');
    case Request(ch, client) => RequestKeeps(s, ch, client, s');
    case Take(ch) => ForwarderKeeps(s, ch, s');
    case Send(ch) => ForwarderKeeps(s, ch, s');
    case Unsubscribe(ch) => UnsubscribeKeeps(s, ch, s');
    case Subscribe(ch, conn) => SubscribeKeeps(s, ch, conn, s');
    case _ => LockKeeps(s, a, s');
  }

  lemma {:induction false} RunKeeps(cap: nat, acts: seq<Action>)
    ensures var r := Exec(Init(cap), acts); r.Some? ==> Inv(r.value) && r.value.cap == cap
  {
    if acts != [] {
      RunKeeps(cap, acts[..|acts| - 1]);
      var p := Exec(Init(cap), acts[..|acts| - 1]);
      if p.Some? {
        LastStepKeeps(p.value, acts[|acts| - 1]);
      }
    }
  }

  lemma LastStepKeeps(s: State, a: Action)
    requires Inv(s)
    ensures var r := Step(s, a); r.Some? ==> Inv(r.value) && r.value.cap == s.cap
  {
    var r := Step(s, a);
    if r.Some? {
      StepKeeps(s, a, r.value);
    }
  }

  // ---- what a client sees ------------------------------------------------------------------

  /** The bytes a client has after the events es: its last snapshot and the live output since. */
  function Shown(es: seq<Event>, client: Client): Option<seq<byte>>
  {
    if es == [] then None
    else
      var before := Shown(es[..|es| - 1], client);
      match es[|es| - 1]
      case Live(d) => if before.Some? then Some(before.value + d) else None
      case Snap(c, d, _, _) => if c == client then Some(d) else before
  }

  /** Index of the client's last snapshot in es, or -1. */
  function LastSnap(es: seq<Event>, client: Client): (k: int)
    ensures -1 <= k < |es|
    ensures k >= 0 ==> es[k].Snap? && es[k].client == client
  {
    if es == [] then -1
    else
      var e := es[|es| - 1];
      if e.Snap? && e.client == client then |es| - 1 else LastSnap(es[..|es| - 1], client)
  }

  /** Snapshot plus following live output is one contiguous slice of the history. */
  lemma {:induction false} ShownIsSlice(es: seq<Event>, start: nat, h: seq<byte>, cap: nat, client: Client)
    requires start <= |h| && Aligned(es, start, h, cap)
    ensures var k := LastSnap(es, client);
      && Shown(es, client).Some? == (k >= 0)
      && (k >= 0 ==> var e := es[k];
            && 0 <= ReplayFrom(cap, e.at, e.base) <= e.at <= EndPos(es, start) <= |h|
            && Shown(es, client).value == h[ReplayFrom(cap, e.at, e.base)..EndPos(es, start)])
  {
    AlignedBounds(es, start, h, cap);
    if es != [] {
      var init, e, k := es[..|es| - 1], es[|es| - 1], LastSnap(es, client);
      ShownIsSlice(init, start, h, cap, client);
      if e.Live? && k >= 0 {
        var from, pos := ReplayFrom(cap, es[k].at, es[k].base), EndPos(init, start);
        JoinSlices(h, from, pos, pos + |e.data|);
      }
    }
  }

  lemma ChunkCountMonotone(a: nat, b: nat)
    requires a <= b
    ensures ChunkCount(a) <= ChunkCount(b)
  {
  }

  /** The messages on the wire show the client exactly what the events say. */
  lemma {:induction false} WireShows(es: seq<Event>, start: nat, h: seq<byte>, cap: nat, client: Client)
    requires start <= |h| && Aligned(es, start, h, cap) && ChunkCount(cap) < UINT32
    ensures var v := ReceiveAll(Waiting, client, Wire(es));
      match Shown(es, client) case None => v == Waiting case Some(b) => v == Following(b)
  {
    if es != [] {
      var init, e := es[..|es| - 1], es[|es| - 1];
      WireShows(init, start, h, cap, client);
      var v, ms := ReceiveAll(Waiting, client, Wire(init)), Messages(e);
      ReceiveAppend(Waiting, client, Wire(init), ms);
      match e {
        case Live(d) =>
          assert ms[..0] == [];
        case Snap(c, d, at, base) =>
          if c == client {
            ChunkCountMonotone(|d|, cap);
            ReceiveBatch(v, client, d, |ms|);
            assert ms[..|ms|] == ms;
          } else {
            BatchFor(c, d);
            OthersUnaffected(v, client, ms);
          }
      }
    }
  }

  /** The events whose messages are completely queued. */
  function Completed(sub: Sub): seq<Event>
  {
    if sub.outbox == [] || sub.taken == [] then sub.taken else sub.taken[..|sub.taken| - 1]
  }

  /** A batch that is only partly queued never shows as a finished replay. */
  lemma PartlyQueued(s: State, ch: Chan, client: Client)
    requires ChunkCount(s.cap) < UINT32
    requires Inv(s) && ch in s.subs && s.subs[ch].conn !in s.closed
    ensures var sub := s.subs[ch];
      var v := ReceiveAll(Waiting, client, sub.wire);
      && 0 <= sub.start <= |s.history|
      && Aligned(Completed(sub), sub.start, s.history, s.cap)
      && (v.Following? ==> Shown(Completed(sub), client) == Some(v.bytes))
      && (sub.outbox == [] && Shown(sub.taken, client).Some? ==> v.Following?)
  {
    var sub := s.subs[ch];
    assert Fine(s.history, s.cap, Reached(s.lock, |s.history|, ch), sub);
    var es := Completed(sub);
    WireShows(es, sub.start, s.history, s.cap, client);
    if sub.outbox == [] {
      assert sub.wire == sub.wire + sub.outbox;
    } else {
      var e := sub.taken[|sub.taken| - 1];
      var ms := Messages(e);
      var k := |ms| - |sub.outbox|;
      assert sub.wire == (Wire(es) + ms)[..|Wire(es)| + k];
      assert sub.wire == Wire(es) + ms[..k];
      ReceiveAppend(Waiting, client, Wire(es), ms[..k]);
      if k == 0 {
        assert ms[..k] == [];
      } else if e.client == client {
        ChunkCountMonotone(|e.data|, s.cap);
        ReceiveBatch(ReceiveAll(Waiting, client, Wire(es)), client, e.data, k);
      } else {
        BatchFor(e.client, e.data);
        OthersUnaffected(ReceiveAll(Waiting, client, Wire(es)), client, ms[..k]);
      }
    }
  }

  /** Attach replay has no gap and no overlap. In every interleaving, on an open connection, a client
      whose replay finished (as it has once its snapshot's messages are all sent) has been shown one contiguous slice of everything the session emitted. It
      starts at the later of the last reset and (request position - ring capacity), and it ends where
      the output queued so far ends: at the end of the history once everything queued has been sent. */
  lemma AttachReplay(cap: nat, acts: seq<Action>, ch: Chan, client: Client)
    requires ChunkCount(cap) < UINT32
    requires Exec(Init(cap), acts).Some?
    requires var s := Exec(Init(cap), acts).value; ch in s.subs && s.subs[ch].conn !in s.closed
    ensures var s := Exec(Init(cap), acts).value;
      var sub := s.subs[ch];
      var v, es := ReceiveAll(Waiting, client, sub.wire), Completed(sub);
      v.Following? ==>
        var k := LastSnap(es, client);
        && k >= 0 && 0 <= sub.start
        && 0 <= ReplayFrom(cap, es[k].at, es[k].base) <= es[k].at <= EndPos(es, sub.start) <= |s.history|
        && v.bytes == s.history[ReplayFrom(cap, es[k].at, es[k].base)..EndPos(es, sub.start)]
        && (s.lock.Free? && sub.subscribed && sub.queue == [] && sub.outbox == [] ==>
              EndPos(es, sub.start) == |s.history|)
    // a client whose snapshot was taken and sent has received it
    ensures var s := Exec(Init(cap), acts).value;
      var sub := s.subs[ch];
      sub.outbox == [] && LastSnap(sub.taken, client) >= 0 ==> ReceiveAll(Waiting, client, sub.wire).Following?
  {
    RunKeeps(cap, acts);
    var s := Exec(Init(cap), acts).value;
    PartlyQueued(s, ch, client);
    assert s.subs[ch].queue == [] ==> s.subs[ch].taken + s.subs[ch].queue == s.subs[ch].taken;
    ShownIsSlice(Completed(s.subs[ch]), s.subs[ch].start, s.history, cap, client);
  }

  function LiveBytes(es: seq<Event>): seq<byte>
  {
    if es == [] then []
    else LiveBytes(es[..|es| - 1]) + if es[|es| - 1].Live? then es[|es| - 1].data else []
  }

  lemma {:induction false} LiveBytesAreSlice(es: seq<Event>, start: nat, h: seq<byte>, cap: nat)
    requires start <= |h| && Aligned(es, start, h, cap)
    ensures start <= EndPos(es, start) <= |h| && LiveBytes(es) == h[start..EndPos(es, start)]
  {
    AlignedBounds(es, start, h, cap);
    if es != [] {
      var init, e := es[..|es| - 1], es[|es| - 1];
      LiveBytesAreSlice(init, start, h, cap);
      if e.Live? {
        var pos := EndPos(init, start);
        JoinSlices(h, start, pos, pos + |e.data|);
      }
    }
  }

  /** Overflow never leaves a silent hole: in every run, whenever no Emit is in progress, an open
      connection's running forwarder has been handed every byte emitted since it subscribed; during
      an Emit it can lack at most the bytes being emitted. A dropped event therefore always closes the
      connection before the stream lock is released. */
  lemma NoSilentHole(cap: nat, acts: seq<Action>, ch: Chan)
    requires Exec(Init(cap), acts).Some?
    requires var s := Exec(Init(cap), acts).value;
      ch in s.subs && s.subs[ch].conn !in s.closed && s.subs[ch].subscribed
    ensures var s := Exec(Init(cap), acts).value;
      var sub := s.subs[ch];
      var got, end := LiveBytes(sub.taken + sub.queue), Reached(s.lock, |s.history|, ch);
      && 0 <= sub.start <= end <= |s.history|
      && got == s.history[sub.start..end]
      && (s.lock.Free? ==> got == s.history[sub.start..])
  {
    RunKeeps(cap, acts);
    var s := Exec(Init(cap), acts).value;
    assert Fine(s.history, s.cap, Reached(s.lock, |s.history|, ch), s.subs[ch]);
    LiveBytesAreSlice(s.subs[ch].taken + s.subs[ch].queue, s.subs[ch].start, s.history, cap);
  }
}
