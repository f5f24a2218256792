/** The attach-replay protocol in terms of what ran: the emitted bytes, the resets and the snapshot
    requests are read off the actions of a run, not off the machine's own bookkeeping. */
module Attach {
  import opened Common
  import opened Snapshot
  import opened Replay

  // ---- what was emitted --------------------------------------------------------------------------

  /** The data of the last Emit or EmitReset that got the lock, and whether it was an EmitReset. */
  function LastAcquire(acts: seq<Action>): Option<(seq<byte>, bool)>
  {
    if acts == [] then None
    else
      var a := acts[|acts| - 1];
      if a.Acquire? then Some((a.data, a.reset)) else LastAcquire(acts[..|acts| - 1])
  }

  /** What a step adds to the output: the data of the lock holder, when it writes the ring. */
  function EmittedBy(before: seq<Action>, a: Action): seq<byte>
  {
    if a.Record? && LastAcquire(before).Some? then LastAcquire(before).value.0 else []
  }

  predicate ResetBy(before: seq<Action>, a: Action)
  {
    a.Record? && LastAcquire(before).Some? && LastAcquire(before).value.1
  }

  /** Everything emitted in the run, in order. */
  function Emitted(acts: seq<Action>): seq<byte>
  {
    if acts == [] then []
    else
      var init := acts[..|acts| - 1];
      Emitted(init) + EmittedBy(init, acts[|acts| - 1])
  }

  /** How much had been emitted before the last EmitReset. */
  function ResetAt(acts: seq<Action>): nat
  {
    if acts == [] then 0
    else
      var init := acts[..|acts| - 1];
      if ResetBy(init, acts[|acts| - 1]) then |Emitted(init)| else ResetAt(init)
  }

  /** The machine's history is what was emitted, and it knows the last reset. */
  ghost predicate Tracks(s: State, acts: seq<Action>)
  {
    && s.history == Emitted(acts) && s.base == ResetAt(acts)
    && (s.lock.Entered? ==> LastAcquire(acts) == Some((s.lock.data, s.lock.reset)))
  }

  lemma QuietFields(s: State, a: Action, s': State)
    requires Step(s, a) == Some(s') && !a.Record? && !a.Acquire?
    ensures s'.history == s.history && s'.base == s.base && (s'.lock.Entered? ==> s'.lock == s.lock)
  {
  }

  lemma StepTracks(s: State, acts: seq<Action>, a: Action, s': State)
    requires Tracks(s, acts) && Step(s, a) == Some(s')
    ensures Tracks(s', acts + [a])
  {
    assert (acts + [a])[..|acts|] == acts;
    if !a.Record? && !a.Acquire? {
      QuietFields(s, a, s');
      hide Step;
      assert s.history + [] == s.history;
    } else if a.Acquire? {
      assert s.history + [] == s.history;
    }
  }

  lemma {:induction false} HistoryIsEmitted(cap: nat, acts: seq<Action>)
    ensures var r := Exec(Init(cap), acts); r.Some? ==> r.value.history == Emitted(acts) && r.value.base == ResetAt(acts)
    ensures var r := Exec(Init(cap), acts); r.Some? ==> Tracks(r.value, acts)
  {
    if acts != [] {
      var init, a := acts[..|acts| - 1], acts[|acts| - 1];
      HistoryIsEmitted(cap, init);
      hide Step, Tracks;
      var p := Exec(Init(cap), init);
      if p.Some? && Step(p.value, a).Some? {
        StepTracks(p.value, init, a, Step(p.value, a).value);
        assert init + [a] == acts;
        TracksFields(Step(p.value, a).value, acts);
      }
    }
  }

  lemma TracksFields(s: State, acts: seq<Action>)
    requires Tracks(s, acts)
    ensures s.history == Emitted(acts) && s.base == ResetAt(acts)
  {
  }

  // ---- what was asked for ------------------------------------------------------------------------

  /** One snapshot request: for whom, after how much output, and how much of it came before the last reset. */
  datatype Ask = Ask(client: Client, at: nat, base: nat)

  /** The snapshot requests on channel ch, in order. */
  function Asked(acts: seq<Action>, ch: Chan): seq<Ask>
  {
    if acts == [] then []
    else
      var init := acts[..|acts| - 1];
      Asked(init, ch) + AskedBy(init, acts[|acts| - 1], ch)
  }

  function AskedBy(before: seq<Action>, a: Action, ch: Chan): seq<Ask>
  {
    if a.Request? && a.ch == ch then [Ask(a.client, |Emitted(before)|, ResetAt(before))] else []
  }

  /** The snapshots among the events of a channel. */
  function Snaps(es: seq<Event>): seq<Ask>
  {
    if es == [] then []
    else
      var e := es[|es| - 1];
      Snaps(es[..|es| - 1]) + if e.Snap? then [Ask(e.client, e.at, e.base)] else []
  }

  lemma SnapsSnoc(es: seq<Event>, e: Event)
    ensures Snaps(es + [e]) == Snaps(es) + if e.Snap? then [Ask(e.client, e.at, e.base)] else []
  {
    assert (es + [e])[..|es|] == es;
  }

  /** Every request on an open connection is among the channel's events, and nothing else is. */
  ghost predicate Asks(s: State, acts: seq<Action>)
  {
    forall ch :: if ch in s.subs then AsksOf(s.subs[ch], s.closed, Asked(acts, ch)) else Asked(acts, ch) == []
  }

  ghost predicate AsksOf(sub: Sub, closed: set<Conn>, asks: seq<Ask>)
  {
    sub.conn !in closed ==> Snaps(sub.taken + sub.queue) == asks
  }

  /** What one step does to a channel, as far as its snapshots go. */
  ghost predicate ChannelStep(s: State, s': State, ch: Chan, asks: seq<Ask>)
  {
    if ch in s.subs then
      && ch in s'.subs && s'.subs[ch].conn == s.subs[ch].conn && s.closed <= s'.closed
      && (s'.subs[ch].conn !in s'.closed ==>
            Snaps(s'.subs[ch].taken + s'.subs[ch].queue) == Snaps(s.subs[ch].taken + s.subs[ch].queue) + asks)
    else
      && asks == [] && (ch in s'.subs ==> s'.subs[ch].taken + s'.subs[ch].queue == [])
  }

  lemma RequestChannel(s: State, ch: Chan, client: Client, s': State, c: Chan)
    requires RequestStep(s, ch, client) == Some(s')
    ensures ChannelStep(s, s', c, if c == ch then [Ask(client, |s.history|, s.base)] else [])
  {
    if c in s.subs {
      var sub := s.subs[c];
      assert Snaps(sub.taken + sub.queue) + [] == Snaps(sub.taken + sub.queue);
      if c == ch {
        var e := Snap(client, s.ring, |s.history|, s.base);
        SnapsSnoc(sub.taken + sub.queue, e);
        assert sub.taken + sub.queue + [e] == sub.taken + (sub.queue + [e]);
      }
    }
  }

  lemma DeliverChannel(s: State, ch: Chan, s': State, c: Chan)
    requires DeliverStep(s, ch) == Some(s')
    ensures ChannelStep(s, s', c, [])
  {
    if c in s.subs {
      var sub := s.subs[c];
      assert Snaps(sub.taken + sub.queue) + [] == Snaps(sub.taken + sub.queue);
      if c == ch {
        var e := Live(s.lock.data);
        SnapsSnoc(sub.taken + sub.queue, e);
        assert sub.taken + sub.queue + [e] == sub.taken + (sub.queue + [e]);
      }
    }
  }

  lemma TakeChannel(s: State, ch: Chan, s': State, c: Chan)
    requires TakeStep(s, ch) == Some(s')
    ensures ChannelStep(s, s', c, [])
  {
    if c in s.subs {
      var sub := s.subs[c];
      assert Snaps(sub.taken + sub.queue) + [] == Snaps(sub.taken + sub.queue);
      if c == ch {
        MoveHead(sub.taken, sub.queue);
      }
    }
  }

  lemma OtherChannel(s: State, a: Action, s': State, c: Chan)
    requires Step(s, a) == Some(s') && !a.Request? && !a.Deliver? && !a.Take?
    ensures ChannelStep(s, s', c, [])
  {
    hide Snaps;
    if c in s.subs {
      var sub := s.subs[c];
      assert Snaps(sub.taken + sub.queue) + [] == Snaps(sub.taken + sub.queue);
    }
  }

  lemma StepAsks(s: State, acts: seq<Action>, a: Action, s': State)
    requires Tracks(s, acts) && Asks(s, acts) && Step(s, a) == Some(s')
    ensures Asks(s', acts + [a])
  {
    hide Step, Snaps, Tracks, AskedBy;
    assert (acts + [a])[..|acts|] == acts;
    EmptySnaps();
    forall c ensures ChannelStep(s, s', c, AskedBy(acts, a, c)) && Asked(acts + [a], c) == Asked(acts, c) + AskedBy(acts, a, c) {
      AnyChannel(s, acts, a, s', c);
    }
  }

  lemma AnyChannel(s: State, acts: seq<Action>, a: Action, s': State, c: Chan)
    requires Tracks(s, acts) && Step(s, a) == Some(s')
    ensures ChannelStep(s, s', c, AskedBy(acts, a, c))
  {
    hide ChannelStep;
    match a
    case Request(ch, client) => RequestChannel(s, ch, client, s', c);
    case Deliver(ch) => DeliverChannel(s, ch, s', c);
    case Take(ch) => TakeChannel(s, ch, s', c);
    case _ => OtherChannel(s, a, s', c);
  }

  lemma EmptySnaps()
    ensures Snaps([]) == []
  {
  }

  lemma {:induction false} RequestsAreQueued(cap: nat, acts: seq<Action>)
    ensures var r := Exec(Init(cap), acts); r.Some? ==> Asks(r.value, acts)
  {
    hide Step, Asks, Tracks, Emitted, ResetAt;
    if acts == [] {
      NothingAsked(cap);
    } else {
      var init, a := acts[..|acts| - 1], acts[|acts| - 1];
      RequestsAreQueued(cap, init);
      HistoryIsEmitted(cap, init);
      var p := Exec(Init(cap), init);
      if p.Some? && Step(p.value, a).Some? {
        StepAsks(p.value, init, a, Step(p.value, a).value);
        assert init + [a] == acts;
      }
    }
  }

  lemma NothingAsked(cap: nat)
    ensures Asks(Init(cap), [])
  {
  }

  // ---- how an attach is answered -------------------------------------------------------------------

  function LastAsk(asks: seq<Ask>, client: Client): Option<Ask>
  {
    if asks == [] then None
    else if asks[|asks| - 1].client == client then Some(asks[|asks| - 1]) else LastAsk(asks[..|asks| - 1], client)
  }

  /** The client's last snapshot among the events is its last request. */
  lemma {:induction false} LastSnapIsLastAsk(es: seq<Event>, client: Client)
    ensures var k := LastSnap(es, client);
      LastAsk(Snaps(es), client) == if k >= 0 then Some(Ask(client, es[k].at, es[k].base)) else None
  {
    if es != [] {
      var init, e := es[..|es| - 1], es[|es| - 1];
      LastSnapIsLastAsk(init, client);
      if e.Snap? {
        assert (Snaps(init) + [Ask(e.client, e.at, e.base)])[..|Snaps(init)|] == Snaps(init);
      } else {
        assert Snaps(init) + [] == Snaps(init);
      }
    }
  }

  /** The client's last request on ch is step i of the run. */
  ghost predicate LastRequest(acts: seq<Action>, i: nat, ch: Chan, client: Client)
  {
    && i < |acts| && acts[i] == Request(ch, client)
    && forall j :: i < j < |acts| ==> acts[j] != Request(ch, client)
  }

  lemma {:induction false} LastAsked(acts: seq<Action>, i: nat, ch: Chan, client: Client)
    requires LastRequest(acts, i, ch, client)
    ensures LastAsk(Asked(acts, ch), client) == Some(Ask(client, |Emitted(acts[..i])|, ResetAt(acts[..i])))
  {
    var init, a := acts[..|acts| - 1], acts[|acts| - 1];
    var asks, more := Asked(init, ch), AskedBy(init, a, ch);
    if more == [] {
      assert asks + more == asks;
    } else {
      assert (asks + more)[..|asks|] == asks;
    }
    if i < |acts| - 1 {
      assert init[..i] == acts[..i];
      LastAsked(init, i, ch, client);
    }
  }

  /** A request on an open connection is never lost: the client's last snapshot among the events handed
      to the forwarder is the one of its last request, taken exactly where the run was at that step. */
  lemma RequestNotLost(cap: nat, acts: seq<Action>, i: nat, ch: Chan, client: Client)
    requires Exec(Init(cap), acts).Some? && LastRequest(acts, i, ch, client)
    requires var s := Exec(Init(cap), acts).value; ch in s.subs && s.subs[ch].conn !in s.closed
    ensures var sub := Exec(Init(cap), acts).value.subs[ch];
      var es := sub.taken + sub.queue;
      var k := LastSnap(es, client);
      k >= 0 && es[k].at == |Emitted(acts[..i])| && es[k].base == ResetAt(acts[..i])
  {
    hide Step, Exec;
    var s := Exec(Init(cap), acts).value;
    RequestsAreQueued(cap, acts);
    assert AsksOf(s.subs[ch], s.closed, Asked(acts, ch));
    LastAsked(acts, i, ch, client);
    LastSnapIsLastAsk(s.subs[ch].taken + s.subs[ch].queue, client);
  }

  /** An attach is answered, end to end and in terms of what ran: once the forwarder has sent what it was
      handed and no Emit is in progress, the client that asked last in step i has been shown everything
      emitted since the later of the last reset before its request and (request position - capacity). */
  lemma AttachAnswered(cap: nat, acts: seq<Action>, i: nat, ch: Chan, client: Client)
    requires ChunkCount(cap) < UINT32
    requires Exec(Init(cap), acts).Some? && LastRequest(acts, i, ch, client)
    requires var s := Exec(Init(cap), acts).value;
      && s.lock.Free? && ch in s.subs && s.subs[ch].conn !in s.closed && s.subs[ch].subscribed
      && s.subs[ch].queue == [] && s.subs[ch].outbox == []
    ensures var s := Exec(Init(cap), acts).value;
      var from := Max(ResetAt(acts[..i]), |Emitted(acts[..i])| - cap);
      && 0 <= from <= |Emitted(acts)|
      && ReceiveAll(Waiting, client, s.subs[ch].wire) == Following(Emitted(acts)[from..])
  {
    hide Step, Exec, Emitted, ResetAt, ReceiveAll;
    var s := Exec(Init(cap), acts).value;
    RequestNotLost(cap, acts, i, ch, client);
    AttachReplay(cap, acts, ch, client);
    HistoryIsEmitted(cap, acts);
    var sub := s.subs[ch];
    assert sub.taken + sub.queue == sub.taken;
  }

  // ---- who is subscribed, and which connections closed ------------------------------------------------

  /** The connection a channel was subscribed for, if it was. */
  function SubscribedFor(acts: seq<Action>, ch: Chan): Option<Conn>
  {
    if acts == [] then None
    else
      var a := acts[|acts| - 1];
      if a.Subscribe? && a.ch == ch then Some(a.conn) else SubscribedFor(acts[..|acts| - 1], ch)
  }

  predicate Unsubscribed(acts: seq<Action>, ch: Chan) { Unsubscribe(ch) in acts }

  ghost predicate SubsTrack(s: State, acts: seq<Action>)
  {
    forall ch ::
      && SubscribedFor(acts, ch) == (if ch in s.subs then Some(s.subs[ch].conn) else None)
      && (ch in s.subs ==> (s.subs[ch].subscribed <==> !Unsubscribed(acts, ch)))
      && (ch !in s.subs ==> !Unsubscribed(acts, ch))
  }

  lemma SubsFields(s: State, a: Action, s': State, ch: Chan)
    requires Step(s, a) == Some(s')
    ensures if ch in s'.subs then
              if ch in s.subs
              then a != Subscribe(ch, s'.subs[ch].conn) && s'.subs[ch].conn == s.subs[ch].conn && (a.Subscribe? ==> a.ch != ch)
                   && (s'.subs[ch].subscribed <==> s.subs[ch].subscribed && a != Unsubscribe(ch))
              else a == Subscribe(ch, s'.subs[ch].conn) && s'.subs[ch].subscribed
            else ch !in s.subs && a != Unsubscribe(ch) && (a.Subscribe? ==> a.ch != ch)
  {
  }

  /** A channel is served from its Subscribe to its Unsubscribe, for the connection it was made for. */
  lemma {:induction false} SubscribedWhile(cap: nat, acts: seq<Action>)
    ensures var r := Exec(Init(cap), acts); r.Some? ==> SubsTrack(r.value, acts)
  {
    if acts != [] {
      var init, a := acts[..|acts| - 1], acts[|acts| - 1];
      SubscribedWhile(cap, init);
      hide Step;
      var p := Exec(Init(cap), init);
      if p.Some? && Step(p.value, a).Some? {
        var s, s' := p.value, Step(p.value, a).value;
        assert acts == init + [a];
        forall ch ensures
          && SubscribedFor(acts, ch) == (if ch in s'.subs then Some(s'.subs[ch].conn) else None)
          && (ch in s'.subs ==> (s'.subs[ch].subscribed <==> !Unsubscribed(acts, ch)))
          && (ch !in s'.subs ==> !Unsubscribed(acts, ch))
        {
          SubsFields(s, a, s', ch);
        }
      }
    }
  }

  /** This step closes conn: the connection ends by itself, or a channel of it has no room. */
  predicate Closes(s: State, a: Action, conn: Conn)
  {
    match a
    case Close(c) => c == conn
    case CallOverflow => s.lock.Fanout? && s.lock.full.Some? && s.lock.full.value in s.subs && s.subs[s.lock.full.value].conn == conn
    case Request(ch, _) => ch in s.subs && s.subs[ch].conn == conn && |s.subs[ch].queue| >= CHAN_CAP
    case _ => false
  }

  lemma StepCloses(s: State, a: Action, s': State)
    requires Step(s, a) == Some(s')
    ensures forall conn :: conn in s'.closed <==> conn in s.closed || Closes(s, a, conn)
  {
  }

  ghost predicate ClosedIn(cap: nat, acts: seq<Action>, i: nat, conn: Conn)
    requires i < |acts|
  {
    var before := Exec(Init(cap), acts[..i]);
    before.Some? && Closes(before.value, acts[i], conn)
  }

  /** A connection is closed only for a reason: over every run, exactly if some step closed it. */
  lemma {:induction false} ClosedWhen(cap: nat, acts: seq<Action>, conn: Conn)
    ensures var r := Exec(Init(cap), acts);
      r.Some? ==> (conn in r.value.closed <==> exists i :: 0 <= i < |acts| && ClosedIn(cap, acts, i, conn))
  {
    hide Step, Closes;
    if acts != [] {
      var k := |acts| - 1;
      var init := acts[..k];
      ClosedWhen(cap, init, conn);
      var p := Exec(Init(cap), init);
      if p.Some? && Step(p.value, acts[k]).Some? {
        StepCloses(p.value, acts[k], Step(p.value, acts[k]).value);
        forall i | 0 <= i < k ensures ClosedIn(cap, init, i, conn) <==> ClosedIn(cap, acts, i, conn) {
          assert init[..i] == acts[..i];
        }
        assert ClosedIn(cap, acts, k, conn) <==> Closes(p.value, acts[k], conn);
      }
    }
  }

  /** A channel never holds more than its room, and a forwarder of an open connection leaves only between
      two events: what it began to send it has sent. */
  ghost predicate Orderly(s: State)
  {
    forall ch :: ch in s.subs ==>
      |s.subs[ch].queue| <= CHAN_CAP && (s.subs[ch].subscribed || s.subs[ch].outbox == [] || s.subs[ch].conn in s.closed)
  }

  lemma StepOrderly(s: State, a: Action, s': State)
    requires Orderly(s) && Step(s, a) == Some(s')
    ensures Orderly(s')
  {
  }

  lemma {:induction false} RunsOrderly(cap: nat, acts: seq<Action>)
    ensures var r := Exec(Init(cap), acts); r.Some? ==> Orderly(r.value)
  {
    hide Step, Orderly;
    if acts == [] {
      NoSubsOrderly(cap);
    } else {
      var init, a := acts[..|acts| - 1], acts[|acts| - 1];
      RunsOrderly(cap, init);
      var p := Exec(Init(cap), init);
      if p.Some? && Step(p.value, a).Some? {
        StepOrderly(p.value, a, Step(p.value, a).value);
      }
    }
  }

  lemma NoSubsOrderly(cap: nat)
    ensures Orderly(Init(cap))
  {
  }

  // ---- nobody gets stuck ---------------------------------------------------------------------------

  lemma {:induction false} ExecAppend(s: State, xs: seq<Action>, ys: seq<Action>)
    ensures Exec(s, xs + ys) == if Exec(s, xs).None? then None else Exec(Exec(s, xs).value, ys)
  {
    hide Step;
    if ys == [] {
      assert xs + ys == xs;
    } else {
      var k := |ys| - 1;
      assert (xs + ys)[..|xs| + k] == xs + ys[..k];
      ExecAppend(s, xs, ys[..k]);
    }
  }

  lemma ExecCons(s: State, a: Action, t: State, ys: seq<Action>)
    requires Step(s, a) == Some(t)
    ensures Exec(s, [a] + ys) == Exec(t, ys)
  {
    hide Step;
    ExecAppend(s, [a], ys);
    assert [a][..0] == [];
  }

  /** A forwarder that keeps running sends everything it was handed. */
  lemma {:induction false} Drains(s: State, ch: Chan) returns (more: seq<Action>, s': State)
    requires ch in s.subs && s.subs[ch].subscribed
    ensures Exec(s, more) == Some(s') && s' == s.(subs := s'.subs) && ch in s'.subs
    ensures s'.subs[ch].queue == [] && s'.subs[ch].outbox == [] && s'.subs[ch].subscribed
    ensures s'.subs[ch].taken == s.subs[ch].taken + s.subs[ch].queue && s'.subs[ch].conn == s.subs[ch].conn
    ensures forall a :: a in more ==> a == Send(ch) || a == Take(ch)
    decreases |s.subs[ch].queue|, |s.subs[ch].outbox|
  {
    var sub := s.subs[ch];
    if sub.outbox != [] {
      var t := s.(subs := s.subs[ch := sub.(wire := sub.wire + [sub.outbox[0]], outbox := sub.outbox[1..])]);
      more, s' := Drains(t, ch);
      ExecCons(s, Send(ch), t, more);
      more := [Send(ch)] + more;
    } else if sub.queue != [] {
      var t := s.(subs := s.subs[ch := sub.(queue := sub.queue[1..], taken := sub.taken + [sub.queue[0]],
                                            outbox := Messages(sub.queue[0]))]);
      MoveHead(sub.taken, sub.queue);
      more, s' := Drains(t, ch);
      ExecCons(s, Take(ch), t, more);
      more := [Take(ch)] + more;
    } else {
      more, s' := [], s;
      assert sub.taken + sub.queue == sub.taken;
    }
  }

  /** A forwarder can leave between two events, and at any time once its connection closed. */
  lemma MayLeave(s: State, ch: Chan)
    requires ch in s.subs && s.subs[ch].subscribed
    ensures Step(s, Unsubscribe(ch)).Some? <==> s.subs[ch].outbox == [] || s.subs[ch].conn in s.closed
  {
  }

  /** When each step can happen: the lock is taken when it is free and held by no more than one Emit or
      request, a subscription is new, and a forwarder works on one event at a time. */
  lemma StepsMay(s: State, ch: Chan, conn: Conn, client: Client, data: seq<byte>, reset: bool)
    ensures Step(s, Acquire(data, reset)).Some? <==> s.lock.Free?
    ensures Step(s, Request(ch, client)).Some? <==> s.lock.Free? && ch in s.subs
    ensures Step(s, Subscribe(ch, conn)).Some? <==> ch !in s.subs
    ensures Step(s, Take(ch)).Some? <==> ch in s.subs && s.subs[ch].subscribed && s.subs[ch].outbox == [] && s.subs[ch].queue != []
    ensures Step(s, Send(ch)).Some? <==> ch in s.subs && s.subs[ch].subscribed && s.subs[ch].outbox != []
    ensures Step(s, Discard(ch)).Some? <==> ch in s.subs && s.subs[ch].conn in s.closed
    ensures Step(s, Unsubscribe(ch)).Some? ==> ch in s.subs && s.subs[ch].subscribed
    ensures Step(s, Close(conn)).Some?
  {
  }

  /** Whoever holds the lock can always finish, without anybody's help: a full channel closes its
      connection instead of blocking the output path. */
  lemma {:induction false} Finishes(s: State) returns (more: seq<Action>, s': State)
    requires LockFine(s) && s.lock.Fanout?
    ensures Exec(s, more) == Some(s') && s'.lock.Free?
    decreases |s.lock.pending|, s.lock.full.Some?
  {
    if s.lock.full.Some? {
      var t := s.(lock := s.lock.(full := None), closed := s.closed + {s.subs[s.lock.full.value].conn});
      more, s' := Finishes(t);
      ExecCons(s, CallOverflow, t, more);
      more := [CallOverflow] + more;
    } else if s.lock.pending == {} {
      s' := s.(lock := Free);
      ExecCons(s, Release, s', []);
      more := [Release] + [];
    } else {
      var ch :| ch in s.lock.pending;
      var pending := s.lock.pending - {ch};
      assert |pending| < |s.lock.pending|;
      if |s.subs[ch].queue| < CHAN_CAP {
        var t := s.(lock := s.lock.(pending := pending), subs := s.subs[ch := Push(s.subs[ch], Live(s.lock.data))]);
        assert t.subs.Keys == s.subs.Keys;
        more, s' := Finishes(t);
        ExecCons(s, Deliver(ch), t, more);
        more := [Deliver(ch)] + more;
      } else {
        var t := s.(lock := s.lock.(pending := pending, full := Some(ch)));
        more, s' := Finishes(t);
        ExecCons(s, FindFull(ch), t, more);
        more := [FindFull(ch)] + more;
      }
    }
  }

  /** Every run can go on until the lock is free. */
  lemma LockIsReleased(cap: nat, acts: seq<Action>) returns (more: seq<Action>, s': State)
    requires Exec(Init(cap), acts).Some?
    ensures Exec(Init(cap), acts + more) == Some(s') && s'.lock.Free?
  {
    RunKeeps(cap, acts);
    var s := Exec(Init(cap), acts).value;
    var t, first := s, [];
    if s.lock.Entered? {
      t := RecordStep(s).value;
      ExecCons(s, Record, t, []);
      first := [Record] + [];
      StepKeeps(s, Record, t);
    }
    var u, second := t, [];
    if t.lock.Recorded? {
      u := CopySubsStep(t).value;
      ExecCons(t, CopySubs, u, []);
      second := [CopySubs] + [];
      StepKeeps(t, CopySubs, u);
    }
    hide Step, RecordStep, CopySubsStep;
    ExecAppend(s, first, second);
    if u.lock.Free? {
      more, s' := first + second, u;
    } else {
      var rest;
      rest, s' := Finishes(u);
      more := first + second + rest;
      ExecAppend(s, first + second, rest);
    }
    ExecAppend(Init(cap), acts, more);
  }

  /** So an attach is always answered if the connection holds: from any run in which the client asked, on
      an open connection with a running forwarder and no Emit in progress, the forwarder alone gets to a
      run after which the client has been shown what AttachAnswered says. */
  lemma AttachIsServed(cap: nat, acts: seq<Action>, i: nat, ch: Chan, client: Client) returns (more: seq<Action>)
    requires ChunkCount(cap) < UINT32
    requires Exec(Init(cap), acts).Some? && LastRequest(acts, i, ch, client)
    requires var s := Exec(Init(cap), acts).value;
      s.lock.Free? && ch in s.subs && s.subs[ch].conn !in s.closed && s.subs[ch].subscribed
    ensures Exec(Init(cap), acts + more).Some? && ch in Exec(Init(cap), acts + more).value.subs
    ensures var from := Max(ResetAt(acts[..i]), |Emitted(acts[..i])| - cap);
      && 0 <= from <= |Emitted(acts)|
      && ReceiveAll(Waiting, client, Exec(Init(cap), acts + more).value.subs[ch].wire) == Following(Emitted(acts)[from..])
  {
    hide Step;
    var s := Exec(Init(cap), acts).value;
    var s';
    more, s' := Drains(s, ch);
    ExecAppend(Init(cap), acts, more);
    hide Exec, Emitted, ResetAt, ReceiveAll;
    HistoryIsEmitted(cap, acts);
    HistoryIsEmitted(cap, acts + more);
    forall j | i < j < |acts + more| ensures (acts + more)[j] != Request(ch, client) {
      if j >= |acts| {
        assert (acts + more)[j] in more;
      }
    }
    assert (acts + more)[..i] == acts[..i];
    AttachAnswered(cap, acts + more, i, ch, client);
  }
}
