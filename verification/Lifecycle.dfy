/** What the main loop of cmd/scomp answers, over whole runs of Agent: attaches, input modes, ended
    sessions, and that it never gets stuck. */
module Lifecycle {
  import opened Common
  import opened Agent

  // ---- more of what every run keeps -------------------------------------------------------------

  /** An active entry has its input mode; an attach is answered for an id that is not lazy any more. */
  ghost predicate ModesOk(pc: Pc, available: map<Id, Lazy>, lazyMap: map<Id, Lazy>, modes: map<Id, Mode>)
  {
    && (forall id :: id in available && id !in lazyMap ==> id in modes)
    && (pc.Announcing? ==> pc.ls.id in modes)
    && (pc.Answering? ==> pc.id !in lazyMap)
  }

  /** Every session has a number below next. */
  ghost predicate NumbersOk(entries: map<Id, Sess>, dead: set<Sess>, next: Sess)
  {
    (forall id :: id in entries ==> entries[id] < next) && (forall sess :: sess in dead ==> sess < next)
  }

  /** A forwarder's session is the registered one unless it has ended. */
  ghost predicate FollowsOk(forwarders: map<Id, Fw>, fws: seq<Forwarder>, entries: map<Id, Sess>, dead: set<Sess>)
  {
    forall id :: id in forwarders ==>
      && forwarders[id] < |fws|
      && (fws[forwarders[id]].sess in dead || (id in entries && entries[id] == fws[forwarders[id]].sess))
  }

  ghost predicate Extra(s: State)
  {
    && ModesOk(s.pc, s.available, s.lazyMap, s.modes)
    && NumbersOk(s.entries, s.dead, s.next)
    && FollowsOk(s.forwarders, s.fws, s.entries, s.dead)
  }

  lemma ModesAdded(pc: Pc, pc': Pc, available: map<Id, Lazy>, lazyMap: map<Id, Lazy>, modes: map<Id, Mode>, ls: Lazy, live: bool)
    requires ModesOk(pc, available, lazyMap, modes) && !pc'.Announcing? && !pc'.Answering?
    ensures ModesOk(pc', available[ls.id := ls], if live then lazyMap else lazyMap[ls.id := ls],
                    if live then modes[ls.id := ls.mode] else modes)
  {
  }

  lemma ModesRemoved(pc: Pc, pc': Pc, available: map<Id, Lazy>, lazyMap: map<Id, Lazy>, modes: map<Id, Mode>, id: Id)
    requires ModesOk(pc, available, lazyMap, modes) && !pc'.Announcing? && !pc'.Answering?
    ensures ModesOk(pc', available - {id}, lazyMap - {id}, modes - {id})
  {
  }

  lemma BootExtra(s: State, fits: bool, s': State)
    requires Extra(s) && BootStep(s, fits) == Some(s')
    ensures Extra(s')
  {
    hide ModesOk, NumbersOk, FollowsOk;
    BootFields(s, fits, s');
    hide BootStep;
    if s.pc.rest == [] {
      ModesIdle(s);
    } else {
      var ls, live := s.pc.rest[0], Live(s.entries, s.dead, s.pc.rest[0].id);
      ModesAdded(s.pc, s'.pc, s.available, s.lazyMap, s.modes, ls, live);
    }
  }

  lemma BootFields(s: State, fits: bool, s': State)
    requires BootStep(s, fits) == Some(s')
    ensures s.pc.Booting?
    ensures s.pc.rest == [] ==> s' == s.(pc := Idle)
    ensures s.pc.rest != [] ==>
      var ls, rest := s.pc.rest[0], s.pc.rest[1..];
      s' == if Live(s.entries, s.dead, ls.id)
            then s.(available := s.available[ls.id := ls], modes := s.modes[ls.id := ls.mode], pc := BootStart(ls, rest))
            else s.(available := s.available[ls.id := ls], lazyMap := s.lazyMap[ls.id := ls], pc := Booting(rest),
                    sent := s'.sent, open := s'.open)
  {
  }

  lemma ModesIdle(s: State)
    requires ModesOk(s.pc, s.available, s.lazyMap, s.modes)
    ensures ModesOk(Idle, s.available, s.lazyMap, s.modes)
  {
  }

  lemma StartFollows(s: State, id: Id)
    requires FollowsOk(s.forwarders, s.fws, s.entries, s.dead)
    ensures var t := StartForwarder(s, id); FollowsOk(t.forwarders, t.fws, s.entries, s.dead)
  {
    if Live(s.entries, s.dead, id) {
      NewFollows(s.forwarders, s.fws, s.entries, s.dead, id);
    }
    hide FollowsOk;
  }

  lemma NewFollows(forwarders: map<Id, Fw>, fws: seq<Forwarder>, entries: map<Id, Sess>, dead: set<Sess>, id: Id)
    requires FollowsOk(forwarders, fws, entries, dead) && id in entries
    ensures FollowsOk(forwarders[id := |fws|], fws + [Forwarder(id, entries[id], true)], entries, dead)
  {
  }

  lemma StartFields(s: State, id: Id)
    ensures var t := StartForwarder(s, id);
      t == s.(forwarders := t.forwarders, fws := t.fws, missed := t.missed)
  {
  }

  lemma BootForwardExtra(s: State, fits: bool, s': State)
    requires Extra(s) && BootForwardStep(s, fits) == Some(s')
    ensures Extra(s')
  {
    hide NumbersOk, FollowsOk, StartForwarder;
    StartFollows(s, s.pc.ls.id);
    StartFields(s, s.pc.ls.id);
  }

  lemma AttachExtra(s: State, id: Id, s': State)
    requires Extra(s) && AttachStep(s, id) == Some(s')
    ensures Extra(s')
  {
    hide NumbersOk, FollowsOk;
    AttachServes(s, id, s');
    hide AttachStep;
  }

  lemma RetireFollows(forwarders: map<Id, Fw>, fws: seq<Forwarder>, entries: map<Id, Sess>, dead: set<Sess>, id: Id)
    requires FollowsOk(forwarders, fws, entries, dead)
    ensures FollowsOk(forwarders - {id}, fws, entries, dead)
  {
  }

  lemma ModesRetired(pc: Pc, pc': Pc, available: map<Id, Lazy>, lazyMap: map<Id, Lazy>, modes: map<Id, Mode>, id: Id)
    requires ModesOk(pc, available, lazyMap, modes) && !pc'.Announcing? && !pc'.Answering?
    ensures ModesOk(pc', available, if id in available then lazyMap[id := available[id]] else lazyMap, modes - {id})
  {
  }

  lemma RetireExtra(s: State, fits: bool, s': State)
    requires Extra(s) && RetireStep(s, fits) == Some(s')
    ensures Extra(s')
  {
    hide NumbersOk, FollowsOk, ModesOk;
    RetireFieldsOf(s, fits, s');
    hide RetireStep;
    var id := s.fws[s.pc.fw].id;
    RetireFollows(s.forwarders, s.fws, s.entries, s.dead, id);
    ModesRetired(s.pc, s'.pc, s.available, s.lazyMap, s.modes, id);
  }

  lemma RetireFieldsOf(s: State, fits: bool, s': State)
    requires RetireStep(s, fits) == Some(s')
    ensures s.pc.Finishing? && s.pc.fw < |s.fws|
    ensures var id := s.fws[s.pc.fw].id;
      s' == s.(forwarders := s.forwarders - {id}, modes := s.modes - {id}, gone := s.gone + {s.pc.fw},
               pc := if s.pc.attach.Some? then Attaching(s.pc.attach.value) else Idle,
               lazyMap := if id in s.available then s.lazyMap[id := s.available[id]] else s.lazyMap,
               sent := s'.sent, open := s'.open)
  {
  }

  lemma RegisterFollows(forwarders: map<Id, Fw>, fws: seq<Forwarder>, entries: map<Id, Sess>, dead: set<Sess>, id: Id, sess: Sess)
    requires FollowsOk(forwarders, fws, entries, dead) && id !in forwarders
    ensures FollowsOk(forwarders, fws, entries[id := sess], dead)
  {
  }

  lemma ActivateExtra(s: State, outcome: Outcome, fits: bool, s': State)
    requires Core(s) && Extra(s) && ActivateStep(s, outcome, fits) == Some(s')
    ensures Extra(s')
  {
    hide CatalogOk, KnownOk, ForwardersOk, MissedOk, ViewOk, PcOk, FollowsOk;
    var id := s.pc.id;
    if id in s.lazyMap {
      assert !Live(s.entries, s.dead, id) && id !in s.forwarders;
      match outcome
      case Spawns => RegisterFollows(s.forwarders, s.fws, s.entries, s.dead, id, s.next);
      case Shares(sess) => RegisterFollows(s.forwarders, s.fws, s.entries, s.dead, id, sess);
      case Fails =>
    }
  }

  lemma ForwardExtra(s: State, s': State)
    requires Extra(s) && ForwardStep(s) == Some(s')
    ensures Extra(s')
  {
    hide NumbersOk, FollowsOk, StartForwarder;
    StartFollows(s, s.pc.ls.id);
    StartFields(s, s.pc.ls.id);
  }

  lemma AnnounceExtra(s: State, fits: bool, s': State)
    requires Extra(s) && AnnounceStep(s, fits) == Some(s')
    ensures Extra(s')
  {
    hide NumbersOk, FollowsOk;
  }

  lemma AnswerExtra(s: State, fits: bool, s': State)
    requires Extra(s) && AnswerStep(s, fits) == Some(s')
    ensures s'.open ==> Extra(s')
  {
    hide NumbersOk, FollowsOk;
    AnswerFieldsOf(s, fits, s');
    hide AnswerStep;
  }

  lemma AnswerFieldsOf(s: State, fits: bool, s': State)
    requires AnswerStep(s, fits) == Some(s')
    ensures s' == s.(pc := if s'.open then Idle else s'.pc, sent := s'.sent, asked := s'.asked, open := s'.open)
  {
    hide SendAll;
    SendShape(s.(pc := Idle), [EmptySnapshot(s.pc.id)], fits);
  }

  lemma SendShape(s: State, ms: seq<Msg>, fits: bool)
    ensures var t := SendAll(s, ms, fits); t == s.(sent := t.sent, open := t.open)
    ensures SendAll(s, ms, fits).open ==> s.open
  {
  }

  lemma ChangeExtra(s: State, fits: bool, s': State)
    requires Extra(s) && ChangeStep(s, fits) == Some(s')
    ensures Extra(s')
  {
    hide ModesOk, NumbersOk, FollowsOk;
    ChangeFields(s, fits, s');
    hide ChangeStep;
    match s.changes[0]
    case Removed(id) => ModesRemoved(s.pc, s.pc, s.available, s.lazyMap, s.modes, id);
    case Added(ls) => ModesAdded(s.pc, s.pc, s.available, s.lazyMap, s.modes, ls, false);
  }

  lemma ChangeFields(s: State, fits: bool, s': State)
    requires ChangeStep(s, fits) == Some(s')
    ensures s.changes != [] && s.pc.Idle?
    ensures match s.changes[0]
      case Removed(id) =>
        s' == s.(changes := s.changes[1..], sent := s'.sent, open := s'.open,
                 lazyMap := s.lazyMap - {id}, available := s.available - {id}, modes := s.modes - {id})
      case Added(ls) =>
        s' == s.(changes := s.changes[1..], sent := s'.sent, open := s'.open, known := s'.known,
                 available := s.available[ls.id := ls], lazyMap := s.lazyMap[ls.id := ls])
  {
  }

  lemma EndedExtra(s: State, s': State)
    requires Extra(s) && EndedStep(s) == Some(s')
    ensures Extra(s')
  {
    hide NumbersOk, FollowsOk;
  }

  lemma ForwarderExtra(s: State, fw: Fw, s': State)
    requires Extra(s) && (SendsStep(s, fw) == Some(s') || NotifiesStep(s, fw) == Some(s'))
    ensures Extra(s')
  {
    hide NumbersOk, FollowsOk, ModesOk;
  }

  lemma StopsExtra(s: State, fw: Fw, s': State)
    requires Extra(s) && StopsStep(s, fw) == Some(s')
    ensures Extra(s')
  {
    hide NumbersOk, ModesOk;
  }

  lemma RegistryExtra(s: State, a: Action, s': State)
    requires Extra(s) && RegistryStep(s, a) == Some(s')
    ensures Extra(s')
  {
    hide ModesOk;
  }

  lemma PublishExtra(s: State, change: Change, s': State)
    requires Extra(s) && PublishStep(s, change) == Some(s')
    ensures Extra(s')
  {
    hide NumbersOk, FollowsOk, ModesOk;
  }

  lemma StepExtra(s: State, a: Action, s': State)
    requires Core(s) && Extra(s) && Step(s, a) == Some(s') && s'.open
    ensures Extra(s')
  {
    hide Core, Extra;
    match a
    case Boot(fits) => BootExtra(s, fits, s');
    case BootForward(fits) => BootForwardExtra(s, fits, s');
    case OnAttach(id) => AttachExtra(s, id, s');
    case Retire(fits) => RetireExtra(s, fits, s');
    case Activate(outcome, fits) => ActivateExtra(s, outcome, fits, s');
    case Forward => ForwardExtra(s, s');
    case Announce(fits) => AnnounceExtra(s, fits, s');
    case Answer(fits) => AnswerExtra(s, fits, s');
    case OnChange(fits) => ChangeExtra(s, fits, s');
    case OnEnded => EndedExtra(s, s');
    case ForwarderSends(fw) => ForwarderExtra(s, fw, s');
    case ForwarderStops(fw) => StopsExtra(s, fw, s');
    case ForwarderNotifies(fw) => ForwarderExtra(s, fw, s');
    case Publish(change) => PublishExtra(s, change, s');
    case _ => RegistryExtra(s, a, s');
  }

  lemma InitExtra(s: State)
    requires Init(s)
    ensures Extra(s)
  {
  }

  lemma {:induction false} RunExtra(s0: State, acts: seq<Action>)
    requires Init(s0)
    ensures var r := Exec(s0, acts); r.Some? && r.value.open ==> Extra(r.value) && Core(r.value)
  {
    hide Step, Extra, Core, OrderOk;
    RunKeeps(s0, acts);
    if acts == [] {
      InitExtra(s0);
    } else {
      var init, a := acts[..|acts| - 1], acts[|acts| - 1];
      RunExtra(s0, init);
      var p := Exec(s0, init);
      if p.Some? && Step(p.value, a).Some? && Step(p.value, a).value.open {
        StillOpen(p.value, a);
        StepExtra(p.value, a, Step(p.value, a).value);
      }
    }
  }

  lemma StillOpen(s: State, a: Action)
    requires Step(s, a).Some?
    ensures s.open
  {
    hide BootStep, BootForwardStep, AttachStep, RetireStep, ActivateStep, ForwardStep, AnnounceStep, AnswerStep,
         ChangeStep, EndedStep, SendsStep, StopsStep, NotifiesStep, RegistryStep, PublishStep;
  }

  /** No channel ever holds more than its room. */
  lemma {:induction false} ChannelsBounded(s0: State, acts: seq<Action>)
    requires Init(s0)
    ensures var r := Exec(s0, acts); r.Some? ==> |r.value.ended| <= ENDED_CAP && |r.value.changes| <= CHANGES_CAP
  {
    hide Step;
    if acts != [] {
      var init, a := acts[..|acts| - 1], acts[|acts| - 1];
      ChannelsBounded(s0, init);
      var p := Exec(s0, init);
      if p.Some? && Step(p.value, a).Some? {
        StepBounded(p.value, a, Step(p.value, a).value);
      }
    }
  }

  lemma StepBounded(s: State, a: Action, s': State)
    requires Step(s, a) == Some(s') && |s.ended| <= ENDED_CAP && |s.changes| <= CHANGES_CAP
    ensures |s'.ended| <= ENDED_CAP && |s'.changes| <= CHANGES_CAP
  {
    hide BootStep, BootForwardStep, AttachStep, RetireStep, ActivateStep, ForwardStep, AnnounceStep, AnswerStep,
         ChangeStep, EndedStep, SendsStep, StopsStep, NotifiesStep, RegistryStep, PublishStep;
    match a
    case Boot(fits) => BootFields(s, fits, s');
    case Retire(fits) => RetireFieldsOf(s, fits, s');
    case OnChange(fits) => ChangeChannel(s, fits, s');
    case ForwarderNotifies(fw) => NotifiesChannel(s, fw, s');
    case Publish(change) => PublishChannel(s, change, s');
    case OnEnded => EndedChannel(s, s');
    case OnAttach(id) => AttachServes(s, id, s');
    case Activate(outcome, fits) => ActivateChannel(s, outcome, fits, s');
    case BootForward(fits) => BootForwardChannel(s, fits, s');
    case Forward => ForwardChannel(s, s');
    case Announce(fits) => AnnounceChannel(s, fits, s');
    case Answer(fits) => AnswerFieldsOf(s, fits, s');
    case ForwarderSends(fw) => SendsChannel(s, fw, s');
    case ForwarderStops(fw) => StopsChannel(s, fw, s');
    case _ => RegistryChannel(s, a, s');
  }

  lemma ChangeChannel(s: State, fits: bool, s': State)
    requires ChangeStep(s, fits) == Some(s')
    ensures s'.ended == s.ended && s.changes != [] && s'.changes == s.changes[1..]
  {
    ChangeFields(s, fits, s');
    hide ChangeStep;
  }

  lemma NotifiesChannel(s: State, fw: Fw, s': State)
    requires NotifiesStep(s, fw) == Some(s')
    ensures s' == s.(ended := s.ended + [fw]) && |s.ended| < ENDED_CAP
  {
  }

  lemma PublishChannel(s: State, change: Change, s': State)
    requires PublishStep(s, change) == Some(s')
    ensures s' == s.(changes := s.changes + [change]) && |s.changes| < CHANGES_CAP
  {
  }

  lemma EndedChannel(s: State, s': State)
    requires EndedStep(s) == Some(s')
    ensures s.ended != [] && s' == s.(ended := s.ended[1..], pc := s'.pc)
  {
  }

  lemma ActivateChannel(s: State, outcome: Outcome, fits: bool, s': State)
    requires ActivateStep(s, outcome, fits) == Some(s')
    ensures s'.ended == s.ended && s'.changes == s.changes
  {
    hide SendAll;
    var id := s.pc.id;
    SendChannel(s.(pc := Idle), [EmptySnapshot(id), SessionRemove(id, None), SessionAdd(id, false)], fits);
  }

  lemma SendChannel(s: State, ms: seq<Msg>, fits: bool)
    ensures SendAll(s, ms, fits).ended == s.ended && SendAll(s, ms, fits).changes == s.changes
  {
  }

  lemma BootForwardChannel(s: State, fits: bool, s': State)
    requires BootForwardStep(s, fits) == Some(s')
    ensures s'.ended == s.ended && s'.changes == s.changes
  {
    hide SendAll, StartForwarder;
    StartFields(s, s.pc.ls.id);
    SendChannel(StartForwarder(s, s.pc.ls.id).(pc := Booting(s.pc.rest)), [SessionAdd(s.pc.ls.id, true)], fits);
  }

  lemma ForwardChannel(s: State, s': State)
    requires ForwardStep(s) == Some(s')
    ensures s'.ended == s.ended && s'.changes == s.changes
  {
    hide StartForwarder;
    StartFields(s, s.pc.ls.id);
  }

  lemma AnnounceChannel(s: State, fits: bool, s': State)
    requires AnnounceStep(s, fits) == Some(s')
    ensures s' == s.(pc := s'.pc, lazyMap := s'.lazyMap, sent := s'.sent, open := s'.open)
  {
  }

  lemma SendsChannel(s: State, fw: Fw, s': State)
    requires SendsStep(s, fw) == Some(s')
    ensures s' == s.(sent := s'.sent)
  {
  }

  lemma StopsChannel(s: State, fw: Fw, s': State)
    requires StopsStep(s, fw) == Some(s')
    ensures s' == s.(fws := s'.fws)
  {
  }

  /** What the parties around the registry do to it: a death ends one session, a cleanup forgets an id
      whose session has ended, a removal forgets an id and ends its session; nothing else changes. */
  lemma RegistryChannel(s: State, a: Action, s': State)
    requires RegistryStep(s, a) == Some(s')
    ensures s' == s.(entries := s'.entries, dead := s'.dead)
    ensures match a
      case Dies(sess) => s'.entries == s.entries && s'.dead == s.dead + {sess}
      case Cleanup(id) => id in s.entries && s.entries[id] in s.dead && s'.entries == s.entries - {id} && s'.dead == s.dead
      case RegistryRemove(id) => id in s.entries && s'.entries == s.entries - {id} && s'.dead == s.dead + {s.entries[id]}
      case _ => false
  {
  }

  // ---- a full queue -------------------------------------------------------------------------------

  /** The action with room for its messages, or without. */
  function WithRoom(a: Action, fits: bool): Action
  {
    match a
    case Boot(_) => Boot(fits)
    case BootForward(_) => BootForward(fits)
    case Retire(_) => Retire(fits)
    case Activate(outcome, _) => Activate(outcome, fits)
    case Announce(_) => Announce(fits)
    case Answer(_) => Answer(fits)
    case OnChange(_) => OnChange(fits)
    case _ => a
  }

  /** Nothing went out, and if something should have, the connection is closed. */
  ghost predicate Refuses(s: State, t: State, u: State)
  {
    && u.sent == s.sent && u.asked == s.asked
    && (u.open <==> t.sent == s.sent && t.asked == s.asked)
  }

  lemma SendRefuses(s: State, ms: seq<Msg>)
    requires s.open && ms != []
    ensures Refuses(s, SendAll(s, ms, true), SendAll(s, ms, false))
  {
    assert |s.sent + ms| > |s.sent|;
  }

  lemma SendOnly(s: State, r: State, ms: seq<Msg>)
    requires r.sent == s.sent && r.asked == s.asked && r.open && ms != []
    ensures Refuses(s, SendAll(r, ms, true), SendAll(r, ms, false))
  {
    SendRefuses(r, ms);
    hide SendAll;
  }

  lemma BootRefuses(s: State, t: State, u: State)
    requires s.open && BootStep(s, true) == Some(t) && BootStep(s, false) == Some(u)
    ensures Refuses(s, t, u)
  {
    hide SendAll;
    if s.pc.rest != [] && !Live(s.entries, s.dead, s.pc.rest[0].id) {
      var ls := s.pc.rest[0];
      var r := s.(available := s.available[ls.id := ls]);
      SendOnly(s, r.(lazyMap := s.lazyMap[ls.id := ls], pc := Booting(s.pc.rest[1..])), [SessionAdd(ls.id, false)]);
    }
  }

  lemma BootForwardRefuses(s: State, t: State, u: State)
    requires s.open && BootForwardStep(s, true) == Some(t) && BootForwardStep(s, false) == Some(u)
    ensures Refuses(s, t, u)
  {
    hide SendAll, StartForwarder;
    StartFields(s, s.pc.ls.id);
    SendOnly(s, StartForwarder(s, s.pc.ls.id).(pc := Booting(s.pc.rest)), [SessionAdd(s.pc.ls.id, true)]);
  }

  lemma RetireRefuses(s: State, t: State, u: State)
    requires s.open && RetireStep(s, true) == Some(t) && RetireStep(s, false) == Some(u)
    ensures Refuses(s, t, u)
  {
    hide SendAll;
    var fw := s.pc.fw;
    var id, pc := s.fws[fw].id, if s.pc.attach.Some? then Attaching(s.pc.attach.value) else Idle;
    var r := s.(forwarders := s.forwarders - {id}, modes := s.modes - {id}, gone := s.gone + {fw}, pc := pc);
    if id in s.available {
      SendOnly(s, r.(lazyMap := s.lazyMap[id := s.available[id]]), [SessionRemove(id, Some(fw)), SessionAdd(id, false)]);
    } else {
      SendOnly(s, r, [SessionRemove(id, Some(fw))]);
    }
  }

  lemma ActivateRefuses(s: State, outcome: Outcome, t: State, u: State)
    requires s.open && ActivateStep(s, outcome, true) == Some(t) && ActivateStep(s, outcome, false) == Some(u)
    ensures Refuses(s, t, u)
  {
    hide SendAll;
    var id := s.pc.id;
    SendOnly(s, s.(pc := Idle), [EmptySnapshot(id), SessionRemove(id, None), SessionAdd(id, false)]);
  }

  lemma AnnounceRefuses(s: State, t: State, u: State)
    requires s.open && AnnounceStep(s, true) == Some(t) && AnnounceStep(s, false) == Some(u)
    ensures Refuses(s, t, u)
  {
    hide SendAll;
    SendOnly(s, s.(lazyMap := s.lazyMap - {s.pc.ls.id}, pc := Answering(s.pc.ls.id)), [SessionAdd(s.pc.ls.id, true)]);
  }

  lemma AnswerRefuses(s: State, t: State, u: State)
    requires s.open && AnswerStep(s, true) == Some(t) && AnswerStep(s, false) == Some(u)
    ensures Refuses(s, t, u)
  {
    hide SendAll;
    var id := s.pc.id;
    if Live(s.entries, s.dead, id) && id in s.forwarders {
      assert |t.asked| > |s.asked|;
    } else {
      SendOnly(s, s.(pc := Idle), [EmptySnapshot(id)]);
    }
  }

  lemma ChangeRefuses(s: State, t: State, u: State)
    requires s.open && ChangeStep(s, true) == Some(t) && ChangeStep(s, false) == Some(u)
    ensures Refuses(s, t, u)
  {
    hide SendAll;
    var r := s.(changes := s.changes[1..]);
    match s.changes[0]
    case Removed(id) =>
      SendOnly(s, r.(lazyMap := s.lazyMap - {id}, available := s.available - {id}, modes := s.modes - {id}),
               [SessionRemove(id, None)]);
    case Added(ls) =>
      SendOnly(s, r.(available := s.available[ls.id := ls], lazyMap := s.lazyMap[ls.id := ls], known := s.known + {ls.id}),
               [SessionAdd(ls.id, false)]);
  }

  /** A full queue drops nothing silently: whatever the main loop is doing, when there is no room for what it
      sends or requests, nothing goes out and the connection closes; it stays open only if there was nothing
      to send. */
  lemma FullQueueCloses(s: State, a: Action, t: State, u: State)
    requires Step(s, WithRoom(a, true)) == Some(t) && Step(s, WithRoom(a, false)) == Some(u)
    requires a.Boot? || a.BootForward? || a.Retire? || a.Activate? || a.Announce? || a.Answer? || a.OnChange?
    ensures Refuses(s, t, u)
  {
    StillOpen(s, WithRoom(a, true));
    hide Refuses, BootStep, BootForwardStep, RetireStep, ActivateStep, AnnounceStep, AnswerStep, ChangeStep;
    match a
    case Boot(_) => BootRefuses(s, t, u);
    case BootForward(_) => BootForwardRefuses(s, t, u);
    case Retire(_) => RetireRefuses(s, t, u);
    case Activate(outcome, _) => ActivateRefuses(s, outcome, t, u);
    case Announce(_) => AnnounceRefuses(s, t, u);
    case Answer(_) => AnswerRefuses(s, t, u);
    case OnChange(_) => ChangeRefuses(s, t, u);
  }

  // ---- remote input -------------------------------------------------------------------------------

  /** Exactly which remote input is let through, whenever the main loop looks at its messages: for the
      entries the relay lists as active, what their own mode allows. */
  lemma InputExactly(s0: State, acts: seq<Action>, id: Id, data: seq<byte>)
    requires Init(s0) && Exec(s0, acts).Some?
    requires var s := Exec(s0, acts).value; s.open && s.pc.Idle?
    ensures var s := Exec(s0, acts).value;
      var active := id in View(s.sent) && View(s.sent)[id];
      && (active ==> id in s.available)
      && (InputAllowed(ModeOf(s, id), data) <==>
            active && (s.available[id].mode == Full || (s.available[id].mode == Approved && data in APPROVED)))
      && (ResizeAllowed(ModeOf(s, id)) <==> active && s.available[id].mode != Readonly)
  {
    RunExtra(s0, acts);
    RelayViewMatches(s0, acts);
    hide ForwardersOk, MissedOk, KnownOk, ViewOk, PcOk, NumbersOk, FollowsOk, Exec;
  }

  // ---- every attach is answered once -----------------------------------------------------------------

  /** How often id was attached to. */
  function Attaches(acts: seq<Action>, id: Id): nat
  {
    if acts == [] then 0
    else Attaches(acts[..|acts| - 1], id) + if acts[|acts| - 1] == OnAttach(id) then 1 else 0
  }

  function EmptyReplays(ms: seq<Msg>, id: Id): nat
  {
    if ms == [] then 0 else EmptyReplays(ms[..|ms| - 1], id) + if ms[|ms| - 1] == EmptySnapshot(id) then 1 else 0
  }

  function Requests(asked: seq<(Id, Fw)>, id: Id): nat
  {
    if asked == [] then 0 else Requests(asked[..|asked| - 1], id) + if asked[|asked| - 1].0 == id then 1 else 0
  }

  /** The attach the main loop is working on. */
  function Serving(pc: Pc): Option<Id>
  {
    match pc
    case Finishing(_, attach) => attach
    case Attaching(id) => Some(id)
    case Starting(ls) => Some(ls.id)
    case Announcing(ls) => Some(ls.id)
    case Answering(id) => Some(id)
    case _ => None
  }

  /** Attaches to id that were answered or are being served. */
  function Handled(pc: Pc, sent: seq<Msg>, asked: seq<(Id, Fw)>, id: Id): nat
  {
    EmptyReplays(sent, id) + Requests(asked, id) + if Serving(pc) == Some(id) then 1 else 0
  }

  lemma {:induction false} EmptyReplaysAppend(xs: seq<Msg>, ys: seq<Msg>, id: Id)
    ensures EmptyReplays(xs + ys, id) == EmptyReplays(xs, id) + EmptyReplays(ys, id)
  {
    if ys == [] {
      assert xs + ys == xs;
    } else {
      var k := |ys| - 1;
      assert (xs + ys)[..|xs| + k] == xs + ys[..k];
      EmptyReplaysAppend(xs, ys[..k], id);
    }
  }

  lemma {:induction false} NoReplays(ms: seq<Msg>, id: Id)
    requires EmptySnapshot(id) !in ms
    ensures EmptyReplays(ms, id) == 0
  {
    if ms != [] {
      NoReplays(ms[..|ms| - 1], id);
    }
  }

  lemma RequestsSnoc(asked: seq<(Id, Fw)>, x: (Id, Fw), id: Id)
    ensures Requests(asked + [x], id) == Requests(asked, id) + if x.0 == id then 1 else 0
  {
    assert (asked + [x])[..|asked|] == asked;
  }

  /** The step sends no empty replay, requests nothing and goes on serving the same attach. */
  ghost predicate Neutral(s: State, s': State)
  {
    && s'.asked == s.asked && Serving(s'.pc) == Serving(s.pc)
    && exists ms :: s'.sent == s.sent + ms && NoEmpty(ms)
  }

  predicate NoEmpty(ms: seq<Msg>) { forall i :: 0 <= i < |ms| ==> !ms[i].EmptySnapshot? }

  lemma SentMore(s: State, ms: seq<Msg>, fits: bool)
    requires SendAll(s, ms, fits).open && NoEmpty(ms)
    ensures var t := SendAll(s, ms, fits);
      t.asked == s.asked && t.pc == s.pc && exists more :: t.sent == s.sent + more && NoEmpty(more)
  {
    assert SendAll(s, ms, fits).sent == s.sent + ms;
  }

  lemma NothingSent(s: State, s': State)
    requires s'.sent == s.sent && s'.asked == s.asked && Serving(s'.pc) == Serving(s.pc)
    ensures Neutral(s, s')
  {
    assert s.sent == s.sent + [] && NoEmpty([]);
  }

  lemma BootNeutral(s: State, fits: bool, s': State)
    requires s.open && BootStep(s, fits) == Some(s') && s'.open
    ensures Neutral(s, s')
  {
    hide SendAll;
    if s.pc.rest == [] || Live(s.entries, s.dead, s.pc.rest[0].id) {
      NothingSent(s, s');
    } else {
      var ls := s.pc.rest[0];
      SentMore(s.(available := s.available[ls.id := ls]).(lazyMap := s.lazyMap[ls.id := ls], pc := Booting(s.pc.rest[1..])),
               [SessionAdd(ls.id, false)], fits);
    }
  }

  lemma BootForwardNeutral(s: State, fits: bool, s': State)
    requires s.open && BootForwardStep(s, fits) == Some(s') && s'.open
    ensures Neutral(s, s')
  {
    hide SendAll, StartForwarder;
    StartFields(s, s.pc.ls.id);
    SentMore(StartForwarder(s, s.pc.ls.id).(pc := Booting(s.pc.rest)), [SessionAdd(s.pc.ls.id, true)], fits);
  }

  lemma RetireNeutral(s: State, fits: bool, s': State)
    requires s.open && RetireStep(s, fits) == Some(s') && s'.open
    ensures Neutral(s, s')
  {
    hide SendAll;
    var fw := s.pc.fw;
    var id, pc := s.fws[fw].id, if s.pc.attach.Some? then Attaching(s.pc.attach.value) else Idle;
    var t := s.(forwarders := s.forwarders - {id}, modes := s.modes - {id}, gone := s.gone + {fw}, pc := pc);
    if id in s.available {
      SentMore(t.(lazyMap := s.lazyMap[id := s.available[id]]), [SessionRemove(id, Some(fw)), SessionAdd(id, false)], fits);
    } else {
      SentMore(t, [SessionRemove(id, Some(fw))], fits);
    }
  }

  lemma ForwardNeutral(s: State, s': State)
    requires ForwardStep(s) == Some(s')
    ensures Neutral(s, s')
  {
    hide StartForwarder;
    StartFields(s, s.pc.ls.id);
    NothingSent(s, s');
  }

  lemma AnnounceNeutral(s: State, fits: bool, s': State)
    requires s.open && AnnounceStep(s, fits) == Some(s') && s'.open
    ensures Neutral(s, s')
  {
    hide SendAll;
    SentMore(s.(lazyMap := s.lazyMap - {s.pc.ls.id}, pc := Answering(s.pc.ls.id)), [SessionAdd(s.pc.ls.id, true)], fits);
  }

  lemma ChangeNeutral(s: State, fits: bool, s': State)
    requires s.open && ChangeStep(s, fits) == Some(s') && s'.open
    ensures Neutral(s, s')
  {
    hide SendAll;
    var t := s.(changes := s.changes[1..]);
    match s.changes[0]
    case Removed(id) =>
      SentMore(t.(lazyMap := s.lazyMap - {id}, available := s.available - {id}, modes := s.modes - {id}),
               [SessionRemove(id, None)], fits);
    case Added(ls) =>
      SentMore(t.(available := s.available[ls.id := ls], lazyMap := s.lazyMap[ls.id := ls], known := s.known + {ls.id}),
               [SessionAdd(ls.id, false)], fits);
  }

  lemma ForwarderNeutral(s: State, fw: Fw, s': State)
    requires SendsStep(s, fw) == Some(s')
    ensures Neutral(s, s')
  {
    var ms := [FromForwarder(s.fws[fw].id, fw)];
    assert s'.sent == s.sent + ms && NoEmpty(ms);
  }

  lemma OtherNeutral(s: State, a: Action, s': State)
    requires Step(s, a) == Some(s')
    requires a.OnEnded? || a.ForwarderStops? || a.ForwarderNotifies? || a.Dies? || a.Cleanup? || a.RegistryRemove? || a.Publish?
    ensures Neutral(s, s')
  {
    hide Neutral;
    NothingSent(s, s');
  }

  lemma NeutralHandles(s: State, s': State, id: Id)
    requires Neutral(s, s')
    ensures Handled(s'.pc, s'.sent, s'.asked, id) == Handled(s.pc, s.sent, s.asked, id)
  {
    var ms :| s'.sent == s.sent + ms && NoEmpty(ms);
    hide EmptyReplays, Requests;
    NoReplays(ms, id);
    EmptyReplaysAppend(s.sent, ms, id);
  }

  lemma AttachHandles(s: State, a: Id, s': State, id: Id)
    requires AttachStep(s, a) == Some(s')
    ensures Handled(s'.pc, s'.sent, s'.asked, id) == Handled(s.pc, s.sent, s.asked, id) + if a == id then 1 else 0
  {
    hide EmptyReplays, Requests;
    AttachServes(s, a, s');
    hide AttachStep;
  }

  lemma AttachServes(s: State, a: Id, s': State)
    requires AttachStep(s, a) == Some(s')
    ensures s.pc.Idle? && s' == s.(pc := s'.pc) && (s'.pc == Attaching(a) || (s'.pc.Finishing? && s'.pc.attach == Some(a)))
  {
  }

  lemma RejectHandles(sent: seq<Msg>, x: Id, id: Id)
    ensures EmptyReplays(sent + [EmptySnapshot(x), SessionRemove(x, None), SessionAdd(x, false)], id)
         == EmptyReplays(sent, id) + if x == id then 1 else 0
  {
    var ms, rest := [EmptySnapshot(x)], [SessionRemove(x, None), SessionAdd(x, false)];
    assert sent + [EmptySnapshot(x), SessionRemove(x, None), SessionAdd(x, false)] == sent + ms + rest;
    NoReplays(rest, id);
    EmptyReplaysAppend(sent + ms, rest, id);
    EmptyReplaysAppend(sent, ms, id);
    assert ms[..0] == [];
  }

  lemma ActivateHandles(s: State, outcome: Outcome, fits: bool, s': State, id: Id)
    requires Core(s) && s.open && ActivateStep(s, outcome, fits) == Some(s') && s'.open
    ensures Handled(s'.pc, s'.sent, s'.asked, id) == Handled(s.pc, s.sent, s.asked, id)
  {
    hide KnownOk, LazyOk, ForwardersOk, MissedOk, ViewOk, PcOk, EmptyReplays, Requests;
    RejectHandles(s.sent, s.pc.id, id);
    assert s.pc.id in s.lazyMap ==> s.lazyMap[s.pc.id].id == s.pc.id;
    hide CatalogOk;
  }

  lemma AnswerHandles(s: State, fits: bool, s': State, id: Id)
    requires s.open && AnswerStep(s, fits) == Some(s') && s'.open
    ensures Handled(s'.pc, s'.sent, s'.asked, id) == Handled(s.pc, s.sent, s.asked, id)
  {
    hide EmptyReplays, Requests;
    var x := s.pc.id;
    if Live(s.entries, s.dead, x) && x in s.forwarders {
      RequestsSnoc(s.asked, (x, s.forwarders[x]), id);
    } else {
      OneReplay(s.sent, x, id);
    }
  }

  lemma OneReplay(sent: seq<Msg>, x: Id, id: Id)
    ensures EmptyReplays(sent + [EmptySnapshot(x)], id) == EmptyReplays(sent, id) + if x == id then 1 else 0
  {
    assert (sent + [EmptySnapshot(x)])[..|sent|] == sent;
  }

  lemma StepHandles(s: State, a: Action, s': State, id: Id)
    requires Core(s) && Step(s, a) == Some(s') && s'.open
    ensures Handled(s'.pc, s'.sent, s'.asked, id) == Handled(s.pc, s.sent, s.asked, id) + if a == OnAttach(id) then 1 else 0
  {
    hide Core, Neutral, Handled, BootStep, BootForwardStep, AttachStep, RetireStep, ActivateStep, ForwardStep, AnnounceStep, AnswerStep,
         ChangeStep, EndedStep, SendsStep, StopsStep, NotifiesStep, RegistryStep, PublishStep;
    match a
    case OnAttach(x) => AttachHandles(s, x, s', id);
    case Activate(outcome, fits) => ActivateHandles(s, outcome, fits, s', id);
    case Answer(fits) => AnswerHandles(s, fits, s', id);
    case _ =>
      StepNeutral(s, a, s');
      NeutralHandles(s, s', id);
  }

  lemma StepNeutral(s: State, a: Action, s': State)
    requires Step(s, a) == Some(s') && s'.open && !a.OnAttach? && !a.Activate? && !a.Answer?
    ensures Neutral(s, s')
  {
    hide Neutral, BootStep, BootForwardStep, AttachStep, RetireStep, ActivateStep, ForwardStep, AnnounceStep, AnswerStep,
         ChangeStep, EndedStep, SendsStep, StopsStep, NotifiesStep, RegistryStep, PublishStep;
    match a
    case Boot(fits) => BootNeutral(s, fits, s');
    case BootForward(fits) => BootForwardNeutral(s, fits, s');
    case Retire(fits) => RetireNeutral(s, fits, s');
    case Forward => ForwardNeutral(s, s');
    case Announce(fits) => AnnounceNeutral(s, fits, s');
    case OnChange(fits) => ChangeNeutral(s, fits, s');
    case ForwarderSends(fw) => ForwarderNeutral(s, fw, s');
    case _ => OtherNeutral(s, a, s');
  }

  /** Every attach is answered exactly once: over every run on an open connection, the attaches to an id
      are the empty replays sent for it, the snapshots requested for it, and the one being served. */
  lemma {:induction false} AttachesAnsweredOnce(s0: State, acts: seq<Action>, id: Id)
    requires Init(s0) && Exec(s0, acts).Some? && Exec(s0, acts).value.open
    ensures var s := Exec(s0, acts).value;
      Attaches(acts, id) == EmptyReplays(s.sent, id) + Requests(s.asked, id) + if Serving(s.pc) == Some(id) then 1 else 0
  {
    hide Step, Core, OrderOk;
    if acts != [] {
      var init, a := acts[..|acts| - 1], acts[|acts| - 1];
      var s := Exec(s0, init).value;
      StillOpen(s, a);
      RunKeeps(s0, init);
      AttachesAnsweredOnce(s0, init, id);
      StepHandles(s, a, Exec(s0, acts).value, id);
    }
  }

  /** Whom an attach is answered by. In every run, when the main loop answers: a live session with a
      forwarder is asked for its snapshot through that forwarder, which follows that very session. The
      replay is empty only if the session is gone, or if nothing forwards it, and that happens to a
      catalog entry only if its session was gone when startForwarder looked. */
  lemma AnsweredBy(s0: State, acts: seq<Action>, s': State)
    requires Init(s0) && Exec(s0, acts).Some?
    requires var s := Exec(s0, acts).value; s.pc.Answering? && Step(s, Answer(true)) == Some(s')
    ensures var s := Exec(s0, acts).value;
      var id := s.pc.id;
      if Live(s.entries, s.dead, id) && id in s.forwarders then
        && s'.asked == s.asked + [(id, s.forwarders[id])] && s'.sent == s.sent
        && s.forwarders[id] < |s.fws| && s.fws[s.forwarders[id]].id == id && s.fws[s.forwarders[id]].sess == s.entries[id]
      else
        && s'.asked == s.asked && s'.sent == s.sent + [EmptySnapshot(id)]
        && (!Live(s.entries, s.dead, id) || id !in s.available || LostSession(s0, acts, id))
  {
    var s := Exec(s0, acts).value;
    RunExtra(s0, acts);
    MissedWhen(s0, acts, s, s.pc.id);
    hide Exec, CatalogOk, KnownOk, LazyOk, ViewOk, PcOk, NumbersOk, FollowsOk, LostSession;
  }

  // ---- whole attaches ------------------------------------------------------------------------------

  lemma {:induction false} ExecAppend(s: State, xs: seq<Action>, ys: seq<Action>)
    ensures Exec(s, xs + ys) == if Exec(s, xs).None? then None else Exec(Exec(s, xs).value, ys)
  {
    hide Step;
    if ys == [] {
      assert xs + ys == xs;
    } else {
      var k := |ys| - 1;
      assert (xs + ys)[..|xs| + k] == xs + ys[..k];
      ExecAppend(s, xs, ys[..k]);
    }
  }

  /** Two more steps. */
  lemma ExecTwo(s0: State, acts: seq<Action>, s: State, a: Action, t: State, b: Action, u: State)
    requires Exec(s0, acts) == Some(s) && Step(s, a) == Some(t) && Step(t, b) == Some(u)
    ensures Exec(s0, acts + [a] + [b]) == Some(u) && Exec(s0, acts + [a]) == Some(t)
  {
    hide Step;
    ExecSnoc(s0, acts, s, a);
    ExecSnoc(s0, acts + [a], t, b);
  }

  /** From Attaching on, with an id that is lazy: activate, start the forwarder, announce, answer. */
  function ActivationSteps(outcome: Outcome): seq<Action> { [] + [Activate(outcome, true)] + [Forward] + [Announce(true)] + [Answer(true)] }

  /** What a successful activation leaves behind. */
  ghost predicate Activated(s: State, s': State, id: Id)
  {
    && s'.pc.Idle? && s'.open && s'.available == s.available && s'.changes == s.changes && s'.dead == s.dead
    && id in s.lazyMap && s'.lazyMap == s.lazyMap - {id}
    && s'.modes == s.modes[id := s.lazyMap[id].mode]
    && Live(s'.entries, s'.dead, id) && s'.forwarders == s.forwarders[id := |s.fws|]
    && s'.fws == s.fws + [Forwarder(id, s'.entries[id], true)]
    && s'.sent == s.sent + [SessionAdd(id, true)] && s'.asked == s.asked + [(id, |s.fws|)]
  }

  /** activate succeeds with this session. */
  predicate Succeeds(s: State, outcome: Outcome)
  {
    match outcome
    case Fails => false
    case Spawns => s.next !in s.dead
    case Shares(sess) => sess in s.entries.Values && sess !in s.dead
  }

  lemma ActivateFields(s: State, outcome: Outcome, id: Id) returns (t: State)
    requires s.open && s.pc == Attaching(id) && id in s.lazyMap && s.lazyMap[id].id == id
    requires !Live(s.entries, s.dead, id) && Succeeds(s, outcome)
    ensures Step(s, Activate(outcome, true)) == Some(t)
    ensures t == s.(entries := t.entries, next := t.next, pc := Starting(s.lazyMap[id])) && Live(t.entries, t.dead, id)
  {
    t := ActivateStep(s, outcome, true).value;
  }

  lemma ForwardFields(s: State, ls: Lazy) returns (t: State)
    requires s.open && s.pc == Starting(ls) && Live(s.entries, s.dead, ls.id)
    ensures Step(s, Forward) == Some(t)
    ensures t == s.(forwarders := s.forwarders[ls.id := |s.fws|], fws := s.fws + [Forwarder(ls.id, s.entries[ls.id], true)],
                    modes := s.modes[ls.id := ls.mode], pc := Announcing(ls))
  {
    t := ForwardStep(s).value;
  }

  lemma AnnounceFields(s: State, ls: Lazy) returns (t: State)
    requires s.open && s.pc == Announcing(ls)
    ensures Step(s, Announce(true)) == Some(t)
    ensures t == s.(lazyMap := s.lazyMap - {ls.id}, pc := Answering(ls.id), sent := s.sent + [SessionAdd(ls.id, true)])
  {
    t := AnnounceStep(s, true).value;
  }

  lemma AnswerFields(s: State, id: Id) returns (t: State)
    requires s.open && s.pc == Answering(id) && Live(s.entries, s.dead, id) && id in s.forwarders
    ensures Step(s, Answer(true)) == Some(t)
    ensures t == s.(pc := Idle, asked := s.asked + [(id, s.forwarders[id])])
  {
    t := AnswerStep(s, true).value;
  }

  lemma Activation(s: State, outcome: Outcome, id: Id) returns (s': State)
    requires s.open && s.pc == Attaching(id) && id in s.lazyMap && s.lazyMap[id].id == id
    requires !Live(s.entries, s.dead, id) && Succeeds(s, outcome)
    ensures Exec(s, ActivationSteps(outcome)) == Some(s') && Activated(s, s', id)
  {
    hide Step, Succeeds;
    var t1 := ActivateFields(s, outcome, id);
    var t2 := ForwardFields(t1, s.lazyMap[id]);
    var t3 := AnnounceFields(t2, s.lazyMap[id]);
    s' := AnswerFields(t3, id);
    ExecTwo(s, [], s, Activate(outcome, true), t1, Forward, t2);
    ExecTwo(s, [] + [Activate(outcome, true)] + [Forward], t2, Announce(true), t3, Answer(true), s');
  }

  lemma AttachLazyFields(s: State, id: Id) returns (t: State)
    requires s.open && s.pc.Idle? && id !in s.forwarders
    ensures Step(s, OnAttach(id)) == Some(t) && t == s.(pc := Attaching(id))
  {
    t := AttachStep(s, id).value;
  }

  lemma LazyFacts(s: State, id: Id)
    requires Core(s) && s.pc.Idle? && id in s.lazyMap
    ensures id !in s.forwarders && !Live(s.entries, s.dead, id) && id in s.available && s.lazyMap[id] == s.available[id] && s.lazyMap[id].id == id
  {
    hide ForwardersOk, MissedOk, ViewOk, KnownOk, PcOk;
  }

  /** Attaching to a lazy entry, with an activate that succeeds: the main loop ends idle, the entry is
      forwarded from the new session, listed as active and has its mode, and the snapshot is requested
      through the new forwarder; no empty replay is sent. */
  lemma AttachActivates(s0: State, acts: seq<Action>, s: State, id: Id, outcome: Outcome) returns (s': State)
    requires Init(s0) && Exec(s0, acts) == Some(s) && s.open && s.pc.Idle? && id in s.lazyMap && Succeeds(s, outcome)
    ensures Exec(s0, acts + [OnAttach(id)] + ActivationSteps(outcome)) == Some(s') && Activated(s, s', id)
    ensures id in s.available && s'.modes[id] == s.available[id].mode
    ensures id in View(s'.sent) && View(s'.sent)[id]
  {
    hide Step, ActivationSteps, Core, Extra, OrderOk, Succeeds;
    RunKeeps(s0, acts);
    LazyFacts(s, id);
    var t := AttachLazyFields(s, id);
    SucceedsStill(s, t, outcome);
    s' := Activation(t, outcome, id);
    ExecSnoc(s0, acts, s, OnAttach(id));
    ExecAppend(s0, acts + [OnAttach(id)], ActivationSteps(outcome));
    RelayViewMatches(s0, acts + [OnAttach(id)] + ActivationSteps(outcome));
  }

  lemma SucceedsStill(s: State, t: State, outcome: Outcome)
    requires Succeeds(s, outcome) && t.entries == s.entries && t.dead == s.dead && t.next == s.next
    ensures Succeeds(t, outcome)
  {
  }

  /** A spawn always succeeds: the new session is a new one. */
  lemma SpawnSucceeds(s0: State, acts: seq<Action>, s: State)
    requires Init(s0) && Exec(s0, acts) == Some(s) && s.open
    ensures Succeeds(s, Spawns)
  {
    RunExtra(s0, acts);
    hide Exec, Core, ModesOk, FollowsOk;
  }

  lemma RetireFields(s: State, fw: Fw, id: Id) returns (t: State)
    requires s.open && fw < |s.fws| && !s.fws[fw].running && s.fws[fw].id == id && s.pc.Finishing? && s.pc.fw == fw
    ensures Step(s, Retire(true)) == Some(t)
    ensures t == s.(forwarders := s.forwarders - {id}, modes := s.modes - {id}, gone := s.gone + {fw}, lazyMap := t.lazyMap,
                    sent := t.sent, pc := if s.pc.attach.Some? then Attaching(s.pc.attach.value) else Idle)
    ensures t.lazyMap == (if id in s.available then s.lazyMap[id := s.available[id]] else s.lazyMap)
    ensures t.sent == s.sent + [SessionRemove(id, Some(fw))] + (if id in s.available then [SessionAdd(id, false)] else [])
  {
    t := RetireStep(s, true).value;
    assert s.sent + [SessionRemove(id, Some(fw)), SessionAdd(id, false)] == s.sent + [SessionRemove(id, Some(fw))] + [SessionAdd(id, false)];
    assert s.sent + [SessionRemove(id, Some(fw))] + [] == s.sent + [SessionRemove(id, Some(fw))];
  }

  lemma AttachEndedFields(s: State, id: Id) returns (t: State)
    requires s.open && s.pc.Idle? && id in s.forwarders && !Live(s.entries, s.dead, id)
    ensures Step(s, OnAttach(id)) == Some(t) && t == s.(pc := Finishing(s.forwarders[id], Some(id)))
  {
    t := AttachStep(s, id).value;
  }

  lemma EndedFacts(s: State, id: Id)
    requires Core(s) && s.pc.Idle? && id in s.forwarders && id in s.available
    ensures s.forwarders[id] < |s.fws| && s.fws[s.forwarders[id]].id == id && s.available[id].id == id && id !in s.lazyMap
  {
    hide MissedOk, ViewOk, KnownOk, PcOk;
  }

  /** Attaching to a catalog entry whose session has ended, before its end was noticed: the old forwarder
      is retired first, and the attach activates a new incarnation instead of being answered from a dead one. */
  lemma AttachRevives(s0: State, acts: seq<Action>, s: State, id: Id, outcome: Outcome) returns (s': State)
    requires Init(s0) && Exec(s0, acts) == Some(s) && s.open && s.pc.Idle?
    requires id in s.forwarders && id in s.available && !Live(s.entries, s.dead, id) && Succeeds(s, outcome)
    requires s.forwarders[id] < |s.fws| && !s.fws[s.forwarders[id]].running
    ensures Exec(s0, acts + [OnAttach(id)] + [Retire(true)] + ActivationSteps(outcome)) == Some(s')
    ensures s'.pc.Idle? && s'.open && Live(s'.entries, s'.dead, id)
    ensures s'.forwarders == s.forwarders[id := |s.fws|] && s'.fws == s.fws + [Forwarder(id, s'.entries[id], true)]
    ensures s'.asked == s.asked + [(id, |s.fws|)]
    ensures s'.sent == s.sent + [SessionRemove(id, Some(s.forwarders[id])), SessionAdd(id, false), SessionAdd(id, true)]
    ensures id in View(s'.sent) && View(s'.sent)[id] && id in s'.modes && s'.modes[id] == s.available[id].mode
  {
    hide Step, ActivationSteps, Core, Extra, OrderOk, Succeeds;
    RunKeeps(s0, acts);
    EndedFacts(s, id);
    var t := AttachEndedFields(s, id);
    var u := RetireFields(t, s.forwarders[id], id);
    SucceedsStill(s, u, outcome);
    s' := Activation(u, outcome, id);
    ExecTwo(s0, acts, s, OnAttach(id), t, Retire(true), u);
    ExecAppend(s0, acts + [OnAttach(id)] + [Retire(true)], ActivationSteps(outcome));
    RelayViewMatches(s0, acts + [OnAttach(id)] + [Retire(true)] + ActivationSteps(outcome));
  }

  // ---- ended sessions ------------------------------------------------------------------------------

  /** A forwarder whose session ended can stop and report itself. */
  lemma StopIsReported(s: State, fw: Fw) returns (t: State, u: State)
    requires s.open && fw < |s.fws| && s.fws[fw].running && s.fws[fw].sess in s.dead && |s.ended| < ENDED_CAP
    ensures Step(s, ForwarderStops(fw)) == Some(t) && Step(t, ForwarderNotifies(fw)) == Some(u)
    ensures u == s.(fws := s.fws[fw := s.fws[fw].(running := false)], ended := s.ended + [fw])
  {
    t := StopsStep(s, fw).value;
    u := NotifiesStep(t, fw).value;
  }

  lemma EndedFields(s: State) returns (t: State)
    requires s.open && s.pc.Idle? && s.ended != [] && s.ended[0] < |s.fws|
    ensures Step(s, OnEnded) == Some(t)
    ensures t == s.(ended := s.ended[1..], pc := if Current(s.forwarders, s.fws, s.ended[0]) then Finishing(s.ended[0], None) else Idle)
  {
    t := EndedStep(s).value;
  }

  lemma ReportFacts(s: State)
    requires Core(s) && s.ended != []
    ensures s.ended[0] < |s.fws| && !s.fws[s.ended[0]].running
  {
    hide CatalogOk, LazyOk, MissedOk, ViewOk, KnownOk, PcOk;
  }

  /** When the main loop reads the report of a current forwarder, it retires it: the id is not forwarded
      any more and has no input mode, and the relay lists it as inactive if it is still in the catalog, and
      not at all otherwise. A stale report is dropped and changes nothing else. */
  lemma EndedRetires(s0: State, acts: seq<Action>, s: State) returns (more: seq<Action>, s': State)
    requires Init(s0) && Exec(s0, acts) == Some(s) && s.open && s.pc.Idle? && s.ended != []
    ensures s.ended[0] < |s.fws| && Exec(s0, acts + more) == Some(s') && s'.open && s'.pc.Idle? && s'.ended == s.ended[1..]
    ensures var fw := s.ended[0]; var id := s.fws[fw].id;
      if Current(s.forwarders, s.fws, fw) then
        && s'.forwarders == s.forwarders - {id} && s'.modes == s.modes - {id} && s'.available == s.available
        && s'.sent == s.sent + [SessionRemove(id, Some(fw))] + (if id in s.available then [SessionAdd(id, false)] else [])
        && (if id in s.available then id in s'.lazyMap && id in View(s'.sent) && !View(s'.sent)[id] else id !in View(s'.sent))
      else s' == s.(ended := s.ended[1..])
  {
    hide Step, Core, OrderOk;
    RunKeeps(s0, acts);
    ReportFacts(s);
    var fw := s.ended[0];
    var id := s.fws[fw].id;
    var t := EndedFields(s);
    ExecSnoc(s0, acts, s, OnEnded);
    if Current(s.forwarders, s.fws, fw) {
      s' := RetireFields(t, fw, id);
      more := [OnEnded] + [Retire(true)];
      ExecTwo(s0, acts, s, OnEnded, t, Retire(true), s');
      assert acts + more == acts + [OnEnded] + [Retire(true)];
      RelayViewMatches(s0, acts + more);
    } else {
      more, s' := [OnEnded], t;
    }
  }

  /** A running forwarder may queue something at any time. */
  lemma RunningMaySend(s: State, fw: Fw)
    requires s.open && fw < |s.fws| && s.fws[fw].running
    ensures Step(s, ForwarderSends(fw)) == Some(s.(sent := s.sent + [FromForwarder(s.fws[fw].id, fw)]))
  {
  }

  /** What the other parties can do, and when: any session may die at any moment, a cleanup runs once its
      session has ended, a removal while the id is registered, a forwarder stops once its session has ended
      and reports when there is room. */
  lemma EnvironmentMay(s: State, fw: Fw, sess: Sess, id: Id)
    requires s.open
    ensures Step(s, Dies(sess)).Some? <==> sess < s.next
    ensures Step(s, Cleanup(id)).Some? <==> id in s.entries && s.entries[id] in s.dead
    ensures Step(s, RegistryRemove(id)).Some? <==> id in s.entries
    ensures Step(s, ForwarderSends(fw)).Some? <==> fw < |s.fws| && s.fws[fw].running
    ensures Step(s, ForwarderStops(fw)).Some? <==> fw < |s.fws| && s.fws[fw].running && s.fws[fw].sess in s.dead
    ensures Step(s, ForwarderNotifies(fw)).Some? <==> fw < |s.fws| && !s.fws[fw].running && |s.ended| < ENDED_CAP
  {
  }

  // ---- a lost session was there --------------------------------------------------------------------

  /** At some moment of the run a live session was registered for id. */
  ghost predicate WasLive(s0: State, acts: seq<Action>, id: Id)
  {
    exists j :: 0 <= j <= |acts| && LiveAt(s0, acts, j, id)
  }

  ghost predicate LiveAt(s0: State, acts: seq<Action>, j: nat, id: Id)
    requires j <= |acts|
  {
    var t := Exec(s0, acts[..j]);
    t.Some? && Live(t.value.entries, t.value.dead, id)
  }

  lemma LiveEarlier(s0: State, acts: seq<Action>, init: seq<Action>, id: Id)
    requires init <= acts && WasLive(s0, init, id)
    ensures WasLive(s0, acts, id)
  {
    var j :| 0 <= j <= |init| && LiveAt(s0, init, j, id);
    assert acts[..j] == init[..j];
    assert LiveAt(s0, acts, j, id);
  }

  lemma LiveNow(s0: State, acts: seq<Action>, s: State, id: Id)
    requires Exec(s0, acts) == Some(s) && Live(s.entries, s.dead, id)
    ensures WasLive(s0, acts, id)
  {
    assert acts[..|acts|] == acts;
    assert LiveAt(s0, acts, |acts|, id);
  }

  /** The id whose forwarder is about to be started. */
  function AboutToStart(pc: Pc): Option<Id>
  {
    match pc
    case BootStart(ls, _) => Some(ls.id)
    case Starting(ls) => Some(ls.id)
    case _ => None
  }

  lemma StartsLive(s: State, a: Action, s': State)
    requires Core(s) && Extra(s) && Step(s, a) == Some(s') && AboutToStart(s'.pc).Some?
    ensures var id := AboutToStart(s'.pc).value;
      AboutToStart(s.pc) == Some(id) || Live(s.entries, s.dead, id) || Live(s'.entries, s'.dead, id)
  {
    hide Core, Extra, BootStep, BootForwardStep, AttachStep, RetireStep, ActivateStep, ForwardStep, AnnounceStep, AnswerStep,
         ChangeStep, EndedStep, SendsStep, StopsStep, NotifiesStep, RegistryStep, PublishStep;
    match a
    case Boot(fits) => BootFields(s, fits, s');
    case BootForward(fits) => BootForwardPc(s, fits, s');
    case OnAttach(id) => AttachServes(s, id, s');
    case Retire(fits) => RetireFieldsOf(s, fits, s');
    case Activate(outcome, fits) => ActivateLive(s, outcome, fits, s');
    case Forward => ForwardPc(s, s');
    case Announce(fits) => AnnounceChannelPc(s, fits, s');
    case Answer(fits) => AnswerPc(s, fits, s');
    case OnChange(fits) => ChangeFields(s, fits, s');
    case OnEnded => EndedPc(s, s');
    case ForwarderSends(fw) => SendsChannel(s, fw, s');
    case ForwarderStops(fw) => StopsChannel(s, fw, s');
    case ForwarderNotifies(fw) => NotifiesChannel(s, fw, s');
    case Publish(change) => PublishChannel(s, change, s');
    case _ => RegistryChannel(s, a, s');
  }

  lemma BootForwardPc(s: State, fits: bool, s': State)
    requires BootForwardStep(s, fits) == Some(s')
    ensures s'.pc.Booting?
  {
    hide StartForwarder;
  }

  lemma ForwardPc(s: State, s': State)
    requires ForwardStep(s) == Some(s')
    ensures s'.pc.Announcing?
  {
    hide StartForwarder;
  }

  lemma AnnounceChannelPc(s: State, fits: bool, s': State)
    requires AnnounceStep(s, fits) == Some(s')
    ensures s'.pc.Answering?
  {
  }

  lemma AnswerPc(s: State, fits: bool, s': State)
    requires AnswerStep(s, fits) == Some(s')
    ensures s.pc.Answering? && (s'.pc == s.pc || s'.pc.Idle?)
  {
  }

  lemma EndedPc(s: State, s': State)
    requires EndedStep(s) == Some(s')
    ensures s'.pc.Idle? || s'.pc.Finishing?
  {
  }

  lemma ActivateLive(s: State, outcome: Outcome, fits: bool, s': State)
    requires Core(s) && Extra(s) && ActivateStep(s, outcome, fits) == Some(s') && AboutToStart(s'.pc).Some?
    ensures Live(s'.entries, s'.dead, AboutToStart(s'.pc).value)
  {
    assert s.pc.Attaching? && s.pc.id in s.lazyMap && s.lazyMap[s.pc.id].id == s.pc.id by {
      hide LazyOk, ForwardersOk, MissedOk, ViewOk, KnownOk, PcOk, Extra;
    }
    hide CatalogOk, LazyOk, ForwardersOk, MissedOk, ViewOk, KnownOk, PcOk, ModesOk, FollowsOk;
  }

  lemma {:induction false} StartedLive(s0: State, acts: seq<Action>, s: State)
    requires Init(s0) && Exec(s0, acts) == Some(s) && s.open && AboutToStart(s.pc).Some?
    ensures WasLive(s0, acts, AboutToStart(s.pc).value)
  {
    hide Step, Core, Extra, OrderOk, WasLive;
    if acts != [] {
      var init, a := acts[..|acts| - 1], acts[|acts| - 1];
      var t, id := Exec(s0, init).value, AboutToStart(s.pc).value;
      StillOpen(t, a);
      RunExtra(s0, init);
      StartsLive(t, a, s);
      if AboutToStart(t.pc) == Some(id) {
        StartedLive(s0, init, t);
        LiveEarlier(s0, acts, init, id);
      } else if Live(t.entries, t.dead, id) {
        LiveNow(s0, init, t, id);
        LiveEarlier(s0, acts, init, id);
      } else {
        LiveNow(s0, acts, s, id);
      }
    }
  }

  lemma {:induction false} PrefixRuns(s0: State, acts: seq<Action>, i: nat)
    requires Exec(s0, acts).Some? && i < |acts|
    ensures Exec(s0, acts[..i]).Some? && Step(Exec(s0, acts[..i]).value, acts[i]).Some?
  {
    hide Step;
    var init := acts[..|acts| - 1];
    if i < |init| {
      PrefixRuns(s0, init, i);
      assert init[..i] == acts[..i];
    }
  }

  /** An active entry that nothing forwards had a session: it was live and ended before startForwarder
      looked. An entry that never had one is never listed as active. */
  lemma LostAfterLive(s0: State, acts: seq<Action>, id: Id)
    requires Init(s0) && Exec(s0, acts).Some? && LostSession(s0, acts, id)
    ensures WasLive(s0, acts, id)
  {
    hide Step, WasLive, Live;
    var i :| 0 <= i < |acts| && LostAt(s0, acts, i, id);
    var t := Exec(s0, acts[..i]).value;
    PrefixRuns(s0, acts, i);
    StillOpen(t, acts[i]);
    StartedLive(s0, acts[..i], t);
    LiveEarlier(s0, acts, acts[..i], id);
  }

  // ---- the main loop never gets stuck ------------------------------------------------------------------

  lemma WaitsForEnded(s: State)
    requires Core(s) && Extra(s) && s.pc.Finishing?
    ensures s.pc.fw < |s.fws| && s.fws[s.pc.fw].sess in s.dead
  {
    hide CatalogOk, LazyOk, MissedOk, ViewOk, KnownOk, ModesOk, NumbersOk;
    var id := s.fws[s.pc.fw].id;
    assert id in s.forwarders && s.forwarders[id] == s.pc.fw;
  }

  /** finishSession never waits for a forwarder that goes on: its session has ended, so it can stop. */
  lemma FinishCanStop(s: State) returns (more: seq<Action>, s': State)
    requires s.open && s.pc.Finishing? && s.pc.fw < |s.fws| && s.fws[s.pc.fw].sess in s.dead
    ensures Exec(s, more) == Some(s') && s'.open && (s'.pc.Attaching? || s'.pc.Idle?)
  {
    hide Step;
    var fw, t, first := s.pc.fw, s, [];
    if s.fws[fw].running {
      t := StopFields(s, fw);
      first := [] + [ForwarderStops(fw)];
      ExecSnoc(s, [], s, ForwarderStops(fw));
    }
    s' := RetireFields(t, fw, t.fws[fw].id);
    ExecSnoc(s, first, t, Retire(true));
    more := first + [Retire(true)];
  }

  lemma StopFields(s: State, fw: Fw) returns (t: State)
    requires s.open && fw < |s.fws| && s.fws[fw].running && s.fws[fw].sess in s.dead
    ensures Step(s, ForwarderStops(fw)) == Some(t) && t == s.(fws := s.fws[fw := s.fws[fw].(running := false)])
  {
    t := StopsStep(s, fw).value;
  }

  /** What is left to do before the main loop looks at its channels again. */
  function Left(pc: Pc): (nat, nat)
  {
    match pc
    case Booting(rest) => (|rest| + 1, 0)
    case BootStart(_, rest) => (|rest| + 1, 1)
    case Idle => (0, 0)
    case Answering(_) => (0, 1)
    case Announcing(_) => (0, 2)
    case Starting(_) => (0, 3)
    case Attaching(_) => (0, 4)
    case Finishing(_, _) => (0, 5)
  }

  predicate Less(a: (nat, nat), b: (nat, nat)) { a.0 < b.0 || (a.0 == b.0 && a.1 < b.1) }

  /** The main loop's own next step, which always exists and brings it closer to its channels. */
  lemma NextStep(s: State) returns (a: Action, s': State)
    requires s.open && !s.pc.Idle? && !s.pc.Finishing?
    ensures Step(s, a) == Some(s') && s'.open && Less(Left(s'.pc), Left(s.pc)) && !s'.pc.Finishing?
  {
    match s.pc
    case Booting(_) =>
      a := Boot(true);
      s' := BootNext(s);
    case BootStart(_, _) =>
      a := BootForward(true);
      s' := BootForwardNext(s);
    case Attaching(_) =>
      a := Activate(Fails, true);
      s' := ActivateNext(s);
    case Starting(_) =>
      a := Forward;
      s' := ForwardNext(s);
    case Announcing(ls) =>
      a := Announce(true);
      s' := AnnounceFields(s, ls);
    case Answering(_) =>
      a := Answer(true);
      s' := AnswerNext(s);
  }

  lemma BootNext(s: State) returns (s': State)
    requires s.open && s.pc.Booting?
    ensures Step(s, Boot(true)) == Some(s') && s'.open && Less(Left(s'.pc), Left(s.pc)) && !s'.pc.Finishing?
  {
    s' := BootStep(s, true).value;
  }

  lemma BootForwardNext(s: State) returns (s': State)
    requires s.open && s.pc.BootStart?
    ensures Step(s, BootForward(true)) == Some(s') && s'.open && Less(Left(s'.pc), Left(s.pc)) && !s'.pc.Finishing?
  {
    hide StartForwarder;
    StartFields(s, s.pc.ls.id);
    s' := BootForwardStep(s, true).value;
  }

  lemma ActivateNext(s: State) returns (s': State)
    requires s.open && s.pc.Attaching?
    ensures Step(s, Activate(Fails, true)) == Some(s') && s'.open && Less(Left(s'.pc), Left(s.pc)) && !s'.pc.Finishing?
  {
    s' := ActivateStep(s, Fails, true).value;
  }

  lemma ForwardNext(s: State) returns (s': State)
    requires s.open && s.pc.Starting?
    ensures Step(s, Forward) == Some(s') && s'.open && Less(Left(s'.pc), Left(s.pc)) && !s'.pc.Finishing?
  {
    hide StartForwarder;
    StartFields(s, s.pc.ls.id);
    s' := ForwardStep(s).value;
  }

  lemma AnswerNext(s: State) returns (s': State)
    requires s.open && s.pc.Answering?
    ensures Step(s, Answer(true)) == Some(s') && s'.open && Less(Left(s'.pc), Left(s.pc)) && !s'.pc.Finishing?
  {
    s' := AnswerStep(s, true).value;
  }

  lemma {:induction false} GoesIdle(s: State) returns (more: seq<Action>, s': State)
    requires s.open && !s.pc.Finishing?
    ensures Exec(s, more) == Some(s') && s'.open && s'.pc.Idle?
    decreases Left(s.pc).0, Left(s.pc).1
  {
    hide Step;
    if s.pc.Idle? {
      more, s' := [], s;
    } else {
      var a, t := NextStep(s);
      more, s' := GoesIdle(t);
      ExecSnoc(s, [], s, a);
      ExecAppend(s, [] + [a], more);
      more := [] + [a] + more;
    }
  }

  /** From every reachable state of an open connection with room for its messages, the main loop gets back
      to its channels by its own steps; where it waits for a forwarder, that forwarder can stop. */
  lemma NeverStuck(s0: State, acts: seq<Action>) returns (more: seq<Action>, s': State)
    requires Init(s0) && Exec(s0, acts).Some? && Exec(s0, acts).value.open
    ensures Exec(s0, acts + more) == Some(s') && s'.open && s'.pc.Idle?
  {
    hide Step, Core, Extra, OrderOk;
    var s := Exec(s0, acts).value;
    RunExtra(s0, acts);
    if s.pc.Finishing? {
      WaitsForEnded(s);
      var first, t := FinishCanStop(s);
      var rest;
      rest, s' := GoesIdle(t);
      ExecAppend(s, first, rest);
      more := first + rest;
    } else {
      more, s' := GoesIdle(s);
    }
    ExecAppend(s0, acts, more);
  }

  /** At its channels it takes whatever is there: an attach at any time, a pending change, a pending report. */
  lemma TakesAnything(s: State, id: Id)
    requires s.open && s.pc.Idle?
    ensures Step(s, OnAttach(id)).Some?
    ensures s.changes != [] ==> Step(s, OnChange(true)).Some? && Step(s, OnChange(true)).value.open
    ensures s.ended != [] && s.ended[0] < |s.fws| ==> Step(s, OnEnded).Some?
  {
  }

  /** A published change that fits is delivered, and removing or adding an entry shows at the relay. */
  lemma ChangeShows(s0: State, acts: seq<Action>, s: State, change: Change) returns (s': State)
    requires Init(s0) && Exec(s0, acts) == Some(s) && s.open && s.pc.Idle? && s.changes == []
    requires change.Added? ==> Fresh(s, change.entry.id)
    ensures Exec(s0, acts + [Publish(change)] + [OnChange(true)]) == Some(s') && s'.open && s'.pc.Idle?
    ensures match change
      case Added(ls) => ls.id in View(s'.sent) && !View(s'.sent)[ls.id] && s'.available == s.available[ls.id := ls]
      case Removed(id) => id !in View(s'.sent) && s'.available == s.available - {id}
  {
    var t := PublishStep(s, change).value;
    assert t.changes == [change] by {
      assert [] + [change] == [change];
    }
    s' := ChangeStep(t, true).value;
    hide PublishStep, ChangeStep;
    ExecTwo(s0, acts, s, Publish(change), t, OnChange(true), s');
    RelayViewMatches(s0, acts + [Publish(change)] + [OnChange(true)]);
  }
}
