/** cmd/scomp runAgent: the main loop of one relay connection, together with the parties that run
    beside it (forwarder goroutines, session deaths, registry cleanups, the catalog).

    A run ends when the connection closes: the program claims nothing after that. */
module Agent {
  import opened Common

  type Id = nat   // a session id, compared only for equality
  type Sess = nat // one running terminal
  type Fw = nat   // one forwarder, numbered in the order of startForwarder

  const ENDED_CAP: nat := 64    // room in sessionEnded
  const CHANGES_CAP: nat := 128 // room in the catalog's change channel

  datatype Mode = Full | Readonly | Approved

  datatype Lazy = Lazy(id: Id, mode: Mode)

  datatype Change = Added(entry: Lazy) | Removed(id: Id)

  /** Messages put on sendCh. A forwarder's output and snapshot messages are named by the forwarder;
      a session_remove remembers whose retirement sent it. */
  datatype Msg =
    | SessionAdd(id: Id, active: bool)
    | SessionRemove(id: Id, retired: Option<Fw>)
    | FromForwarder(id: Id, fw: Fw)
    | EmptySnapshot(id: Id)

  datatype Forwarder = Forwarder(id: Id, sess: Sess, running: bool)

  /** Where the main loop is. */
  datatype Pc =
    | Booting(rest: seq<Lazy>)                // the loop over the initial catalog
    | BootStart(ls: Lazy, rest: seq<Lazy>)    // reg.Get found ls active; startForwarder next
    | Idle
    | Finishing(fw: Fw, attach: Option<Id>)   // finishSession waits for fw.exited
    | Attaching(id: Id)                       // client_attach after finishIfEnded
    | Starting(ls: Lazy)                      // activate succeeded; startForwarder next
    | Announcing(ls: Lazy)                    // session_add(active) next
    | Answering(id: Id)                       // requestSnapshot next

  datatype State = State(
    pc: Pc,
    available: map<Id, Lazy>,
    lazyMap: map<Id, Lazy>,
    modes: map<Id, Mode>,
    forwarders: map<Id, Fw>,
    open: bool,             // connDone is not closed
    sent: seq<Msg>,
    asked: seq<(Id, Fw)>,   // snapshots requested for attaches, and through which forwarder
    ended: seq<Fw>,         // the sessionEnded channel
    changes: seq<Change>,   // the catalog's channel
    fws: seq<Forwarder>,    // every forwarder started on this connection
    gone: set<Fw>,          // forwarders whose retirement has been sent
    entries: map<Id, Sess>, // the registry
    dead: set<Sess>,
    next: Sess,             // no session numbered next or more exists yet
    known: set<Id>,         // ids this agent has ever handled
    missed: set<Id>)        // ids whose session was gone again when startForwarder looked

  /** What activate does: it fails, spawns a session, or aliases the source's live session. */
  datatype Outcome = Fails | Spawns | Shares(sess: Sess)

  datatype Action =
    | Boot(fits: bool)
    | BootForward(fits: bool)
    | OnAttach(id: Id)
    | Retire(fits: bool)
    | Activate(outcome: Outcome, fits: bool)
    | Forward
    | Announce(fits: bool)
    | Answer(fits: bool)
    | OnChange(fits: bool)
    | OnEnded
    | ForwarderSends(fw: Fw)
    | ForwarderStops(fw: Fw)
    | ForwarderNotifies(fw: Fw)
    | Dies(sess: Sess)
    | Cleanup(id: Id)
    | RegistryRemove(id: Id)
    | Publish(change: Change)

  /** Registry.Get: present and not yet ended. */
  predicate Live(entries: map<Id, Sess>, dead: set<Sess>, id: Id) { id in entries && entries[id] !in dead }

  /** send: a full queue closes the connection instead of dropping the message. */
  function SendAll(s: State, ms: seq<Msg>, fits: bool): State
  {
    if fits then s.(sent := s.sent + ms) else s.(open := false)
  }

  function StartForwarder(s: State, id: Id): State
  {
    if Live(s.entries, s.dead, id) then
      s.(forwarders := s.forwarders[id := |s.fws|], fws := s.fws + [Forwarder(id, s.entries[id], true)])
    else s.(missed := s.missed + {id})
  }

  /** One iteration of the loop over the initial catalog, up to its reg.Get. */
  function BootStep(s: State, fits: bool): Option<State>
  {
    if !s.pc.Booting? then None
    else if s.pc.rest == [] then Some(s.(pc := Idle))
    else
      var ls, rest := s.pc.rest[0], s.pc.rest[1..];
      var t := s.(available := s.available[ls.id := ls]);
      if Live(s.entries, s.dead, ls.id) then
        Some(t.(modes := s.modes[ls.id := ls.mode], pc := BootStart(ls, rest)))
      else
        Some(SendAll(t.(lazyMap := s.lazyMap[ls.id := ls], pc := Booting(rest)), [SessionAdd(ls.id, false)], fits))
  }

  function BootForwardStep(s: State, fits: bool): Option<State>
  {
    if !s.pc.BootStart? then None
    else Some(SendAll(StartForwarder(s, s.pc.ls.id).(pc := Booting(s.pc.rest)), [SessionAdd(s.pc.ls.id, true)], fits))
  }

  /** client_attach: finishIfEnded looks for a forwarder whose session is gone. */
  function AttachStep(s: State, id: Id): Option<State>
  {
    if !s.pc.Idle? then None
    else if id in s.forwarders && !Live(s.entries, s.dead, id) then
      Some(s.(pc := Finishing(s.forwarders[id], Some(id))))
    else Some(s.(pc := Attaching(id)))
  }

  /** finishSession once fw.exited is closed. */
  function RetireStep(s: State, fits: bool): Option<State>
  {
    if !(s.pc.Finishing? && s.pc.fw < |s.fws| && !s.fws[s.pc.fw].running) then None
    else
      var fw := s.pc.fw;
      var id, pc := s.fws[fw].id, if s.pc.attach.Some? then Attaching(s.pc.attach.value) else Idle;
      var t := s.(forwarders := s.forwarders - {id}, modes := s.modes - {id}, gone := s.gone + {fw}, pc := pc);
      var gone := SessionRemove(id, Some(fw));
      if id in s.available then // restoreLazySession
        Some(SendAll(t.(lazyMap := s.lazyMap[id := s.available[id]]), [gone, SessionAdd(id, false)], fits))
      else Some(SendAll(t, [gone], fits))
  }

  /** The lookup in lazyMap and the call of activate; rejectAttach when it fails. */
  function ActivateStep(s: State, outcome: Outcome, fits: bool): Option<State>
  {
    if !s.pc.Attaching? then None
    else
      var id := s.pc.id;
      if id !in s.lazyMap then Some(s.(pc := Answering(id)))
      else if Live(s.entries, s.dead, id) then Some(s.(lazyMap := s.lazyMap - {id}, pc := Answering(id)))
      else match outcome
        case Fails =>
          Some(SendAll(s.(pc := Idle), [EmptySnapshot(id), SessionRemove(id, None), SessionAdd(id, false)], fits))
        case Spawns =>
          Some(s.(entries := s.entries[id := s.next], next := s.next + 1, pc := Starting(s.lazyMap[id])))
        case Shares(sess) =>
          if sess in s.entries.Values && sess !in s.dead
          then Some(s.(entries := s.entries[id := sess], pc := Starting(s.lazyMap[id])))
          else None
  }

  function ForwardStep(s: State): Option<State>
  {
    if !s.pc.Starting? then None
    else
      var ls := s.pc.ls;
      Some(StartForwarder(s, ls.id).(modes := s.modes[ls.id := ls.mode], pc := Announcing(ls)))
  }

  function AnnounceStep(s: State, fits: bool): Option<State>
  {
    if !s.pc.Announcing? then None
    else
      var id := s.pc.ls.id;
      Some(SendAll(s.(lazyMap := s.lazyMap - {id}, pc := Answering(id)), [SessionAdd(id, true)], fits))
  }

  /** requestSnapshot: through the forwarder's channel, or an empty replay straight away. */
  function AnswerStep(s: State, fits: bool): Option<State>
  {
    if !s.pc.Answering? then None
    else if Live(s.entries, s.dead, s.pc.id) && s.pc.id in s.forwarders then
      Some(if fits then s.(pc := Idle, asked := s.asked + [(s.pc.id, s.forwarders[s.pc.id])]) else s.(open := false))
    else Some(SendAll(s.(pc := Idle), [EmptySnapshot(s.pc.id)], fits))
  }

  /** What a catalog change does to availableLazy. */
  function ApplyChange(available: map<Id, Lazy>, change: Change): map<Id, Lazy>
  {
    match change
    case Removed(id) => available - {id}
    case Added(ls) => available[ls.id := ls]
  }

  function ChangeStep(s: State, fits: bool): Option<State>
  {
    if !(s.pc.Idle? && s.changes != []) then None
    else
      var t := s.(changes := s.changes[1..]);
      match s.changes[0]
      case Removed(id) =>
        Some(SendAll(t.(lazyMap := s.lazyMap - {id}, available := s.available - {id}, modes := s.modes - {id}),
                     [SessionRemove(id, None)], fits))
      case Added(ls) =>
        Some(SendAll(t.(available := s.available[ls.id := ls], lazyMap := s.lazyMap[ls.id := ls],
                        known := s.known + {ls.id}),
                     [SessionAdd(ls.id, false)], fits))
  }

  /** A notification from sessionEnded; a stale one is ignored. */
  function EndedStep(s: State): Option<State>
  {
    if !(s.pc.Idle? && s.ended != [] && s.ended[0] < |s.fws|) then None
    else
      var fw, t := s.ended[0], s.(ended := s.ended[1..]);
      var id := s.fws[fw].id;
      if id in s.forwarders && s.forwarders[id] == fw then Some(t.(pc := Finishing(fw, None))) else Some(t)
  }

  function SendsStep(s: State, fw: Fw): Option<State>
  {
    if fw < |s.fws| && s.fws[fw].running
    then Some(s.(sent := s.sent + [FromForwarder(s.fws[fw].id, fw)])) else None
  }

  /** The forwarder saw its session's Done. */
  function StopsStep(s: State, fw: Fw): Option<State>
  {
    if fw < |s.fws| && s.fws[fw].running && s.fws[fw].sess in s.dead
    then Some(s.(fws := s.fws[fw := s.fws[fw].(running := false)])) else None
  }

  /** A stopped forwarder reports itself; the model lets it do so any number of times. */
  function NotifiesStep(s: State, fw: Fw): Option<State>
  {
    if fw < |s.fws| && !s.fws[fw].running && |s.ended| < ENDED_CAP
    then Some(s.(ended := s.ended + [fw])) else None
  }

  function RegistryStep(s: State, a: Action): Option<State>
  {
    match a
    case Dies(sess) => if sess < s.next then Some(s.(dead := s.dead + {sess})) else None
    case Cleanup(id) =>
      if id in s.entries && s.entries[id] in s.dead then Some(s.(entries := s.entries - {id})) else None
    case RegistryRemove(id) =>
      if id in s.entries then Some(s.(entries := s.entries - {id}, dead := s.dead + {s.entries[id]})) else None
    case _ => None
  }

  function PublishStep(s: State, change: Change): Option<State>
  {
    if |s.changes| < CHANGES_CAP && (change.Added? ==> Fresh(s, change.entry.id))
    then Some(s.(changes := s.changes + [change])) else None
  }

  function Step(s: State, a: Action): Option<State>
  {
    if !s.open then None
    else match a
      case Boot(fits) => BootStep(s, fits)
      case BootForward(fits) => BootForwardStep(s, fits)
      case OnAttach(id) => AttachStep(s, id)
      case Retire(fits) => RetireStep(s, fits)
      case Activate(outcome, fits) => ActivateStep(s, outcome, fits)
      case Forward => ForwardStep(s)
      case Announce(fits) => AnnounceStep(s, fits)
      case Answer(fits) => AnswerStep(s, fits)
      case OnChange(fits) => ChangeStep(s, fits)
      case OnEnded => EndedStep(s)
      case ForwarderSends(fw) => SendsStep(s, fw)
      case ForwarderStops(fw) => StopsStep(s, fw)
      case ForwarderNotifies(fw) => NotifiesStep(s, fw)
      case Dies(_) => RegistryStep(s, a)
      case Cleanup(_) => RegistryStep(s, a)
      case RegistryRemove(_) => RegistryStep(s, a)
      case Publish(change) => PublishStep(s, change)
  }

  /** The catalog never reuses an id. */
  predicate Fresh(s: State, id: Id)
  {
    id !in s.known && forall c :: c in s.changes && c.Added? ==> c.entry.id != id
  }

  function Exec(s: State, acts: seq<Action>): Option<State>
  {
    if acts == [] then Some(s)
    else
      var p := Exec(s, acts[..|acts| - 1]);
      if p.None? then None else Step(p.value, acts[|acts| - 1])
  }

  /** A connection that just opened: any registry left over from earlier connections, and a catalog
      snapshot whose ids are distinct. */
  ghost predicate Init(s: State)
  {
    && s.pc.Booting? && s.open
    && s.available == map[] && s.lazyMap == map[] && s.modes == map[] && s.forwarders == map[]
    && s.sent == [] && s.asked == [] && s.ended == [] && s.changes == [] && s.fws == [] && s.gone == {} && s.missed == {}
    && (forall i, j :: 0 <= i < j < |s.pc.rest| ==> s.pc.rest[i].id != s.pc.rest[j].id)
    && (forall i :: 0 <= i < |s.pc.rest| ==> s.pc.rest[i].id in s.known)
    && s.entries.Keys <= s.known
    && (forall id :: id in s.entries ==> s.entries[id] < s.next) && (forall sess :: sess in s.dead ==> sess < s.next)
  }

  // ---- the relay's side --------------------------------------------------------------------

  /** The relay's session list: id to "is active". */
  function ViewStep(v: map<Id, bool>, m: Msg): map<Id, bool>
  {
    match m
    case SessionAdd(id, active) => v[id := active]
    case SessionRemove(id, _) => v - {id}
    case FromForwarder(_, _) => v
    case EmptySnapshot(_) => v
  }

  function View(ms: seq<Msg>): map<Id, bool>
  {
    if ms == [] then map[] else ViewStep(View(ms[..|ms| - 1]), ms[|ms| - 1])
  }

  /** What the relay should list: the catalog's entries, active unless lazy. An entry whose
      session_add is about to be sent for the first time is hidden. */
  function Expected(available: map<Id, Lazy>, lazyMap: map<Id, Lazy>, hidden: Option<Id>): map<Id, bool>
  {
    map id | id in available && hidden != Some(id) :: id !in lazyMap
  }

  function Hidden(pc: Pc): Option<Id> { if pc.BootStart? then Some(pc.ls.id) else None }

  /** The id that is being activated right now. */
  function Activating(pc: Pc): Option<Id>
  {
    if pc.Starting? || pc.Announcing? then Some(pc.ls.id) else None
  }

  // ---- invariants, each on the fields it speaks about -----------------------------------------

  /** The agent's catalog: lazy entries are catalog entries, modes only speaks about catalog entries,
      and additions still to come carry new ids. */
  ghost predicate CatalogOk(available: map<Id, Lazy>, lazyMap: map<Id, Lazy>, modes: map<Id, Mode>,
                            known: set<Id>, changes: seq<Change>)
  {
    && lazyMap.Keys <= available.Keys <= known
    && (forall id :: id in available ==> available[id].id == id)
    && (forall id :: id in lazyMap ==> lazyMap[id] == available[id])
    && modes.Keys <= available.Keys
    && (forall id :: id in modes ==> modes[id] == available[id].mode)
    && (forall i :: 0 <= i < |changes| && changes[i].Added? ==> changes[i].entry.id !in known)
    && (forall i, j :: 0 <= i < j < |changes| && changes[i].Added? && changes[j].Added? ==>
          changes[i].entry.id != changes[j].entry.id)
  }

  ghost predicate KnownOk(entries: map<Id, Sess>, forwarders: map<Id, Fw>, missed: set<Id>, known: set<Id>)
  {
    entries.Keys <= known && forwarders.Keys <= known && missed <= known
  }

  /** A lazy id never has a live session in the registry; it is not forwarding and has no input mode. */
  ghost predicate LazyOk(lazyMap: map<Id, Lazy>, forwarders: map<Id, Fw>, modes: map<Id, Mode>,
                         entries: map<Id, Sess>, dead: set<Sess>, act: Option<Id>)
  {
    forall id :: id in lazyMap && act != Some(id) ==>
      !Live(entries, dead, id) && id !in forwarders && id !in modes
  }

  predicate Current(forwarders: map<Id, Fw>, fws: seq<Forwarder>, f: Fw)
    requires f < |fws|
  {
    fws[f].id in forwarders && forwarders[fws[f].id] == f
  }

  /** Every forwarder in the table follows the registry's live session for its id; every other one has
      stopped and was retired; forwarders only stop because their session ended. */
  ghost predicate ForwardersOk(forwarders: map<Id, Fw>, fws: seq<Forwarder>, gone: set<Fw>,
                               entries: map<Id, Sess>, dead: set<Sess>, ended: seq<Fw>)
  {
    && (forall id :: id in forwarders ==>
          && forwarders[id] < |fws| && fws[forwarders[id]].id == id
          && (Live(entries, dead, id) ==> entries[id] == fws[forwarders[id]].sess))
    && (forall f :: 0 <= f < |fws| ==> (Current(forwarders, fws, f) <==> f !in gone))
    && (forall f :: f in gone ==> f < |fws| && !fws[f].running)
    && (forall f :: 0 <= f < |fws| && !fws[f].running ==> fws[f].sess in dead)
    && (forall i :: 0 <= i < |ended| ==> ended[i] < |fws| && !fws[ended[i]].running)
  }

  /** An entry advertised as active has a forwarder, unless its session was gone when startForwarder looked. */
  ghost predicate MissedOk(available: map<Id, Lazy>, lazyMap: map<Id, Lazy>, forwarders: map<Id, Fw>,
                           missed: set<Id>, hidden: Option<Id>, act: Option<Id>)
  {
    && (forall id :: id in available && id !in lazyMap && hidden != Some(id) ==> (id in forwarders <==> id !in missed))
    && (forall id :: id in lazyMap && act != Some(id) ==> id !in missed)
  }

  ghost predicate ViewOk(sent: seq<Msg>, available: map<Id, Lazy>, lazyMap: map<Id, Lazy>, hidden: Option<Id>)
  {
    View(sent) == Expected(available, lazyMap, hidden)
  }

  /** Initial entries not handled yet are new to every table. */
  ghost predicate BootOk(rest: seq<Lazy>, available: map<Id, Lazy>, forwarders: map<Id, Fw>, missed: set<Id>, known: set<Id>)
  {
    && (forall i, j :: 0 <= i < j < |rest| ==> rest[i].id != rest[j].id)
    && (forall i :: 0 <= i < |rest| ==>
          rest[i].id in known && rest[i].id !in available && rest[i].id !in forwarders && rest[i].id !in missed)
  }

  /** What the main loop relies on at its current place. */
  ghost predicate PcOk(pc: Pc, available: map<Id, Lazy>, lazyMap: map<Id, Lazy>, forwarders: map<Id, Fw>,
                       missed: set<Id>, known: set<Id>, fws: seq<Forwarder>, entries: map<Id, Sess>, dead: set<Sess>)
  {
    match pc
    case Booting(rest) => BootOk(rest, available, forwarders, missed, known)
    case BootStart(ls, rest) =>
      && BootOk(rest, available, forwarders, missed, known) && (forall i :: 0 <= i < |rest| ==> rest[i].id != ls.id)
      && ls.id in known && ls.id in available && ls.id !in lazyMap && ls.id !in forwarders && ls.id !in missed
    case Finishing(fw, _) => fw < |fws| && Current(forwarders, fws, fw) && !Live(entries, dead, fws[fw].id)
    case Starting(ls) => ls.id in lazyMap && lazyMap[ls.id] == ls && ls.id !in forwarders && ls.id !in missed
    case Announcing(ls) => ls.id in lazyMap && lazyMap[ls.id] == ls && (ls.id in forwarders <==> ls.id !in missed)
    case _ => true
  }

  ghost predicate Core(s: State)
  {
    && CatalogOk(s.available, s.lazyMap, s.modes, s.known, s.changes)
    && KnownOk(s.entries, s.forwarders, s.missed, s.known)
    && LazyOk(s.lazyMap, s.forwarders, s.modes, s.entries, s.dead, Activating(s.pc))
    && ForwardersOk(s.forwarders, s.fws, s.gone, s.entries, s.dead, s.ended)
    && MissedOk(s.available, s.lazyMap, s.forwarders, s.missed, Hidden(s.pc), Activating(s.pc))
    && ViewOk(s.sent, s.available, s.lazyMap, Hidden(s.pc))
    && PcOk(s.pc, s.available, s.lazyMap, s.forwarders, s.missed, s.known, s.fws, s.entries, s.dead)
  }

  lemma ViewSnoc(ms: seq<Msg>, m: Msg)
    ensures View(ms + [m]) == ViewStep(View(ms), m)
  {
    assert (ms + [m])[..|ms|] == ms;
  }

  // ---- a new catalog entry, lazy or active -------------------------------------------------------

  lemma NewEntry(s: State, ls: Lazy, live: bool)
    requires CatalogOk(s.available, s.lazyMap, s.modes, s.known, s.changes) && ls.id in s.known && ls.id !in s.available
    ensures CatalogOk(s.available[ls.id := ls], if live then s.lazyMap else s.lazyMap[ls.id := ls],
                      if live then s.modes[ls.id := ls.mode] else s.modes, s.known, s.changes)
    ensures ls.id !in s.modes && ls.id !in s.lazyMap
  {
  }

  lemma NewLazy(lazyMap: map<Id, Lazy>, forwarders: map<Id, Fw>, modes: map<Id, Mode>,
                entries: map<Id, Sess>, dead: set<Sess>, ls: Lazy)
    requires LazyOk(lazyMap, forwarders, modes, entries, dead, None)
    requires !Live(entries, dead, ls.id) && ls.id !in forwarders && ls.id !in modes
    ensures LazyOk(lazyMap[ls.id := ls], forwarders, modes, entries, dead, None)
  {
  }

  lemma NewMissed(s: State, ls: Lazy)
    requires MissedOk(s.available, s.lazyMap, s.forwarders, s.missed, None, None) && ls.id !in s.available && ls.id !in s.missed
    ensures MissedOk(s.available[ls.id := ls], s.lazyMap[ls.id := ls], s.forwarders, s.missed, None, None)
    ensures MissedOk(s.available[ls.id := ls], s.lazyMap, s.forwarders, s.missed, Some(ls.id), None)
  {
  }

  lemma NewView(s: State, ls: Lazy)
    requires ViewOk(s.sent, s.available, s.lazyMap, None) && ls.id !in s.available
    ensures ViewOk(s.sent + [SessionAdd(ls.id, false)], s.available[ls.id := ls], s.lazyMap[ls.id := ls], None)
    ensures ViewOk(s.sent, s.available[ls.id := ls], s.lazyMap, Some(ls.id))
  {
    ViewSnoc(s.sent, SessionAdd(ls.id, false));
  }

  lemma BootRest(rest: seq<Lazy>, available: map<Id, Lazy>, forwarders: map<Id, Fw>, missed: set<Id>, known: set<Id>)
    requires BootOk(rest, available, forwarders, missed, known) && rest != []
    ensures BootOk(rest[1..], available[rest[0].id := rest[0]], forwarders, missed, known)
    ensures var id := rest[0].id;
      && id in known && id !in available && id !in forwarders && id !in missed
      && forall i :: 0 <= i < |rest[1..]| ==> rest[1..][i].id != id
  {
  }

  lemma BootLazy(s: State, ls: Lazy, s': State)
    requires Core(s) && s.pc.Booting? && s.pc.rest != [] && ls == s.pc.rest[0] && !Live(s.entries, s.dead, ls.id)
    requires s' == s.(available := s.available[ls.id := ls], lazyMap := s.lazyMap[ls.id := ls],
                      pc := Booting(s.pc.rest[1..]), sent := s.sent + [SessionAdd(ls.id, false)])
    ensures Core(s')
  {
    hide CatalogOk, KnownOk, LazyOk, ForwardersOk, MissedOk, ViewOk, BootOk;
    BootRest(s.pc.rest, s.available, s.forwarders, s.missed, s.known);
    NewEntry(s, ls, false);
    NewMissed(s, ls);
    NewView(s, ls);
    NewLazy(s.lazyMap, s.forwarders, s.modes, s.entries, s.dead, ls);
    assert Core(s');
  }

  lemma BootLive(s: State, ls: Lazy, s': State)
    requires Core(s) && s.pc.Booting? && s.pc.rest != [] && ls == s.pc.rest[0]
    requires s' == s.(available := s.available[ls.id := ls], modes := s.modes[ls.id := ls.mode],
                      pc := BootStart(ls, s.pc.rest[1..]))
    ensures Core(s')
  {
    hide CatalogOk, KnownOk, LazyOk, ForwardersOk, MissedOk, ViewOk, BootOk;
    BootRest(s.pc.rest, s.available, s.forwarders, s.missed, s.known);
    NewEntry(s, ls, true);
    NewMissed(s, ls);
    NewView(s, ls);
    ActiveMode(s, ls.id, ls.mode);
    assert Core(s');
  }

  lemma BootKeeps(s: State, fits: bool, s': State)
    requires Core(s) && BootStep(s, fits) == Some(s') && s'.open
    ensures Core(s')
  {
    hide CatalogOk, KnownOk, LazyOk, ForwardersOk, MissedOk, ViewOk, BootOk;
    if s.pc.rest == [] {
      assert Core(s');
    } else if Live(s.entries, s.dead, s.pc.rest[0].id) {
      BootLive(s, s.pc.rest[0], s');
    } else {
      BootLazy(s, s.pc.rest[0], s');
    }
  }

  // ---- startForwarder ----------------------------------------------------------------------------

  lemma ActiveMode(s: State, id: Id, mode: Mode)
    requires LazyOk(s.lazyMap, s.forwarders, s.modes, s.entries, s.dead, Activating(s.pc))
    requires id !in s.lazyMap || Activating(s.pc) == Some(id)
    ensures LazyOk(s.lazyMap, s.forwarders, s.modes[id := mode], s.entries, s.dead, Activating(s.pc))
  {
  }

  /** startForwarder finds the session alive. */
  lemma StartLive(s: State, id: Id, act: Option<Id>)
    requires KnownOk(s.entries, s.forwarders, s.missed, s.known) && id in s.known
    requires LazyOk(s.lazyMap, s.forwarders, s.modes, s.entries, s.dead, act) && (id !in s.lazyMap || act == Some(id))
    ensures KnownOk(s.entries, s.forwarders[id := |s.fws|], s.missed, s.known)
    ensures LazyOk(s.lazyMap, s.forwarders[id := |s.fws|], s.modes, s.entries, s.dead, act)
  {
  }

  lemma StartTable(forwarders: map<Id, Fw>, fws: seq<Forwarder>, gone: set<Fw>, entries: map<Id, Sess>,
                   dead: set<Sess>, ended: seq<Fw>, id: Id)
    requires ForwardersOk(forwarders, fws, gone, entries, dead, ended) && id !in forwarders && Live(entries, dead, id)
    ensures ForwardersOk(forwarders[id := |fws|], fws + [Forwarder(id, entries[id], true)], gone, entries, dead, ended)
  {
    var forwarders', fws' := forwarders[id := |fws|], fws + [Forwarder(id, entries[id], true)];
    assert forall f :: 0 <= f < |fws| ==> fws'[f] == fws[f];
    assert forall f :: 0 <= f < |fws| ==> Current(forwarders', fws', f) == Current(forwarders, fws, f);
    assert ForwardersOk(forwarders', fws', gone, entries, dead, ended);
  }

  /** startForwarder finds the session gone. */
  lemma StartMissed(s: State, id: Id)
    requires KnownOk(s.entries, s.forwarders, s.missed, s.known) && id in s.known
    ensures KnownOk(s.entries, s.forwarders, s.missed + {id}, s.known)
  {
  }

  lemma BootForwardRest(rest: seq<Lazy>, available: map<Id, Lazy>, forwarders: map<Id, Fw>, missed: set<Id>, known: set<Id>,
                        id: Id, fw: Fw)
    requires BootOk(rest, available, forwarders, missed, known) && forall i :: 0 <= i < |rest| ==> rest[i].id != id
    ensures BootOk(rest, available, forwarders[id := fw], missed, known)
    ensures BootOk(rest, available, forwarders, missed + {id}, known)
  {
  }

  lemma BootForwardView(s: State, ls: Lazy)
    requires ViewOk(s.sent, s.available, s.lazyMap, Some(ls.id)) && ls.id in s.available && ls.id !in s.lazyMap
    ensures ViewOk(s.sent + [SessionAdd(ls.id, true)], s.available, s.lazyMap, None)
  {
    ViewSnoc(s.sent, SessionAdd(ls.id, true));
  }

  lemma BootForwardMissed(s: State, id: Id)
    requires MissedOk(s.available, s.lazyMap, s.forwarders, s.missed, Some(id), None)
    requires id !in s.lazyMap && id !in s.forwarders && id !in s.missed
    ensures MissedOk(s.available, s.lazyMap, s.forwarders[id := |s.fws|], s.missed, None, None)
    ensures MissedOk(s.available, s.lazyMap, s.forwarders, s.missed + {id}, None, None)
  {
  }

  lemma BootForwardKeeps(s: State, fits: bool, s': State)
    requires Core(s) && BootForwardStep(s, fits) == Some(s') && s'.open
    ensures Core(s')
  {
    hide CatalogOk, KnownOk, LazyOk, ForwardersOk, MissedOk, ViewOk, BootOk;
    var id := s.pc.ls.id;
    BootForwardRest(s.pc.rest, s.available, s.forwarders, s.missed, s.known, id, |s.fws|);
    BootForwardView(s, s.pc.ls);
    BootForwardMissed(s, id);
    if Live(s.entries, s.dead, id) {
      StartLive(s, id, None);
      StartTable(s.forwarders, s.fws, s.gone, s.entries, s.dead, s.ended, id);
    } else {
      StartMissed(s, id);
    }
  }

  lemma ForwardCatalog(s: State, ls: Lazy)
    requires CatalogOk(s.available, s.lazyMap, s.modes, s.known, s.changes) && ls.id in s.lazyMap && s.lazyMap[ls.id] == ls
    ensures CatalogOk(s.available, s.lazyMap, s.modes[ls.id := ls.mode], s.known, s.changes)
    ensures ls.id in s.known
  {
  }

  lemma ForwardMissed(s: State, id: Id)
    requires MissedOk(s.available, s.lazyMap, s.forwarders, s.missed, None, Some(id)) && id in s.lazyMap
    ensures MissedOk(s.available, s.lazyMap, s.forwarders[id := |s.fws|], s.missed, None, Some(id))
    ensures MissedOk(s.available, s.lazyMap, s.forwarders, s.missed + {id}, None, Some(id))
  {
  }

  lemma ForwardKeeps(s: State, s': State)
    requires Core(s) && ForwardStep(s) == Some(s')
    ensures Core(s')
  {
    hide CatalogOk, KnownOk, LazyOk, ForwardersOk, MissedOk, ViewOk, BootOk;
    var ls, id := s.pc.ls, s.pc.ls.id;
    ForwardCatalog(s, ls);
    ForwardMissed(s, id);
    ActiveMode(s, id, ls.mode);
    if Live(s.entries, s.dead, id) {
      StartLive(s.(modes := s.modes[id := ls.mode]), id, Some(id));
      StartTable(s.forwarders, s.fws, s.gone, s.entries, s.dead, s.ended, id);
    } else {
      StartMissed(s, id);
    }
  }

  // ---- client_attach -------------------------------------------------------------------------------

  lemma AttachCurrent(s: State, id: Id)
    requires ForwardersOk(s.forwarders, s.fws, s.gone, s.entries, s.dead, s.ended) && id in s.forwarders
    ensures var fw := s.forwarders[id];
      fw < |s.fws| && s.fws[fw].id == id && Current(s.forwarders, s.fws, fw)
  {
  }

  lemma AttachKeeps(s: State, id: Id, s': State)
    requires Core(s) && AttachStep(s, id) == Some(s')
    ensures Core(s')
  {
    hide CatalogOk, KnownOk, LazyOk, ForwardersOk, MissedOk, ViewOk, BootOk;
    if id in s.forwarders {
      AttachCurrent(s, id);
    }
  }

  lemma ActivateLazy(s: State, id: Id, sess: Sess)
    requires LazyOk(s.lazyMap, s.forwarders, s.modes, s.entries, s.dead, None)
    requires ForwardersOk(s.forwarders, s.fws, s.gone, s.entries, s.dead, s.ended)
    requires MissedOk(s.available, s.lazyMap, s.forwarders, s.missed, None, None)
    requires id in s.lazyMap
    ensures !Live(s.entries, s.dead, id) && id !in s.forwarders && id !in s.missed
    ensures LazyOk(s.lazyMap, s.forwarders, s.modes, s.entries[id := sess], s.dead, Some(id))
    ensures ForwardersOk(s.forwarders, s.fws, s.gone, s.entries[id := sess], s.dead, s.ended)
    ensures MissedOk(s.available, s.lazyMap, s.forwarders, s.missed, None, Some(id))
  {
    var entries := s.entries[id := sess];
    assert ForwardersOk(s.forwarders, s.fws, s.gone, entries, s.dead, s.ended);
  }

  lemma ActivateKnown(s: State, id: Id, sess: Sess)
    requires CatalogOk(s.available, s.lazyMap, s.modes, s.known, s.changes) && id in s.lazyMap
    requires KnownOk(s.entries, s.forwarders, s.missed, s.known)
    ensures KnownOk(s.entries[id := sess], s.forwarders, s.missed, s.known)
    ensures s.lazyMap[id].id == id
  {
  }

  /** rejectAttach leaves the relay's list as it was. */
  lemma RejectView(s: State, id: Id)
    requires CatalogOk(s.available, s.lazyMap, s.modes, s.known, s.changes) && id in s.lazyMap
    requires ViewOk(s.sent, s.available, s.lazyMap, None)
    ensures ViewOk(s.sent + [EmptySnapshot(id), SessionRemove(id, None), SessionAdd(id, false)], s.available, s.lazyMap, None)
  {
    var a, b := s.sent + [EmptySnapshot(id)], s.sent + [EmptySnapshot(id)] + [SessionRemove(id, None)];
    ViewSnoc(s.sent, EmptySnapshot(id));
    ViewSnoc(a, SessionRemove(id, None));
    ViewSnoc(b, SessionAdd(id, false));
    assert b + [SessionAdd(id, false)] == s.sent + [EmptySnapshot(id), SessionRemove(id, None), SessionAdd(id, false)];
  }

  lemma ActivateKeeps(s: State, outcome: Outcome, fits: bool, s': State)
    requires Core(s) && ActivateStep(s, outcome, fits) == Some(s') && s'.open
    ensures Core(s')
  {
    hide CatalogOk, KnownOk, LazyOk, ForwardersOk, MissedOk, ViewOk, BootOk;
    var id := s.pc.id;
    if id in s.lazyMap {
      var sess := if outcome.Shares? then outcome.sess else s.next;
      ActivateLazy(s, id, sess);
      ActivateKnown(s, id, sess);
      RejectView(s, id);
    }
  }

  lemma AnnounceCatalog(s: State, ls: Lazy)
    requires CatalogOk(s.available, s.lazyMap, s.modes, s.known, s.changes) && ls.id in s.lazyMap
    requires LazyOk(s.lazyMap, s.forwarders, s.modes, s.entries, s.dead, Some(ls.id))
    requires MissedOk(s.available, s.lazyMap, s.forwarders, s.missed, None, Some(ls.id))
    requires ls.id in s.forwarders <==> ls.id !in s.missed
    ensures CatalogOk(s.available, s.lazyMap - {ls.id}, s.modes, s.known, s.changes)
    ensures LazyOk(s.lazyMap - {ls.id}, s.forwarders, s.modes, s.entries, s.dead, None)
    ensures MissedOk(s.available, s.lazyMap - {ls.id}, s.forwarders, s.missed, None, None)
    ensures ls.id in s.available
  {
  }

  lemma AnnounceView(s: State, id: Id)
    requires ViewOk(s.sent, s.available, s.lazyMap, None) && id in s.available
    ensures ViewOk(s.sent + [SessionAdd(id, true)], s.available, s.lazyMap - {id}, None)
  {
    ViewSnoc(s.sent, SessionAdd(id, true));
  }

  lemma AnnounceKeeps(s: State, fits: bool, s': State)
    requires Core(s) && AnnounceStep(s, fits) == Some(s') && s'.open
    ensures Core(s')
  {
    hide CatalogOk, KnownOk, LazyOk, ForwardersOk, MissedOk, ViewOk, BootOk;
    AnnounceCatalog(s, s.pc.ls);
    AnnounceView(s, s.pc.ls.id);
  }

  lemma SilentView(s: State, m: Msg)
    requires ViewOk(s.sent, s.available, s.lazyMap, Hidden(s.pc)) && (m.EmptySnapshot? || m.FromForwarder?)
    ensures ViewOk(s.sent + [m], s.available, s.lazyMap, Hidden(s.pc))
  {
    ViewSnoc(s.sent, m);
  }

  lemma AnswerKeeps(s: State, fits: bool, s': State)
    requires Core(s) && AnswerStep(s, fits) == Some(s') && s'.open
    ensures Core(s')
  {
    hide CatalogOk, KnownOk, LazyOk, ForwardersOk, MissedOk, ViewOk, BootOk;
    SilentView(s, EmptySnapshot(s.pc.id));
  }

  // ---- finishSession ---------------------------------------------------------------------------------

  lemma RetireForwarder(s: State, fw: Fw)
    requires ForwardersOk(s.forwarders, s.fws, s.gone, s.entries, s.dead, s.ended)
    requires fw < |s.fws| && Current(s.forwarders, s.fws, fw) && !s.fws[fw].running
    ensures ForwardersOk(s.forwarders - {s.fws[fw].id}, s.fws, s.gone + {fw}, s.entries, s.dead, s.ended)
  {
    assert ForwardersOk(s.forwarders - {s.fws[fw].id}, s.fws, s.gone + {fw}, s.entries, s.dead, s.ended);
  }

  lemma RetireCatalog(s: State, id: Id)
    requires CatalogOk(s.available, s.lazyMap, s.modes, s.known, s.changes)
    requires KnownOk(s.entries, s.forwarders, s.missed, s.known)
    requires LazyOk(s.lazyMap, s.forwarders, s.modes, s.entries, s.dead, None) && !Live(s.entries, s.dead, id)
    ensures KnownOk(s.entries, s.forwarders - {id}, s.missed, s.known)
    ensures var lazyMap := if id in s.available then s.lazyMap[id := s.available[id]] else s.lazyMap;
      && CatalogOk(s.available, lazyMap, s.modes - {id}, s.known, s.changes)
      && LazyOk(lazyMap, s.forwarders - {id}, s.modes - {id}, s.entries, s.dead, None)
  {
  }

  lemma RetireMissed(s: State, id: Id)
    requires MissedOk(s.available, s.lazyMap, s.forwarders, s.missed, None, None)
    requires LazyOk(s.lazyMap, s.forwarders, s.modes, s.entries, s.dead, None) && id in s.forwarders
    ensures var lazyMap := if id in s.available then s.lazyMap[id := s.available[id]] else s.lazyMap;
      MissedOk(s.available, lazyMap, s.forwarders - {id}, s.missed, None, None)
  {
  }

  lemma RetireView(s: State, id: Id, m: Msg)
    requires ViewOk(s.sent, s.available, s.lazyMap, None) && m.SessionRemove? && m.id == id
    ensures if id in s.available
      then ViewOk(s.sent + [m, SessionAdd(id, false)], s.available, s.lazyMap[id := s.available[id]], None)
      else ViewOk(s.sent + [m], s.available, s.lazyMap, None)
  {
    ViewSnoc(s.sent, m);
    if id in s.available {
      ViewSnoc(s.sent + [m], SessionAdd(id, false));
      assert s.sent + [m] + [SessionAdd(id, false)] == s.sent + [m, SessionAdd(id, false)];
    }
  }

  lemma RetireKeeps(s: State, fits: bool, s': State)
    requires Core(s) && RetireStep(s, fits) == Some(s') && s'.open
    ensures Core(s')
  {
    hide CatalogOk, KnownOk, LazyOk, ForwardersOk, MissedOk, ViewOk, BootOk;
    var fw := s.pc.fw;
    var id := s.fws[fw].id;
    RetireForwarder(s, fw);
    RetireCatalog(s, id);
    RetireMissed(s, id);
    RetireView(s, id, SessionRemove(id, Some(fw)));
  }

  lemma EndedForwarder(s: State)
    requires ForwardersOk(s.forwarders, s.fws, s.gone, s.entries, s.dead, s.ended) && s.ended != []
    ensures ForwardersOk(s.forwarders, s.fws, s.gone, s.entries, s.dead, s.ended[1..])
    ensures s.ended[0] < |s.fws|
    ensures Current(s.forwarders, s.fws, s.ended[0]) ==> !Live(s.entries, s.dead, s.fws[s.ended[0]].id)
  {
    assert ForwardersOk(s.forwarders, s.fws, s.gone, s.entries, s.dead, s.ended[1..]);
  }

  lemma EndedKeeps(s: State, s': State)
    requires Core(s) && EndedStep(s) == Some(s')
    ensures Core(s')
  {
    hide CatalogOk, KnownOk, LazyOk, ForwardersOk, MissedOk, ViewOk, BootOk;
    EndedForwarder(s);
  }

  // ---- catalog changes ---------------------------------------------------------------------------------

  lemma RemovedCatalog(s: State, id: Id)
    requires CatalogOk(s.available, s.lazyMap, s.modes, s.known, s.changes) && s.changes != []
    requires LazyOk(s.lazyMap, s.forwarders, s.modes, s.entries, s.dead, None)
    requires MissedOk(s.available, s.lazyMap, s.forwarders, s.missed, None, None)
    ensures CatalogOk(s.available - {id}, s.lazyMap - {id}, s.modes - {id}, s.known, s.changes[1..])
    ensures LazyOk(s.lazyMap - {id}, s.forwarders, s.modes - {id}, s.entries, s.dead, None)
    ensures MissedOk(s.available - {id}, s.lazyMap - {id}, s.forwarders, s.missed, None, None)
  {
  }

  lemma RemovedView(s: State, id: Id)
    requires ViewOk(s.sent, s.available, s.lazyMap, None)
    ensures ViewOk(s.sent + [SessionRemove(id, None)], s.available - {id}, s.lazyMap - {id}, None)
  {
    ViewSnoc(s.sent, SessionRemove(id, None));
  }

  lemma AddedCatalog(s: State, ls: Lazy)
    requires CatalogOk(s.available, s.lazyMap, s.modes, s.known, s.changes) && s.changes != [] && s.changes[0] == Added(ls)
    requires KnownOk(s.entries, s.forwarders, s.missed, s.known)
    ensures CatalogOk(s.available, s.lazyMap, s.modes, s.known + {ls.id}, s.changes[1..])
    ensures KnownOk(s.entries, s.forwarders, s.missed, s.known + {ls.id})
    ensures ls.id !in s.available && ls.id !in s.entries && ls.id !in s.forwarders && ls.id !in s.missed && ls.id !in s.modes
  {
  }

  lemma AddedKeeps(s: State, ls: Lazy, s': State)
    requires Core(s) && s.pc.Idle? && s.changes != [] && s.changes[0] == Added(ls)
    requires s' == s.(available := s.available[ls.id := ls], lazyMap := s.lazyMap[ls.id := ls], known := s.known + {ls.id},
                      changes := s.changes[1..], sent := s.sent + [SessionAdd(ls.id, false)])
    ensures Core(s')
  {
    hide CatalogOk, KnownOk, LazyOk, ForwardersOk, MissedOk, ViewOk, BootOk;
    AddedCatalog(s, ls);
    NewEntry(s.(known := s.known + {ls.id}, changes := s.changes[1..]), ls, false);
    NewLazy(s.lazyMap, s.forwarders, s.modes, s.entries, s.dead, ls);
    NewMissed(s, ls);
    NewView(s, ls);
    assert Core(s');
  }

  lemma ChangeKeeps(s: State, fits: bool, s': State)
    requires Core(s) && ChangeStep(s, fits) == Some(s') && s'.open
    ensures Core(s')
  {
    hide CatalogOk, KnownOk, LazyOk, ForwardersOk, MissedOk, ViewOk, BootOk;
    match s.changes[0]
    case Removed(id) =>
      RemovedCatalog(s, id);
      RemovedView(s, id);
      assert Core(s');
    case Added(ls) =>
      AddedKeeps(s, ls, s');
  }

  lemma PublishCatalog(s: State, change: Change)
    requires CatalogOk(s.available, s.lazyMap, s.modes, s.known, s.changes) && (change.Added? ==> Fresh(s, change.entry.id))
    ensures CatalogOk(s.available, s.lazyMap, s.modes, s.known, s.changes + [change])
  {
  }

  lemma PublishKeeps(s: State, change: Change, s': State)
    requires Core(s) && PublishStep(s, change) == Some(s')
    ensures Core(s')
  {
    PublishCatalog(s, change);
    hide CatalogOk, KnownOk, LazyOk, ForwardersOk, MissedOk, ViewOk, PcOk;
  }

  // ---- forwarders, sessions and the registry -----------------------------------------------------------

  lemma SendsKeeps(s: State, fw: Fw, s': State)
    requires Core(s) && SendsStep(s, fw) == Some(s')
    ensures Core(s')
  {
    hide CatalogOk, KnownOk, LazyOk, ForwardersOk, MissedOk, ViewOk, PcOk;
    SilentView(s, FromForwarder(s.fws[fw].id, fw));
  }

  lemma StopsForwarder(s: State, fw: Fw, fws: seq<Forwarder>)
    requires ForwardersOk(s.forwarders, s.fws, s.gone, s.entries, s.dead, s.ended)
    requires fw < |s.fws| && s.fws[fw].sess in s.dead && fws == s.fws[fw := s.fws[fw].(running := false)]
    ensures ForwardersOk(s.forwarders, fws, s.gone, s.entries, s.dead, s.ended)
  {
    assert forall f :: 0 <= f < |fws| ==> Current(s.forwarders, fws, f) == Current(s.forwarders, s.fws, f);
    assert ForwardersOk(s.forwarders, fws, s.gone, s.entries, s.dead, s.ended);
  }

  lemma StopsKeeps(s: State, fw: Fw, s': State)
    requires Core(s) && StopsStep(s, fw) == Some(s')
    ensures Core(s')
  {
    hide CatalogOk, KnownOk, LazyOk, ForwardersOk, MissedOk, ViewOk, BootOk;
    StopsForwarder(s, fw, s'.fws);
  }

  lemma NotifiesForwarder(s: State, fw: Fw)
    requires ForwardersOk(s.forwarders, s.fws, s.gone, s.entries, s.dead, s.ended) && fw < |s.fws| && !s.fws[fw].running
    ensures ForwardersOk(s.forwarders, s.fws, s.gone, s.entries, s.dead, s.ended + [fw])
  {
  }

  lemma NotifiesKeeps(s: State, fw: Fw, s': State)
    requires Core(s) && NotifiesStep(s, fw) == Some(s')
    ensures Core(s')
  {
    NotifiesForwarder(s, fw);
    hide CatalogOk, KnownOk, LazyOk, ForwardersOk, MissedOk, ViewOk, PcOk;
  }

  lemma RegistryForwarders(s: State, a: Action, s': State)
    requires RegistryStep(s, a) == Some(s')
    requires ForwardersOk(s.forwarders, s.fws, s.gone, s.entries, s.dead, s.ended)
    requires LazyOk(s.lazyMap, s.forwarders, s.modes, s.entries, s.dead, Activating(s.pc))
    ensures ForwardersOk(s'.forwarders, s'.fws, s'.gone, s'.entries, s'.dead, s'.ended)
    ensures LazyOk(s'.lazyMap, s'.forwarders, s'.modes, s'.entries, s'.dead, Activating(s'.pc))
  {
    assert forall id :: Live(s'.entries, s'.dead, id) ==> Live(s.entries, s.dead, id) && s'.entries[id] == s.entries[id];
    assert ForwardersOk(s'.forwarders, s'.fws, s'.gone, s'.entries, s'.dead, s'.ended);
    assert LazyOk(s'.lazyMap, s'.forwarders, s'.modes, s'.entries, s'.dead, Activating(s'.pc));
  }

  lemma RegistryKeeps(s: State, a: Action, s': State)
    requires Core(s) && RegistryStep(s, a) == Some(s')
    ensures Core(s')
  {
    RegistryForwarders(s, a, s');
    hide CatalogOk, LazyOk, ForwardersOk, MissedOk, ViewOk, BootOk;
  }

  // ---- the order of messages ---------------------------------------------------------------------------

  /** m announces the retirement of the forwarder that n comes from, or retires it again. */
  predicate RetiredBy(m: Msg, n: Msg)
  {
    && m.SessionRemove? && m.retired.Some?
    && ((n.FromForwarder? && n.fw == m.retired.value) || (n.SessionRemove? && n.retired == m.retired))
  }

  /** Message j names its forwarder truthfully, and comes after the retirement of every earlier
      incarnation of the same id. */
  ghost predicate MsgOk(sent: seq<Msg>, j: nat, fws: seq<Forwarder>, gone: set<Fw>)
    requires j < |sent|
  {
    match sent[j]
    case FromForwarder(id, fw) =>
      && fw < |fws| && fws[fw].id == id
      && (forall f :: 0 <= f < fw && fws[f].id == id ==> SessionRemove(id, Some(f)) in sent[..j])
    case SessionRemove(id, Some(fw)) => fw in gone
    case _ => true
  }

  ghost predicate OrderOk(sent: seq<Msg>, fws: seq<Forwarder>, gone: set<Fw>)
  {
    && (forall j :: 0 <= j < |sent| ==> MsgOk(sent, j, fws, gone))
    && (forall i, j :: 0 <= i < j < |sent| ==> !RetiredBy(sent[i], sent[j]))
    && (forall f :: f in gone ==> f < |fws| && SessionRemove(fws[f].id, Some(f)) in sent)
  }

  lemma OrderSnoc(sent: seq<Msg>, fws: seq<Forwarder>, gone: set<Fw>, m: Msg, gone': set<Fw>)
    requires OrderOk(sent, fws, gone) && gone <= gone'
    requires MsgOk(sent + [m], |sent|, fws, gone')
    requires forall i :: 0 <= i < |sent| ==> !RetiredBy(sent[i], m)
    requires forall f :: f in gone' && f !in gone ==> f < |fws| && m == SessionRemove(fws[f].id, Some(f))
    ensures OrderOk(sent + [m], fws, gone')
  {
    forall j | 0 <= j < |sent| ensures MsgOk(sent + [m], j, fws, gone') {
      assert MsgOk(sent, j, fws, gone);
      assert (sent + [m])[..j] == sent[..j];
    }
    assert OrderOk(sent + [m], fws, gone');
  }

  /** A message that belongs to no forwarder. */
  predicate Plain(m: Msg) { m.SessionAdd? || m.EmptySnapshot? || (m.SessionRemove? && m.retired.None?) }

  lemma {:induction false} OrderPlain(sent: seq<Msg>, fws: seq<Forwarder>, gone: set<Fw>, ms: seq<Msg>)
    requires OrderOk(sent, fws, gone) && forall m :: m in ms ==> Plain(m)
    ensures OrderOk(sent + ms, fws, gone)
  {
    if ms == [] {
      assert sent + ms == sent;
    } else {
      var init, m := ms[..|ms| - 1], ms[|ms| - 1];
      assert m in ms && forall x :: x in init ==> x in ms;
      OrderPlain(sent, fws, gone, init);
      assert (sent + init + [m])[|sent + init|] == m;
      OrderSnoc(sent + init, fws, gone, m, gone);
      assert sent + init + [m] == sent + ms;
    }
  }

  lemma OrderForwarders(sent: seq<Msg>, fws: seq<Forwarder>, gone: set<Fw>, fws': seq<Forwarder>)
    requires OrderOk(sent, fws, gone) && |fws| <= |fws'| && forall f :: 0 <= f < |fws| ==> fws'[f].id == fws[f].id
    ensures OrderOk(sent, fws', gone)
  {
    forall j | 0 <= j < |sent| ensures MsgOk(sent, j, fws', gone) {
      assert MsgOk(sent, j, fws, gone);
    }
  }

  lemma SendsOrder(s: State, fw: Fw, s': State)
    requires Core(s) && OrderOk(s.sent, s.fws, s.gone) && SendsStep(s, fw) == Some(s')
    ensures OrderOk(s'.sent, s'.fws, s'.gone)
  {
    hide CatalogOk, KnownOk, LazyOk, MissedOk, ViewOk, PcOk;
    var m := FromForwarder(s.fws[fw].id, fw);
    assert Current(s.forwarders, s.fws, fw);
    forall i | 0 <= i < |s.sent| ensures !RetiredBy(s.sent[i], m) {
      assert MsgOk(s.sent, i, s.fws, s.gone);
    }
    assert (s.sent + [m])[..|s.sent|] == s.sent;
    forall f | 0 <= f < fw && s.fws[f].id == m.id ensures SessionRemove(m.id, Some(f)) in s.sent {
      assert !Current(s.forwarders, s.fws, f);
    }
    OrderSnoc(s.sent, s.fws, s.gone, m, s.gone);
  }

  lemma RetireOrder(s: State, fits: bool, s': State)
    requires Core(s) && OrderOk(s.sent, s.fws, s.gone) && RetireStep(s, fits) == Some(s') && s'.open
    ensures OrderOk(s'.sent, s'.fws, s'.gone)
  {
    hide CatalogOk, KnownOk, LazyOk, MissedOk, ViewOk, BootOk;
    var fw := s.pc.fw;
    var id, m := s.fws[fw].id, SessionRemove(s.fws[fw].id, Some(fw));
    assert fw !in s.gone;
    forall i | 0 <= i < |s.sent| ensures !RetiredBy(s.sent[i], m) {
      assert MsgOk(s.sent, i, s.fws, s.gone);
    }
    OrderSnoc(s.sent, s.fws, s.gone, m, s.gone + {fw});
    OrderPlain(s.sent + [m], s.fws, s.gone + {fw}, [SessionAdd(id, false)]);
    assert s.sent + [m] + [SessionAdd(id, false)] == s.sent + [m, SessionAdd(id, false)];
  }

  /** Steps of the main loop that send messages of their own. */
  lemma ActivateOrder(s: State, outcome: Outcome, fits: bool, s': State)
    requires OrderOk(s.sent, s.fws, s.gone) && ActivateStep(s, outcome, fits) == Some(s') && s'.open
    ensures OrderOk(s'.sent, s'.fws, s'.gone)
  {
    hide OrderOk;
    var id := s.pc.id;
    OrderPlain(s.sent, s.fws, s.gone, [EmptySnapshot(id), SessionRemove(id, None), SessionAdd(id, false)]);
  }

  lemma AnnounceOrder(s: State, fits: bool, s': State)
    requires OrderOk(s.sent, s.fws, s.gone) && AnnounceStep(s, fits) == Some(s') && s'.open
    ensures OrderOk(s'.sent, s'.fws, s'.gone)
  {
    hide OrderOk;
    OrderPlain(s.sent, s.fws, s.gone, [SessionAdd(s.pc.ls.id, true)]);
  }

  lemma AnswerOrder(s: State, fits: bool, s': State)
    requires OrderOk(s.sent, s.fws, s.gone) && AnswerStep(s, fits) == Some(s') && s'.open
    ensures OrderOk(s'.sent, s'.fws, s'.gone)
  {
    hide OrderOk;
    OrderPlain(s.sent, s.fws, s.gone, [EmptySnapshot(s.pc.id)]);
  }

  lemma BootOrder(s: State, fits: bool, s': State)
    requires OrderOk(s.sent, s.fws, s.gone) && BootStep(s, fits) == Some(s') && s'.open
    ensures OrderOk(s'.sent, s'.fws, s'.gone)
  {
    hide OrderOk;
    if s.pc.rest != [] {
      OrderPlain(s.sent, s.fws, s.gone, [SessionAdd(s.pc.rest[0].id, false)]);
    }
  }

  lemma ChangeOrder(s: State, fits: bool, s': State)
    requires OrderOk(s.sent, s.fws, s.gone) && ChangeStep(s, fits) == Some(s') && s'.open
    ensures OrderOk(s'.sent, s'.fws, s'.gone)
  {
    hide OrderOk;
    match s.changes[0]
    case Removed(id) => OrderPlain(s.sent, s.fws, s.gone, [SessionRemove(id, None)]);
    case Added(ls) => OrderPlain(s.sent, s.fws, s.gone, [SessionAdd(ls.id, false)]);
  }

  lemma BootForwardFields(s: State, fits: bool, s': State)
    requires BootForwardStep(s, fits) == Some(s') && s'.open
    ensures s.pc.BootStart? && (s'.fws == s.fws || exists f :: s'.fws == s.fws + [f])
    ensures s' == s.(pc := s'.pc, forwarders := s'.forwarders, fws := s'.fws, missed := s'.missed, open := true,
                     sent := s.sent + [SessionAdd(s.pc.ls.id, true)])
  {
  }

  /** Steps that start or stop a forwarder. */
  lemma BootForwardOrder(s: State, fits: bool, s': State)
    requires OrderOk(s.sent, s.fws, s.gone) && BootForwardStep(s, fits) == Some(s') && s'.open
    ensures OrderOk(s'.sent, s'.fws, s'.gone)
  {
    hide OrderOk;
    BootForwardFields(s, fits, s');
    hide BootForwardStep;
    OrderForwarders(s.sent, s.fws, s.gone, s'.fws);
    OrderPlain(s.sent, s'.fws, s.gone, [SessionAdd(s.pc.ls.id, true)]);
  }

  lemma ForwardOrder(s: State, s': State)
    requires OrderOk(s.sent, s.fws, s.gone) && ForwardStep(s) == Some(s')
    ensures OrderOk(s'.sent, s'.fws, s'.gone)
  {
    hide OrderOk;
    OrderForwarders(s.sent, s.fws, s.gone, s'.fws);
  }

  lemma StopsOrder(s: State, fw: Fw, s': State)
    requires OrderOk(s.sent, s.fws, s.gone) && StopsStep(s, fw) == Some(s')
    ensures OrderOk(s'.sent, s'.fws, s'.gone)
  {
    hide OrderOk;
    OrderForwarders(s.sent, s.fws, s.gone, s'.fws);
  }

  // ---- every run -----------------------------------------------------------------------------------------

  ghost predicate Inv(s: State) { Core(s) && OrderOk(s.sent, s.fws, s.gone) }

  lemma StepKeepsCore(s: State, a: Action, s': State)
    requires Core(s) && Step(s, a) == Some(s') && s'.open
    ensures Core(s')
  {
    hide Core;
    match a
    case Boot(fits) => BootKeeps(s, fits, s');
    case BootForward(fits) => BootForwardKeeps(s, fits, s');
    case OnAttach(id) => AttachKeeps(s, id, s');
    case Retire(fits) => RetireKeeps(s, fits, s');
    case Activate(outcome, fits) => ActivateKeeps(s, outcome, fits, s');
    case Forward => ForwardKeeps(s, s');
    case Announce(fits) => AnnounceKeeps(s, fits, s');
    case Answer(fits) => AnswerKeeps(s, fits, s');
    case OnChange(fits) => ChangeKeeps(s, fits, s');
    case OnEnded => EndedKeeps(s, s');
    case ForwarderSends(fw) => SendsKeeps(s, fw, s');
    case ForwarderStops(fw) => StopsKeeps(s, fw, s');
    case ForwarderNotifies(fw) => NotifiesKeeps(s, fw, s');
    case Dies(_) => RegistryKeeps(s, a, s');
    case Cleanup(_) => RegistryKeeps(s, a, s');
    case RegistryRemove(_) => RegistryKeeps(s, a, s');
    case Publish(change) => PublishKeeps(s, change, s');
  }

  lemma StepKeepsOrder(s: State, a: Action, s': State)
    requires Inv(s) && Step(s, a) == Some(s') && s'.open
    ensures OrderOk(s'.sent, s'.fws, s'.gone)
  {
    hide Core, OrderOk, BootStep, BootForwardStep, AttachStep, RetireStep, ActivateStep, ForwardStep, AnnounceStep, AnswerStep,
         ChangeStep, EndedStep, SendsStep, StopsStep, NotifiesStep, RegistryStep, PublishStep;
    match a
    case ForwarderSends(fw) => SendsOrder(s, fw, s');
    case Retire(fits) => RetireOrder(s, fits, s');
    case Boot(fits) => BootOrder(s, fits, s');
    case Activate(outcome, fits) => ActivateOrder(s, outcome, fits, s');
    case Announce(fits) => AnnounceOrder(s, fits, s');
    case Answer(fits) => AnswerOrder(s, fits, s');
    case OnChange(fits) => ChangeOrder(s, fits, s');
    case BootForward(fits) => BootForwardOrder(s, fits, s');
    case Forward => ForwardOrder(s, s');
    case ForwarderStops(fw) => StopsOrder(s, fw, s');
    case _ => OthersOrder(s, a, s');
  }

  /** Steps that change neither messages nor forwarders. */
  lemma OthersOrder(s: State, a: Action, s': State)
    requires Step(s, a) == Some(s')
    requires a.OnAttach? || a.OnEnded? || a.ForwarderNotifies? || a.Dies? || a.Cleanup? || a.RegistryRemove? || a.Publish?
    ensures s' == s.(pc := s'.pc, ended := s'.ended, changes := s'.changes, entries := s'.entries, dead := s'.dead)
  {
  }

  lemma InitHolds(s: State)
    requires Init(s)
    ensures Inv(s)
  {
    assert Inv(s);
  }

  lemma {:induction false} RunKeeps(s: State, acts: seq<Action>)
    requires Init(s)
    ensures var r := Exec(s, acts); r.Some? && r.value.open ==> Inv(r.value)
  {
    hide Inv, Step;
    if acts == [] {
      InitHolds(s);
    } else {
      RunKeeps(s, acts[..|acts| - 1]);
      var p := Exec(s, acts[..|acts| - 1]);
      if p.Some? {
        LastStepKeeps(p.value, acts[|acts| - 1]);
      }
    }
  }

  lemma LastStepKeeps(s: State, a: Action)
    requires s.open ==> Inv(s)
    ensures var r := Step(s, a); r.Some? && r.value.open ==> Inv(r.value)
  {
    hide Core, OrderOk;
    var r := Step(s, a);
    if r.Some? && r.value.open {
      StepKeepsCore(s, a, r.value);
      StepKeepsOrder(s, a, r.value);
    }
  }

  // ---- main results --------------------------------------------------------------------------------------

  /** The relay's view matches the agent's state. After every main-loop step on an open connection the
      messages sent so far list exactly the agent's catalog: inactive for the lazy ids, active for the
      rest, nothing else. No lazy id has a live session in the registry. */
  lemma RelayViewMatches(s0: State, acts: seq<Action>)
    requires Init(s0) && Exec(s0, acts).Some?
    requires var s := Exec(s0, acts).value; s.open && s.pc.Idle?
    ensures var s := Exec(s0, acts).value;
      && View(s.sent).Keys == s.available.Keys
      && (forall id :: id in s.available ==> (View(s.sent)[id] <==> id !in s.lazyMap))
      && s.lazyMap.Keys <= s.available.Keys
      && (forall id :: id in s.lazyMap ==> !Live(s.entries, s.dead, id))
  {
    RunKeeps(s0, acts);
    hide OrderOk, ForwardersOk, MissedOk, KnownOk;
  }

  /** Incarnations of an id never mix, on every run of an open connection. */
  lemma IncarnationsNeverMix(s0: State, acts: seq<Action>)
    requires Init(s0) && Exec(s0, acts).Some? && Exec(s0, acts).value.open
    ensures var s := Exec(s0, acts).value;
      // an id is never both lazy and forwarding, except while its activation is being announced
      && (forall id :: id in s.lazyMap && id in s.forwarders ==> s.pc.Announcing? && s.pc.ls.id == id)
      // at most one forwarder per id runs, and it is the one in the table
      && (forall f :: 0 <= f < |s.fws| && s.fws[f].running ==> Current(s.forwarders, s.fws, f))
      // after a forwarder's retirement it sends nothing and is not retired again
      && (forall i, j :: 0 <= i < j < |s.sent| ==> !RetiredBy(s.sent[i], s.sent[j]))
      // whatever a forwarder sends comes after the retirement of every earlier forwarder of its id
      && (forall j :: 0 <= j < |s.sent| && s.sent[j].FromForwarder? ==>
            s.sent[j].fw < |s.fws| && s.fws[s.sent[j].fw].id == s.sent[j].id
            && RetiredBefore(s, j))
  {
    RunKeeps(s0, acts);
    var s := Exec(s0, acts).value;
    hide CatalogOk, MissedOk, KnownOk, ViewOk, BootOk;
    forall j | 0 <= j < |s.sent| && s.sent[j].FromForwarder?
      ensures s.sent[j].fw < |s.fws| && s.fws[s.sent[j].fw].id == s.sent[j].id && RetiredBefore(s, j)
    {
      assert MsgOk(s.sent, j, s.fws, s.gone);
    }
  }

  ghost predicate RetiredBefore(s: State, j: nat)
    requires j < |s.sent| && s.sent[j].FromForwarder? && s.sent[j].fw < |s.fws|
  {
    forall f :: 0 <= f < s.sent[j].fw && s.fws[f].id == s.sent[j].id ==>
      SessionRemove(s.sent[j].id, Some(f)) in s.sent[..j]
  }

  /** An attach is answered from the session its forwarder follows, never from another incarnation:
      whenever the registry has a live session for a forwarded id, the two are the same. */
  lemma SnapshotFromOwnSession(s0: State, acts: seq<Action>, id: Id)
    requires Init(s0) && Exec(s0, acts).Some?
    requires var s := Exec(s0, acts).value; s.open && id in s.forwarders && Live(s.entries, s.dead, id)
    ensures var s := Exec(s0, acts).value;
      s.forwarders[id] < |s.fws| && s.fws[s.forwarders[id]] == Forwarder(id, s.entries[id], true)
  {
    RunKeeps(s0, acts);
    hide CatalogOk, MissedOk, KnownOk, ViewOk, BootOk, OrderOk, LazyOk, PcOk;
  }

  // ---- remote input ----------------------------------------------------------------------------------------

  const APPROVED: seq<seq<byte>> := [[121, 13], [121, 10], [110, 13], [110, 10], [3], [13], [9], [27]]

  /** isApproved: data is exactly one of the approved sequences. */
  method IsApproved(data: seq<byte>) returns (approved: bool)
    ensures approved <==> data in APPROVED
  {
    for k := 0 to |APPROVED|
      invariant data !in APPROVED[..k]
    {
      var candidate := APPROVED[k];
      if |data| == |candidate| {
        var same := true;
        for i := 0 to |candidate|
          invariant same ==> data[..i] == candidate[..i]
          invariant !same ==> data != candidate
        {
          if data[i] != candidate[i] {
            same := false;
            break;
          }
        }
        if same {
          assert data == data[..|candidate|] && candidate == candidate[..|candidate|];
          return true;
        }
      }
    }
    return false;
  }

  /** inputAllowed; a session missing from modes has the empty mode, which is refused. */
  predicate InputAllowed(mode: Option<Mode>, data: seq<byte>)
  {
    match mode
    case Some(Full) => true
    case Some(Approved) => data in APPROVED
    case _ => false
  }

  predicate ResizeAllowed(mode: Option<Mode>) { mode == Some(Full) || mode == Some(Approved) }

  function ModeOf(s: State, id: Id): Option<Mode> { if id in s.modes then Some(s.modes[id]) else None }

  /** Remote input or a resize only ever reaches a session that the relay lists as active, and only as
      the entry's own mode allows. */
  lemma InputNeedsActiveEntry(s0: State, acts: seq<Action>, id: Id, data: seq<byte>)
    requires Init(s0) && Exec(s0, acts).Some?
    requires var s := Exec(s0, acts).value; s.open && s.pc.Idle?
    requires var s := Exec(s0, acts).value; InputAllowed(ModeOf(s, id), data) || ResizeAllowed(ModeOf(s, id))
    ensures var s := Exec(s0, acts).value;
      && id in View(s.sent) && View(s.sent)[id]
      && id in s.available && s.available[id].mode != Readonly
      && (InputAllowed(ModeOf(s, id), data) ==> s.available[id].mode == Full || data in APPROVED)
  {
    RunKeeps(s0, acts);
    hide OrderOk, ForwardersOk, MissedOk, KnownOk;
  }

  // ---- an active entry without a forwarder ------------------------------------------------------------------

  /** In this step startForwarder looks up id and finds its session gone. */
  predicate Misses(s: State, a: Action, id: Id)
  {
    && ((a.BootForward? && s.pc.BootStart?) || (a.Forward? && s.pc.Starting?))
    && s.pc.ls.id == id && !Live(s.entries, s.dead, id)
  }

  lemma SentMissed(s: State, ms: seq<Msg>, fits: bool)
    ensures SendAll(s, ms, fits).missed == s.missed
  {
  }

  lemma ForwardMisses(s: State, a: Action, s': State)
    requires (a.BootForward? || a.Forward?) && Step(s, a) == Some(s')
    ensures forall id :: id in s'.missed <==> id in s.missed || Misses(s, a, id)
  {
    hide SendAll;
    if a.BootForward? {
      SentMissed(StartForwarder(s, s.pc.ls.id).(pc := Booting(s.pc.rest)), [SessionAdd(s.pc.ls.id, true)], a.fits);
    }
  }

  lemma AttachMisses(s: State, id: Id, s': State)
    requires AttachStep(s, id) == Some(s')
    ensures s'.missed == s.missed
  {
  }

  lemma ActivateMisses(s: State, outcome: Outcome, fits: bool, s': State)
    requires ActivateStep(s, outcome, fits) == Some(s')
    ensures s'.missed == s.missed
  {
    hide SendAll;
    var id := s.pc.id;
    SentMissed(s.(pc := Idle), [EmptySnapshot(id), SessionRemove(id, None), SessionAdd(id, false)], fits);
  }

  lemma AnnounceMisses(s: State, fits: bool, s': State)
    requires AnnounceStep(s, fits) == Some(s')
    ensures s'.missed == s.missed
  {
  }

  lemma AnswerMisses(s: State, fits: bool, s': State)
    requires AnswerStep(s, fits) == Some(s')
    ensures s'.missed == s.missed
  {
  }

  lemma RetireMisses(s: State, fits: bool, s': State)
    requires RetireStep(s, fits) == Some(s')
    ensures s'.missed == s.missed
  {
  }

  lemma BootMisses(s: State, fits: bool, s': State)
    requires BootStep(s, fits) == Some(s')
    ensures s'.missed == s.missed
  {
  }

  lemma ChangeMisses(s: State, fits: bool, s': State)
    requires ChangeStep(s, fits) == Some(s')
    ensures s'.missed == s.missed
  {
  }

  lemma OthersMissed(s: State, a: Action, s': State)
    requires a.OnEnded? || a.ForwarderSends? || a.ForwarderStops? || a.ForwarderNotifies?
          || a.Dies? || a.Cleanup? || a.RegistryRemove? || a.Publish?
    requires Step(s, a) == Some(s')
    ensures s'.missed == s.missed
  {
  }

  lemma StepMissed(s: State, a: Action, s': State)
    requires Step(s, a) == Some(s')
    ensures forall id :: id in s'.missed <==> id in s.missed || Misses(s, a, id)
  {
    hide BootStep, BootForwardStep, AttachStep, RetireStep, ActivateStep, ForwardStep, AnnounceStep, AnswerStep,
         ChangeStep, EndedStep, SendsStep, StopsStep, NotifiesStep, RegistryStep, PublishStep;
    match a
    case BootForward(_) => ForwardMisses(s, a, s');
    case Forward => ForwardMisses(s, a, s');
    case Boot(fits) => BootMisses(s, fits, s');
    case OnChange(fits) => ChangeMisses(s, fits, s');
    case Retire(fits) => RetireMisses(s, fits, s');
    case OnAttach(id) => AttachMisses(s, id, s');
    case Activate(outcome, fits) => ActivateMisses(s, outcome, fits, s');
    case Announce(fits) => AnnounceMisses(s, fits, s');
    case Answer(fits) => AnswerMisses(s, fits, s');
    case _ => OthersMissed(s, a, s');
  }

  /** Some step of the run looked up id's session for a forwarder and found it gone. */
  ghost predicate LostSession(s0: State, acts: seq<Action>, id: Id)
  {
    exists i :: 0 <= i < |acts| && LostAt(s0, acts, i, id)
  }

  ghost predicate LostAt(s0: State, acts: seq<Action>, i: nat, id: Id)
    requires i < |acts|
  {
    var before := Exec(s0, acts[..i]);
    before.Some? && Misses(before.value, acts[i], id)
  }

  lemma {:induction false} MissedWhen(s0: State, acts: seq<Action>, s: State, id: Id)
    requires Init(s0) && Exec(s0, acts) == Some(s)
    ensures id in s.missed <==> LostSession(s0, acts, id)
  {
    hide Step, Misses;
    if acts != [] {
      var k := |acts| - 1;
      var init := acts[..k];
      var t := Exec(s0, init).value;
      MissedWhen(s0, init, t, id);
      StepMissed(t, acts[k], s);
      forall i | 0 <= i < k ensures LostAt(s0, init, i, id) <==> LostAt(s0, acts, i, id) {
        assert init[..i] == acts[..i];
      }
      assert LostAt(s0, acts, k, id) <==> Misses(t, acts[k], id);
    }
  }

  /** "Active at the relay" does not always mean "somebody forwards its output". It fails for exactly the
      ids whose session had already ended when startForwarder looked it up, in some step of the run. */
  lemma ActiveButNotForwarded(s0: State, acts: seq<Action>, id: Id)
    requires Init(s0) && Exec(s0, acts).Some?
    requires var s := Exec(s0, acts).value; s.open && s.pc.Idle? && id in s.available && id !in s.lazyMap
    ensures var s := Exec(s0, acts).value; id in s.forwarders <==> !LostSession(s0, acts, id)
  {
    RunKeeps(s0, acts);
    MissedWhen(s0, acts, Exec(s0, acts).value, id);
    hide OrderOk, ForwardersOk, CatalogOk, KnownOk, LostSession, Step;
  }

  lemma ExecSnoc(s0: State, acts: seq<Action>, s: State, a: Action)
    requires Exec(s0, acts) == Some(s)
    ensures Exec(s0, acts + [a]) == Step(s, a)
  {
    assert (acts + [a])[..|acts|] == acts;
  }

  /** A run that shows it: the session dies between the two lookups of the start-up loop. */
  lemma ActiveButNotForwardedExample(s0: State, ls: Lazy) returns (acts: seq<Action>, s: State)
    requires Init(s0) && s0.pc.rest == [ls] && s0.next == 1 && s0.dead == {} && s0.entries == map[ls.id := 0]
    ensures Exec(s0, acts) == Some(s) && s.open && s.pc.Idle?
    ensures ls.id in View(s.sent) && View(s.sent)[ls.id] && ls.id !in s.forwarders
  {
    var s1 := s0.(available := map[][ls.id := ls], modes := map[][ls.id := ls.mode], pc := BootStart(ls, s0.pc.rest[1..]));
    var s2 := s1.(dead := {} + {0});
    var s3 := s2.(missed := {} + {ls.id}, pc := Booting(s0.pc.rest[1..]), sent := [] + [SessionAdd(ls.id, true)]);
    s := s3.(pc := Idle);
    ExecSnoc(s0, [], s0, Boot(true));
    ExecSnoc(s0, [] + [Boot(true)], s1, Dies(0));
    ExecSnoc(s0, [] + [Boot(true)] + [Dies(0)], s2, BootForward(true));
    ExecSnoc(s0, [] + [Boot(true)] + [Dies(0)] + [BootForward(true)], s3, Boot(true));
    acts := [] + [Boot(true)] + [Dies(0)] + [BootForward(true)] + [Boot(true)];
    ViewSnoc([], SessionAdd(ls.id, true));
  }
}
