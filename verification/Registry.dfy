/** internal/sessions: the registry of running sessions. Every critical section of registry.go and
    spawn.go is one method, so that a sequence of calls is an interleaving of the goroutines. */
module Registry {
  import opened Common

  type Id = nat
  type Session = nat   // one running terminal
  type Source = string // dedup key; "" for plain sessions

  datatype Entry = Entry(session: Session, source: Source)

  /** liveSourceLocked. */
  function LiveSource(entries: map<Id, Entry>, sourceToID: map<Source, Id>, ended: set<Session>, src: Source): Option<Entry>
  {
    if src in sourceToID && sourceToID[src] in entries && entries[sourceToID[src]].session !in ended
    then Some(entries[sourceToID[src]]) else None
  }

  /** The reverse table without the link from source to id, if it has that link. */
  function Unlinked(sourceToID: map<Source, Id>, source: Source, id: Id): map<Source, Id>
  {
    map src | src in sourceToID && !(source != "" && src == source && sourceToID[src] == id) :: sourceToID[src]
  }

  lemma UnlinkedIs(sourceToID: map<Source, Id>, source: Source, id: Id)
    ensures Unlinked(sourceToID, source, id) ==
      if source != "" && source in sourceToID && sourceToID[source] == id then sourceToID - {source} else sourceToID
  {
  }

  /** Every live entry of a source is what a lookup of the source finds. */
  ghost predicate FindsAll(entries: map<Id, Entry>, sourceToID: map<Source, Id>, ended: set<Session>, sourceOf: Id -> Source)
  {
    forall id :: id in entries && sourceOf(id) != "" && entries[id].session !in ended ==>
      var found := LiveSource(entries, sourceToID, ended, sourceOf(id));
      found.Some? && found.value.session == entries[id].session
  }

  /** The reverse table only leads to ids of the source asked for. */
  ghost predicate LeadsBack(sourceToID: map<Source, Id>, sourceOf: Id -> Source)
  {
    forall src :: src in sourceToID ==> src != "" && sourceOf(sourceToID[src]) == src
  }

  ghost predicate OnlyAlive(entries: map<Id, Entry>, ended: set<Session>, sourceOf: Id -> Source, id: Id, src: Source, sess: Session)
  {
    forall k :: k in entries && k != id && sourceOf(k) == src ==> entries[k].session in ended || entries[k].session == sess
  }

  /** An alias of what the lookup found is found as well. */
  lemma AliasFound(entries: map<Id, Entry>, sourceToID: map<Source, Id>, ended: set<Session>, sourceOf: Id -> Source,
                   id: Id, src: Source, e: Entry)
    requires FindsAll(entries, sourceToID, ended, sourceOf) && LeadsBack(sourceToID, sourceOf)
    requires sourceOf(id) == src && LiveSource(entries, sourceToID, ended, src).Some?
    requires e.session == LiveSource(entries, sourceToID, ended, src).value.session
    ensures FindsAll(entries[id := e], sourceToID, ended, sourceOf)
  {
  }

  /** Registering a live session of src under id. */
  lemma RegisteredFound(entries: map<Id, Entry>, sourceToID: map<Source, Id>, ended: set<Session>, sourceOf: Id -> Source,
                        id: Id, src: Source, sess: Session)
    requires FindsAll(entries, sourceToID, ended, sourceOf) && LeadsBack(sourceToID, sourceOf)
    requires sourceOf(id) == src != ""
    ensures OnlyAlive(entries, ended, sourceOf, id, src, sess) && sess !in ended ==>
      FindsAll(entries[id := Entry(sess, src)], sourceToID[src := id], ended, sourceOf)
    ensures FindsAll(entries[id := Entry(sess, src)], sourceToID[src := id], ended, sourceOf) ==>
      OnlyAlive(entries, ended, sourceOf, id, src, sess)
    ensures (forall k :: k in entries && sourceOf(k) == src ==> entries[k].session in ended) ==>
      FindsAll(entries[id := Entry(sess, src)], sourceToID[src := id], ended, sourceOf)
  {
    var entries', sourceToID' := entries[id := Entry(sess, src)], sourceToID[src := id];
    assert LiveSource(entries', sourceToID', ended, src) == if sess in ended then None else Some(Entry(sess, src));
    forall k | k in entries && k != id && sourceOf(k) != src && sourceOf(k) != ""
      ensures LiveSource(entries', sourceToID', ended, sourceOf(k)) == LiveSource(entries, sourceToID, ended, sourceOf(k))
    {
    }
  }

  /** Forgetting an id whose session has ended. */
  lemma ForgottenFound(entries: map<Id, Entry>, sourceToID: map<Source, Id>, ended: set<Session>, sourceOf: Id -> Source, id: Id)
    requires FindsAll(entries, sourceToID, ended, sourceOf) && LeadsBack(sourceToID, sourceOf)
    requires id in entries && entries[id].session in ended
    ensures FindsAll(entries - {id}, Unlinked(sourceToID, entries[id].source, id), ended, sourceOf)
    ensures LeadsBack(Unlinked(sourceToID, entries[id].source, id), sourceOf)
  {
  }

  /** Registering a session without a source. */
  lemma PlainFound(entries: map<Id, Entry>, sourceToID: map<Source, Id>, ended: set<Session>, sourceOf: Id -> Source, id: Id, e: Entry)
    requires FindsAll(entries, sourceToID, ended, sourceOf) && LeadsBack(sourceToID, sourceOf) && sourceOf(id) == ""
    ensures FindsAll(entries[id := e], sourceToID, ended, sourceOf)
  {
  }

  class SessionRegistry {
    var entries: map<Id, Entry>
    var sourceToID: map<Source, Id>
    var ended: set<Session>                    // sessions whose Done is closed

    ghost var cleanups: set<(Id, Session)>     // forgetWhenDone goroutines that have not run yet
    ghost var spawnedFor: map<Session, Source> // what each spawned session attaches to
    ghost const sourceOf: Id -> Source         // the source an id is meant to be used with, "" for none

    /** Every entry has a cleanup still pending for its own session. */
    ghost predicate Tended()
      reads this
    {
      forall id :: id in entries ==> (id, entries[id].session) in cleanups
    }

    /** A session registered under an id of a source was spawned for that source, and the reverse table
        only leads to ids of the source asked for. */
    ghost predicate Sourced()
      reads this
    {
      && (forall id :: id in entries && sourceOf(id) != "" ==> Attached(entries[id].session, sourceOf(id)))
      && LeadsBack(sourceToID, sourceOf)
    }

    ghost predicate Attached(sess: Session, src: Source)
      reads this
    {
      sess in spawnedFor && spawnedFor[sess] == src
    }

    /** Each source has at most one live registered session, and a lookup finds it. */
    ghost predicate Deduplicated()
      reads this
    {
      FindsAll(entries, sourceToID, ended, sourceOf)
    }

    /** No session of src is registered and alive. */
    ghost predicate NoneLive(src: Source)
      reads this
    {
      forall id :: id in entries && sourceOf(id) == src ==> entries[id].session in ended
    }

    /** Apart from id, nothing of src but sess itself is registered and alive. */
    ghost predicate OnlyLive(id: Id, src: Source, sess: Session)
      reads this
    {
      OnlyAlive(entries, ended, sourceOf, id, src, sess)
    }

    constructor (ghost sourceOf: Id -> Source)
      ensures Tended() && Sourced() && Deduplicated() && entries == map[] && this.sourceOf == sourceOf
      ensures sourceToID == map[] && ended == {} && spawnedFor == map[]
    {
      entries, sourceToID, ended := map[], map[], {};
      cleanups, spawnedFor := {}, map[];
      this.sourceOf := sourceOf;
    }

    /** A session ends by itself. */
    method Dies(sess: Session)
      modifies this`ended
      ensures ended == old(ended) + {sess}
      ensures (old(Tended()) ==> Tended()) && (old(Sourced()) ==> Sourced()) && (old(Deduplicated()) ==> Deduplicated())
      ensures forall src :: old(NoneLive(src)) ==> NoneLive(src)
    {
      ended := ended + {sess};
    }

    /** Get: a session whose Done is closed is missing even before its cleanup ran. */
    method Get(id: Id) returns (sess: Option<Session>)
      ensures sess.Some? <==> id in entries && entries[id].session !in ended
      ensures sess.Some? ==> sess.value == entries[id].session
    {
      if id !in entries || entries[id].session in ended {
        return None;
      }
      return Some(entries[id].session);
    }

    /** The body of forgetWhenDone once sess has ended. However late it runs, it never touches an entry
        whose session is alive. */
    method ForgetWhenDone(id: Id, sess: Session)
      requires sess in ended
      modifies this`entries, this`sourceToID, this`cleanups
      ensures entries == if id in old(entries) && old(entries)[id].session == sess then old(entries) - {id} else old(entries)
      ensures cleanups == old(cleanups) - {(id, sess)}
      ensures sourceToID == if id in old(entries) && old(entries)[id].session == sess
        then Unlinked(old(sourceToID), old(entries)[id].source, id) else old(sourceToID)
      ensures forall k :: k in old(entries) && old(entries)[k].session !in ended ==> k in entries && entries[k] == old(entries)[k]
      ensures (old(Tended()) ==> Tended()) && (old(Sourced()) ==> Sourced())
      ensures old(Sourced()) && old(Deduplicated()) ==> Deduplicated()
      ensures forall src :: old(NoneLive(src)) ==> NoneLive(src)
    {
      cleanups := cleanups - {(id, sess)};
      if id !in entries || entries[id].session != sess {
        return;
      }
      var e := entries[id];
      UnlinkedIs(sourceToID, e.source, id);
      if Sourced() && Deduplicated() {
        ForgottenFound(entries, sourceToID, ended, sourceOf, id);
      }
      hide FindsAll, Unlinked;
      entries := entries - {id};
      if e.source != "" && e.source in sourceToID && sourceToID[e.source] == id {
        sourceToID := sourceToID - {e.source};
      }
    }

    /** Add: registers a running terminal that belongs to no source; a different old one is closed. */
    method Add(id: Id, term: Session)
      modifies this`entries, this`ended, this`cleanups
      ensures entries == old(entries)[id := Entry(term, "")]
      ensures ended == old(ended) + if id in old(entries) && old(entries)[id].session != term then {old(entries)[id].session} else {}
      ensures old(Tended()) ==> Tended()
      ensures old(Sourced()) ==> (Sourced() <==> sourceOf(id) == "" || Attached(term, sourceOf(id)))
      ensures sourceOf(id) == "" && old(Sourced()) && old(Deduplicated()) ==> Deduplicated()
      ensures forall src :: src != sourceOf(id) && old(NoneLive(src)) ==> NoneLive(src)
    {
      var existed := id in entries;
      var before := if existed then entries[id].session else 0;
      entries := entries[id := Entry(term, "")];
      if existed && before != term {
        ended := ended + {before};
      }
      cleanups := cleanups + {(id, term)};
    }

    /** Remove: forgets id and closes its session. */
    method Remove(id: Id)
      modifies this`entries, this`sourceToID, this`ended
      ensures entries == old(entries) - {id}
      ensures sourceToID == if id in old(entries) then Unlinked(old(sourceToID), old(entries)[id].source, id) else old(sourceToID)
      ensures ended == old(ended) + if id in old(entries) then {old(entries)[id].session} else {}
      ensures (old(Tended()) ==> Tended()) && (old(Sourced()) ==> Sourced())
      ensures old(Sourced()) && old(Deduplicated()) ==> Deduplicated()
      ensures forall src :: old(NoneLive(src)) ==> NoneLive(src)
    {
      if id in entries {
        var e := entries[id];
        entries := entries - {id};
        if e.source != "" && e.source in sourceToID && sourceToID[e.source] == id {
          sourceToID := sourceToID - {e.source};
        }
        ended := ended + {e.session};
      }
    }

    /** The lookup of Create: never an ended session, and never another source's. A miss means that no
        live session of the source is registered. */
    method Lookup(src: Source) returns (found: Option<Session>)
      ensures src != "" ==> (found.Some? <==> LiveSource(entries, sourceToID, ended, src).Some?)
      ensures src == "" ==> found.None?
      ensures found.Some? ==> found.value !in ended
      ensures found.Some? ==> src in sourceToID && sourceToID[src] in entries && entries[sourceToID[src]].session == found.value
      ensures found.Some? && Sourced() ==> Attached(found.value, src)
      ensures found.None? && src != "" && Deduplicated() ==> NoneLive(src)
    {
      if src != "" {
        var live := LiveSource(entries, sourceToID, ended, src);
        if live.Some? {
          return Some(live.value.session);
        }
      }
      return None;
    }

    /** The first critical section of CreateWithID: the source's live session gets id as an alias. */
    method LookupOrAlias(id: Id, src: Source) returns (found: Option<Session>)
      modifies this`entries, this`cleanups
      ensures var live := old(LiveSource(entries, sourceToID, ended, src));
        found == if src != "" && live.Some? then Some(live.value.session) else None
      ensures found.Some? ==> found.value !in ended && entries == old(entries)[id := Entry(found.value, "")]
      ensures found.Some? && old(Sourced()) ==> Attached(found.value, src)
      ensures found.None? ==> entries == old(entries) && (src != "" && old(Deduplicated()) ==> NoneLive(src))
      ensures old(Tended()) ==> Tended()
      ensures sourceOf(id) == src ==> (old(Sourced()) ==> Sourced()) && (old(Sourced()) && old(Deduplicated()) ==> Deduplicated())
    {
      found := Lookup(src);
      if found.Some? {
        if Sourced() && Deduplicated() && sourceOf(id) == src {
          AliasFound(entries, sourceToID, ended, sourceOf, id, src, Entry(found.value, ""));
        }
        hide FindsAll, LeadsBack;
        entries := entries[id := Entry(found.value, "")];
        cleanups := cleanups + {(id, found.value)};
      }
    }

    /** pty.New: a fresh session that attaches to src. */
    ghost method Spawn(sess: Session, src: Source)
      requires sess !in spawnedFor
      modifies this`spawnedFor
      ensures spawnedFor == old(spawnedFor)[sess := src] && (old(Sourced()) ==> Sourced())
    {
      spawnedFor := spawnedFor[sess := src];
    }

    /** The last critical section of Create and CreateWithID. Registering a live session keeps its source
        deduplicated if and only if no other live session of the source is registered at that moment:
        that is what a caller would have to look up again under the same lock. */
    method Register(id: Id, src: Source, sess: Session)
      modifies this`entries, this`sourceToID, this`cleanups
      ensures entries == old(entries)[id := Entry(sess, src)]
      ensures sourceToID == if src != "" then old(sourceToID)[src := id] else old(sourceToID)
      ensures old(Tended()) ==> Tended()
      ensures sourceOf(id) == src && old(Sourced()) && (src == "" || old(Attached(sess, src))) ==> Sourced()
      ensures sourceOf(id) == src && old(Sourced()) && old(Deduplicated()) && (src == "" || old(NoneLive(src))) ==> Deduplicated()
      ensures sourceOf(id) == src != "" && old(Sourced()) && old(Deduplicated()) && sess !in ended ==>
        (Deduplicated() <==> old(OnlyLive(id, src, sess)))
    {
      hide FindsAll, OnlyAlive;
      if Sourced() && Deduplicated() && sourceOf(id) == src {
        if src == "" {
          PlainFound(entries, sourceToID, ended, sourceOf, id, Entry(sess, src));
        } else {
          RegisteredFound(entries, sourceToID, ended, sourceOf, id, src, sess);
        }
      }
      entries := entries[id := Entry(sess, src)];
      if src != "" {
        sourceToID := sourceToID[src := id];
      }
      cleanups := cleanups + {(id, sess)};
    }

    /** CreateWithID with no other create in between: what it registers under id is alive or just
        spawned, attaches to the requested source, and stays the source's only live session.
        `spawned` is the result of pty.New, if it was needed and succeeded. */
    method CreateWithID(id: Id, src: Source, spawned: Option<Session>) returns (sess: Option<Session>)
      requires Tended() && Sourced() && Deduplicated() && sourceOf(id) == src
      requires spawned.Some? ==> spawned.value !in spawnedFor
      modifies this
      ensures Tended() && Sourced() && Deduplicated() && ended == old(ended)
      ensures var live := old(LiveSource(entries, sourceToID, ended, src));
        if src != "" && live.Some? then
          sess == Some(live.value.session) && entries == old(entries)[id := Entry(live.value.session, "")] && sourceToID == old(sourceToID)
        else if spawned.Some? then
          && sess == spawned && entries == old(entries)[id := Entry(spawned.value, src)]
          && sourceToID == if src != "" then old(sourceToID)[src := id] else old(sourceToID)
        else sess.None? && entries == old(entries) && sourceToID == old(sourceToID)
      ensures sess.Some? ==> id in entries && entries[id].session == sess.value && (src != "" ==> Attached(sess.value, src))
    {
      sess := LookupOrAlias(id, src);
      if sess.Some? {
        return;
      }
      if spawned.None? {
        return None;
      }
      Spawn(spawned.value, src);
      Register(id, src, spawned.value);
      return spawned;
    }
  }

  /** Without sequential creates deduplication fails: whenever two creates for one source both looked
      before either registered, and both of their sessions are alive, the source ends up with two. */
  method ConcurrentCreates(r: SessionRegistry, src: Source, a: Id, b: Id, s: Session, t: Session)
    requires r.Tended() && r.Sourced() && r.Deduplicated() && src != "" && r.NoneLive(src)
    requires a != b && r.sourceOf(a) == src && r.sourceOf(b) == src
    requires s != t && s !in r.spawnedFor && t !in r.spawnedFor && s !in r.ended && t !in r.ended
    modifies r
    ensures r.Tended() && r.Sourced() && !r.Deduplicated()
    ensures r.entries == old(r.entries)[a := Entry(s, src)][b := Entry(t, src)]
  {
    var first := r.Lookup(src);
    var second := r.Lookup(src);
    assert first.None? && second.None?;
    hide FindsAll, LeadsBack;
    r.Spawn(s, src);
    r.Spawn(t, src);
    r.Register(a, src, s);
    assert a in r.entries && r.entries[a].session == s;
    assert !r.OnlyLive(b, src, t);
    r.Register(b, src, t);
  }
}
