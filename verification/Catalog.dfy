/** cmd/scomp/session_catalog.go: stable ids for discovered sessions, and the changes published to
    connected agents. */
module Catalog {
  import opened Common
  import opened Agent
  import Registry

  datatype Key = Tmux(name: string) | Screen(name: string)

  /** A subscriber's channel: what it was given at the start, every change accepted since, how many of
      those it has received, and whether a change ever bypassed it. */
  datatype Feed = Feed(initial: map<Id, Lazy>, accepted: seq<Change>, received: nat, lossy: bool)

  /** The entries after some changes, as the subscriber computes them. */
  function Replay(start: map<Id, Lazy>, changes: seq<Change>): map<Id, Lazy>
  {
    if changes == [] then start
    else ApplyChange(Replay(start, changes[..|changes| - 1]), changes[|changes| - 1])
  }

  lemma {:induction false} ReplayAppend(start: map<Id, Lazy>, xs: seq<Change>, ys: seq<Change>)
    ensures Replay(start, xs + ys) == Replay(Replay(start, xs), ys)
  {
    if ys == [] {
      assert xs + ys == xs;
    } else {
      var k := |ys| - 1;
      assert (xs + ys)[..|xs| + k] == xs + ys[..k];
      ReplayAppend(start, xs, ys[..k]);
    }
  }

  lemma ReplaySnoc(start: map<Id, Lazy>, xs: seq<Change>, c: Change)
    ensures Replay(start, xs + [c]) == ApplyChange(Replay(start, xs), c)
  {
    assert (xs + [c])[..|xs|] == xs;
  }

  /** m lists the catalog's entries by id. */
  ghost predicate IsIndex(m: map<Id, Lazy>, entries: map<Key, Lazy>)
  {
    && (forall id :: id in m ==> exists k :: k in entries && entries[k].id == id && m[id] == entries[k])
    && (forall k :: k in entries ==> entries[k].id in m && m[entries[k].id] == entries[k])
  }

  ghost predicate Distinct(entries: map<Key, Lazy>, next: Id)
  {
    && (forall k :: k in entries ==> entries[k].id < next)
    && (forall j, k :: j in entries && k in entries && j != k ==> entries[j].id != entries[k].id)
  }

  lemma IndexMore(m: map<Id, Lazy>, entries: map<Key, Lazy>, k: Key, e: Lazy, next: Id)
    requires IsIndex(m, entries) && Distinct(entries, next) && k !in entries && e.id < next
    requires forall j :: j in entries ==> entries[j].id != e.id
    ensures IsIndex(m[e.id := e], entries[k := e]) && Distinct(entries[k := e], next)
  {
    DistinctMore(entries, k, e, next);
    hide Distinct;
    var m', entries' := m[e.id := e], entries[k := e];
    forall id | id in m' ensures exists j :: j in entries' && entries'[j].id == id && m'[id] == entries'[j] {
      if id == e.id {
        assert k in entries';
      } else {
        var j :| j in entries && entries[j].id == id && m[id] == entries[j];
        assert j in entries';
      }
    }
  }

  lemma DistinctMore(entries: map<Key, Lazy>, k: Key, e: Lazy, next: Id)
    requires Distinct(entries, next) && e.id < next && forall j :: j in entries ==> entries[j].id != e.id
    ensures Distinct(entries[k := e], next)
  {
  }

  lemma IndexAdd(m: map<Id, Lazy>, entries: map<Key, Lazy>, k: Key, e: Lazy, next: Id)
    requires IsIndex(m, entries) && Distinct(entries, next) && k !in entries && e.id == next
    ensures IsIndex(m[e.id := e], entries[k := e]) && Distinct(entries[k := e], next + 1)
  {
    IndexMore(m, entries, k, e, next + 1);
  }

  lemma IndexRemove(m: map<Id, Lazy>, entries: map<Key, Lazy>, k: Key, next: Id)
    requires IsIndex(m, entries) && Distinct(entries, next) && k in entries
    ensures IsIndex(m - {entries[k].id}, entries - {k}) && Distinct(entries - {k}, next)
  {
    var m', entries' := m - {entries[k].id}, entries - {k};
    forall id | id in m' ensures exists j :: j in entries' && entries'[j].id == id && m'[id] == entries'[j] {
      var j :| j in entries && entries[j].id == id && m[id] == entries[j];
      assert j in entries';
    }
  }

  /** The index is determined by the entries. */
  lemma IndexUnique(a: map<Id, Lazy>, b: map<Id, Lazy>, entries: map<Key, Lazy>)
    requires IsIndex(a, entries) && IsIndex(b, entries)
    ensures a == b
  {
    forall id | id in a ensures id in b && a[id] == b[id] {
      var k :| k in entries && entries[k].id == id && a[id] == entries[k];
    }
    forall id | id in b ensures id in a {
      var k :| k in entries && entries[k].id == id && b[id] == entries[k];
    }
  }

  lemma IndexMode(m: map<Id, Lazy>, entries: map<Key, Lazy>, mode: Mode)
    requires IsIndex(m, entries) && HaveMode(entries, mode)
    ensures HaveMode(m, mode)
  {
  }

  /** What the channel accepts of a burst of changes. */
  function Offer(f: Feed, changes: seq<Change>): Feed
    requires Bounded(f)
  {
    var room := CHANGES_CAP - (|f.accepted| - f.received);
    if |changes| <= room then f.(accepted := f.accepted + changes)
    else f.(accepted := f.accepted + changes[..room], lossy := true)
  }

  predicate Bounded(f: Feed) { f.received <= |f.accepted| <= f.received + CHANGES_CAP }

  /** A removed id is an old one, and no entry has it. */
  ghost predicate RetiredOk(retired: set<Id>, entries: map<Key, Lazy>, next: Id)
  {
    forall id :: id in retired ==> id < next && forall k :: k in entries ==> entries[k].id != id
  }

  lemma RetiredAdd(retired: set<Id>, entries: map<Key, Lazy>, next: Id, k: Key, e: Lazy)
    requires RetiredOk(retired, entries, next) && e.id == next
    ensures RetiredOk(retired, entries[k := e], next + 1)
  {
  }

  lemma RetiredRemove(retired: set<Id>, entries: map<Key, Lazy>, next: Id, k: Key)
    requires RetiredOk(retired, entries, next) && Distinct(entries, next) && k in entries
    ensures RetiredOk(retired + {entries[k].id}, entries - {k}, next)
  {
  }

  ghost predicate HaveMode<K(!new)>(m: map<K, Lazy>, mode: Mode) { forall k :: k in m ==> m[k].mode == mode }

  /** Whatever is added has the catalog's mode. */
  predicate AddsMode(changes: seq<Change>, mode: Mode)
  {
    forall i :: 0 <= i < |changes| && changes[i].Added? ==> changes[i].entry.mode == mode
  }

  /** A subscriber is only told of entries with the catalog's mode, and if it missed nothing it can
      compute the current entries. */
  ghost predicate FeedOk(f: Feed, entries: map<Key, Lazy>, mode: Mode)
  {
    Bounded(f) && HaveMode(f.initial, mode) && AddsMode(f.accepted, mode) && (!f.lossy ==> IsIndex(Replay(f.initial, f.accepted), entries))
  }

  /** Ids of entries that were there before and are not any more. */
  ghost predicate Dropped(before: map<Key, Lazy>, after: map<Key, Lazy>, id: Id)
  {
    exists k :: k in before && k !in after && before[k].id == id
  }

  class SessionCatalog {
    const reg: Registry.SessionRegistry
    const mode: Mode
    var entries: map<Key, Lazy>
    var nextId: Id                  // newSessionID: ids are never repeated
    var subscribers: map<nat, Feed>
    var nextSub: nat

    ghost var retired: set<Id>      // ids that were removed

    ghost predicate Valid()
      reads this
    {
      && Distinct(entries, nextId) && RetiredOk(retired, entries, nextId) && HaveMode(entries, mode)
      && (forall c :: c in subscribers ==> c < nextSub && FeedOk(subscribers[c], entries, mode))
    }

    /** newSessionCatalog, up to and including its first scan, which nobody is told about. */
    constructor (reg: Registry.SessionRegistry, mode: Mode, tmux: seq<string>, screen: seq<string>)
      modifies reg
      ensures Valid() && this.reg == reg && this.mode == mode
      ensures entries.Keys == Listed(tmux, screen) && subscribers == map[]
      ensures reg.entries == old(reg.entries)
    {
      this.reg, this.mode := reg, mode;
      entries, nextId, subscribers, nextSub, retired := map[], 0, map[], 0, {};
      new;
      Scan(tmux, screen, false);
      assert reg.entries == old(reg.entries);
    }

    /** One new entry per listed key that is not in the catalog yet. */
    method AddListed(listed: seq<Key>, changes0: seq<Change>, ghost start: map<Id, Lazy>) returns (changes: seq<Change>)
      requires Distinct(entries, nextId) && RetiredOk(retired, entries, nextId) && IsIndex(Replay(start, changes0), entries)
      requires HaveMode(entries, mode) && AddsMode(changes0, mode)
      modifies this`entries, this`nextId
      ensures Distinct(entries, nextId) && RetiredOk(retired, entries, nextId) && IsIndex(Replay(start, changes), entries)
      ensures HaveMode(entries, mode) && AddsMode(changes, mode)
      ensures old(nextId) <= nextId && entries.Keys == old(entries).Keys + Keys(listed)
      ensures Keeps(old(entries), entries, old(nextId))
    {
      hide Distinct, RetiredOk, IsIndex, Replay;
      changes := changes0;
      for i := 0 to |listed|
        invariant Distinct(entries, nextId) && RetiredOk(retired, entries, nextId) && IsIndex(Replay(start, changes), entries)
        invariant HaveMode(entries, mode) && AddsMode(changes, mode)
        invariant old(nextId) <= nextId && entries.Keys == old(entries).Keys + Keys(listed[..i])
        invariant Keeps(old(entries), entries, old(nextId))
      {
        var key := listed[i];
        assert Keys(listed[..i + 1]) == Keys(listed[..i]) + {key} by { assert listed[..i + 1] == listed[..i] + [key]; }
        if key !in entries {
          var entry := Lazy(nextId, mode);
          IndexAdd(Replay(start, changes), entries, key, entry, nextId);
          RetiredAdd(retired, entries, nextId, key, entry);
          ReplaySnoc(start, changes, Added(entry));
          nextId := nextId + 1;
          entries := entries[key := entry];
          changes := changes + [Added(entry)];
        }
      }
      assert listed[..|listed|] == listed;
    }

    /** Removes the entries whose keys are not present, in any order. */
    method RemoveAbsent(present: set<Key>, changes0: seq<Change>, ghost start: map<Id, Lazy>)
      returns (changes: seq<Change>, removed: seq<Id>)
      requires Distinct(entries, nextId) && RetiredOk(retired, entries, nextId) && IsIndex(Replay(start, changes0), entries)
      requires HaveMode(entries, mode) && AddsMode(changes0, mode)
      requires present <= entries.Keys
      modifies this`entries, this`retired
      ensures Distinct(entries, nextId) && RetiredOk(retired, entries, nextId) && IsIndex(Replay(start, changes), entries)
      ensures HaveMode(entries, mode) && AddsMode(changes, mode)
      ensures entries.Keys == present && forall k :: k in entries ==> entries[k] == old(entries)[k]
      ensures old(retired) <= retired && forall k :: k in old(entries) && k !in entries ==> old(entries)[k].id in retired
      ensures forall id :: id in removed <==> Dropped(old(entries), entries, id)
    {
      hide Distinct, RetiredOk, IsIndex, Replay;
      changes, removed := changes0, [];
      var gone := entries.Keys - present;
      while gone != {}
        invariant gone !! present && entries.Keys == gone + present
        invariant entries.Keys <= old(entries).Keys && forall k :: k in entries ==> entries[k] == old(entries)[k]
        invariant Distinct(entries, nextId) && RetiredOk(retired, entries, nextId) && IsIndex(Replay(start, changes), entries)
        invariant HaveMode(entries, mode) && AddsMode(changes, mode)
        invariant old(retired) <= retired && forall k :: k in old(entries) && k !in entries ==> old(entries)[k].id in retired
        invariant forall id :: id in removed <==> Dropped(old(entries), entries, id)
        decreases gone
      {
        var key :| key in gone;
        var entry := entries[key];
        IndexRemove(Replay(start, changes), entries, key, nextId);
        RetiredRemove(retired, entries, nextId, key);
        ReplaySnoc(start, changes, Removed(entry.id));
        DroppedMore(old(entries), entries, key);
        removed := removed + [entry.id];
        entries := entries - {key};
        retired := retired + {entry.id};
        gone := gone - {key};
        changes := changes + [Removed(entry.id)];
      }
    }

    /** scan with the two listings. Afterwards the catalog has exactly the listed keys; a key that was
        there keeps its entry and id; ids given out are new, so a removed id never returns; and every
        subscriber that missed nothing can still compute the entries. The registry forgets exactly the
        gone entries that were active. */
    method Scan(tmux: seq<string>, screen: seq<string>, notify: bool)
      requires Valid()
      modifies this`entries, this`nextId, this`retired, this`subscribers, reg
      ensures Valid()
      ensures ForgotDropped(reg.entries, reg.ended, old(reg.entries), old(reg.ended), old(entries), entries)
      ensures (old(reg.Tended()) ==> reg.Tended()) && (old(reg.Sourced()) ==> reg.Sourced())
      ensures old(reg.Sourced()) && old(reg.Deduplicated()) ==> reg.Deduplicated()
      ensures entries.Keys == Listed(tmux, screen)
      ensures Keeps(old(entries), entries, old(nextId)) && old(nextId) <= nextId && HaveMode(entries, mode)
      ensures old(retired) <= retired && forall k :: k in old(entries) && k !in entries ==> old(entries)[k].id in retired
      ensures subscribers.Keys == old(subscribers).Keys
      ensures forall c :: c in subscribers ==> Offered(old(subscribers)[c], subscribers[c], notify)
    {
      hide Distinct, RetiredOk, IsIndex, Replay, Listed, Offer, Keeps;
      ghost var start := MakeIndex(entries, nextId);
      var changes, removed := Relist(tmux, screen, start);
      if notify {
        Publish(changes, start, old(entries));
      } else {
        StillFollow(start, old(entries), changes, subscribers, entries, mode);
        subscribers := map c | c in subscribers :: subscribers[c].(lossy := subscribers[c].lossy || changes != []);
      }
      ForgetRemoved(removed, old(entries));
    }

    /** The loop after the unlock: removed entries that are active are removed from the registry. */
    method ForgetRemoved(removed: seq<Id>, ghost before: map<Key, Lazy>)
      requires forall id :: id in removed <==> Dropped(before, entries, id)
      modifies reg
      ensures ForgotDropped(reg.entries, reg.ended, old(reg.entries), old(reg.ended), before, entries)
      ensures (old(reg.Tended()) ==> reg.Tended()) && (old(reg.Sourced()) ==> reg.Sourced())
      ensures old(reg.Sourced()) && old(reg.Deduplicated()) ==> reg.Deduplicated()
    {
      for i := 0 to |removed|
        invariant Forgot(reg.entries, reg.ended, old(reg.entries), old(reg.ended), removed[..i])
        invariant (old(reg.Tended()) ==> reg.Tended()) && (old(reg.Sourced()) ==> reg.Sourced())
        invariant old(reg.Sourced()) && old(reg.Deduplicated()) ==> reg.Deduplicated()
      {
        var id := removed[i];
        ForgotOne(reg.entries, reg.ended, old(reg.entries), old(reg.ended), removed[..i], id);
        assert removed[..i + 1] == removed[..i] + [id];
        var active := reg.Get(id);
        if active.Some? {
          reg.Remove(id);
        }
      }
      assert removed[..|removed|] == removed;
    }

    /** The part of scan that changes the entries. */
    method Relist(tmux: seq<string>, screen: seq<string>, ghost start: map<Id, Lazy>)
      returns (changes: seq<Change>, removed: seq<Id>)
      requires Distinct(entries, nextId) && RetiredOk(retired, entries, nextId) && IsIndex(start, entries) && HaveMode(entries, mode)
      modifies this`entries, this`nextId, this`retired
      ensures Distinct(entries, nextId) && RetiredOk(retired, entries, nextId) && IsIndex(Replay(start, changes), entries)
      ensures HaveMode(entries, mode) && AddsMode(changes, mode)
      ensures entries.Keys == Listed(tmux, screen)
      ensures Keeps(old(entries), entries, old(nextId)) && old(nextId) <= nextId
      ensures old(retired) <= retired && forall k :: k in old(entries) && k !in entries ==> old(entries)[k].id in retired
      ensures forall id :: id in removed <==> Dropped(old(entries), entries, id)
    {
      hide Distinct, RetiredOk, IsIndex, Replay, Listed, Keeps, Keys;
      ReplayNone(start);
      var tmuxKeys, screenKeys := TmuxKeys(tmux), ScreenKeys(screen);
      changes := AddListed(tmuxKeys, [], start);
      ghost var some, next := entries, nextId;
      changes := AddListed(screenKeys, changes, start);
      KeepsBoth(old(entries), some, entries, old(nextId), next);
      ghost var all := entries;
      var present := Keys(tmuxKeys) + Keys(screenKeys);
      ListedKeys(tmux, screen);
      changes, removed := RemoveAbsent(present, changes, start);
      SameDropped(old(entries), all, entries);
      KeepsFewer(old(entries), all, entries, old(nextId));
    }

    /** The loop over the subscribers. */
    method Publish(changes: seq<Change>, ghost start: map<Id, Lazy>, ghost before: map<Key, Lazy>)
      requires IsIndex(start, before) && IsIndex(Replay(start, changes), entries) && AddsMode(changes, mode)
      requires forall c :: c in subscribers ==> c < nextSub && FeedOk(subscribers[c], before, mode)
      modifies this`subscribers
      ensures subscribers.Keys == old(subscribers).Keys
      ensures forall c :: c in subscribers ==> c < nextSub && FeedOk(subscribers[c], entries, mode)
      ensures forall c :: c in subscribers ==> Offered(old(subscribers)[c], subscribers[c], true)
    {
      hide IsIndex, Replay, Offer;
      var todo, published := subscribers.Keys, map[];
      while todo != {}
        invariant subscribers == old(subscribers)
        invariant todo <= subscribers.Keys && published.Keys == subscribers.Keys - todo
        invariant forall c :: c in published ==> FeedOk(published[c], entries, mode) && Offered(subscribers[c], published[c], true)
        decreases todo
      {
        var c :| c in todo;
        var f := Deliver(subscribers[c], changes);
        OfferFollows(start, before, changes, subscribers[c], entries, mode);
        published := published[c := f];
        todo := todo - {c};
      }
      subscribers := published;
    }

    /** The non-blocking sends of one scan to one subscriber. */
    method Deliver(f: Feed, changes: seq<Change>) returns (f': Feed)
      requires Bounded(f)
      ensures f' == Offer(f, changes)
    {
      f' := f;
      assert f.accepted + changes[..0] == f.accepted;
      for i := 0 to |changes|
        invariant f' == Offer(f, changes[..i])
      {
        assert changes[..i + 1] == changes[..i] + [changes[i]];
        if |f'.accepted| - f'.received < CHANGES_CAP {
          f' := f'.(accepted := f'.accepted + [changes[i]]);
        } else {
          f' := f'.(lossy := true);
        }
        OfferMore(f, changes, i);
      }
      assert changes[..|changes|] == changes;
    }

    /** snapshotAndSubscribe: the current entries, each once, and a channel for what comes after. */
    method SnapshotAndSubscribe() returns (snapshot: seq<Lazy>, sub: nat)
      requires Valid()
      modifies this`subscribers, this`nextSub
      ensures Valid()
      ensures Enumerates(snapshot, entries)
      ensures sub !in old(subscribers) && subscribers == old(subscribers)[sub := Feed(Initially(snapshot), [], 0, false)]
      ensures IsIndex(Initially(snapshot), entries)
    {
      hide IsIndex, Distinct;
      snapshot := [];
      var todo := entries.Keys;
      ghost var done: map<Key, Lazy> := map[];
      NoEntries(nextId);
      while todo != {}
        invariant subscribers == old(subscribers) && nextSub == old(nextSub)
        invariant todo <= entries.Keys && done.Keys == entries.Keys - todo
        invariant forall k :: k in done ==> done[k] == entries[k]
        invariant Distinct(done, nextId) && IsIndex(Initially(snapshot), done) && Enumerates(snapshot, done)
        decreases todo
      {
        var key :| key in todo;
        var e := entries[key];
        OtherIds(entries, nextId, done, key);
        InitiallySnoc(snapshot, e);
        EnumeratesMore(snapshot, done, key, e);
        IndexMore(Initially(snapshot), done, key, e, nextId);
        snapshot := snapshot + [e];
        done := done[key := e];
        todo := todo - {key};
      }
      assert done == entries;
      IndexMode(Initially(snapshot), entries, mode);
      sub := nextSub;
      ReplayNone(Initially(snapshot));
      subscribers := subscribers[sub := Feed(Initially(snapshot), [], 0, false)];
      nextSub := nextSub + 1;
    }

    method Unsubscribe(sub: nat)
      requires Valid()
      modifies this`subscribers
      ensures Valid() && subscribers == old(subscribers) - {sub}
    {
      subscribers := subscribers - {sub};
    }

    /** The subscriber takes the next change from its channel. */
    method Receive(sub: nat) returns (change: Option<Change>)
      requires Valid() && sub in subscribers
      modifies this`subscribers
      ensures Valid()
      ensures var f := old(subscribers)[sub];
        if f.received < |f.accepted|
        then change == Some(f.accepted[f.received]) && subscribers == old(subscribers)[sub := f.(received := f.received + 1)]
        else change.None? && subscribers == old(subscribers)
    {
      var f := subscribers[sub];
      if f.received == |f.accepted| {
        return None;
      }
      subscribers := subscribers[sub := f.(received := f.received + 1)];
      return Some(f.accepted[f.received]);
    }
  }

  function TmuxKeys(names: seq<string>): (r: seq<Key>)
    ensures |r| == |names| && forall i :: 0 <= i < |r| ==> r[i] == Tmux(names[i])
  {
    seq(|names|, i requires 0 <= i < |names| => Tmux(names[i]))
  }

  function ScreenKeys(names: seq<string>): (r: seq<Key>)
    ensures |r| == |names| && forall i :: 0 <= i < |r| ==> r[i] == Screen(names[i])
  {
    seq(|names|, i requires 0 <= i < |names| => Screen(names[i]))
  }

  function Listed(tmux: seq<string>, screen: seq<string>): set<Key>
  {
    (set n | n in tmux :: Tmux(n)) + (set n | n in screen :: Screen(n))
  }

  /** availableLazy as runAgent fills it from the snapshot. */
  function Initially(snapshot: seq<Lazy>): map<Id, Lazy>
  {
    if snapshot == [] then map[] else Initially(snapshot[..|snapshot| - 1])[snapshot[|snapshot| - 1].id := snapshot[|snapshot| - 1]]
  }

  lemma InitiallySnoc(snapshot: seq<Lazy>, e: Lazy)
    ensures Initially(snapshot + [e]) == Initially(snapshot)[e.id := e]
  {
    assert (snapshot + [e])[..|snapshot|] == snapshot;
  }

  lemma MakeIndex(entries: map<Key, Lazy>, next: Id) returns (m: map<Id, Lazy>)
    requires Distinct(entries, next)
    ensures IsIndex(m, entries)
  {
    var ids := set k | k in entries :: entries[k].id;
    m := map id | id in ids :: var k :| k in entries && entries[k].id == id; entries[k];
  }

  function Keys(listed: seq<Key>): set<Key> { set k | k in listed }

  lemma DroppedMore(before: map<Key, Lazy>, after: map<Key, Lazy>, key: Key)
    requires key in after && after.Keys <= before.Keys && after[key] == before[key]
    ensures forall id :: Dropped(before, after - {key}, id) <==> Dropped(before, after, id) || id == before[key].id
  {
    forall id | Dropped(before, after, id) || id == before[key].id ensures Dropped(before, after - {key}, id) {
      var k := if id == before[key].id then key else var k :| k in before && k !in after && before[k].id == id; k;
      assert k in before && k !in after - {key} && before[k].id == id;
    }
  }

  /** Entries added in between make no difference, because none of them was removed again. */
  lemma SameDropped(before: map<Key, Lazy>, all: map<Key, Lazy>, after: map<Key, Lazy>)
    requires forall k :: k in before ==> k in all && all[k] == before[k]
    requires forall k :: k in all && k !in after ==> k in before
    ensures forall id :: Dropped(all, after, id) <==> Dropped(before, after, id)
  {
    forall id | Dropped(before, after, id) ensures Dropped(all, after, id) {
      var k :| k in before && k !in after && before[k].id == id;
      assert k in all && k !in after && all[k].id == id;
    }
  }

  /** None of these ids has a live session any more, and nothing else changed in the registry but that
      the sessions of these ids may have been closed. */
  ghost predicate Forgot(entries: map<Id, Registry.Entry>, ended: set<Registry.Session>,
                         entries0: map<Id, Registry.Entry>, ended0: set<Registry.Session>, ids: seq<Id>)
  {
    && (forall id :: id in ids && id in entries ==> entries[id].session in ended)
    && entries.Keys <= entries0.Keys && ended0 <= ended
    && (forall id :: id in entries ==> entries[id] == entries0[id])
    && (forall id :: id in entries0 && id !in entries ==> id in ids && entries0[id].session !in ended0)
    && (forall sess :: sess in ended && sess !in ended0 ==> exists id :: id in ids && id in entries0 && entries0[id].session == sess)
  }

  ghost predicate ForgotDropped(entries: map<Id, Registry.Entry>, ended: set<Registry.Session>,
                                entries0: map<Id, Registry.Entry>, ended0: set<Registry.Session>,
                                before: map<Key, Lazy>, after: map<Key, Lazy>)
  {
    exists ids: seq<Id> :: Forgot(entries, ended, entries0, ended0, ids) && forall id :: id in ids <==> Dropped(before, after, id)
  }

  /** One round of the loop. */
  lemma ForgotOne(entries: map<Id, Registry.Entry>, ended: set<Registry.Session>,
                  entries0: map<Id, Registry.Entry>, ended0: set<Registry.Session>, ids: seq<Id>, id: Id)
    requires Forgot(entries, ended, entries0, ended0, ids)
    ensures if id in entries && entries[id].session !in ended
      then Forgot(entries - {id}, ended + {entries[id].session}, entries0, ended0, ids + [id])
      else Forgot(entries, ended, entries0, ended0, ids + [id])
  {
    forall sess | sess in ended && sess !in ended0 ensures exists i :: i in ids + [id] && i in entries0 && entries0[i].session == sess {
      var i :| i in ids && i in entries0 && entries0[i].session == sess;
      assert i in ids + [id];
    }
    if id in entries && entries[id].session !in ended {
      assert id in ids + [id] && entries0[id].session == entries[id].session;
    }
  }

  lemma ListedKeys(tmux: seq<string>, screen: seq<string>)
    ensures Keys(TmuxKeys(tmux)) + Keys(ScreenKeys(screen)) == Listed(tmux, screen)
  {
    forall k | k in Listed(tmux, screen) ensures k in Keys(TmuxKeys(tmux)) + Keys(ScreenKeys(screen)) {
      if k.Tmux? {
        var i :| 0 <= i < |tmux| && tmux[i] == k.name;
        assert TmuxKeys(tmux)[i] == k;
      } else {
        var i :| 0 <= i < |screen| && screen[i] == k.name;
        assert ScreenKeys(screen)[i] == k;
      }
    }
  }

  /** Keys present before and after keep their entry; new entries have new ids. */
  ghost predicate Keeps(before: map<Key, Lazy>, after: map<Key, Lazy>, next: Id)
  {
    && (forall k :: k in before && k in after ==> after[k] == before[k])
    && (forall k :: k in after && k !in before ==> next <= after[k].id)
  }

  lemma KeepsBoth(a: map<Key, Lazy>, b: map<Key, Lazy>, c: map<Key, Lazy>, next: Id, next': Id)
    requires Keeps(a, b, next) && Keeps(b, c, next') && next <= next' && a.Keys <= b.Keys <= c.Keys
    ensures Keeps(a, c, next)
  {
  }

  /** Old keys keep their entries when others are removed. */
  lemma KeepsFewer(a: map<Key, Lazy>, b: map<Key, Lazy>, c: map<Key, Lazy>, next: Id)
    requires Keeps(a, b, next) && a.Keys <= b.Keys && c.Keys <= b.Keys && forall k :: k in c ==> c[k] == b[k]
    ensures Keeps(a, c, next)
    ensures forall k :: k in a ==> k in b && b[k] == a[k]
  {
  }

  /** What one scan may do to a subscriber's channel. */
  ghost predicate Offered(f: Feed, f': Feed, notify: bool)
  {
    && f'.initial == f.initial && f.accepted <= f'.accepted && f'.received == f.received
    && (!notify ==> f'.accepted == f.accepted)
    && (f'.lossy ==> f.lossy || !notify || |f'.accepted| - f'.received >= CHANGES_CAP)
  }

  lemma ReplayNone(m: map<Id, Lazy>)
    ensures Replay(m, []) == m
  {
  }

  lemma OfferFollows(start: map<Id, Lazy>, before: map<Key, Lazy>, changes: seq<Change>, f: Feed, entries: map<Key, Lazy>, mode: Mode)
    requires AddsMode(changes, mode) && IsIndex(start, before) && IsIndex(Replay(start, changes), entries) && FeedOk(f, before, mode)
    ensures FeedOk(Offer(f, changes), entries, mode) && Offered(f, Offer(f, changes), true)
  {
    hide IsIndex, Replay;
    if !f.lossy {
      IndexUnique(Replay(f.initial, f.accepted), start, before);
      ReplayAppend(f.initial, f.accepted, changes);
    }
  }

  lemma StillFollow(start: map<Id, Lazy>, before: map<Key, Lazy>, changes: seq<Change>, subs: map<nat, Feed>, entries: map<Key, Lazy>, mode: Mode)
    requires IsIndex(start, before) && IsIndex(Replay(start, changes), entries)
    requires forall c :: c in subs ==> FeedOk(subs[c], before, mode)
    ensures forall c :: c in subs ==> FeedOk(subs[c].(lossy := subs[c].lossy || changes != []), entries, mode)
  {
    hide IsIndex;
    if changes == [] {
      forall c | c in subs && !subs[c].lossy ensures Replay(subs[c].initial, subs[c].accepted) == start {
        IndexUnique(Replay(subs[c].initial, subs[c].accepted), start, before);
      }
    }
  }

  lemma NoEntries(next: Id)
    ensures Distinct(map[], next) && IsIndex(Initially([]), map[]) && Enumerates([], map[])
  {
  }

  /** The list has each entry once. */
  ghost predicate Enumerates(list: seq<Lazy>, entries: map<Key, Lazy>)
  {
    && (forall i, j :: 0 <= i < j < |list| ==> list[i].id != list[j].id)
    && (forall i :: 0 <= i < |list| ==> exists k :: k in entries && entries[k] == list[i])
    && (forall k :: k in entries ==> entries[k] in list)
  }

  lemma EnumeratesMore(list: seq<Lazy>, entries: map<Key, Lazy>, k: Key, e: Lazy)
    requires Enumerates(list, entries) && k !in entries && forall j :: j in entries ==> entries[j].id != e.id
    ensures Enumerates(list + [e], entries[k := e])
  {
    var list', entries' := list + [e], entries[k := e];
    forall i | 0 <= i < |list'| ensures exists j :: j in entries' && entries'[j] == list'[i] {
      if i < |list| {
        assert list'[i] == list[i];
        var j :| j in entries && entries[j] == list[i];
        assert j in entries' && entries'[j] == list'[i];
      } else {
        assert k in entries' && entries'[k] == list'[i];
      }
    }
    forall i | 0 <= i < |list| ensures list[i].id != e.id {
      var x := list[i];
      var j :| j in entries && entries[j] == x;
    }
    forall j | j in entries' ensures entries'[j] in list' {
      assert list'[|list|] == e;
    }
  }

  lemma OtherIds(entries: map<Key, Lazy>, next: Id, done: map<Key, Lazy>, key: Key)
    requires Distinct(entries, next) && key in entries && key !in done && done.Keys <= entries.Keys
    requires forall k :: k in done ==> done[k] == entries[k]
    ensures entries[key].id < next && forall j :: j in done ==> done[j].id != entries[key].id
  {
  }

  lemma OfferMore(f: Feed, changes: seq<Change>, i: nat)
    requires Bounded(f) && i < |changes|
    ensures var g := Offer(f, changes[..i]);
      Offer(f, changes[..i + 1]) ==
      if |g.accepted| - g.received < CHANGES_CAP then g.(accepted := g.accepted + [changes[i]]) else g.(lossy := true)
  {
    var room := CHANGES_CAP - (|f.accepted| - f.received);
    var xs, ys := changes[..i], changes[..i + 1];
    assert ys == xs + [changes[i]];
    if i < room {
      assert f.accepted + ys == f.accepted + xs + [changes[i]];
    } else {
      assert ys[..room] == xs[..room];
      assert i == room ==> xs[..room] == xs;
    }
  }

  // ---- a catalog and an agent ------------------------------------------------------------------

  /** The part of the initial listing that the agent has not reached yet. */
  function Boots(pc: Pc): seq<Lazy>
  {
    match pc
    case Booting(rest) => rest
    case BootStart(_, rest) => rest
    case _ => []
  }

  function Adds(list: seq<Lazy>): seq<Change> { seq(|list|, i requires 0 <= i < |list| => Added(list[i])) }

  /** What the agent has not worked off yet: the rest of its initial listing, then its channel. */
  function Awaited(pc: Pc, changes: seq<Change>): seq<Change> { Adds(Boots(pc)) + changes }

  function Published(acts: seq<Action>): seq<Change>
  {
    if acts == [] then [] else Published(acts[..|acts| - 1]) + PublishedBy(acts[|acts| - 1])
  }

  function PublishedBy(a: Action): seq<Change> { if a.Publish? then [a.change] else [] }

  lemma {:induction false} InitiallyReplays(list: seq<Lazy>)
    ensures Replay(map[], Adds(list)) == Initially(list)
  {
    if list != [] {
      var init := list[..|list| - 1];
      InitiallyReplays(init);
      assert Adds(list)[..|list| - 1] == Adds(init);
    }
  }

  lemma ReplayHead(m: map<Id, Lazy>, cs: seq<Change>)
    requires cs != []
    ensures Replay(m, cs) == Replay(ApplyChange(m, cs[0]), cs[1..])
  {
    ReplayAppend(m, [cs[0]], cs[1..]);
    assert [cs[0]] + cs[1..] == cs && [] + [cs[0]] == [cs[0]];
    ReplaySnoc(m, [], cs[0]);
  }

  /** A main-loop step works off the next awaited change ... */
  ghost predicate WorksOff(available: map<Id, Lazy>, before: seq<Change>, available': map<Id, Lazy>, after: seq<Change>)
  {
    before != [] && after == before[1..] && available' == ApplyChange(available, before[0])
  }

  /** ... or leaves everything awaited. */
  ghost predicate Quiet(s: State, s': State)
  {
    s'.available == s.available && s'.changes == s.changes && Boots(s'.pc) == Boots(s.pc)
  }

  lemma BootFields(s: State, fits: bool, s': State)
    requires BootStep(s, fits) == Some(s') && Boots(s.pc) != []
    ensures s'.changes == s.changes && Boots(s'.pc) == Boots(s.pc)[1..]
    ensures s'.available == ApplyChange(s.available, Added(Boots(s.pc)[0]))
  {
  }

  lemma BootEnds(s: State, fits: bool, s': State)
    requires BootStep(s, fits) == Some(s') && Boots(s.pc) == []
    ensures Quiet(s, s')
  {
  }

  lemma AddsTail(rest: seq<Lazy>, changes: seq<Change>)
    requires rest != []
    ensures var before := Adds(rest) + changes;
      before != [] && before[0] == Added(rest[0]) && before[1..] == Adds(rest[1..]) + changes
  {
    assert Adds(rest)[1..] == Adds(rest[1..]);
  }

  lemma BootWorksOff(s: State, fits: bool, s': State)
    requires BootStep(s, fits) == Some(s')
    ensures Quiet(s, s') || WorksOff(s.available, Awaited(s.pc, s.changes), s'.available, Awaited(s'.pc, s'.changes))
  {
    if Boots(s.pc) == [] {
      BootEnds(s, fits, s');
    } else {
      BootFields(s, fits, s');
      hide BootStep, Adds, ApplyChange;
      AddsTail(Boots(s.pc), s.changes);
    }
  }

  lemma SendKeeps(s: State, ms: seq<Msg>, fits: bool)
    ensures var t := SendAll(s, ms, fits); t.available == s.available && t.changes == s.changes && t.pc == s.pc
  {
  }

  lemma StartKeeps(s: State, id: Id)
    ensures var t := StartForwarder(s, id); t.available == s.available && t.changes == s.changes
  {
  }

  lemma ChangeFields(s: State, fits: bool, s': State)
    requires ChangeStep(s, fits) == Some(s')
    ensures Boots(s.pc) == Boots(s'.pc) == [] && s.changes != [] && s'.changes == s.changes[1..]
    ensures s'.available == ApplyChange(s.available, s.changes[0])
  {
    hide SendAll;
    var t := s.(changes := s.changes[1..]);
    match s.changes[0]
    case Removed(id) =>
      SendKeeps(t.(lazyMap := s.lazyMap - {id}, available := s.available - {id}, modes := s.modes - {id}),
                [SessionRemove(id, None)], fits);
    case Added(ls) =>
      SendKeeps(t.(available := s.available[ls.id := ls], lazyMap := s.lazyMap[ls.id := ls], known := s.known + {ls.id}),
                [SessionAdd(ls.id, false)], fits);
  }

  lemma ChangeWorksOff(s: State, fits: bool, s': State)
    requires ChangeStep(s, fits) == Some(s')
    ensures WorksOff(s.available, Awaited(s.pc, s.changes), s'.available, Awaited(s'.pc, s'.changes))
  {
    ChangeFields(s, fits, s');
    hide ChangeStep, ApplyChange;
    assert Adds([]) == [];
    assert Awaited(s.pc, s.changes) == s.changes && Awaited(s'.pc, s'.changes) == s'.changes;
  }

  lemma AttachQuiet(s: State, id: Id, s': State)
    requires AttachStep(s, id) == Some(s')
    ensures Quiet(s, s')
  {
  }

  lemma RetireQuiet(s: State, fits: bool, s': State)
    requires RetireStep(s, fits) == Some(s')
    ensures Quiet(s, s')
  {
    hide SendAll;
    var fw := s.pc.fw;
    var id, pc := s.fws[fw].id, if s.pc.attach.Some? then Attaching(s.pc.attach.value) else Idle;
    var t := s.(forwarders := s.forwarders - {id}, modes := s.modes - {id}, gone := s.gone + {fw}, pc := pc);
    if id in s.available {
      SendKeeps(t.(lazyMap := s.lazyMap[id := s.available[id]]), [SessionRemove(id, Some(fw)), SessionAdd(id, false)], fits);
    } else {
      SendKeeps(t, [SessionRemove(id, Some(fw))], fits);
    }
  }

  lemma ActivateQuiet(s: State, outcome: Outcome, fits: bool, s': State)
    requires ActivateStep(s, outcome, fits) == Some(s')
    ensures Quiet(s, s')
  {
    hide SendAll;
    var id := s.pc.id;
    SendKeeps(s.(pc := Idle), [EmptySnapshot(id), SessionRemove(id, None), SessionAdd(id, false)], fits);
  }

  lemma ForwardQuiet(s: State, s': State)
    requires ForwardStep(s) == Some(s')
    ensures Quiet(s, s')
  {
  }

  lemma AnnounceQuiet(s: State, fits: bool, s': State)
    requires AnnounceStep(s, fits) == Some(s')
    ensures Quiet(s, s')
  {
  }

  lemma AnswerQuiet(s: State, fits: bool, s': State)
    requires AnswerStep(s, fits) == Some(s')
    ensures Quiet(s, s')
  {
  }

  lemma BootForwardQuiet(s: State, fits: bool, s': State)
    requires BootForwardStep(s, fits) == Some(s')
    ensures Quiet(s, s')
  {
    hide SendAll, StartForwarder;
    var t := StartForwarder(s, s.pc.ls.id);
    StartKeeps(s, s.pc.ls.id);
    SendKeeps(t.(pc := Booting(s.pc.rest)), [SessionAdd(s.pc.ls.id, true)], fits);
  }

  lemma EndedQuiet(s: State, s': State)
    requires EndedStep(s) == Some(s')
    ensures Quiet(s, s')
  {
  }

  lemma SendsQuiet(s: State, fw: Fw, s': State)
    requires SendsStep(s, fw) == Some(s')
    ensures Quiet(s, s')
  {
  }

  lemma StopsQuiet(s: State, fw: Fw, s': State)
    requires StopsStep(s, fw) == Some(s')
    ensures Quiet(s, s')
  {
  }

  lemma NotifiesQuiet(s: State, fw: Fw, s': State)
    requires NotifiesStep(s, fw) == Some(s')
    ensures Quiet(s, s')
  {
  }

  lemma RegistryQuiet(s: State, a: Action, s': State)
    requires RegistryStep(s, a) == Some(s')
    ensures Quiet(s, s')
  {
  }

  lemma StepWorksOff(s: State, a: Action, s': State)
    requires Step(s, a) == Some(s') && !a.Publish?
    ensures Quiet(s, s') || WorksOff(s.available, Awaited(s.pc, s.changes), s'.available, Awaited(s'.pc, s'.changes))
  {
    hide BootStep, BootForwardStep, AttachStep, RetireStep, ActivateStep, ForwardStep, AnnounceStep, AnswerStep,
         ChangeStep, EndedStep, SendsStep, StopsStep, NotifiesStep, RegistryStep, PublishStep, Quiet, WorksOff, Awaited;
    match a
    case Boot(fits) => BootWorksOff(s, fits, s');
    case OnChange(fits) => ChangeWorksOff(s, fits, s');
    case OnAttach(id) => AttachQuiet(s, id, s');
    case Retire(fits) => RetireQuiet(s, fits, s');
    case Activate(outcome, fits) => ActivateQuiet(s, outcome, fits, s');
    case Forward => ForwardQuiet(s, s');
    case Announce(fits) => AnnounceQuiet(s, fits, s');
    case Answer(fits) => AnswerQuiet(s, fits, s');
    case BootForward(fits) => BootForwardQuiet(s, fits, s');
    case OnEnded => EndedQuiet(s, s');
    case ForwarderSends(fw) => SendsQuiet(s, fw, s');
    case ForwarderStops(fw) => StopsQuiet(s, fw, s');
    case ForwarderNotifies(fw) => NotifiesQuiet(s, fw, s');
    case _ => RegistryQuiet(s, a, s');
  }

  lemma PublishAwaited(s: State, change: Change, s': State)
    requires PublishStep(s, change) == Some(s')
    ensures s'.available == s.available && Awaited(s'.pc, s'.changes) == Awaited(s.pc, s.changes) + [change]
  {
  }

  lemma StepAwaits(s: State, a: Action, s': State)
    requires Step(s, a) == Some(s')
    ensures Replay(s'.available, Awaited(s'.pc, s'.changes))
         == Replay(s.available, Awaited(s.pc, s.changes) + PublishedBy(a))
  {
    hide Replay, Adds;
    var before := Awaited(s.pc, s.changes);
    if a.Publish? {
      PublishAwaited(s, a.change, s');
    } else {
      hide Step;
      StepWorksOff(s, a, s');
      assert before + [] == before;
      if before != [] {
        ReplayHead(s.available, before);
      }
    }
  }

  lemma InitiallyAwaits(s: State)
    requires Init(s)
    ensures s.available == map[] && Awaited(s.pc, s.changes) == Adds(s.pc.rest)
  {
  }

  /** Over every run: availableLazy with everything still awaited is the initial listing with everything
      published to the agent. */
  lemma {:induction false} AvailableCatchesUp(s: State, acts: seq<Action>, s': State)
    requires Init(s) && Exec(s, acts) == Some(s')
    ensures Replay(s'.available, Awaited(s'.pc, s'.changes)) == Replay(Initially(s.pc.rest), Published(acts))
  {
    hide Step, Replay, Awaited;
    if acts == [] {
      InitiallyReplays(s.pc.rest);
      ReplayNone(Initially(s.pc.rest));
      InitiallyAwaits(s);
    } else {
      var init, a := acts[..|acts| - 1], acts[|acts| - 1];
      var t := Exec(s, init).value;
      AvailableCatchesUp(s, init, t);
      StepAwaits(t, a, s');
      ReplayAppend(t.available, Awaited(t.pc, t.changes), PublishedBy(a));
      ReplayAppend(Initially(s.pc.rest), Published(init), PublishedBy(a));
    }
  }

  /** The ids in an agent's availableLazy catch up with the catalog: in every run of an agent whose
      channel carried everything the catalog published, applying what is still awaited gives the
      catalog's current entries, and nothing awaited means availableLazy is exactly those entries. */
  lemma AgentCatchesUp(c: SessionCatalog, sub: nat, s: State, acts: seq<Action>, s': State)
    requires c.Valid() && sub in c.subscribers && !c.subscribers[sub].lossy
    requires Init(s) && Exec(s, acts) == Some(s')
    requires c.subscribers[sub].initial == Initially(s.pc.rest) && c.subscribers[sub].accepted == Published(acts)
    ensures IsIndex(Replay(s'.available, Awaited(s'.pc, s'.changes)), c.entries)
    ensures Awaited(s'.pc, s'.changes) == [] ==> IsIndex(s'.available, c.entries)
  {
    hide IsIndex, Step, Replay, Awaited;
    AvailableCatchesUp(s, acts, s');
    ReplayNone(s'.available);
  }

  // ---- a catalog's mode ------------------------------------------------------------------------------

  /** Every entry the agent has or is told of has the mode. */
  ghost predicate OnlyMode(s: State, mode: Mode)
  {
    HaveMode(s.available, mode) && AddsMode(Awaited(s.pc, s.changes), mode)
  }

  lemma ModeWorksOff(s: State, s': State, mode: Mode)
    requires OnlyMode(s, mode)
    requires Quiet(s, s') || WorksOff(s.available, Awaited(s.pc, s.changes), s'.available, Awaited(s'.pc, s'.changes))
    ensures OnlyMode(s', mode)
  {
    hide Adds, Boots;
  }

  lemma ModePublished(s: State, change: Change, s': State, mode: Mode)
    requires OnlyMode(s, mode) && PublishStep(s, change) == Some(s') && (change.Added? ==> change.entry.mode == mode)
    ensures OnlyMode(s', mode)
  {
    PublishAwaited(s, change, s');
    hide PublishStep, Awaited;
  }

  lemma StepMode(s: State, a: Action, s': State, mode: Mode)
    requires OnlyMode(s, mode) && Step(s, a) == Some(s') && AddsMode(PublishedBy(a), mode)
    ensures OnlyMode(s', mode)
  {
    if a.Publish? {
      assert PublishedBy(a)[0] == a.change;
      hide OnlyMode;
      ModePublished(s, a.change, s', mode);
    } else {
      hide OnlyMode, Step;
      StepWorksOff(s, a, s');
      ModeWorksOff(s, s', mode);
    }
  }

  lemma {:induction false} RunMode(s0: State, acts: seq<Action>, s: State, mode: Mode)
    requires Init(s0) && Exec(s0, acts) == Some(s)
    requires AddsMode(Adds(s0.pc.rest), mode) && AddsMode(Published(acts), mode)
    ensures OnlyMode(s, mode)
  {
    hide Step, OnlyMode;
    if acts == [] {
      StartMode(s0, mode);
    } else {
      var init, a := acts[..|acts| - 1], acts[|acts| - 1];
      PublishedParts(acts, mode);
      RunMode(s0, init, Exec(s0, init).value, mode);
      StepMode(Exec(s0, init).value, a, s, mode);
    }
  }

  lemma StartMode(s: State, mode: Mode)
    requires Init(s) && AddsMode(Adds(s.pc.rest), mode)
    ensures OnlyMode(s, mode)
  {
    InitiallyAwaits(s);
    hide Adds, Awaited;
  }

  lemma PublishedParts(acts: seq<Action>, mode: Mode)
    requires acts != [] && AddsMode(Published(acts), mode)
    ensures AddsMode(Published(acts[..|acts| - 1]), mode) && AddsMode(PublishedBy(acts[|acts| - 1]), mode)
  {
    var xs, ys := Published(acts[..|acts| - 1]), PublishedBy(acts[|acts| - 1]);
    forall i | 0 <= i < |xs| ensures xs[i] == (xs + ys)[i] {
    }
    forall i | 0 <= i < |ys| ensures ys[i] == (xs + ys)[|xs| + i] {
    }
  }

  lemma {:induction false} ListingMode(list: seq<Lazy>, mode: Mode)
    requires HaveMode(Initially(list), mode) && forall i, j :: 0 <= i < j < |list| ==> list[i].id != list[j].id
    ensures AddsMode(Adds(list), mode)
  {
    forall i | 0 <= i < |list| ensures list[i].mode == mode {
      InitiallyHas(list, i);
    }
  }

  lemma {:induction false} InitiallyHas(list: seq<Lazy>, i: nat)
    requires i < |list| && forall i, j :: 0 <= i < j < |list| ==> list[i].id != list[j].id
    ensures list[i].id in Initially(list) && Initially(list)[list[i].id] == list[i]
  {
    var init := list[..|list| - 1];
    if i < |init| {
      assert list[i].id != list[|list| - 1].id && init[i] == list[i];
      InitiallyHas(init, i);
    }
  }

  /** An agent never lets through more than its catalog's mode allows: in every run of an agent that got its
      entries from the catalog, input and resizes are checked against that mode, for every id at every
      moment. In particular nothing gets through to the sessions of a read-only agent. */
  lemma CatalogModeLimitsInput(c: SessionCatalog, sub: nat, s0: State, acts: seq<Action>, s: State, id: Id, data: seq<byte>)
    requires c.Valid() && sub in c.subscribers
    requires Init(s0) && Exec(s0, acts) == Some(s) && s.open
    requires c.subscribers[sub].initial == Initially(s0.pc.rest) && Published(acts) <= c.subscribers[sub].accepted
    ensures id in s.available ==> s.available[id].mode == c.mode
    ensures InputAllowed(ModeOf(s, id), data) ==> c.mode == Full || (c.mode == Approved && data in APPROVED)
    ensures ResizeAllowed(ModeOf(s, id)) ==> c.mode != Readonly
  {
    var f := c.subscribers[sub];
    ListingMode(s0.pc.rest, c.mode);
    assert AddsMode(Published(acts), c.mode) by {
      assert forall i :: 0 <= i < |Published(acts)| ==> Published(acts)[i] == f.accepted[i];
    }
    RunMode(s0, acts, s, c.mode);
    RunKeeps(s0, acts);
    hide Exec, OrderOk, LazyOk, ForwardersOk, MissedOk, ViewOk, KnownOk, PcOk, IsIndex, Replay;
  }
}
