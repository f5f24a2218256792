/** fakeshell/vfs: the file system object, its operations and the listing. */
module Vfs {
  import opened Common
  import opened Tree

  // ---- name order -------------------------------------------------------------------------------

  /** Go's order of strings. */
  predicate Less(a: Name, b: Name)
  {
    b != [] && (a == [] || a[0] < b[0] || (a[0] == b[0] && Less(a[1..], b[1..])))
  }

  lemma {:induction false} LessTransitive(a: Name, b: Name, c: Name)
    requires Less(a, b) && Less(b, c)
    ensures Less(a, c)
  {
    if a != [] && a[0] == b[0] && b[0] == c[0] {
      LessTransitive(a[1..], b[1..], c[1..]);
    }
  }

  lemma {:induction false} LessTotal(a: Name, b: Name)
    ensures a == b || Less(a, b) || Less(b, a)
  {
    if a != [] && b != [] && a[0] == b[0] {
      LessTotal(a[1..], b[1..]);
      assert a == [a[0]] + a[1..] && b == [b[0]] + b[1..];
    }
  }

  lemma {:induction false} LessIrreflexive(a: Name)
    ensures !Less(a, a)
  {
    if a != [] {
      LessIrreflexive(a[1..]);
    }
  }

  // ---- directory listings --------------------------------------------------------------------------

  predicate Child(p: Path, dir: Path) { p != [] && Parent(p) == dir }

  /** Sorted by name, which also means that no name occurs twice. */
  predicate SortedByName(list: seq<Info>)
  {
    && (forall i :: 0 <= i < |list| ==> list[i].path != [])
    && (forall i, j :: 0 <= i < j < |list| ==> Less(Base(list[i].path), Base(list[j].path)))
  }

  /** list describes exactly the existing children of p whose names are in `names`. */
  ghost predicate Describes(c: Config, o: Overlay, p: Path, now: Time, names: set<Name>, list: seq<Info>)
  {
    && (forall i :: 0 <= i < |list| ==>
          Child(list[i].path, p) && Base(list[i].path) in names && Stat(c, o, list[i].path, now) == Ok(list[i]))
    && (forall n :: n in names && !KindAt(c, o, p + [n]).Absent? ==> exists i :: 0 <= i < |list| && list[i].path == p + [n])
  }

  /** The listing of p: sorted, without duplicates, and with exactly the entries that Stat finds. */
  ghost predicate Lists(c: Config, o: Overlay, p: Path, now: Time, list: seq<Info>)
  {
    && SortedByName(list)
    && (forall i :: 0 <= i < |list| ==> Child(list[i].path, p) && Stat(c, o, list[i].path, now) == Ok(list[i]))
    && (forall q :: Child(q, p) && !KindAt(c, o, q).Absent? ==> exists i :: 0 <= i < |list| && list[i].path == q)
  }

  /** The name under which `child` appears in a listing of p, if at all. */
  function NameIn(p: Path, child: Path): set<Name>
  {
    if Under(child, p) && child != p then {child[|p|]} else {}
  }

  /** The `add` closure of ReadDir: climb from child to the ancestor that is a child of p. */
  method AddName(names: set<Name>, p: Path, child: Path) returns (names': set<Name>)
    ensures names' == names + NameIn(p, child)
  {
    var at := child;
    while at != []
      invariant at <= child
      invariant Under(child, p) && child != p ==> |p| < |at|
      decreases |at|
    {
      if Parent(at) == p {
        assert child[..|p|] == at[..|p|] && child[|p|] == Base(at);
        return names + {Base(at)};
      }
      ClimbOne(p, child, at);
      at := Parent(at);
    }
    return names;
  }

  lemma ClimbOne(p: Path, child: Path, at: Path)
    requires at <= child && at != [] && Parent(at) != p
    ensures Parent(at) <= child
    ensures Under(child, p) && child != p && |p| < |at| ==> |p| < |Parent(at)|
  {
    assert Parent(at) == child[..|at| - 1];
  }

  ghost predicate Covers(names: set<Name>, p: Path, children: set<Path>)
  {
    forall q :: q in children ==> NameIn(p, q) <= names
  }

  method AddNames(names: set<Name>, p: Path, children: set<Path>) returns (names': set<Name>)
    ensures names <= names' && Covers(names', p, children)
  {
    names' := names;
    var todo := children;
    while todo != {}
      invariant todo <= children && names <= names' && Covers(names', p, children - todo)
      decreases todo
    {
      var q :| q in todo;
      names' := AddName(names', p, q);
      todo := todo - {q};
    }
  }

  /** The names a listing of p must consider: enough of them, whatever else is in the set. */
  ghost predicate EnoughNames(c: Config, o: Overlay, p: Path, names: set<Name>)
  {
    && Covers(names, p, c.extra) && Covers(names, p, c.generated.Keys) && Covers(names, p, c.fixed.Keys)
    && Covers(names, p, o.dirs) && Covers(names, p, o.files.Keys)
    && (p in c.base ==> Covers(names, p, set q | q in c.base && Child(q, p)))
  }

  /** Every existing child of p is among them, across all layers. */
  lemma NamesSuffice(c: Config, o: Overlay, p: Path, names: set<Name>, q: Path)
    requires WellFormed(c) && EnoughNames(c, o, p, names) && Child(q, p) && !KindAt(c, o, q).Absent?
    ensures Base(q) in names && q == p + [Base(q)]
  {
    assert q == p + [Base(q)] && Base(q) in NameIn(p, q);
    if q !in o.files && q !in o.dirs && q !in c.extra && q !in c.generated && q !in c.fixed {
      if q in c.base {
        assert q in (set x | x in c.base && Child(x, p));
      } else {
        var g :| g in c.generated.Keys + c.fixed.Keys && Under(g, q) && g != q;
        assert Under(g, p) && g != p && g[|p|] == q[|p|];
        assert NameIn(p, g) == {Base(q)};
      }
    }
  }

  lemma ListsFromNames(c: Config, o: Overlay, p: Path, now: Time, names: set<Name>, list: seq<Info>)
    requires WellFormed(c) && EnoughNames(c, o, p, names)
    requires SortedByName(list) && Describes(c, o, p, now, names, list)
    ensures Lists(c, o, p, now, list)
  {
    forall q | Child(q, p) && !KindAt(c, o, q).Absent?
      ensures exists i :: 0 <= i < |list| && list[i].path == q
    {
      NamesSuffice(c, o, p, names, q);
    }
  }

  /** sort.Slice by name, one element at a time. */
  method InsertByName(list: seq<Info>, x: Info) returns (list': seq<Info>)
    requires SortedByName(list) && x.path != []
    requires forall i :: 0 <= i < |list| ==> Base(list[i].path) != Base(x.path)
    ensures SortedByName(list')
    ensures exists k :: 0 <= k <= |list| && list' == list[..k] + [x] + list[k..]
  {
    var k := |list|;
    while k > 0 && Less(Base(x.path), Base(list[k - 1].path))
      invariant 0 <= k <= |list|
      invariant forall j :: k <= j < |list| ==> Less(Base(x.path), Base(list[j].path))
    {
      k := k - 1;
    }
    list' := list[..k] + [x] + list[k..];
    forall i | 0 <= i < k ensures Less(Base(list[i].path), Base(x.path)) {
      LessTotal(Base(list[k - 1].path), Base(x.path));
      if i < k - 1 {
        LessTransitive(Base(list[i].path), Base(list[k - 1].path), Base(x.path));
      }
    }
    SortedInsert(list, x, k);
  }

  lemma SortedInsert(list: seq<Info>, x: Info, k: nat)
    requires SortedByName(list) && x.path != [] && k <= |list|
    requires forall i :: 0 <= i < k ==> Less(Base(list[i].path), Base(x.path))
    requires forall j :: k <= j < |list| ==> Less(Base(x.path), Base(list[j].path))
    ensures SortedByName(list[..k] + [x] + list[k..])
  {
  }

  lemma DescribesMore(c: Config, o: Overlay, p: Path, now: Time, names: set<Name>, n: Name, list: seq<Info>, list': seq<Info>, k: nat)
    requires Describes(c, o, p, now, names, list) && k <= |list|
    requires Stat(c, o, p + [n], now).Ok? && list' == list[..k] + [Stat(c, o, p + [n], now).value] + list[k..]
    ensures Describes(c, o, p, now, names + {n}, list')
  {
    assert Child(p + [n], p) && Base(p + [n]) == n by { assert Parent(p + [n]) == p; }
    forall m | m in names + {n} && !KindAt(c, o, p + [m]).Absent?
      ensures exists i :: 0 <= i < |list'| && list'[i].path == p + [m]
    {
      if m == n {
        assert list'[k].path == p + [m];
      } else {
        var i :| 0 <= i < |list| && list[i].path == p + [m];
        assert list'[if i < k then i else i + 1].path == p + [m];
      }
    }
  }

  // ---- the file system ---------------------------------------------------------------------------------

  class FileSystem {
    const cfg: Config
    var files: map<Path, Content>
    var dirs: set<Path>
    var mtime: map<Path, Time>
    var used: int

    function View(): Overlay
      reads this
    {
      Overlay(files, dirs, mtime, used)
    }

    ghost predicate Valid()
      reads this
    {
      WellFormed(cfg) && OverlayOk(cfg, View())
    }

    constructor (cfg: Config)
      requires Layered(cfg)
      ensures Valid() && View() == EMPTY && this.cfg == WithDefaults(cfg)
    {
      DefaultsWellFormed(cfg);
      this.cfg := WithDefaults(cfg);
      files, dirs, mtime, used := map[], {}, map[], 0;
    }

    method Reset()
      requires WellFormed(cfg)
      modifies this
      ensures Valid() && View() == EMPTY
    {
      files, dirs, mtime, used := map[], {}, map[], 0;
    }

    /** ReadDir. */
    method ReadDir(p: Path, now: Time) returns (r: Outcome<seq<Info>>)
      requires Valid()
      ensures KindAt(cfg, View(), p).Absent? ==> r == Err(NotExist)
      ensures KindAt(cfg, View(), p).Regular? ==> r == Err(NotDir)
      ensures KindAt(cfg, View(), p).Directory? && Private(cfg, p) ==> r == Err(Permission)
      ensures KindAt(cfg, View(), p).Directory? && !Private(cfg, p) ==> r.Ok? && Lists(cfg, View(), p, now, r.value)
    {
      var o := View();
      var st := Stat(cfg, o, p, now);
      if st.Err? {
        return Err(st.error);
      }
      if !st.value.dir {
        return Err(NotDir);
      }
      if Private(cfg, p) {
        return Err(Permission);
      }
      var names := CollectNames(p);
      var list := DescribeAll(p, now, names);
      ListsFromNames(cfg, o, p, now, names, list);
      return Ok(list);
    }

    method CollectNames(p: Path) returns (names: set<Name>)
      ensures EnoughNames(cfg, View(), p, names)
    {
      var baseNames: set<Path> := if p in cfg.base then set q | q in cfg.base && Child(q, p) else {};
      names := AddNames({}, p, baseNames);
      names := AddNames(names, p, cfg.extra);
      names := AddNames(names, p, cfg.generated.Keys);
      names := AddNames(names, p, cfg.fixed.Keys);
      names := AddNames(names, p, dirs);
      names := AddNames(names, p, files.Keys);
    }

    method DescribeAll(p: Path, now: Time, names: set<Name>) returns (list: seq<Info>)
      ensures SortedByName(list) && Describes(cfg, View(), p, now, names, list)
    {
      var o := View();
      list := [];
      var todo, done := names, {};
      while todo != {}
        invariant todo !! done && todo + done == names
        invariant SortedByName(list) && Describes(cfg, o, p, now, done, list)
        decreases todo
      {
        var n :| n in todo;
        var st := Stat(cfg, o, p + [n], now);
        if st.Ok? {
          ghost var before := list;
          list := InsertByName(list, st.value);
          ghost var k :| 0 <= k <= |before| && list == before[..k] + [st.value] + before[k..];
          DescribesMore(cfg, o, p, now, done, n, before, list, k);
        }
        todo, done := todo - {n}, done + {n};
      }
      assert done == names;
    }
  
    /** WriteFile succeeds exactly when p is an overlay file or a free place to create one, and the bytes
        fit; then only p changes, and reading it gives the data back. Otherwise nothing changes. */
    method WriteFile(p: Path, data: Content, now: Time) returns (err: Option<Error>)
      requires Valid()
      modifies this
      ensures Valid()
      ensures err.None? <==> old(MayWrite(cfg, View(), p, |data|))
      ensures err.None? || err == old(WriteRefusal(cfg, View(), p))
      ensures View() == if err.None? then PutFile(old(View()), p, data, now) else old(View())
      ensures err.None? && !Private(cfg, p) ==> ReadFile(cfg, View(), p, now) == Ok(data)
      ensures err.None? ==> Stat(cfg, View(), p, now) == Ok(Info(p, false, |data|, now))
    {
      hide WellFormed, OverlayOk, KindAt, CheckCreate, Stat, ReadFile;
      var o := View();
      var before := if p in files then |files[p]| else 0;
      if p !in files {
        var st := Stat(cfg, o, p, now);
        if st.Ok? {
          return if st.value.dir then Some(IsDir) else Some(Permission);
        }
        var denied := CheckCreate(cfg, o, p);
        if denied.Some? {
          return denied;
        }
      }
      if used - before + |data| > cfg.maxBytes {
        return Some(NoSpace);
      }
      PutFileOk(cfg, o, p, data, now);
      ReadBack(cfg, o, p, data, now);
      used := used + (|data| - before);
      files := files[p := data];
      mtime := mtime[p := now];
      return None;
    }

    /** Touch creates an empty file where nothing exists, and otherwise changes no more than a time. */
    method Touch(p: Path, now: Time) returns (err: Option<Error>)
      requires Valid()
      modifies this
      ensures Valid()
      ensures View() ==
        if old(KindAt(cfg, View(), p)).Absent? && err.None? then PutFile(old(View()), p, [], now)
        else if old(InOverlay(View(), p)) then old(View()).(mtime := old(mtime)[p := now])
        else old(View())
      ensures old(InOverlay(View(), p)) ==> err.None?
      ensures old(KindAt(cfg, View(), p)).Absent? ==> (err.None? <==> old(MayWrite(cfg, View(), p, 0)))
      ensures old(KindAt(cfg, View(), p)).Absent? && err.Some? ==> err == old(WriteRefusal(cfg, View(), p))
      ensures !old(KindAt(cfg, View(), p)).Absent? && !old(InOverlay(View(), p)) ==>
        err == if Writable(cfg, Parent(p)) then None else Some(Permission)
    {
      var o := View();
      if Stat(cfg, o, p, now).Err? {
        err := WriteFile(p, [], now);
        return;
      }
      if p in files || p in dirs {
        TouchOk(cfg, o, p, now);
        mtime := mtime[p := now];
        return None;
      }
      if !Writable(cfg, Parent(p)) {
        return Some(Permission);
      }
      return None;
    }

    /** Mkdir; with `parents` it also creates the missing directories above p, and succeeds exactly when
        all of them can be made. Whether it succeeds or not, it makes exactly those missing prefixes of p
        that can be made, and reports the objection to the first that cannot. */
    method Mkdir(p: Path, parents: bool, now: Time) returns (err: Option<Error>)
      requires Valid()
      modifies this
      ensures Valid() && Grown(cfg, old(View()), View(), p, now)
      ensures err.None? ==> AllMade(cfg, old(View()), View(), p)
      ensures parents ==> (err.None? <==> old(MayMakeAll(cfg, View(), p))) && err == old(FirstRefusal(cfg, View(), p))
      ensures parents ==> MadeWhatItCould(cfg, old(View()), View(), p)
      ensures !parents ==> err == old(MakeRefusal(cfg, View(), p))
      ensures !parents && err.Some? ==> View() == old(View())
      decreases |p|
    {
      hide WellFormed, OverlayOk, KindAt, CheckCreate, Stat, MayMakeAll, AllMade, Grown, MakeRefusal, FirstRefusal, MadeWhatItCould;
      ghost var o0 := View();
      GrownNone(cfg, o0, p, now);
      GrownNone(cfg, o0, Parent(p), now);
      if parents {
        RefusalWhen(cfg, o0, p);
        RefusalWhen(cfg, o0, Parent(p));
        var st := Stat(cfg, View(), p, now);
        if st.Ok? && st.value.dir {
          AlreadyMade(cfg, o0, p);
          MadeAll(cfg, o0, o0, p);
          return None;
        }
        RootIsDirectory(cfg, o0);
        var parent := Parent(p);
        if parent != p {
          var above := Stat(cfg, View(), parent, now);
          if !(above.Ok? && above.value.dir) {
            err := Mkdir(parent, true, now);
            if err.Some? {
              GrownParent(cfg, o0, View(), p, now);
              StoppedAbove(cfg, o0, View(), p, now);
              return;
            }
          } else {
            AlreadyMade(cfg, o0, parent);
            MadeAll(cfg, o0, o0, parent);
          }
        }
        MakeLast(cfg, o0, View(), p, now);
      } else {
        ParentIsThere(cfg, o0, p);
      }
      ghost var o1 := View();
      err := MakeOne(p, now);
      if err.None? {
        NothingMissing(cfg, o0, o1, p, now);
        if parents {
          MadeAll(cfg, o0, View(), p);
        }
      } else {
        GrownParent(cfg, o0, o1, p, now);
        if parents {
          StoppedHere(cfg, o0, o1, p, now);
        }
      }
    }

    /** The part of Mkdir that both forms end with. */
    method MakeOne(p: Path, now: Time) returns (err: Option<Error>)
      requires Valid()
      modifies this`dirs, this`mtime
      ensures Valid() && err == old(MakeRefusal(cfg, View(), p))
      ensures View() == if err.None? then PutDir(old(View()), p, now) else old(View())
      ensures err.None? ==> KindAt(cfg, View(), p).Directory?
    {
      hide WellFormed, OverlayOk, KindAt, CheckCreate, Stat;
      ghost var o := View();
      var st := Stat(cfg, View(), p, now);
      if st.Ok? {
        return Some(Exist);
      }
      var denied := CheckCreate(cfg, View(), p);
      if denied.Some? {
        return denied;
      }
      PutDirOk(cfg, o, p, now);
      DirNow(cfg, o, p, now);
      dirs := dirs + {p};
      mtime := mtime[p := now];
      return None;
    }

    /** Remove deletes overlay entries only. A file, or a directory with `recursive`, always goes, and
        with it exactly the overlay entries at or below p; every failure leaves the tree unchanged. */
    method Remove(p: Path, recursive: bool, now: Time) returns (err: Option<Error>)
      requires Valid()
      modifies this
      ensures Valid()
      ensures View() == if err.None? then Cut(old(View()), p) else old(View())
      ensures old(KindAt(cfg, View(), p)).Absent? ==> err == Some(NotExist)
      ensures !old(KindAt(cfg, View(), p)).Absent? && !old(InOverlay(View(), p)) ==> err == Some(Permission)
      ensures old(p in files || (p in dirs && (recursive || EntriesUnder(View(), p) == {p}))) ==> err.None?
      ensures old(p in dirs && !recursive && EntriesUnder(View(), p) != {p}) ==> err == Some(NotEmpty)
      decreases |EntriesUnder(View(), p)|
    {
      hide WellFormed, OverlayOk, Stat, Lists, Cut, EntriesUnder, Private, Pruned, Kids, NamesOf;
      ghost var o := View();
      var st := Stat(cfg, View(), p, now);
      if st.Err? {
        return Some(st.error);
      }
      if p in files {
        RemoveFile(cfg, o, p);
        used := used - |files[p]|;
        files := files - {p};
        mtime := mtime - {p};
        return None;
      }
      if p !in dirs {
        return Some(Permission);
      }
      var children := [];
      var listing := ReadDir(p, now);
      if listing.Ok? {
        children := listing.value;
      }
      ListingIsKids(cfg, o, p, now, listing, children);
      if |children| > 0 && !recursive {
        return Some(NotEmpty);
      }
      PrunedNone(o, p);
      assert children[..0] == [];
      for i := 0 to |children|
        invariant Valid()
        invariant Pruned(o, View(), p, NamesOf(children[..i]))
      {
        var q := children[i].path;
        ghost var o1 := View();
        NextChild(cfg, o, o1, p, children, i);
        var failed := Remove(q, true, now);
        if failed.Some? {
          assert false;
        }
        PrunedMore(cfg, o, o1, p, NamesOf(children[..i]), q);
        NamesOfMore(children, i);
      }
      assert children[..|children|] == children;
      ghost var o2 := View();
      dirs := dirs - {p};
      mtime := mtime - {p};
      PrunedAll(cfg, o, o2, p, children, View());
      return None;
    }
  }

  // ---- removing a subtree child by child ------------------------------------------------------------------

  ghost function NamesOf(list: seq<Info>): set<Name>
  {
    set i | 0 <= i < |list| && list[i].path != [] :: Base(list[i].path)
  }

  lemma NamesOfMore(list: seq<Info>, i: nat)
    requires i < |list| && list[i].path != []
    ensures NamesOf(list[..i + 1]) == NamesOf(list[..i]) + {Base(list[i].path)}
  {
    var more := list[..i + 1];
    forall n | n in NamesOf(list[..i]) + {Base(list[i].path)} ensures n in NamesOf(more) {
      if n in NamesOf(list[..i]) {
        var k :| 0 <= k < i && list[..i][k].path != [] && Base(list[..i][k].path) == n;
        assert more[k] == list[k];
      } else {
        assert more[i] == list[i];
      }
    }
    forall n | n in NamesOf(more) ensures n in NamesOf(list[..i]) + {Base(list[i].path)} {
      var k :| 0 <= k < |more| && more[k].path != [] && Base(more[k].path) == n;
      if k < i {
        assert list[..i][k] == more[k];
      }
    }
  }

  /** list names, in order and once each, the children of p, which are all overlay entries, and
      everything the overlay has strictly below p lies at or below one of them. */
  ghost predicate Kids(o: Overlay, p: Path, list: seq<Info>)
  {
    && SortedByName(list)
    && (forall i :: 0 <= i < |list| ==> Child(list[i].path, p) && InOverlay(o, list[i].path))
    && (forall q :: InOverlay(o, q) && Under(q, p) && q != p ==> q[|p|] in NamesOf(list))
  }

  lemma OverlayBelow(c: Config, o: Overlay, p: Path, q: Path)
    requires WellFormed(c) && OverlayOk(c, o) && InOverlay(o, q) && Under(q, p) && q != p
    ensures |p| < |q| && Child(p + [q[|p|]], p) && !KindAt(c, o, p + [q[|p|]]).Absent?
    ensures p in o.dirs ==> !Private(c, p)
  {
    UnderChild(q, p);
    var kid := p + [q[|p|]];
    assert Parent(kid) == p;
    if q != kid {
      AncestorsAreDirectories(c, o, q, kid);
    }
    if p in o.dirs {
      BelowOverlay(c, o, kid, p);
      assert Placed(c, o, kid);
    }
  }

  lemma KidsAreOverlay(c: Config, o: Overlay, p: Path, now: Time, list: seq<Info>, i: nat)
    requires WellFormed(c) && OverlayOk(c, o) && p in o.dirs && Lists(c, o, p, now, list) && i < |list|
    ensures Child(list[i].path, p) && InOverlay(o, list[i].path)
    ensures list[i].path in EntriesUnder(o, p) && list[i].path != p
  {
    hide WellFormed, OverlayOk;
    assert list[i].path == p + [Base(list[i].path)];
    assert Stat(c, o, list[i].path, now).Ok?;
    BelowOverlay(c, o, list[i].path, p);
  }

  lemma KidsAreAll(c: Config, o: Overlay, p: Path, now: Time, list: seq<Info>, q: Path)
    requires WellFormed(c) && OverlayOk(c, o) && Lists(c, o, p, now, list)
    requires InOverlay(o, q) && Under(q, p) && q != p
    ensures q[|p|] in NamesOf(list)
  {
    OverlayBelow(c, o, p, q);
    hide WellFormed, OverlayOk, KindAt;
    var i :| 0 <= i < |list| && list[i].path == p + [q[|p|]];
    assert Base(list[i].path) == q[|p|];
  }

  /** The children ReadDir reports for an overlay directory, none when it is private. */
  lemma ListingIsKids(c: Config, o: Overlay, p: Path, now: Time, listing: Outcome<seq<Info>>, list: seq<Info>)
    requires WellFormed(c) && OverlayOk(c, o) && p in o.dirs
    requires if Private(c, p) then listing.Err? else listing.Ok? && Lists(c, o, p, now, listing.value)
    requires list == if listing.Ok? then listing.value else []
    ensures Kids(o, p, list)
    ensures list == [] <==> EntriesUnder(o, p) == {p}
  {
    hide WellFormed, OverlayOk, NamesOf, Private;
    forall i | 0 <= i < |list| ensures Child(list[i].path, p) && InOverlay(o, list[i].path) {
      KidsAreOverlay(c, o, p, now, list, i);
    }
    forall q | InOverlay(o, q) && Under(q, p) && q != p ensures list != [] && q[|p|] in NamesOf(list) {
      OverlayBelow(c, o, p, q);
      KidsAreAll(c, o, p, now, list, q);
      NoNames();
    }
    if list != [] {
      KidsAreOverlay(c, o, p, now, list, 0);
    } else {
      assert EntriesUnder(o, p) == {p};
    }
  }

  lemma NoNames()
    ensures NamesOf([]) == {}
  {
  }

  /** What o' has at q: what o has there, or nothing when it is gone. */
  predicate After(o: Overlay, o': Overlay, q: Path, gone: bool)
  {
    && (q in o'.files <==> q in o.files && !gone) && (q in o'.files ==> o'.files[q] == o.files[q])
    && (q in o'.dirs <==> q in o.dirs && !gone)
    && (q in o'.mtime <==> q in o.mtime && !gone) && (q in o'.mtime ==> o'.mtime[q] == o.mtime[q])
  }

  lemma CutAfter(o: Overlay, p: Path, q: Path)
    requires o.mtime.Keys == o.files.Keys + o.dirs
    ensures After(o, Cut(o, p), q, Under(q, p))
  {
    CutEntries(o, p, q);
  }

  lemma AfterBoth(o: Overlay, o1: Overlay, o2: Overlay, q: Path, first: bool, second: bool)
    requires After(o, o1, q, first) && After(o1, o2, q, second)
    ensures After(o, o2, q, first || second)
  {
  }

  lemma AfterUnique(o: Overlay, a: Overlay, b: Overlay, p: Path)
    requires forall q :: After(o, a, q, Under(q, p))
    requires forall q :: After(o, b, q, Under(q, p))
    ensures a.files == b.files && a.dirs == b.dirs && a.mtime == b.mtime
  {
    hide Under;
    forall q ensures (q in a.files <==> q in b.files) && (q in a.dirs <==> q in b.dirs) && (q in a.mtime <==> q in b.mtime)
      ensures (q in a.files ==> a.files[q] == b.files[q]) && (q in a.mtime ==> a.mtime[q] == b.mtime[q])
    {
      assert After(o, a, q, Under(q, p)) && After(o, b, q, Under(q, p));
    }
    assert a.files.Keys == b.files.Keys && a.mtime.Keys == b.mtime.Keys;
  }

  /** q lies at or below a child of p whose name is in names. */
  predicate Gone(q: Path, p: Path, names: set<Name>) { Under(q, p) && q != p && q[|p|] in names }

  /** o' is o after the children of p with the given names were removed. */
  ghost predicate Pruned(o: Overlay, o': Overlay, p: Path, names: set<Name>)
  {
    forall q :: After(o, o', q, Gone(q, p, names))
  }

  lemma PrunedNone(o: Overlay, p: Path)
    ensures NamesOf([]) == {} && Pruned(o, o, p, {})
  {
  }

  lemma GoneMore(x: Path, p: Path, names: set<Name>, q: Path)
    requires Child(q, p)
    ensures Gone(x, p, names + {Base(q)}) <==> Gone(x, p, names) || Under(x, q)
  {
    assert q == p + [Base(q)];
    if Under(x, q) {
      assert x[..|p|] == p && x[|p|] == Base(q);
    }
    if Under(x, p) && x != p && x[|p|] == Base(q) {
      UnderChild(x, p);
    }
  }

  lemma PrunedMore(c: Config, o: Overlay, o1: Overlay, p: Path, names: set<Name>, q: Path)
    requires OverlayOk(c, o1) && Pruned(o, o1, p, names) && Child(q, p)
    ensures Pruned(o, Cut(o1, q), p, names + {Base(q)})
  {
    assert o1.mtime.Keys == o1.files.Keys + o1.dirs;
    hide OverlayOk, After, Cut, Gone, Under;
    forall x ensures After(o, Cut(o1, q), x, Gone(x, p, names + {Base(q)})) {
      CutAfter(o1, q, x);
      GoneMore(x, p, names, q);
      AfterBoth(o, o1, Cut(o1, q), x, Gone(x, p, names), Under(x, q));
    }
  }

  /** The next child is still there, and its subtree is smaller than the whole. */
  lemma NextChild(c: Config, o: Overlay, o1: Overlay, p: Path, list: seq<Info>, i: nat)
    requires p in o.dirs && Kids(o, p, list) && i < |list| && Pruned(o, o1, p, NamesOf(list[..i]))
    ensures var q := list[i].path;
      Child(q, p) && InOverlay(o1, q) && !KindAt(c, o1, q).Absent? && |EntriesUnder(o1, q)| < |EntriesUnder(o, p)|
  {
    var q, names := list[i].path, NamesOf(list[..i]);
    assert q == p + [Base(q)];
    if Gone(q, p, names) {
      var k :| 0 <= k < i && list[..i][k].path != [] && Base(list[..i][k].path) == Base(q);
      LessIrreflexive(Base(q));
    }
    assert After(o, o1, q, Gone(q, p, names));
    SmallerBelow(o, o1, p, names, q);
  }

  lemma SmallerBelow(o: Overlay, o1: Overlay, p: Path, names: set<Name>, q: Path)
    requires p in o.dirs && Pruned(o, o1, p, names) && Child(q, p)
    ensures |EntriesUnder(o1, q)| < |EntriesUnder(o, p)|
  {
    forall x | x in EntriesUnder(o1, q) ensures x in EntriesUnder(o, p) {
      assert After(o, o1, x, Gone(x, p, names));
      UnderParent(q, p);
      assert x[..|p|] == q[..|p|];
    }
    assert p in EntriesUnder(o, p) && p !in EntriesUnder(o1, q);
    SubsetSize(EntriesUnder(o1, q), EntriesUnder(o, p));
  }

  lemma LastToGo(o: Overlay, o2: Overlay, p: Path, list: seq<Info>, o3: Overlay, q: Path)
    requires o.mtime.Keys == o.files.Keys + o.dirs && p in o.dirs && p !in o.files
    requires Kids(o, p, list) && Pruned(o, o2, p, NamesOf(list))
    requires o3 == o2.(dirs := o2.dirs - {p}, mtime := o2.mtime - {p})
    ensures After(o, o3, q, Under(q, p))
  {
    hide NamesOf;
    assert After(o, o2, q, Gone(q, p, NamesOf(list)));
    assert InOverlay(o, q) && Under(q, p) && q != p ==> Gone(q, p, NamesOf(list));
  }

  /** Whatever loses exactly the entries at or below p is the cut. */
  lemma IsCut(o: Overlay, o': Overlay, p: Path)
    requires o.mtime.Keys == o.files.Keys + o.dirs && o'.used == Total(o'.files)
    requires forall q :: After(o, o', q, Under(q, p))
    ensures o' == Cut(o, p)
  {
    hide After, Under;
    forall q ensures After(o, Cut(o, p), q, Under(q, p)) {
      CutAfter(o, p, q);
    }
    AfterUnique(o, o', Cut(o, p), p);
  }

  /** Removing every child and then p itself is removing the whole subtree. */
  lemma PrunedAll(c: Config, o: Overlay, o2: Overlay, p: Path, list: seq<Info>, o3: Overlay)
    requires OverlayOk(c, o) && OverlayOk(c, o2) && p in o.dirs && p !in o.files
    requires Kids(o, p, list) && Pruned(o, o2, p, NamesOf(list))
    requires o3 == o2.(dirs := o2.dirs - {p}, mtime := o2.mtime - {p})
    ensures o3 == Cut(o, p) && OverlayOk(c, o3)
  {
    CutOk(c, o, p);
    assert o.mtime.Keys == o.files.Keys + o.dirs && o2.used == Total(o2.files);
    hide OverlayOk, Cut, NamesOf, After, Kids, Pruned;
    forall q ensures After(o, o3, q, Under(q, p)) {
      LastToGo(o, o2, p, list, o3, q);
    }
    IsCut(o, o3, p);
  }

  lemma FileHasNothingBelow(c: Config, o: Overlay, p: Path, q: Path)
    requires WellFormed(c) && OverlayOk(c, o) && p in o.files && InOverlay(o, q) && Under(q, p)
    ensures q == p
  {
    if q != p {
      AncestorsAreDirectories(c, o, q, p);
    }
  }

  lemma OnlyTheFile(c: Config, o: Overlay, p: Path, used: int, q: Path)
    requires WellFormed(c) && OverlayOk(c, o) && p in o.files
    ensures After(o, Overlay(o.files - {p}, o.dirs, o.mtime - {p}, used), q, Under(q, p))
  {
    assert o.mtime.Keys == o.files.Keys + o.dirs && p !in o.dirs;
    hide WellFormed, OverlayOk;
    if InOverlay(o, q) && Under(q, p) {
      FileHasNothingBelow(c, o, p, q);
    }
  }

  lemma RemoveFile(c: Config, o: Overlay, p: Path)
    requires WellFormed(c) && OverlayOk(c, o) && p in o.files
    ensures var o' := Overlay(o.files - {p}, o.dirs, o.mtime - {p}, o.used - |o.files[p]|);
      o' == Cut(o, p) && OverlayOk(c, o') && p !in o.dirs
  {
    hide WellFormed, OverlayOk, Cut, After, Under, Total;
    CutOk(c, o, p);
    TotalRemove(o.files, p);
    Books(c, o, p);
    var o' := Overlay(o.files - {p}, o.dirs, o.mtime - {p}, o.used - |o.files[p]|);
    forall q ensures After(o, o', q, Under(q, p)) {
      OnlyTheFile(c, o, p, o'.used, q);
    }
    IsCut(o, o', p);
  }

  lemma Books(c: Config, o: Overlay, p: Path)
    requires OverlayOk(c, o) && p in o.files
    ensures o.mtime.Keys == o.files.Keys + o.dirs && o.used == Total(o.files) && p !in o.dirs
  {
  }

  lemma StillMissing(c: Config, o: Overlay, o': Overlay, p: Path)
    requires o.files == o'.files && o.dirs <= o'.dirs && KindAt(c, o', p).Absent?
    ensures KindAt(c, o, p).Absent?
  {
  }

  predicate MayWrite(c: Config, o: Overlay, p: Path, size: nat)
  {
    && (p in o.files || (KindAt(c, o, p).Absent? && CheckCreate(c, o, p).None?))
    && o.used - (if p in o.files then |o.files[p]| else 0) + size <= c.maxBytes
  }

  /** Why a write to p is refused: what is there, or the first objection to creating it, or no space. */
  function WriteRefusal(c: Config, o: Overlay, p: Path): Option<Error>
  {
    if p in o.files then Some(NoSpace)
    else match KindAt(c, o, p)
      case Directory => Some(IsDir)
      case Regular => Some(Permission)
      case Absent => if CheckCreate(c, o, p).Some? then CheckCreate(c, o, p) else Some(NoSpace)
  }

  /** Why a single directory cannot be made at p, if it cannot. */
  function MakeRefusal(c: Config, o: Overlay, p: Path): Option<Error>
  {
    if KindAt(c, o, p).Absent? then CheckCreate(c, o, p) else Some(Exist)
  }

  /** How many of p and the directories above it do not exist. */
  function Missing(c: Config, o: Overlay, p: Path): nat
  {
    (if KindAt(c, o, p).Absent? then 1 else 0) + if p == [] then 0 else Missing(c, o, Parent(p))
  }

  /** mkdir -p can succeed: no file is in the way, every missing directory may be created where it
      belongs, and there is room for all of them. */
  ghost predicate MayMakeAll(c: Config, o: Overlay, p: Path)
  {
    && (forall q :: Under(p, q) ==> !KindAt(c, o, q).Regular?)
    && (forall q :: Under(p, q) && KindAt(c, o, q).Absent? ==> Writable(c, Parent(q)) && !Private(c, Parent(q)))
    && |o.files| + |o.dirs| + Missing(c, o, p) <= c.maxEntries
  }

  /** The objection mkdir -p meets first, going down from the root. */
  function FirstRefusal(c: Config, o: Overlay, p: Path): Option<Error>
  {
    if KindAt(c, o, p).Directory? then None
    else if p == [] then Some(Exist)
    else if FirstRefusal(c, o, Parent(p)).Some? then FirstRefusal(c, o, Parent(p))
    else if KindAt(c, o, p).Regular? then Some(Exist)
    else if !Writable(c, Parent(p)) || Private(c, Parent(p)) then Some(Permission)
    else if |o.files| + |o.dirs| + Missing(c, o, Parent(p)) >= c.maxEntries then Some(NoSpace)
    else None
  }

  /** Of p and the directories above it, those that can be made were made. */
  ghost predicate MadeWhatItCould(c: Config, o: Overlay, o': Overlay, p: Path)
  {
    forall q :: Under(p, q) && KindAt(c, o, q).Absent? ==> (q in o'.dirs <==> MayMakeAll(c, o, q))
  }

  /** Directories were made, all of them missing prefixes of p, and nothing else changed. */
  ghost predicate Grown(c: Config, o: Overlay, o': Overlay, p: Path, now: Time)
  {
    && o'.files == o.files && o.dirs <= o'.dirs && o'.used == o.used
    && (forall q :: q in o'.dirs && q !in o.dirs ==> Under(p, q) && KindAt(c, o, q).Absent?)
    && (forall q :: q in o'.mtime ==> o'.mtime[q] == if q in o.mtime then o.mtime[q] else now)
  }

  /** p and everything above it exists, and the missing ones were made and counted. */
  ghost predicate AllMade(c: Config, o: Overlay, o': Overlay, p: Path)
  {
    && KindAt(c, o', p).Directory?
    && (forall q :: Under(p, q) && KindAt(c, o, q).Absent? ==> q in o'.dirs)
    && |o'.dirs| == |o.dirs| + Missing(c, o, p)
  }

  lemma GrownNone(c: Config, o: Overlay, p: Path, now: Time)
    ensures Grown(c, o, o, p, now)
  {
  }

  lemma GrownParent(c: Config, o: Overlay, o': Overlay, p: Path, now: Time)
    requires Grown(c, o, o', Parent(p), now)
    ensures Grown(c, o, o', p, now)
  {
    hide KindAt;
    assert forall q :: Under(Parent(p), q) ==> Under(p, q);
  }

  lemma GrownLast(c: Config, o: Overlay, o': Overlay, p: Path, now: Time)
    requires Grown(c, o, o', p, now) && KindAt(c, o, p).Absent? && p !in o.mtime
    ensures Grown(c, o, PutDir(o', p, now), p, now)
  {
    hide KindAt;
    assert Under(p, p);
    assert Grown(c, o, PutDir(o', p, now), p, now);
  }

  lemma NotThere(c: Config, o: Overlay, p: Path)
    requires OverlayOk(c, o) && KindAt(c, o, p).Absent?
    ensures p !in o.mtime && p !in o.dirs
  {
  }

  /** A single Mkdir only succeeds where nothing above p is missing. */
  lemma ParentIsThere(c: Config, o: Overlay, p: Path)
    requires WellFormed(c) && OverlayOk(c, o)
    ensures MakeRefusal(c, o, p).None? ==> AllMade(c, o, o, Parent(p))
  {
    if MakeRefusal(c, o, p).None? {
      AlreadyMade(c, o, Parent(p));
    }
  }

  lemma NothingMissing(c: Config, o: Overlay, o': Overlay, p: Path, now: Time)
    requires OverlayOk(c, o) && MakeRefusal(c, o', p).None?
    requires Grown(c, o, o', Parent(p), now) && AllMade(c, o, o', Parent(p))
    ensures Grown(c, o, PutDir(o', p, now), p, now) && AllMade(c, o, PutDir(o', p, now), p)
  {
    hide KindAt, CheckCreate, OverlayOk, AllMade;
    MayMake(c, o', p);
    GrownParent(c, o, o', p, now);
    StillMissing(c, o, o', p);
    NotThere(c, o, p);
    hide Grown;
    GrownLast(c, o, o', p, now);
    LastMade(c, o, o', p, now);
  }

  lemma MayMake(c: Config, o: Overlay, p: Path)
    requires MakeRefusal(c, o, p).None?
    ensures p != [] && KindAt(c, o, p).Absent? && p !in o.dirs
  {
  }

  lemma LastMade(c: Config, o: Overlay, o': Overlay, p: Path, now: Time)
    requires p != [] && KindAt(c, o, p).Absent? && KindAt(c, o', p).Absent? && p !in o'.dirs && AllMade(c, o, o', Parent(p))
    ensures AllMade(c, o, PutDir(o', p, now), p)
  {
    hide KindAt;
    DirNow(c, o', p, now);
    AboveOrSame(p);
    assert |o'.dirs + {p}| == |o'.dirs| + 1;
  }

  lemma AboveOrSame(p: Path)
    requires p != []
    ensures forall q :: Under(p, q) ==> q == p || Under(Parent(p), q)
  {
    forall q | Under(p, q) && q != p ensures Under(Parent(p), q) {
      UnderChild(p, q);
    }
  }

  lemma {:induction false} NoneMissing(c: Config, o: Overlay, p: Path)
    requires WellFormed(c) && OverlayOk(c, o) && KindAt(c, o, p).Directory?
    ensures Missing(c, o, p) == 0
    decreases |p|
  {
    if p != [] {
      ParentIsDirectory(c, o, p);
      NoneMissing(c, o, Parent(p));
    }
  }

  lemma AlreadyMade(c: Config, o: Overlay, p: Path)
    requires WellFormed(c) && OverlayOk(c, o) && KindAt(c, o, p).Directory?
    ensures MayMakeAll(c, o, p) && AllMade(c, o, o, p)
  {
    NoneMissing(c, o, p);
    forall q | Under(p, q) ensures KindAt(c, o, q).Directory? {
      if q != p {
        AncestorsAreDirectories(c, o, p, q);
      }
    }
    hide WellFormed, KindAt;
  }

  /** What stops the parent stops p. */
  lemma ParentFirst(c: Config, o: Overlay, p: Path)
    requires p != []
    ensures MayMakeAll(c, o, p) ==> MayMakeAll(c, o, Parent(p))
  {
    hide KindAt, Writable, Private;
    assert forall q :: Under(Parent(p), q) ==> Under(p, q);
  }

  lemma RootIsDirectory(c: Config, o: Overlay)
    requires WellFormed(c) && OverlayOk(c, o)
    ensures KindAt(c, o, []).Directory?
  {
    LowerKinds(c, []);
    LowerUnchanged(c, o, [], 0);
  }

  /** New directories above p do not change what is at p. */
  lemma SameAt(c: Config, o: Overlay, o': Overlay, p: Path, now: Time)
    requires p != [] && Grown(c, o, o', Parent(p), now)
    ensures KindAt(c, o', p) == KindAt(c, o, p)
  {
    assert !Under(Parent(p), p);
  }

  /** There is no objection exactly when all of it can be made. */
  lemma {:induction false} RefusalWhen(c: Config, o: Overlay, p: Path)
    requires WellFormed(c) && OverlayOk(c, o)
    ensures FirstRefusal(c, o, p).None? <==> MayMakeAll(c, o, p)
    decreases |p|
  {
    hide WellFormed, OverlayOk, KindAt, MayMakeAll, Writable, Private;
    RootIsDirectory(c, o);
    if KindAt(c, o, p).Directory? {
      AlreadyMade(c, o, p);
    } else {
      RefusalWhen(c, o, Parent(p));
      ParentFirst(c, o, p);
      LastOne(c, o, p);
    }
  }

  lemma LastOne(c: Config, o: Overlay, p: Path)
    requires p != [] && !KindAt(c, o, p).Directory?
    ensures MayMakeAll(c, o, Parent(p)) ==>
      (MayMakeAll(c, o, p) <==> KindAt(c, o, p).Absent? && Writable(c, Parent(p)) && !Private(c, Parent(p))
                                && |o.files| + |o.dirs| + Missing(c, o, Parent(p)) < c.maxEntries)
  {
    hide KindAt, Writable, Private;
    AboveOrSame(p);
    assert Under(p, p);
  }

  /** Once its parent is there, the objection to p alone is the first objection to all of it. */
  lemma MakeLast(c: Config, o: Overlay, o': Overlay, p: Path, now: Time)
    requires FirstRefusal(c, o, Parent(p)).None? && !KindAt(c, o, p).Directory? && p != []
    requires Grown(c, o, o', Parent(p), now) && AllMade(c, o, o', Parent(p))
    ensures MakeRefusal(c, o', p) == FirstRefusal(c, o, p)
    ensures MakeRefusal(c, o', p).None? ==> KindAt(c, o, p).Absent?
  {
    SameAt(c, o, o', p, now);
    hide KindAt, Writable, Private;
  }

  /** What can be made includes everything above it. */
  lemma {:induction false} AboveToo(c: Config, o: Overlay, p: Path, q: Path)
    requires MayMakeAll(c, o, p) && Under(p, q)
    ensures MayMakeAll(c, o, q)
    decreases |p|
  {
    if p != q {
      ParentFirst(c, o, p);
      UnderChild(p, q);
      AboveToo(c, o, Parent(p), q);
    }
  }

  lemma MadeAll(c: Config, o: Overlay, o': Overlay, p: Path)
    requires MayMakeAll(c, o, p) && AllMade(c, o, o', p)
    ensures MadeWhatItCould(c, o, o', p)
  {
    forall q | Under(p, q) ensures MayMakeAll(c, o, q) {
      AboveToo(c, o, p, q);
    }
    hide MayMakeAll, KindAt;
  }

  /** The refusal of an ancestor leaves p unmade, too. */
  lemma StoppedAbove(c: Config, o: Overlay, o': Overlay, p: Path, now: Time)
    requires p != [] && !KindAt(c, o, p).Directory? && FirstRefusal(c, o, Parent(p)).Some? && !MayMakeAll(c, o, Parent(p))
    requires Grown(c, o, o', Parent(p), now) && MadeWhatItCould(c, o, o', Parent(p))
    ensures FirstRefusal(c, o, p) == FirstRefusal(c, o, Parent(p)) && !MayMakeAll(c, o, p) && MadeWhatItCould(c, o, o', p)
  {
    ParentFirst(c, o, p);
    StoppedHere(c, o, o', p, now);
    hide MayMakeAll, KindAt, MadeWhatItCould;
  }

  lemma StoppedHere(c: Config, o: Overlay, o': Overlay, p: Path, now: Time)
    requires p != [] && !KindAt(c, o, p).Directory? && !MayMakeAll(c, o, p)
    requires Grown(c, o, o', Parent(p), now) && MadeWhatItCould(c, o, o', Parent(p))
    ensures MadeWhatItCould(c, o, o', p)
  {
    SameAt(c, o, o', p, now);
    assert KindAt(c, o, p).Absent? ==> p !in o'.dirs;
    AboveOrSame(p);
    hide MayMakeAll, KindAt, Grown;
  }

  lemma ReadBack(c: Config, o: Overlay, p: Path, data: Content, now: Time)
    ensures !Private(c, p) ==> ReadFile(c, PutFile(o, p, data, now), p, now) == Ok(data)
    ensures Stat(c, PutFile(o, p, data, now), p, now) == Ok(Info(p, false, |data|, now))
  {
  }

  lemma TouchOk(c: Config, o: Overlay, p: Path, now: Time)
    requires OverlayOk(c, o) && InOverlay(o, p)
    ensures OverlayOk(c, o.(mtime := o.mtime[p := now]))
  {
    var o' := o.(mtime := o.mtime[p := now]);
    forall q | InOverlay(o', q) ensures Placed(c, o', q) {
      assert Placed(c, o, q);
    }
  }

  lemma DirNow(c: Config, o: Overlay, p: Path, now: Time)
    requires KindAt(c, o, p).Absent?
    ensures KindAt(c, PutDir(o, p, now), p).Directory?
  {
  }
}
