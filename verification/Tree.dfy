/** fakeshell/vfs: the layered file tree as values. Paths are sequences of components, so that
    path.Clean'ed absolute paths are exactly the sequences and "/" is the empty one. */
module Tree {
  import opened Common

  type Name = string
  type Path = seq<Name>
  type Content = seq<byte>
  type Time = int

  datatype Error = NotExist | Exist | NotDir | IsDir | Permission | NotEmpty | NoSpace | Invalid

  datatype Outcome<+T> = Ok(value: T) | Err(error: Error)

  datatype Node = Dir | File(content: Content)

  datatype Config = Config(
    base: map<Path, Node>,                   // the read-only tree
    extra: set<Path>,                        // ExtraDirs
    generated: map<Path, Time -> Content>,   // content computed per read
    fixed: map<Path, Content>,               // Static
    root: bool,                              // the session user is root
    writable: set<Path>,
    private: set<Path>,
    baseTime: Time,
    maxEntries: int,
    maxBytes: int)

  datatype Overlay = Overlay(files: map<Path, Content>, dirs: set<Path>, mtime: map<Path, Time>, used: int)

  const EMPTY: Overlay := Overlay(map[], {}, map[], 0)

  /** path.Dir and path.Base. */
  function Parent(p: Path): Path { if p == [] then [] else p[..|p| - 1] }

  function Base(p: Path): Name
    requires p != []
  {
    p[|p| - 1]
  }

  /** under: p is dir or lies below it. */
  predicate Under(p: Path, dir: Path) { dir <= p }

  lemma UnderParent(p: Path, dir: Path)
    requires p != [] && Under(Parent(p), dir)
    ensures Under(p, dir)
  {
    assert p[..|dir|] == Parent(p)[..|dir|];
  }

  /** Every path strictly below dir is dir's child or lies below one. */
  lemma UnderChild(p: Path, dir: Path)
    requires Under(p, dir) && p != dir
    ensures |dir| < |p| && Under(p, dir + [p[|dir|]])
    ensures Under(Parent(p), dir)
  {
    assert p[..|dir| + 1] == dir + [p[|dir|]];
  }

  // ---- lookup ---------------------------------------------------------------------------------

  predicate Private(c: Config, p: Path) { !c.root && exists d :: d in c.private && Under(p, d) }

  predicate Writable(c: Config, dir: Path) { c.root || exists d :: d in c.writable && Under(dir, d) }

  /** generatedParent: some generated or static file lies strictly below p. */
  predicate Implied(c: Config, p: Path)
  {
    exists g :: g in c.generated.Keys + c.fixed.Keys && Under(g, p) && g != p
  }

  /** What the read-only layers have at p: a directory, a file, or nothing. */
  datatype Kind = Directory | Regular | Absent

  function Lower(c: Config, p: Path): Kind
  {
    if p in c.extra then Directory
    else if p in c.generated then Regular
    else if p in c.fixed then Regular
    else if p in c.base then (if c.base[p].Dir? then Directory else Regular)
    else if Implied(c, p) then Directory
    else Absent
  }

  /** What Stat finds at p. */
  function KindAt(c: Config, o: Overlay, p: Path): Kind
  {
    if p in o.files then Regular else if p in o.dirs then Directory else Lower(c, p)
  }

  datatype Info = Info(path: Path, dir: bool, size: nat, modTime: Time)

  /** Stat, without owner and permission bits. */
  function Stat(c: Config, o: Overlay, p: Path, now: Time): (r: Outcome<Info>)
    ensures r.Err? <==> KindAt(c, o, p).Absent?
    ensures r.Err? ==> r.error == NotExist
    ensures r.Ok? ==> r.value.path == p && (r.value.dir <==> KindAt(c, o, p).Directory?)
  {
    var time := if p in o.mtime then o.mtime[p] else c.baseTime;
    if p in o.files then Ok(Info(p, false, |o.files[p]|, time))
    else if p in o.dirs || p in c.extra then Ok(Info(p, true, 4096, time))
    else if p in c.generated then Ok(Info(p, false, |c.generated[p](now)|, now))
    else if p in c.fixed then Ok(Info(p, false, |c.fixed[p]|, time))
    else if p in c.base then
      Ok(if c.base[p].Dir? then Info(p, true, 4096, time) else Info(p, false, |c.base[p].content|, time))
    else if Implied(c, p) then Ok(Info(p, true, 0, time))
    else Err(NotExist)
  }

  function ReadFile(c: Config, o: Overlay, p: Path, now: Time): Outcome<Content>
  {
    match KindAt(c, o, p)
    case Absent => Err(NotExist)
    case Directory => Err(IsDir)
    case Regular =>
      if Private(c, p) then Err(Permission)
      else if p in o.files then Ok(o.files[p])
      else if p in c.generated then Ok(c.generated[p](now))
      else if p in c.fixed then Ok(c.fixed[p])
      else if p in c.base && c.base[p].File? then Ok(c.base[p].content)
      else Err(NotExist)
  }

  // ---- well-formed configurations -----------------------------------------------------------------

  predicate LowerFile(c: Config, p: Path) { p in c.generated || p in c.fixed || (p in c.base && c.base[p].File?) }

  predicate LowerDir(c: Config, p: Path) { p in c.extra || (p in c.base && c.base[p].Dir?) || Implied(c, p) }

  /** The base is a tree, extra directories hang in the lower layers, and no path is a file in one
      layer and a directory in another. */
  ghost predicate Layered(c: Config)
  {
    && [] in c.base && c.base[[]].Dir?
    && (forall p :: p in c.base && p != [] ==> Parent(p) in c.base && c.base[Parent(p)].Dir?)
    && (forall p :: p in c.extra && p != [] ==> LowerDir(c, Parent(p)))
    && (forall p :: LowerFile(c, p) ==> !LowerDir(c, p))
  }

  ghost predicate WellFormed(c: Config) { Layered(c) && c.maxEntries > 0 && c.maxBytes > 0 }

  const DEFAULT_MAX_ENTRIES: int := 128
  const DEFAULT_MAX_BYTES: int := 0x4_0000

  /** What New makes of the limits. */
  function WithDefaults(c: Config): Config
  {
    c.(maxEntries := if c.maxEntries <= 0 then DEFAULT_MAX_ENTRIES else c.maxEntries,
       maxBytes := if c.maxBytes <= 0 then DEFAULT_MAX_BYTES else c.maxBytes)
  }

  lemma DefaultsWellFormed(c: Config)
    requires Layered(c)
    ensures WellFormed(WithDefaults(c))
    ensures WithDefaults(c).maxEntries == (if c.maxEntries > 0 then c.maxEntries else 128)
    ensures WithDefaults(c).maxBytes == if c.maxBytes > 0 then c.maxBytes else 262144
  {
    var d := WithDefaults(c);
    assert forall p :: LowerFile(d, p) == LowerFile(c, p) && LowerDir(d, p) == LowerDir(c, p);
  }

  /** A configuration with all layers: a base with a file, an extra directory, a generated file in a
      directory nobody listed, and a static one. */
  lemma LayeredExample(content: Content, f: Time -> Content) returns (c: Config)
    ensures Layered(c)
    ensures Lower(c, []).Directory? && Lower(c, ["etc"]).Directory? && Lower(c, ["etc", "motd"]).Regular?
    ensures Lower(c, ["tmp"]).Directory? && Lower(c, ["proc"]).Directory? && Lower(c, ["proc", "uptime"]).Regular?
    ensures Lower(c, ["etc", "os"]).Regular? && Lower(c, ["home"]).Absent?
  {
    c := Config(map[[] := Dir, ["etc"] := Dir, ["etc", "motd"] := File(content)], {["tmp"]},
                map[["proc", "uptime"] := f], map[["etc", "os"] := content], false, {}, {}, 0, 0, 0);
    assert ["etc", "motd"][..1] == ["etc"] && ["proc", "uptime"][..1] == ["proc"] && ["etc", "os"][..1] == ["etc"];
    assert Under(["proc", "uptime"], ["proc"]) && Implied(c, ["proc"]);
    forall g | g in c.generated.Keys + c.fixed.Keys ensures !Under(g, ["home"]) {
      assert g[0] != ["home"][0];
    }
    forall p | p in c.base && p != [] ensures Parent(p) in c.base && c.base[Parent(p)].Dir? {
    }
    forall p | p in c.extra && p != [] ensures LowerDir(c, Parent(p)) {
      assert Parent(p) == [];
    }
    forall p | LowerFile(c, p) ensures !LowerDir(c, p) {
      assert p in {["etc", "motd"], ["proc", "uptime"], ["etc", "os"]};
      forall g | g in c.generated.Keys + c.fixed.Keys && Under(g, p) ensures g == p {
        assert |g| == 2 && |p| == 2;
      }
    }
  }

  lemma LowerKinds(c: Config, p: Path)
    requires WellFormed(c)
    ensures Lower(c, p).Directory? <==> LowerDir(c, p)
    ensures Lower(c, p).Regular? <==> LowerFile(c, p)
  {
  }

  lemma ImpliedParent(c: Config, p: Path)
    requires p != [] && (Implied(c, p) || p in c.generated || p in c.fixed)
    ensures Implied(c, Parent(p))
  {
    var g := if p in c.generated || p in c.fixed then p else
      var g :| g in c.generated.Keys + c.fixed.Keys && Under(g, p) && g != p; g;
    assert Under(g, Parent(p)) && g != Parent(p);
  }

  /** Whatever a lower layer has lies in a directory of the lower layers. */
  lemma LowerClosed(c: Config, p: Path)
    requires WellFormed(c) && p != [] && !Lower(c, p).Absent?
    ensures Lower(c, Parent(p)).Directory?
  {
    LowerKinds(c, p);
    LowerKinds(c, Parent(p));
    if Implied(c, p) || p in c.generated || p in c.fixed {
      ImpliedParent(c, p);
    }
  }

  lemma {:induction false} LowerAncestors(c: Config, p: Path, dir: Path)
    requires WellFormed(c) && !Lower(c, p).Absent? && Under(p, dir) && p != dir
    ensures Lower(c, dir).Directory?
    decreases |p|
  {
    LowerClosed(c, p);
    if Parent(p) != dir {
      UnderChild(p, dir);
      LowerAncestors(c, Parent(p), dir);
    }
  }

  // ---- sizes ----------------------------------------------------------------------------------------

  /** The bytes held by a set of files. */
  ghost function Total(m: map<Path, Content>): nat
    decreases |m|
  {
    if m == map[] then 0 else var k :| k in m; |m[k]| + Total(m - {k})
  }

  lemma {:induction false} TotalRemove(m: map<Path, Content>, k: Path)
    requires k in m
    ensures Total(m) == |m[k]| + Total(m - {k})
    decreases |m|
  {
    var k0 :| k0 in m && Total(m) == |m[k0]| + Total(m - {k0});
    if k0 != k {
      TotalRemove(m - {k0}, k);
      TotalRemove(m - {k}, k0);
      assert m - {k0} - {k} == m - {k} - {k0};
    }
  }

  lemma TotalUpdate(m: map<Path, Content>, k: Path, v: Content)
    ensures Total(m[k := v]) == Total(m) - (if k in m then |m[k]| else 0) + |v|
  {
    TotalRemove(m[k := v], k);
    assert m[k := v] - {k} == m - {k};
    if k in m {
      TotalRemove(m, k);
    } else {
      assert m - {k} == m;
    }
  }

  /** The files of m whose paths are in ks. */
  function Within(m: map<Path, Content>, ks: set<Path>): map<Path, Content> { map k | k in m && k in ks :: m[k] }

  lemma NothingWithin(m: map<Path, Content>, ks: set<Path>)
    requires Within(m, ks) == map[]
    ensures m - ks == m
  {
    forall k | k in m ensures k !in ks {
      assert k !in Within(m, ks);
    }
  }

  lemma WithinRemove(m: map<Path, Content>, ks: set<Path>, k: Path)
    requires k in Within(m, ks)
    ensures Within(m - {k}, ks) == Within(m, ks) - {k} && m - {k} - ks == m - ks
    ensures k in m && m[k] == Within(m, ks)[k]
  {
  }

  /** The files in ks and those outside it together make up the whole. */
  lemma {:induction false} TotalSplit(m: map<Path, Content>, ks: set<Path>)
    ensures Total(m) == Total(m - ks) + Total(Within(m, ks))
    decreases |m|
  {
    var inside := Within(m, ks);
    if inside == map[] {
      NothingWithin(m, ks);
    } else {
      var k :| k in inside;
      WithinRemove(m, ks, k);
      hide Within, Total;
      TotalRemove(m, k);
      TotalSplit(m - {k}, ks);
      TotalRemove(inside, k);
    }
  }

  // ---- the overlay ------------------------------------------------------------------------------------

  predicate InOverlay(o: Overlay, p: Path) { p in o.files || p in o.dirs }

  /** Entry p is new to the lower layers and hangs in a directory the user may list. */
  predicate Placed(c: Config, o: Overlay, p: Path)
  {
    p != [] && Lower(c, p).Absent? && KindAt(c, o, Parent(p)).Directory? && !Private(c, Parent(p))
  }

  /** The books: files and directories are disjoint, both have a time, sizes add up, limits hold. */
  ghost predicate Accounts(c: Config, o: Overlay)
  {
    && o.files.Keys !! o.dirs
    && o.mtime.Keys == o.files.Keys + o.dirs
    && o.used == Total(o.files) <= c.maxBytes
    && |o.files| + |o.dirs| <= c.maxEntries
  }

  /** What every operation keeps, failed ones included. */
  ghost predicate OverlayOk(c: Config, o: Overlay)
  {
    Accounts(c, o) && forall p :: InOverlay(o, p) ==> Placed(c, o, p)
  }

  /** A lower-layer entry looks the same through every overlay: its kind and its content. */
  lemma LowerUnchanged(c: Config, o: Overlay, p: Path, now: Time)
    requires OverlayOk(c, o) && !Lower(c, p).Absent?
    ensures KindAt(c, o, p) == Lower(c, p)
    ensures ReadFile(c, o, p, now) == ReadFile(c, EMPTY, p, now)
  {
    assert !InOverlay(o, p);
  }

  /** Nothing hangs in the air: the parent of whatever exists is a directory. */
  lemma ParentIsDirectory(c: Config, o: Overlay, p: Path)
    requires WellFormed(c) && OverlayOk(c, o) && p != [] && !KindAt(c, o, p).Absent?
    ensures KindAt(c, o, Parent(p)).Directory?
  {
    if InOverlay(o, p) {
      assert Placed(c, o, p);
    } else {
      LowerClosed(c, p);
      LowerUnchanged(c, o, Parent(p), 0);
    }
  }

  lemma {:induction false} AncestorsAreDirectories(c: Config, o: Overlay, p: Path, dir: Path)
    requires WellFormed(c) && OverlayOk(c, o) && !KindAt(c, o, p).Absent? && Under(p, dir) && p != dir
    ensures KindAt(c, o, dir).Directory?
    decreases |p|
  {
    ParentIsDirectory(c, o, p);
    if Parent(p) != dir {
      UnderChild(p, dir);
      AncestorsAreDirectories(c, o, Parent(p), dir);
    }
  }

  /** Below an overlay directory everything is overlay. */
  lemma BelowOverlay(c: Config, o: Overlay, p: Path, dir: Path)
    requires WellFormed(c) && OverlayOk(c, o) && dir in o.dirs && Under(p, dir) && !KindAt(c, o, p).Absent?
    ensures InOverlay(o, p)
  {
    assert Placed(c, o, dir);
    if !InOverlay(o, p) {
      LowerAncestors(c, p, dir);
    }
  }

  /** checkCreate. */
  function CheckCreate(c: Config, o: Overlay, p: Path): Option<Error>
  {
    if p == [] then Some(Invalid)
    else match KindAt(c, o, Parent(p))
      case Absent => Some(NotExist)
      case Regular => Some(NotDir)
      case Directory =>
        if !Writable(c, Parent(p)) || Private(c, Parent(p)) then Some(Permission)
        else if |o.files| + |o.dirs| >= c.maxEntries then Some(NoSpace)
        else None
  }

  function PutFile(o: Overlay, p: Path, data: Content, now: Time): Overlay
  {
    var before := if p in o.files then |o.files[p]| else 0;
    Overlay(o.files[p := data], o.dirs, o.mtime[p := now], o.used + |data| - before)
  }

  function PutDir(o: Overlay, p: Path, now: Time): Overlay { o.(dirs := o.dirs + {p}, mtime := o.mtime[p := now]) }

  // ---- what the operations report, layer by layer ------------------------------------------------------

  /** Something is found exactly where a layer has it, and as what that layer has. */
  lemma KindExactly(c: Config, o: Overlay, p: Path)
    requires WellFormed(c) && OverlayOk(c, o)
    ensures KindAt(c, o, p).Directory? <==> p in o.dirs || LowerDir(c, p)
    ensures KindAt(c, o, p).Regular? <==> p in o.files || LowerFile(c, p)
    ensures InOverlay(o, p) ==> !LowerDir(c, p) && !LowerFile(c, p)
  {
    LowerKinds(c, p);
    hide WellFormed, Accounts;
    assert InOverlay(o, p) ==> Placed(c, o, p);
    assert !(p in o.files && p in o.dirs) by {
      OneKind(c, o, p);
    }
  }

  lemma OneKind(c: Config, o: Overlay, p: Path)
    requires OverlayOk(c, o)
    ensures !(p in o.files && p in o.dirs)
  {
  }

  /** Some directory of ds is p or above it. */
  predicate Covered(p: Path, ds: set<Path>) { exists d :: d in ds && d <= p }

  /** What ReadFile returns, exactly: a private file is refused to everybody but root, and otherwise a
      file gives the content of the topmost layer that has it. */
  lemma ReadFileExactly(c: Config, o: Overlay, p: Path, now: Time)
    ensures ReadFile(c, o, p, now) == Err(NotExist) <==> KindAt(c, o, p).Absent?
    ensures ReadFile(c, o, p, now) == Err(IsDir) <==> KindAt(c, o, p).Directory?
    ensures ReadFile(c, o, p, now) == Err(Permission) <==> KindAt(c, o, p).Regular? && !c.root && Covered(p, c.private)
    ensures KindAt(c, o, p).Regular? && (c.root || !Covered(p, c.private)) ==>
      ReadFile(c, o, p, now) == Ok(if p in o.files then o.files[p]
                                   else if p in c.generated then c.generated[p](now)
                                   else if p in c.fixed then c.fixed[p]
                                   else if p in c.base && c.base[p].File? then c.base[p].content else [])
    ensures KindAt(c, o, p).Regular? ==> p in o.files || LowerFile(c, p)
  {
    assert Private(c, p) <==> !c.root && Covered(p, c.private);
  }

  /** What Stat says about a file agrees with reading it; times are those of the overlay, of now for
      generated files, and of the base otherwise. */
  lemma StatExactly(c: Config, o: Overlay, p: Path, now: Time)
    requires WellFormed(c) && OverlayOk(c, o) && Stat(c, o, p, now).Ok?
    ensures ReadFile(c, o, p, now).Ok? ==> Stat(c, o, p, now).value.size == |ReadFile(c, o, p, now).value|
    ensures Stat(c, o, p, now).value.modTime ==
      if InOverlay(o, p) then o.mtime[p] else if p in c.generated then now else c.baseTime
    ensures KindAt(c, o, p).Directory? ==>
      Stat(c, o, p, now).value.size == if p in o.dirs || p in c.extra || p in c.base then 4096 else 0
  {
    KindExactly(c, o, p);
  }

  /** What stands against creating p, exactly. */
  lemma CreateExactly(c: Config, o: Overlay, p: Path)
    ensures CheckCreate(c, o, p) == Some(Invalid) <==> p == []
    ensures p != [] ==>
      var dir := Parent(p);
      var kind := KindAt(c, o, dir);
      var allowed := c.root || (Covered(dir, c.writable) && !Covered(dir, c.private));
      && (CheckCreate(c, o, p) == Some(NotExist) <==> kind.Absent?)
      && (CheckCreate(c, o, p) == Some(NotDir) <==> kind.Regular?)
      && (CheckCreate(c, o, p) == Some(Permission) <==> kind.Directory? && !allowed)
      && (CheckCreate(c, o, p) == Some(NoSpace) <==> kind.Directory? && allowed && |o.files| + |o.dirs| >= c.maxEntries)
      && (CheckCreate(c, o, p).None? <==> kind.Directory? && allowed && |o.files| + |o.dirs| < c.maxEntries)
  {
    hide KindAt;
    var dir := Parent(p);
    assert Private(c, dir) <==> !c.root && Covered(dir, c.private);
    assert Writable(c, dir) <==> c.root || Covered(dir, c.writable);
  }

  /** Creating p changes what is found at p and nowhere else. */
  lemma PutElsewhere(c: Config, o: Overlay, p: Path, data: Content, now: Time, q: Path)
    requires q != p
    ensures KindAt(c, PutFile(o, p, data, now), q) == KindAt(c, o, q)
    ensures KindAt(c, PutDir(o, p, now), q) == KindAt(c, o, q)
    ensures ReadFile(c, PutFile(o, p, data, now), q, now) == ReadFile(c, o, q, now)
    ensures ReadFile(c, PutDir(o, p, now), q, now) == ReadFile(c, o, q, now)
    ensures Stat(c, PutFile(o, p, data, now), q, now) == Stat(c, o, q, now)
    ensures Stat(c, PutDir(o, p, now), q, now) == Stat(c, o, q, now)
  {
  }

  /** Entries stay placed when directories stay directories. */
  lemma PlacedStays(c: Config, o: Overlay, o': Overlay, p: Path, q: Path)
    requires Placed(c, o, q)
    requires KindAt(c, o, p).Directory? ==> KindAt(c, o', p).Directory?
    requires forall d :: d != p ==> KindAt(c, o', d) == KindAt(c, o, d)
    ensures Placed(c, o', q)
  {
    hide KindAt, Lower, Private;
  }

  lemma PutFilePlaced(c: Config, o: Overlay, p: Path, data: Content, now: Time, q: Path)
    requires OverlayOk(c, o) && InOverlay(PutFile(o, p, data, now), q)
    requires p in o.files || (KindAt(c, o, p).Absent? && CheckCreate(c, o, p).None?)
    ensures Placed(c, PutFile(o, p, data, now), q)
  {
    var o' := PutFile(o, p, data, now);
    assert !KindAt(c, o, p).Directory?;
    assert Placed(c, o, q) by {
      if InOverlay(o, q) {
        hide Placed;
      }
    }
    hide OverlayOk, InOverlay, CheckCreate, Placed, KindAt;
    forall d | d != p ensures KindAt(c, o', d) == KindAt(c, o, d) {
      PutElsewhere(c, o, p, data, now, d);
    }
    PlacedStays(c, o, o', p, q);
  }

  lemma KeysAdd<V>(m: map<Path, V>, k: Path, v: V)
    ensures m[k := v].Keys == m.Keys + {k}
    ensures |m[k := v]| == |m| + if k in m then 0 else 1
  {
    assert |m[k := v]| == |m[k := v].Keys|;
  }

  lemma KeysRemove<V>(m: map<Path, V>, ks: set<Path>)
    ensures (m - ks).Keys == m.Keys - ks
  {
  }

  lemma PutFileAccounts(c: Config, o: Overlay, p: Path, data: Content, now: Time)
    requires Accounts(c, o) && PutFile(o, p, data, now).used <= c.maxBytes
    requires p in o.files || (p !in o.dirs && |o.files| + |o.dirs| < c.maxEntries)
    ensures Accounts(c, PutFile(o, p, data, now))
  {
    TotalUpdate(o.files, p, data);
    KeysAdd(o.files, p, data);
    KeysAdd(o.mtime, p, now);
    OneMore(o.files.Keys, o.dirs, p);
    hide Total;
    assert Accounts(c, PutFile(o, p, data, now));
  }

  lemma OneMore(a: set<Path>, b: set<Path>, p: Path)
    requires a !! b && p !in b
    ensures (a + {p}) !! b && (a + b) + {p} == (a + {p}) + b && (b + a) + {p} == b + (a + {p})
  {
  }

  lemma PutFileOk(c: Config, o: Overlay, p: Path, data: Content, now: Time)
    requires OverlayOk(c, o) && PutFile(o, p, data, now).used <= c.maxBytes
    requires p in o.files || (KindAt(c, o, p).Absent? && CheckCreate(c, o, p).None?)
    ensures OverlayOk(c, PutFile(o, p, data, now))
  {
    var o' := PutFile(o, p, data, now);
    assert p !in o.files ==> p !in o.dirs && |o.files| + |o.dirs| < c.maxEntries;
    hide Accounts, Placed, KindAt, CheckCreate;
    PutFileAccounts(c, o, p, data, now);
    forall q | InOverlay(o', q) ensures Placed(c, o', q) {
      PutFilePlaced(c, o, p, data, now, q);
    }
  }

  lemma PutDirPlaced(c: Config, o: Overlay, p: Path, now: Time, q: Path)
    requires OverlayOk(c, o) && InOverlay(PutDir(o, p, now), q)
    requires KindAt(c, o, p).Absent? && CheckCreate(c, o, p).None?
    ensures Placed(c, PutDir(o, p, now), q)
  {
    var o' := PutDir(o, p, now);
    assert Placed(c, o, q) by {
      if InOverlay(o, q) {
        hide Placed;
      }
    }
    hide OverlayOk, InOverlay, CheckCreate, Placed, KindAt;
    forall d | d != p ensures KindAt(c, o', d) == KindAt(c, o, d) {
      PutElsewhere(c, o, p, [], now, d);
    }
    PlacedStays(c, o, o', p, q);
  }

  lemma PutDirAccounts(c: Config, o: Overlay, p: Path, now: Time)
    requires Accounts(c, o) && p !in o.files && p !in o.dirs && |o.files| + |o.dirs| < c.maxEntries
    ensures Accounts(c, PutDir(o, p, now))
  {
    KeysAdd(o.mtime, p, now);
    OneMore(o.dirs, o.files.Keys, p);
    hide Total;
    assert Accounts(c, PutDir(o, p, now));
  }

  lemma PutDirOk(c: Config, o: Overlay, p: Path, now: Time)
    requires OverlayOk(c, o) && KindAt(c, o, p).Absent? && CheckCreate(c, o, p).None?
    ensures OverlayOk(c, PutDir(o, p, now))
  {
    var o' := PutDir(o, p, now);
    assert p !in o.files && p !in o.dirs && |o.files| + |o.dirs| < c.maxEntries;
    hide Accounts, Placed, KindAt, CheckCreate;
    PutDirAccounts(c, o, p, now);
    forall q | InOverlay(o', q) ensures Placed(c, o', q) {
      PutDirPlaced(c, o, p, now, q);
    }
  }

  // ---- removing a subtree ------------------------------------------------------------------------------

  function FilesUnder(o: Overlay, p: Path): set<Path> { set q | q in o.files && Under(q, p) }

  function DirsUnder(o: Overlay, p: Path): set<Path> { set q | q in o.dirs && Under(q, p) }

  function EntriesUnder(o: Overlay, p: Path): set<Path> { FilesUnder(o, p) + DirsUnder(o, p) }

  /** The overlay without everything at or below p. */
  ghost function Cut(o: Overlay, p: Path): Overlay
  {
    var files := o.files - FilesUnder(o, p);
    Overlay(files, o.dirs - DirsUnder(o, p), o.mtime - EntriesUnder(o, p), Total(files))
  }

  /** What cutting means, entry by entry. */
  lemma CutEntries(o: Overlay, p: Path, q: Path)
    requires o.mtime.Keys == o.files.Keys + o.dirs
    ensures var o' := Cut(o, p);
      && (q in o'.files <==> q in o.files && !Under(q, p)) && (q in o'.files ==> o'.files[q] == o.files[q])
      && (q in o'.dirs <==> q in o.dirs && !Under(q, p))
      && (q in o'.mtime <==> q in o.mtime && !Under(q, p)) && (q in o'.mtime ==> o'.mtime[q] == o.mtime[q])
  {
  }

  lemma CutPlaced(c: Config, o: Overlay, p: Path, q: Path)
    requires OverlayOk(c, o) && InOverlay(Cut(o, p), q)
    ensures Placed(c, Cut(o, p), q)
  {
    CutEntries(o, p, q);
    assert Placed(c, o, q);
    if Under(Parent(q), p) {
      UnderParent(q, p);
    }
    CutEntries(o, p, Parent(q));
  }

  /** The bytes of the removed files are exactly what `used` loses. */
  lemma CutUsed(o: Overlay, p: Path)
    requires o.used == Total(o.files)
    ensures Cut(o, p).used == o.used - Total(map q | q in o.files && Under(q, p) :: o.files[q])
  {
    hide Total;
    TotalSplit(o.files, FilesUnder(o, p));
    assert Within(o.files, FilesUnder(o, p)) == (map q | q in o.files && Under(q, p) :: o.files[q]);
  }

  lemma CutSmaller(o: Overlay, p: Path)
    ensures |Cut(o, p).files| + |Cut(o, p).dirs| <= |o.files| + |o.dirs|
  {
    SubsetSize(Cut(o, p).files.Keys, o.files.Keys);
    SubsetSize(Cut(o, p).dirs, o.dirs);
  }

  lemma CutKeys(o: Overlay, p: Path)
    requires o.files.Keys !! o.dirs && o.mtime.Keys == o.files.Keys + o.dirs
    ensures Cut(o, p).files.Keys !! Cut(o, p).dirs
    ensures Cut(o, p).mtime.Keys == Cut(o, p).files.Keys + Cut(o, p).dirs
    ensures Cut(o, p).used == Total(Cut(o, p).files)
  {
    KeysRemove(o.files, FilesUnder(o, p));
    KeysRemove(o.mtime, EntriesUnder(o, p));
    DifferencesAdd(o.files.Keys, o.dirs, FilesUnder(o, p), DirsUnder(o, p));
    hide Under, Total, FilesUnder, DirsUnder;
  }

  lemma CutAccounts(c: Config, o: Overlay, p: Path)
    requires Accounts(c, o)
    ensures Accounts(c, Cut(o, p))
  {
    hide Cut, Total;
    CutKeys(o, p);
    CutUsed(o, p);
    CutSmaller(o, p);
  }

  lemma DifferencesAdd(a: set<Path>, b: set<Path>, a0: set<Path>, b0: set<Path>)
    requires a !! b && a0 <= a && b0 <= b
    ensures (a + b) - (a0 + b0) == (a - a0) + (b - b0) && (a - a0) !! (b - b0)
  {
  }

  lemma {:induction false} SubsetSize<T>(a: set<T>, b: set<T>)
    requires a <= b
    ensures |a| <= |b|
    ensures a != b ==> |a| < |b|
  {
    assert |b| == |a| + |b - a| by { assert a + (b - a) == b; }
    if a != b {
      var x :| x in b - a;
    }
  }

  lemma CutOk(c: Config, o: Overlay, p: Path)
    requires OverlayOk(c, o)
    ensures OverlayOk(c, Cut(o, p))
  {
    CutAccounts(c, o, p);
    forall q | InOverlay(Cut(o, p), q) ensures Placed(c, Cut(o, p), q) {
      CutPlaced(c, o, p, q);
    }
    hide Cut, Placed, Accounts;
  }

  lemma SameLookup(c: Config, o: Overlay, o': Overlay, q: Path, now: Time)
    requires (q in o'.files <==> q in o.files) && (q in o'.files ==> o'.files[q] == o.files[q])
    requires q in o'.dirs <==> q in o.dirs
    requires (q in o'.mtime <==> q in o.mtime) && (q in o'.mtime ==> o'.mtime[q] == o.mtime[q])
    ensures KindAt(c, o', q) == KindAt(c, o, q) && ReadFile(c, o', q, now) == ReadFile(c, o, q, now)
    ensures Stat(c, o', q, now) == Stat(c, o, q, now)
  {
  }

  /** Cutting an overlay directory: everything at or below it is gone, everything else is as it was. */
  lemma CutIsExact(c: Config, o: Overlay, p: Path, q: Path, now: Time)
    requires WellFormed(c) && OverlayOk(c, o) && p in o.dirs
    ensures if Under(q, p) then KindAt(c, Cut(o, p), q).Absent?
            else && KindAt(c, Cut(o, p), q) == KindAt(c, o, q) && ReadFile(c, Cut(o, p), q, now) == ReadFile(c, o, q, now)
                 && Stat(c, Cut(o, p), q, now) == Stat(c, o, q, now)
  {
    OverlayOrNothing(c, o, p, q);
    hide Cut, WellFormed, Under, Lower, ReadFile, Placed, Stat;
    CutEntries(o, p, q);
    if !Under(q, p) {
      SameLookup(c, o, Cut(o, p), q, now);
    }
  }

  lemma OverlayOrNothing(c: Config, o: Overlay, p: Path, q: Path)
    requires WellFormed(c) && OverlayOk(c, o) && p in o.dirs
    ensures Under(q, p) ==> Lower(c, q).Absent?
  {
    if Under(q, p) && !Lower(c, q).Absent? {
      LowerUnchanged(c, o, q, 0);
      BelowOverlay(c, o, q, p);
    }
  }

  // ---- Resolve ---------------------------------------------------------------------------------------

  /** strings.Split(s, "/"). */
  function Split(s: string): (r: seq<string>)
    ensures r != []
  {
    if s == "" then [""]
    else
      var init, ch := Split(s[..|s| - 1]), s[|s| - 1];
      if ch == '/' then init + [""] else init[..|init| - 1] + [init[|init| - 1] + [ch]]
  }

  /** path.Clean of the rooted path with these components. */
  function Clean(parts: seq<string>): Path
  {
    if parts == [] then []
    else
      var done, part := Clean(parts[..|parts| - 1]), parts[|parts| - 1];
      if part == "" || part == "." then done else if part == ".." then Parent(done) else done + [part]
  }

  /** Resolve; a path with a NUL has no result. */
  function Resolve(cwd: string, p: string): Option<Path>
  {
    if '\0' in p then None
    else if p != "" && p[0] == '/' then Some(Clean(Split(p)))
    else Some(Clean(Split(cwd + "/" + p)))
  }

  /** The absolute path as the shell writes it. */
  function Render(p: Path): string
  {
    if p == [] then "" else Render(p[..|p| - 1]) + "/" + p[|p| - 1]
  }

  predicate Real(n: Name) { n != "" && n != "." && n != ".." && '/' !in n }

  lemma {:induction false} SplitParts(s: string)
    ensures forall i :: 0 <= i < |Split(s)| ==> '/' !in Split(s)[i]
  {
    if s != "" {
      SplitParts(s[..|s| - 1]);
    }
  }

  lemma {:induction false} CleanParts(parts: seq<string>)
    requires forall i :: 0 <= i < |parts| ==> '/' !in parts[i]
    ensures forall i :: 0 <= i < |Clean(parts)| ==> Real(Clean(parts)[i])
  {
    if parts != [] {
      CleanParts(parts[..|parts| - 1]);
    }
  }

  /** Whatever is asked for, the result is a path of real names inside the tree. */
  lemma ResolveStaysInside(cwd: string, p: string)
    ensures Resolve(cwd, p).Some? <==> '\0' !in p
    ensures Resolve(cwd, p).Some? ==> forall i :: 0 <= i < |Resolve(cwd, p).value| ==> Real(Resolve(cwd, p).value[i])
  {
    var s := if p != "" && p[0] == '/' then p else cwd + "/" + p;
    SplitParts(s);
    CleanParts(Split(s));
  }

  lemma {:induction false} SplitAppend(s: string, n: Name)
    requires '/' !in n
    ensures Split(s + "/" + n) == Split(s) + [n]
  {
    if n == "" {
      assert (s + "/" + n)[..|s|] == s;
    } else {
      var k := |n| - 1;
      SplitAppend(s, n[..k]);
      assert (s + "/" + n)[..|s| + 1 + k] == s + "/" + n[..k];
      assert n[..k] + [n[k]] == n;
    }
  }

  lemma {:induction false} CleanRender(p: Path)
    requires forall i :: 0 <= i < |p| ==> Real(p[i])
    ensures Clean(Split(Render(p))) == p
  {
    if p == [] {
      assert Split("") == [""] && [""][..0] == [];
    } else {
      var init, n := p[..|p| - 1], p[|p| - 1];
      CleanRender(init);
      SplitAppend(Render(init), n);
      assert (Split(Render(init)) + [n])[..|Split(Render(init))|] == Split(Render(init));
      assert init + [n] == p;
    }
  }

  /** Entering a name from a directory: "" and "." stay, ".." goes up. */
  function Enter(dir: Path, n: Name): Path
  {
    if n == "" || n == "." then dir else if n == ".." then Parent(dir) else dir + [n]
  }

  lemma CleanSnoc(parts: seq<string>, n: Name)
    ensures Clean(parts + [n]) == Enter(Clean(parts), n)
  {
    assert (parts + [n])[..|parts|] == parts;
  }

  /** Resolving is walking: the last name is entered from where the path before it leads. */
  lemma ResolveWalks(cwd: string, p: string, n: Name)
    requires '/' !in n && '\0' !in p && '\0' !in n && p != ""
    ensures Resolve(cwd, p + "/" + n) == Some(Enter(Resolve(cwd, p).value, n))
  {
    var q := p + "/" + n;
    assert q[0] == p[0] && '\0' !in q;
    if p[0] == '/' {
      SplitAppend(p, n);
      CleanSnoc(Split(p), n);
    } else {
      assert cwd + "/" + q == cwd + "/" + p + "/" + n;
      SplitAppend(cwd + "/" + p, n);
      CleanSnoc(Split(cwd + "/" + p), n);
    }
  }

  /** A single name is entered from the working directory. */
  lemma ResolveName(dir: Path, n: Name)
    requires '/' !in n && '\0' !in n && forall i :: 0 <= i < |dir| ==> Real(dir[i])
    ensures Resolve(Render(dir), n) == Some(Enter(dir, n))
  {
    CleanRender(dir);
    SplitAppend(Render(dir), n);
    CleanSnoc(Split(Render(dir)), n);
  }

  /** A clean absolute path resolves to itself from anywhere. */
  lemma ResolveIdempotent(cwd: string, p: Path)
    requires p != [] && '\0' !in Render(p)
    requires forall i :: 0 <= i < |p| ==> Real(p[i])
    ensures Resolve(cwd, Render(p)) == Some(p)
  {
    CleanRender(p);
    RenderRooted(p);
  }

  lemma {:induction false} RenderRooted(p: Path)
    requires p != []
    ensures Render(p) != "" && Render(p)[0] == '/'
  {
    if |p| > 1 {
      RenderRooted(p[..|p| - 1]);
    } else {
      assert p[..0] == [];
    }
  }
}
