/**
 Switching the active map: compatibility links through one `current` pointer, installed and
 re-pointed by atomic renames. The machine may stop after any single filesystem operation.
 */
module MapPointer {
  import opened Wrappers
  import opened SymlinkTree

  const CURRENT := "current"

  /** What `map_dir/name` becomes: a relative link through the pointer. */
  function Compat(name: string): Node {
    Link(false, [CURRENT, name])
  }

  /** File names the callers pass: not hidden and not the pointer itself. */
  predicate Plain(name: string) {
    name != "" && name[0] != '.' && name != CURRENT
  }

  function TempName(name: string, pid: string): (t: string)
    ensures t != "" && t[0] == '.'
  {
    "." + name + ".tmp-" + pid
  }

  predicate Hidden(root: Path, p: Path) {
    |p| == |root| + 1 && p[..|root|] == root && p[|root|] != "" && p[|root|][0] == '.'
  }

  predicate PointsTo(fs: Tree, root: Path, dir: Path) {
    root + [CURRENT] in fs && fs[root + [CURRENT]] == Link(true, dir)
  }

  predicate Installed(fs: Tree, root: Path, n: string) {
    root + [n] in fs && fs[root + [n]] == Compat(n)
  }

  /** A path not yet migrated: it reaches dir/n without touching anything the migration rewrites. */
  ghost predicate Legacy(fs: Tree, root: Path, required: seq<string>, n: string, dir: Path) {
    && Walk(fs, root, [n], MAX_LINKS) == Some(dir + [n])
    && forall p :: p in Trail(fs, root, [n], MAX_LINKS) ==>
         && !Hidden(root, p) && p != root + [CURRENT]
         && forall m :: m in required && m != n ==> p != root + [m]
  }

  /** Real product directory holding every required file. */
  ghost predicate Product(fs: Tree, required: seq<string>, dir: Path) {
    RealDir(fs, dir) && forall n :: n in required ==> dir + [n] in fs && fs[dir + [n]] == File
  }

  /** All required paths are served from one directory, and a migration may start or resume here. */
  ghost predicate Coherent(fs: Tree, root: Path, required: seq<string>, dir: Path) {
    && RealDir(fs, root) && dir != root && Product(fs, required, dir)
    && (root + [CURRENT] in fs ==> PointsTo(fs, root, dir))
    && forall n :: n in required ==> (Installed(fs, root, n) && PointsTo(fs, root, dir)) || Legacy(fs, root, required, n, dir)
  }

  /** Every required path resolves to an existing file of dir. */
  ghost predicate Serves(fs: Tree, root: Path, required: seq<string>, dir: Path) {
    forall n :: n in required ==> Resolve(fs, root + [n]) == Some(dir + [n]) && dir + [n] in fs && fs[dir + [n]] == File
  }

  lemma RealFile(fs: Tree, dir: Path, n: string, b: nat)
    requires RealDir(fs, dir) && dir + [n] in fs && fs[dir + [n]] == File
    ensures Walk(fs, [], dir + [n], b) == Some(dir + [n])
  {
    WalkReal(fs, dir, [n], b);
  }

  lemma InstalledResolves(fs: Tree, root: Path, n: string, dir: Path)
    requires RealDir(fs, root) && Installed(fs, root, n) && PointsTo(fs, root, dir)
    requires RealDir(fs, dir) && dir + [n] in fs && fs[dir + [n]] == File
    ensures Walk(fs, root, [n], MAX_LINKS) == Some(dir + [n])
  {
    assert [CURRENT, n] + [n][1..] == [CURRENT, n];
    assert dir + [CURRENT, n][1..] == dir + [n];
    RealFile(fs, dir, n, MAX_LINKS - 2);
  }

  lemma CoherentServes(fs: Tree, root: Path, required: seq<string>, dir: Path)
    requires Coherent(fs, root, required, dir)
    ensures Serves(fs, root, required, dir)
  {
    forall n | n in required ensures Resolve(fs, root + [n]) == Some(dir + [n]) {
      WalkReal(fs, root, [n], MAX_LINKS);
      if !Legacy(fs, root, required, n, dir) {
        InstalledResolves(fs, root, n, dir);
      }
    }
  }

  // ---- what one filesystem operation may disturb -------------------------------------------------

  /** fs and fs' differ only in entries of root named in xs, none of which is a directory. */
  ghost predicate Touches(fs: Tree, fs': Tree, root: Path, xs: set<string>) {
    && (forall p :: (forall x :: x in xs ==> p != root + [x]) ==> (p in fs <==> p in fs') && (p in fs ==> fs[p] == fs'[p]))
    && (forall x :: x in xs ==> (root + [x] in fs ==> fs[root + [x]] != Dir) && (root + [x] in fs' ==> fs'[root + [x]] != Dir))
  }

  lemma TouchedDir(fs: Tree, fs': Tree, root: Path, xs: set<string>, d: Path)
    requires Touches(fs, fs', root, xs) && RealDir(fs, d)
    ensures RealDir(fs', d)
  {
    forall k | 0 < k <= |d| ensures d[..k] in fs' && fs'[d[..k]] == Dir {
      assert d[..k] in fs && fs[d[..k]] == Dir;
      assert forall x :: x in xs ==> d[..k] != root + [x];
    }
  }

  lemma TouchedProduct(fs: Tree, fs': Tree, root: Path, xs: set<string>, required: seq<string>, dir: Path)
    requires Touches(fs, fs', root, xs) && Product(fs, required, dir) && dir != root
    ensures Product(fs', required, dir)
  {
    TouchedDir(fs, fs', root, xs, dir);
    forall n | n in required ensures dir + [n] in fs' && fs'[dir + [n]] == File {
      forall x | x in xs ensures dir + [n] != root + [x] {
        assert (dir + [n])[..|dir|] == dir && (root + [x])[..|root|] == root;
      }
    }
  }

  lemma TouchedLegacy(fs: Tree, fs': Tree, root: Path, xs: set<string>, required: seq<string>, n: string, dir: Path)
    requires Touches(fs, fs', root, xs) && Legacy(fs, root, required, n, dir)
    requires forall x :: x in xs ==> Hidden(root, root + [x]) || x == CURRENT || (x in required && x != n)
    ensures Legacy(fs', root, required, n, dir)
  {
    var trail := Trail(fs, root, [n], MAX_LINKS);
    forall p | p in trail ensures (p in fs <==> p in fs') && (p in fs ==> fs[p] == fs'[p]) {
      assert forall x :: x in xs ==> p != root + [x];
    }
    WalkFrame(fs, fs', root, [n], MAX_LINKS);
  }

  lemma EntryNames(root: Path, x: string, y: string)
    ensures root + [x] == root + [y] <==> x == y
  {
    assert (root + [x])[|root|] == x && (root + [y])[|root|] == y;
  }

  lemma EntryUntouched(fs: Tree, fs': Tree, root: Path, xs: set<string>, y: string)
    requires Touches(fs, fs', root, xs) && y !in xs
    ensures (root + [y] in fs <==> root + [y] in fs') && (root + [y] in fs ==> fs[root + [y]] == fs'[root + [y]])
  {
    forall x | x in xs ensures root + [y] != root + [x] {
      EntryNames(root, x, y);
    }
  }

  lemma HiddenName(root: Path, t: string)
    requires t != "" && t[0] == '.'
    ensures Hidden(root, root + [t])
  {
    assert (root + [t])[..|root|] == root && (root + [t])[|root|] == t;
  }

  /** Making or dropping a temporary changes nothing a reader sees. */
  lemma TemporaryIsInvisible(fs: Tree, fs': Tree, root: Path, t: string, required: seq<string>, dir: Path)
    requires Coherent(fs, root, required, dir) && t != "" && t[0] == '.' && Touches(fs, fs', root, {t})
    requires forall n :: n in required ==> Plain(n)
    ensures Coherent(fs', root, required, dir)
  {
    HiddenName(root, t);
    TouchedDir(fs, fs', root, {t}, root);
    TouchedProduct(fs, fs', root, {t}, required, dir);
    EntryUntouched(fs, fs', root, {t}, CURRENT);
    forall n | n in required ensures (Installed(fs', root, n) && PointsTo(fs', root, dir)) || Legacy(fs', root, required, n, dir) {
      if Legacy(fs, root, required, n, dir) {
        TouchedLegacy(fs, fs', root, {t}, required, n, dir);
      } else {
        EntryUntouched(fs, fs', root, {t}, n);
      }
    }
  }

  /** Creating the pointer at the directory already in use. */
  lemma PointerCreated(fs: Tree, fs': Tree, root: Path, t: string, required: seq<string>, dir: Path)
    requires Coherent(fs, root, required, dir) && t != "" && t[0] == '.' && Touches(fs, fs', root, {t, CURRENT})
    requires root + [CURRENT] !in fs && PointsTo(fs', root, dir)
    ensures Coherent(fs', root, required, dir)
  {
    HiddenName(root, t);
    TouchedDir(fs, fs', root, {t, CURRENT}, root);
    TouchedProduct(fs, fs', root, {t, CURRENT}, required, dir);
    forall n | n in required ensures Legacy(fs', root, required, n, dir) {
      assert Legacy(fs, root, required, n, dir);
      TouchedLegacy(fs, fs', root, {t, CURRENT}, required, n, dir);
    }
  }

  /** Replacing one required path by its compatibility link. */
  lemma RequiredInstalled(fs: Tree, fs': Tree, root: Path, t: string, required: seq<string>, n: string, dir: Path)
    requires Coherent(fs, root, required, dir) && PointsTo(fs, root, dir)
    requires forall m :: m in required ==> Plain(m)
    requires n in required && t != "" && t[0] == '.' && Touches(fs, fs', root, {t, n}) && Installed(fs', root, n)
    ensures Coherent(fs', root, required, dir) && PointsTo(fs', root, dir)
    ensures forall m :: m in required && Installed(fs, root, m) ==> Installed(fs', root, m)
  {
    HiddenName(root, t);
    TouchedDir(fs, fs', root, {t, n}, root);
    TouchedProduct(fs, fs', root, {t, n}, required, dir);
    EntryUntouched(fs, fs', root, {t, n}, CURRENT);
    forall m | m in required
      ensures (Installed(fs', root, m) && PointsTo(fs', root, dir)) || Legacy(fs', root, required, m, dir)
      ensures Installed(fs, root, m) ==> Installed(fs', root, m)
    {
      if m != n {
        EntryUntouched(fs, fs', root, {t, n}, m);
        if Legacy(fs, root, required, m, dir) {
          TouchedLegacy(fs, fs', root, {t, n}, required, m, dir);
        }
      }
    }
  }

  ghost predicate AllInstalled(fs: Tree, root: Path, required: seq<string>) {
    forall n :: n in required ==> Installed(fs, root, n)
  }

  /** Once all required paths are links, any other plain entry may be rewritten. */
  lemma OptionalInstalled(fs: Tree, fs': Tree, root: Path, t: string, required: seq<string>, o: string, dir: Path)
    requires Coherent(fs, root, required, dir) && PointsTo(fs, root, dir) && AllInstalled(fs, root, required)
    requires forall m :: m in required ==> Plain(m)
    requires o !in required && Plain(o) && t != "" && t[0] == '.' && Touches(fs, fs', root, {t, o})
    ensures Coherent(fs', root, required, dir) && PointsTo(fs', root, dir) && AllInstalled(fs', root, required)
  {
    TouchedDir(fs, fs', root, {t, o}, root);
    TouchedProduct(fs, fs', root, {t, o}, required, dir);
    EntryUntouched(fs, fs', root, {t, o}, CURRENT);
    forall m | m in required ensures Installed(fs', root, m) {
      EntryUntouched(fs, fs', root, {t, o}, m);
    }
  }

  /** The one operation that changes what readers see: re-pointing `current`. */
  lemma PointerMoved(fs: Tree, fs': Tree, root: Path, t: string, required: seq<string>, dir: Path, source: Path)
    requires Coherent(fs, root, required, dir) && AllInstalled(fs, root, required)
    requires forall m :: m in required ==> Plain(m)
    requires source != root && Product(fs, required, source)
    requires t != "" && t[0] == '.' && Touches(fs, fs', root, {t, CURRENT}) && PointsTo(fs', root, source)
    ensures Coherent(fs', root, required, source)
  {
    TouchedDir(fs, fs', root, {t, CURRENT}, root);
    TouchedProduct(fs, fs', root, {t, CURRENT}, required, source);
    forall m | m in required ensures Installed(fs', root, m) {
      EntryUntouched(fs, fs', root, {t, CURRENT}, m);
    }
  }

  // ---- where a migration may start ---------------------------------------------------------------

  /** Two required paths cannot run through each other: each ends in its own file. */
  lemma NotThroughSibling(fs: Tree, root: Path, n: string, m: string, dir: Path)
    requires RealDir(fs, root) && m != n
    requires Walk(fs, root, [n], MAX_LINKS) == Some(dir + [n]) && Walk(fs, root, [m], MAX_LINKS) == Some(dir + [m])
    requires dir + [m] in fs && fs[dir + [m]] == File
    ensures root + [m] !in Trail(fs, root, [n], MAX_LINKS)
  {
    if root + [m] in Trail(fs, root, [n], MAX_LINKS) {
      var r, b := ConsultedAt(fs, root, [n], MAX_LINKS, root, m);
      assert IsDir(fs, root) by {
        if root != [] {
          assert root[..|root|] == root;
        }
      }
      if r == [] {
        assert [m] + r == [m];
        MoreBudget(fs, root, [m], b, MAX_LINKS);
        EntryNames(dir, m, n);
      } else {
        PrefixIsDir(fs, root, [m], r, b);
        MoreBudget(fs, root, [m], b, MAX_LINKS);
      }
    }
  }

  /**
   The one-time migration starts coherent: the required paths resolve to D/name for one real
   directory D other than map_dir, there is no pointer yet, and none runs through a dot file.
   */
  lemma MigrationStartsCoherent(fs: Tree, root: Path, required: seq<string>, dir: Path)
    requires RealDir(fs, root) && dir != root && Product(fs, required, dir) && root + [CURRENT] !in fs
    requires forall n :: n in required ==> Plain(n) && Resolve(fs, root + [n]) == Some(dir + [n])
    requires forall n, p :: n in required && p in Trail(fs, root, [n], MAX_LINKS) ==> !Hidden(root, p)
    ensures Coherent(fs, root, required, dir)
  {
    forall n | n in required ensures Legacy(fs, root, required, n, dir) {
      WalkReal(fs, root, [n], MAX_LINKS);
      TrailExists(fs, root, [n], MAX_LINKS);
      forall m | m in required && m != n ensures root + [m] !in Trail(fs, root, [n], MAX_LINKS) {
        WalkReal(fs, root, [m], MAX_LINKS);
        NotThroughSibling(fs, root, n, m, dir);
      }
    }
  }

  // ---- what goes wrong otherwise -----------------------------------------------------------------

  lemma {:induction false} SelfLoop(fs: Tree, root: Path, n: string, b: nat)
    requires RealDir(fs, root) && Installed(fs, root, n) && PointsTo(fs, root, root)
    ensures Walk(fs, root, [n], b) == None
  {
    if b >= 2 {
      assert [CURRENT, n] + [n][1..] == [CURRENT, n];
      assert root + [CURRENT, n][1..] == root + [n];
      WalkReal(fs, root, [n], b - 2);
      SelfLoop(fs, root, n, b - 2);
    } else if b == 1 {
      assert [CURRENT, n] + [n][1..] == [CURRENT, n];
    }
  }

  /**
   A required path that will be served wrongly: `current` leads to map_dir itself, or to a product
   other than D while some later required path still reaches D on its own.
   */
  ghost predicate Doomed(fs: Tree, root: Path, required: seq<string>, dir: Path, first: string) {
    RealDir(fs, root) &&
    exists p :: PointsTo(fs, root, p) &&
      (p == root ||
       (p != dir && Product(fs, required, p) && exists m :: m in required && m != first && Legacy(fs, root, required, m, dir)))
  }

  /**
   On a doomed disk the first compatibility link breaks coherence: it resolves to itself, or
   it leaves D while another required path still resolves into D.
   */
  lemma FirstLinkBreaks(fs: Tree, fs': Tree, root: Path, t: string, required: seq<string>, n: string, dir: Path, other: Path)
    requires Doomed(fs, root, required, dir, n) && n in required && Plain(n)
    requires t != "" && t[0] == '.' && Touches(fs, fs', root, {t, n}) && Installed(fs', root, n)
    ensures !Serves(fs', root, required, dir) && !Serves(fs', root, required, other)
  {
    var p :| PointsTo(fs, root, p) &&
      (p == root ||
       (p != dir && Product(fs, required, p) && exists m :: m in required && m != n && Legacy(fs, root, required, m, dir)));
    TouchedDir(fs, fs', root, {t, n}, root);
    EntryUntouched(fs, fs', root, {t, n}, CURRENT);
    WalkReal(fs', root, [n], MAX_LINKS);
    if p == root {
      SelfLoop(fs', root, n, MAX_LINKS);
    } else {
      var m :| m in required && m != n && Legacy(fs, root, required, m, dir);
      HiddenName(root, t);
      TouchedProduct(fs, fs', root, {t, n}, required, p);
      TouchedLegacy(fs, fs', root, {t, n}, required, m, dir);
      WalkReal(fs', root, [m], MAX_LINKS);
      InstalledResolves(fs', root, n, p);
      SameParent(p, dir, n);
      SameParent(p, other, n);
      SameParent(dir, other, m);
    }
  }

  lemma SameParent(a: Path, b: Path, n: string)
    ensures a + [n] == b + [n] <==> a == b
  {
    assert (a + [n])[..|a|] == a && (b + [n])[..|b|] == b;
  }

  // ---- exactly which starts are safe -------------------------------------------------------------------

  /** The path is still its own: not a compatibility link, and not running through dot files or the pointer. */
  ghost predicate OwnPath(fs: Tree, root: Path, n: string) {
    forall p :: p in Trail(fs, root, [n], MAX_LINKS) ==> !Hidden(root, p) && p != root + [CURRENT]
  }

  /**
   The starts the question is asked for: every required path resolves to D/name in a real
   product directory D, each by a path of its own or by its compatibility link; the pointer is
   absent or names a product; at least two paths are still their own.
   */
  ghost predicate Start(fs: Tree, root: Path, required: seq<string>, dir: Path, source: Path) {
    && RealDir(fs, root) && source != root && Product(fs, required, source) && Product(fs, required, dir)
    && (forall n :: n in required ==> Plain(n) && Resolve(fs, root + [n]) == Some(dir + [n]) && (Installed(fs, root, n) || OwnPath(fs, root, n)))
    && (root + [CURRENT] in fs ==> exists p :: PointsTo(fs, root, p) && Product(fs, required, p))
    && exists n, m :: n in required && m in required && n != m && !Installed(fs, root, n) && !Installed(fs, root, m)
  }

  /** D is not map_dir, and an existing pointer names D. */
  predicate PointerAgrees(fs: Tree, root: Path, dir: Path) {
    dir != root && (root + [CURRENT] in fs ==> PointsTo(fs, root, dir))
  }

  /** A path of its own that resolves to D/name is a legacy path. */
  lemma OwnIsLegacy(fs: Tree, root: Path, required: seq<string>, dir: Path, source: Path, n: string)
    requires Start(fs, root, required, dir, source) && n in required && !Installed(fs, root, n)
    ensures Legacy(fs, root, required, n, dir)
  {
    WalkReal(fs, root, [n], MAX_LINKS);
    forall m | m in required && m != n ensures root + [m] !in Trail(fs, root, [n], MAX_LINKS) {
      WalkReal(fs, root, [m], MAX_LINKS);
      NotThroughSibling(fs, root, n, m, dir);
    }
  }

  lemma InstalledNeedsPointer(fs: Tree, root: Path, n: string)
    requires RealDir(fs, root) && Installed(fs, root, n) && root + [CURRENT] !in fs
    ensures Resolve(fs, root + [n]) == None
  {
    WalkReal(fs, root, [n], MAX_LINKS);
    assert [CURRENT, n] + [n][1..] == [CURRENT, n];
  }

  lemma AgreeingStartIsCoherent(fs: Tree, root: Path, required: seq<string>, dir: Path, source: Path)
    requires Start(fs, root, required, dir, source) && PointerAgrees(fs, root, dir)
    ensures Coherent(fs, root, required, dir)
  {
    forall n | n in required ensures (Installed(fs, root, n) && PointsTo(fs, root, dir)) || Legacy(fs, root, required, n, dir) {
      if !Installed(fs, root, n) {
        OwnIsLegacy(fs, root, required, dir, source, n);
      } else if root + [CURRENT] !in fs {
        InstalledNeedsPointer(fs, root, n);
      }
    }
  }

  /** An existing pointer that disagrees dooms the disk as it is. */
  lemma DisagreeingPointerDooms(fs: Tree, root: Path, required: seq<string>, dir: Path, source: Path)
    requires Start(fs, root, required, dir, source) && !PointerAgrees(fs, root, dir) && root + [CURRENT] in fs && required != []
    ensures Doomed(fs, root, required, dir, required[0])
  {
    var p :| PointsTo(fs, root, p) && Product(fs, required, p);
    var n, m :| n in required && m in required && n != m && !Installed(fs, root, n) && !Installed(fs, root, m);
    OwnIsLegacy(fs, root, required, dir, source, n);
    OwnIsLegacy(fs, root, required, dir, source, m);
  }

  // ---- two disks that are not safe to start from --------------------------------------------------------

  const MAPS: Path := ["m"]
  const OLD: Path := ["m", "v1"]
  const NEW: Path := ["m", "v2"]
  const STALE: Path := ["m", "v0"]
  const NAMES := ["a", "b"]

  predicate IsName(n: string) {
    n == "a" || n == "b"
  }

  /** The required files lie in map_dir itself and in the product to switch to. */
  const FILES_IN_ROOT: Tree :=
    map p | p in {["m"], ["m", "a"], ["m", "b"], ["m", "v2"], ["m", "v2", "a"], ["m", "v2", "b"]} ::
      if |p| == 3 || (|p| == 2 && IsName(p[1])) then File else Dir

  /** The required paths lead to v1, the pointer to v0. */
  const STALE_POINTER: Tree :=
    map p | p in {["m"], ["m", "a"], ["m", "b"], ["m", "current"],
                  ["m", "v0"], ["m", "v0", "a"], ["m", "v0", "b"], ["m", "v1"], ["m", "v1", "a"], ["m", "v1", "b"],
                  ["m", "v2"], ["m", "v2", "a"], ["m", "v2", "b"]} ::
      if |p| == 3 then File
      else if |p| == 2 && IsName(p[1]) then Link(true, ["m", "v1", p[1]])
      else if |p| == 2 && p[1] == CURRENT then Link(true, STALE)
      else Dir

  lemma RealMaps(fs: Tree, d: Path)
    requires MAPS in fs && fs[MAPS] == Dir && (d == MAPS || (|d| == 2 && d[..1] == MAPS && d in fs && fs[d] == Dir))
    ensures RealDir(fs, d)
  {
    forall k | 0 < k <= |d| ensures d[..k] in fs && fs[d[..k]] == Dir {
      assert k == |d| ==> d[..k] == d;
    }
  }

  lemma ProductOf(fs: Tree, d: Path)
    requires MAPS in fs && fs[MAPS] == Dir && (d == MAPS || (|d| == 2 && d[..1] == MAPS && d in fs && fs[d] == Dir))
    requires d + ["a"] in fs && fs[d + ["a"]] == File && d + ["b"] in fs && fs[d + ["b"]] == File
    ensures Product(fs, NAMES, d)
  {
    RealMaps(fs, d);
  }

  /** A plain file of map_dir is its own path. */
  lemma PlainFileIsOwn(fs: Tree, n: string)
    requires MAPS in fs && fs[MAPS] == Dir && MAPS + [n] in fs && fs[MAPS + [n]] == File && n != "" && n[0] != '.' && n != CURRENT
    ensures Resolve(fs, MAPS + [n]) == Some(MAPS + [n]) && OwnPath(fs, MAPS, n) && !Installed(fs, MAPS, n)
  {
    RealMaps(fs, MAPS);
    WalkReal(fs, MAPS, [n], MAX_LINKS);
    EntryNames(MAPS, n, CURRENT);
    assert Trail(fs, MAPS, [n], MAX_LINKS) == {MAPS + [n]};
  }

  lemma DirectLinkIsOwn(fs: Tree, n: string, d: string)
    requires MAPS in fs && fs[MAPS] == Dir && MAPS + [d] in fs && fs[MAPS + [d]] == Dir
    requires MAPS + [n] in fs && fs[MAPS + [n]] == Link(true, MAPS + [d, n])
    requires MAPS + [d, n] in fs && fs[MAPS + [d, n]] == File
    requires n != "" && n[0] != '.' && n != CURRENT && d != "" && d[0] != '.' && d != CURRENT
    ensures Resolve(fs, MAPS + [n]) == Some(MAPS + [d, n]) && OwnPath(fs, MAPS, n) && !Installed(fs, MAPS, n)
  {
    RealMaps(fs, MAPS);
    WalkReal(fs, MAPS, [n], MAX_LINKS);
    EntryNames(MAPS, n, CURRENT);
    EntryNames(MAPS, d, CURRENT);
    var b := MAX_LINKS - 1;
    assert MAPS + [d, n] + [n][1..] == ["m", d, n];
    assert [] + ["m"] == MAPS && MAPS + [d] == ["m", d] && ["m", d, n][1..] == [d, n] && [d, n][1..] == [n];
    assert MAPS + [d] + [n] == MAPS + [d, n];
    assert Walk(fs, MAPS + [d], [n], b) == Some(MAPS + [d, n]);
    assert Walk(fs, MAPS, [d, n], b) == Some(MAPS + [d, n]);
    assert Walk(fs, [], ["m", d, n], b) == Some(MAPS + [d, n]);
    assert Trail(fs, MAPS + [d], [n], b) == {MAPS + [d, n]};
    assert Trail(fs, MAPS, [d, n], b) == {MAPS + [d], MAPS + [d, n]};
    assert Trail(fs, [], ["m", d, n], b) == {MAPS, MAPS + [d], MAPS + [d, n]};
    assert Trail(fs, MAPS, [n], MAX_LINKS) == {MAPS + [n], MAPS, MAPS + [d], MAPS + [d, n]};
  }

  /** Plain files in map_dir: such a start exists and does not agree. */
  lemma FilesInRootStart()
    ensures Start(FILES_IN_ROOT, MAPS, NAMES, MAPS, NEW) && !PointerAgrees(FILES_IN_ROOT, MAPS, MAPS)
  {
    hide Product, OwnPath, Installed, Resolve;
    var fs := FILES_IN_ROOT;
    assert MAPS + ["a"] == ["m", "a"] && MAPS + ["b"] == ["m", "b"];
    assert NEW + ["a"] == ["m", "v2", "a"] && NEW + ["b"] == ["m", "v2", "b"];
    ProductOf(fs, MAPS);
    ProductOf(fs, NEW);
    RealMaps(fs, MAPS);
    PlainFileIsOwn(fs, "a");
    PlainFileIsOwn(fs, "b");
    TwoNames(fs, MAPS, MAPS);
    assert MAPS + [CURRENT] !in fs by {
      EntryNames(MAPS, CURRENT, "a");
      EntryNames(MAPS, CURRENT, "b");
      EntryNames(MAPS, CURRENT, "v2");
      assert MAPS + ["v2"] == NEW;
    }
  }

  lemma TwoNames(fs: Tree, root: Path, dir: Path)
    requires Resolve(fs, root + ["a"]) == Some(dir + ["a"]) && OwnPath(fs, root, "a")
    requires Resolve(fs, root + ["b"]) == Some(dir + ["b"]) && OwnPath(fs, root, "b")
    ensures forall n :: n in NAMES ==> Plain(n) && Resolve(fs, root + [n]) == Some(dir + [n]) && OwnPath(fs, root, n)
    ensures "a" in NAMES && "b" in NAMES && "a" != "b"
  {
  }

  /** A pointer left on another product: such a start exists and does not agree. */
  lemma StalePointerStart()
    ensures Start(STALE_POINTER, MAPS, NAMES, OLD, NEW) && !PointerAgrees(STALE_POINTER, MAPS, OLD)
  {
    hide Product, OwnPath, Installed, Resolve;
    var fs := STALE_POINTER;
    assert MAPS + ["a"] == ["m", "a"] && MAPS + ["b"] == ["m", "b"] && MAPS + [CURRENT] == ["m", "current"];
    assert OLD + ["a"] == ["m", "v1", "a"] && OLD + ["b"] == ["m", "v1", "b"];
    assert NEW + ["a"] == ["m", "v2", "a"] && NEW + ["b"] == ["m", "v2", "b"];
    assert STALE + ["a"] == ["m", "v0", "a"] && STALE + ["b"] == ["m", "v0", "b"];
    assert STALE[1] != OLD[1];
    ProductOf(fs, OLD);
    ProductOf(fs, NEW);
    ProductOf(fs, STALE);
    RealMaps(fs, MAPS);
    assert MAPS + ["v1"] == OLD && MAPS + ["v1", "a"] == OLD + ["a"] && MAPS + ["v1", "b"] == OLD + ["b"];
    DirectLinkIsOwn(fs, "a", "v1");
    DirectLinkIsOwn(fs, "b", "v1");
    TwoNames(fs, MAPS, OLD);
    assert PointsTo(fs, MAPS, STALE);
  }
}
