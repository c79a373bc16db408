/**
 A small filesystem with symbolic links: path resolution with the kernel's limit on link
 hops, the entries a resolution consults, and what that makes insensitive to changes.
 */
module SymlinkTree {
  import opened Wrappers

  /** Absolute paths as component lists; [] is the filesystem root. */
  type Path = seq<string>

  datatype Node = File | Dir | Link(absolute: bool, target: seq<string>)

  type Tree = map<Path, Node>

  const MAX_LINKS := 40

  /** Resolve `rest` starting in directory `at`, following at most `budget` links. */
  function Walk(fs: Tree, at: Path, rest: seq<string>, budget: nat): Option<Path>
    decreases budget, |rest|
  {
    if rest == [] then Some(at)
    else
      var p := at + [rest[0]];
      if p !in fs then None
      else
        match fs[p]
        case Dir => Walk(fs, p, rest[1..], budget)
        case File => if |rest| == 1 then Some(p) else None
        case Link(absolute, target) =>
          if budget == 0 then None
          else Walk(fs, if absolute then [] else at, target + rest[1..], budget - 1)
  }

  function Resolve(fs: Tree, p: Path): Option<Path> {
    Walk(fs, [], p, MAX_LINKS)
  }

  /** The entries a resolution looks at. */
  function Trail(fs: Tree, at: Path, rest: seq<string>, budget: nat): set<Path>
    decreases budget, |rest|
  {
    if rest == [] then {}
    else
      var p := at + [rest[0]];
      {p} +
      if p !in fs then {}
      else
        match fs[p]
        case Dir => Trail(fs, p, rest[1..], budget)
        case File => {}
        case Link(absolute, target) =>
          if budget == 0 then {}
          else Trail(fs, if absolute then [] else at, target + rest[1..], budget - 1)
  }

  ghost predicate AgreeOn(fs: Tree, fs': Tree, ps: set<Path>) {
    forall p :: p in ps ==> (p in fs <==> p in fs') && (p in fs ==> fs[p] == fs'[p])
  }

  /** A resolution sees only its trail. */
  lemma {:induction false} WalkFrame(fs: Tree, fs': Tree, at: Path, rest: seq<string>, budget: nat)
    requires AgreeOn(fs, fs', Trail(fs, at, rest, budget))
    ensures Walk(fs', at, rest, budget) == Walk(fs, at, rest, budget)
    ensures Trail(fs', at, rest, budget) == Trail(fs, at, rest, budget)
    decreases budget, |rest|
  {
    if rest != [] {
      var p := at + [rest[0]];
      assert p in Trail(fs, at, rest, budget);
      if p in fs {
        match fs[p]
        case Dir =>
          WalkFrame(fs, fs', p, rest[1..], budget);
        case File =>
        case Link(absolute, target) =>
          if budget > 0 {
            WalkFrame(fs, fs', if absolute then [] else at, target + rest[1..], budget - 1);
          }
      }
    }
  }

  /** A successful resolution consults only entries that exist. */
  lemma {:induction false} TrailExists(fs: Tree, at: Path, rest: seq<string>, budget: nat)
    requires Walk(fs, at, rest, budget).Some?
    ensures forall p :: p in Trail(fs, at, rest, budget) ==> p in fs
    decreases budget, |rest|
  {
    if rest != [] {
      var p := at + [rest[0]];
      match fs[p]
      case Dir =>
        TrailExists(fs, p, rest[1..], budget);
      case File =>
      case Link(absolute, target) =>
        TrailExists(fs, if absolute then [] else at, target + rest[1..], budget - 1);
    }
  }

  lemma {:induction false} MoreBudget(fs: Tree, at: Path, rest: seq<string>, b: nat, b': nat)
    requires Walk(fs, at, rest, b).Some? && b <= b'
    ensures Walk(fs, at, rest, b') == Walk(fs, at, rest, b)
    decreases b, |rest|
  {
    if rest != [] {
      var p := at + [rest[0]];
      match fs[p]
      case Dir =>
        MoreBudget(fs, p, rest[1..], b, b');
      case File =>
      case Link(absolute, target) =>
        MoreBudget(fs, if absolute then [] else at, target + rest[1..], b - 1, b' - 1);
    }
  }

  predicate IsDir(fs: Tree, p: Path) {
    p == [] || (p in fs && fs[p] == Dir)
  }

  /** Resolving past a prefix means the prefix itself resolves to a directory. */
  lemma {:induction false} PrefixIsDir(fs: Tree, at: Path, a: seq<string>, r: seq<string>, b: nat)
    requires Walk(fs, at, a + r, b).Some? && r != [] && IsDir(fs, at)
    ensures Walk(fs, at, a, b).Some? && IsDir(fs, Walk(fs, at, a, b).value)
    decreases b, |a|
  {
    if a != [] {
      var p := at + [a[0]];
      assert (a + r)[1..] == a[1..] + r;
      match fs[p]
      case Dir =>
        PrefixIsDir(fs, p, a[1..], r, b);
      case File =>
      case Link(absolute, target) =>
        assert target + (a + r)[1..] == (target + a[1..]) + r;
        PrefixIsDir(fs, if absolute then [] else at, target + a[1..], r, b - 1);
    }
  }

  /** The moment an entry is consulted, seen as a resolution of its own with the same end. */
  lemma {:induction false} ConsultedAt(fs: Tree, at: Path, rest: seq<string>, b: nat, dir: Path, name: string)
    returns (r: seq<string>, b': nat)
    requires Walk(fs, at, rest, b).Some? && dir + [name] in Trail(fs, at, rest, b)
    ensures b' <= b && Walk(fs, dir, [name] + r, b') == Walk(fs, at, rest, b)
    decreases b, |rest|
  {
    var p := at + [rest[0]];
    if p == dir + [name] {
      assert at == p[..|p| - 1] == dir;
      assert rest[0] == p[|p| - 1] == name;
      r, b' := rest[1..], b;
      assert [name] + r == rest;
    } else {
      match fs[p]
      case Dir =>
        r, b' := ConsultedAt(fs, p, rest[1..], b, dir, name);
      case Link(absolute, target) =>
        r, b' := ConsultedAt(fs, if absolute then [] else at, target + rest[1..], b - 1, dir, name);
    }
  }

  /** A directory reached without following any link. */
  predicate RealDir(fs: Tree, d: Path) {
    forall k :: 0 < k <= |d| ==> d[..k] in fs && fs[d[..k]] == Dir
  }

  lemma {:induction false} WalkRealFrom(fs: Tree, d: Path, k: nat, rest: seq<string>, b: nat)
    requires RealDir(fs, d) && k <= |d|
    ensures Walk(fs, d[..k], d[k..] + rest, b) == Walk(fs, d, rest, b)
    ensures Trail(fs, d[..k], d[k..] + rest, b) <= Trail(fs, d, rest, b) + (set i | k < i <= |d| :: d[..i])
    decreases |d| - k
  {
    if k == |d| {
      assert d[..k] == d && d[k..] + rest == rest;
    } else {
      assert d[..k] + [(d[k..] + rest)[0]] == d[..k + 1];
      assert (d[k..] + rest)[1..] == d[k + 1..] + rest;
      WalkRealFrom(fs, d, k + 1, rest, b);
    }
  }

  /** Real directories are walked through without surprises. */
  lemma WalkReal(fs: Tree, d: Path, rest: seq<string>, b: nat)
    requires RealDir(fs, d)
    ensures Walk(fs, [], d + rest, b) == Walk(fs, d, rest, b)
  {
    WalkRealFrom(fs, d, 0, rest, b);
    assert d[..0] == [] && d[0..] == d;
  }
}
