/** `activate_map_version` as it runs: one rename after another on a disk whose every state is recorded. */
module MapSwitch {
  import opened Wrappers
  import opened SymlinkTree
  import opened MapPointer

  datatype Outcome = Switched | SourceIsRoot | SourceMissing | PointerNotLink | ReplaceFailed | VerificationFailed

  /** At most the temporary t differs from fs. */
  ghost predicate OnlyTemporary(fs: Tree, fs': Tree, root: Path, t: string) {
    fs' == fs || Touches(fs, fs', root, {t})
  }

  class Disk {
    var tree: Tree
    /** The state after every single operation: where a crash can leave the disk. */
    ghost var states: seq<Tree>

    constructor (initial: Tree)
      ensures tree == initial && states == []
    {
      tree, states := initial, [];
    }

    /** `_replace_symlink`: clear a leftover temporary, create the link under it, rename it over the target. */
    method ReplaceSymlink(root: Path, name: string, link: Node, pid: string) returns (ok: bool)
      requires link.Link? && name != TempName(name, pid)
      modifies this
      ensures |states| >= |old(states)| && states[..|old(states)|] == old(states)
      ensures ok ==> |states| > |old(states)| && states[|states| - 1] == tree
      ensures forall i :: |old(states)| <= i < |states| - (if ok then 1 else 0) ==>
                OnlyTemporary(old(tree), states[i], root, TempName(name, pid))
      ensures !ok ==> OnlyTemporary(old(tree), tree, root, TempName(name, pid))
      ensures ok ==> Touches(old(tree), tree, root, {TempName(name, pid), name}) &&
                     root + [name] in tree && tree[root + [name]] == link
      ensures OnlyNamed(old(tree), tree, root, [name], pid)
    {
      hide Touches, OnlyNamed;
      ghost var fs := tree;
      var t := TempName(name, pid);
      var temporary, target := root + [t], root + [name];
      EntryNames(root, t, name);
      ok := false;
      NothingNamed(fs, root, [name], pid);
      if temporary in tree {
        if tree[temporary] == Dir {
          return;
        }
        tree := tree - {temporary};
        states := states + [tree];
        DropTouches(fs, root, t);
      }
      tree := tree[temporary := link];
      states := states + [tree];
      assert tree == fs[temporary := link];
      PutTouches(fs, root, t, link);
      TouchesNamed(fs, tree, root, name, pid, false);
      if target in tree && tree[target] == Dir {
        return;
      }
      tree := (tree - {temporary})[target := link];
      states := states + [tree];
      assert tree == (fs - {temporary})[target := link];
      RenameTouches(fs, root, t, name, link);
      TouchesNamed(fs, tree, root, name, pid, true);
      ok := true;
    }

    /** `target.exists()` then `target.resolve().parent`, over the required names. */
    method ExistingSources(root: Path, required: seq<string>) returns (found: set<Path>)
      ensures found == Sources(tree, root, required)
    {
      found := {};
      for k := 0 to |required|
        invariant found == set n | n in required[..k] && ParentOf(tree, root, n).Some? :: ParentOf(tree, root, n).value
      {
        var parent := ParentOf(tree, root, required[k]);
        assert required[..k + 1] == required[..k] + [required[k]];
        if parent.Some? {
          found := found + {parent.value};
        }
      }
      assert required[..|required|] == required;
    }

    /**
     `activate_map_version` between resolved directories. `dir` names the directory serving the
     required paths at the start. If the start is coherent, so is the disk after every
     operation: served from `dir` up to the last rename of the pointer and from `source` after it.
     Among the starts described by `Start` these are exactly the ones from which no state of a
     completed run mixes directories.
     */
    method ActivateMapVersion(root: Path, source: Path, required: seq<string>, optional: seq<string>, pid: string, ghost dir: Path)
      returns (r: Outcome)
      requires forall n :: n in required || n in optional ==> Plain(n)
      modifies this
      ensures |states| >= |old(states)| && states[..|old(states)|] == old(states)
      ensures source == root ==> r == SourceIsRoot && states == old(states)
      ensures Ready(old(tree), root, required, dir, source) ==>
                && (r == Switched || r == ReplaceFailed)
                && (forall i :: |old(states)| <= i < |states| - (if r == Switched then 1 else 0) ==> Coherent(states[i], root, required, dir))
                && Coherent(tree, root, required, if r == Switched then source else dir)
                && (r == Switched ==> |states| > |old(states)| && states[|states| - 1] == tree)
      ensures Start(old(tree), root, required, dir, source) ==>
                && (PointerAgrees(old(tree), root, dir) ==> AllServed(states, |old(states)|, root, required, dir, source))
                && (r != ReplaceFailed ==>
                      (AllServed(states, |old(states)|, root, required, dir, source) <==> PointerAgrees(old(tree), root, dir)))
      ensures r == SourceMissing <==> source != root && !Complete(old(tree), source, required)
      ensures r == PointerNotLink <==> source != root && Complete(old(tree), source, required) && PointerBlocked(old(tree), root)
      ensures r == PointerNotLink ==> root + [CURRENT] in old(tree) && !old(tree)[root + [CURRENT]].Link?
      ensures r == Switched && root + [CURRENT] in old(tree) ==> old(tree)[root + [CURRENT]].Link?
      ensures r == SourceMissing || r == PointerNotLink ==> tree == old(tree) && states == old(states)
      ensures OnlyNamed(old(tree), tree, root, required + optional + [CURRENT], pid)
      ensures r == Switched ==> Linked(tree, root, required + optional) && PointsTo(tree, root, source)
    {
      hide Coherent, Ready, Start, PointerAgrees, Serves, OnlyNamed, Linked, PointsTo, Complete;
      ghost var fs, before := tree, |states|;
      r := Switch(root, source, required, optional, pid, dir);
      if Start(fs, root, required, dir, source) && PointerAgrees(fs, root, dir) {
        StartIsReady(fs, root, required, dir, source);
        CoherentStatesServe(states, before, root, required, dir, source);
      }
    }

    method Switch(root: Path, source: Path, required: seq<string>, optional: seq<string>, pid: string, ghost dir: Path)
      returns (r: Outcome)
      requires forall n :: n in required || n in optional ==> Plain(n)
      modifies this
      ensures |states| >= |old(states)| && states[..|old(states)|] == old(states)
      ensures source == root ==> r == SourceIsRoot && states == old(states)
      ensures Ready(old(tree), root, required, dir, source) ==>
                && (r == Switched || r == ReplaceFailed)
                && (forall i :: |old(states)| <= i < |states| - (if r == Switched then 1 else 0) ==> Coherent(states[i], root, required, dir))
                && Coherent(tree, root, required, if r == Switched then source else dir)
                && (r == Switched ==> |states| > |old(states)| && states[|states| - 1] == tree)
      ensures Start(old(tree), root, required, dir, source) && !PointerAgrees(old(tree), root, dir) && r != ReplaceFailed ==>
                exists i :: |old(states)| <= i < |states| && Broken(states[i], root, required, dir, source)
      ensures r == SourceMissing <==> source != root && !Complete(old(tree), source, required)
      ensures r == PointerNotLink <==> source != root && Complete(old(tree), source, required) && PointerBlocked(old(tree), root)
      ensures r == SourceMissing || r == PointerNotLink ==> tree == old(tree) && states == old(states)
      ensures OnlyNamed(old(tree), tree, root, required + optional + [CURRENT], pid)
      ensures r == Switched ==> Linked(tree, root, required + optional) && PointsTo(tree, root, source)
    {
      hide Coherent, Product, Touches, PointsTo, Installed, AllInstalled, Start, PointerAgrees, Doomed, Broken, OnlyNamed, Linked;
      ghost var first, names := tree, required + optional + [CURRENT];
      NothingNamed(first, root, names, pid);
      NothingNamed(first, root, [CURRENT], pid);
      ghost var good := Ready(tree, root, required, dir, source);
      ghost var wrong := Start(tree, root, required, dir, source) && !PointerAgrees(tree, root, dir);
      ghost var before := |states|;
      if wrong {
        StartPasses(tree, root, required, dir, source);
      }
      if source == root {
        return SourceIsRoot;
      }
      var complete := HasFiles(source, required);
      if good {
        ProductHasFiles(tree, required, source);
        if root + [CURRENT] in tree {
          CoherentPointer(tree, root, required, dir);
        }
      }
      if !complete {
        return SourceMissing;
      }
      if root + [CURRENT] in tree && !tree[root + [CURRENT]].Link? {
        return PointerNotLink;
      }
      var ok := EnsurePointer(root, source, required, pid, dir);
      NamedThen(first, first, tree, root, [CURRENT], [CURRENT], names, pid);
      if !ok {
        return ReplaceFailed;
      }
      ghost var pointed, aimed := states, tree;
      r := Relink(root, source, required, optional, pid, dir);
      assert states[..before] == states[..|pointed|][..before];
      assert forall i :: before <= i < |pointed| ==> states[i] == states[..|pointed|][i];
      NamedThen(first, aimed, tree, root, [CURRENT], names, names, pid);
    }

    /** The links, the last move of the pointer, and the verification. */
    method Relink(root: Path, source: Path, required: seq<string>, optional: seq<string>, pid: string, ghost dir: Path)
      returns (r: Outcome)
      requires forall n :: n in required || n in optional ==> Plain(n)
      modifies this
      ensures |states| >= |old(states)| && states[..|old(states)|] == old(states)
      ensures r == Switched || r == ReplaceFailed || r == VerificationFailed
      ensures Ready(old(tree), root, required, dir, source) && PointsTo(old(tree), root, dir) ==>
                && (r == Switched || r == ReplaceFailed)
                && (forall i :: |old(states)| <= i < |states| - (if r == Switched then 1 else 0) ==> Coherent(states[i], root, required, dir))
                && Coherent(tree, root, required, if r == Switched then source else dir)
                && (r == Switched ==> |states| > |old(states)| && states[|states| - 1] == tree)
      ensures required != [] && Doomed(old(tree), root, required, dir, required[0]) && r != ReplaceFailed ==>
                exists i :: |old(states)| <= i < |states| && Broken(states[i], root, required, dir, source)
      ensures OnlyNamed(old(tree), tree, root, required + optional + [CURRENT], pid)
      ensures r == Switched ==> Linked(tree, root, required + optional) && PointsTo(tree, root, source)
    {
      hide Coherent, Ready, Product, Touches, PointsTo, Installed, Doomed, Broken, OnlyNamed, Linked, Serves;
      ghost var good := Ready(tree, root, required, dir, source) && PointsTo(tree, root, dir);
      ghost var wrong := required != [] && Doomed(tree, root, required, dir, required[0]);
      ghost var first, before, names := tree, |states|, required + optional + [CURRENT];
      if good {
        ReadyMeans(tree, root, required, dir, source);
      }
      var ok := InstallLinks(root, source, required, optional, pid, dir);
      NothingNamed(tree, root, [CURRENT], pid);
      NamedThen(first, tree, tree, root, required + optional, [CURRENT], names, pid);
      if !ok {
        return ReplaceFailed;
      }
      ghost var fs, linked := tree, states;
      ghost var at := 0;
      if wrong {
        at :| before <= at < |states| && Broken(states[at], root, required, dir, source);
      }
      PlainIsNotTemporary(CURRENT, pid);
      ok := ReplaceSymlink(root, CURRENT, Link(true, source), pid);
      assert states[..before] == states[..|linked|][..before];
      assert forall i :: 0 <= i < |linked| ==> states[i] == states[..|linked|][i];
      NamedThen(first, fs, tree, root, names, [CURRENT], names, pid);
      if good {
        FinalStep(fs, tree, states, |linked|, root, TempName(CURRENT, pid), required, dir, source, ok);
      }
      if !ok {
        return ReplaceFailed;
      }
      LinksKept(fs, tree, root, required + optional, TempName(CURRENT, pid), CURRENT);
      AimedAt(tree, root, source);
      var verified := Verify(root, source, required);
      if good {
        SwitchVerifies(tree, root, required, source);
      }
      return if verified then Switched else VerificationFailed;
    }

    /** Without a pointer yet, aim it at the directory the required paths come from, if there is just one. */
    method EnsurePointer(root: Path, source: Path, required: seq<string>, pid: string, ghost dir: Path) returns (ok: bool)
      requires forall n :: n in required ==> Plain(n)
      modifies this
      ensures |states| >= |old(states)| && states[..|old(states)|] == old(states)
      ensures Ready(old(tree), root, required, dir, source) ==>
                && Coherent(tree, root, required, dir)
                && (forall i :: |old(states)| <= i < |states| ==> Coherent(states[i], root, required, dir))
                && (ok ==> Ready(tree, root, required, dir, source) && PointsTo(tree, root, dir))
      ensures Start(old(tree), root, required, dir, source) && !PointerAgrees(old(tree), root, dir) && ok ==>
                required != [] && Doomed(tree, root, required, dir, required[0])
      ensures OnlyNamed(old(tree), tree, root, [CURRENT], pid)
      ensures root + [CURRENT] in old(tree) ==> tree == old(tree)
      ensures root + [CURRENT] !in old(tree) && ok ==>
                exists d :: PointsTo(tree, root, d) && Preferred(Sources(old(tree), root, required), source, d)
    {
      hide Coherent, Product, Touches, PointsTo, Start, PointerAgrees, Doomed, OnlyNamed, Sources;
      NothingNamed(tree, root, [CURRENT], pid);
      ghost var good, before := Ready(tree, root, required, dir, source), |states|;
      ghost var wrong := Start(tree, root, required, dir, source) && !PointerAgrees(tree, root, dir);
      if wrong {
        StartPasses(tree, root, required, dir, source);
      }
      if root + [CURRENT] in tree {
        if good {
          CoherentPointer(tree, root, required, dir);
        }
        if wrong {
          DisagreeingPointerDooms(tree, root, required, dir, source);
        }
        return true;
      }
      var found := ExistingSources(root, required);
      if wrong {
        StartSource(tree, root, required, dir, source);
      }
      if good {
        OneSource(tree, root, required, dir);
      }
      var initial := source;
      if |found| == 1 {
        initial :| initial in found;
      }
      ghost var fs := tree;
      PlainIsNotTemporary(CURRENT, pid);
      ok := ReplaceSymlink(root, CURRENT, Link(true, initial), pid);
      if good {
        PointerStep(fs, tree, states, before, root, TempName(CURRENT, pid), required, dir, source, ok);
        if ok {
          CoherentPointer(tree, root, required, dir);
        }
      }
      if ok {
        AimedAt(tree, root, initial);
        assert Preferred(found, source, initial);
      }
      if wrong && ok {
        RootPointerDooms(fs, tree, root, TempName(CURRENT, pid), required, dir, source);
      }
    }

    /** The loop over required and then optional names. */
    method InstallLinks(root: Path, source: Path, required: seq<string>, optional: seq<string>, pid: string, ghost dir: Path)
      returns (ok: bool)
      requires forall n :: n in required || n in optional ==> Plain(n)
      modifies this
      ensures |states| >= |old(states)| && states[..|old(states)|] == old(states)
      ensures Ready(old(tree), root, required, dir, source) && PointsTo(old(tree), root, dir) ==>
                && Coherent(tree, root, required, dir)
                && (forall i :: |old(states)| <= i < |states| ==> Coherent(states[i], root, required, dir))
                && (ok ==> Product(tree, required, source) && forall j :: 0 <= j < |required| ==> Installed(tree, root, required[j]))
      ensures required != [] && Doomed(old(tree), root, required, dir, required[0]) && ok ==>
                exists i :: |old(states)| <= i < |states| && Broken(states[i], root, required, dir, source)
      ensures OnlyNamed(old(tree), tree, root, required + optional, pid)
      ensures ok ==> Linked(tree, root, required + optional)
    {
      hide Coherent, Product, Touches, PointsTo, Installed, Doomed, Broken, OnlyNamed, Linked;
      ghost var first := tree;
      NothingNamed(first, root, required + optional, pid);
      NothingLinked(first, root);
      ghost var doomed := required != [] && Doomed(tree, root, required, dir, required[0]);
      ghost var at := |states|;
      ghost var good := Ready(tree, root, required, dir, source) && PointsTo(tree, root, dir);
      ghost var before := |states|;
      var names := required + optional;
      for k := 0 to |names|
        invariant |states| >= before && states[..before] == old(states)
        invariant good ==> Coherent(tree, root, required, dir) && PointsTo(tree, root, dir) && Product(tree, required, source)
        invariant good ==> forall i :: before <= i < |states| ==> Coherent(states[i], root, required, dir)
        invariant good ==> forall j :: 0 <= j < k && j < |required| ==> Installed(tree, root, required[j])
        invariant k == 0 ==> tree == old(tree) && at == |states|
        invariant doomed && k > 0 ==> before <= at < |states| && Broken(states[at], root, required, dir, source)
        invariant OnlyNamed(first, tree, root, names, pid) && Linked(tree, root, names[..k])
      {
        ghost var fs, had, past := tree, |states|, states;
        PlainIsNotTemporary(names[k], pid);
        ok := ReplaceSymlink(root, names[k], Compat(names[k]), pid);
        assert forall i :: 0 <= i < had ==> states[i] == states[..had][i] == past[i];
        assert states[..before] == states[..had][..before];
        if good {
          LinkStep(fs, tree, states, had, root, TempName(names[k], pid), required, names, k, dir, source, ok);
        }
        NamedThen(first, fs, tree, root, names, [names[k]], names, pid);
        if !ok {
          return;
        }
        LinksKept(fs, tree, root, names[..k], TempName(names[k], pid), names[k]);
        OneMoreLink(tree, root, names, k);
        if doomed && k == 0 {
          at := |states| - 1;
          FirstLink(fs, tree, root, TempName(names[0], pid), required, dir, source);
        }
      }
      assert names[..|names|] == names;
      ok := true;
    }

    method HasFiles(source: Path, required: seq<string>) returns (complete: bool)
      ensures complete <==> Complete(tree, source, required)
    {
      for k := 0 to |required|
        invariant forall j :: 0 <= j < k ==> IsFile(tree, source + [required[j]])
      {
        if !IsFile(tree, source + [required[k]]) {
          return false;
        }
      }
      return true;
    }

    method Verify(root: Path, source: Path, required: seq<string>) returns (verified: bool)
      ensures verified <==> forall n :: n in required ==> Resolve(tree, root + [n]) == Resolve(tree, source + [n])
    {
      for k := 0 to |required|
        invariant forall j :: 0 <= j < k ==> Resolve(tree, root + [required[j]]) == Resolve(tree, source + [required[j]])
      {
        if Resolve(tree, root + [required[k]]) != Resolve(tree, source + [required[k]]) {
          return false;
        }
      }
      return true;
    }
  }

  predicate IsFile(fs: Tree, p: Path) {
    var q := Resolve(fs, p);
    q.Some? && q.value in fs && fs[q.value] == File
  }

  function ParentOf(fs: Tree, root: Path, n: string): Option<Path> {
    var q := Resolve(fs, root + [n]);
    if q.Some? && q.value != [] then Some(q.value[..|q.value| - 1]) else None
  }

  /** A coherent start with a complete product to switch to. */
  ghost predicate Ready(fs: Tree, root: Path, required: seq<string>, dir: Path, source: Path) {
    required != [] && source != root && Coherent(fs, root, required, dir) && Product(fs, required, source)
  }

  /** Every required file is there. */
  ghost predicate Complete(fs: Tree, source: Path, required: seq<string>) {
    forall n :: n in required ==> IsFile(fs, source + [n])
  }

  /** Something that is not a link stands where the pointer belongs. */
  predicate PointerBlocked(fs: Tree, root: Path) {
    root + [CURRENT] in fs && !fs[root + [CURRENT]].Link?
  }

  /** The directories that required paths resolve into. */
  ghost function Sources(fs: Tree, root: Path, required: seq<string>): set<Path> {
    set n | n in required && ParentOf(fs, root, n).Some? :: ParentOf(fs, root, n).value
  }

  /** A single existing directory is preferred to the new source. */
  predicate Preferred(found: set<Path>, source: Path, d: Path) {
    if |found| == 1 then d in found else d == source
  }

  /** Every name is a relative link through the pointer. */
  ghost predicate Linked(fs: Tree, root: Path, names: seq<string>) {
    forall n :: n in names ==> root + [n] in fs && fs[root + [n]] == Link(false, ["current", n])
  }

  /** fs and fs' differ at most in the named entries of root and their temporaries. */
  ghost predicate OnlyNamed(fs: Tree, fs': Tree, root: Path, names: seq<string>, pid: string) {
    forall p :: ((p in fs <==> p in fs') && (p in fs ==> fs[p] == fs'[p])) || IsNamed(p, root, names, pid)
  }

  ghost predicate IsNamed(p: Path, root: Path, names: seq<string>, pid: string) {
    exists n :: n in names && (p == root + [n] || p == root + [TempName(n, pid)])
  }

  lemma NothingNamed(fs: Tree, root: Path, names: seq<string>, pid: string)
    ensures OnlyNamed(fs, fs, root, names, pid)
  {
  }

  lemma NamedThen(fs: Tree, fs1: Tree, fs2: Tree, root: Path, a: seq<string>, b: seq<string>, names: seq<string>, pid: string)
    requires OnlyNamed(fs, fs1, root, a, pid) && OnlyNamed(fs1, fs2, root, b, pid)
    requires forall n :: n in a || n in b ==> n in names
    ensures OnlyNamed(fs, fs2, root, names, pid)
  {
    hide TempName;
    forall p ensures ((p in fs <==> p in fs2) && (p in fs ==> fs[p] == fs2[p])) || IsNamed(p, root, names, pid) {
      if IsNamed(p, root, a, pid) {
        var n :| n in a && (p == root + [n] || p == root + [TempName(n, pid)]);
        assert n in names;
      } else if IsNamed(p, root, b, pid) {
        var n :| n in b && (p == root + [n] || p == root + [TempName(n, pid)]);
        assert n in names;
      }
    }
  }

  lemma TouchesNamed(fs: Tree, fs': Tree, root: Path, name: string, pid: string, renamed: bool)
    requires Touches(fs, fs', root, if renamed then {TempName(name, pid), name} else {TempName(name, pid)})
    ensures OnlyNamed(fs, fs', root, [name], pid)
  {
    hide TempName;
    forall p ensures ((p in fs <==> p in fs') && (p in fs ==> fs[p] == fs'[p])) || IsNamed(p, root, [name], pid) {
      if p == root + [name] || p == root + [TempName(name, pid)] {
        assert name in [name];
      }
    }
  }

  lemma NothingLinked(fs: Tree, root: Path)
    ensures Linked(fs, root, [])
  {
  }

  lemma AimedAt(fs: Tree, root: Path, d: Path)
    requires root + [CURRENT] in fs && fs[root + [CURRENT]] == Link(true, d)
    ensures PointsTo(fs, root, d)
  {
  }

  /** Replacing one entry keeps the other links, and the link itself if it is one of them. */
  lemma LinksKept(fs: Tree, fs': Tree, root: Path, names: seq<string>, t: string, name: string)
    requires Linked(fs, root, names) && Touches(fs, fs', root, {t, name}) && t != "" && t[0] == '.'
    requires forall n :: n in names ==> Plain(n)
    requires name == CURRENT || (root + [name] in fs' && fs'[root + [name]] == Compat(name))
    ensures Linked(fs', root, names)
  {
    hide Touches;
    forall n | n in names ensures root + [n] in fs' && fs'[root + [n]] == Link(false, ["current", n]) {
      if n != name {
        EntryUntouched(fs, fs', root, {t, name}, n);
      }
    }
  }

  lemma OneMoreLink(fs: Tree, root: Path, names: seq<string>, k: nat)
    requires k < |names| && Linked(fs, root, names[..k]) && root + [names[k]] in fs && fs[root + [names[k]]] == Compat(names[k])
    ensures Linked(fs, root, names[..k + 1])
  {
    assert names[..k + 1] == names[..k] + [names[k]];
  }

  /** After a switch every linked name whose file the source holds is served from the source. */
  lemma SwitchedServes(fs: Tree, root: Path, names: seq<string>, source: Path, n: string)
    requires RealDir(fs, root) && RealDir(fs, source) && Linked(fs, root, names) && PointsTo(fs, root, source)
    requires n in names && source + [n] in fs && fs[source + [n]] == File
    ensures Resolve(fs, root + [n]) == Some(source + [n])
  {
    WalkReal(fs, root, [n], MAX_LINKS);
    InstalledResolves(fs, root, n, source);
  }

  /** Required paths are served neither from dir nor from source. */
  ghost predicate Broken(fs: Tree, root: Path, required: seq<string>, dir: Path, source: Path) {
    !Serves(fs, root, required, dir) && !Serves(fs, root, required, source)
  }

  /** Every state from number `from` on serves all required paths from one of the two directories. */
  ghost predicate AllServed(states: seq<Tree>, from: nat, root: Path, required: seq<string>, dir: Path, source: Path) {
    forall i :: from <= i < |states| ==> !Broken(states[i], root, required, dir, source)
  }

  lemma ReadyMeans(fs: Tree, root: Path, required: seq<string>, dir: Path, source: Path)
    requires Ready(fs, root, required, dir, source)
    ensures required != [] && source != root && Coherent(fs, root, required, dir) && Product(fs, required, source)
  {
  }

  lemma StartIsReady(fs: Tree, root: Path, required: seq<string>, dir: Path, source: Path)
    requires Start(fs, root, required, dir, source) && PointerAgrees(fs, root, dir)
    ensures Ready(fs, root, required, dir, source)
  {
    AgreeingStartIsCoherent(fs, root, required, dir, source);
  }

  lemma CoherentStatesServe(states: seq<Tree>, from: nat, root: Path, required: seq<string>, dir: Path, source: Path)
    requires forall i :: from <= i < |states| ==> Coherent(states[i], root, required, dir) || Coherent(states[i], root, required, source)
    ensures AllServed(states, from, root, required, dir, source)
  {
    hide Coherent, Serves;
    forall i | from <= i < |states| ensures !Broken(states[i], root, required, dir, source) {
      if Coherent(states[i], root, required, dir) {
        CoherentServes(states[i], root, required, dir);
      } else {
        CoherentServes(states[i], root, required, source);
      }
    }
  }

  /** Such a start passes the checks before the first replacement. */
  lemma StartPasses(fs: Tree, root: Path, required: seq<string>, dir: Path, source: Path)
    requires Start(fs, root, required, dir, source)
    ensures required != [] && source != root && forall n :: n in required ==> IsFile(fs, source + [n])
    ensures root + [CURRENT] in fs ==> fs[root + [CURRENT]].Link?
  {
    ProductHasFiles(fs, required, source);
  }

  lemma StartSource(fs: Tree, root: Path, required: seq<string>, dir: Path, source: Path)
    requires Start(fs, root, required, dir, source)
    ensures Sources(fs, root, required) == {dir}
  {
    forall n | n in required ensures ParentOf(fs, root, n) == Some(dir) {
      assert (dir + [n])[..|dir|] == dir;
    }
    assert required != [] && required[0] in required;
  }

  /** With the files in map_dir itself the new pointer names map_dir. */
  lemma RootPointerDooms(fs: Tree, fs': Tree, root: Path, t: string, required: seq<string>, dir: Path, source: Path)
    requires Start(fs, root, required, dir, source) && !PointerAgrees(fs, root, dir) && root + [CURRENT] !in fs && required != []
    requires Touches(fs, fs', root, {t, CURRENT}) && root + [CURRENT] in fs' && fs'[root + [CURRENT]] == Link(true, dir)
    ensures Doomed(fs', root, required, dir, required[0])
  {
    TouchedDir(fs, fs', root, {t, CURRENT}, root);
    assert PointsTo(fs', root, root);
  }

  lemma FirstLink(fs: Tree, fs': Tree, root: Path, t: string, required: seq<string>, dir: Path, source: Path)
    requires required != [] && Doomed(fs, root, required, dir, required[0]) && Plain(required[0])
    requires t != "" && t[0] == '.' && Touches(fs, fs', root, {t, required[0]})
    requires root + [required[0]] in fs' && fs'[root + [required[0]]] == Compat(required[0])
    ensures Broken(fs', root, required, dir, source)
  {
    FirstLinkBreaks(fs, fs', root, t, required, required[0], dir, source);
  }

  lemma DropTouches(fs: Tree, root: Path, t: string)
    requires root + [t] in fs && fs[root + [t]] != Dir
    ensures Touches(fs, fs - {root + [t]}, root, {t})
  {
  }

  lemma PutTouches(fs: Tree, root: Path, t: string, link: Node)
    requires (root + [t] in fs ==> fs[root + [t]] != Dir) && link.Link?
    ensures Touches(fs, fs[root + [t] := link], root, {t})
  {
  }

  lemma RenameTouches(fs: Tree, root: Path, t: string, name: string, link: Node)
    requires (root + [t] in fs ==> fs[root + [t]] != Dir) && (root + [name] in fs ==> fs[root + [name]] != Dir) && link.Link?
    ensures Touches(fs, (fs - {root + [t]})[root + [name] := link], root, {t, name})
  {
    EntryNames(root, t, name);
    var fs' := (fs - {root + [t]})[root + [name] := link];
    forall p | forall x :: x in {t, name} ==> p != root + [x]
      ensures (p in fs <==> p in fs') && (p in fs ==> fs[p] == fs'[p])
    {
      assert t in {t, name} && name in {t, name};
    }
  }

  lemma PlainIsNotTemporary(name: string, pid: string)
    requires Plain(name) || name == CURRENT
    ensures name != TempName(name, pid)
  {
  }

  lemma ProductHasFiles(fs: Tree, required: seq<string>, source: Path)
    requires Product(fs, required, source)
    ensures forall n :: n in required ==> IsFile(fs, source + [n])
  {
    forall n | n in required ensures IsFile(fs, source + [n]) {
      RealFile(fs, source, n, MAX_LINKS);
    }
  }

  lemma CoherentPointer(fs: Tree, root: Path, required: seq<string>, dir: Path)
    requires Coherent(fs, root, required, dir) && root + [CURRENT] in fs
    ensures fs[root + [CURRENT]] == Link(true, dir) && PointsTo(fs, root, dir)
  {
  }

  lemma OneSource(fs: Tree, root: Path, required: seq<string>, dir: Path)
    requires Coherent(fs, root, required, dir) && required != []
    ensures Sources(fs, root, required) == {dir}
  {
    CoherentServes(fs, root, required, dir);
    forall n | n in required ensures ParentOf(fs, root, n) == Some(dir) {
      assert (dir + [n])[..|dir|] == dir;
    }
    assert required[0] in required;
  }

  lemma PointerStep(fs: Tree, fs': Tree, states: seq<Tree>, before: nat, root: Path, t: string, required: seq<string>, dir: Path, source: Path, ok: bool)
    requires Coherent(fs, root, required, dir) && Product(fs, required, source) && source != root && root + [CURRENT] !in fs && t != "" && t[0] == '.' && before <= |states|
    requires forall n :: n in required ==> Plain(n)
    requires ok ==> |states| > before && states[|states| - 1] == fs'
    requires forall i :: before <= i < |states| - (if ok then 1 else 0) ==> OnlyTemporary(fs, states[i], root, t)
    requires !ok ==> OnlyTemporary(fs, fs', root, t)
    requires ok ==> Touches(fs, fs', root, {t, CURRENT}) && root + [CURRENT] in fs' && fs'[root + [CURRENT]] == Link(true, dir)
    ensures Coherent(fs', root, required, dir) && (ok ==> Product(fs', required, source))
    ensures forall i :: before <= i < |states| ==> Coherent(states[i], root, required, dir)
  {
    hide Coherent, Touches, Product;
    Invisible(fs, states, before, |states| - (if ok then 1 else 0), root, t, required, dir);
    if ok {
      PointerCreated(fs, fs', root, t, required, dir);
      TouchedProduct(fs, fs', root, {t, CURRENT}, required, source);
    } else {
      Unseen(fs, fs', root, t, required, dir);
    }
  }

  lemma Unseen(fs: Tree, fs': Tree, root: Path, t: string, required: seq<string>, dir: Path)
    requires Coherent(fs, root, required, dir) && t != "" && t[0] == '.' && OnlyTemporary(fs, fs', root, t)
    requires forall n :: n in required ==> Plain(n)
    ensures Coherent(fs', root, required, dir)
  {
    hide Coherent, Touches;
    if fs' != fs {
      TemporaryIsInvisible(fs, fs', root, t, required, dir);
    }
  }

  lemma Invisible(fs: Tree, states: seq<Tree>, from: nat, to: nat, root: Path, t: string, required: seq<string>, dir: Path)
    requires Coherent(fs, root, required, dir) && t != "" && t[0] == '.' && from <= to <= |states|
    requires forall n :: n in required ==> Plain(n)
    requires forall i :: from <= i < to ==> OnlyTemporary(fs, states[i], root, t)
    ensures forall i :: from <= i < to ==> Coherent(states[i], root, required, dir)
  {
    hide Coherent, Touches;
    forall i | from <= i < to ensures Coherent(states[i], root, required, dir) {
      Unseen(fs, states[i], root, t, required, dir);
    }
  }

  lemma LinkStep(fs: Tree, fs': Tree, states: seq<Tree>, before: nat, root: Path, t: string, required: seq<string>, names: seq<string>, k: nat, dir: Path, source: Path, ok: bool)
    requires Coherent(fs, root, required, dir) && PointsTo(fs, root, dir) && Product(fs, required, source) && source != root
    requires t != "" && t[0] == '.' && before <= |states| && k < |names| && required <= names
    requires forall n :: n in names ==> Plain(n)
    requires forall j :: 0 <= j < k && j < |required| ==> Installed(fs, root, required[j])
    requires ok ==> |states| > before && states[|states| - 1] == fs'
    requires forall i :: before <= i < |states| - (if ok then 1 else 0) ==> OnlyTemporary(fs, states[i], root, t)
    requires !ok ==> OnlyTemporary(fs, fs', root, t)
    requires ok ==> Touches(fs, fs', root, {t, names[k]}) && root + [names[k]] in fs' && fs'[root + [names[k]]] == Compat(names[k])
    ensures Coherent(fs', root, required, dir)
    ensures forall i :: before <= i < |states| ==> Coherent(states[i], root, required, dir)
    ensures ok ==> PointsTo(fs', root, dir) && Product(fs', required, source)
    ensures ok ==> forall j :: 0 <= j <= k && j < |required| ==> Installed(fs', root, required[j])
  {
    hide Coherent, Touches, Product, PointsTo;
    assert forall n :: n in required ==> n in names by {
      forall n | n in required ensures n in names {
        var i :| 0 <= i < |required| && required[i] == n;
        assert names[i] == n;
      }
    }
    Invisible(fs, states, before, |states| - (if ok then 1 else 0), root, t, required, dir);
    if ok {
      var n := names[k];
      TouchedProduct(fs, fs', root, {t, n}, required, source);
      if k < |required| || n in required {
        assert k < |required| ==> n == required[k];
        RequiredInstalled(fs, fs', root, t, required, n, dir);
        forall j | 0 <= j <= k && j < |required| ensures Installed(fs', root, required[j]) {
          if j == k {
            assert names[k] == required[k];
          }
        }
      } else {
        assert AllInstalled(fs, root, required);
        OptionalInstalled(fs, fs', root, t, required, n, dir);
      }
    } else {
      Unseen(fs, fs', root, t, required, dir);
    }
  }

  lemma FinalStep(fs: Tree, fs': Tree, states: seq<Tree>, before: nat, root: Path, t: string, required: seq<string>, dir: Path, source: Path, ok: bool)
    requires Coherent(fs, root, required, dir) && Product(fs, required, source) && source != root
    requires t != "" && t[0] == '.' && before <= |states|
    requires forall n :: n in required ==> Plain(n)
    requires forall j :: 0 <= j < |required| ==> Installed(fs, root, required[j])
    requires ok ==> |states| > before && states[|states| - 1] == fs'
    requires forall i :: before <= i < |states| - (if ok then 1 else 0) ==> OnlyTemporary(fs, states[i], root, t)
    requires !ok ==> OnlyTemporary(fs, fs', root, t)
    requires ok ==> Touches(fs, fs', root, {t, CURRENT}) && root + [CURRENT] in fs' && fs'[root + [CURRENT]] == Link(true, source)
    ensures Coherent(fs', root, required, if ok then source else dir)
    ensures forall i :: before <= i < |states| - (if ok then 1 else 0) ==> Coherent(states[i], root, required, dir)
  {
    hide Coherent, Touches, Product;
    Invisible(fs, states, before, |states| - (if ok then 1 else 0), root, t, required, dir);
    if ok {
      assert AllInstalled(fs, root, required);
      PointerMoved(fs, fs', root, t, required, dir, source);
    } else {
      Unseen(fs, fs', root, t, required, dir);
    }
  }

  lemma SwitchVerifies(fs: Tree, root: Path, required: seq<string>, source: Path)
    requires Coherent(fs, root, required, source)
    ensures forall n :: n in required ==> Resolve(fs, root + [n]) == Resolve(fs, source + [n])
  {
    CoherentServes(fs, root, required, source);
    forall n | n in required ensures Resolve(fs, root + [n]) == Resolve(fs, source + [n]) {
      RealFile(fs, source, n, MAX_LINKS);
    }
  }
}
