/** Directory helpers (cmd/internal/utils/files.go). */
module Files {
  import opened FileTree
  import opened Os

  const EmptyDir: Tree := map[[] := Dir]

  /** The names in a directory. */
  function Names(t: Tree, dir: Path): set<string> {
    set q | q in t && |q| == |dir| + 1 && dir <= q :: q[|dir|]
  }

  lemma NameOf(t: Tree, dir: Path, name: string)
    ensures name in Names(t, dir) <==> dir + [name] in t
  {
    if dir + [name] in t {
      assert (dir + [name])[|dir|] == name;
    }
    if name in Names(t, dir) {
      var q :| q in t && |q| == |dir| + 1 && dir <= q && q[|dir|] == name;
      assert q == dir + [name];
    }
  }

  /** In a well-formed tree an entry below a directory hides a name in it. */
  lemma {:induction false} NameAbove(t: Tree, dir: Path, q: Path)
    requires WellFormed(t) && q in t && dir < q
    ensures q[|dir|] in Names(t, dir)
    decreases |q|
  {
    if |q| == |dir| + 1 {
      assert q == dir + [q[|dir|]];
      NameOf(t, dir, q[|dir|]);
    } else {
      assert HasParent(t, q);
      NameAbove(t, dir, q[..|q| - 1]);
    }
  }

  lemma EmptyBelow(t: Tree, dir: Path)
    requires WellFormed(t) && IsDir(t, dir)
    ensures Below(t, dir) == EmptyDir <==> Names(t, dir) == {}
  {
    InBelow(t, dir, []);
    assert dir + [] == dir;
    if Names(t, dir) == {} {
      forall q ensures SameAt(Below(t, dir), EmptyDir, q) {
        InBelow(t, dir, q);
        if q != [] && dir + q in t {
          NameAbove(t, dir, dir + q);
        }
      }
      SameEverywhere(Below(t, dir), EmptyDir);
    }
    if name :| name in Names(t, dir) {
      NameOf(t, dir, name);
      InBelow(t, dir, [name]);
      assert [name] !in EmptyDir;
    }
  }

  /** IsEmpty: an error when the directory cannot be opened. */
  method IsEmpty(fs: FileSystem, dir: Path) returns (ok: bool, empty: bool)
    requires fs.Valid()
    ensures ok ==> IsDir(fs.nodes, dir) && (empty <==> Below(fs.nodes, dir) == EmptyDir)
    ensures fs.faultless ==> (ok <==> IsDir(fs.nodes, dir))
  {
    ok := fs.OpenDir(dir);
    empty := Names(fs.nodes, dir) == {};
    if ok {
      EmptyBelow(fs.nodes, dir);
    }
  }

  /** RemoveContents: on success the directory is there and empty; nothing outside it is touched. */
  method RemoveContents(fs: FileSystem, dir: Path) returns (ok: bool)
    requires fs.Valid()
    modifies fs
    ensures fs.Valid() && OnlyWithin(old(fs.nodes), fs.nodes, dir)
    ensures ok ==> IsDir(old(fs.nodes), dir) && Below(fs.nodes, dir) == EmptyDir
    ensures IsDir(old(fs.nodes), dir) ==> IsDir(fs.nodes, dir)
    ensures fs.faultless ==> (ok <==> IsDir(old(fs.nodes), dir))
  {
    ok := fs.OpenDir(dir);
    if !ok {
      return;
    }
    var names := Names(fs.nodes, dir);
    while names != {}
      invariant fs.Valid() && IsDir(fs.nodes, dir) && OnlyWithin(old(fs.nodes), fs.nodes, dir)
      invariant forall name :: name in Names(fs.nodes, dir) ==> name in names
      decreases names
    {
      var name :| name in names;
      ghost var before := fs.nodes;
      var removed := fs.RemoveAll(dir + [name]);
      if !removed {
        return false;
      }
      forall x | Apart(x, dir) ensures SameAt(old(fs.nodes), fs.nodes, x) {
        assert SameAt(old(fs.nodes), before, x);
        assert !(dir + [name] <= x);
      }
      forall other | other in Names(fs.nodes, dir) ensures other in names - {name} {
        NameOf(fs.nodes, dir, other);
        NameOf(before, dir, other);
      }
      names := names - {name};
    }
    EmptyBelow(fs.nodes, dir);
  }

  /** What a walk that ignores listing errors reaches: nothing below an unlistable directory. */
  function Reached(t: Tree, unlistable: set<Path>): Tree {
    map q | q in t && forall u :: u in unlistable ==> !(u < q) :: t[q]
  }

  /** CopyFS swallows the listing error of a directory. A copy is therefore complete
      exactly when no directory that has entries is unlistable. */
  lemma ReachedAll(t: Tree, unlistable: set<Path>)
    requires WellFormed(t)
    ensures Reached(t, unlistable) == t <==> forall u :: u in unlistable ==> Names(t, u) == {}
  {
    if u :| u in unlistable && Names(t, u) != {} {
      var name :| name in Names(t, u);
      NameOf(t, u, name);
      assert u < u + [name] && u + [name] in t && u + [name] !in Reached(t, unlistable);
    }
    if forall u :: u in unlistable ==> Names(t, u) == {} {
      forall q | q in t ensures q in Reached(t, unlistable) {
        forall u | u in unlistable ensures !(u < q) {
          if u < q {
            NameAbove(t, u, q);
          }
        }
      }
      assert Reached(t, unlistable).Keys == t.Keys;
    }
  }

  /** A file in a directory that cannot be listed is left out of the copy, without an error. */
  lemma UnlistableIsLost()
    ensures var t: Tree := map[[] := Dir, ["d"] := Dir, ["d", "f"] := File([1])];
            ["d", "f"] in t && ["d", "f"] !in Reached(t, {["d"]})
  {
    assert ["d"] < ["d", "f"];
  }

  lemma {:induction false} Outermost(todo: set<Path>, x: Path)
    requires x in todo
    ensures exists z :: z in todo && forall y :: y in todo ==> !(y < z)
    decreases |x|
  {
    if y :| y in todo && y < x {
      Outermost(todo, y);
    }
  }

  /** done is what source holds outside todo. */
  ghost predicate Visited(source: Tree, todo: set<Path>, done: Tree) {
    && [] !in todo && todo <= source.Keys && done.Keys == source.Keys - todo
    && forall q :: q in done ==> done[q] == source[q]
  }

  lemma BelowWellFormed(t: Tree, p: Path)
    requires WellFormed(t) && IsDir(t, p)
    ensures WellFormed(Below(t, p))
  {
    InBelow(t, p, []);
    assert p + [] == p;
    forall q | q in Below(t, p) ensures HasParent(Below(t, p), q) {
      InBelow(t, p, q);
      if q != [] {
        assert HasParent(t, p + q);
        assert (p + q)[..|p + q| - 1] == p + q[..|q| - 1];
        InBelow(t, p, q[..|q| - 1]);
      }
    }
  }

  lemma ReachedWellFormed(t: Tree, unlistable: set<Path>)
    requires WellFormed(t)
    ensures WellFormed(Reached(t, unlistable))
  {
    var r := Reached(t, unlistable);
    forall q | q in r ensures HasParent(r, q) {
      assert HasParent(t, q);
      if q != [] {
        forall u | u in unlistable ensures !(u < q[..|q| - 1]) {
          assert u < q[..|q| - 1] ==> u < q;
        }
      }
    }
  }

  lemma {:induction false} DirsAbove(t: Tree, p: Path, q: Path)
    requires WellFormed(t) && IsDir(t, p) && q <= p
    ensures IsDir(t, q)
    decreases |p|
  {
    if |q| < |p| {
      assert HasParent(t, p);
      assert q == p[..|p| - 1][..|q|];
      DirsAbove(t, p[..|p| - 1], q);
    } else {
      assert q == p;
    }
  }

  /** Making a directory whose parent exists adds that one path. */
  lemma MakeOne(t: Tree, p: Path)
    requires WellFormed(t) && p != [] && HasParent(t, p) && !IsFile(t, p)
    ensures WithDirs(t, p) == t[p := Dir]
  {
    var l, r := WithDirs(t, p), t[p := Dir];
    forall q ensures SameAt(l, r, q) {
      InPrefixes(p, q);
      if q < p {
        assert q == p[..|p| - 1][..|q|];
        DirsAbove(t, p[..|p| - 1], q);
      } else if q <= p {
        assert q == p;
      }
    }
    SameEverywhere(l, r);
  }

  /** Making a directory adds nothing beside it and only its root inside it. */
  lemma MakeDirs(t: Tree, p: Path)
    ensures OnlyWithin(t, WithDirs(t, p), p)
    ensures Below(WithDirs(t, p), p) == map[[] := Dir] + Below(t, p)
  {
    forall x | Apart(x, p) ensures SameAt(t, WithDirs(t, p), x) {
      InPrefixes(p, x);
    }
    forall q ensures SameAt(Below(WithDirs(t, p), p), map[[] := Dir] + Below(t, p), q) {
      InBelow(t, p, q);
      InBelow(WithDirs(t, p), p, q);
      InPrefixes(p, p + q);
      assert p + [] == p;
    }
    SameEverywhere(Below(WithDirs(t, p), p), map[[] := Dir] + Below(t, p));
  }

  lemma WriteWithin(base: Tree, before: Tree, after: Tree, dir: Path, x: Path)
    requires OnlyWithin(base, before, dir) && before - {dir + x} == after - {dir + x}
    ensures OnlyWithin(base, after, dir)
  {
    forall y | Apart(y, dir) ensures SameAt(base, after, y) {
      assert SameAt(base, before, y);
      assert y in before <==> y in before - {dir + x};
      assert y in after <==> y in after - {dir + x};
      assert y in after ==> before[y] == (before - {dir + x})[y] == (after - {dir + x})[y] == after[y];
    }
  }

  /** Nothing of the other type is in the way. */
  predicate SameType(t: Tree, p: Path, n: Node) {
    p in t ==> (t[p].Dir? <==> n.Dir?)
  }

  /** Where the directory of an entry is there, nothing but the entry itself can be in the way of making it. */
  lemma PrefixesAreDirs(t: Tree, p: Path)
    requires WellFormed(t) && p != [] && HasParent(t, p)
    ensures Makeable(t, p) <==> !IsFile(t, p)
  {
    forall i | 0 <= i < |p| ensures IsDir(t, p[..i]) {
      assert p[..i] == p[..|p| - 1][..i];
      DirsAbove(t, p[..|p| - 1], p[..i]);
    }
    assert p[..|p|] == p;
  }

  /** No entry of the source meets one of the other type below the directory. */
  ghost predicate NoClash(t: Tree, dir: Path, source: Tree) {
    forall q :: q in source ==> SameType(t, dir + q, source[q])
  }

  /** An entry that has not been copied meets what was there before. */
  lemma NotYetCopied(base: Tree, dir: Path, done: Tree, x: Path, n: Node)
    requires x !in done
    ensures SameType(Graft(base, dir, done), dir + x, n) <==> SameType(base, dir + x, n)
  {
    InGraft(base, dir, done, dir + x);
    assert (dir + x)[|dir|..] == x;
  }

  lemma NoClashMore(t: Tree, dir: Path, source: Tree, done: Tree, x: Path)
    requires x in source && SameType(t, dir + x, source[x])
    requires forall q :: q in done && q in source ==> SameType(t, dir + q, source[q])
    ensures forall q :: q in done[x := source[x]] && q in source ==> SameType(t, dir + q, source[q])
  {
  }

  /** The walk callback for one entry below the root, whose parent has been copied. */
  method CopyEntry(fs: FileSystem, target: Path, entry: Node) returns (ok: bool)
    requires fs.Valid() && target != [] && HasParent(fs.nodes, target)
    modifies fs
    ensures fs.Valid() && fs.nodes - {target} == old(fs.nodes) - {target}
    ensures ok ==> fs.nodes == old(fs.nodes)[target := entry] && SameType(old(fs.nodes), target, entry)
    ensures fs.faultless && SameType(old(fs.nodes), target, entry) ==> ok
  {
    PrefixesAreDirs(fs.nodes, target);
    if entry.Dir? {
      ok := fs.MkdirAll(target);
      if ok {
        assert target <= target;
        MakeOne(old(fs.nodes), target);
      }
    } else {
      ok := fs.Create(target);
      if ok {
        ok := fs.Fill(target, entry.content);
      }
    }
  }

  /** Any remaining entry whose directory is not waiting to be visited. */
  method NextEntry(todo: set<Path>) returns (x: Path)
    requires todo != {}
    ensures x in todo && forall y :: y in todo ==> !(y < x)
  {
    var some :| some in todo;
    Outermost(todo, some);
    x :| x in todo && forall y :: y in todo ==> !(y < x);
  }

  lemma ParentDone(source: Tree, todo: set<Path>, done: Tree, x: Path)
    requires WellFormed(source) && Visited(source, todo, done)
    requires x in todo && forall y :: y in todo ==> !(y < x)
    ensures x != [] && IsDir(done, x[..|x| - 1])
    ensures Visited(source, todo - {x}, done[x := source[x]])
  {
    assert HasParent(source, x);
    assert x[..|x| - 1] < x;
  }

  /** A copy that failed at an entry: what had been copied is a part of the source in which every entry, like the
      failing one, has its directory; at the failing entry anything may be. */
  ghost predicate StoppedAt(source: Tree, base: Tree, dir: Path, after: Tree, done: Tree, x: Path) {
    && WellFormed(done) && (forall q :: q in done ==> q in source && done[q] == source[q])
    && x in source && x !in done && HasParent(done, x)
    && after - {dir + x} == Graft(base, dir, done) - {dir + x}
  }

  lemma WellFormedWith(done: Tree, x: Path, n: Node)
    requires WellFormed(done) && x !in done && x != [] && HasParent(done, x)
    ensures WellFormed(done[x := n])
  {
    var r := done[x := n];
    forall q | q in r ensures HasParent(r, q) {
      assert q != x ==> HasParent(done, q);
    }
  }

  /** The walk below the root, in any order that visits a directory before its entries. */
  method CopyEntries(fs: FileSystem, dir: Path, source: Tree) returns (ok: bool)
    requires fs.Valid() && IsDir(fs.nodes, dir) && WellFormed(source)
    modifies fs
    ensures fs.Valid() && IsDir(fs.nodes, dir) && OnlyWithin(old(fs.nodes), fs.nodes, dir)
    ensures ok ==> fs.nodes == Graft(old(fs.nodes), dir, source)
    ensures !ok ==> exists done, x :: StoppedAt(source, old(fs.nodes), dir, fs.nodes, done, x)
    ensures ok ==> NoClash(old(fs.nodes), dir, source)
    ensures fs.faultless && NoClash(old(fs.nodes), dir, source) ==> ok
  {
    var todo := source.Keys - {[]};
    ghost var base := fs.nodes;
    ghost var done: Tree := map[[] := Dir];
    GraftRoot(base, dir);
    assert dir + [] == dir;
    while todo != {}
      invariant fs.Valid() && fs.nodes == Graft(base, dir, done)
      invariant Visited(source, todo, done) && WellFormed(done)
      invariant forall q :: q in done && q in source ==> SameType(base, dir + q, source[q])
      decreases todo
    {
      var x := NextEntry(todo);
      ParentDone(source, todo, done, x);
      ParentCopied(base, dir, done, x);
      GraftOne(base, dir, done, x, source[x]);
      NotYetCopied(base, dir, done, x, source[x]);
      ok := CopyEntry(fs, dir + x, source[x]);
      if !ok {
        StoppedWithin(base, dir, done, x, fs.nodes);
        assert StoppedAt(source, base, dir, fs.nodes, done, x);
        return;
      }
      WellFormedWith(done, x, source[x]);
      NoClashMore(base, dir, source, done, x);
      todo, done := todo - {x}, done[x := source[x]];
    }
    assert done == source;
    StoppedWithin(base, dir, source, [""], fs.nodes);
    ok := true;
  }

  lemma GraftRoot(t: Tree, dir: Path)
    requires IsDir(t, dir)
    ensures Graft(t, dir, map[[] := Dir]) == t
  {
    var nothing: Tree := map[];
    assert dir + [] == dir && nothing[[] := Dir] == map[[] := Dir];
    GraftOne(t, dir, nothing, [], Dir);
    assert Graft(t, dir, nothing) == t;
  }

  /** CopyFS: the reached part of the source is written over what the target held; nothing
      outside the target is touched. A missing source root makes the walk function panic,
      which is an error exit here. */
  method CopyFS(fs: FileSystem, dir: Path, src: Path, unlistable: set<Path>) returns (ok: bool)
    requires fs.Valid() && Apart(dir, src)
    modifies fs
    ensures fs.Valid() && OnlyWithin(old(fs.nodes), fs.nodes, dir)
    ensures ok ==> IsDir(old(fs.nodes), src) && IsDir(fs.nodes, dir)
                   && Below(fs.nodes, dir) == Below(old(fs.nodes), dir) + Reached(Below(old(fs.nodes), src), unlistable)
    ensures IsDir(old(fs.nodes), dir) ==> IsDir(fs.nodes, dir)
    ensures fs.faultless ==>
              (ok <==> IsDir(old(fs.nodes), src) && Makeable(old(fs.nodes), dir)
                       && NoClash(Below(old(fs.nodes), dir), [], Reached(Below(old(fs.nodes), src), unlistable)))
  {
    ok := IsDir(fs.nodes, src);
    if !ok {
      return;
    }
    var source := Reached(Below(fs.nodes, src), unlistable);
    BelowWellFormed(fs.nodes, src);
    ReachedWellFormed(Below(fs.nodes, src), unlistable);
    // the root entry
    ok := fs.MkdirAll(dir);
    if !ok {
      return;
    }
    MakeDirs(old(fs.nodes), dir);
    assert dir <= dir;
    ghost var base := fs.nodes;
    ClashBelow(old(fs.nodes), dir, source);
    ok := CopyEntries(fs, dir, source);
    OnlyWithinTwice(old(fs.nodes), base, fs.nodes, dir);
    BelowGraft(base, dir, source);
    MakeDirsRoot(Below(old(fs.nodes), dir), source);
  }

  /** A clash is one of the trees below the two directories; making the target brings none. */
  lemma ClashBelow(t: Tree, dir: Path, source: Tree)
    requires IsDir(source, []) && Makeable(t, dir)
    ensures NoClash(WithDirs(t, dir), dir, source) <==> NoClash(Below(t, dir), [], source)
  {
    forall q | q in source
      ensures SameType(WithDirs(t, dir), dir + q, source[q]) <==> SameType(Below(t, dir), [] + q, source[q])
    {
      InPrefixes(dir, dir + q);
      InBelow(t, dir, q);
      assert [] + q == q;
      if q == [] {
        assert dir + q == dir && dir[..|dir|] == dir;
      }
    }
  }

  lemma MakeDirsRoot(t: Tree, source: Tree)
    requires IsDir(source, [])
    ensures map[[] := Dir] + t + source == t + source
  {
  }

  lemma StoppedWithin(base: Tree, dir: Path, done: Tree, x: Path, after: Tree)
    requires Graft(base, dir, done) - {dir + x} == after - {dir + x}
    requires IsDir(base, dir) && x != [] && IsDir(done, [])
    ensures OnlyWithin(base, after, dir) && IsDir(after, dir)
  {
    GraftOnlyWithin(base, dir, done);
    InGraft(base, dir, done, dir);
    WriteWithin(base, Graft(base, dir, done), after, dir, x);
    assert dir in after - {dir + x};
    assert (after - {dir + x})[dir] == after[dir];
  }

  lemma ParentCopied(base: Tree, dir: Path, done: Tree, x: Path)
    requires x != [] && IsDir(done, x[..|x| - 1])
    ensures HasParent(Graft(base, dir, done), dir + x)
  {
    var parent := (dir + x)[..|dir + x| - 1];
    assert parent == dir + x[..|x| - 1] && parent[|dir|..] == x[..|x| - 1];
    InGraft(base, dir, done, parent);
  }

  /** RemoveContents followed by CopyFS, as a restore does: whatever the target held before,
      it then holds exactly what the walk reached of the source. */
  method ReplaceContents(fs: FileSystem, dir: Path, src: Path, unlistable: set<Path>) returns (ok: bool)
    requires fs.Valid() && Apart(dir, src)
    modifies fs
    ensures fs.Valid() && OnlyWithin(old(fs.nodes), fs.nodes, dir)
    ensures ok ==> IsDir(old(fs.nodes), src)
                   && Below(fs.nodes, dir) == Reached(Below(old(fs.nodes), src), unlistable)
    ensures IsDir(old(fs.nodes), dir) ==> IsDir(fs.nodes, dir)
    ensures fs.faultless ==> (ok <==> IsDir(old(fs.nodes), dir) && IsDir(old(fs.nodes), src))
  {
    ok := RemoveContents(fs, dir);
    if !ok {
      return;
    }
    BelowElsewhere(old(fs.nodes), fs.nodes, dir, src);
    ghost var cleared := fs.nodes;
    EmptyDirIsReady(cleared, dir);
    SourceStays(old(fs.nodes), cleared, src);
    ok := CopyFS(fs, dir, src, unlistable);
    OnlyWithinTwice(old(fs.nodes), cleared, fs.nodes, dir);
    if IsDir(cleared, src) {
      NoClashWithEmpty(Reached(Below(cleared, src), unlistable));
    }
    if ok {
      InBelow(cleared, src, []);
      InBelow(old(fs.nodes), src, []);
      assert src + [] == src;
      assert [] in Reached(Below(cleared, src), unlistable);
    }
  }

  lemma EmptyDirIsReady(t: Tree, dir: Path)
    requires WellFormed(t) && IsDir(t, dir)
    ensures Makeable(t, dir)
  {
    forall i | 0 <= i <= |dir| ensures IsDir(t, dir[..i]) {
      DirsAbove(t, dir, dir[..i]);
    }
  }

  lemma SourceStays(a: Tree, b: Tree, src: Path)
    requires Below(a, src) == Below(b, src)
    ensures IsDir(a, src) <==> IsDir(b, src)
    ensures IsDir(b, src) ==> IsDir(Below(b, src), [])
  {
    InBelow(a, src, []);
    InBelow(b, src, []);
    assert src + [] == src;
  }

  lemma NoClashWithEmpty(source: Tree)
    requires IsDir(source, [])
    ensures NoClash(EmptyDir, [], source)
  {
    forall q | q in source ensures SameType(EmptyDir, [] + q, source[q]) {
      assert [] + q == q;
    }
  }

  lemma OnlyWithinTwice(a: Tree, b: Tree, c: Tree, p: Path)
    requires OnlyWithin(a, b, p) && OnlyWithin(b, c, p)
    ensures OnlyWithin(a, c, p)
  {
    forall x | Apart(x, p) ensures SameAt(a, c, x) {
      assert SameAt(a, b, x) && SameAt(b, c, x);
    }
  }
}
