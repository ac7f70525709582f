/** The file system the sidecar works on: a map from absolute paths to directories
    and files, and the os calls the sidecar makes, each of which may fail. */
module FileTree {
  type byte = bv8
  /** A path is the list of its components; [] is the root. */
  type Path = seq<string>
  datatype Node = Dir | File(content: seq<byte>)
  /** A whole disk, or a directory tree with paths relative to its root. */
  type Tree = map<Path, Node>

  predicate IsDir(t: Tree, p: Path) {
    p in t && t[p].Dir?
  }

  predicate IsFile(t: Tree, p: Path) {
    p in t && t[p].File?
  }

  predicate HasParent(t: Tree, p: Path) {
    p == [] || IsDir(t, p[..|p| - 1])
  }

  /** The root is a directory and everything else lies in a directory. */
  predicate WellFormed(t: Tree) {
    IsDir(t, []) && forall p {:trigger HasParent(t, p)} :: p in t ==> HasParent(t, p)
  }

  /** Neither path lies at or below the other. */
  predicate Apart(p: Path, q: Path) {
    !(p <= q) && !(q <= p)
  }

  /** What lies at and below p, with paths relative to p. */
  function Below(t: Tree, p: Path): Tree {
    map q | q in (set x | x in t && p <= x :: x[|p|..]) && p + q in t :: t[p + q]
  }

  function Without(t: Tree, p: Path): Tree {
    map q | q in t && !(p <= q) :: t[q]
  }

  /** t with every entry of s written at its place below p. */
  function Graft(t: Tree, p: Path, s: Tree): Tree {
    t + map q | q in (set x | x in s :: p + x) && q[|p|..] in s :: s[q[|p|..]]
  }

  function Prefixes(p: Path): set<Path> {
    set i | 0 <= i <= |p| :: p[..i]
  }

  /** os.MkdirAll: every missing directory on the way to p, and p itself. */
  function WithDirs(t: Tree, p: Path): Tree {
    t + map q | q in Prefixes(p) && q !in t :: Dir
  }

  predicate SameAt(a: Tree, b: Tree, x: Path) {
    (x in a <==> x in b) && (x in a ==> a[x] == b[x])
  }

  /** a and b agree on every path that is neither on the way to p nor below it. */
  ghost predicate OnlyWithin(a: Tree, b: Tree, p: Path) {
    forall x :: Apart(x, p) ==> SameAt(a, b, x)
  }

  lemma InBelow(t: Tree, p: Path, q: Path)
    ensures q in Below(t, p) <==> p + q in t
    ensures q in Below(t, p) ==> Below(t, p)[q] == t[p + q]
  {
    if p + q in t {
      assert p <= p + q && (p + q)[|p|..] == q;
    }
  }

  lemma InGraft(t: Tree, p: Path, s: Tree, q: Path)
    ensures q in Graft(t, p, s) <==> q in t || (p <= q && q[|p|..] in s)
    ensures q in Graft(t, p, s) ==>
              Graft(t, p, s)[q] == if p <= q && q[|p|..] in s then s[q[|p|..]] else t[q]
  {
    if p <= q {
      assert p + q[|p|..] == q;
    }
    var keys := set x | x in s :: p + x;
    if q in keys {
      var x :| x in s && q == p + x;
      assert q[|p|..] == x;
    }
  }

  /** Reading back what was grafted: the new entries over the old ones. */
  lemma BelowGraft(t: Tree, p: Path, s: Tree)
    ensures Below(Graft(t, p, s), p) == Below(t, p) + s
  {
    var l, r := Below(Graft(t, p, s), p), Below(t, p) + s;
    forall q ensures SameAt(l, r, q) {
      InBelow(Graft(t, p, s), p, q);
      InBelow(t, p, q);
      InGraft(t, p, s, p + q);
      assert (p + q)[|p|..] == q;
    }
    SameEverywhere(l, r);
  }

  lemma SameEverywhere(a: Tree, b: Tree)
    requires forall q :: SameAt(a, b, q)
    ensures a == b
  {
    forall q ensures q in a <==> q in b {
      assert SameAt(a, b, q);
    }
    forall q | q in a ensures a[q] == b[q] {
      assert SameAt(a, b, q);
    }
    assert a.Keys == b.Keys;
  }

  lemma GraftOnlyWithin(t: Tree, p: Path, s: Tree)
    ensures OnlyWithin(t, Graft(t, p, s), p)
  {
    forall x | Apart(x, p) ensures SameAt(t, Graft(t, p, s), x) {
      InGraft(t, p, s, x);
    }
  }

  /** Grafting one more entry is writing one more path. */
  lemma GraftOne(t: Tree, p: Path, s: Tree, x: Path, n: Node)
    ensures Graft(t, p, s[x := n]) == Graft(t, p, s)[p + x := n]
  {
    var l, r := Graft(t, p, s[x := n]), Graft(t, p, s)[p + x := n];
    forall q ensures SameAt(l, r, q) {
      InGraft(t, p, s[x := n], q);
      InGraft(t, p, s, q);
      if p <= q {
        assert p + q[|p|..] == q;
      }
      assert (p + x)[|p|..] == x;
    }
    SameEverywhere(l, r);
  }

  lemma BelowElsewhere(a: Tree, b: Tree, p: Path, q: Path)
    requires OnlyWithin(a, b, p) && Apart(p, q)
    ensures Below(a, q) == Below(b, q)
  {
    forall x ensures SameAt(Below(a, q), Below(b, q), x) {
      InBelow(a, q, x);
      InBelow(b, q, x);
      ApartBelow(p, q, x);
      assert SameAt(a, b, q + x);
    }
    SameEverywhere(Below(a, q), Below(b, q));
  }

  lemma ApartBelow(p: Path, q: Path, x: Path)
    requires Apart(p, q)
    ensures Apart(p, q + x)
    ensures Apart(q + x, p)
  {
    var n := if |p| <= |q| then |p| else |q|;
    assert p[..n] != q[..n] by {
      assert |p| <= |q| ==> p == p[..n];
      assert |q| <= |p| ==> q == q[..n];
    }
    var k :| 0 <= k < n && p[..n][k] != q[..n][k];
    assert (q + x)[k] == q[k];
  }
}
