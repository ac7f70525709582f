/** The os calls of the sidecar over one disk. Every call may fail; RemoveAll and
    MkdirAll then change nothing, a failed write leaves a prefix behind. On a faultless disk a call
    fails only where the state does not allow it. */
module Os {
  import opened FileTree

  datatype ReadError = NoError | EOF | Failure

  /** s after writing b at position off: written bytes replace, later bytes stay. */
  function Splice(s: seq<byte>, off: nat, b: seq<byte>): (r: seq<byte>)
    requires off <= |s|
    ensures |r| == if off + |b| < |s| then |s| else off + |b|
  {
    s[..off] + b + if off + |b| < |s| then s[off + |b|..] else []
  }

  lemma SpliceTwice(s: seq<byte>, a: seq<byte>, b: seq<byte>)
    ensures Splice(Splice(s, 0, a), |a|, b) == Splice(s, 0, a + b)
  {
  }

  lemma WithoutWellFormed(t: Tree, p: Path)
    requires WellFormed(t) && p != []
    ensures WellFormed(Without(t, p))
  {
    forall q | q in Without(t, p) ensures HasParent(Without(t, p), q) {
      assert HasParent(t, q);
      if q != [] {
        assert !(p <= q[..|q| - 1]);
      }
    }
  }

  lemma InPrefixes(p: Path, q: Path)
    ensures q in Prefixes(p) <==> q <= p
  {
    if q <= p {
      assert q == p[..|q|];
    }
  }

  lemma WithDirsWellFormed(t: Tree, p: Path)
    requires WellFormed(t) && forall q :: q <= p && q in t ==> t[q].Dir?
    ensures WellFormed(WithDirs(t, p))
    ensures forall q :: q <= p ==> IsDir(WithDirs(t, p), q)
  {
    var r := WithDirs(t, p);
    forall q | q <= p ensures IsDir(r, q) {
      InPrefixes(p, q);
    }
    forall q | q in r ensures HasParent(r, q) {
      if q in t {
        assert HasParent(t, q);
      } else {
        InPrefixes(p, q);
        assert q != [] ==> q[..|q| - 1] <= p;
      }
    }
  }

  lemma UpdateWellFormed(t: Tree, p: Path, n: Node)
    requires WellFormed(t) && p != [] && HasParent(t, p) && (n.File? ==> !IsDir(t, p))
    ensures WellFormed(t[p := n])
  {
    var r := t[p := n];
    forall q | q in r ensures HasParent(r, q) {
      assert q in t ==> HasParent(t, q);
    }
  }

  lemma RemoveWellFormed(t: Tree, p: Path)
    requires WellFormed(t) && !IsDir(t, p)
    ensures WellFormed(t - {p})
  {
    forall q | q in t - {p} ensures HasParent(t - {p}, q) {
      assert HasParent(t, q);
    }
  }

  /** The directory can be made: no file is in the way. */
  predicate Makeable(t: Tree, p: Path) {
    forall i :: 0 <= i <= |p| && p[..i] in t ==> t[p[..i]].Dir?
  }

  /** A file can be made or opened for writing. */
  predicate Writable(t: Tree, p: Path) {
    !IsDir(t, p) && HasParent(t, p)
  }

  class FileSystem {
    /** No call fails that the state allows, but for the removal of single files, ... */
    const faultless: bool
    /** ... nor that one. */
    const removes: bool
    var nodes: Tree

    ghost predicate Valid()
      reads this
    {
      WellFormed(nodes)
    }

    constructor (disk: Tree, faultless: bool, removes: bool)
      requires WellFormed(disk)
      ensures Valid() && nodes == disk && this.faultless == faultless && this.removes == removes
    {
      nodes := disk;
      this.faultless, this.removes := faultless, removes;
    }

    method RemoveAll(p: Path) returns (ok: bool)
      requires Valid() && p != []
      modifies this
      ensures Valid()
      ensures nodes == if ok then Without(old(nodes), p) else old(nodes)
      ensures faultless ==> ok
    {
      ok := *;
      ok := ok || faultless;
      if ok {
        WithoutWellFormed(nodes, p);
        nodes := Without(nodes, p);
      }
    }

    method MkdirAll(p: Path) returns (ok: bool)
      requires Valid()
      modifies this
      ensures Valid()
      ensures nodes == if ok then WithDirs(old(nodes), p) else old(nodes)
      ensures ok ==> forall q :: q <= p ==> IsDir(nodes, q) && (q in old(nodes) ==> IsDir(old(nodes), q))
      ensures ok ==> Makeable(old(nodes), p)
      ensures faultless && Makeable(old(nodes), p) ==> ok
    {
      ok := *;
      ok := (ok || faultless) && Makeable(nodes, p);
      if ok {
        forall q | q <= p && q in nodes ensures nodes[q].Dir? {
          assert q == p[..|q|];
        }
        WithDirsWellFormed(nodes, p);
        nodes := WithDirs(nodes, p);
      }
    }

    /** os.Create: the file exists and is empty. */
    method Create(p: Path) returns (ok: bool)
      requires Valid() && p != []
      modifies this
      ensures Valid()
      ensures nodes == if ok then old(nodes)[p := File([])] else old(nodes)
      ensures ok ==> Writable(old(nodes), p)
      ensures faultless && Writable(old(nodes), p) ==> ok
    {
      ok := *;
      ok := (ok || faultless) && Writable(nodes, p);
      if ok {
        UpdateWellFormed(nodes, p, File([]));
        nodes := nodes[p := File([])];
      }
    }

    /** OpenFile with O_RDWR|O_CREATE: a missing file is made, an existing one keeps its bytes. */
    method OpenOutput(p: Path) returns (ok: bool)
      requires Valid() && p != []
      modifies this
      ensures Valid()
      ensures nodes == if ok && p !in old(nodes) then old(nodes)[p := File([])] else old(nodes)
      ensures ok ==> IsFile(nodes, p) && Writable(old(nodes), p)
      ensures faultless && Writable(old(nodes), p) ==> ok
    {
      ok := *;
      ok := (ok || faultless) && Writable(nodes, p);
      if ok && p !in nodes {
        UpdateWellFormed(nodes, p, File([]));
        nodes := nodes[p := File([])];
      }
    }

    /** os.Open of a file that is read. */
    method OpenInput(p: Path) returns (ok: bool)
      ensures ok ==> IsFile(nodes, p)
      ensures faultless && IsFile(nodes, p) ==> ok
    {
      ok := *;
      ok := (ok || faultless) && IsFile(nodes, p);
    }

    /** os.Open of a directory and reading its names. */
    method OpenDir(p: Path) returns (ok: bool)
      ensures ok ==> IsDir(nodes, p)
      ensures faultless && IsDir(nodes, p) ==> ok
    {
      ok := *;
      ok := (ok || faultless) && IsDir(nodes, p);
    }

    /** os.Remove of a file. */
    method Remove(p: Path) returns (ok: bool)
      requires Valid() && IsFile(nodes, p)
      modifies this
      ensures Valid()
      ensures nodes == if ok then old(nodes) - {p} else old(nodes)
      ensures removes ==> ok
    {
      ok := *;
      ok := ok || removes;
      if ok {
        RemoveWellFormed(nodes, p);
        nodes := nodes - {p};
      }
    }

    /** io.Copy into a file that was just created: everything arrives, or a prefix and an error. */
    method Fill(p: Path, content: seq<byte>) returns (ok: bool)
      requires Valid() && IsFile(nodes, p)
      modifies this
      ensures Valid() && IsFile(nodes, p)
      ensures nodes == old(nodes)[p := nodes[p]] && nodes[p].content <= content
      ensures ok ==> nodes[p].content == content
      ensures faultless ==> ok
    {
      ok := *;
      ok := ok || faultless;
      var n: nat :| n <= |content| && (ok ==> n == |content|);
      assert HasParent(nodes, p);
      UpdateWellFormed(nodes, p, File(content[..n]));
      nodes := nodes[p := File(content[..n])];
    }
  }

  /** An open file with its own position. */
  class Handle {
    const fs: FileSystem
    const path: Path
    var offset: nat

    ghost predicate Valid()
      reads this, fs
    {
      fs.Valid() && IsFile(fs.nodes, path) && offset <= |fs.nodes[path].content|
    }

    constructor (fs: FileSystem, path: Path)
      requires fs.Valid() && IsFile(fs.nodes, path)
      ensures Valid() && this.fs == fs && this.path == path && offset == 0
    {
      this.fs := fs;
      this.path := path;
      offset := 0;
    }

    /** Any number of bytes that are there may arrive, with or without an error. At the end of
        the file the error is EOF, which may come together with the last bytes. */
    method Read(buf: array<byte>) returns (n: nat, err: ReadError)
      requires Valid() && buf.Length > 0
      modifies this, buf
      ensures Valid() && n <= buf.Length
      ensures offset == old(offset) + n
      ensures buf[..n] == fs.nodes[path].content[old(offset)..offset]
      ensures err == EOF ==> offset == |fs.nodes[path].content|
      ensures err == NoError ==> n > 0
      ensures fs.faultless ==> err != Failure
    {
      var content := fs.nodes[path].content;
      n :| n <= buf.Length && n <= |content| - offset && (offset < |content| ==> n > 0 || !fs.faultless);
      forall i | 0 <= i < n {
        buf[i] := content[offset + i];
      }
      offset := offset + n;
      err :| (err == EOF ==> offset == |content|) && (err == NoError ==> n > 0)
             && (fs.faultless ==> err != Failure) by {
        assert n > 0 || !fs.faultless || offset == |content|;
      }
    }

    /** Writes buf[..n] at the current position, or some of it and an error. */
    method Write(buf: array<byte>, n: nat) returns (ok: bool)
      requires Valid() && n <= buf.Length
      modifies this, fs
      ensures Valid()
      ensures fs.nodes == old(fs.nodes)[path := fs.nodes[path]]
      ensures old(offset) <= offset <= old(offset) + n
      ensures ok ==> offset == old(offset) + n
                     && fs.nodes[path].content == Splice(old(fs.nodes[path].content), old(offset), old(buf[..n]))
      ensures fs.faultless ==> ok
    {
      ok := *;
      ok := ok || fs.faultless;
      var k: nat :| k <= n && (ok ==> k == n);
      assert HasParent(fs.nodes, path);
      var content := Splice(fs.nodes[path].content, offset, buf[..k]);
      UpdateWellFormed(fs.nodes, path, File(content));
      fs.nodes := fs.nodes[path := File(content)];
      offset := offset + k;
    }
  }
}
