/** The fixed directories (pkg/constants/constants.go) and the localfs database
    (cmd/internal/database/localfs/localfs.go). */
module Layout {
  import opened FileTree

  const SIDECAR_BASE_DIR: Path := ["backup"]
  const UPLOAD_DIR: Path := ["backup", "upload"]
  const BACKUP_DIR: Path := ["backup", "upload", "files"]
  const DOWNLOAD_DIR: Path := ["backup", "restore"]
  const RESTORE_DIR: Path := ["backup", "restore", "files"]
  /** Both directories have this base name: what is archived from the one is unpacked to the other. */
  const FILES := "files"

  /** A directory outside the sidecar's own one is apart from everything in there. */
  lemma OutsideSidecar(p: Path, q: Path)
    requires Apart(p, SIDECAR_BASE_DIR) && SIDECAR_BASE_DIR <= q
    ensures Apart(p, q) && Apart(q, p)
  {
    assert q == SIDECAR_BASE_DIR + q[1..];
    ApartBelow(p, SIDECAR_BASE_DIR, q[1..]);
  }

  lemma OnlyWithinAbove(a: Tree, b: Tree, p: Path, q: Path)
    requires OnlyWithin(a, b, p + q)
    ensures OnlyWithin(a, b, p)
  {
    forall x | Apart(x, p) ensures SameAt(a, b, x) {
      ApartBelow(x, p, q);
    }
  }
}

module LocalFs {
  import opened FileTree
  import opened Os
  import opened Files
  import opened Layout

  lemma WithoutBelow(t: Tree, p: Path)
    ensures Below(Without(t, p), p) == map[]
    ensures OnlyWithin(t, Without(t, p), p)
  {
    var b := Below(Without(t, p), p);
    forall q ensures q !in b {
      InBelow(Without(t, p), p, q);
      assert p <= p + q;
    }
    assert b.Keys == {};
  }

  /** With the directory itself removed only its parent decides whether it can be made. */
  lemma MakeableAgain(t: Tree, dir: Path)
    requires dir != []
    ensures Makeable(Without(t, dir), dir) <==> Makeable(t, dir[..|dir| - 1])
  {
    var w, parent := Without(t, dir), dir[..|dir| - 1];
    forall i | 0 <= i <= |dir| ensures dir[..i] in w <==> i < |dir| && dir[..i] in t {
      assert dir[..|dir|] == dir;
    }
    forall i | 0 <= i <= |parent| ensures parent[..i] == dir[..i] {
    }
  }

  /** RemoveAll followed by MkdirAll: on success the directory is there and empty. */
  method FreshDir(fs: FileSystem, dir: Path) returns (ok: bool)
    requires fs.Valid() && dir != []
    modifies fs
    ensures fs.Valid() && OnlyWithin(old(fs.nodes), fs.nodes, dir)
    ensures ok ==> IsDir(fs.nodes, dir) && Below(fs.nodes, dir) == EmptyDir
    ensures fs.faultless ==> (ok <==> Makeable(old(fs.nodes), dir[..|dir| - 1]))
  {
    MakeableAgain(fs.nodes, dir);
    ok := fs.RemoveAll(dir);
    if !ok {
      return;
    }
    WithoutBelow(old(fs.nodes), dir);
    ghost var removed := fs.nodes;
    ok := fs.MkdirAll(dir);
    MakeDirs(removed, dir);
    OnlyWithinTwice(old(fs.nodes), removed, fs.nodes, dir);
    assert dir <= dir;
  }

  class LocalFS {
    const fs: FileSystem
    const datadir: Path

    constructor (fs: FileSystem, datadir: Path)
      ensures this.fs == fs && this.datadir == datadir
    {
      this.fs := fs;
      this.datadir := datadir;
    }

    /** Whether a restore is needed: the data directory exists and is empty. */
    method Check() returns (ok: bool, needed: bool)
      requires fs.Valid()
      ensures ok ==> IsDir(fs.nodes, datadir) && (needed <==> Below(fs.nodes, datadir) == EmptyDir)
      ensures fs.faultless ==> (ok <==> IsDir(fs.nodes, datadir))
    {
      ok, needed := IsEmpty(fs, datadir);
    }

    /** The backup directory becomes a copy of what the walk reached of the data directory. */
    method Backup(unlistable: set<Path>) returns (ok: bool)
      requires fs.Valid() && Apart(datadir, SIDECAR_BASE_DIR)
      modifies fs
      ensures fs.Valid() && OnlyWithin(old(fs.nodes), fs.nodes, BACKUP_DIR)
      ensures ok ==> IsDir(old(fs.nodes), datadir) && IsDir(fs.nodes, BACKUP_DIR)
                     && Below(fs.nodes, BACKUP_DIR) == Reached(Below(old(fs.nodes), datadir), unlistable)
      ensures fs.faultless ==> (ok <==> IsDir(old(fs.nodes), datadir) && Makeable(old(fs.nodes), UPLOAD_DIR))
    {
      assert BACKUP_DIR[..2] == UPLOAD_DIR;
      OutsideSidecar(datadir, BACKUP_DIR);
      ok := FreshDir(fs, BACKUP_DIR);
      if !ok {
        return;
      }
      BelowElsewhere(old(fs.nodes), fs.nodes, BACKUP_DIR, datadir);
      ghost var emptied := fs.nodes;
      EmptyDirIsReady(emptied, BACKUP_DIR);
      SourceStays(old(fs.nodes), emptied, datadir);
      if IsDir(emptied, datadir) {
        assert [] in Reached(Below(emptied, datadir), unlistable);
        NoClashWithEmpty(Reached(Below(emptied, datadir), unlistable));
      }
      ok := CopyFS(fs, BACKUP_DIR, datadir, unlistable);
      OnlyWithinTwice(old(fs.nodes), emptied, fs.nodes, BACKUP_DIR);
      if ok {
        RootStays(old(fs.nodes), emptied, datadir);
        assert [] in Reached(Below(emptied, datadir), unlistable);
      }
    }

    /** The data directory becomes a copy of what the walk reached of the restore directory. */
    method Recover(unlistable: set<Path>) returns (ok: bool)
      requires fs.Valid() && Apart(datadir, SIDECAR_BASE_DIR)
      modifies fs
      ensures fs.Valid() && OnlyWithin(old(fs.nodes), fs.nodes, datadir)
      ensures ok ==> IsDir(old(fs.nodes), RESTORE_DIR)
                     && Below(fs.nodes, datadir) == Reached(Below(old(fs.nodes), RESTORE_DIR), unlistable)
      ensures fs.faultless ==> (ok <==> IsDir(old(fs.nodes), datadir) && IsDir(old(fs.nodes), RESTORE_DIR))
    {
      OutsideSidecar(datadir, RESTORE_DIR);
      ok := ReplaceContents(fs, datadir, RESTORE_DIR, unlistable);
    }
  }

  lemma RootStays(a: Tree, b: Tree, p: Path)
    requires Below(a, p) == Below(b, p) && IsDir(b, p)
    ensures IsDir(a, p) && [] in Below(a, p)
  {
    InBelow(a, p, []);
    InBelow(b, p, []);
    assert p + [] == p;
  }
}
