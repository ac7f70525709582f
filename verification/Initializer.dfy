/** The status word of the rpc interface (api/v1/initializer.pb.go). */
module StatusWord {
  datatype Status = CHECKING | RESTORING | UPGRADING | DONE
}

/** Checking, restoring and gating the start of the database
    (cmd/internal/initializer/initializer.go), with the localfs database and the local provider. */
module Initializer {
  import opened FileTree
  import opened Os
  import opened Ctr
  import opened Decimal
  import opened Encryption
  import opened Files
  import opened Layout
  import opened LocalFs
  import opened Compress
  import opened Versions
  import opened LocalProvider
  import opened StatusWord

  /** The part after the last slash. */
  function AfterSlash(s: string): string {
    if s == "" || s[|s| - 1] == '/' then "" else AfterSlash(s[..|s| - 1]) + [s[|s| - 1]]
  }

  function DropSlashes(s: string): string {
    if s != "" && s[|s| - 1] == '/' then DropSlashes(s[..|s| - 1]) else s
  }

  /** The name a version is downloaded under: the base name of a name with slashes. */
  function DownloadName(name: string): string {
    if '/' !in name then name
    else if DropSlashes(name) == "" then "/"
    else AfterSlash(DropSlashes(name))
  }

  /** The archive in a downloaded file, by its name and bytes: an encrypted file is deciphered over
      what lay under its decrypted name, and the archive format is read off the name. */
  function Found(archiver: Archiver, key: Option<Cipher>, file: string,
                 content: seq<byte>, leftover: seq<byte>): Option<(string, Tree)>
  {
    if key.Some? && Ext(file) == SUFFIX then
      if |content| < BLOCK_SIZE then None
      else FoundIn(archiver, TrimSuffix(file, SUFFIX), Splice(leftover, 0, Unsealed(key.value, content)))
    else FoundIn(archiver, file, content)
  }

  function FoundIn(archiver: Archiver, file: string, content: seq<byte>): Option<(string, Tree)> {
    match FormatOf(file)
    case None => None
    case Some(ext) => archiver.unpack(ext, content)
  }

  /** The tree a downloaded file restores to. An archive of a directory with another base name leaves the
      restore directory empty. */
  function Recovered(archiver: Archiver, key: Option<Cipher>, file: string,
                     content: seq<byte>, leftover: seq<byte>): Option<Tree>
  {
    LaidOut(Found(archiver, key, file, content, leftover))
  }

  function LaidOut(found: Option<(string, Tree)>): Option<Tree> {
    match found
    case None => None
    case Some(archive) => Some(if archive.0 == FILES then EmptyDir + archive.1 else EmptyDir)
  }

  function Unpacked(archiver: Archiver, file: string, content: seq<byte>): Option<Tree> {
    LaidOut(FoundIn(archiver, file, content))
  }

  /** Where downloads lie, by name; nothing there overlaps the restore directory but its own name. */
  function Download(name: string): Path {
    DOWNLOAD_DIR + [name]
  }

  lemma DownloadsApart(a: string, b: string)
    ensures a != b <==> Apart(Download(a), Download(b))
    ensures Download(FILES) == RESTORE_DIR
  {
    assert Download(a)[2] == a && Download(b)[2] == b;
  }

  /** What a step that writes or removes single downloads keeps of the others. */
  lemma OtherDownload(a: Tree, b: Tree, name: string, other: string)
    requires OnlyWithin(a, b, Download(name)) && name != other
    ensures SameAt(a, b, Download(other)) && Below(a, Download(other)) == Below(b, Download(other))
  {
    DownloadsApart(other, name);
    BelowElsewhere(a, b, Download(name), Download(other));
  }

  lemma WriteDownload(a: Tree, b: Tree, name: string)
    requires a - {Download(name)} == b - {Download(name)}
    ensures OnlyWithin(a, b, Download(name))
  {
    forall x | Apart(x, Download(name)) ensures SameAt(a, b, x) {
      assert x in a <==> x in a - {Download(name)};
      assert x in b <==> x in b - {Download(name)};
      assert x in a ==> a[x] == (a - {Download(name)})[x] && b[x] == (b - {Download(name)})[x];
    }
  }

  lemma WithinDownloads(a: Tree, b: Tree, name: string)
    requires OnlyWithin(a, b, Download(name))
    ensures OnlyWithin(a, b, DOWNLOAD_DIR)
  {
    OnlyWithinAbove(a, b, DOWNLOAD_DIR, [name]);
  }

  /** Why a start went ahead. */
  datatype Decision =
    | Undecided
    | KeptData
    | FreshDatabase
    | RestoredLatest(version: BackupVersion, leftover: seq<byte>)

  /** An entry of the directory that no other entry is newer than. */
  ghost predicate IsLatest(store: map<string, Object>, v: BackupVersion) {
    v.name in store && v.date == store[v.name].modTime
    && forall name :: name in store ==> store[name].modTime <= v.date
  }

  lemma LatestListed(store: map<string, Object>, files: seq<FileInfo>, listing: seq<BackupVersion>, v: BackupVersion)
    requires Enumerates(files, store) && IsListing(files, listing)
    requires v in listing && forall w :: w in listing ==> w.date <= v.date
    ensures IsLatest(store, v)
  {
    var us, es := Unnumbered(listing), Entries(files);
    var i :| 0 <= i < |listing| && listing[i] == v;
    assert us[i] in multiset(es);
    var p :| 0 <= p < |es| && es[p] == us[i];
    assert files[p] in files;
    forall name | name in store ensures store[name].modTime <= v.date {
      var q :| 0 <= q < |files| && files[q] == FileInfo(name, store[name].modTime);
      assert es[q] in multiset(us);
      var j :| 0 <= j < |us| && us[j] == es[q];
      assert listing[j] in listing;
    }
  }

  /** The directory made when it is missing. */
  function Made(data: Tree): Tree {
    map[[] := Dir] + data
  }

  lemma MadeIsSame(t: Tree, p: Path)
    ensures IsDir(t, p) ==> Made(Below(t, p)) == Below(t, p)
  {
    InBelow(t, p, []);
    assert p + [] == p;
  }

  /** Into the empty restore directory everything fits that is a directory tree. */
  lemma FitsRestoreDir(t: Tree, tree: Tree)
    requires WellFormed(t) && Below(t, RESTORE_DIR) == EmptyDir
    ensures Fits(t, RESTORE_DIR, tree) <==> WellFormed(EmptyDir + tree)
  {
    if Fits(t, RESTORE_DIR, tree) {
      FittingIsTree(t, tree);
    }
    if WellFormed(EmptyDir + tree) {
      TreeIsFitting(t, tree);
    }
  }

  lemma FittingIsTree(t: Tree, tree: Tree)
    requires WellFormed(t) && Below(t, RESTORE_DIR) == EmptyDir && Fits(t, RESTORE_DIR, tree)
    ensures WellFormed(EmptyDir + tree)
  {
    var r := Graft(t, RESTORE_DIR, tree);
    BelowGraft(t, RESTORE_DIR, tree);
    InBelow(t, RESTORE_DIR, []);
    assert RESTORE_DIR + [] == RESTORE_DIR;
    assert !([] in tree && tree[[]].File?);
    InGraft(t, RESTORE_DIR, tree, RESTORE_DIR);
    assert RESTORE_DIR[|RESTORE_DIR|..] == [];
    BelowWellFormed(r, RESTORE_DIR);
  }

  lemma TreeIsFitting(t: Tree, tree: Tree)
    requires WellFormed(t) && Below(t, RESTORE_DIR) == EmptyDir && WellFormed(EmptyDir + tree)
    ensures Fits(t, RESTORE_DIR, tree)
  {
    var r := Graft(t, RESTORE_DIR, tree);
    forall q | q in r ensures HasParent(r, q) {
      GraftedParent(t, tree, q);
    }
    InGraft(t, RESTORE_DIR, tree, []);
    assert IsDir(r, []);
    forall q | q in tree && tree[q].File? ensures RESTORE_DIR + q !in t {
      assert q in EmptyDir + tree && (EmptyDir + tree)[q].File?;
      InBelow(t, RESTORE_DIR, q);
    }
  }

  lemma GraftedParent(t: Tree, tree: Tree, q: Path)
    requires WellFormed(t) && Below(t, RESTORE_DIR) == EmptyDir && WellFormed(EmptyDir + tree)
    ensures q in Graft(t, RESTORE_DIR, tree) ==> HasParent(Graft(t, RESTORE_DIR, tree), q)
  {
    var r := Graft(t, RESTORE_DIR, tree);
    InBelow(t, RESTORE_DIR, []);
    assert RESTORE_DIR + [] == RESTORE_DIR;
    if q in r && q != [] {
      var parent := q[..|q| - 1];
      InGraft(t, RESTORE_DIR, tree, q);
      InGraft(t, RESTORE_DIR, tree, parent);
      if RESTORE_DIR < q {
        var x := q[|RESTORE_DIR|..];
        assert RESTORE_DIR + x == q && x[..|x| - 1] == parent[|RESTORE_DIR|..];
        InBelow(t, RESTORE_DIR, x);
        InBelow(t, RESTORE_DIR, x[..|x| - 1]);
        assert x in EmptyDir + tree ==> HasParent(EmptyDir + tree, x);
      } else {
        assert q in t;
        assert HasParent(t, q);
        assert !(RESTORE_DIR <= parent);
      }
    }
  }

  lemma MakeableMore(t: Tree, p: Path, q: Path)
    ensures Makeable(t, q) ==> Makeable(WithDirs(t, p), q)
  {
    forall i | 0 <= i <= |q| ensures q[..i] in t ==> WithDirs(t, p)[q[..i]] == t[q[..i]] {
    }
  }

  lemma DirIsMakeable(t: Tree, p: Path)
    requires WellFormed(t) && IsDir(t, p)
    ensures Makeable(t, p)
  {
    EmptyDirIsReady(t, p);
  }

  lemma WithDirsKeeps(t: Tree, p: Path, x: Path)
    requires !(x <= p)
    ensures SameAt(t, WithDirs(t, p), x)
  {
    InPrefixes(p, x);
  }

  class Initializer {
    const fs: FileSystem
    const db: LocalFS
    const bp: BackupProviderLocal
    const comp: Compressor
    const encrypter: Encrypter?
    var status: Status

    ghost predicate Valid()
      reads this, fs, bp
    {
      && fs.Valid() && bp.Valid()
      && db.fs == fs && comp.fs == fs && (encrypter != null ==> encrypter.fs == fs)
      && Apart(db.datadir, SIDECAR_BASE_DIR)
    }

    ghost function Key(): Option<Cipher> {
      if encrypter == null then None else Some(encrypter.cipher)
    }

    constructor (fs: FileSystem, db: LocalFS, bp: BackupProviderLocal, comp: Compressor, encrypter: Encrypter?)
      ensures this.fs == fs && this.db == db && this.bp == bp && this.comp == comp && this.encrypter == encrypter
      ensures status == CHECKING
    {
      this.fs, this.db, this.bp, this.comp, this.encrypter := fs, db, bp, comp, encrypter;
      status := CHECKING;
    }

    /** Neither the disk nor the provider fails. */
    ghost predicate Faultless() {
      fs.faultless && bp.faultless
    }

    /** The archive in a stored file, downloaded to a disk. */
    ghost function FoundOn(t: Tree, name: string): Option<(string, Tree)>
      requires name in bp.store
      reads bp
    {
      Found(comp.archiver, Key(), DownloadName(name), bp.store[name].content,
            Bytes(t, Download(TrimSuffix(DownloadName(name), SUFFIX))))
    }

    /** A stored file can be recovered on a disk: the download directory can be made, no directory takes the place
        of the deciphered file, and the file is an archive of the backup directory. */
    ghost predicate Recovers(t: Tree, name: string)
      reads bp
    {
      && name in bp.store && Makeable(t, DOWNLOAD_DIR) && FoundOn(t, name).Some?
      && Clear(t, DownloadName(name))
      && FoundOn(t, name).value.0 == FILES && WellFormed(EmptyDir + FoundOn(t, name).value.1)
    }

    /** It is not an archive of anything else. */
    ghost predicate OfBackupDir(t: Tree, name: string)
      reads bp
    {
      name in bp.store && FoundOn(t, name).Some? ==> FoundOn(t, name).value.0 == FILES
    }

    /** A fresh restore directory and the downloaded file; other downloads stay as they are. */
    method Fetch(name: string) returns (ok: bool)
      requires Valid()
      modifies fs
      ensures Valid() && OnlyWithin(old(fs.nodes), fs.nodes, DOWNLOAD_DIR)
      ensures var file := DownloadName(name);
              ok ==>
                && name in bp.store && IsFile(fs.nodes, Download(file))
                && fs.nodes[Download(file)].content == bp.store[name].content
                && (file != FILES ==> Below(fs.nodes, RESTORE_DIR) == EmptyDir)
                && forall other :: other != FILES && other != file ==>
                     SameAt(old(fs.nodes), fs.nodes, Download(other))
      ensures Faultless() ==> (ok <==> name in bp.store && Makeable(old(fs.nodes), DOWNLOAD_DIR))
    {
      assert RESTORE_DIR[..2] == DOWNLOAD_DIR;
      var file := DownloadName(name);
      DownloadsApart(file, FILES);
      ghost var start := fs.nodes;
      ok := FreshDir(fs, RESTORE_DIR);
      ghost var prepared := fs.nodes;
      WithinDownloads(start, prepared, FILES);
      if !ok {
        return;
      }
      ok := fs.RemoveAll(Download(file));
      WithoutBelow(prepared, Download(file));
      ghost var removed := fs.nodes;
      if !ok {
        return;
      }
      assert Writable(fs.nodes, Download(file)) by {
        assert HasParent(prepared, RESTORE_DIR);
        assert Download(file)[..2] == DOWNLOAD_DIR && !(Download(file) <= DOWNLOAD_DIR);
      }
      ok := fs.Create(Download(file));
      if ok {
        // a download that fails has written part of the backup
        var downloaded, written := bp.DownloadBackup(name);
        ok := fs.Fill(Download(file), written);
        ok := ok && downloaded;
      }
      WriteDownload(removed, fs.nodes, file);
      OnlyWithinTwice(prepared, removed, fs.nodes, Download(file));
      WithinDownloads(prepared, fs.nodes, file);
      OnlyWithinTwice(start, prepared, fs.nodes, DOWNLOAD_DIR);
      if file != FILES {
        OtherDownload(prepared, fs.nodes, file, FILES);
      }
      forall other | other != FILES && other != file ensures SameAt(start, fs.nodes, Download(other)) {
        OtherDownload(start, prepared, FILES, other);
        OtherDownload(prepared, fs.nodes, file, other);
      }
    }

    /** Deciphers an encrypted download when a key is configured; returns the name to unpack. */
    method Open(file: string) returns (r: Result<string>)
      requires Valid() && IsFile(fs.nodes, Download(file)) && Below(fs.nodes, RESTORE_DIR) == EmptyDir
      modifies fs
      ensures Valid() && OnlyWithin(old(fs.nodes), fs.nodes, DOWNLOAD_DIR)
      ensures r.Ok? ==>
                && IsFile(fs.nodes, Download(r.value)) && Below(fs.nodes, RESTORE_DIR) == EmptyDir
                && var before := old(fs.nodes[Download(file)]).content;
                   var now := fs.nodes[Download(r.value)].content;
                   if Key().Some? && Ext(file) == SUFFIX then
                     && r.value == TrimSuffix(file, SUFFIX) && r.value != FILES && r.value != file
                     && |before| >= BLOCK_SIZE
                     && now == Splice(Bytes(old(fs.nodes), Download(r.value)), 0, Unsealed(Key().value, before))
                   else
                     r.value == file && now == before
      ensures fs.faultless ==>
                (r.Ok? <==> (Key().Some? && Ext(file) == SUFFIX ==>
                               && |old(fs.nodes[Download(file)]).content| >= BLOCK_SIZE
                               && !IsDir(old(fs.nodes), Download(TrimSuffix(file, SUFFIX)))))
    {
      OnlyWithinSame(fs.nodes, DOWNLOAD_DIR);
      if encrypter == null || !IsEncrypted(Download(file)) {
        return Ok(file);
      }
      var plain := TrimSuffix(file, SUFFIX);
      assert DropSuffix(Download(file)) == Download(plain);
      SuffixRoundTrip(Download(file));
      ghost var before := fs.nodes;
      var decrypted := encrypter.Decrypt(Download(file));
      assert before - {Download(plain), Download(file)} == fs.nodes - {Download(plain), Download(file)} by {
        if decrypted.Err? {
          assert before - {Download(plain), Download(file)} == before - {Download(plain)} - {Download(file)};
          assert fs.nodes - {Download(plain), Download(file)} == fs.nodes - {Download(plain)} - {Download(file)};
        }
      }
      TwoDownloads(before, fs.nodes, plain, file);
      if decrypted.Err? {
        return Err;
      }
      InBelow(before, RESTORE_DIR, []);
      assert RESTORE_DIR + [] == RESTORE_DIR && Download(FILES) == RESTORE_DIR;
      RestoreDirKept(before, fs.nodes, plain, file);
      r := Ok(plain);
    }

    /** Unpacks into the restore directory. */
    method Unpack(file: string) returns (ok: bool)
      requires Valid() && IsFile(fs.nodes, Download(file)) && Below(fs.nodes, RESTORE_DIR) == EmptyDir
      modifies fs
      ensures Valid() && OnlyWithin(old(fs.nodes), fs.nodes, DOWNLOAD_DIR)
      ensures ok ==> var t := Unpacked(comp.archiver, file, old(fs.nodes[Download(file)]).content);
                     t.Some? && Below(fs.nodes, RESTORE_DIR) == t.value
      ensures var found := FoundIn(comp.archiver, file, old(fs.nodes[Download(file)]).content);
              fs.faultless && (found.Some? ==> found.value.0 == FILES) ==>
                (ok <==> found.Some? && WellFormed(EmptyDir + found.value.1))
    {
      ghost var before := fs.nodes;
      ghost var archive := FoundIn(comp.archiver, file, before[Download(file)].content);
      if archive.Some? && archive.value.0 == FILES {
        FitsRestoreDir(before, archive.value.1);
        assert Download(FILES) == RESTORE_DIR;
      }
      ok := comp.Decompress(Download(file));
      if ok {
        ghost var found := comp.archiver.unpack(FormatOf(file).value, before[Download(file)].content).value;
        BelowGraft(before, RESTORE_DIR, found.1);
        DownloadsApart(found.0, FILES);
        if found.0 != FILES {
          GraftOnlyWithin(before, Download(found.0), found.1);
          BelowElsewhere(before, fs.nodes, Download(found.0), RESTORE_DIR);
        }
      }
    }

    /** From the downloaded file to the tree in the restore directory. */
    method Extract(file: string) returns (ok: bool)
      requires Valid() && IsFile(fs.nodes, Download(file)) && Below(fs.nodes, RESTORE_DIR) == EmptyDir
      modifies fs
      ensures Valid() && OnlyWithin(old(fs.nodes), fs.nodes, DOWNLOAD_DIR)
      ensures var found := Found(comp.archiver, Key(), file, old(fs.nodes[Download(file)]).content,
                                 Bytes(old(fs.nodes), Download(TrimSuffix(file, SUFFIX))));
              && (ok ==> LaidOut(found).Some? && Below(fs.nodes, RESTORE_DIR) == LaidOut(found).value)
              && (fs.faultless && (found.Some? ==> found.value.0 == FILES) ==>
                    (ok <==> found.Some? && WellFormed(EmptyDir + found.value.1) && Clear(old(fs.nodes), file)))
    {
      ghost var start := fs.nodes;
      var plain := Open(file);
      ghost var deciphered := fs.nodes;
      if plain.Err? {
        return false;
      }
      ok := Unpack(plain.value);
      OnlyWithinTwice(start, deciphered, fs.nodes, DOWNLOAD_DIR);
    }

    /** No directory takes the place of the deciphered file. */
    ghost predicate Clear(t: Tree, file: string) {
      Key().Some? && Ext(file) == SUFFIX ==> !IsDir(t, Download(TrimSuffix(file, SUFFIX)))
    }

    /** Everything of a restore up to the database's own recovery: only downloads are touched. */
    method Stage(name: string) returns (ok: bool)
      requires Valid()
      modifies fs
      ensures Valid() && OnlyWithin(old(fs.nodes), fs.nodes, DOWNLOAD_DIR)
      ensures ok ==>
                && name in bp.store && LaidOut(FoundOn(old(fs.nodes), name)).Some?
                && Below(fs.nodes, RESTORE_DIR) == LaidOut(FoundOn(old(fs.nodes), name)).value
      ensures Faultless() && OfBackupDir(old(fs.nodes), name) ==> (ok <==> Recovers(old(fs.nodes), name))
    {
      ghost var start := fs.nodes;
      var file := DownloadName(name);
      ok := Fetch(name);
      if !ok {
        return;
      }
      if file == FILES {
        // a file downloaded in place of the restore directory has no archive format
        FilesNeverFound(comp.archiver, Key(), bp.store[name].content, Bytes(start, Download(TrimSuffix(file, SUFFIX))));
        return false;
      }
      ghost var fetched := fs.nodes;
      ghost var found := FoundOn(start, name);
      FoundSame(comp.archiver, Key(), file, bp.store[name].content, start, fetched);
      assert found.Some? ==> (Clear(start, file) <==> Clear(fetched, file));
      ok := Extract(file);
      OnlyWithinTwice(start, fetched, fs.nodes, DOWNLOAD_DIR);
    }

    /** Restore: on success the data directory is what the walk reached of the recovered tree; until the database's own
        recovery begins, a failure leaves the data directory as it was. When no call fails it succeeds exactly if the
        version recovers and there is a data directory. */
    method Restore(version: BackupVersion, unlistable: set<Path>) returns (ok: bool, ghost recovering: bool)
      requires Valid()
      modifies fs, this
      ensures Valid() && status == RESTORING
      ensures !recovering ==> !ok && Below(fs.nodes, db.datadir) == Below(old(fs.nodes), db.datadir)
      ensures ok ==>
                && version.name in bp.store
                && var file := DownloadName(version.name);
                   var t := Recovered(comp.archiver, Key(), file, bp.store[version.name].content,
                                      Bytes(old(fs.nodes), Download(TrimSuffix(file, SUFFIX))));
                   t.Some? && Below(fs.nodes, db.datadir) == Reached(t.value, unlistable)
      ensures Faultless() && OfBackupDir(old(fs.nodes), version.name) ==>
                (ok <==> Recovers(old(fs.nodes), version.name) && IsDir(old(fs.nodes), db.datadir))
    {
      recovering := false;
      status := RESTORING;
      ok := Stage(version.name);
      OutsideSidecar(db.datadir, DOWNLOAD_DIR);
      BelowElsewhere(old(fs.nodes), fs.nodes, DOWNLOAD_DIR, db.datadir);
      SourceStays(old(fs.nodes), fs.nodes, db.datadir);
      if ok && Faultless() && OfBackupDir(old(fs.nodes), version.name) {
        RestoreDirThere(fs.nodes, FoundOn(old(fs.nodes), version.name).value.1);
      }
      if ok {
        recovering := true;
        ok := db.Recover(unlistable);
      }
    }

    /** The listing's latest entry; None when nothing is listed. */
    method LatestBackup() returns (r: Result<Option<BackupVersion>>)
      requires Valid()
      ensures r.Ok? && r.value.None? ==> bp.store == map[]
      ensures r.Ok? && r.value.Some? ==> IsLatest(bp.store, r.value.value)
      ensures bp.faultless ==> r.Ok?
    {
      var files := bp.ListBackups();
      if files.None? {
        return Err;
      }
      var versions := List(files.value);
      ghost var listing := versions[..];
      assert |multiset(Unnumbered(listing))| == |listing| && |multiset(Entries(files.value))| == |files.value|;
      var latest := Latest(versions);
      if latest.Some? {
        LatestListed(bp.store, files.value, listing, latest.value);
      }
      r := Ok(latest);
    }

    /** No file is in the way of the two directories. */
    ghost predicate Room(t: Tree) {
      Makeable(t, db.datadir) && Makeable(t, DOWNLOAD_DIR)
    }

    /** The directories and the backup bucket are ensured; no data and no download changes. */
    method PrepareDirs() returns (ok: bool)
      requires Valid()
      modifies fs
      ensures Valid()
      ensures IsDir(old(fs.nodes), db.datadir) ==> Below(fs.nodes, db.datadir) == Below(old(fs.nodes), db.datadir)
      ensures ok ==> Below(fs.nodes, db.datadir) == Made(Below(old(fs.nodes), db.datadir))
                     && forall name :: SameAt(old(fs.nodes), fs.nodes, Download(name))
      ensures ok ==> Room(old(fs.nodes)) && IsDir(fs.nodes, db.datadir) && Makeable(fs.nodes, DOWNLOAD_DIR)
      ensures Faultless() && Room(old(fs.nodes)) ==> ok
    {
      MakeableMore(fs.nodes, db.datadir, DOWNLOAD_DIR);
      RoomAfter(fs.nodes, db.datadir);
      ok := fs.MkdirAll(db.datadir);
      if !ok {
        return;
      }
      ghost var made := fs.nodes;
      MakeDirs(old(fs.nodes), db.datadir);
      MadeIsSame(old(fs.nodes), db.datadir);
      ok := bp.EnsureBackupBucket();
      if !ok {
        return;
      }
      ok := fs.MkdirAll(DOWNLOAD_DIR);
      if ok {
        MakeDirs(made, DOWNLOAD_DIR);
        OutsideSidecar(db.datadir, DOWNLOAD_DIR);
        BelowElsewhere(made, fs.nodes, DOWNLOAD_DIR, db.datadir);
        DownloadsKept(old(fs.nodes), made, fs.nodes, db.datadir);
        SourceStays(made, fs.nodes, db.datadir);
        DirIsMakeable(fs.nodes, DOWNLOAD_DIR);
      }
    }

    /** initialize: it succeeds by keeping a data directory that is not empty, by finding no backup at all for an empty
        one, or by restoring the latest backup to an empty one. Existing data is unchanged, whatever fails. When no call
        fails, what there is decides. */
    method Initialize(unlistable: set<Path>) returns (ok: bool, ghost how: Decision)
      requires Valid() && status != DONE
      modifies fs, this
      ensures Valid() && status != DONE
      ensures HasData(old(fs.nodes)) ==> Below(fs.nodes, db.datadir) == Below(old(fs.nodes), db.datadir)
      ensures ok ==> Room(old(fs.nodes)) && Justified(how, old(fs.nodes), unlistable)
      ensures Faultless() && Room(old(fs.nodes)) ==> Decided(ok, how, old(fs.nodes))
    {
      how := Undecided;
      ghost var start := fs.nodes;
      ok := PrepareDirs();
      if !ok {
        return;
      }
      status := CHECKING;
      var needed;
      ok, needed := db.Check();
      if !ok {
        return;
      }
      if !needed {
        return true, KeptData;
      }
      var latest := LatestBackup();
      if latest.Err? {
        return false, how;
      }
      if latest.value.None? {
        return true, FreshDatabase;
      }
      var version := latest.value.value;
      how := RestoredLatest(version, Bytes(fs.nodes, Download(TrimSuffix(DownloadName(version.name), SUFFIX))));
      if encrypter == null && Ext(version.name) == SUFFIX {
        return false, how;
      }
      SameDownloads(start, fs.nodes, version.name);
      ghost var recovering;
      ok, recovering := Restore(version, unlistable);
    }

    /** The downloads decide whether a version recovers, once the directory can be made. */
    lemma SameDownloads(a: Tree, b: Tree, name: string)
      requires name in bp.store && Makeable(a, DOWNLOAD_DIR) && Makeable(b, DOWNLOAD_DIR)
      requires forall other :: SameAt(a, b, Download(other))
      ensures FoundOn(a, name) == FoundOn(b, name)
      ensures Recovers(a, name) <==> Recovers(b, name)
      ensures OfBackupDir(a, name) <==> OfBackupDir(b, name)
    {
      var plain := TrimSuffix(DownloadName(name), SUFFIX);
      assert SameAt(a, b, Download(plain));
    }

    /** What a start without failing calls makes of the data directory and the provider: data is kept; without data and
        backups the database starts afresh; otherwise one of the latest backups is restored, if it recovers and
        can be deciphered. */
    ghost predicate Decided(ok: bool, how: Decision, before: Tree)
      reads bp
    {
      if Made(Below(before, db.datadir)) != EmptyDir then ok && how == KeptData
      else if bp.store == map[] then ok && how == FreshDatabase
      else
        && how.RestoredLatest? && IsLatest(bp.store, how.version)
        && (OfBackupDir(before, how.version.name) ==>
              (ok <==> Recovers(before, how.version.name) && (Key().None? ==> Ext(how.version.name) != SUFFIX)))
    }

    ghost predicate HasData(before: Tree) {
      IsDir(before, db.datadir) && Below(before, db.datadir) != EmptyDir
    }

    /** What a successful start has established, by its reason. */
    ghost predicate Justified(how: Decision, before: Tree, unlistable: set<Path>)
      reads fs, bp
    {
      var data, found := Below(fs.nodes, db.datadir), Made(Below(before, db.datadir));
      match how
      case Undecided => false
      case KeptData => data == found && found != EmptyDir
      case FreshDatabase => bp.store == map[] && data == found == EmptyDir
      case RestoredLatest(v, leftover) =>
        && found == EmptyDir && IsLatest(bp.store, v) && (Key().None? ==> Ext(v.name) != SUFFIX)
        && leftover == Bytes(before, Download(TrimSuffix(DownloadName(v.name), SUFFIX)))
        && var t := Recovered(comp.archiver, Key(), DownloadName(v.name), bp.store[v.name].content, leftover);
           t.Some? && data == Reached(t.value, unlistable)
    }

    /** Start: the status is DONE exactly when it returns without error, and then no existing backup was passed over
        for an empty data directory. When no call fails, what there is decides. */
    method Start(unlistable: set<Path>) returns (ok: bool, ghost how: Decision)
      requires Valid() && status == CHECKING
      modifies fs, this
      ensures Valid() && (ok <==> status == DONE)
      ensures HasData(old(fs.nodes)) ==> Below(fs.nodes, db.datadir) == Below(old(fs.nodes), db.datadir)
      ensures ok ==> Room(old(fs.nodes)) && Justified(how, old(fs.nodes), unlistable)
      ensures Faultless() && Room(old(fs.nodes)) ==> Decided(ok, how, old(fs.nodes))
    {
      ok, how := Initialize(unlistable);
      if !ok {
        return;
      }
      status := UPGRADING;
      // the localfs upgrade does nothing
      status := DONE;
    }
  }

  lemma DownloadsKept(a: Tree, b: Tree, c: Tree, datadir: Path)
    requires Apart(datadir, SIDECAR_BASE_DIR)
    requires b == WithDirs(a, datadir) && c == WithDirs(b, DOWNLOAD_DIR)
    ensures forall name :: SameAt(a, c, Download(name))
  {
    forall name ensures SameAt(a, c, Download(name)) {
      OutsideSidecar(datadir, Download(name));
      WithDirsKeeps(a, datadir, Download(name));
      WithDirsKeeps(b, DOWNLOAD_DIR, Download(name));
    }
  }

  /** Making the data directory puts no file in the way of the other one. */
  lemma RoomAfter(t: Tree, datadir: Path)
    ensures Makeable(WithDirs(t, datadir), DOWNLOAD_DIR) ==> Makeable(t, DOWNLOAD_DIR)
  {
    var r := WithDirs(t, datadir);
    forall i | 0 <= i <= |DOWNLOAD_DIR|
      ensures var q := DOWNLOAD_DIR[..i]; q in t ==> q in r && r[q] == t[q]
    {
    }
  }

  lemma FilesNeverFound(archiver: Archiver, key: Option<Cipher>, content: seq<byte>, leftover: seq<byte>)
    ensures Found(archiver, key, FILES, content, leftover) == None
  {
    FilesIsNoArchive();
  }

  /** What lies under the decrypted name is there after the download, but for a name that no archive has. */
  lemma FoundSame(archiver: Archiver, key: Option<Cipher>, file: string, content: seq<byte>, a: Tree, b: Tree)
    requires file != FILES && forall other :: other != FILES && other != file ==> SameAt(a, b, Download(other))
    ensures var plain := TrimSuffix(file, SUFFIX);
            && Found(archiver, key, file, content, Bytes(a, Download(plain)))
               == Found(archiver, key, file, content, Bytes(b, Download(plain)))
            && (Ext(file) == SUFFIX && key.Some?
                && Found(archiver, key, file, content, Bytes(a, Download(plain))).Some? ==>
                  (IsDir(a, Download(plain)) <==> IsDir(b, Download(plain))))
  {
    var plain := TrimSuffix(file, SUFFIX);
    FilesIsNoArchive();
    TrimRoundTrip(file);
    if Ext(file) == SUFFIX && plain != FILES {
      assert plain != file;
      assert SameAt(a, b, Download(plain));
    }
  }

  lemma RestoreDirThere(t: Tree, tree: Tree)
    requires Below(t, RESTORE_DIR) == EmptyDir + tree && WellFormed(EmptyDir + tree)
    ensures IsDir(t, RESTORE_DIR)
  {
    InBelow(t, RESTORE_DIR, []);
    assert RESTORE_DIR + [] == RESTORE_DIR;
  }

  lemma FilesIsNoArchive()
    ensures FormatOf(FILES) == None && Ext(FILES) != SUFFIX
  {
    ExtSuffix(FILES);
  }

  lemma OnlyWithinSame(a: Tree, p: Path)
    ensures OnlyWithin(a, a, p)
  {
  }

  lemma TwoDownloads(a: Tree, b: Tree, x: string, y: string)
    requires a - {Download(x), Download(y)} == b - {Download(x), Download(y)}
    ensures OnlyWithin(a, b, DOWNLOAD_DIR)
  {
    var gone := {Download(x), Download(y)};
    forall q | Apart(q, DOWNLOAD_DIR) ensures SameAt(a, b, q) {
      assert q in a <==> q in a - gone;
      assert q in b <==> q in b - gone;
      assert q in a ==> a[q] == (a - gone)[q] && b[q] == (b - gone)[q];
    }
  }

  lemma RestoreDirKept(a: Tree, b: Tree, x: string, y: string)
    requires a - {Download(x), Download(y)} == b - {Download(x), Download(y)} && x != FILES && y != FILES
    ensures Below(a, RESTORE_DIR) == Below(b, RESTORE_DIR)
  {
    var gone := {Download(x), Download(y)};
    forall q ensures SameAt(Below(a, RESTORE_DIR), Below(b, RESTORE_DIR), q) {
      InBelow(a, RESTORE_DIR, q);
      InBelow(b, RESTORE_DIR, q);
      var p := RESTORE_DIR + q;
      assert p[2] == FILES && Download(x)[2] == x && Download(y)[2] == y;
      assert p in a <==> p in a - gone;
      assert p in b <==> p in b - gone;
      assert p in a ==> a[p] == (a - gone)[p] && b[p] == (b - gone)[p];
    }
    SameEverywhere(Below(a, RESTORE_DIR), Below(b, RESTORE_DIR));
  }
}
