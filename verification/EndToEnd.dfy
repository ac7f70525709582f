/** A backup followed by a restore, across a change of configuration in between. */
module EndToEnd {
  import opened FileTree
  import opened Os
  import opened Ctr
  import opened Decimal
  import opened Encryption
  import opened Files
  import opened Layout
  import opened LocalFs
  import opened Compress
  import opened Versions
  import opened LocalProvider
  import opened Backup
  import Initializer

  /** No output is opened over a longer file: neither the sealed archive, over what the data directory
      itself holds under that name, nor the decrypted download, over an earlier one. */
  predicate NothingLonger(archiver: Archiver, ext: string, tree: Tree, slot: string, leftover: seq<byte>) {
    var archive := archiver.pack(ext, FILES, Archived(tree, slot + ext));
    |Bytes(tree, [slot + ext + SUFFIX])| <= |archive| + BLOCK_SIZE && |leftover| <= |archive|
  }

  /** What is deciphered of an encrypted backup is the archive exactly when nothing longer was in the way. */
  lemma DecipheredIsArchive(archiver: Archiver, ext: string, cipher: Cipher, iv: Block,
                            tree: Tree, slot: string, leftover: seq<byte>)
    ensures var content := Uploaded(archiver, ext, Some(cipher), iv, tree, slot);
            && |content| >= BLOCK_SIZE
            && (Splice(leftover, 0, Unsealed(cipher, content)) == archiver.pack(ext, FILES, Archived(tree, slot + ext))
                <==> NothingLonger(archiver, ext, tree, slot, leftover))
  {
    RoundTrip(cipher, iv, archiver.pack(ext, FILES, Archived(tree, slot + ext)),
              Bytes(tree, [slot + ext + SUFFIX]), leftover);
  }

  lemma ArchivedAll(tree: Tree, file: string)
    requires WellFormed(tree)
    ensures Archived(tree, file) == tree <==> [file] !in tree
    ensures IsDir(Archived(tree, file), [])
  {
    assert [file] !in Archived(tree, file);
    if [file] !in tree {
      forall q | q in tree ensures !([file] <= q) {
        if q != [] {
          NameAbove(tree, [], q);
          NameOf(tree, [], q[0]);
          assert [] + [q[0]] == [q[0]];
        }
      }
      assert Archived(tree, file).Keys == tree.Keys;
    }
  }

  /** An archive under its plain name unpacks to what was archived. */
  lemma ArchiveUnpacks(archiver: Archiver, ext: string, tree: Tree, slot: string)
    requires Sound(archiver) && ext in EXTENSIONS && WellFormed(tree)
    ensures var archived := Archived(tree, slot + ext);
            && Initializer.FoundIn(archiver, slot + ext, archiver.pack(ext, FILES, archived)) == Some((FILES, archived))
            && EmptyDir + archived == archived
  {
    var archived := Archived(tree, slot + ext);
    ArchivedAll(tree, slot + ext);
    FormatOfName(slot, ext);
    assert EmptyDir + archived == archived;
    assert archiver.unpack(ext, archiver.pack(ext, FILES, archived)) == Some((FILES, archived));
  }

  /** A stored backup recovers, under any later compression method and with encryption kept or switched
      on meanwhile, to the copied tree without its entry named like the archive file: so to the
      copied tree exactly when there is no such entry. */
  lemma StoredRecovers(archiver: Archiver, ext: string, key: Option<Cipher>, later: Option<Cipher>,
                       iv: Block, tree: Tree, slot: string, leftover: seq<byte>)
    requires Sound(archiver) && ext in EXTENSIONS && WellFormed(tree)
    requires key.Some? ==> later == key && NothingLonger(archiver, ext, tree, slot, leftover)
    ensures var t := Initializer.Recovered(archiver, later, slot + ProviderSuffix(ext, key.Some?),
                                           Uploaded(archiver, ext, key, iv, tree, slot), leftover);
            && t == Some(Archived(tree, slot + ext))
            && (t == Some(tree) <==> [slot + ext] !in tree)
  {
    StoredFound(archiver, ext, key, later, iv, tree, slot, leftover);
    ArchiveUnpacks(archiver, ext, tree, slot);
    ArchivedAll(tree, slot + ext);
  }

  /** The archive that is found in a stored backup is that of the copied tree. */
  lemma StoredFound(archiver: Archiver, ext: string, key: Option<Cipher>, later: Option<Cipher>,
                    iv: Block, tree: Tree, slot: string, leftover: seq<byte>)
    requires Sound(archiver) && ext in EXTENSIONS && WellFormed(tree)
    requires key.Some? ==> later == key && NothingLonger(archiver, ext, tree, slot, leftover)
    ensures Initializer.Found(archiver, later, slot + ProviderSuffix(ext, key.Some?),
                              Uploaded(archiver, ext, key, iv, tree, slot), leftover)
            == Some((FILES, Archived(tree, slot + ext)))
  {
    if key.Some? {
      SealedFound(archiver, ext, key.value, iv, tree, slot, leftover);
      assert slot + ProviderSuffix(ext, true) == slot + ext + SUFFIX;
    } else {
      PlainFound(archiver, ext, later, tree, slot, leftover);
      assert slot + ProviderSuffix(ext, false) == slot + ext;
    }
  }

  lemma PlainFound(archiver: Archiver, ext: string, later: Option<Cipher>, tree: Tree, slot: string,
                   leftover: seq<byte>)
    requires Sound(archiver) && ext in EXTENSIONS && WellFormed(tree)
    ensures var archived := Archived(tree, slot + ext);
            Initializer.Found(archiver, later, slot + ext, archiver.pack(ext, FILES, archived), leftover)
            == Some((FILES, archived))
  {
    ArchiveUnpacks(archiver, ext, tree, slot);
    FormatOfName(slot, ext);
  }

  lemma SealedFound(archiver: Archiver, ext: string, cipher: Cipher, iv: Block, tree: Tree, slot: string,
                    leftover: seq<byte>)
    requires Sound(archiver) && ext in EXTENSIONS && WellFormed(tree)
    requires NothingLonger(archiver, ext, tree, slot, leftover)
    ensures var content := Uploaded(archiver, ext, Some(cipher), iv, tree, slot);
            Initializer.Found(archiver, Some(cipher), slot + ext + SUFFIX, content, leftover)
            == Some((FILES, Archived(tree, slot + ext)))
  {
    ArchiveUnpacks(archiver, ext, tree, slot);
    TrimRoundTrip(slot + ext);
    DecipheredIsArchive(archiver, ext, cipher, iv, tree, slot, leftover);
  }

  /** A data directory with a file named like the archive comes back without it. */
  lemma ArchiveNameIsLost(archiver: Archiver, iv: Block)
    requires Sound(archiver)
    ensures var file := "0.tar.gz";
            var tree: Tree := map[[] := Dir, [file] := File([1])];
            Initializer.Recovered(archiver, None, file, Uploaded(archiver, ".tar.gz", None, iv, tree, "0"), [])
            == Some(map[[] := Dir])
  {
    var file := "0.tar.gz";
    var tree: Tree := map[[] := Dir, [file] := File([1])];
    assert WellFormed(tree) by {
      assert [file][..0] == [];
    }
    assert "0" + ".tar.gz" == file && file + "" == file;
    StoredRecovers(archiver, ".tar.gz", None, None, iv, tree, "0", []);
    assert Archived(tree, file) == map[[] := Dir];
  }

  lemma SlotDownloadName(slot: nat, ext: string, encrypted: bool)
    requires ext in EXTENSIONS
    ensures var file := Format(slot) + ProviderSuffix(ext, encrypted);
            Initializer.DownloadName(file) == file
  {
    var file := Format(slot) + ProviderSuffix(ext, encrypted);
    assert '/' !in Format(slot);
    assert '/' !in ProviderSuffix(ext, encrypted);
    assert '/' !in file;
  }

  /** Nothing got lost on the way of a tree through a backup and a restore: it held no top-level entry named like
      the archive file, and no directory that could not be listed, at the backup or at the restore, had entries. */
  ghost predicate NothingLost(tree: Tree, file: string, unlisted: set<Path>, unlistedLater: set<Path>) {
    && [file] !in tree
    && (forall u :: u in unlisted ==> Names(tree, u) == {})
    && (forall u :: u in unlistedLater ==> Names(tree, u) == {})
  }

  ghost predicate PartOf(a: Tree, b: Tree) {
    forall q :: q in a ==> q in b && a[q] == b[q]
  }

  lemma WholeOfPart(a: Tree, b: Tree, c: Tree)
    requires PartOf(a, b) && PartOf(b, c)
    ensures PartOf(a, c) && (a == c ==> b == c)
  {
    if a == c {
      assert b.Keys == c.Keys;
    }
  }

  /** What comes back is the old tree exactly when nothing got lost. */
  lemma CameBack(tree: Tree, file: string, unlisted: set<Path>, unlistedLater: set<Path>)
    requires WellFormed(tree)
    ensures Reached(Archived(Reached(tree, unlisted), file), unlistedLater) == tree
            <==> NothingLost(tree, file, unlisted, unlistedLater)
  {
    var copied := Reached(tree, unlisted);
    var archived := Archived(copied, file);
    var back := Reached(archived, unlistedLater);
    ReachedAll(tree, unlisted);
    ReachedAll(tree, unlistedLater);
    ReachedWellFormed(tree, unlisted);
    ArchivedAll(copied, file);
    assert PartOf(back, archived) && PartOf(archived, copied) && PartOf(copied, tree);
    WholeOfPart(back, archived, copied);
    WholeOfPart(back, copied, tree);
    if back == tree {
      assert copied == tree && archived == tree;
    }
  }

  /** The disk takes a download: no file is in the way of the directory, and no directory in that of a deciphered
      file. */
  predicate Accepts(t: Tree, key: Option<Cipher>, file: string) {
    Makeable(t, DOWNLOAD_DIR) && (key.Some? ==> !IsDir(t, Initializer.Download(file)))
  }

  /** One process backs up, the data directory comes to hold any other data, and a process with another compression
      method, and with encryption kept or switched on, restores that version. With nothing longer in the
      way, the data directory is then what it was at the backup, exactly when nothing got lost. */
  method BackupChangeRestore(b: Backuper, ext: string, encrypter: Encrypter?, keep: int, data: Tree, now: int,
                             unlisted: set<Path>, unlistedLater: set<Path>)
    returns (ok: bool, ghost slot: string)
    requires b.Valid() && !b.sem.held && Sound(b.comp.archiver) && ext in EXTENSIONS
    requires IsDir(b.fs.nodes, b.db.datadir) && WellFormed(data)
    requires encrypter != null ==> encrypter.fs == b.fs
    requires b.encrypter != null ==> encrypter != null && encrypter.cipher == b.encrypter.cipher
    requires b.encrypter != null ==>
               var s := Format(b.bp.nextBackupCount);
               NothingLonger(b.comp.archiver, b.comp.extension, Reached(Below(b.fs.nodes, b.db.datadir), unlisted), s,
                             Bytes(b.fs.nodes, Initializer.Download(s + b.comp.extension)))
    modifies b.fs, b.bp, b.sem
    ensures slot == Format(old(b.bp.nextBackupCount))
    ensures ok ==> (Below(b.fs.nodes, b.db.datadir) == old(Below(b.fs.nodes, b.db.datadir))
                    <==> NothingLost(old(Below(b.fs.nodes, b.db.datadir)), slot + b.comp.extension,
                                     unlisted, unlistedLater))
    ensures b.fs.faultless && b.bp.faultless ==>
              (ok <==> b.CanBackUp(old(b.fs.nodes), unlisted, old(b.bp.nextBackupCount))
                       && Accepts(old(b.fs.nodes), b.Key(), slot + b.comp.extension))
  {
    var fs, db := b.fs, b.db;
    ghost var start, tree := fs.nodes, Below(fs.nodes, db.datadir);
    slot := Format(b.bp.nextBackupCount);
    BelowWellFormed(start, db.datadir);
    ReachedWellFormed(tree, unlisted);
    var outcome, iv := b.CreateBackup(unlisted, now);
    if outcome != Done {
      return false, slot;
    }
    ghost var backedUp, copied := fs.nodes, Reached(tree, unlisted);
    var file := b.bp.currentBackupName + b.bp.suffix;
    assert file in b.bp.store;
    ghost var content := b.bp.store[file].content;
    assert content == Uploaded(b.comp.archiver, b.comp.extension, b.Key(), iv, copied, slot);

    OutsideSidecar(db.datadir, BACKUP_DIR);
    assert SameAt(start, backedUp, db.datadir);
    ReplaceData(backedUp, db.datadir, data);
    ReplacedIsDir(backedUp, db.datadir, data);
    fs.nodes := Graft(Without(fs.nodes, db.datadir), db.datadir, data);

    var bp := new BackupProviderLocal(keep, ProviderSuffix(ext, encrypter != null), b.bp.store, b.bp.faultless);
    if fs.faultless && b.bp.faultless {
      AcceptsLater(start, backedUp, fs.nodes, db.datadir, b.Key(), slot + b.comp.extension);
    }
    ok := RestoreLater(fs, db, bp, b.comp.archiver, ext, encrypter, file, unlistedLater,
                       b.comp.extension, b.Key(), iv, copied, old(b.bp.nextBackupCount), start, backedUp);
    CameBack(tree, slot + b.comp.extension, unlisted, unlistedLater);
  }

  /** The restoring process: the version found in the directory goes back to what was archived. */
  method RestoreLater(fs: FileSystem, db: LocalFS, bp: BackupProviderLocal, archiver: Archiver, ext: string,
                      encrypter: Encrypter?, file: string, unlistable: set<Path>, ghost oldExt: string,
                      ghost key: Option<Cipher>, ghost iv: Block, ghost tree: Tree, ghost slot: nat,
                      ghost start: Tree, ghost backedUp: Tree)
    returns (ok: bool)
    requires fs.Valid() && bp.Valid() && db.fs == fs && Apart(db.datadir, SIDECAR_BASE_DIR)
    requires Sound(archiver) && ext in EXTENSIONS && oldExt in EXTENSIONS && WellFormed(tree)
    requires encrypter != null ==> encrypter.fs == fs
    requires key.Some? ==> encrypter != null && encrypter.cipher == key.value
    requires file == Format(slot) + ProviderSuffix(oldExt, key.Some?) && file in bp.store
    requires bp.store[file].content == Uploaded(archiver, oldExt, key, iv, tree, Format(slot))
    requires OnlyWithin(start, backedUp, BACKUP_DIR) && OnlyWithin(backedUp, fs.nodes, db.datadir)
    requires key.Some? ==> NothingLonger(archiver, oldExt, tree, Format(slot),
                                         Bytes(start, Initializer.Download(Format(slot) + oldExt)))
    modifies fs
    ensures ok ==> Below(fs.nodes, db.datadir) == Reached(Archived(tree, Format(slot) + oldExt), unlistable)
    ensures fs.faultless && bp.faultless && IsDir(old(fs.nodes), db.datadir) ==>
              (ok <==> Accepts(old(fs.nodes), key, Format(slot) + oldExt))
  {
    LaterRecovers(archiver, oldExt, key, if encrypter == null then None else Some(encrypter.cipher), iv,
                  tree, slot, start, backedUp, fs.nodes, db.datadir);
    StoredNames(oldExt, key, slot);
    ArchivedWellFormed(tree, Format(slot) + oldExt);
    var comp := new Compressor(fs, archiver, ext);
    var init := new Initializer.Initializer(fs, db, bp, comp, encrypter);
    ghost var recovering;
    ok, recovering := init.Restore(BackupVersion(file, "", 0), unlistable);
  }

  /** The purpose of the sidecar: one process backs up, the data is lost, and the start of the next process, under any
      compression method and with encryption kept or switched on, brings it back without being told a
      version, exactly when nothing got lost on the way. */
  method BackupLossStart(b: Backuper, ext: string, encrypter: Encrypter?, keep: int, now: int,
                         unlisted: set<Path>, unlistedLater: set<Path>)
    returns (ok: bool, ghost slot: string)
    requires b.Valid() && !b.sem.held && Sound(b.comp.archiver) && ext in EXTENSIONS
    requires IsDir(b.fs.nodes, b.db.datadir)
    requires forall name :: name in b.bp.store ==> b.bp.store[name].modTime < now
    requires encrypter != null ==> encrypter.fs == b.fs
    requires b.encrypter != null ==> encrypter != null && encrypter.cipher == b.encrypter.cipher
    requires b.encrypter != null ==>
               var s := Format(b.bp.nextBackupCount);
               NothingLonger(b.comp.archiver, b.comp.extension, Reached(Below(b.fs.nodes, b.db.datadir), unlisted), s,
                             Bytes(b.fs.nodes, Initializer.Download(s + b.comp.extension)))
    modifies b.fs, b.bp, b.sem
    ensures slot == Format(old(b.bp.nextBackupCount))
    ensures ok ==> (Below(b.fs.nodes, b.db.datadir) == old(Below(b.fs.nodes, b.db.datadir))
                    <==> NothingLost(old(Below(b.fs.nodes, b.db.datadir)), slot + b.comp.extension,
                                     unlisted, unlistedLater))
    ensures b.fs.faultless && b.bp.faultless ==>
              (ok <==> b.CanBackUp(old(b.fs.nodes), unlisted, old(b.bp.nextBackupCount))
                       && Accepts(old(b.fs.nodes), b.Key(), slot + b.comp.extension))
  {
    var fs, db := b.fs, b.db;
    ghost var start, tree := fs.nodes, Below(fs.nodes, db.datadir);
    slot := Format(b.bp.nextBackupCount);
    BelowWellFormed(start, db.datadir);
    ReachedWellFormed(tree, unlisted);
    ghost var store, copied := b.bp.store, Reached(tree, unlisted);
    var outcome, iv := b.CreateBackup(unlisted, now);
    if outcome != Done {
      return false, slot;
    }
    ghost var file, backedUp := b.bp.currentBackupName + b.bp.suffix, fs.nodes;
    ghost var content := Uploaded(b.comp.archiver, b.comp.extension, b.Key(), iv, copied, slot);
    assert b.bp.store == store[file := Object(content, now)];

    var lost := fs.RemoveAll(db.datadir);
    if !lost {
      return false, slot;
    }
    WithoutBelow(backedUp, db.datadir);
    OutsideSidecar(db.datadir, BACKUP_DIR);
    assert SameAt(start, backedUp, db.datadir);

    var bp := new BackupProviderLocal(keep, ProviderSuffix(ext, encrypter != null), b.bp.store, b.bp.faultless);
    if fs.faultless && b.bp.faultless {
      AcceptsLater(start, backedUp, fs.nodes, db.datadir, b.Key(), slot + b.comp.extension);
      LostIsMakeable(backedUp, db.datadir);
    }
    ok := StartLater(fs, db, bp, b.comp.archiver, ext, encrypter, unlistedLater, file, now,
                     b.comp.extension, b.Key(), iv, copied, old(b.bp.nextBackupCount), start, backedUp);
    CameBack(tree, slot + b.comp.extension, unlisted, unlistedLater);
  }

  /** The starting process: its data directory is empty and the newest file of the provider is the stored one. */
  method StartLater(fs: FileSystem, db: LocalFS, bp: BackupProviderLocal, archiver: Archiver, ext: string,
                    encrypter: Encrypter?, unlistable: set<Path>, ghost file: string, ghost now: int,
                    ghost oldExt: string, ghost key: Option<Cipher>, ghost iv: Block, ghost tree: Tree, ghost slot: nat,
                    ghost start: Tree, ghost backedUp: Tree)
    returns (ok: bool)
    requires fs.Valid() && bp.Valid() && db.fs == fs && Apart(db.datadir, SIDECAR_BASE_DIR)
    requires Sound(archiver) && ext in EXTENSIONS && oldExt in EXTENSIONS && WellFormed(tree)
    requires encrypter != null ==> encrypter.fs == fs
    requires key.Some? ==> encrypter != null && encrypter.cipher == key.value
    requires file == Format(slot) + ProviderSuffix(oldExt, key.Some?) && file in bp.store
    requires bp.store[file] == Object(Uploaded(archiver, oldExt, key, iv, tree, Format(slot)), now)
    requires forall name :: name in bp.store && name != file ==> bp.store[name].modTime < now
    requires OnlyWithin(start, backedUp, BACKUP_DIR) && OnlyWithin(backedUp, fs.nodes, db.datadir)
    requires Below(fs.nodes, db.datadir) == map[]
    requires key.Some? ==> NothingLonger(archiver, oldExt, tree, Format(slot),
                                         Bytes(start, Initializer.Download(Format(slot) + oldExt)))
    modifies fs
    ensures ok ==> Below(fs.nodes, db.datadir) == Reached(Archived(tree, Format(slot) + oldExt), unlistable)
    ensures fs.faultless && bp.faultless && Makeable(old(fs.nodes), db.datadir) ==>
              (ok <==> Accepts(old(fs.nodes), key, Format(slot) + oldExt))
  {
    LaterRecovers(archiver, oldExt, key, if encrypter == null then None else Some(encrypter.cipher), iv,
                  tree, slot, start, backedUp, fs.nodes, db.datadir);
    StoredNames(oldExt, key, slot);
    ArchivedWellFormed(tree, Format(slot) + oldExt);
    var comp := new Compressor(fs, archiver, ext);
    var init := new Initializer.Initializer(fs, db, bp, comp, encrypter);
    ghost var how;
    ok, how := init.Start(unlistable);
    if ok {
      assert how.RestoredLatest? && how.version.name == file;
    }
  }

  /** What the stored bytes recover to on the changed disk. */
  lemma LaterRecovers(archiver: Archiver, ext: string, key: Option<Cipher>, later: Option<Cipher>, iv: Block,
                      tree: Tree, slot: nat, start: Tree, backedUp: Tree, changed: Tree, datadir: Path)
    requires Sound(archiver) && ext in EXTENSIONS && WellFormed(tree) && Apart(datadir, SIDECAR_BASE_DIR)
    requires OnlyWithin(start, backedUp, BACKUP_DIR) && OnlyWithin(backedUp, changed, datadir)
    requires key.Some? ==>
               later == key
               && NothingLonger(archiver, ext, tree, Format(slot),
                                Bytes(start, Initializer.Download(Format(slot) + ext)))
    ensures var file := Format(slot) + ProviderSuffix(ext, key.Some?);
            var leftover := Bytes(changed, Initializer.Download(TrimSuffix(file, SUFFIX)));
            && Initializer.DownloadName(file) == file
            && Initializer.Recovered(archiver, later, file,
                                     Uploaded(archiver, ext, key, iv, tree, Format(slot)), leftover)
               == Some(Archived(tree, Format(slot) + ext))
            && Initializer.Found(archiver, later, file, Uploaded(archiver, ext, key, iv, tree, Format(slot)), leftover)
               == Some((FILES, Archived(tree, Format(slot) + ext)))
  {
    var file := Format(slot) + ProviderSuffix(ext, key.Some?);
    var leftover := Bytes(changed, Initializer.Download(TrimSuffix(file, SUFFIX)));
    LeftoverKept(start, backedUp, changed, datadir, Format(slot) + ext);
    SlotDownloadName(slot, ext, key.Some?);
    if key.Some? {
      TrimRoundTrip(Format(slot) + ext);
      assert file == (Format(slot) + ext) + SUFFIX;
    }
    StoredRecovers(archiver, ext, key, later, iv, tree, Format(slot), leftover);
    StoredFound(archiver, ext, key, later, iv, tree, Format(slot), leftover);
  }

  /** The names: what is sealed has the suffix, and without it the name of the archive. */
  lemma StoredNames(ext: string, key: Option<Cipher>, slot: nat)
    requires ext in EXTENSIONS
    ensures var file := Format(slot) + ProviderSuffix(ext, key.Some?);
            (Ext(file) == SUFFIX <==> key.Some?) && TrimSuffix(file, SUFFIX) == Format(slot) + ext
  {
    var file := Format(slot) + ProviderSuffix(ext, key.Some?);
    FormatOfName(Format(slot), ext);
    TrimRoundTrip(Format(slot) + ext);
    if key.Some? {
      assert file == (Format(slot) + ext) + SUFFIX;
    } else {
      assert file == Format(slot) + ext;
    }
  }

  lemma ArchivedWellFormed(tree: Tree, file: string)
    requires WellFormed(tree)
    ensures WellFormed(EmptyDir + Archived(tree, file))
  {
    WithoutWellFormed(tree, [file]);
    assert EmptyDir + Archived(tree, file) == Archived(tree, file);
  }

  /** What a disk accepts is not changed by a backup, nor by anything in the data directory. */
  lemma AcceptsLater(start: Tree, backedUp: Tree, changed: Tree, datadir: Path, key: Option<Cipher>, file: string)
    requires OnlyWithin(start, backedUp, BACKUP_DIR) && OnlyWithin(backedUp, changed, datadir)
    requires Apart(datadir, SIDECAR_BASE_DIR) && Makeable(start, UPLOAD_DIR)
    requires WellFormed(backedUp) && IsDir(backedUp, BACKUP_DIR) && WellFormed(changed)
    ensures Accepts(start, key, file) <==> Accepts(changed, key, file)
  {
    var download := Initializer.Download(file);
    DirsAbove(backedUp, BACKUP_DIR, SIDECAR_BASE_DIR);
    OutsideSidecar(datadir, DOWNLOAD_DIR);
    OutsideSidecar(datadir, download);
    assert DOWNLOAD_DIR[1] != BACKUP_DIR[1] && download[1] != BACKUP_DIR[1];
    assert SameAt(start, backedUp, DOWNLOAD_DIR) && SameAt(backedUp, changed, DOWNLOAD_DIR);
    assert SameAt(start, backedUp, download) && SameAt(backedUp, changed, download);
    assert SameAt(backedUp, changed, SIDECAR_BASE_DIR);
    ThreePrefixes(start);
    ThreePrefixes(changed);
    assert UPLOAD_DIR[..1] == SIDECAR_BASE_DIR && UPLOAD_DIR[..0] == [];
  }

  lemma LostIsMakeable(t: Tree, dir: Path)
    requires WellFormed(t) && IsDir(t, dir) && dir != []
    ensures Makeable(Without(t, dir), dir)
  {
    assert HasParent(t, dir);
    EmptyDirIsReady(t, dir[..|dir| - 1]);
    MakeableAgain(t, dir);
  }

  lemma ReplacedIsDir(t: Tree, dir: Path, data: Tree)
    requires WellFormed(data)
    ensures IsDir(Graft(Without(t, dir), dir, data), dir)
  {
    InGraft(Without(t, dir), dir, data, dir);
    assert dir[|dir|..] == [];
  }

  lemma ThreePrefixes(t: Tree)
    ensures Makeable(t, DOWNLOAD_DIR) <==>
              ([] in t ==> t[[]].Dir?) && (SIDECAR_BASE_DIR in t ==> t[SIDECAR_BASE_DIR].Dir?)
              && (DOWNLOAD_DIR in t ==> t[DOWNLOAD_DIR].Dir?)
  {
    assert DOWNLOAD_DIR[..0] == [] && DOWNLOAD_DIR[..1] == SIDECAR_BASE_DIR && DOWNLOAD_DIR[..2] == DOWNLOAD_DIR;
  }

  /** A restore fails, its process ends, and another one of any configuration starts. When that start succeeds, it
      has kept what was left in the data directory if and only if something was, whatever it is; into an empty one
      it has restored the latest backup if and only if there is one. */
  method FailedRestoreThenStart(first: Initializer.Initializer, version: BackupVersion, ext: string,
                                encrypter: Encrypter?, keep: int, unlisted: set<Path>, unlistedLater: set<Path>)
    returns (restored: bool, ok: bool, ghost left: Tree, ghost recovering: bool, ghost how: Initializer.Decision)
    requires first.Valid() && ext in EXTENSIONS && (encrypter != null ==> encrypter.fs == first.fs)
    modifies first, first.fs
    ensures !recovering ==> left == old(Below(first.fs.nodes, first.db.datadir))
    ensures !restored && ok ==>
              var found, data := Initializer.Made(left), Below(first.fs.nodes, first.db.datadir);
              && (how.KeptData? <==> found != EmptyDir) && (how.KeptData? ==> data == found)
              && (how.RestoredLatest? <==> found == EmptyDir && first.bp.store != map[])
  {
    restored, recovering := first.Restore(version, unlisted);
    left, ok, how := Below(first.fs.nodes, first.db.datadir), false, Initializer.Undecided;
    if restored {
      return;
    }
    var bp := new BackupProviderLocal(keep, ProviderSuffix(ext, encrypter != null), first.bp.store, first.bp.faultless);
    var comp := new Compressor(first.fs, first.comp.archiver, ext);
    var next := new Initializer.Initializer(first.fs, first.db, bp, comp, encrypter);
    ok, how := next.Start(unlistedLater);
  }

  /** Such a leftover: the copy of two files into a cleared directory that fails at the second one has left
      something that is neither empty nor the whole. */
  lemma HalfCopied()
    ensures var source: Tree := map[[] := Dir, ["a"] := File([1]), ["b"] := File([2])];
            var left: Tree := map[[] := Dir, ["a"] := File([1])];
            && WellFormed(source) && StoppedAt(source, EmptyDir, [], left, left, ["b"])
            && Initializer.Made(left) == left && left != EmptyDir && left != source
  {
    var source: Tree := map[[] := Dir, ["a"] := File([1]), ["b"] := File([2])];
    var left: Tree := map[[] := Dir, ["a"] := File([1])];
    assert ["a"][..0] == [] && ["b"][..0] == [];
    assert ["a"][0] == "a" && ["b"][0] == "b" && "a"[0] != "b"[0];
    assert ["a"] in left && ["a"] !in EmptyDir;
    assert ["b"] in source && ["b"] !in left;
    forall q ensures SameAt(Graft(EmptyDir, [], left), left, q) {
      InGraft(EmptyDir, [], left, q);
      assert q[0..] == q;
    }
    SameEverywhere(Graft(EmptyDir, [], left), left);
  }

  lemma ReplaceData(t: Tree, p: Path, data: Tree)
    requires WellFormed(t) && IsDir(t, p) && p != [] && WellFormed(data)
    ensures WellFormed(Graft(Without(t, p), p, data))
    ensures OnlyWithin(t, Graft(Without(t, p), p, data), p)
  {
    var kept := Without(t, p);
    var r := Graft(kept, p, data);
    WithoutBelow(t, p);
    GraftOnlyWithin(kept, p, data);
    OnlyWithinTwice(t, kept, r, p);
    assert HasParent(t, p);
    InGraft(kept, p, data, []);
    forall q | q in r ensures HasParent(r, q) {
      InGraft(kept, p, data, q);
      if q != [] {
        var parent := q[..|q| - 1];
        InGraft(kept, p, data, parent);
        if p < q {
          assert HasParent(data, q[|p|..]);
          assert p <= parent && parent[|p|..] == q[|p|..][..|q| - |p| - 1];
        } else if p == q {
          assert !(p <= parent);
        } else {
          assert HasParent(t, q);
          assert !(p <= parent);
        }
      }
    }
  }

  lemma LeftoverKept(a: Tree, b: Tree, c: Tree, datadir: Path, name: string)
    requires OnlyWithin(a, b, BACKUP_DIR) && OnlyWithin(b, c, datadir) && Apart(datadir, SIDECAR_BASE_DIR)
    ensures Bytes(a, Initializer.Download(name)) == Bytes(c, Initializer.Download(name))
  {
    var p := Initializer.Download(name);
    assert p[1] != BACKUP_DIR[1];
    OutsideSidecar(datadir, p);
    assert SameAt(a, b, p) && SameAt(b, c, p);
  }
}
