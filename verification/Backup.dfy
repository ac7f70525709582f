/** Taking a backup (cmd/internal/backup/backup.go). */
module Backup {
  import opened FileTree
  import opened Os
  import opened Ctr
  import opened Decimal
  import opened Encryption
  import opened Files
  import opened Layout
  import opened LocalFs
  import opened Compress
  import opened LocalProvider

  datatype Outcome = Done | AlreadyInProgress | Failed

  /** A weighted semaphore of weight one. */
  class Semaphore {
    var held: bool

    constructor ()
      ensures !held
    {
      held := false;
    }

    method TryAcquire() returns (ok: bool)
      modifies this
      ensures held && ok == !old(held)
    {
      ok := !held;
      held := true;
    }

    method Release()
      requires held
      modifies this
      ensures !held
    {
      held := false;
    }
  }

  /** What is archived of a copied tree: its entry named like the archive file is removed first. */
  function Archived(tree: Tree, file: string): Tree {
    Without(tree, [file])
  }

  /** The bytes that are uploaded for a copied tree, given the slot name. */
  function Uploaded(archiver: Archiver, ext: string, key: Option<Cipher>,
                    iv: Block, tree: Tree, slot: string): seq<byte>
  {
    var archive := archiver.pack(ext, FILES, Archived(tree, slot + ext));
    match key
    case None => archive
    case Some(cipher) => Splice(Bytes(tree, [slot + ext + SUFFIX]), 0, Sealed(cipher, iv, archive))
  }

  /** The suffix the provider is configured with, composed in cmd/main.go. */
  function ProviderSuffix(ext: string, encrypted: bool): string {
    ext + if encrypted then SUFFIX else ""
  }

  /** What a failed attempt leaves of the ring: no change, a skipped attempt, or a torn one. */
  ghost predicate LeftBehind(n: nat, suffix: string, before: Ring, after: Ring, now: int) {
    || after == before
    || (n > 0 && exists a: Attempt :: (a.Skipped? || (a.Torn? && a.time == now)) && after == Step(n, suffix, before, a))
  }

  lemma BelowWithout(t: Tree, p: Path, q: Path)
    ensures Below(Without(t, p + q), p) == Without(Below(t, p), q)
  {
    var l, r := Below(Without(t, p + q), p), Without(Below(t, p), q);
    forall x ensures SameAt(l, r, x) {
      InBelow(t, p, x);
      InBelow(Without(t, p + q), p, x);
      assert p + q <= p + x <==> q <= x by {
        assert (p + x)[|p|..] == x && (p + q)[|p|..] == q;
        if q <= x {
          assert p + x == (p + q) + x[|q|..];
        }
      }
    }
    SameEverywhere(l, r);
  }

  lemma WithinDir(a: Tree, b: Tree, dir: Path, name: string, other: string)
    requires a - {dir + [name], dir + [other]} == b - {dir + [name], dir + [other]}
    ensures OnlyWithin(a, b, dir)
  {
    var gone := {dir + [name], dir + [other]};
    forall x | Apart(x, dir) ensures SameAt(a, b, x) {
      assert x in a <==> x in a - gone;
      assert x in b <==> x in b - gone;
      assert x in a ==> a[x] == (a - gone)[x] && b[x] == (b - gone)[x];
    }
  }

  /** The sealed file is opened over what the copied tree holds under that name. */
  lemma PriorSealed(before: Tree, packed: Tree, name: string, content: Node)
    requires packed == Without(before, BACKUP_DIR + [name])[BACKUP_DIR + [name] := content]
    ensures Bytes(packed, BACKUP_DIR + [name + SUFFIX]) == Bytes(Below(before, BACKUP_DIR), [name + SUFFIX])
  {
    var out, sealed := BACKUP_DIR + [name], BACKUP_DIR + [name + SUFFIX];
    assert out[3] != sealed[3] && !(out <= sealed);
    InBelow(before, BACKUP_DIR, [name + SUFFIX]);
  }

  lemma SealedInWay(before: Tree, packed: Tree, name: string, content: Node)
    requires packed == Without(before, BACKUP_DIR + [name])[BACKUP_DIR + [name] := content]
    ensures IsDir(packed, BACKUP_DIR + [name + SUFFIX]) <==> IsDir(Below(before, BACKUP_DIR), [name + SUFFIX])
  {
    var out, sealed := BACKUP_DIR + [name], BACKUP_DIR + [name + SUFFIX];
    assert out[3] != sealed[3] && !(out <= sealed);
    InBelow(before, BACKUP_DIR, [name + SUFFIX]);
  }

  class Backuper {
    const fs: FileSystem
    const db: LocalFS
    const bp: BackupProviderLocal
    const comp: Compressor
    const encrypter: Encrypter?
    const sem: Semaphore

    /** The configuration of one process, as cmd/main.go builds it. */
    ghost predicate Valid()
      reads this, fs, bp
    {
      && fs.Valid() && bp.Valid()
      && db.fs == fs && comp.fs == fs && (encrypter != null ==> encrypter.fs == fs)
      && Apart(db.datadir, SIDECAR_BASE_DIR) && comp.extension in EXTENSIONS
      && bp.suffix == ProviderSuffix(comp.extension, encrypter != null)
    }

    ghost function Key(): Option<Cipher> {
      if encrypter == null then None else Some(encrypter.cipher)
    }

    constructor (fs: FileSystem, db: LocalFS, bp: BackupProviderLocal, comp: Compressor, encrypter: Encrypter?)
      ensures this.fs == fs && this.db == db && this.bp == bp && this.comp == comp && this.encrypter == encrypter
      ensures fresh(sem) && !sem.held
    {
      this.fs, this.db, this.bp, this.comp, this.encrypter := fs, db, bp, comp, encrypter;
      this.sem := new Semaphore();
    }

    /** No directory takes the place of the file that is to be sealed. */
    ghost predicate Sealable(copied: Tree, name: string) {
      encrypter != null ==> !IsDir(copied, [name + comp.extension + SUFFIX])
    }

    /** The state allows a backup: there is a data directory, no file is in the way of the backup directory, and no
        directory in the way of the sealed file. */
    ghost predicate CanBackUp(t: Tree, unlistable: set<Path>, slot: nat) {
      && IsDir(t, db.datadir) && Makeable(t, UPLOAD_DIR)
      && Sealable(Reached(Below(t, db.datadir), unlistable), Format(slot))
    }

    /** A backup while one is running is refused and changes nothing. Otherwise every exit frees the
        semaphore and touches the disk in the backup directory only; a failure leaves the ring as after no
        attempt, a skipped one or a torn one; success stores in the slot whose name was taken
        the archive of what was copied of the data directory. When no call fails it succeeds exactly if CanBackUp. */
    method CreateBackup(unlistable: set<Path>, now: int) returns (r: Outcome, ghost iv: Block)
      requires Valid()
      modifies fs, bp, sem
      ensures fs.faultless && bp.faultless ==>
                (r == Done <==> !old(sem.held) && CanBackUp(old(fs.nodes), unlistable, old(bp.nextBackupCount)))
      ensures Valid() && OnlyWithin(old(fs.nodes), fs.nodes, BACKUP_DIR)
      ensures old(sem.held) <==> r == AlreadyInProgress
      ensures old(sem.held) ==> sem.held && fs.nodes == old(fs.nodes) && bp.State() == old(bp.State())
      ensures !old(sem.held) ==> !sem.held
      ensures r == Failed ==> LeftBehind(bp.slots, bp.suffix, old(bp.State()), bp.State(), now)
      ensures r == Done ==>
                && IsDir(old(fs.nodes), db.datadir) && IsDir(fs.nodes, BACKUP_DIR)
                && var copied := Reached(Below(old(fs.nodes), db.datadir), unlistable);
                   var slot := Format(old(bp.nextBackupCount));
                   var stored := Uploaded(comp.archiver, comp.extension, Key(), iv, copied, slot);
                   bp.State() == Step(bp.slots, bp.suffix, old(bp.State()), Stored(stored, now))
    {
      iv := *;
      var acquired := sem.TryAcquire();
      if !acquired {
        return AlreadyInProgress, iv;
      }
      r, iv := RunBackup(unlistable, now);
      sem.Release();
    }

    /** The steps of CreateBackup that run while the semaphore is held. */
    method RunBackup(unlistable: set<Path>, now: int) returns (r: Outcome, ghost iv: Block)
      requires Valid()
      modifies fs, bp
      ensures fs.faultless && bp.faultless ==>
                (r == Done <==> CanBackUp(old(fs.nodes), unlistable, old(bp.nextBackupCount)))
      ensures Valid() && OnlyWithin(old(fs.nodes), fs.nodes, BACKUP_DIR) && r != AlreadyInProgress
      ensures r == Failed ==> LeftBehind(bp.slots, bp.suffix, old(bp.State()), bp.State(), now)
      ensures r == Done ==>
                && IsDir(old(fs.nodes), db.datadir) && IsDir(fs.nodes, BACKUP_DIR)
                && var copied := Reached(Below(old(fs.nodes), db.datadir), unlistable);
                   var slot := Format(old(bp.nextBackupCount));
                   var stored := Uploaded(comp.archiver, comp.extension, Key(), iv, copied, slot);
                   bp.State() == Step(bp.slots, bp.suffix, old(bp.State()), Stored(stored, now))
    {
      iv := *;
      var ok := db.Backup(unlistable);
      if !ok {
        return Failed, iv;
      }
      ghost var before, copied := old(fs.nodes), Below(fs.nodes, BACKUP_DIR);
      ghost var dumped := fs.nodes;
      var name := bp.GetNextBackupName();
      assert bp.State() == Step(bp.slots, bp.suffix, old(bp.State()), Skipped);
      var file;
      file, iv := BuildArchive(name);
      OnlyWithinTwice(before, dumped, fs.nodes, BACKUP_DIR);
      if file.Err? {
        return Failed, iv;
      }
      ok := fs.OpenInput(file.value);
      if !ok {
        return Failed, iv;
      }
      assert HasParent(fs.nodes, file.value);
      ghost var named := bp.State();
      ok := bp.UploadBackup(fs.nodes[file.value].content, now);
      if !ok {
        if bp.State() != named {
          ghost var part :| bp.State() == Put(bp.suffix, named, part, now);
          assert bp.State() == Step(bp.slots, bp.suffix, old(bp.State()), Torn(part, now));
        }
        return Failed, iv;
      }
      r := Done;
    }

    /** From the name to the file that is uploaded. */
    method BuildArchive(name: string) returns (r: Result<Path>, ghost iv: Block)
      requires Valid()
      modifies fs
      ensures Valid() && OnlyWithin(old(fs.nodes), fs.nodes, BACKUP_DIR)
      ensures r.Ok? ==> IsFile(fs.nodes, r.value) && |r.value| == 4 && r.value[..3] == BACKUP_DIR
                        && fs.nodes[r.value].content == Uploaded(comp.archiver, comp.extension, Key(), iv,
                                                                Below(old(fs.nodes), BACKUP_DIR), name)
      ensures fs.faultless && IsDir(old(fs.nodes), BACKUP_DIR) ==>
                (r.Ok? <==> Sealable(Below(old(fs.nodes), BACKUP_DIR), name))
    {
      iv := *;
      ghost var before := fs.nodes;
      r := Pack(name);
      if r.Err? || encrypter == null {
        return r, iv;
      }
      ghost var packed := fs.nodes;
      r, iv := Seal(name, before);
      OnlyWithinTwice(before, packed, fs.nodes, BACKUP_DIR);
    }

    /** Clears a prior archive out of the way and archives the backup directory. */
    method Pack(name: string) returns (r: Result<Path>)
      requires Valid()
      modifies fs
      ensures Valid() && OnlyWithin(old(fs.nodes), fs.nodes, BACKUP_DIR)
      ensures r.Ok? ==>
                var file := name + comp.extension;
                && r.value == BACKUP_DIR + [file]
                && fs.nodes == Without(old(fs.nodes), r.value)[r.value := File(comp.archiver.pack(
                                 comp.extension, FILES, Archived(Below(old(fs.nodes), BACKUP_DIR), file)))]
      ensures fs.faultless && IsDir(old(fs.nodes), BACKUP_DIR) ==> r.Ok?
    {
      ghost var before := fs.nodes;
      var out := BACKUP_DIR + [name + comp.extension];
      var ok := fs.RemoveAll(out);
      if !ok {
        return Err;
      }
      ghost var cleared := fs.nodes;
      assert out[..|out| - 1] == BACKUP_DIR && !(out <= BACKUP_DIR);
      BelowWithout(before, BACKUP_DIR, [name + comp.extension]);
      WithoutBelow(before, out);
      OnlyWithinAbove(before, cleared, BACKUP_DIR, [name + comp.extension]);
      r := comp.Compress(BACKUP_DIR, name);
      assert {out, out} == {out};
      WithinDir(cleared, fs.nodes, BACKUP_DIR, name + comp.extension, name + comp.extension);
      OnlyWithinTwice(before, cleared, fs.nodes, BACKUP_DIR);
    }

    /** Enciphers the archive; before is the disk from before it was packed. */
    method Seal(name: string, ghost before: Tree) returns (r: Result<Path>, ghost iv: Block)
      requires Valid() && encrypter != null
      requires var out := BACKUP_DIR + [name + comp.extension];
               fs.nodes == Without(before, out)[out := File(comp.archiver.pack(
                             comp.extension, FILES, Archived(Below(before, BACKUP_DIR), name + comp.extension)))]
      modifies fs
      ensures Valid() && OnlyWithin(old(fs.nodes), fs.nodes, BACKUP_DIR)
      ensures r.Ok? ==> IsFile(fs.nodes, r.value) && |r.value| == 4 && r.value[..3] == BACKUP_DIR
                        && fs.nodes[r.value].content == Uploaded(comp.archiver, comp.extension, Key(), iv,
                                                                Below(before, BACKUP_DIR), name)
      ensures fs.faultless ==> (r.Ok? <==> Sealable(Below(before, BACKUP_DIR), name))
    {
      ghost var packed := fs.nodes;
      var out := BACKUP_DIR + [name + comp.extension];
      ghost var sealed := BACKUP_DIR + [name + comp.extension + SUFFIX];
      assert AddSuffix(out) == sealed && out[3] != sealed[3];
      PriorSealed(before, packed, name + comp.extension, packed[out]);
      SealedInWay(before, packed, name + comp.extension, packed[out]);
      r, iv := encrypter.Encrypt(out);
      assert packed - {out, sealed} == fs.nodes - {out, sealed} by {
        if r.Err? {
          assert packed - {out, sealed} == packed - {sealed} - {out};
          assert fs.nodes - {out, sealed} == fs.nodes - {sealed} - {out};
        }
      }
      WithinDir(packed, fs.nodes, BACKUP_DIR, name + comp.extension, name + comp.extension + SUFFIX);
    }
  }
}
