/** CreateBackup called by any number of callers at once, cron and rpc, step by step
    (cmd/internal/backup/backup.go). Every interleaving is a sequence of events;
    an event that is not possible in a state leaves it as it is. */
module BackupProtocol {
  import opened FileTree
  import opened Os
  import opened Ctr
  import opened Decimal
  import opened Encryption
  import opened Files
  import opened Layout
  import opened Compress
  import opened Backup
  import Local = LocalProvider

  type Caller = nat

  datatype Config = Config(archiver: Archiver, ext: string, key: Option<Cipher>, n: nat)
  {
    function Suffix(): string {
      ProviderSuffix(ext, key.Some?)
    }
  }

  /** Where a caller is: the values are its own local variables. */
  datatype Pc =
    | Idle
    | Dumping
    | Dumped(snapshot: Tree)
    | Named(snapshot: Tree, name: string)
    | Cleared(snapshot: Tree, name: string)
    | Packed(snapshot: Tree, name: string)
    | Encrypted(snapshot: Tree, name: string, iv: Block)
    | Leaving

  /** An upload as it happened, with the uploading caller's own variables. */
  datatype Upload = Upload(caller: Caller, destination: string, content: seq<byte>,
                           snapshot: Tree, name: string, iv: Block)

  /** What the callers share: the semaphore, the backup directory, the provider. uploads and
      attempts are the history of completed uploads and of names taken. */
  datatype State = State(held: bool, pcs: map<Caller, Pc>, dir: Tree, ring: Local.Ring,
                         uploads: seq<Upload>, attempts: seq<Local.Attempt>)
  {
    function At(a: Caller): Pc {
      if a in pcs then pcs[a] else Idle
    }

    function Go(a: Caller, pc: Pc): State {
      this.(pcs := pcs[a := pc])
    }
  }

  datatype Event =
    | Call(caller: Caller)
    | DumpWrite(caller: Caller, dir: Tree)
    | DumpEnd(caller: Caller)
    | Take(caller: Caller)
    | Clear(caller: Caller)
    | Pack(caller: Caller)
    | Encrypt(caller: Caller, iv: Block, removed: bool)
    | StoreAll(caller: Caller, time: int)
    | StorePart(caller: Caller, length: nat, time: int)
    | Fail(caller: Caller)
    | Release(caller: Caller)

  /** The file a caller opens for upload. */
  function UploadPath(c: Config, pc: Pc): Path
    requires pc.Packed? || pc.Encrypted?
  {
    [pc.name + c.ext + if pc.Encrypted? then SUFFIX else ""]
  }

  /** UploadBackup by a caller: it writes where the provider's current name points at that moment. */
  function Store(c: Config, s: State, a: Caller, attempt: Local.Attempt): State
    requires Local.Touches(attempt) && s.attempts != []
  {
    s.(ring := Local.Put(c.Suffix(), s.ring, attempt.content, attempt.time),
       attempts := s.attempts[|s.attempts| - 1 := attempt]).Go(a, Leaving)
  }

  function Apply(c: Config, s: State, e: Event): State
    requires c.n > 0
  {
    var a, pc := e.caller, s.At(e.caller);
    match e
    case Call(_) =>
      if pc.Idle? && !s.held then s.(held := true, dir := EmptyDir).Go(a, Dumping) else s
    case DumpWrite(_, dir) =>
      if pc.Dumping? then s.(dir := dir) else s
    case DumpEnd(_) =>
      if pc.Dumping? then s.Go(a, Dumped(s.dir)) else s
    case Take(_) =>
      if pc.Dumped? then
        s.(ring := Local.TakeName(c.n, s.ring), attempts := s.attempts + [Local.Skipped])
         .Go(a, Named(pc.snapshot, Format(s.ring.next)))
      else s
    case Clear(_) =>
      if pc.Named? then s.(dir := Without(s.dir, [pc.name + c.ext])).Go(a, Cleared(pc.snapshot, pc.name)) else s
    case Pack(_) =>
      var file := [if pc.Cleared? then pc.name + c.ext else ""];
      if pc.Cleared? && file !in s.dir then
        s.(dir := s.dir[file := File(c.archiver.pack(c.ext, FILES, s.dir))]).Go(a, Packed(pc.snapshot, pc.name))
      else s
    case Encrypt(_, iv, removed) =>
      if pc.Packed? && c.key.Some? && IsFile(s.dir, [pc.name + c.ext]) && !IsDir(s.dir, [pc.name + c.ext + SUFFIX]) then
        var file, out := [pc.name + c.ext], [pc.name + c.ext + SUFFIX];
        var sealed := Splice(Bytes(s.dir, out), 0, Sealed(c.key.value, iv, Bytes(s.dir, file)));
        s.(dir := s.dir[out := File(sealed)] - if removed then {file} else {})
         .Go(a, Encrypted(pc.snapshot, pc.name, iv))
      else s
    case StoreAll(_, time) =>
      if (if c.key.Some? then pc.Encrypted? else pc.Packed?)
         && IsFile(s.dir, UploadPath(c, pc)) && s.attempts != [] then
        var content := Bytes(s.dir, UploadPath(c, pc));
        var iv := if pc.Encrypted? then pc.iv else seq(BLOCK_SIZE, i => 0);
        Store(c, s, a, Local.Stored(content, time))
          .(uploads := s.uploads + [Upload(a, s.ring.current + c.Suffix(), content, pc.snapshot, pc.name, iv)])
      else s
    case StorePart(_, length, time) =>
      if (if c.key.Some? then pc.Encrypted? else pc.Packed?) && IsFile(s.dir, UploadPath(c, pc)) && s.attempts != []
         && length <= |Bytes(s.dir, UploadPath(c, pc))| then
        Store(c, s, a, Local.Torn(Bytes(s.dir, UploadPath(c, pc))[..length], time))
      else s
    case Fail(_) =>
      if !pc.Idle? then s.Go(a, Leaving) else s
    case Release(_) =>
      if pc.Leaving? then s.(held := false).Go(a, Idle) else s
  }

  function Run(c: Config, s: State, events: seq<Event>): State
    requires c.n > 0
  {
    if events == [] then s
    else Apply(c, Run(c, s, events[..|events| - 1]), events[|events| - 1])
  }

  function Start(ring: Local.Ring, dir: Tree): State {
    State(false, map[], dir, ring, [], [])
  }

  /** What the caller inside relies on: its own variables describe the shared state. */
  ghost predicate Owns(c: Config, s: State, pc: Pc) {
    match pc
    case Idle => false
    case Dumping => true
    case Dumped(snapshot) => s.dir == snapshot
    case Named(snapshot, name) => s.dir == snapshot && HasName(s, name)
    case Cleared(snapshot, name) => s.dir == Archived(snapshot, name + c.ext) && HasName(s, name)
    case Packed(snapshot, name) =>
      && s.dir == Archived(snapshot, name + c.ext)[[name + c.ext] :=
                    File(c.archiver.pack(c.ext, FILES, Archived(snapshot, name + c.ext)))]
      && HasName(s, name)
    case Encrypted(snapshot, name, iv) =>
      && Bytes(s.dir, [name + c.ext + SUFFIX]) == Uploaded(c.archiver, c.ext, c.key, iv, snapshot, name)
      && HasName(s, name)
    case Leaving => true
  }

  predicate HasName(s: State, name: string) {
    s.ring.current == name && s.attempts != [] && s.attempts[|s.attempts| - 1].Skipped?
  }

  /** At most one caller is inside, exactly while the semaphore is held. */
  ghost predicate Exclusive(s: State) {
    && (forall a, b :: !s.At(a).Idle? && !s.At(b).Idle? ==> a == b)
    && (s.held <==> exists a :: !s.At(a).Idle?)
  }

  /** An upload went to the slot its caller was given, and carries the archive of its caller's snapshot. */
  ghost predicate Faithful(c: Config, u: Upload) {
    && u.destination == u.name + c.Suffix()
    && u.content == Uploaded(c.archiver, c.ext, c.key, u.iv, u.snapshot, u.name)
  }

  ghost predicate Inv(c: Config, start: Local.Ring, s: State)
    requires c.n > 0
  {
    && Exclusive(s)
    && (forall a :: !s.At(a).Idle? ==> Owns(c, s, s.At(a)))
    && (forall u :: u in s.uploads ==> Faithful(c, u))
    && s.ring == Local.Run(c.n, c.Suffix(), start, s.attempts)
  }

  lemma PackedUpload(c: Config, s: State, pc: Pc)
    requires pc.Packed? && c.key.None? && Owns(c, s, pc)
    ensures forall iv :: Bytes(s.dir, UploadPath(c, pc))
                         == Uploaded(c.archiver, c.ext, c.key, iv, pc.snapshot, pc.name)
  {
    assert pc.name + c.ext + "" == pc.name + c.ext;
  }

  lemma EncryptedUpload(c: Config, s: State, pc: Pc, iv: Block, removed: bool)
    requires pc.Packed? && c.key.Some? && Owns(c, s, pc)
    ensures var file, out := [pc.name + c.ext], [pc.name + c.ext + SUFFIX];
            var sealed := Splice(Bytes(s.dir, out), 0, Sealed(c.key.value, iv, Bytes(s.dir, file)));
            && out != file
            && Bytes(s.dir[out := File(sealed)] - (if removed then {file} else {}), out)
               == Uploaded(c.archiver, c.ext, c.key, iv, pc.snapshot, pc.name)
  {
    var file, out := [pc.name + c.ext], [pc.name + c.ext + SUFFIX];
    assert file[0] != out[0] && !(file <= out);
    assert Bytes(s.dir, out) == Bytes(pc.snapshot, out);
  }

  /** Replacing the skipped attempt at the end by the upload is what the upload does to the ring. */
  lemma StoreRefines(c: Config, start: Local.Ring, s: State, attempt: Local.Attempt)
    requires c.n > 0 && Local.Touches(attempt) && s.attempts != [] && s.attempts[|s.attempts| - 1].Skipped?
    requires s.ring == Local.Run(c.n, c.Suffix(), start, s.attempts)
    ensures Local.Put(c.Suffix(), s.ring, attempt.content, attempt.time)
            == Local.Run(c.n, c.Suffix(), start, s.attempts[|s.attempts| - 1 := attempt])
  {
    var k := |s.attempts| - 1;
    assert s.attempts[k := attempt][..k] == s.attempts[..k];
  }

  lemma StepKeepsExclusive(c: Config, s: State, e: Event)
    requires c.n > 0 && Exclusive(s)
    ensures Exclusive(Apply(c, s, e))
  {
    var t, a := Apply(c, s, e), e.caller;
    assert forall b :: b != a ==> t.At(b) == s.At(b);
    if !s.At(a).Idle? && !t.At(a).Idle? {
    } else if s.At(a).Idle? && t.At(a).Idle? {
      assert t == s;
    }
  }

  /** After a step the caller that took it owns what it says it does. */
  lemma StepOwns(c: Config, s: State, e: Event)
    requires c.n > 0 && (s.At(e.caller).Idle? || Owns(c, s, s.At(e.caller)))
    ensures var t := Apply(c, s, e); t.At(e.caller).Idle? || Owns(c, t, t.At(e.caller))
  {
    if e.Encrypt? && s.At(e.caller).Packed? && c.key.Some? {
      EncryptedUpload(c, s, s.At(e.caller), e.iv, e.removed);
    }
  }

  lemma StepUploads(c: Config, s: State, e: Event)
    requires c.n > 0 && (s.At(e.caller).Idle? || Owns(c, s, s.At(e.caller)))
    requires forall u :: u in s.uploads ==> Faithful(c, u)
    ensures forall u :: u in Apply(c, s, e).uploads ==> Faithful(c, u)
  {
    if e.StoreAll? && s.At(e.caller).Packed? && c.key.None? {
      PackedUpload(c, s, s.At(e.caller));
    }
  }

  lemma StepRefines(c: Config, start: Local.Ring, s: State, e: Event)
    requires c.n > 0 && (s.At(e.caller).Idle? || Owns(c, s, s.At(e.caller)))
    requires s.ring == Local.Run(c.n, c.Suffix(), start, s.attempts)
    ensures var t := Apply(c, s, e); t.ring == Local.Run(c.n, c.Suffix(), start, t.attempts)
  {
    var t, pc := Apply(c, s, e), s.At(e.caller);
    if e.Take? && pc.Dumped? {
      assert t.attempts[..|t.attempts| - 1] == s.attempts;
    } else if e.StoreAll? && t != s {
      StoreRefines(c, start, s, Local.Stored(Bytes(s.dir, UploadPath(c, pc)), e.time));
    } else if e.StorePart? && t != s {
      StoreRefines(c, start, s, Local.Torn(Bytes(s.dir, UploadPath(c, pc))[..e.length], e.time));
    }
  }

  lemma StepKeeps(c: Config, start: Local.Ring, s: State, e: Event)
    requires c.n > 0 && Inv(c, start, s)
    ensures Inv(c, start, Apply(c, s, e))
  {
    StepKeepsExclusive(c, s, e);
    StepOwns(c, s, e);
    StepUploads(c, s, e);
    StepRefines(c, start, s, e);
    var t, a := Apply(c, s, e), e.caller;
    forall b | !t.At(b).Idle? ensures Owns(c, t, t.At(b)) {
      if b != a {
        StepOthers(c, s, e, b);
      }
    }
  }

  /** While somebody is inside, a step of anybody else changes nothing. */
  lemma StepOthers(c: Config, s: State, e: Event, b: Caller)
    requires c.n > 0 && Exclusive(s) && b != e.caller && !Apply(c, s, e).At(b).Idle?
    ensures Apply(c, s, e) == s
  {
    assert Apply(c, s, e).At(b) == s.At(b);
  }

  lemma {:induction false} RunKeeps(c: Config, ring: Local.Ring, dir: Tree, events: seq<Event>)
    requires c.n > 0
    ensures Inv(c, ring, Run(c, Start(ring, dir), events))
  {
    if events != [] {
      RunKeeps(c, ring, dir, events[..|events| - 1]);
      StepKeeps(c, ring, Run(c, Start(ring, dir), events[..|events| - 1]), events[|events| - 1]);
    }
  }

  /** Under every interleaving each upload went to the slot its own caller was given and carries the
      archive of its own caller's snapshot, and the ring is what the same attempts make of it one after
      the other, so that retention and listing hold of concurrent callers too. When nobody is inside, the
      semaphore is free. */
  lemma EveryInterleaving(c: Config, ring: Local.Ring, dir: Tree, events: seq<Event>)
    requires c.n > 0
    ensures var s := Run(c, Start(ring, dir), events);
            && (forall u :: u in s.uploads ==>
                  && u.destination == u.name + c.Suffix()
                  && u.content == Uploaded(c.archiver, c.ext, c.key, u.iv, u.snapshot, u.name))
            && s.ring == Local.Run(c.n, c.Suffix(), ring, s.attempts)
            && (s.held <==> exists a :: !s.At(a).Idle?)
            && (forall a, b :: !s.At(a).Idle? && !s.At(b).Idle? ==> a == b)
  {
    RunKeeps(c, ring, dir, events);
  }

  /** Nobody is inside. */
  ghost predicate Free(s: State) {
    !s.held && forall a :: s.At(a).Idle?
  }

  /** Progress: a caller that is inside gets out by failing, at any of its steps, and leaves the semaphore free and
      what the others see of the provider as it was. */
  lemma Leaves(c: Config, ring: Local.Ring, dir: Tree, events: seq<Event>, a: Caller)
    requires c.n > 0 && !Run(c, Start(ring, dir), events).At(a).Idle?
    ensures var s := Run(c, Start(ring, dir), events);
            var t := Run(c, Start(ring, dir), events + [Fail(a), Release(a)]);
            Free(t) && t.ring == s.ring && t.uploads == s.uploads && t.attempts == s.attempts && t.dir == s.dir
  {
    var s := Run(c, Start(ring, dir), events);
    RunKeeps(c, ring, dir, events);
    RunOneMore(c, Start(ring, dir), events, Fail(a));
    RunOneMore(c, Start(ring, dir), events + [Fail(a)], Release(a));
    assert events + [Fail(a), Release(a)] == events + [Fail(a)] + [Release(a)];
    var f := Apply(c, s, Fail(a));
    assert f == s.Go(a, Leaving);
    var t := Apply(c, f, Release(a));
    forall b ensures t.At(b).Idle? {
      assert b != a ==> t.At(b) == s.At(b);
    }
  }

  /** Progress: a finished caller frees the semaphore. */
  lemma Releases(c: Config, ring: Local.Ring, dir: Tree, events: seq<Event>, a: Caller)
    requires c.n > 0 && Run(c, Start(ring, dir), events).At(a).Leaving?
    ensures var s := Run(c, Start(ring, dir), events);
            var t := Apply(c, s, Release(a));
            Free(t) && t.ring == s.ring && t.uploads == s.uploads && t.attempts == s.attempts && t.dir == s.dir
  {
    var s := Run(c, Start(ring, dir), events);
    RunKeeps(c, ring, dir, events);
    var t := Apply(c, s, Release(a));
    forall b ensures t.At(b).Idle? {
      assert b != a ==> t.At(b) == s.At(b);
    }
  }

  /** Progress: when the semaphore is free everybody gets in, into a fresh backup directory; when it is not, nobody. */
  lemma GetsIn(c: Config, ring: Local.Ring, dir: Tree, events: seq<Event>, b: Caller)
    requires c.n > 0
    ensures var s := Run(c, Start(ring, dir), events);
            var t := Apply(c, s, Call(b));
            && (!s.held ==> Free(s) && t.held && t.At(b).Dumping? && t.dir == EmptyDir && t.ring == s.ring)
            && (s.held ==> t == s)
  {
    var s := Run(c, Start(ring, dir), events);
    RunKeeps(c, ring, dir, events);
    if !s.held {
      forall a ensures s.At(a).Idle? {
      }
    }
  }

  /** An upload that breaks off leaves a torn file in the slot, and its caller on the way out. */
  lemma TearsUpload(c: Config, s: State, b: Caller, length: nat, time: int)
    requires c.n > 0 && s.attempts != []
    requires var pc := s.At(b); (if c.key.Some? then pc.Encrypted? else pc.Packed?) && IsFile(s.dir, UploadPath(c, pc))
    requires length <= |Bytes(s.dir, UploadPath(c, s.At(b)))|
    ensures var part := Bytes(s.dir, UploadPath(c, s.At(b)))[..length];
            var t := Apply(c, s, StorePart(b, length, time));
            && t.ring == Local.Put(c.Suffix(), s.ring, part, time) && t.At(b).Leaving? && t.uploads == s.uploads
            && t.attempts == s.attempts[|s.attempts| - 1 := Local.Torn(part, time)]
  {
  }

  lemma RunOneMore(c: Config, s: State, events: seq<Event>, e: Event)
    requires c.n > 0
    ensures Run(c, s, events + [e]) == Apply(c, Run(c, s, events), e)
  {
    assert (events + [e])[..|events + [e]| - 1] == events;
  }

  /** A backup that nothing disturbs, with what is dumped and drawn. */
  function WholeBackup(c: Config, b: Caller, tree: Tree, iv: Block, removed: bool, time: int): seq<Event> {
    [Call(b), DumpWrite(b, tree), DumpEnd(b)] + [Take(b), Clear(b), Pack(b)]
    + (if c.key.Some? then [Encrypt(b, iv, removed)] else []) + [StoreAll(b, time), Release(b)]
  }

  /** Up to the snapshot, and from there to the archive. */
  function AfterDump(c: Config, s: State, b: Caller, tree: Tree): State
    requires c.n > 0
  {
    Apply(c, Apply(c, Apply(c, s, Call(b)), DumpWrite(b, tree)), DumpEnd(b))
  }

  function AfterPack(c: Config, s: State, b: Caller): State
    requires c.n > 0
  {
    Apply(c, Apply(c, Apply(c, s, Take(b)), Clear(b)), Pack(b))
  }

  lemma DumpingEnds(c: Config, s: State, b: Caller, tree: Tree)
    requires c.n > 0 && Free(s)
    ensures var t := AfterDump(c, s, b, tree);
            && t.At(b) == Dumped(tree) && t.dir == tree && t.held
            && t.uploads == s.uploads && t.ring == s.ring && t.attempts == s.attempts
            && forall a :: a != b ==> t.At(a).Idle?
  {
    var s1 := Apply(c, s, Call(b));
    var s2 := Apply(c, s1, DumpWrite(b, tree));
    assert s1.At(b).Dumping? && s2.At(b).Dumping? && s2.dir == tree;
    assert forall a :: a != b ==> Apply(c, s2, DumpEnd(b)).At(a) == s.At(a);
  }

  /** What is in the backup directory once the archive is. */
  function PackedDir(c: Config, tree: Tree, slot: string): Tree {
    Archived(tree, slot + c.ext)[[slot + c.ext] := File(c.archiver.pack(c.ext, FILES, Archived(tree, slot + c.ext)))]
  }

  lemma ArchivingEnds(c: Config, s: State, b: Caller, tree: Tree)
    requires c.n > 0 && s.At(b) == Dumped(tree) && s.dir == tree && forall a :: a != b ==> s.At(a).Idle?
    ensures var t, slot := AfterPack(c, s, b), Format(s.ring.next);
            && t.At(b) == Packed(tree, slot) && t.dir == PackedDir(c, tree, slot) && t.uploads == s.uploads
            && t.ring == Local.TakeName(c.n, s.ring) && t.attempts == s.attempts + [Local.Skipped]
            && forall a :: a != b ==> t.At(a).Idle?
  {
    var slot := Format(s.ring.next);
    var s1 := Apply(c, s, Take(b));
    var s2 := Apply(c, s1, Clear(b));
    assert s1.At(b) == Named(tree, slot) && s1.dir == tree;
    assert s2.At(b) == Cleared(tree, slot) && s2.dir == Archived(tree, slot + c.ext);
    assert [slot + c.ext] !in s2.dir;
    assert forall a :: a != b ==> Apply(c, s2, Pack(b)).At(a) == s.At(a);
  }

  lemma RunThree(c: Config, s: State, x: Event, y: Event, z: Event)
    requires c.n > 0
    ensures Run(c, s, [x, y, z]) == Apply(c, Apply(c, Apply(c, s, x), y), z)
  {
    RunOneMore(c, s, [], x);
    RunOneMore(c, s, [x], y);
    RunOneMore(c, s, [x] + [y], z);
    assert [] + [x] == [x] && [x, y, z] == [x] + [y] + [z];
  }

  lemma {:induction false} RunConcat(c: Config, s: State, a: seq<Event>, b: seq<Event>)
    requires c.n > 0
    ensures Run(c, s, a + b) == Run(c, Run(c, s, a), b)
    decreases |b|
  {
    if b == [] {
      assert a + b == a;
    } else {
      assert (a + b)[..|a + b| - 1] == a + b[..|b| - 1];
      RunConcat(c, s, a, b[..|b| - 1]);
    }
  }

  /** The caller is ready to upload what is to be uploaded. */
  ghost predicate ReadyToUpload(c: Config, s: State, b: Caller, tree: Tree, slot: string, iv: Block) {
    var pc := s.At(b);
    && (if c.key.Some? then pc.Encrypted? else pc.Packed?) && pc.snapshot == tree && pc.name == slot
    && IsFile(s.dir, UploadPath(c, pc)) && s.attempts != []
    && Bytes(s.dir, UploadPath(c, pc)) == Uploaded(c.archiver, c.ext, c.key, iv, tree, slot)
    && forall a :: a != b ==> s.At(a).Idle?
  }

  lemma PlainIsReady(c: Config, s: State, b: Caller, tree: Tree, slot: string, iv: Block)
    requires c.key.None? && s.At(b) == Packed(tree, slot) && s.dir == PackedDir(c, tree, slot) && s.attempts != []
    requires forall a :: a != b ==> s.At(a).Idle?
    ensures ReadyToUpload(c, s, b, tree, slot, iv)
  {
    assert slot + c.ext + "" == slot + c.ext;
  }

  lemma SealedIsReady(c: Config, s: State, b: Caller, tree: Tree, slot: string, iv: Block, removed: bool)
    requires c.n > 0 && c.key.Some? && s.At(b) == Packed(tree, slot) && s.dir == PackedDir(c, tree, slot)
    requires s.attempts != [] && (forall a :: a != b ==> s.At(a).Idle?) && !IsDir(tree, [slot + c.ext + SUFFIX])
    ensures var t := Apply(c, s, Encrypt(b, iv, removed));
            && t.ring == s.ring && t.uploads == s.uploads && t.attempts == s.attempts
            && ReadyToUpload(c, t, b, tree, slot, iv)
  {
    var file, out := [slot + c.ext], [slot + c.ext + SUFFIX];
    assert file[0] != out[0] && !(file <= out);
    assert Bytes(s.dir, out) == Bytes(tree, out);
    var t := Apply(c, s, Encrypt(b, iv, removed));
    assert t.At(b) == Encrypted(tree, slot, iv);
    assert forall a :: a != b ==> t.At(a) == s.At(a);
  }

  /** One upload more, of that caller, that snapshot and that slot, and nobody inside. */
  ghost predicate AddsUpload(c: Config, s: State, t: State, b: Caller, tree: Tree, slot: string, content: seq<byte>,
                             time: int)
  {
    && Free(t) && |t.uploads| == |s.uploads| + 1 && t.uploads[..|s.uploads|] == s.uploads
    && var u := t.uploads[|s.uploads|];
       && u.caller == b && u.snapshot == tree && u.name == slot && u.content == content
       && u.destination == slot + c.Suffix()
  }

  lemma Uploads(c: Config, s: State, b: Caller, tree: Tree, slot: string, iv: Block, time: int)
    requires c.n > 0 && ReadyToUpload(c, s, b, tree, slot, iv) && s.ring.current == slot
    ensures var content := Uploaded(c.archiver, c.ext, c.key, iv, tree, slot);
            var t := Apply(c, Apply(c, s, StoreAll(b, time)), Release(b));
            && AddsUpload(c, s, t, b, tree, slot, content, time)
            && t.ring == Local.Put(c.Suffix(), s.ring, content, time)
            && t.attempts == s.attempts[|s.attempts| - 1 := Local.Stored(content, time)]
  {
    var s1 := Apply(c, s, StoreAll(b, time));
    assert s1.At(b).Leaving? && forall a :: a != b ==> s1.At(a) == s.At(a);
    var t := Apply(c, s1, Release(b));
    assert forall a :: a != b ==> t.At(a) == s1.At(a);
  }

  lemma PreparesUpload(c: Config, s: State, b: Caller, tree: Tree, iv: Block, removed: bool)
    requires c.n > 0 && Free(s)
    requires var slot := Format(s.ring.next); c.key.Some? ==> !IsDir(tree, [slot + c.ext + SUFFIX])
    ensures var steps := [Call(b), DumpWrite(b, tree), DumpEnd(b)] + [Take(b), Clear(b), Pack(b)]
                         + if c.key.Some? then [Encrypt(b, iv, removed)] else [];
            var t := Run(c, s, steps);
            && ReadyToUpload(c, t, b, tree, Format(s.ring.next), iv) && t.uploads == s.uploads
            && t.ring == Local.TakeName(c.n, s.ring) && t.attempts == s.attempts + [Local.Skipped]
  {
    var first, second := [Call(b), DumpWrite(b, tree), DumpEnd(b)], [Take(b), Clear(b), Pack(b)];
    RunThree(c, s, Call(b), DumpWrite(b, tree), DumpEnd(b));
    DumpingEnds(c, s, b, tree);
    var dumped := Run(c, s, first);
    RunThree(c, dumped, Take(b), Clear(b), Pack(b));
    ArchivingEnds(c, dumped, b, tree);
    RunConcat(c, s, first, second);
    var packed := Run(c, s, first + second);
    if c.key.Some? {
      RunOneMore(c, s, first + second, Encrypt(b, iv, removed));
      SealedIsReady(c, packed, b, tree, Format(s.ring.next), iv, removed);
    } else {
      assert first + second + [] == first + second;
      PlainIsReady(c, packed, b, tree, Format(s.ring.next), iv);
    }
  }

  /** Progress: from any state in which nobody is inside, an undisturbed backup stores the archive of what was dumped in
      the slot that is next, adds that one upload, and leaves nobody inside. */
  lemma BackupSucceeds(c: Config, ring: Local.Ring, dir: Tree, events: seq<Event>,
                       b: Caller, tree: Tree, iv: Block, removed: bool, time: int)
    requires c.n > 0 && !Run(c, Start(ring, dir), events).held
    requires var slot := Format(Run(c, Start(ring, dir), events).ring.next);
             c.key.Some? ==> !IsDir(tree, [slot + c.ext + SUFFIX])
    ensures var s := Run(c, Start(ring, dir), events);
            var t := Run(c, s, WholeBackup(c, b, tree, iv, removed, time));
            var slot := Format(s.ring.next);
            var content := Uploaded(c.archiver, c.ext, c.key, iv, tree, slot);
            && AddsUpload(c, s, t, b, tree, slot, content, time)
            && t.attempts == s.attempts + [Local.Stored(content, time)]
            && t.ring == Local.Step(c.n, c.Suffix(), s.ring, Local.Stored(content, time))
  {
    GetsIn(c, ring, dir, events, b);
    FreeSucceeds(c, Run(c, Start(ring, dir), events), b, tree, iv, removed, time);
  }

  lemma FreeSucceeds(c: Config, s: State, b: Caller, tree: Tree, iv: Block, removed: bool, time: int)
    requires c.n > 0 && Free(s)
    requires var slot := Format(s.ring.next); c.key.Some? ==> !IsDir(tree, [slot + c.ext + SUFFIX])
    ensures var t := Run(c, s, WholeBackup(c, b, tree, iv, removed, time));
            var slot := Format(s.ring.next);
            var content := Uploaded(c.archiver, c.ext, c.key, iv, tree, slot);
            && AddsUpload(c, s, t, b, tree, slot, content, time)
            && t.attempts == s.attempts + [Local.Stored(content, time)]
            && t.ring == Local.Step(c.n, c.Suffix(), s.ring, Local.Stored(content, time))
  {
    PreparesUpload(c, s, b, tree, iv, removed);
    var steps := [Call(b), DumpWrite(b, tree), DumpEnd(b)] + [Take(b), Clear(b), Pack(b)]
                 + if c.key.Some? then [Encrypt(b, iv, removed)] else [];
    RunOneMore(c, s, steps, StoreAll(b, time));
    RunOneMore(c, s, steps + [StoreAll(b, time)], Release(b));
    assert WholeBackup(c, b, tree, iv, removed, time) == steps + [StoreAll(b, time)] + [Release(b)];
    Uploads(c, Run(c, s, steps), b, tree, Format(s.ring.next), iv, time);
  }
}
