/** One life of the sidecar: Start, manual restores and backups by rpc, and containers waiting for the status
    (cmd/internal/initializer/initializer.go and service.go, cmd/internal/wait/wait.go), for any
    database whose Check looks at an empty data directory. Every run is a sequence of events; an
    event that is not possible in a state leaves it as it is. */
module StartProtocol {
  import opened Decimal
  import opened FileTree
  import opened Files
  import opened StatusWord
  import PostgresUpgrade

  /** A stored backup with its date and the tree it recovers to. */
  datatype Backup = Backup(date: int, tree: Tree)
  type Store = map<string, Backup>

  /** An entry no other one is newer than. */
  predicate IsLatest(store: Store, name: string) {
    name in store && forall other :: other in store ==> store[other].date <= store[name].date
  }

  /** Who restores: Start itself, or a request. */
  datatype Who = Starter | Request(id: nat)

  datatype Phase = Fetching | Recovering | Returned(ok: bool)

  /** One call of Restore. disturbed is history: another call was in progress at some moment of this one. They
      share the restore and the data directory, so that a disturbed call leaves anything. */
  datatype Restore = Restore(name: string, backup: Option<Backup>, phase: Phase, disturbed: bool)

  datatype Pc = Booting | Checking | Listing | Restoring | Upgrading | Finished | Failed

  /** Why initialize returned nil, with what it was based on: the tree Check saw and who had written it last, or the
      backup that was downloaded. */
  datatype Reason =
    | Undecided
    | FoundData(tree: Tree, writer: Option<Who>)
    | NoBackups
    | RestoredBackup(name: string, backup: Backup)

  datatype Waiter = Polling | SawDone | Stopped

  /** data is the data directory, None when there is none. The rest is history: listed is the store when Start listed
      it, after createdAtList of the created backups of this life; inBetween are the names of those created between then
      and the download of Start's own restore; lastWriter is the restore that has written to the data directory
      last; upgraded says that an upgrade has changed the data since. */
  datatype State = State(pc: Pc, status: Status, data: Option<Tree>, store: Store,
                         restores: map<Who, Restore>, waiters: map<nat, Waiter>, stopping: bool,
                         reason: Reason, listed: Store, created: nat, createdAtList: nat, inBetween: set<string>,
                         lastWriter: Option<Who>, upgraded: bool)

  datatype Event =
    /** The steps of Start up to its own restore; made tells whether the directory was made before a failure. */
    | Boot(made: bool, ok: bool)
    | Check(ok: bool)
    | List(ok: bool, name: string)
    /** A call of db.Upgrade with what it leaves. */
    | Upgrade(after: Option<Tree>, ok: bool)
    /** The restore request, and the steps of any restore: the download, what a recovery has written
        so far, and its end. left is what a disturbed one leaves. */
    | RestoreBackup(id: nat, name: string)
    | Fetch(who: Who, ok: bool)
    | Write(who: Who, tree: Tree)
    | Recovered(who: Who, ok: bool, left: Tree)
    /** A backup request that completes. */
    | CreateBackup(name: string, date: int)
    | Wait(waiter: nat)
    /** One turn of the polling loop: the stop signal, or a request that may fail. */
    | Poll(waiter: nat, ok: bool)
    | StopSignal

  predicate Active(r: Restore) {
    !r.phase.Returned?
  }

  function Disturb(r: Restore): Restore {
    if Active(r) then r.(disturbed := true) else r
  }

  predicate Busy(restores: map<Who, Restore>) {
    exists w :: w in restores && Active(restores[w])
  }

  function DisturbAll(restores: map<Who, Restore>): map<Who, Restore> {
    map w | w in restores :: Disturb(restores[w])
  }

  /** Restore is called. */
  function Begin(s: State, who: Who, name: string): State {
    s.(status := RESTORING,
       restores := DisturbAll(s.restores)[who := Restore(name, None, Fetching, Busy(s.restores))])
  }

  /** A call of Restore returns: Start with its own one, going on to the upgrade or not. */
  function Return(s: State, who: Who, r: Restore, ok: bool): State {
    var goesOn := ok && r.backup.Some?;
    s.(restores := s.restores[who := r.(phase := Returned(ok))],
       pc := if who.Request? then s.pc else if goesOn then Upgrading else Failed,
       status := if who.Starter? && goesOn then UPGRADING else s.status,
       reason := if who.Starter? && goesOn then RestoredBackup(r.name, r.backup.value) else s.reason)
  }

  function BootStep(s: State, made: bool, ok: bool): State {
    if !s.pc.Booting? then s
    else
      s.(pc := if ok then Checking else Failed,
         status := if ok then CHECKING else s.status,
         data := if (made || ok) && s.data.None? then Some(EmptyDir) else s.data)
  }

  function CheckStep(s: State, ok: bool): State {
    if !s.pc.Checking? then s
    else
      var found := ok && s.data.Some? && s.data != Some(EmptyDir);
      s.(pc := if !ok || s.data.None? then Failed else if found then Upgrading else Listing,
         status := if found then UPGRADING else s.status,
         reason := if found then FoundData(s.data.value, s.lastWriter) else s.reason)
  }

  function AtListing(s: State): State {
    s.(pc := Restoring, listed := s.store, createdAtList := s.created, inBetween := {})
  }

  function RestoreLatest(s: State, name: string): State {
    Begin(AtListing(s), Starter, name)
  }

  /** Nothing is stored, or the listing fails, or another entry is the latest one. */
  function ListNone(s: State, ok: bool): State {
    var nothing := ok && |s.store| == 0;
    s.(pc := if !ok then Failed else if nothing then Upgrading else Listing,
       status := if nothing then UPGRADING else s.status,
       reason := if nothing then NoBackups else s.reason,
       listed := if nothing then map[] else s.listed,
       createdAtList := if nothing then s.created else s.createdAtList)
  }

  function ListStep(s: State, ok: bool, name: string): State {
    if !s.pc.Listing? then s
    else if ok && IsLatest(s.store, name) then RestoreLatest(s, name)
    else ListNone(s, ok)
  }

  function UpgradeTo(s: State, after: Option<Tree>, ok: bool): State {
    s.(pc := if ok then Finished else Failed, status := if ok then DONE else s.status,
       data := after, upgraded := s.upgraded || after != s.data)
  }

  function UpgradeStep(s: State, after: Option<Tree>, ok: bool): State {
    if !s.pc.Upgrading? || !PostgresUpgrade.Possible(s.data, after, ok) then s else UpgradeTo(s, after, ok)
  }

  /** What a restore writes to the data directory, over whatever was there. */
  function Overwrite(s: State, who: Who, tree: Tree): State {
    s.(data := Some(tree), lastWriter := Some(who), upgraded := false)
  }

  /** The process is there and one of its calls of Restore is in the phase. */
  predicate InPhase(s: State, who: Who, phase: Phase) {
    !s.pc.Failed? && who in s.restores && s.restores[who].phase == phase
  }

  function Download(s: State, who: Who, r: Restore, b: Backup): State {
    s.(restores := s.restores[who := r.(phase := Recovering, backup := Some(b))])
  }

  function FetchStep(s: State, who: Who, ok: bool): State {
    if !InPhase(s, who, Fetching) then s
    else
      var r := s.restores[who];
      if !ok || r.name !in s.store then Return(s, who, r, false) else Download(s, who, r, s.store[r.name])
  }

  function WriteStep(s: State, who: Who, tree: Tree): State {
    if !InPhase(s, who, Recovering) || s.restores[who].backup.None? then s
    else Overwrite(s, who, tree)
  }

  function Finish(s: State, who: Who, r: Restore, left: Tree): State
    requires r.backup.Some?
  {
    Return(Overwrite(s, who, if r.disturbed then left else r.backup.value.tree), who, r, true)
  }

  function RecoveredStep(s: State, who: Who, ok: bool, left: Tree): State {
    if !InPhase(s, who, Recovering) || s.restores[who].backup.None? then s
    else
      var r := s.restores[who];
      if ok then Finish(s, who, r, left) else Return(s, who, r, false)
  }

  /** Start's own restore has been called and has not downloaded yet. */
  predicate Pending(s: State) {
    Starter in s.restores && s.restores[Starter].phase.Fetching?
  }

  function AddBackup(s: State, name: string, backup: Backup): State {
    s.(store := s.store[name := backup], created := s.created + 1,
       inBetween := if Pending(s) then s.inBetween + {name} else s.inBetween)
  }

  function CreateStep(s: State, name: string, date: int): State {
    if s.pc.Failed? || s.data.None? || !NewerThanAll(s.store, date) then s
    else AddBackup(s, name, Backup(date, s.data.value))
  }

  function PollStep(s: State, w: nat, ok: bool): State {
    if w !in s.waiters || !s.waiters[w].Polling? then s
    else
      var done := ok && !s.pc.Failed? && s.status == DONE;
      s.(waiters := s.waiters[w := if s.stopping then Stopped else if done then SawDone else Polling])
  }

  function WaitStep(s: State, w: nat): State {
    s.(waiters := if w in s.waiters then s.waiters else s.waiters[w := Polling])
  }

  /** A request is a new one, for a listed version, while requests are served: until the process ends. */
  predicate Begins(s: State, e: Event) {
    e.RestoreBackup? && !s.pc.Failed? && Request(e.id) !in s.restores && e.name in s.store
  }

  /** Clocks do not go back between backups. */
  predicate NewerThanAll(store: Store, date: int) {
    forall other :: other in store ==> store[other].date < date
  }

  function Apply(s: State, e: Event): State {
    match e
    case Boot(made, ok) => BootStep(s, made, ok)
    case Check(ok) => CheckStep(s, ok)
    case List(ok, name) => ListStep(s, ok, name)
    case Upgrade(after, ok) => UpgradeStep(s, after, ok)
    case RestoreBackup(id, name) => if Begins(s, e) then Begin(s, Request(id), name) else s
    case Fetch(who, ok) => FetchStep(s, who, ok)
    case Write(who, tree) => WriteStep(s, who, tree)
    case Recovered(who, ok, left) => RecoveredStep(s, who, ok, left)
    case CreateBackup(name, date) => CreateStep(s, name, date)
    case Wait(w) => WaitStep(s, w)
    case Poll(w, ok) => PollStep(s, w, ok)
    case StopSignal => s.(stopping := true)
  }

  function Run(s: State, events: seq<Event>): State {
    if events == [] then s else Apply(Run(s, events[..|events| - 1]), events[|events| - 1])
  }

  function Start(store: Store, data: Option<Tree>): State {
    State(Booting, CHECKING, data, store, map[], map[], false, Undecided, map[], 0, 0, {}, None, false)
  }

  /** The last restore that has written has returned nil, and no other one was in progress meanwhile. */
  predicate Settled(s: State) {
    s.lastWriter.Some? ==>
      var w := s.lastWriter.value;
      w in s.restores && s.restores[w].phase == Returned(true) && !s.restores[w].disturbed
  }

  /** The data is what the life began with, made when it was missing, or the tree of the last writer's backup. */
  predicate IsWhole(data: Option<Tree>, s: State) {
    IsWholeTree(data, s, s.data)
  }

  predicate IsWholeTree(data: Option<Tree>, s: State, now: Option<Tree>) {
    match s.lastWriter
    case None => now == data || (data.None? && now == Some(EmptyDir))
    case Some(w) => w in s.restores && s.restores[w].backup.Some? && now == Some(s.restores[w].backup.value.tree)
  }

  predicate BeforeListing(pc: Pc) {
    pc.Booting? || pc.Checking? || pc.Listing?
  }

  ghost predicate DataInv(data: Option<Tree>, s: State) {
    && (!s.upgraded && Settled(s) ==> IsWhole(data, s))
    && (BeforeListing(s.pc) ==> !s.upgraded)
    && (s.pc.Booting? || s.pc.Failed? || s.upgraded || s.data.Some?)
    && (s.lastWriter.Some? ==>
          && s.lastWriter.value in s.restores && !s.restores[s.lastWriter.value].phase.Fetching?
          && s.restores[s.lastWriter.value].backup.Some?
          && (!s.upgraded ==> s.data.Some?))
  }

  ghost predicate GateInv(s: State) {
    && (s.status == DONE ==> s.pc.Finished?)
    && (s.pc.Upgrading? || s.pc.Finished? ==> !s.reason.Undecided?)
    && (forall w :: w in s.waiters && s.waiters[w].SawDone? ==> s.pc.Finished?)
    && (forall w :: w in s.waiters && s.waiters[w].Stopped? ==> s.stopping)
  }

  /** Start's own call of Restore is for the latest listed entry, and Start goes on exactly when it returns nil. */
  predicate OwnCall(r: Restore, listed: Store, pc: Pc, reason: Reason) {
    && IsLatest(listed, r.name)
    && if r.phase == Returned(true) then
         r.backup.Some? && reason.RestoredBackup? && reason.name == r.name && Some(reason.backup) == r.backup
       else reason.Undecided? && (pc.Failed? || (pc.Restoring? && Active(r)))
  }

  /** What a reason rests on. */
  predicate Grounded(data: Option<Tree>, reason: Reason, listed: Store) {
    match reason
    case FoundData(tree, writer) =>
      Some(tree) != Some(EmptyDir) && writer != Some(Starter) && (writer.None? ==> data == Some(tree))
    case NoBackups => listed == map[]
    case _ => true
  }

  ghost predicate StarterInv(data: Option<Tree>, s: State) {
    && (BeforeListing(s.pc) ==> Starter !in s.restores && s.reason.Undecided?)
    && (s.pc.Restoring? || s.reason.RestoredBackup? ==> Starter in s.restores)
    && (Starter in s.restores ==> OwnCall(s.restores[Starter], s.listed, s.pc, s.reason))
    && Grounded(data, s.reason, s.listed)
  }

  /** Everything that was stored still is, or has made way for something newer than all of it. */
  ghost predicate Grown(a: Store, b: Store) {
    && (forall name :: name in a ==> name in b)
    && (forall name :: name in b ==> (name in a && b[name] == a[name]) || NewerThanAll(a, b[name].date))
  }

  ghost predicate HasNewer(a: Store, b: Store) {
    exists name :: name in b && NewerThanAll(a, b[name].date)
  }

  /** A store after that many backups. */
  ghost predicate After(a: Store, created: nat, b: Store) {
    Grown(a, b) && (created == 0 ==> b == a) && (created > 0 ==> HasNewer(a, b))
  }

  /** What was downloaded for a listed entry: that one, or a newer one that has taken its place meanwhile. */
  ghost predicate Fetched(listed: Store, name: string, b: Backup) {
    name in listed && (b == listed[name] || NewerThanAll(listed, b.date))
  }

  predicate Listed(s: State) {
    s.pc.Restoring? || s.reason.NoBackups? || s.reason.RestoredBackup?
  }

  ghost predicate ListedInv(store: Store, s: State) {
    Listed(s) ==> After(store, s.createdAtList, s.listed) && Grown(s.listed, s.store)
  }

  /** A backup that was created in between, or the entry as it was listed. */
  ghost predicate Overtaken(s: State, name: string, b: Backup) {
    if name in s.inBetween then NewerThanAll(s.listed, b.date) else name in s.listed && b == s.listed[name]
  }

  /** What Start's own restore can download and has downloaded. */
  ghost predicate OvertakenInv(s: State) {
    && (Pending(s) ==> forall name :: name in s.store ==> Overtaken(s, name, s.store[name]))
    && (Starter in s.restores && s.restores[Starter].backup.Some? ==>
          Overtaken(s, s.restores[Starter].name, s.restores[Starter].backup.value))
    && (Starter in s.restores ==> s.restores[Starter].name in s.store)
    && (Pending(s) ==> s.restores[Starter].backup.None?)
  }

  ghost predicate StoreInv(store: Store, s: State) {
    && After(store, s.created, s.store) && ListedInv(store, s)
    && (Starter in s.restores && s.restores[Starter].backup.Some? ==>
          Fetched(s.listed, s.restores[Starter].name, s.restores[Starter].backup.value))
  }

  /** Only requests disturb. */
  ghost predicate CallsInv(s: State) {
    && (Starter in s.restores && s.restores[Starter].disturbed ==> exists id :: Request(id) in s.restores)
    && (Starter in s.restores && s.restores[Starter].phase == Returned(true) ==> s.lastWriter.Some?)
  }

  predicate MetEmpty(s: State) {
    s.pc.Listing? || s.reason.NoBackups? || Starter in s.restores
  }

  predicate WasEmpty(data: Option<Tree>) {
    data.None? || data == Some(EmptyDir)
  }

  ghost predicate EmptyOrRequested(data: Option<Tree>, s: State) {
    WasEmpty(data) || exists id :: Request(id) in s.restores
  }

  /** Where the data that Check met comes from. */
  ghost predicate OriginInv(data: Option<Tree>, s: State) {
    && (s.reason.FoundData? && s.reason.writer.Some? ==> s.reason.writer.value in s.restores)
    && (MetEmpty(s) ==> EmptyOrRequested(data, s))
  }

  ghost predicate Inv(store: Store, data: Option<Tree>, s: State) {
    DataInv(data, s) && StarterInv(data, s) && StoreInv(store, s) && CallsInv(s) && GateInv(s)
    && OriginInv(data, s) && OvertakenInv(s)
  }

  /** One call of Restore while another one begins: at most it is now a disturbed one. */
  predicate SameCall(a: Restore, b: Restore) {
    && b == a.(disturbed := b.disturbed)
    && (a.disturbed ==> b.disturbed) && (a.phase.Returned? ==> b == a)
  }

  lemma BeginEffect(s: State, who: Who, name: string)
    requires who !in s.restores
    ensures var t := Begin(s, who, name);
            && t == s.(status := RESTORING, restores := t.restores)
            && t.restores.Keys == s.restores.Keys + {who}
            && (forall w :: w in s.restores ==> SameCall(s.restores[w], t.restores[w]))
            && t.restores[who].name == name && t.restores[who].backup.None? && t.restores[who].phase.Fetching?
            && (t.restores[who].disturbed <==> Busy(s.restores))
  {
  }

  lemma BeginKeepsData(data: Option<Tree>, s: State, who: Who, name: string)
    requires DataInv(data, s) && who !in s.restores
    ensures DataInv(data, Begin(s, who, name))
  {
    BeginEffect(s, who, name);
    var t := Begin(s, who, name);
    if s.lastWriter.Some? {
      assert SameCall(s.restores[s.lastWriter.value], t.restores[s.lastWriter.value]);
    }
    assert Settled(t) <==> Settled(s);
  }

  lemma BeginKeepsStarter(data: Option<Tree>, s: State, who: Who, name: string)
    requires StarterInv(data, s) && who.Request? && who !in s.restores
    ensures StarterInv(data, Begin(s, who, name))
  {
    BeginEffect(s, who, name);
    if Starter in s.restores {
      assert SameCall(s.restores[Starter], Begin(s, who, name).restores[Starter]);
    }
  }

  lemma BootKeepsData(data: Option<Tree>, s: State, made: bool, ok: bool)
    requires DataInv(data, s)
    ensures DataInv(data, BootStep(s, made, ok))
  {
  }

  lemma BootKeepsStarter(data: Option<Tree>, s: State, made: bool, ok: bool)
    requires StarterInv(data, s) && DataInv(data, s)
    ensures StarterInv(data, BootStep(s, made, ok))
  {
  }

  lemma CheckKeepsData(data: Option<Tree>, s: State, ok: bool)
    requires DataInv(data, s)
    ensures DataInv(data, CheckStep(s, ok))
  {
  }

  lemma CheckKeepsStarter(data: Option<Tree>, s: State, ok: bool)
    requires StarterInv(data, s) && DataInv(data, s)
    ensures StarterInv(data, CheckStep(s, ok))
  {
  }

  lemma LatestKeepsData(data: Option<Tree>, s: State, name: string)
    requires DataInv(data, s) && s.pc.Listing? && Starter !in s.restores
    ensures DataInv(data, RestoreLatest(s, name))
  {
    var t := AtListing(s);
    assert DataInv(data, t);
    BeginKeepsData(data, t, Starter, name);
  }

  lemma LatestKeepsStarter(data: Option<Tree>, s: State, name: string)
    requires StarterInv(data, s) && s.pc.Listing? && IsLatest(s.store, name)
    ensures StarterInv(data, RestoreLatest(s, name))
  {
    BeginEffect(AtListing(s), Starter, name);
  }

  lemma ListKeeps(data: Option<Tree>, s: State, ok: bool, name: string)
    requires DataInv(data, s) && StarterInv(data, s)
    ensures DataInv(data, ListStep(s, ok, name)) && StarterInv(data, ListStep(s, ok, name))
  {
    if s.pc.Listing? && IsLatest(s.store, name) {
      LatestKeepsData(data, s, name);
      LatestKeepsStarter(data, s, name);
    }
  }

  lemma UpgradeKeepsData(data: Option<Tree>, s: State, after: Option<Tree>, ok: bool)
    requires DataInv(data, s)
    ensures DataInv(data, UpgradeStep(s, after, ok))
  {
  }

  lemma UpgradeKeepsStarter(data: Option<Tree>, s: State, after: Option<Tree>, ok: bool)
    requires StarterInv(data, s) && DataInv(data, s)
    ensures StarterInv(data, UpgradeStep(s, after, ok))
  {
  }

  lemma FetchKeepsData(data: Option<Tree>, s: State, who: Who, ok: bool)
    requires DataInv(data, s)
    ensures DataInv(data, FetchStep(s, who, ok))
  {
  }

  lemma FetchKeepsStarter(data: Option<Tree>, s: State, who: Who, ok: bool)
    requires StarterInv(data, s) && DataInv(data, s)
    ensures StarterInv(data, FetchStep(s, who, ok))
  {
  }

  lemma WriteKeepsData(data: Option<Tree>, s: State, who: Who, tree: Tree)
    requires DataInv(data, s)
    ensures DataInv(data, WriteStep(s, who, tree))
  {
  }

  lemma WriteKeepsStarter(data: Option<Tree>, s: State, who: Who, tree: Tree)
    requires StarterInv(data, s) && DataInv(data, s)
    ensures StarterInv(data, WriteStep(s, who, tree))
  {
  }

  lemma RecoveredKeepsData(data: Option<Tree>, s: State, who: Who, ok: bool, left: Tree)
    requires DataInv(data, s)
    ensures DataInv(data, RecoveredStep(s, who, ok, left))
  {
  }

  lemma RecoveredKeepsStarter(data: Option<Tree>, s: State, who: Who, ok: bool, left: Tree)
    requires StarterInv(data, s) && DataInv(data, s)
    ensures StarterInv(data, RecoveredStep(s, who, ok, left))
  {
  }

  lemma SameGrown(a: Store)
    ensures Grown(a, a)
  {
  }

  lemma MoreGrown(a: Store, b: Store, name: string, backup: Backup)
    requires Grown(a, b) && NewerThanAll(b, backup.date)
    ensures Grown(a, b[name := backup]) && HasNewer(a, b[name := backup])
  {
    var c := b[name := backup];
    forall other | other in a ensures a[other].date < backup.date {
      assert b[other].date < backup.date;
      assert b[other] == a[other] || NewerThanAll(a, b[other].date);
    }
    assert c[name] == backup;
  }

  lemma MoreAfter(a: Store, created: nat, b: Store, name: string, backup: Backup)
    requires After(a, created, b) && NewerThanAll(b, backup.date)
    ensures After(a, created + 1, b[name := backup])
  {
    MoreGrown(a, b, name, backup);
  }

  lemma AddKeepsStore(store: Store, s: State, name: string, backup: Backup)
    requires StoreInv(store, s) && NewerThanAll(s.store, backup.date)
    ensures StoreInv(store, AddBackup(s, name, backup))
  {
    MoreAfter(store, s.created, s.store, name, backup);
    AddKeepsListed(store, s, name, backup);
  }

  lemma AddKeepsListed(store: Store, s: State, name: string, backup: Backup)
    requires ListedInv(store, s) && NewerThanAll(s.store, backup.date)
    ensures ListedInv(store, AddBackup(s, name, backup))
  {
    if Listed(s) {
      MoreGrown(s.listed, s.store, name, backup);
    }
  }

  lemma CreateKeepsStore(store: Store, s: State, name: string, date: int)
    requires StoreInv(store, s)
    ensures StoreInv(store, CreateStep(s, name, date))
  {
    if s.data.Some? && NewerThanAll(s.store, date) {
      AddKeepsStore(store, s, name, Backup(date, s.data.value));
    }
  }

  lemma LatestKeepsStore(store: Store, s: State, name: string)
    requires StoreInv(store, s) && Starter !in s.restores
    ensures StoreInv(store, RestoreLatest(s, name))
  {
    BeginEffect(AtListing(s), Starter, name);
    SameGrown(s.store);
  }

  lemma ListKeepsStore(store: Store, s: State, ok: bool, name: string)
    requires StoreInv(store, s) && (s.pc.Listing? ==> Starter !in s.restores)
    ensures StoreInv(store, ListStep(s, ok, name))
  {
    if s.pc.Listing? && IsLatest(s.store, name) {
      LatestKeepsStore(store, s, name);
    } else if s.pc.Listing? && |s.store| == 0 {
      assert s.store == map[];
      SameGrown(s.store);
    }
  }

  lemma FetchKeepsStore(data: Option<Tree>, store: Store, s: State, who: Who, ok: bool)
    requires StoreInv(store, s) && StarterInv(data, s)
    ensures StoreInv(store, FetchStep(s, who, ok))
  {
  }

  lemma RecoveredKeepsStore(data: Option<Tree>, store: Store, s: State, who: Who, ok: bool, left: Tree)
    requires StoreInv(store, s) && StarterInv(data, s)
    ensures StoreInv(store, RecoveredStep(s, who, ok, left))
  {
  }

  lemma BeginKeepsStore(store: Store, s: State, who: Who, name: string)
    requires StoreInv(store, s) && who.Request? && who !in s.restores
    ensures StoreInv(store, Begin(s, who, name))
  {
    BeginEffect(s, who, name);
    if Starter in s.restores {
      assert SameCall(s.restores[Starter], Begin(s, who, name).restores[Starter]);
    }
  }

  lemma BeginKeepsCalls(s: State, who: Who, name: string)
    requires CallsInv(s) && who !in s.restores && (who.Starter? ==> forall w :: w in s.restores ==> w.Request?)
    ensures CallsInv(Begin(s, who, name))
  {
    BeginEffect(s, who, name);
    var t := Begin(s, who, name);
    if Starter in s.restores {
      assert SameCall(s.restores[Starter], t.restores[Starter]);
      assert who.Request? && who in t.restores;
    } else if who.Starter? && Busy(s.restores) {
      var w :| w in s.restores && Active(s.restores[w]);
      assert w.Request? && w in t.restores;
    }
  }

  lemma ListKeepsCalls(s: State, ok: bool, name: string)
    requires CallsInv(s) && GateInv(s) && (s.pc.Listing? ==> Starter !in s.restores)
    ensures CallsInv(ListStep(s, ok, name)) && GateInv(ListStep(s, ok, name))
  {
    if s.pc.Listing? && IsLatest(s.store, name) {
      var t := AtListing(s);
      BeginEffect(t, Starter, name);
      BeginKeepsCalls(t, Starter, name);
    }
  }

  lemma RecoveredKeepsCalls(s: State, who: Who, ok: bool, left: Tree)
    requires CallsInv(s) && GateInv(s)
    ensures CallsInv(RecoveredStep(s, who, ok, left))
  {
  }

  lemma RecoveredKeepsGate(data: Option<Tree>, s: State, who: Who, ok: bool, left: Tree)
    requires GateInv(s) && StarterInv(data, s)
    ensures GateInv(RecoveredStep(s, who, ok, left))
  {
  }

  lemma FetchKeepsCalls(data: Option<Tree>, s: State, who: Who, ok: bool)
    requires CallsInv(s) && GateInv(s) && StarterInv(data, s)
    ensures CallsInv(FetchStep(s, who, ok)) && GateInv(FetchStep(s, who, ok))
  {
  }

  lemma PollKeepsGate(s: State, w: nat, ok: bool)
    requires GateInv(s)
    ensures GateInv(PollStep(s, w, ok))
  {
  }

  lemma BeginKeepsOrigin(data: Option<Tree>, s: State, who: Who, name: string)
    requires OriginInv(data, s) && who !in s.restores && (who.Starter? ==> EmptyOrRequested(data, s))
    ensures OriginInv(data, Begin(s, who, name))
  {
    BeginEffect(s, who, name);
    assert forall w :: w in s.restores ==> w in Begin(s, who, name).restores;
  }

  lemma CheckKeepsOrigin(data: Option<Tree>, s: State, ok: bool)
    requires OriginInv(data, s) && DataInv(data, s) && StarterInv(data, s)
    ensures OriginInv(data, CheckStep(s, ok))
  {
    if s.pc.Checking? && s.lastWriter.Some? {
      match s.lastWriter.value
      case Request(id) => assert Request(id) in s.restores;
      case Starter =>
    }
  }

  lemma LatestKeepsOrigin(data: Option<Tree>, s: State, name: string)
    requires OriginInv(data, s) && s.pc.Listing? && Starter !in s.restores
    ensures OriginInv(data, RestoreLatest(s, name))
  {
    BeginKeepsOrigin(data, AtListing(s), Starter, name);
  }

  lemma ListKeepsOrigin(data: Option<Tree>, s: State, ok: bool, name: string)
    requires OriginInv(data, s) && (s.pc.Listing? ==> Starter !in s.restores)
    ensures OriginInv(data, ListStep(s, ok, name))
  {
    if s.pc.Listing? && IsLatest(s.store, name) {
      LatestKeepsOrigin(data, s, name);
    }
  }

  lemma FetchKeepsOrigin(data: Option<Tree>, s: State, who: Who, ok: bool)
    requires OriginInv(data, s) && StarterInv(data, s)
    ensures OriginInv(data, FetchStep(s, who, ok))
  {
  }

  lemma RecoveredKeepsOrigin(data: Option<Tree>, s: State, who: Who, ok: bool, left: Tree)
    requires OriginInv(data, s) && StarterInv(data, s)
    ensures OriginInv(data, RecoveredStep(s, who, ok, left))
  {
  }

  lemma BeginKeepsOvertaken(s: State, who: Who, name: string)
    requires OvertakenInv(s) && who.Request? && who !in s.restores
    ensures OvertakenInv(Begin(s, who, name))
  {
    BeginEffect(s, who, name);
    if Starter in s.restores {
      assert SameCall(s.restores[Starter], Begin(s, who, name).restores[Starter]);
    }
  }

  lemma LatestKeepsOvertaken(s: State, name: string)
    requires Starter !in s.restores && name in s.store
    ensures OvertakenInv(RestoreLatest(s, name))
  {
    BeginEffect(AtListing(s), Starter, name);
  }

  lemma ListKeepsOvertaken(s: State, ok: bool, name: string)
    requires OvertakenInv(s) && (s.pc.Listing? ==> Starter !in s.restores)
    ensures OvertakenInv(ListStep(s, ok, name))
  {
    if s.pc.Listing? && IsLatest(s.store, name) {
      LatestKeepsOvertaken(s, name);
    }
  }

  lemma FetchKeepsOvertaken(s: State, who: Who, ok: bool)
    requires OvertakenInv(s)
    ensures OvertakenInv(FetchStep(s, who, ok))
  {
  }

  lemma RecoveredKeepsOvertaken(s: State, who: Who, ok: bool, left: Tree)
    requires OvertakenInv(s)
    ensures OvertakenInv(RecoveredStep(s, who, ok, left))
  {
  }

  lemma AddKeepsOvertaken(store: Store, s: State, name: string, backup: Backup)
    requires OvertakenInv(s) && ListedInv(store, s) && (Pending(s) ==> s.pc.Restoring?)
    requires NewerThanAll(s.store, backup.date)
    ensures OvertakenInv(AddBackup(s, name, backup))
  {
    if Pending(s) {
      MoreGrown(s.listed, s.store, name, backup);
      assert NewerThanAll(s.listed, backup.date) by {
        NewerThanGrown(s.listed, s.store, backup.date);
      }
    }
  }

  lemma CreateKeepsOvertaken(data: Option<Tree>, store: Store, s: State, name: string, date: int)
    requires OvertakenInv(s) && ListedInv(store, s) && StarterInv(data, s)
    ensures OvertakenInv(CreateStep(s, name, date))
  {
    if !s.pc.Failed? && s.data.Some? && NewerThanAll(s.store, date) {
      AddKeepsOvertaken(store, s, name, Backup(date, s.data.value));
    }
  }

  lemma NewerThanGrown(a: Store, b: Store, date: int)
    requires Grown(a, b) && NewerThanAll(b, date)
    ensures NewerThanAll(a, date)
  {
    forall name | name in a ensures a[name].date < date {
      assert b[name].date < date;
    }
  }

  lemma BeginKeepsAll(store: Store, data: Option<Tree>, s: State, id: nat, name: string)
    requires Inv(store, data, s) && Request(id) !in s.restores
    ensures Inv(store, data, Begin(s, Request(id), name))
  {
    BeginKeepsData(data, s, Request(id), name);
    BeginKeepsStarter(data, s, Request(id), name);
    BeginKeepsStore(store, s, Request(id), name);
    BeginKeepsCalls(s, Request(id), name);
    BeginKeepsOrigin(data, s, Request(id), name);
    BeginKeepsOvertaken(s, Request(id), name);
    BeginEffect(s, Request(id), name);
  }

  lemma BootKeepsRest(store: Store, data: Option<Tree>, s: State, made: bool, ok: bool)
    requires StoreInv(store, s) && CallsInv(s) && GateInv(s) && OriginInv(data, s)
    ensures var t := BootStep(s, made, ok); StoreInv(store, t) && CallsInv(t) && GateInv(t) && OriginInv(data, t)
  {
  }

  lemma BootKeepsAll(store: Store, data: Option<Tree>, s: State, made: bool, ok: bool)
    requires Inv(store, data, s)
    ensures Inv(store, data, BootStep(s, made, ok))
  {
    BootKeepsData(data, s, made, ok);
    BootKeepsStarter(data, s, made, ok);
    BootKeepsRest(store, data, s, made, ok);
  }

  lemma CheckKeepsRest(store: Store, s: State, ok: bool)
    requires StoreInv(store, s) && CallsInv(s) && GateInv(s)
    ensures StoreInv(store, CheckStep(s, ok)) && CallsInv(CheckStep(s, ok)) && GateInv(CheckStep(s, ok))
  {
  }

  lemma CheckKeepsAll(store: Store, data: Option<Tree>, s: State, ok: bool)
    requires Inv(store, data, s)
    ensures Inv(store, data, CheckStep(s, ok))
  {
    CheckKeepsData(data, s, ok);
    CheckKeepsStarter(data, s, ok);
    CheckKeepsRest(store, s, ok);
    CheckKeepsOrigin(data, s, ok);
  }

  lemma UpgradeKeepsRest(store: Store, s: State, after: Option<Tree>, ok: bool)
    requires StoreInv(store, s) && CallsInv(s) && GateInv(s)
    ensures var t := UpgradeStep(s, after, ok); StoreInv(store, t) && CallsInv(t) && GateInv(t)
  {
  }

  lemma UpgradeKeepsAll(store: Store, data: Option<Tree>, s: State, after: Option<Tree>, ok: bool)
    requires Inv(store, data, s)
    ensures Inv(store, data, UpgradeStep(s, after, ok))
  {
    UpgradeKeepsData(data, s, after, ok);
    UpgradeKeepsStarter(data, s, after, ok);
    UpgradeKeepsRest(store, s, after, ok);
  }

  lemma FetchKeepsAll(store: Store, data: Option<Tree>, s: State, who: Who, ok: bool)
    requires Inv(store, data, s)
    ensures Inv(store, data, FetchStep(s, who, ok))
  {
    FetchKeepsData(data, s, who, ok);
    FetchKeepsStarter(data, s, who, ok);
    FetchKeepsStore(data, store, s, who, ok);
    FetchKeepsCalls(data, s, who, ok);
    FetchKeepsOrigin(data, s, who, ok);
    FetchKeepsOvertaken(s, who, ok);
  }

  lemma RecoveredKeepsAll(store: Store, data: Option<Tree>, s: State, who: Who, ok: bool, left: Tree)
    requires Inv(store, data, s)
    ensures Inv(store, data, RecoveredStep(s, who, ok, left))
  {
    RecoveredKeepsData(data, s, who, ok, left);
    RecoveredKeepsStarter(data, s, who, ok, left);
    RecoveredKeepsStore(data, store, s, who, ok, left);
    RecoveredKeepsCalls(s, who, ok, left);
    RecoveredKeepsGate(data, s, who, ok, left);
    RecoveredKeepsOrigin(data, s, who, ok, left);
    RecoveredKeepsOvertaken(s, who, ok, left);
  }

  lemma WriteKeepsAll(store: Store, data: Option<Tree>, s: State, who: Who, tree: Tree)
    requires Inv(store, data, s)
    ensures Inv(store, data, WriteStep(s, who, tree))
  {
    WriteKeepsData(data, s, who, tree);
    WriteKeepsStarter(data, s, who, tree);
  }

  lemma CreateKeepsAll(store: Store, data: Option<Tree>, s: State, name: string, date: int)
    requires Inv(store, data, s)
    ensures Inv(store, data, CreateStep(s, name, date))
  {
    CreateKeepsStore(store, s, name, date);
    AddKeepsRest(data, s, name, date);
    CreateKeepsOvertaken(data, store, s, name, date);
  }

  /** A new backup changes the store only. */
  lemma AddKeepsRest(data: Option<Tree>, s: State, name: string, date: int)
    requires DataInv(data, s) && StarterInv(data, s) && CallsInv(s) && GateInv(s)
    ensures var t := CreateStep(s, name, date);
            DataInv(data, t) && StarterInv(data, t) && CallsInv(t) && GateInv(t)
  {
    if s.data.Some? {
      var t := AddBackup(s, name, Backup(date, s.data.value));
      assert DataInv(data, t) && StarterInv(data, t) && CallsInv(t) && GateInv(t);
    }
  }

  lemma PollKeepsAll(store: Store, data: Option<Tree>, s: State, w: nat, ok: bool)
    requires Inv(store, data, s)
    ensures Inv(store, data, PollStep(s, w, ok))
  {
    PollKeepsGate(s, w, ok);
  }

  lemma WaitKeepsAll(store: Store, data: Option<Tree>, s: State, w: nat)
    requires Inv(store, data, s)
    ensures Inv(store, data, WaitStep(s, w))
  {
  }

  lemma StopKeepsAll(store: Store, data: Option<Tree>, s: State)
    requires Inv(store, data, s)
    ensures Inv(store, data, s.(stopping := true))
  {
  }

  lemma ListKeepsAll(store: Store, data: Option<Tree>, s: State, ok: bool, name: string)
    requires Inv(store, data, s)
    ensures Inv(store, data, ListStep(s, ok, name))
  {
    ListKeeps(data, s, ok, name);
    ListKeepsStore(store, s, ok, name);
    ListKeepsCalls(s, ok, name);
    ListKeepsOrigin(data, s, ok, name);
    ListKeepsOvertaken(s, ok, name);
  }

  lemma StepKeeps(store: Store, data: Option<Tree>, s: State, e: Event)
    requires Inv(store, data, s)
    ensures Inv(store, data, Apply(s, e))
  {
    match e
    case Boot(made, ok) => BootKeepsAll(store, data, s, made, ok);
    case Check(ok) => CheckKeepsAll(store, data, s, ok);
    case List(ok, name) => ListKeepsAll(store, data, s, ok, name);
    case Upgrade(after, ok) => UpgradeKeepsAll(store, data, s, after, ok);
    case RestoreBackup(id, name) =>
      if Begins(s, e) {
        BeginKeepsAll(store, data, s, id, name);
      }
    case Fetch(who, ok) => FetchKeepsAll(store, data, s, who, ok);
    case Write(who, tree) => WriteKeepsAll(store, data, s, who, tree);
    case Recovered(who, ok, left) => RecoveredKeepsAll(store, data, s, who, ok, left);
    case CreateBackup(name, date) => CreateKeepsAll(store, data, s, name, date);
    case Wait(w) => WaitKeepsAll(store, data, s, w);
    case Poll(w, ok) => PollKeepsAll(store, data, s, w, ok);
    case StopSignal => StopKeepsAll(store, data, s);
  }

  lemma {:induction false} RunKeeps(store: Store, data: Option<Tree>, events: seq<Event>)
    ensures Inv(store, data, Run(Start(store, data), events))
  {
    if events == [] {
      SameGrown(store);
    } else {
      RunKeeps(store, data, events[..|events| - 1]);
      StepKeeps(store, data, Run(Start(store, data), events[..|events| - 1]), events[|events| - 1]);
    }
  }

  /** In every interleaving: DONE means that Start's own initialize and upgrade returned nil, on data that Check found
      and nobody or a request had written, on an empty store, or on the latest entry of the listing, or a newer one
      in its place by the time of the download. Containers go ahead only after that, unless told to stop. */
  lemma {:induction false} DoneMeansInitialized(store: Store, data: Option<Tree>, events: seq<Event>)
    ensures var s := Run(Start(store, data), events);
            && (s.status == DONE ==>
                  && s.pc.Finished?
                  && match s.reason
                     case Undecided => false
                     case FoundData(tree, writer) =>
                       tree != EmptyDir && (if writer.None? then data == Some(tree) else writer.value.Request?)
                     case NoBackups => s.listed == map[]
                     case RestoredBackup(name, b) => IsLatest(s.listed, name) && Fetched(s.listed, name, b))
            && (forall w :: w in s.waiters && s.waiters[w].SawDone? ==> s.pc.Finished?)
            && (forall w :: w in s.waiters && !s.waiters[w].Polling? && !s.stopping ==> s.waiters[w].SawDone?)
  {
    RunKeeps(store, data, events);
    var s := Run(Start(store, data), events);
    if s.status == DONE && s.reason.FoundData? && s.reason.writer.Some? {
      assert s.reason.writer.value != Starter;
    }
  }

  /** Calls of Restore that are in progress at the same time are all disturbed. */
  ghost predicate OverlapDisturbs(restores: map<Who, Restore>) {
    forall v, w :: v in restores && w in restores && v != w && Active(restores[v]) && Active(restores[w]) ==>
      restores[v].disturbed
  }

  lemma BeginOverlaps(s: State, who: Who, name: string)
    requires OverlapDisturbs(s.restores) && who !in s.restores
    ensures OverlapDisturbs(Begin(s, who, name).restores)
  {
    BeginEffect(s, who, name);
    var t := Begin(s, who, name);
    forall v, w | v in t.restores && w in t.restores && v != w && Active(t.restores[v]) && Active(t.restores[w])
      ensures t.restores[v].disturbed
    {
      if v == who {
        assert SameCall(s.restores[w], t.restores[w]) && Active(s.restores[w]);
      } else {
        assert t.restores[v] == Disturb(s.restores[v]);
      }
    }
  }

  lemma ListOverlaps(data: Option<Tree>, s: State, ok: bool, name: string)
    requires OverlapDisturbs(s.restores) && StarterInv(data, s)
    ensures OverlapDisturbs(ListStep(s, ok, name).restores)
  {
    if s.pc.Listing? && IsLatest(s.store, name) {
      BeginOverlaps(AtListing(s), Starter, name);
    }
  }

  lemma ReplaceOverlaps(restores: map<Who, Restore>, who: Who, r: Restore)
    requires OverlapDisturbs(restores) && who in restores && r.disturbed == restores[who].disturbed
    requires Active(r) ==> Active(restores[who])
    ensures OverlapDisturbs(restores[who := r])
  {
  }

  lemma FetchOverlaps(s: State, who: Who, ok: bool)
    requires OverlapDisturbs(s.restores)
    ensures OverlapDisturbs(FetchStep(s, who, ok).restores)
  {
    if InPhase(s, who, Fetching) {
      var r := s.restores[who];
      ReplaceOverlaps(s.restores, who, r.(phase := Returned(false)));
      if r.name in s.store {
        ReplaceOverlaps(s.restores, who, r.(phase := Recovering, backup := Some(s.store[r.name])));
      }
    }
  }

  lemma RecoveredOverlaps(s: State, who: Who, ok: bool, left: Tree)
    requires OverlapDisturbs(s.restores)
    ensures OverlapDisturbs(RecoveredStep(s, who, ok, left).restores)
  {
    if InPhase(s, who, Recovering) {
      ReplaceOverlaps(s.restores, who, s.restores[who].(phase := Returned(ok)));
    }
  }

  lemma StepOverlaps(data: Option<Tree>, s: State, e: Event)
    requires OverlapDisturbs(s.restores) && StarterInv(data, s)
    ensures OverlapDisturbs(Apply(s, e).restores)
  {
    match e
    case List(ok, name) => ListOverlaps(data, s, ok, name);
    case RestoreBackup(id, name) =>
      if Begins(s, e) {
        BeginOverlaps(s, Request(id), name);
      }
    case Fetch(who, ok) => FetchOverlaps(s, who, ok);
    case Write(who, tree) => WriteCalls(s, who, tree);
    case Recovered(who, ok, left) => RecoveredOverlaps(s, who, ok, left);
    case Wait(_) =>
    case Poll(_, _) =>
    case StopSignal =>
    case _ => StartCalls(s, e);
  }

  /** In every interleaving, so that a call which returns undisturbed had the restore and the data directory to itself. */
  lemma {:induction false} RunOverlaps(store: Store, data: Option<Tree>, events: seq<Event>)
    ensures OverlapDisturbs(Run(Start(store, data), events).restores)
  {
    if events != [] {
      var init := events[..|events| - 1];
      RunOverlaps(store, data, init);
      RunKeeps(store, data, init);
      StepOverlaps(data, Run(Start(store, data), init), events[|events| - 1]);
    }
  }

  predicate OnlyOwn(s: State) {
    forall w :: w in s.restores ==> w.Starter?
  }

  lemma ListCalls(s: State, ok: bool, name: string)
    requires OnlyOwn(s)
    ensures OnlyOwn(ListStep(s, ok, name))
  {
  }

  lemma FetchCalls(s: State, who: Who, ok: bool)
    requires OnlyOwn(s)
    ensures OnlyOwn(FetchStep(s, who, ok))
  {
  }

  lemma RecoveredCalls(s: State, who: Who, ok: bool, left: Tree)
    requires OnlyOwn(s)
    ensures OnlyOwn(RecoveredStep(s, who, ok, left))
  {
  }

  lemma StartCalls(s: State, e: Event)
    requires e.Boot? || e.Check? || e.Upgrade? || e.CreateBackup?
    ensures Apply(s, e).restores == s.restores
  {
  }

  lemma WriteCalls(s: State, who: Who, tree: Tree)
    ensures WriteStep(s, who, tree).restores == s.restores
  {
  }

  lemma OtherCalls(s: State, e: Event)
    requires OnlyOwn(s) && !e.RestoreBackup?
    ensures OnlyOwn(Apply(s, e))
  {
    match e
    case List(ok, name) => ListCalls(s, ok, name);
    case Fetch(who, ok) => FetchCalls(s, who, ok);
    case Write(who, tree) => WriteCalls(s, who, tree);
    case Recovered(who, ok, left) => RecoveredCalls(s, who, ok, left);
    case Wait(_) =>
    case Poll(_, _) =>
    case StopSignal =>
    case _ => StartCalls(s, e);
  }

  lemma {:induction false} RunCalls(s: State, events: seq<Event>)
    requires forall e :: e in events ==> !e.RestoreBackup?
    requires OnlyOwn(s)
    ensures OnlyOwn(Run(s, events))
  {
    if events != [] {
      RunCalls(s, events[..|events| - 1]);
      OtherCalls(Run(s, events[..|events| - 1]), events[|events| - 1]);
    }
  }

  /** DONE on anything else is the work of a request: the last writer, or one in progress with Start's own restore. */
  lemma {:induction false} UnsettledByRequest(store: Store, data: Option<Tree>, events: seq<Event>)
    ensures var s := Run(Start(store, data), events);
            s.pc.Finished? && !Settled(s) ==>
              && s.lastWriter.Some? && s.lastWriter.value in s.restores
              && (s.lastWriter.value.Request? || s.restores[s.lastWriter.value].disturbed)
              && exists id :: Request(id) in s.restores
  {
    RunKeeps(store, data, events);
    var s := Run(Start(store, data), events);
    if s.pc.Finished? && !Settled(s) {
      match s.lastWriter.value
      case Request(id) =>
      case Starter => assert s.restores[Starter].phase == Returned(true);
    }
  }

  /** No fresh database over existing backups, in every interleaving: with backups in the store and no data, DONE
      means that the latest listed backup was restored, or that Check met what a request had written. */
  lemma {:induction false} NoFreshDatabase(store: Store, data: Option<Tree>, events: seq<Event>)
    requires store != map[] && WasEmpty(data)
    ensures var s := Run(Start(store, data), events);
            s.status == DONE ==>
              || (s.reason.FoundData? && s.reason.writer.Some? && s.reason.writer.value.Request?)
              || (s.reason.RestoredBackup? && IsLatest(s.listed, s.reason.name)
                  && Fetched(s.listed, s.reason.name, s.reason.backup))
  {
    RunKeeps(store, data, events);
    DoneMeansInitialized(store, data, events);
    var s := Run(Start(store, data), events);
    if s.status == DONE {
      NotFresh(store, data, s);
    }
  }

  /** Start is beyond its Check, having found data or not. */
  predicate Beyond(s: State, found: bool) {
    !s.pc.Booting? && !s.pc.Checking? && (s.reason.FoundData? <==> found)
  }

  lemma ListBeyond(s: State, ok: bool, name: string, found: bool)
    requires Beyond(s, found) && (s.pc.Listing? ==> s.reason.Undecided?)
    ensures Beyond(ListStep(s, ok, name), found)
  {
  }

  lemma FetchBeyond(data: Option<Tree>, s: State, who: Who, ok: bool, found: bool)
    requires Beyond(s, found) && StarterInv(data, s)
    ensures Beyond(FetchStep(s, who, ok), found)
  {
  }

  lemma RecoveredBeyond(data: Option<Tree>, s: State, who: Who, ok: bool, left: Tree, found: bool)
    requires Beyond(s, found) && StarterInv(data, s)
    ensures Beyond(RecoveredStep(s, who, ok, left), found)
  {
  }

  lemma CheckBeyond(s: State, ok: bool, found: bool)
    requires Beyond(s, found)
    ensures Beyond(CheckStep(s, ok), found)
  {
  }

  lemma UpgradeBeyond(s: State, after: Option<Tree>, ok: bool, found: bool)
    requires Beyond(s, found)
    ensures Beyond(UpgradeStep(s, after, ok), found)
  {
  }

  lemma CreateBeyond(s: State, name: string, date: int, found: bool)
    requires Beyond(s, found)
    ensures Beyond(CreateStep(s, name, date), found)
  {
  }

  lemma PollBeyond(s: State, w: nat, ok: bool, found: bool)
    requires Beyond(s, found)
    ensures Beyond(PollStep(s, w, ok), found)
  {
  }

  lemma BootBeyond(s: State, made: bool, ok: bool, found: bool)
    requires Beyond(s, found)
    ensures Beyond(BootStep(s, made, ok), found)
  {
  }

  lemma BeginBeyond(s: State, who: Who, name: string, found: bool)
    requires Beyond(s, found)
    ensures Beyond(Begin(s, who, name), found)
  {
  }

  lemma WriteBeyond(s: State, who: Who, tree: Tree, found: bool)
    requires Beyond(s, found)
    ensures Beyond(WriteStep(s, who, tree), found)
  {
  }

  lemma StepBeyond(data: Option<Tree>, s: State, e: Event, found: bool)
    requires Beyond(s, found) && StarterInv(data, s)
    ensures Beyond(Apply(s, e), found)
  {
    match e
    case Boot(made, ok) => BootBeyond(s, made, ok, found);
    case Check(ok) => CheckBeyond(s, ok, found);
    case List(ok, name) => ListBeyond(s, ok, name, found);
    case Upgrade(after, ok) => UpgradeBeyond(s, after, ok, found);
    case RestoreBackup(id, name) => BeginBeyond(s, Request(id), name, found);
    case Fetch(who, ok) => FetchBeyond(data, s, who, ok, found);
    case Write(who, tree) => WriteBeyond(s, who, tree, found);
    case Recovered(who, ok, left) => RecoveredBeyond(data, s, who, ok, left, found);
    case CreateBackup(name, date) => CreateBeyond(s, name, date, found);
    case Wait(w) =>
    case Poll(w, ok) => PollBeyond(s, w, ok, found);
    case StopSignal =>
  }

  lemma {:induction false} RunBeyond(store: Store, data: Option<Tree>, s: State, events: seq<Event>, found: bool)
    requires Inv(store, data, s) && Beyond(s, found)
    ensures Inv(store, data, Run(s, events)) && Beyond(Run(s, events), found)
  {
    if events != [] {
      RunBeyond(store, data, s, events[..|events| - 1], found);
      StepKeeps(store, data, Run(s, events[..|events| - 1]), events[|events| - 1]);
      StepBeyond(data, Run(s, events[..|events| - 1]), events[|events| - 1], found);
    }
  }

  /** Which of the two it is, is decided by the data directory at the moment of Check. */
  lemma {:induction false} CheckDecides(store: Store, data: Option<Tree>, before: seq<Event>, after: seq<Event>)
    requires store != map[] && WasEmpty(data)
    requires Run(Start(store, data), before).pc.Checking?
    ensures var c := Run(Start(store, data), before);
            var s := Run(Apply(c, Check(true)), after);
            && (c.lastWriter.None? ==> c.data == Some(EmptyDir))
            && (s.status == DONE ==>
                  && (s.reason.FoundData? <==> c.data != Some(EmptyDir))
                  && (s.reason.RestoredBackup? <==> c.data == Some(EmptyDir)))
  {
    RunKeeps(store, data, before);
    var c := Run(Start(store, data), before);
    StepKeeps(store, data, c, Check(true));
    CheckFound(data, c);
    RunBeyond(store, data, Apply(c, Check(true)), after, c.data != Some(EmptyDir));
    var s := Run(Apply(c, Check(true)), after);
    if s.status == DONE {
      NotFresh(store, data, s);
    }
  }

  lemma CheckFound(data: Option<Tree>, c: State)
    requires DataInv(data, c) && StarterInv(data, c) && c.pc.Checking?
    ensures Beyond(CheckStep(c, true), c.data != Some(EmptyDir))
    ensures c.lastWriter.None? && WasEmpty(data) ==> c.data == Some(EmptyDir)
  {
  }

  lemma NotFresh(store: Store, data: Option<Tree>, s: State)
    requires Inv(store, data, s) && store != map[] && s.pc.Finished?
    ensures s.reason.FoundData? || s.reason.RestoredBackup?
  {
    var name :| name in store;
    assert Listed(s) ==> name in s.listed;
  }

  /** Without requests DONE is reached on the data that was there, on a fresh directory when nothing is stored, or on
      the whole latest backup; and data that was there is kept, whatever it is, exactly when there was any. */
  lemma {:induction false} WithoutRequests(store: Store, data: Option<Tree>, events: seq<Event>)
    requires forall e :: e in events ==> !e.RestoreBackup?
    ensures var s := Run(Start(store, data), events);
            s.status == DONE && !s.upgraded ==>
              && (s.reason.FoundData? <==> data.Some? && data != Some(EmptyDir))
              && match s.reason
                 case Undecided => false
                 case FoundData(tree, _) => s.data == data
                 case NoBackups => store == map[] && s.data == Some(EmptyDir)
                 case RestoredBackup(name, b) =>
                   s.data == Some(b.tree) && IsLatest(s.listed, name) && Fetched(s.listed, name, b)
  {
    RunKeeps(store, data, events);
    RunCalls(Start(store, data), events);
    DoneMeansInitialized(store, data, events);
    var s := Run(Start(store, data), events);
    if s.status == DONE {
      OwnSettled(store, data, s);
      if s.reason.RestoredBackup? && !s.upgraded {
        OwnWriter(store, data, s);
      }
    }
  }

  lemma OwnSettled(store: Store, data: Option<Tree>, s: State)
    requires Inv(store, data, s) && OnlyOwn(s) && s.pc.Finished?
    ensures Settled(s)
    ensures s.reason.FoundData? || s.reason.NoBackups? ==> s.lastWriter.None?
    ensures MetEmpty(s) ==> WasEmpty(data)
  {
    if s.lastWriter.Some? {
      assert s.lastWriter.value == Starter;
    }
  }

  lemma OwnWriter(store: Store, data: Option<Tree>, s: State)
    requires Inv(store, data, s) && OnlyOwn(s) && s.pc.Finished? && s.reason.RestoredBackup? && !s.upgraded
    ensures s.data == Some(s.reason.backup.tree)
  {
    OwnSettled(store, data, s);
    assert s.lastWriter == Some(Starter);
    assert s.restores[Starter].backup == Some(s.reason.backup);
  }

  /** Which backup: the latest one of those before this life, if and only if none was created before the listing and
      none in its place between the listing and the download; otherwise one that is newer than all those. */
  lemma {:induction false} RestoredIsNewest(store: Store, data: Option<Tree>, events: seq<Event>)
    ensures var s := Run(Start(store, data), events);
            s.status == DONE && s.reason.RestoredBackup? ==>
              var name, b := s.reason.name, s.reason.backup;
              && (IsLatest(store, name) && b == store[name] <==> s.createdAtList == 0 && name !in s.inBetween)
              && (s.createdAtList > 0 || name in s.inBetween ==> NewerThanAll(store, b.date))
  {
    RunKeeps(store, data, events);
    var s := Run(Start(store, data), events);
    if s.status == DONE && s.reason.RestoredBackup? {
      OwnBackup(store, data, s);
      if s.createdAtList > 0 {
        NewestListed(store, s.listed, s.reason.name, s.reason.backup);
      }
    }
  }

  lemma OwnBackup(store: Store, data: Option<Tree>, s: State)
    requires Inv(store, data, s) && s.reason.RestoredBackup?
    ensures Overtaken(s, s.reason.name, s.reason.backup) && IsLatest(s.listed, s.reason.name)
    ensures After(store, s.createdAtList, s.listed)
  {
    assert Some(s.reason.backup) == s.restores[Starter].backup;
  }

  lemma NewestListed(store: Store, listed: Store, name: string, b: Backup)
    requires HasNewer(store, listed) && IsLatest(listed, name)
    requires b == listed[name] || NewerThanAll(listed, b.date)
    ensures NewerThanAll(store, b.date)
  {
    var newer :| newer in listed && NewerThanAll(store, listed[newer].date);
    assert listed[newer].date <= listed[name].date <= b.date;
  }

  predicate Begun(s: State, events: seq<Event>, k: nat)
    requires k < |events|
  {
    Begins(Run(s, events[..k]), events[k])
  }

  /** No request of the sequence begins. */
  ghost predicate NoneBegins(s: State, events: seq<Event>) {
    forall k :: 0 <= k < |events| ==> !Begun(s, events, k)
  }

  lemma NoneBeginsMore(s: State, events: seq<Event>)
    requires events != []
    ensures var k := |events| - 1;
            NoneBegins(s, events) <==> NoneBegins(s, events[..k]) && !Begun(s, events, k)
  {
    var n := |events| - 1;
    forall k | 0 <= k < n ensures Begun(s, events, k) <==> Begun(s, events[..n], k) {
      assert events[..n][..k] == events[..k];
    }
  }

  /** Start has returned, and its own call of Restore with it. */
  predicate Over(s: State) {
    s.pc.Finished? && (Starter in s.restores ==> s.restores[Starter].phase.Returned?)
  }

  /** Start stays over, and the status is what it was. */
  predicate StaysOver(s: State, t: State) {
    Over(t) && t.status == s.status
  }

  lemma BeginOver(s: State, id: nat, name: string)
    requires Over(s) && Request(id) !in s.restores
    ensures Over(Begin(s, Request(id), name)) && Begin(s, Request(id), name).status == RESTORING
    ensures Begin(s, Request(id), name).waiters == s.waiters
  {
    BeginEffect(s, Request(id), name);
    if Starter in s.restores {
      assert SameCall(s.restores[Starter], Begin(s, Request(id), name).restores[Starter]);
    }
  }

  lemma FetchOver(s: State, who: Who, ok: bool)
    requires Over(s)
    ensures StaysOver(s, FetchStep(s, who, ok)) && FetchStep(s, who, ok).waiters == s.waiters
  {
  }

  lemma RecoveredOver(s: State, who: Who, ok: bool, left: Tree)
    requires Over(s)
    ensures StaysOver(s, RecoveredStep(s, who, ok, left)) && RecoveredStep(s, who, ok, left).waiters == s.waiters
  {
  }

  lemma StartOver(s: State, e: Event)
    requires Over(s) && (e.Boot? || e.Check? || e.List? || e.Upgrade?)
    ensures Apply(s, e) == s
  {
  }

  lemma CreateOver(s: State, name: string, date: int)
    requires Over(s)
    ensures StaysOver(s, CreateStep(s, name, date)) && CreateStep(s, name, date).waiters == s.waiters
  {
  }

  lemma PollOver(s: State, w: nat, ok: bool)
    requires Over(s)
    ensures StaysOver(s, PollStep(s, w, ok))
  {
  }

  lemma OverStep(s: State, e: Event)
    requires Over(s)
    ensures Over(Apply(s, e)) && (Apply(s, e).status == DONE <==> s.status == DONE && !Begins(s, e))
  {
    match e
    case RestoreBackup(id, name) =>
      if Begins(s, e) {
        BeginOver(s, id, name);
      }
    case Boot(_, _) => StartOver(s, e);
    case Check(_) => StartOver(s, e);
    case List(_, _) => StartOver(s, e);
    case Upgrade(_, _) => StartOver(s, e);
    case Fetch(who, ok) => FetchOver(s, who, ok);
    case Write(who, tree) =>
    case Recovered(who, ok, left) => RecoveredOver(s, who, ok, left);
    case CreateBackup(name, date) => CreateOver(s, name, date);
    case Wait(w) =>
    case Poll(w, ok) => PollOver(s, w, ok);
    case StopSignal =>
  }

  lemma OverWaits(s: State, e: Event, w: nat)
    requires Over(s) && s.status != DONE && w in s.waiters && !s.waiters[w].SawDone?
    ensures w in Apply(s, e).waiters && !Apply(s, e).waiters[w].SawDone?
  {
    match e
    case Fetch(who, ok) => FetchOver(s, who, ok);
    case Recovered(who, ok, left) => RecoveredOver(s, who, ok, left);
    case _ =>
  }

  lemma {:induction false} OverRun(s: State, events: seq<Event>)
    requires Over(s) && s.status == DONE
    ensures Over(Run(s, events)) && (Run(s, events).status == DONE <==> NoneBegins(s, events))
  {
    if events != [] {
      OverRun(s, events[..|events| - 1]);
      NoneBeginsMore(s, events);
      OverStep(Run(s, events[..|events| - 1]), events[|events| - 1]);
    }
  }

  /** Once Start is done, the status is DONE exactly as long as no further restore request has begun. */
  lemma {:induction false} DoneIsNotRegained(store: Store, data: Option<Tree>, before: seq<Event>, events: seq<Event>)
    requires Run(Start(store, data), before).status == DONE
    ensures var s := Run(Start(store, data), before);
            Run(s, events).status == DONE <==> NoneBegins(s, events)
  {
    RunKeeps(store, data, before);
    OverRun(Run(Start(store, data), before), events);
  }

  /** Once it is lost, no container that is waiting goes ahead any more. */
  lemma {:induction false} NobodyGoesAhead(s: State, w: nat, events: seq<Event>)
    requires Over(s) && s.status != DONE && w in s.waiters && !s.waiters[w].SawDone?
    ensures var t := Run(s, events); Over(t) && t.status != DONE && w in t.waiters && !t.waiters[w].SawDone?
  {
    if events != [] {
      NobodyGoesAhead(s, w, events[..|events| - 1]);
      var t := Run(s, events[..|events| - 1]);
      OverStep(t, events[|events| - 1]);
      OverWaits(t, events[|events| - 1], w);
    }
  }

  /** A process that has ended changes nothing any more. */
  lemma {:induction false} FailedStays(s: State, events: seq<Event>)
    requires s.pc.Failed?
    ensures var t := Run(s, events); t.pc.Failed? && t.data == s.data && t.store == s.store
  {
    if events != [] {
      FailedStays(s, events[..|events| - 1]);
      FailedStep(Run(s, events[..|events| - 1]), events[|events| - 1]);
    }
  }

  lemma FailedStep(s: State, e: Event)
    requires s.pc.Failed?
    ensures var t := Apply(s, e); t.pc.Failed? && t.data == s.data && t.store == s.store
  {
  }

  /** An upgrade that loses the data directory ends the process, and the next start is not done before the latest
      backup is restored or a request has restored one. */
  lemma LostUpgradeIsRestored(s: State, ok: bool, rest: seq<Event>, next: seq<Event>)
    requires s.pc.Upgrading? && s.data.Some? && s.store != map[]
    requires PostgresUpgrade.Possible(s.data, None, ok)
    ensures var lost := Run(Apply(s, Upgrade(None, ok)), rest);
            && lost.pc.Failed? && lost.data.None? && lost.store == s.store
            && var t := Run(Start(lost.store, lost.data), next);
               t.status == DONE ==>
                 || (t.reason.FoundData? && t.reason.writer.Some? && t.reason.writer.value.Request?)
                 || (t.reason.RestoredBackup? && IsLatest(t.listed, t.reason.name)
                     && Fetched(t.listed, t.reason.name, t.reason.backup))
  {
    var lost := Apply(s, Upgrade(None, ok));
    FailedStays(lost, rest);
    NoFreshDatabase(s.store, None, next);
  }
}
