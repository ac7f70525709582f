/** What backups by rpc hold, and what Start makes of them (StartProtocol; cmd/internal/initializer/service.go and
    cmd/internal/backup/backup.go). */
module StartBackups {
  import opened Decimal
  import opened FileTree
  import opened Files
  import opened StatusWord
  import opened StartProtocol

  /** The entry of that name from before this life, or a backup of an empty directory. */
  predicate FromBefore(store: Store, name: string, b: Backup) {
    (name in store && b == store[name]) || b.tree == EmptyDir
  }

  ghost predicate NewAreEmpty(store: Store, now: Store) {
    forall name :: name in now ==> FromBefore(store, name, now[name])
  }

  /** Up to the download of Start's own restore. */
  predicate Early(s: State) {
    BeforeListing(s.pc) || (s.pc.Restoring? && Pending(s))
  }

  /** A life without restore requests and without data. */
  ghost predicate EmptyInv(store: Store, s: State) {
    && OnlyOwn(s)
    && (Early(s) ==> WasEmpty(s.data) && NewAreEmpty(store, s.store))
    && (Starter in s.restores && s.restores[Starter].backup.Some? ==>
          FromBefore(store, s.restores[Starter].name, s.restores[Starter].backup.value))
  }

  lemma BootKeepsEmpty(store: Store, s: State, made: bool, ok: bool)
    requires EmptyInv(store, s)
    ensures EmptyInv(store, BootStep(s, made, ok))
  {
  }

  lemma CheckKeepsEmpty(store: Store, s: State, ok: bool)
    requires EmptyInv(store, s)
    ensures EmptyInv(store, CheckStep(s, ok))
  {
  }

  lemma LatestKeepsEmpty(store: Store, s: State, name: string)
    requires EmptyInv(store, s) && s.pc.Listing? && Starter !in s.restores
    ensures EmptyInv(store, RestoreLatest(s, name))
  {
    BeginEffect(AtListing(s), Starter, name);
  }

  lemma ListKeepsEmpty(data: Option<Tree>, store: Store, s: State, ok: bool, name: string)
    requires EmptyInv(store, s) && StarterInv(data, s)
    ensures EmptyInv(store, ListStep(s, ok, name))
  {
    if s.pc.Listing? && IsLatest(s.store, name) {
      LatestKeepsEmpty(store, s, name);
    }
  }

  lemma UpgradeKeepsEmpty(store: Store, s: State, after: Option<Tree>, ok: bool)
    requires EmptyInv(store, s)
    ensures EmptyInv(store, UpgradeStep(s, after, ok))
  {
  }

  lemma FetchKeepsEmpty(data: Option<Tree>, store: Store, s: State, who: Who, ok: bool)
    requires EmptyInv(store, s) && StarterInv(data, s)
    ensures EmptyInv(store, FetchStep(s, who, ok))
  {
    if InPhase(s, who, Fetching) {
      assert who == Starter && Early(s);
    }
  }

  lemma WriteKeepsEmpty(data: Option<Tree>, store: Store, s: State, who: Who, tree: Tree)
    requires EmptyInv(store, s) && StarterInv(data, s)
    ensures EmptyInv(store, WriteStep(s, who, tree))
  {
    if InPhase(s, who, Recovering) {
      assert who == Starter && !Early(s);
    }
  }

  lemma RecoveredKeepsEmpty(data: Option<Tree>, store: Store, s: State, who: Who, ok: bool, left: Tree)
    requires EmptyInv(store, s) && StarterInv(data, s)
    ensures EmptyInv(store, RecoveredStep(s, who, ok, left))
  {
    RecoveredCalls(s, who, ok, left);
    if InPhase(s, who, Recovering) {
      assert who == Starter && !Early(s);
    }
  }

  lemma AddKeepsEmpty(store: Store, s: State, name: string, backup: Backup)
    requires EmptyInv(store, s) && (Early(s) ==> backup.tree == EmptyDir)
    ensures EmptyInv(store, AddBackup(s, name, backup))
  {
  }

  lemma CreateKeepsEmpty(store: Store, s: State, name: string, date: int)
    requires EmptyInv(store, s)
    ensures EmptyInv(store, CreateStep(s, name, date))
  {
    if s.data.Some? {
      AddKeepsEmpty(store, s, name, Backup(date, s.data.value));
    }
  }

  lemma PollKeepsEmpty(store: Store, s: State, w: nat, ok: bool)
    requires EmptyInv(store, s)
    ensures EmptyInv(store, PollStep(s, w, ok))
  {
  }

  lemma WaitKeepsEmpty(store: Store, s: State, e: Event)
    requires EmptyInv(store, s) && (e.Wait? || e.StopSignal?)
    ensures EmptyInv(store, Apply(s, e))
  {
  }

  lemma StepKeepsEmpty(data: Option<Tree>, store: Store, s: State, e: Event)
    requires EmptyInv(store, s) && StarterInv(data, s) && !e.RestoreBackup?
    ensures EmptyInv(store, Apply(s, e))
  {
    match e
    case Boot(made, ok) => BootKeepsEmpty(store, s, made, ok);
    case Check(ok) => CheckKeepsEmpty(store, s, ok);
    case List(ok, name) => ListKeepsEmpty(data, store, s, ok, name);
    case Upgrade(after, ok) => UpgradeKeepsEmpty(store, s, after, ok);
    case Fetch(who, ok) => FetchKeepsEmpty(data, store, s, who, ok);
    case Write(who, tree) => WriteKeepsEmpty(data, store, s, who, tree);
    case Recovered(who, ok, left) => RecoveredKeepsEmpty(data, store, s, who, ok, left);
    case CreateBackup(name, date) => CreateKeepsEmpty(store, s, name, date);
    case Wait(_) => WaitKeepsEmpty(store, s, e);
    case Poll(w, ok) => PollKeepsEmpty(store, s, w, ok);
    case StopSignal => WaitKeepsEmpty(store, s, e);
  }

  lemma {:induction false} RunKeepsEmpty(store: Store, data: Option<Tree>, events: seq<Event>)
    requires WasEmpty(data) && forall e :: e in events ==> !e.RestoreBackup?
    ensures EmptyInv(store, Run(Start(store, data), events))
  {
    if events != [] {
      var init := events[..|events| - 1];
      RunKeepsEmpty(store, data, init);
      RunKeeps(store, data, init);
      StepKeepsEmpty(data, store, Run(Start(store, data), init), events[|events| - 1]);
    }
  }

  /** Without restore requests, a directory without data comes to hold the latest backup from before this life, if
      and only if none was created before the listing and none in its place before the download. Otherwise an empty
      one is restored. */
  lemma {:induction false} RestoredOrEmpty(store: Store, data: Option<Tree>, events: seq<Event>)
    requires WasEmpty(data) && forall e :: e in events ==> !e.RestoreBackup?
    ensures var s := Run(Start(store, data), events);
            s.status == DONE && s.reason.RestoredBackup? ==>
              var name, b := s.reason.name, s.reason.backup;
              && (IsLatest(store, name) && b == store[name] <==> s.createdAtList == 0 && name !in s.inBetween)
              && (s.createdAtList > 0 || name in s.inBetween ==> b.tree == EmptyDir)
              && (!s.upgraded ==> s.data == Some(b.tree))
  {
    RunKeeps(store, data, events);
    RunKeepsEmpty(store, data, events);
    RestoredIsNewest(store, data, events);
    WithoutRequests(store, data, events);
    var s := Run(Start(store, data), events);
    if s.status == DONE && s.reason.RestoredBackup? {
      assert s.restores[Starter].backup == Some(s.reason.backup);
      NewIsOther(store, s.reason.name, s.reason.backup);
    }
  }

  lemma NewIsOther(store: Store, name: string, b: Backup)
    ensures NewerThanAll(store, b.date) && FromBefore(store, name, b) ==> b.tree == EmptyDir
  {
  }

  /** So a fresh database over backups that hold data: exactly in those two cases. */
  lemma {:induction false} FreshExactly(store: Store, data: Option<Tree>, events: seq<Event>)
    requires WasEmpty(data) && forall e :: e in events ==> !e.RestoreBackup?
    requires store != map[] && forall name :: IsLatest(store, name) ==> store[name].tree != EmptyDir
    ensures var s := Run(Start(store, data), events);
            s.status == DONE && !s.upgraded ==>
              && s.reason.RestoredBackup?
              && (s.data == Some(EmptyDir) <==> s.createdAtList > 0 || s.reason.name in s.inBetween)
  {
    var s := Run(Start(store, data), events);
    RestoredOrEmpty(store, data, events);
    WithoutRequests(store, data, events);
  }

  /** A backup of this life: the event that created it and the data directory at that moment. */
  ghost predicate CreatedBy(s: State, events: seq<Event>, k: nat, name: string, b: Backup) {
    k < |events| && events[k] == CreateBackup(name, b.date) && Run(s, events[..k]).data == Some(b.tree)
  }

  ghost predicate Accounted(s: State, events: seq<Event>, name: string, b: Backup) {
    (name in s.store && b == s.store[name]) || exists k: nat :: CreatedBy(s, events, k, name, b)
  }

  lemma MoreAccounted(s: State, events: seq<Event>, e: Event, name: string, b: Backup)
    requires Accounted(s, events, name, b)
    ensures Accounted(s, events + [e], name, b)
  {
    if k: nat :| CreatedBy(s, events, k, name, b) {
      assert (events + [e])[..k] == events[..k];
      assert CreatedBy(s, events + [e], k, name, b);
    }
  }

  lemma JustAccounted(s: State, events: seq<Event>, name: string, b: Backup)
    requires Run(s, events).data == Some(b.tree)
    ensures Accounted(s, events + [CreateBackup(name, b.date)], name, b)
  {
    var all := events + [CreateBackup(name, b.date)];
    assert all[..|events|] == events;
    assert CreatedBy(s, all, |events|, name, b);
  }

  lemma {:induction false} AllAccounted(s: State, events: seq<Event>)
    ensures forall name :: name in Run(s, events).store ==> Accounted(s, events, name, Run(s, events).store[name])
  {
    if events != [] {
      var init, e := events[..|events| - 1], events[|events| - 1];
      var before, after := Run(s, init), Run(s, events);
      AllAccounted(s, init);
      assert events == init + [e];
      StoreStep(before, e);
      forall name | name in after.store ensures Accounted(s, events, name, after.store[name]) {
        if name in before.store && after.store[name] == before.store[name] {
          MoreAccounted(s, init, e, name, after.store[name]);
        } else {
          JustAccounted(s, init, name, after.store[name]);
        }
      }
    }
  }

  lemma ListKeepsEntries(s: State, ok: bool, name: string)
    ensures ListStep(s, ok, name).store == s.store
  {
  }

  lemma FetchKeepsEntries(s: State, who: Who, ok: bool)
    ensures FetchStep(s, who, ok).store == s.store
  {
  }

  lemma RecoveredKeepsEntries(s: State, who: Who, ok: bool, left: Tree)
    ensures RecoveredStep(s, who, ok, left).store == s.store
  {
  }

  lemma StartKeepsEntries(s: State, e: Event)
    requires e.Boot? || e.Check? || e.Upgrade? || e.Write?
    ensures Apply(s, e).store == s.store
  {
  }

  lemma OthersKeepEntries(s: State, e: Event)
    requires !e.CreateBackup?
    ensures Apply(s, e).store == s.store
  {
    match e
    case List(ok, name) => ListKeepsEntries(s, ok, name);
    case Fetch(who, ok) => FetchKeepsEntries(s, who, ok);
    case Recovered(who, ok, left) => RecoveredKeepsEntries(s, who, ok, left);
    case RestoreBackup(_, _) =>
    case Wait(_) =>
    case Poll(_, _) =>
    case StopSignal =>
    case _ => StartKeepsEntries(s, e);
  }

  /** Only the request for a backup changes the store, and by one entry of what the data directory holds. */
  lemma StoreStep(s: State, e: Event)
    ensures forall name :: name in Apply(s, e).store ==>
              || (name in s.store && Apply(s, e).store[name] == s.store[name])
              || (e == CreateBackup(name, Apply(s, e).store[name].date) && s.data == Some(Apply(s, e).store[name].tree))
  {
    if !e.CreateBackup? {
      OthersKeepEntries(s, e);
    } else {
      assert Apply(s, e) == CreateStep(s, e.name, e.date);
    }
  }

  /** What a backup of this life holds is whole exactly when the data directory was at that moment; it was when the last
      restore that had written by then had returned nil undisturbed. */
  lemma {:induction false} CreatedBackups(store: Store, data: Option<Tree>, events: seq<Event>, name: string)
    requires name in Run(Start(store, data), events).store
    ensures var b := Run(Start(store, data), events).store[name];
            || (name in store && b == store[name])
            || exists k: nat :: k < |events| && CreatedBy(Start(store, data), events, k, name, b)
                             && CreatedWhole(store, data, events, k, b)
  {
    AllAccounted(Start(store, data), events);
    var b := Run(Start(store, data), events).store[name];
    if !(name in store && b == store[name]) {
      var k: nat :| CreatedBy(Start(store, data), events, k, name, b);
      RunKeeps(store, data, events[..k]);
    }
  }

  ghost predicate CreatedWhole(store: Store, data: Option<Tree>, events: seq<Event>, k: nat, b: Backup)
    requires k < |events|
  {
    var s := Run(Start(store, data), events[..k]);
    && (IsWholeTree(data, s, Some(b.tree)) <==> IsWhole(data, s))
    && (!s.upgraded && Settled(s) ==> IsWholeTree(data, s, Some(b.tree)))
  }
}
