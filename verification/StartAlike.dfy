/** When the data directory of StartProtocol is whole for certain: runs that differ only in what is written. */
module StartAlike {
  import opened Decimal
  import opened FileTree
  import opened Files
  import opened StatusWord
  import opened StartProtocol
  import PostgresUpgrade

  /** Both missing, both empty, or neither. */
  predicate SameKind(a: Option<Tree>, b: Option<Tree>) {
    (a.None? <==> b.None?) && (a == Some(EmptyDir) <==> b == Some(EmptyDir))
  }

  /** Events that differ only in the trees that a recovery writes or leaves, and an upgrade leaves. */
  predicate AlikeEvent(e: Event, f: Event) {
    match e
    case Write(who, tree) => f.Write? && f.who == who && SameKind(Some(tree), Some(f.tree))
    case Recovered(who, ok, left) => f.Recovered? && f.who == who && f.ok == ok && SameKind(Some(left), Some(f.left))
    case Upgrade(after, ok) => f.Upgrade? && f.ok == ok && SameKind(after, f.after)
    case _ => f == e
  }

  predicate Alike(a: seq<Event>, b: seq<Event>) {
    |a| == |b| && forall i :: 0 <= i < |a| ==> AlikeEvent(a[i], b[i])
  }

  predicate AlikeBackup(a: Backup, b: Backup) {
    a.date == b.date && SameKind(Some(a.tree), Some(b.tree))
  }

  ghost predicate AlikeStores(a: Store, b: Store) {
    && (forall name :: name in a <==> name in b)
    && (forall name :: name in a ==> AlikeBackup(a[name], b[name]))
  }

  predicate AlikeCall(a: Restore, b: Restore) {
    && a.name == b.name && a.phase == b.phase && a.disturbed == b.disturbed
    && (a.backup.None? <==> b.backup.None?)
    && (a.backup.Some? ==> AlikeBackup(a.backup.value, b.backup.value))
  }

  ghost predicate AlikeCalls(a: map<Who, Restore>, b: map<Who, Restore>) {
    && (forall w :: w in a <==> w in b)
    && (forall w :: w in a ==> AlikeCall(a[w], b[w]))
  }

  /** All that decides about the next step. */
  ghost predicate Lockstep(s: State, t: State) {
    && t.pc == s.pc && t.status == s.status && t.lastWriter == s.lastWriter
    && SameKind(s.data, t.data) && AlikeStores(s.store, t.store) && AlikeCalls(s.restores, t.restores)
  }

  lemma BootLockstep(s: State, t: State, made: bool, ok: bool)
    requires Lockstep(s, t)
    ensures Lockstep(BootStep(s, made, ok), BootStep(t, made, ok))
  {
  }

  lemma CheckLockstep(s: State, t: State, ok: bool)
    requires Lockstep(s, t)
    ensures Lockstep(CheckStep(s, ok), CheckStep(t, ok))
  {
  }

  lemma BeginAlike(a: map<Who, Restore>, b: map<Who, Restore>, who: Who, name: string)
    requires AlikeCalls(a, b)
    ensures Busy(a) <==> Busy(b)
    ensures AlikeCalls(DisturbAll(a)[who := Restore(name, None, Fetching, Busy(a))],
                       DisturbAll(b)[who := Restore(name, None, Fetching, Busy(b))])
  {
    if w :| w in a && Active(a[w]) {
      assert Active(b[w]);
    }
    if w :| w in b && Active(b[w]) {
      assert Active(a[w]);
    }
  }

  lemma BeginLockstep(s: State, t: State, who: Who, name: string)
    requires Lockstep(s, t)
    ensures Lockstep(Begin(s, who, name), Begin(t, who, name))
  {
    BeginAlike(s.restores, t.restores, who, name);
  }

  lemma SameLatest(a: Store, b: Store, name: string)
    requires AlikeStores(a, b)
    ensures IsLatest(a, name) ==> IsLatest(b, name)
  {
    if IsLatest(a, name) {
      forall other | other in b ensures b[other].date <= b[name].date {
        assert other in a && a[other].date <= a[name].date;
      }
    }
  }

  lemma SameSize(a: Store, b: Store)
    requires AlikeStores(a, b)
    ensures |a| == 0 <==> |b| == 0
  {
    if |a| == 0 {
      assert forall name :: name !in b;
      assert b == map[];
    }
    if |b| == 0 {
      assert forall name :: name !in a;
      assert a == map[];
    }
  }

  lemma AlikeBack(a: Store, b: Store)
    requires AlikeStores(a, b)
    ensures AlikeStores(b, a)
  {
  }

  lemma LatestLockstep(s: State, t: State, name: string)
    requires Lockstep(s, t)
    ensures Lockstep(RestoreLatest(s, name), RestoreLatest(t, name))
  {
    BeginLockstep(AtListing(s), AtListing(t), Starter, name);
  }

  lemma NoneLockstep(s: State, t: State, ok: bool)
    requires Lockstep(s, t)
    ensures Lockstep(ListNone(s, ok), ListNone(t, ok))
  {
    SameSize(s.store, t.store);
  }

  lemma ListLockstep(s: State, t: State, ok: bool, name: string)
    requires Lockstep(s, t)
    ensures Lockstep(ListStep(s, ok, name), ListStep(t, ok, name))
  {
    AlikeBack(s.store, t.store);
    SameLatest(s.store, t.store, name);
    SameLatest(t.store, s.store, name);
    LatestLockstep(s, t, name);
    NoneLockstep(s, t, ok);
  }

  lemma UpgradeToLockstep(s: State, t: State, after: Option<Tree>, other: Option<Tree>, ok: bool)
    requires Lockstep(s, t) && SameKind(after, other)
    ensures Lockstep(UpgradeTo(s, after, ok), UpgradeTo(t, other, ok))
  {
  }

  lemma UpgradeLockstep(s: State, t: State, after: Option<Tree>, other: Option<Tree>, ok: bool)
    requires Lockstep(s, t) && SameKind(after, other)
    ensures Lockstep(UpgradeStep(s, after, ok), UpgradeStep(t, other, ok))
  {
    assert PostgresUpgrade.Possible(s.data, after, ok) <==> PostgresUpgrade.Possible(t.data, other, ok);
    UpgradeToLockstep(s, t, after, other, ok);
  }

  lemma ReturnLockstep(s: State, t: State, who: Who, ok: bool)
    requires Lockstep(s, t) && who in s.restores
    ensures Lockstep(Return(s, who, s.restores[who], ok), Return(t, who, t.restores[who], ok))
  {
  }

  lemma DownloadLockstep(s: State, t: State, who: Who, a: Backup, b: Backup)
    requires Lockstep(s, t) && who in s.restores && AlikeBackup(a, b)
    ensures Lockstep(Download(s, who, s.restores[who], a), Download(t, who, t.restores[who], b))
  {
  }

  /** The same calls are in the same phases. */
  lemma SamePhase(s: State, t: State, who: Who, phase: Phase)
    requires Lockstep(s, t)
    ensures InPhase(s, who, phase) <==> InPhase(t, who, phase)
    ensures InPhase(s, who, phase) ==> AlikeCall(s.restores[who], t.restores[who])
  {
  }

  lemma FetchLockstep(s: State, t: State, who: Who, ok: bool)
    requires Lockstep(s, t)
    ensures Lockstep(FetchStep(s, who, ok), FetchStep(t, who, ok))
  {
    SamePhase(s, t, who, Fetching);
    if InPhase(s, who, Fetching) {
      FetchingLockstep(s, t, who, ok);
    }
  }

  lemma FetchingLockstep(s: State, t: State, who: Who, ok: bool)
    requires Lockstep(s, t) && InPhase(s, who, Fetching) && InPhase(t, who, Fetching)
    ensures Lockstep(FetchStep(s, who, ok), FetchStep(t, who, ok))
  {
    var name := s.restores[who].name;
    assert name == t.restores[who].name;
    if !ok || name !in s.store {
      ReturnLockstep(s, t, who, false);
    } else {
      DownloadLockstep(s, t, who, s.store[name], t.store[name]);
    }
  }

  lemma OverwriteLockstep(s: State, t: State, who: Who, tree: Tree, other: Tree)
    requires Lockstep(s, t) && SameKind(Some(tree), Some(other))
    ensures Lockstep(Overwrite(s, who, tree), Overwrite(t, who, other))
  {
  }

  lemma WriteLockstep(s: State, t: State, who: Who, tree: Tree, other: Tree)
    requires Lockstep(s, t) && SameKind(Some(tree), Some(other))
    ensures Lockstep(WriteStep(s, who, tree), WriteStep(t, who, other))
  {
    OverwriteLockstep(s, t, who, tree, other);
  }

  lemma RecoveredLockstep(s: State, t: State, who: Who, ok: bool, left: Tree, other: Tree)
    requires Lockstep(s, t) && SameKind(Some(left), Some(other))
    ensures Lockstep(RecoveredStep(s, who, ok, left), RecoveredStep(t, who, ok, other))
  {
    SamePhase(s, t, who, Recovering);
    if InPhase(s, who, Recovering) && s.restores[who].backup.Some? {
      if ok {
        FinishLockstep(s, t, who, left, other);
      } else {
        ReturnLockstep(s, t, who, false);
      }
    }
  }

  lemma FinishLockstep(s: State, t: State, who: Who, left: Tree, other: Tree)
    requires Lockstep(s, t) && SameKind(Some(left), Some(other))
    requires who in s.restores && who in t.restores && s.restores[who].backup.Some? && t.restores[who].backup.Some?
    ensures Lockstep(Finish(s, who, s.restores[who], left), Finish(t, who, t.restores[who], other))
  {
    var r, q := s.restores[who], t.restores[who];
    assert AlikeCall(r, q);
    var a := if r.disturbed then left else r.backup.value.tree;
    var b := if q.disturbed then other else q.backup.value.tree;
    OverwriteLockstep(s, t, who, a, b);
    ReturnLockstep(Overwrite(s, who, a), Overwrite(t, who, b), who, true);
  }

  lemma SameNewer(a: Store, b: Store, date: int)
    requires AlikeStores(a, b)
    ensures NewerThanAll(a, date) ==> NewerThanAll(b, date)
  {
    if NewerThanAll(a, date) {
      forall other | other in b ensures b[other].date < date {
        assert other in a && a[other].date < date;
      }
    }
  }

  lemma AddLockstep(s: State, t: State, name: string, a: Backup, b: Backup)
    requires Lockstep(s, t) && AlikeBackup(a, b)
    ensures Lockstep(AddBackup(s, name, a), AddBackup(t, name, b))
  {
  }

  lemma CreateLockstep(s: State, t: State, name: string, date: int)
    requires Lockstep(s, t)
    ensures Lockstep(CreateStep(s, name, date), CreateStep(t, name, date))
  {
    AlikeBack(s.store, t.store);
    SameNewer(s.store, t.store, date);
    SameNewer(t.store, s.store, date);
    if s.data.Some? {
      AddLockstep(s, t, name, Backup(date, s.data.value), Backup(date, t.data.value));
    }
  }

  lemma PollLockstep(s: State, t: State, w: nat, ok: bool)
    requires Lockstep(s, t)
    ensures Lockstep(PollStep(s, w, ok), PollStep(t, w, ok))
  {
  }

  lemma WaitLockstep(s: State, t: State, e: Event)
    requires Lockstep(s, t) && (e.Wait? || e.StopSignal?)
    ensures Lockstep(Apply(s, e), Apply(t, e))
  {
  }

  lemma StepLockstep(s: State, t: State, e: Event, f: Event)
    requires Lockstep(s, t) && AlikeEvent(e, f)
    ensures Lockstep(Apply(s, e), Apply(t, f))
  {
    match e
    case Boot(made, ok) => BootLockstep(s, t, made, ok);
    case Check(ok) => CheckLockstep(s, t, ok);
    case List(ok, name) => ListLockstep(s, t, ok, name);
    case Upgrade(after, ok) => UpgradeLockstep(s, t, after, f.after, ok);
    case RestoreBackup(id, name) => BeginLockstep(s, t, Request(id), name);
    case Fetch(who, ok) => FetchLockstep(s, t, who, ok);
    case Write(who, tree) => WriteLockstep(s, t, who, tree, f.tree);
    case Recovered(who, ok, left) => RecoveredLockstep(s, t, who, ok, left, f.left);
    case CreateBackup(name, date) => CreateLockstep(s, t, name, date);
    case Wait(_) => WaitLockstep(s, t, e);
    case Poll(w, ok) => PollLockstep(s, t, w, ok);
    case StopSignal => WaitLockstep(s, t, e);
  }

  lemma SameLockstep(s: State)
    ensures Lockstep(s, s)
  {
  }

  /** Alike runs go through the same steps. */
  lemma {:induction false} RunLockstep(s: State, events: seq<Event>, others: seq<Event>)
    requires Alike(events, others)
    ensures Lockstep(Run(s, events), Run(s, others))
    decreases |events|
  {
    if events == [] {
      SameLockstep(s);
    } else {
      var n := |events| - 1;
      RunLockstep(s, events[..n], others[..n]);
      StepLockstep(Run(s, events[..n]), Run(s, others[..n]), events[n], others[n]);
    }
  }

  /** A tree with something in it, other than a given one. */
  function Other(tree: Tree): Tree {
    var one: Tree := map[[] := Dir, ["a"] := File([])];
    if tree == one then map[[] := Dir, ["b"] := File([])] else one
  }

  lemma OtherIsOther(tree: Tree)
    ensures Other(tree) != tree && Other(tree) != EmptyDir
  {
    var one: Tree := map[[] := Dir, ["a"] := File([])];
    var two: Tree := map[[] := Dir, ["b"] := File([])];
    assert ["a"][0] == "a" && ["b"][0] == "b";
    assert ["a"] in one && ["a"] !in two && ["a"] !in EmptyDir && ["b"] in two && ["b"] !in EmptyDir;
  }

  /** Of the same kind as the tree, and not the whole backup of that restore unless both are empty. */
  function Spoil(t: State, who: Who, tree: Tree): Tree {
    if Some(tree) != Some(EmptyDir) && who in t.restores && t.restores[who].backup.Some? then
      Other(t.restores[who].backup.value.tree)
    else tree
  }

  lemma SpoilIsAlike(t: State, who: Who, tree: Tree)
    ensures SameKind(Some(tree), Some(Spoil(t, who, tree)))
    ensures who in t.restores && t.restores[who].backup.Some? ==>
              SpoiledTree(t.restores[who].backup.value.tree, Spoil(t, who, tree))
  {
    if who in t.restores && t.restores[who].backup.Some? {
      OtherIsOther(t.restores[who].backup.value.tree);
    }
  }

  predicate SpoiledTree(whole: Tree, now: Tree) {
    Some(now) == Some(whole) ==> Some(now) == Some(EmptyDir)
  }

  /** An event for the other run: recoveries write something that is not whole, an upgrade that changed nothing
      still does. */
  function Spoiling(s: State, t: State, e: Event): Event {
    match e
    case Write(who, tree) => Write(who, Spoil(t, who, tree))
    case Recovered(who, ok, left) => Recovered(who, ok, Spoil(t, who, left))
    case Upgrade(after, ok) => Upgrade(if after == s.data then t.data else after, ok)
    case _ => e
  }

  lemma SpoilingIsAlike(s: State, t: State, e: Event)
    requires SameKind(s.data, t.data)
    ensures AlikeEvent(e, Spoiling(s, t, e))
  {
    match e
    case Write(who, tree) => SpoilIsAlike(t, who, tree);
    case Recovered(who, _, left) => SpoilIsAlike(t, who, left);
    case _ =>
  }

  /** The data is not the whole backup of its last writer, unless both are empty. */
  predicate NotWhole(t: State) {
    && t.lastWriter.Some? && t.lastWriter.value in t.restores && t.restores[t.lastWriter.value].backup.Some?
    && t.data.Some? && SpoiledTree(t.restores[t.lastWriter.value].backup.value.tree, t.data.value)
  }

  predicate Spoiled(s: State, t: State) {
    !s.upgraded ==> !t.upgraded && (!Settled(s) ==> NotWhole(t))
  }

  /** What a step must leave alone for a spoiled run to stay one. */
  predicate KeepsWriter(s: State, t: State) {
    && t.data == s.data && t.lastWriter == s.lastWriter && t.upgraded == s.upgraded
    && (s.lastWriter.Some? && s.lastWriter.value in s.restores ==>
          && s.lastWriter.value in t.restores
          && t.restores[s.lastWriter.value].backup == s.restores[s.lastWriter.value].backup)
    && (Settled(s) ==> Settled(t))
  }

  lemma StaysSpoiled(s: State, t: State, s': State, t': State)
    requires Spoiled(s, t) && KeepsWriter(s, s') && KeepsWriter(t, t')
    ensures Spoiled(s', t')
  {
  }

  lemma BootKeepsWriter(data: Option<Tree>, s: State, made: bool, ok: bool)
    requires DataInv(data, s) && s.lastWriter.Some?
    ensures KeepsWriter(s, BootStep(s, made, ok))
  {
  }

  lemma CheckKeepsWriter(s: State, ok: bool)
    ensures KeepsWriter(s, CheckStep(s, ok))
  {
  }

  lemma BeginKeepsWriter(data: Option<Tree>, s: State, who: Who, name: string)
    requires DataInv(data, s) && who !in s.restores
    ensures KeepsWriter(s, Begin(s, who, name))
  {
    BeginEffect(s, who, name);
    if s.lastWriter.Some? {
      assert SameCall(s.restores[s.lastWriter.value], Begin(s, who, name).restores[s.lastWriter.value]);
    }
  }

  lemma ListKeepsWriter(data: Option<Tree>, s: State, ok: bool, name: string)
    requires DataInv(data, s) && StarterInv(data, s)
    ensures KeepsWriter(s, ListStep(s, ok, name))
  {
    if s.pc.Listing? && IsLatest(s.store, name) {
      LatestKeepsWriter(data, s, name);
    }
  }

  lemma LatestKeepsWriter(data: Option<Tree>, s: State, name: string)
    requires DataInv(data, s) && s.pc.Listing? && Starter !in s.restores
    ensures KeepsWriter(s, RestoreLatest(s, name))
  {
    assert DataInv(data, AtListing(s));
    BeginKeepsWriter(data, AtListing(s), Starter, name);
  }

  lemma ReturnKeepsWriter(s: State, who: Who, r: Restore, ok: bool)
    requires s.lastWriter != Some(who)
    ensures KeepsWriter(s, Return(s, who, r, ok))
  {
  }

  lemma DownloadKeepsWriter(s: State, who: Who, r: Restore, b: Backup)
    requires s.lastWriter != Some(who)
    ensures KeepsWriter(s, Download(s, who, r, b))
  {
  }

  lemma FetchKeepsWriter(data: Option<Tree>, s: State, who: Who, ok: bool)
    requires DataInv(data, s)
    ensures KeepsWriter(s, FetchStep(s, who, ok))
  {
    if InPhase(s, who, Fetching) {
      var r := s.restores[who];
      assert s.lastWriter != Some(who);
      if !ok || r.name !in s.store {
        ReturnKeepsWriter(s, who, r, false);
      } else {
        DownloadKeepsWriter(s, who, r, s.store[r.name]);
      }
    }
  }

  lemma FailKeepsWriter(s: State, who: Who, left: Tree)
    ensures KeepsWriter(s, RecoveredStep(s, who, false, left))
  {
  }

  lemma CreateKeepsWriter(s: State, name: string, date: int)
    ensures KeepsWriter(s, CreateStep(s, name, date))
  {
  }

  lemma PollKeepsWriter(s: State, w: nat, ok: bool)
    ensures KeepsWriter(s, PollStep(s, w, ok))
  {
  }

  lemma BootSpoiled(data: Option<Tree>, s: State, t: State, made: bool, ok: bool)
    requires Lockstep(s, t) && Spoiled(s, t) && DataInv(data, s) && DataInv(data, t)
    ensures Spoiled(BootStep(s, made, ok), BootStep(t, made, ok))
  {
    if s.lastWriter.Some? {
      BootKeepsWriter(data, s, made, ok);
      BootKeepsWriter(data, t, made, ok);
      StaysSpoiled(s, t, BootStep(s, made, ok), BootStep(t, made, ok));
    }
  }

  lemma UpgradeKeepsWriter(s: State, ok: bool)
    ensures KeepsWriter(s, UpgradeTo(s, s.data, ok))
  {
  }

  lemma UpgradeSpoiled(s: State, t: State, after: Option<Tree>, ok: bool)
    requires Lockstep(s, t) && Spoiled(s, t)
    ensures Spoiled(UpgradeStep(s, after, ok), UpgradeStep(t, if after == s.data then t.data else after, ok))
  {
    var other := if after == s.data then t.data else after;
    if s.pc.Upgrading? && PostgresUpgrade.Possible(s.data, after, ok) {
      assert PostgresUpgrade.Possible(t.data, other, ok);
      if after == s.data {
        UpgradeKeepsWriter(s, ok);
        UpgradeKeepsWriter(t, ok);
        StaysSpoiled(s, t, UpgradeTo(s, s.data, ok), UpgradeTo(t, t.data, ok));
      }
    } else {
      assert !t.pc.Upgrading? || !PostgresUpgrade.Possible(t.data, other, ok);
    }
  }

  lemma OverwriteSpoiled(s: State, t: State, who: Who, tree: Tree, other: Tree)
    requires who in s.restores && who in t.restores && t.restores[who].backup.Some?
    requires SpoiledTree(t.restores[who].backup.value.tree, other)
    ensures Spoiled(Overwrite(s, who, tree), Overwrite(t, who, other))
  {
  }

  lemma WriteSpoiled(s: State, t: State, who: Who, tree: Tree)
    requires Lockstep(s, t) && Spoiled(s, t)
    ensures Spoiled(WriteStep(s, who, tree), WriteStep(t, who, Spoil(t, who, tree)))
  {
    SamePhase(s, t, who, Recovering);
    if InPhase(s, who, Recovering) && s.restores[who].backup.Some? {
      SpoilIsAlike(t, who, tree);
      OverwriteSpoiled(s, t, who, tree, Spoil(t, who, tree));
    }
  }

  lemma FinishSpoiled(s: State, t: State, who: Who, left: Tree, other: Tree)
    requires who in s.restores && who in t.restores && AlikeCall(s.restores[who], t.restores[who])
    requires s.restores[who].backup.Some? && SpoiledTree(t.restores[who].backup.value.tree, other)
    ensures Spoiled(Finish(s, who, s.restores[who], left), Finish(t, who, t.restores[who], other))
  {
    if !s.restores[who].disturbed {
      assert Settled(Finish(s, who, s.restores[who], left));
    }
  }

  lemma RecoveredSpoiled(s: State, t: State, who: Who, ok: bool, left: Tree)
    requires Lockstep(s, t) && Spoiled(s, t)
    ensures Spoiled(RecoveredStep(s, who, ok, left), RecoveredStep(t, who, ok, Spoil(t, who, left)))
  {
    var other := Spoil(t, who, left);
    SamePhase(s, t, who, Recovering);
    if !ok {
      FailKeepsWriter(s, who, left);
      FailKeepsWriter(t, who, other);
      StaysSpoiled(s, t, RecoveredStep(s, who, false, left), RecoveredStep(t, who, false, other));
    } else if InPhase(s, who, Recovering) && s.restores[who].backup.Some? {
      SpoilIsAlike(t, who, left);
      FinishSpoiled(s, t, who, left, other);
    }
  }

  lemma WaitSpoiled(s: State, t: State, e: Event)
    requires Spoiled(s, t) && (e.Wait? || e.StopSignal?)
    ensures Spoiled(Apply(s, e), Apply(t, e))
  {
  }

  ghost predicate BothInv(data: Option<Tree>, s: State, t: State) {
    && DataInv(data, s) && DataInv(data, t) && StarterInv(data, s) && StarterInv(data, t)
  }

  lemma BeginsAlike(s: State, t: State, e: Event)
    requires Lockstep(s, t)
    ensures Begins(s, e) <==> Begins(t, e)
  {
  }

  lemma StartsSpoiled(data: Option<Tree>, s: State, t: State, e: Event)
    requires Lockstep(s, t) && Spoiled(s, t) && BothInv(data, s, t)
    requires e.Check? || e.List? || e.RestoreBackup? || e.Fetch?
    ensures Spoiled(Apply(s, e), Apply(t, e))
  {
    match e
    case Check(ok) =>
      CheckKeepsWriter(s, ok);
      CheckKeepsWriter(t, ok);
    case List(ok, name) =>
      ListKeepsWriter(data, s, ok, name);
      ListKeepsWriter(data, t, ok, name);
    case RestoreBackup(id, name) =>
      BeginsAlike(s, t, e);
      if Begins(s, e) {
        BeginKeepsWriter(data, s, Request(id), name);
        BeginKeepsWriter(data, t, Request(id), name);
      }
    case Fetch(who, ok) =>
      FetchKeepsWriter(data, s, who, ok);
      FetchKeepsWriter(data, t, who, ok);
  }

  lemma StepSpoiled(data: Option<Tree>, s: State, t: State, e: Event)
    requires Lockstep(s, t) && Spoiled(s, t) && BothInv(data, s, t)
    ensures Spoiled(Apply(s, e), Apply(t, Spoiling(s, t, e)))
  {
    match e
    case Boot(made, ok) => BootSpoiled(data, s, t, made, ok);
    case Check(_) => StartsSpoiled(data, s, t, e);
    case List(_, _) => StartsSpoiled(data, s, t, e);
    case Upgrade(after, ok) => UpgradeSpoiled(s, t, after, ok);
    case RestoreBackup(_, _) => StartsSpoiled(data, s, t, e);
    case Fetch(_, _) => StartsSpoiled(data, s, t, e);
    case Write(who, tree) => WriteSpoiled(s, t, who, tree);
    case Recovered(who, ok, left) => RecoveredSpoiled(s, t, who, ok, left);
    case CreateBackup(name, date) =>
      CreateKeepsWriter(s, name, date);
      CreateKeepsWriter(t, name, date);
    case Wait(_) => WaitSpoiled(s, t, e);
    case Poll(w, ok) =>
      PollKeepsWriter(s, w, ok);
      PollKeepsWriter(t, w, ok);
    case StopSignal => WaitSpoiled(s, t, e);
  }

  lemma AlikeMore(events: seq<Event>, others: seq<Event>, e: Event, f: Event)
    requires Alike(events, others) && AlikeEvent(e, f)
    ensures Alike(events + [e], others + [f])
  {
  }

  /** Every run has an alike one that spoils what is not settled. */
  lemma {:induction false} SpoiledRun(store: Store, data: Option<Tree>, events: seq<Event>) returns (others: seq<Event>)
    ensures Alike(events, others)
    ensures Spoiled(Run(Start(store, data), events), Run(Start(store, data), others))
  {
    others := [];
    if events != [] {
      var n := |events| - 1;
      var first := SpoiledRun(store, data, events[..n]);
      others := SpoiledMore(store, data, events[..n], first, events[n]);
      assert events == events[..n] + [events[n]];
    }
  }

  lemma SpoiledMore(store: Store, data: Option<Tree>, events: seq<Event>, first: seq<Event>, e: Event)
    returns (others: seq<Event>)
    requires Alike(events, first) && Spoiled(Run(Start(store, data), events), Run(Start(store, data), first))
    ensures Alike(events + [e], others)
    ensures Spoiled(Run(Start(store, data), events + [e]), Run(Start(store, data), others))
  {
    var s, t := Run(Start(store, data), events), Run(Start(store, data), first);
    var f := Spoiling(s, t, e);
    RunLockstep(Start(store, data), events, first);
    RunKeeps(store, data, events);
    RunKeeps(store, data, first);
    SpoilingIsAlike(s, t, e);
    StepSpoiled(data, s, t, e);
    AlikeMore(events, first, e, f);
    others := first + [f];
    assert (events + [e])[..|events|] == events && others[..|first|] == first;
  }

  /** The last writer restores a backup of an empty directory, and so far it has left it empty. */
  predicate LeftEmpty(s: State) {
    && s.data == Some(EmptyDir) && s.lastWriter.Some? && s.lastWriter.value in s.restores
    && var r := s.restores[s.lastWriter.value];
       r.backup.Some? && Some(r.backup.value.tree) == Some(EmptyDir)
  }

  /** Whatever the recoveries have written and left, the data is whole. */
  ghost predicate CertainlyWhole(store: Store, data: Option<Tree>, events: seq<Event>) {
    forall others :: Alike(events, others) && !Run(Start(store, data), others).upgraded ==>
      IsWhole(data, Run(Start(store, data), others))
  }

  lemma AlikeWhole(data: Option<Tree>, s: State, t: State)
    requires Lockstep(s, t) && DataInv(data, t) && !t.upgraded && (Settled(s) || LeftEmpty(s))
    ensures IsWhole(data, t)
  {
    if s.lastWriter.Some? && s.lastWriter.value in s.restores {
      assert AlikeCall(s.restores[s.lastWriter.value], t.restores[s.lastWriter.value]);
    }
  }

  lemma AlikeNotWhole(data: Option<Tree>, s: State, t: State)
    requires Lockstep(s, t) && NotWhole(t) && IsWhole(data, t)
    ensures LeftEmpty(s)
  {
    assert AlikeCall(s.restores[s.lastWriter.value], t.restores[s.lastWriter.value]);
  }

  /** In every interleaving the data directory, unless upgraded since, is what the life began with or the whole
      backup of the restore that has written last, whatever the recoveries write, if and only if that restore has
      returned nil with no other one in progress meanwhile, or has left an empty directory that it was to restore.
      */
  lemma {:induction false} WholeExactlyWhenSettled(store: Store, data: Option<Tree>, events: seq<Event>)
    ensures var s := Run(Start(store, data), events);
            !s.upgraded ==> (CertainlyWhole(store, data, events) <==> Settled(s) || LeftEmpty(s))
  {
    var s := Run(Start(store, data), events);
    if !s.upgraded && (Settled(s) || LeftEmpty(s)) {
      forall others | Alike(events, others) && !Run(Start(store, data), others).upgraded
        ensures IsWhole(data, Run(Start(store, data), others))
      {
        RunLockstep(Start(store, data), events, others);
        RunKeeps(store, data, others);
        AlikeWhole(data, s, Run(Start(store, data), others));
      }
    }
    if !s.upgraded && !Settled(s) && CertainlyWhole(store, data, events) {
      var others := SpoiledRun(store, data, events);
      RunLockstep(Start(store, data), events, others);
      AlikeNotWhole(data, s, Run(Start(store, data), others));
    }
  }
}
