/** Runs of StartProtocol, event by event: what every start comes to when nothing fails or disturbs, and what can go
    wrong. */
module StartRuns {
  import opened Decimal
  import opened FileTree
  import opened Files
  import opened StatusWord
  import opened StartProtocol

  lemma RunOneMore(s: State, events: seq<Event>, e: Event)
    ensures Run(s, events + [e]) == Apply(Run(s, events), e)
  {
    assert (events + [e])[..|events + [e]| - 1] == events;
  }

  lemma RunFour(s: State, a: Event, b: Event, c: Event, d: Event)
    ensures Run(s, [a, b, c, d]) == Apply(Apply(Apply(Apply(s, a), b), c), d)
  {
    RunOneMore(s, [], a);
    RunOneMore(s, [a], b);
    RunOneMore(s, [a] + [b], c);
    RunOneMore(s, [a] + [b] + [c], d);
    assert [] + [a] == [a];
    assert [a, b, c, d] == [a] + [b] + [c] + [d];
  }

  lemma {:induction false} RunConcat(s: State, a: seq<Event>, b: seq<Event>)
    ensures Run(s, a + b) == Run(Run(s, a), b)
    decreases |b|
  {
    if b == [] {
      assert a + b == a;
    } else {
      assert (a + b)[..|a + b| - 1] == a + b[..|b| - 1];
      RunConcat(s, a, b[..|b| - 1]);
    }
  }

  /** A request that has written part of its backup while Start boots. */
  function Meeting(store: Store, name: string, part: Tree): State
    requires name in store
  {
    Start(store, Some(EmptyDir)).(pc := Checking, data := Some(part), lastWriter := Some(Request(0)),
                                  restores := map[Request(0) := Restore(name, Some(store[name]), Recovering, false)])
  }

  lemma RequestIsCalled(s: State, name: string)
    requires s.restores == map[] && !s.pc.Failed? && name in s.store
    ensures Apply(s, RestoreBackup(0, name))
            == s.(status := RESTORING, restores := map[Request(0) := Restore(name, None, Fetching, false)])
  {
    assert DisturbAll(map[]) == map[];
  }

  lemma CallFetches(s: State, who: Who, name: string)
    requires !s.pc.Failed? && name in s.store && s.restores == map[who := Restore(name, None, Fetching, false)]
    ensures Apply(s, Fetch(who, true))
            == s.(restores := map[who := Restore(name, Some(s.store[name]), Recovering, false)])
  {
  }

  lemma CallWrites(s: State, who: Who, r: Restore, part: Tree)
    requires !s.pc.Failed? && s.restores == map[who := r] && r.phase.Recovering? && r.backup.Some?
    ensures Apply(s, Write(who, part))
            == s.(data := Some(part), lastWriter := Some(who), upgraded := false)
  {
  }

  lemma RequestMeets(store: Store, name: string, part: Tree)
    requires name in store
    ensures Run(Start(store, Some(EmptyDir)),
                [RestoreBackup(0, name), Boot(true, true), Fetch(Request(0), true), Write(Request(0), part)])
            == Meeting(store, name, part)
  {
    var who, s := Request(0), Start(store, Some(EmptyDir));
    RunFour(s, RestoreBackup(0, name), Boot(true, true), Fetch(who, true), Write(who, part));
    RequestIsCalled(s, name);
    var s1 := s.(status := RESTORING, restores := map[who := Restore(name, None, Fetching, false)]);
    var s2 := BootStep(s1, true, true);
    CallFetches(s2, who, name);
    CallWrites(Apply(s2, Fetch(who, true)), who, Restore(name, Some(store[name]), Recovering, false), part);
  }

  lemma FoundIsUpgraded(s: State, found: Tree)
    requires s.pc.Checking? && s.data == Some(found) && found != EmptyDir
    ensures Apply(Apply(s, Check(true)), Upgrade(Some(found), true))
            == s.(pc := Finished, status := DONE, reason := FoundData(found, s.lastWriter))
  {
    var t := s.(pc := Upgrading, status := UPGRADING, reason := FoundData(found, s.lastWriter));
    assert CheckStep(s, true) == t;
  }

  lemma DoneIsSeen(s: State)
    requires s.pc.Finished? && s.status == DONE && s.waiters == map[] && !s.stopping
    ensures Apply(Apply(s, Wait(1)), Poll(1, true)) == s.(waiters := map[1 := SawDone])
  {
  }

  /** What is there at Check goes through to DONE and to a container that waits. */
  lemma CheckedIsStarted(s: State, found: Tree)
    requires s.pc.Checking? && s.data == Some(found) && found != EmptyDir && s.waiters == map[] && !s.stopping
    ensures Run(s, [Check(true), Upgrade(Some(found), true), Wait(1), Poll(1, true)])
            == s.(pc := Finished, status := DONE, reason := FoundData(found, s.lastWriter),
                  waiters := map[1 := SawDone])
  {
    RunFour(s, Check(true), Upgrade(Some(found), true), Wait(1), Poll(1, true));
    FoundIsUpgraded(s, found);
    DoneIsSeen(s.(pc := Finished, status := DONE, reason := FoundData(found, s.lastWriter)));
  }

  /** The life of a sidecar that is asked to restore while it boots: Check meets what the request has written so
      far, and the database is started on it. */
  lemma RequestDuringBoot(store: Store, name: string, part: Tree) returns (events: seq<Event>)
    requires name in store && part != EmptyDir && part != store[name].tree
    ensures var s := Run(Start(store, Some(EmptyDir)), events);
            && s.status == DONE && s.reason == FoundData(part, Some(Request(0)))
            && s.data == Some(part) && s.waiters == map[1 := SawDone]
            && !Settled(s) && !IsWhole(Some(EmptyDir), s)
  {
    var before := [RestoreBackup(0, name), Boot(true, true), Fetch(Request(0), true), Write(Request(0), part)];
    var after := [Check(true), Upgrade(Some(part), true), Wait(1), Poll(1, true)];
    events := before + after;
    RequestMeets(store, name, part);
    CheckedIsStarted(Meeting(store, name, part), part);
    RunConcat(Start(store, Some(EmptyDir)), before, after);
  }

  lemma EmptyIsBackedUp(store: Store, name: string, date: int)
    requires NewerThanAll(store, date)
    ensures Apply(Apply(Start(store, None), Boot(true, true)), CreateBackup(name, date))
            == Start(store[name := Backup(date, EmptyDir)], Some(EmptyDir)).(pc := Checking, created := 1)
  {
    var t := Start(store, Some(EmptyDir)).(pc := Checking);
    assert BootStep(Start(store, None), true, true) == t;
  }

  lemma LatestIsCalled(s: State, name: string)
    requires s.pc.Checking? && s.data == Some(EmptyDir) && s.restores == map[] && IsLatest(s.store, name)
    ensures Apply(Apply(s, Check(true)), List(true, name))
            == s.(pc := Restoring, status := RESTORING, listed := s.store, createdAtList := s.created, inBetween := {},
                  restores := map[Starter := Restore(name, None, Fetching, false)])
  {
    assert DisturbAll(map[]) == map[];
    assert CheckStep(s, true) == s.(pc := Listing);
  }

  lemma LatestIsRestored(s: State, name: string, b: Backup)
    requires !s.pc.Failed? && s.restores == map[Starter := Restore(name, Some(b), Recovering, false)]
    ensures var t := Apply(s, Recovered(Starter, true, EmptyDir));
            && t.pc.Upgrading? && t.data == Some(b.tree) && t.reason == RestoredBackup(name, b)
            && t.store == s.store && t.listed == s.listed && t.createdAtList == s.createdAtList
  {
  }

  /** The download and the recovery of the latest backup, and an upgrade that does nothing. */
  lemma RestoredIsStarted(s: State, name: string)
    requires s.pc.Restoring? && name in s.store && s.restores == map[Starter := Restore(name, None, Fetching, false)]
    ensures var b := s.store[name];
            var t := Run(s, [Fetch(Starter, true), Recovered(Starter, true, EmptyDir),
                             Upgrade(Some(b.tree), true), StopSignal]);
            && t.status == DONE && t.data == Some(b.tree) && t.reason == RestoredBackup(name, b) && t.store == s.store
            && t.listed == s.listed && t.createdAtList == s.createdAtList
  {
    var b := s.store[name];
    RunFour(s, Fetch(Starter, true), Recovered(Starter, true, EmptyDir), Upgrade(Some(b.tree), true), StopSignal);
    CallFetches(s, Starter, name);
    LatestIsRestored(Apply(s, Fetch(Starter, true)), name, b);
  }

  lemma EmptyIsLatest(store: Store, name: string, date: int)
    requires NewerThanAll(store, date)
    ensures var s := Run(Start(store, None),
                         [Boot(true, true), CreateBackup(name, date), Check(true), List(true, name)]);
            && s.pc.Restoring? && s.store == store[name := Backup(date, EmptyDir)]
            && s.restores == map[Starter := Restore(name, None, Fetching, false)]
  {
    RunFour(Start(store, None), Boot(true, true), CreateBackup(name, date), Check(true), List(true, name));
    EmptyIsBackedUp(store, name, date);
    LatestIsCalled(Start(store[name := Backup(date, EmptyDir)], Some(EmptyDir)).(pc := Checking, created := 1), name);
  }

  /** The life of a sidecar that is asked for a backup before it has listed those there are: the backup of the empty
      directory is the latest one, and the database is started afresh. */
  lemma BackupDuringBoot(store: Store, name: string, date: int) returns (events: seq<Event>)
    requires NewerThanAll(store, date)
    ensures var s := Run(Start(store, None), events);
            && s.status == DONE && s.data == Some(EmptyDir) && s.reason == RestoredBackup(name, Backup(date, EmptyDir))
            && s.store == store[name := Backup(date, EmptyDir)]
  {
    var before := [Boot(true, true), CreateBackup(name, date), Check(true), List(true, name)];
    var after := [Fetch(Starter, true), Recovered(Starter, true, EmptyDir), Upgrade(Some(EmptyDir), true), StopSignal];
    events := before + after;
    EmptyIsLatest(store, name, date);
    RestoredIsStarted(Run(Start(store, None), before), name);
    RunConcat(Start(store, None), before, after);
  }

  /** A start that finds no data, up to its own restore of the latest backup. */
  lemma LatestIsReached(store: Store, name: string)
    requires IsLatest(store, name)
    ensures var s := Run(Start(store, None), [Boot(true, true), StopSignal, Check(true), List(true, name)]);
            && s.pc.Restoring? && s.store == store && s.restores == map[Starter := Restore(name, None, Fetching, false)]
            && s.inBetween == {} && s.createdAtList == 0 && s.data == Some(EmptyDir) && s.listed == store
  {
    RunFour(Start(store, None), Boot(true, true), StopSignal, Check(true), List(true, name));
    var t := Start(store, Some(EmptyDir)).(pc := Checking, stopping := true);
    assert Apply(BootStep(Start(store, None), true, true), StopSignal) == t;
    LatestIsCalled(t, name);
  }

  lemma LatestIsOverwritten(s: State, name: string, date: int)
    requires s.pc.Restoring? && s.restores == map[Starter := Restore(name, None, Fetching, false)]
    requires s.data == Some(EmptyDir) && s.inBetween == {} && NewerThanAll(s.store, date)
    ensures Run(s, [CreateBackup(name, date)])
            == s.(store := s.store[name := Backup(date, EmptyDir)], created := s.created + 1, inBetween := {name})
  {
    RunOneMore(s, [], CreateBackup(name, date));
    assert [] + [CreateBackup(name, date)] == [CreateBackup(name, date)];
  }

  /** The life of a sidecar that is asked for a backup between its listing and its download, with the latest one's
      name: no backup had been created before the listing, and still the empty directory is restored in its place.
      */
  lemma BackupBeforeDownload(store: Store, name: string, date: int) returns (events: seq<Event>)
    requires IsLatest(store, name) && store[name].tree != EmptyDir && NewerThanAll(store, date)
    ensures var s := Run(Start(store, None), events);
            && s.status == DONE && s.data == Some(EmptyDir) && s.reason == RestoredBackup(name, Backup(date, EmptyDir))
            && s.createdAtList == 0 && s.listed == store
  {
    var before := [Boot(true, true), StopSignal, Check(true), List(true, name)];
    var after := [Fetch(Starter, true), Recovered(Starter, true, EmptyDir), Upgrade(Some(EmptyDir), true), StopSignal];
    var between := [CreateBackup(name, date)];
    events := before + between + after;
    LatestIsReached(store, name);
    RunConcat(Start(store, None), before, between);
    RunConcat(Start(store, None), before + between, after);
    var s := Run(Start(store, None), before);
    LatestIsOverwritten(s, name, date);
    RestoredIsStarted(Run(s, between), name);
  }

  /** A backup while a request recovers stores the part written so far, and the next life without data restores that in
      place of the whole backup there is. */
  lemma PartIsRestored(store: Store, name: string, part: Tree, other: string, date: int)
    returns (events: seq<Event>, next: seq<Event>)
    requires name in store && part != EmptyDir && part != store[name].tree && NewerThanAll(store, date)
    ensures var s := Run(Start(store, Some(EmptyDir)), events);
            && s.store == store[other := Backup(date, part)] && IsLatest(s.store, other) && !IsWhole(Some(EmptyDir), s)
            && var t := Run(Start(s.store, None), next);
               t.status == DONE && t.data == Some(part) && t.reason == RestoredBackup(other, Backup(date, part))
  {
    var before := [RestoreBackup(0, name), Boot(true, true), Fetch(Request(0), true), Write(Request(0), part)];
    var create := CreateBackup(other, date);
    events := before + [create];
    RequestMeets(store, name, part);
    RunOneMore(Start(store, Some(EmptyDir)), before, create);
    PartIsBackedUp(Meeting(store, name, part), other, part, date);
    var later := store[other := Backup(date, part)];
    var first := [Boot(true, true), StopSignal, Check(true), List(true, other)];
    var rest := [Fetch(Starter, true), Recovered(Starter, true, EmptyDir), Upgrade(Some(part), true), StopSignal];
    next := first + rest;
    LatestIsReached(later, other);
    RunConcat(Start(later, None), first, rest);
    RestoredIsStarted(Run(Start(later, None), first), other);
  }

  lemma PartIsBackedUp(s: State, name: string, part: Tree, date: int)
    requires !s.pc.Failed? && s.restores.Keys == {Request(0)} && s.data == Some(part) && NewerThanAll(s.store, date)
    ensures var t := Apply(s, CreateBackup(name, date));
            && t == s.(store := s.store[name := Backup(date, part)], created := s.created + 1)
            && IsLatest(t.store, name)
  {
  }

  /** Progress: without data and without backups, a start from which nothing goes wrong is done on a fresh directory. */
  lemma FreshStart() returns (events: seq<Event>)
    ensures var s := Run(Start(map[], None), events);
            s.status == DONE && s.reason == NoBackups && s.data == Some(EmptyDir)
  {
    events := [Boot(true, true), Check(true), List(true, ""), Upgrade(Some(EmptyDir), true)];
    var s := Start(map[], None);
    RunFour(s, Boot(true, true), Check(true), List(true, ""), Upgrade(Some(EmptyDir), true));
    var s1 := BootStep(s, true, true);
    assert s1 == s.(pc := Checking, data := Some(EmptyDir));
    var s2 := CheckStep(s1, true);
    assert s2 == s1.(pc := Listing);
    NothingListed(s2);
  }

  lemma NothingListed(s: State)
    requires s.pc.Listing? && s.store == map[] && s.data == Some(EmptyDir)
    ensures var t := UpgradeStep(ListStep(s, true, ""), Some(EmptyDir), true);
            t.status == DONE && t.reason == NoBackups && t.data == Some(EmptyDir)
  {
    var t := ListStep(s, true, "");
    assert !IsLatest(s.store, "");
    assert t.pc.Upgrading? && t.reason == NoBackups && t.data == s.data;
  }

  /** Progress: without data the latest backup is restored. */
  lemma PlainRestore(store: Store, name: string) returns (events: seq<Event>)
    requires IsLatest(store, name)
    ensures var s := Run(Start(store, None), events);
            && s.status == DONE && s.reason == RestoredBackup(name, store[name]) && s.data == Some(store[name].tree)
  {
    var first := [Boot(true, true), StopSignal, Check(true), List(true, name)];
    var rest := [Fetch(Starter, true), Recovered(Starter, true, EmptyDir), Upgrade(Some(store[name].tree), true),
                               StopSignal];
    events := first + rest;
    LatestIsReached(store, name);
    RunConcat(Start(store, None), first, rest);
    RestoredIsStarted(Run(Start(store, None), first), name);
  }

  /** Progress: existing data is kept and started on. */
  lemma PlainStart(store: Store, found: Tree) returns (events: seq<Event>)
    requires found != EmptyDir
    ensures var s := Run(Start(store, Some(found)), events);
            && s.status == DONE && s.reason == FoundData(found, None) && s.data == Some(found)
            && s.waiters == map[1 := SawDone] && s.lastWriter.None? && !s.upgraded
    ensures forall e :: e in events ==> !e.RestoreBackup?
  {
    var s := Start(store, Some(found));
    var first, rest := [Boot(true, true)], [Check(true), Upgrade(Some(found), true), Wait(1), Poll(1, true)];
    RunOneMore(s, [], Boot(true, true));
    assert [] + [Boot(true, true)] == first;
    assert BootStep(s, true, true) == s.(pc := Checking);
    CheckedIsStarted(s.(pc := Checking), found);
    RunConcat(s, first, rest);
    events := first + rest;
  }

  /** Progress: existing data is upgraded to what the upgrade leaves, and started on. */
  lemma UpgradedStart(store: Store, found: Tree, after: Tree) returns (events: seq<Event>)
    requires found != EmptyDir
    ensures var s := Run(Start(store, Some(found)), events);
            && s.status == DONE && s.reason == FoundData(found, None) && s.data == Some(after)
            && (s.upgraded <==> after != found)
  {
    var s := Start(store, Some(found));
    events := [Boot(true, true), StopSignal, Check(true), Upgrade(Some(after), true)];
    RunFour(s, Boot(true, true), StopSignal, Check(true), Upgrade(Some(after), true));
    var s1 := s.(pc := Checking, stopping := true);
    assert Apply(BootStep(s, true, true), StopSignal) == s1;
    var s2 := s1.(pc := Upgrading, status := UPGRADING, reason := FoundData(found, None));
    assert CheckStep(s1, true) == s2;
    assert UpgradeStep(s2, Some(after), true) == UpgradeTo(s2, Some(after), true);
  }

  /** Every failing step of Start ends the process. */
  lemma FailureEnds(s: State, made: bool, name: string, after: Option<Tree>)
    ensures s.pc.Booting? ==> BootStep(s, made, false).pc.Failed?
    ensures s.pc.Checking? ==> CheckStep(s, false).pc.Failed? && (s.data.None? ==> CheckStep(s, true).pc.Failed?)
    ensures s.pc.Listing? ==> ListStep(s, false, name).pc.Failed?
    ensures s.pc.Upgrading? && s.data.Some? ==> UpgradeStep(s, after, false).pc.Failed?
  {
  }

  /** A failing call of Restore returns, and Start's own one ends the process. */
  lemma FailedCallReturns(s: State, who: Who, left: Tree)
    ensures InPhase(s, who, Fetching) ==>
              var t := FetchStep(s, who, false);
              t.restores[who].phase == Returned(false) && t.data == s.data && (who.Starter? <==> t.pc.Failed?)
    ensures InPhase(s, who, Recovering) && s.restores[who].backup.Some? ==>
              var t := RecoveredStep(s, who, false, left);
              t.restores[who].phase == Returned(false) && t.data == s.data && (who.Starter? <==> t.pc.Failed?)
  {
  }

  /** A polling container goes ahead on DONE, and stops on the stop signal. */
  lemma PollDecides(s: State, w: nat)
    requires w in s.waiters && s.waiters[w].Polling? && !s.pc.Failed?
    ensures var t := PollStep(s, w, true);
            t.waiters[w] == if s.stopping then Stopped else if s.status == DONE then SawDone else Polling
  {
  }
}
