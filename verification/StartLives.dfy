/** Any number of lives of StartProtocol on one data directory and one store: each ends at any moment, by an error or by
    being killed, and the next one finds what it left. */
module StartLives {
  import opened Decimal
  import opened FileTree
  import opened Files
  import opened StatusWord
  import opened StartProtocol
  import StartRuns

  type Life = seq<Event>

  /** The state in which the last life ends. */
  function EndOf(store: Store, data: Option<Tree>, lives: seq<Life>): State {
    if lives == [] then Start(store, data)
    else
      var before := EndOf(store, data, lives[..|lives| - 1]);
      Run(Start(before.store, before.data), lives[|lives| - 1])
  }

  /** The state in which life k ends. */
  function EndAfter(store: Store, data: Option<Tree>, lives: seq<Life>, k: nat): State
    requires k < |lives|
  {
    EndOf(store, data, lives[..k + 1])
  }

  lemma SameEnds(store: Store, data: Option<Tree>, lives: seq<Life>)
    requires lives != []
    ensures var n := |lives| - 1;
            && EndAfter(store, data, lives, n) == EndOf(store, data, lives)
            && forall k :: 0 <= k < n ==> EndAfter(store, data, lives[..n], k) == EndAfter(store, data, lives, k)
  {
    var n := |lives| - 1;
    assert lives[..n + 1] == lives;
    forall k | 0 <= k < n ensures EndAfter(store, data, lives[..n], k) == EndAfter(store, data, lives, k) {
      assert lives[..n][..k + 1] == lives[..k + 1];
    }
  }

  /** A life that ends inside its own recovery, with something written that is neither empty nor the whole backup. */
  predicate Interrupted(s: State) {
    && s.lastWriter == Some(Starter) && Starter in s.restores && s.restores[Starter].backup.Some?
    && s.restores[Starter].phase != Returned(true)
    && s.data.Some? && s.data != Some(EmptyDir) && s.data != Some(s.restores[Starter].backup.value.tree)
  }

  ghost predicate SomeInterrupted(store: Store, data: Option<Tree>, lives: seq<Life>) {
    exists k :: 0 <= k < |lives| && Interrupted(EndAfter(store, data, lives, k))
  }

  /** The whole backup that the last life to write a backup was to restore. */
  function LastBackup(store: Store, data: Option<Tree>, lives: seq<Life>): Option<Tree> {
    if lives == [] then None
    else
      var s := EndOf(store, data, lives);
      match s.lastWriter
      case None => LastBackup(store, data, lives[..|lives| - 1])
      case Some(w) =>
        if w in s.restores && s.restores[w].backup.Some? then Some(s.restores[w].backup.value.tree) else None
  }

  /** Over all lives, the data is that backup, or what the first life found, made when it was missing. */
  predicate IsWholeNow(store: Store, data: Option<Tree>, lives: seq<Life>) {
    var now := EndOf(store, data, lives).data;
    match LastBackup(store, data, lives)
    case None => now == data || (data.None? && now == Some(EmptyDir))
    case Some(tree) => now == Some(tree)
  }

  /** The last life to write a backup was an interrupted one. */
  predicate LastInterrupted(store: Store, data: Option<Tree>, lives: seq<Life>) {
    lives != []
    && var s := EndOf(store, data, lives);
       if s.lastWriter.None? then LastInterrupted(store, data, lives[..|lives| - 1]) else Interrupted(s)
  }

  /** An upgrade has changed the data since the last life to write a backup did. */
  predicate UpgradedSince(store: Store, data: Option<Tree>, lives: seq<Life>) {
    lives != []
    && var s := EndOf(store, data, lives);
       s.upgraded || (s.lastWriter.None? && UpgradedSince(store, data, lives[..|lives| - 1]))
  }

  ghost predicate NoRequests(lives: seq<Life>) {
    forall life, e :: life in lives && e in life ==> !e.RestoreBackup?
  }

  /** What one life without restore requests does to the data directory. */
  lemma OneLife(store: Store, data: Option<Tree>, s: State)
    requires Inv(store, data, s) && OnlyOwn(s)
    ensures s.lastWriter.None? && !s.upgraded ==> s.data == data || (data.None? && s.data == Some(EmptyDir))
    ensures s.lastWriter.Some? ==>
              && s.lastWriter.value == Starter && Starter in s.restores && s.restores[Starter].backup.Some?
              && WasEmpty(data) && s.store != map[]
    ensures s.lastWriter.Some? && !s.upgraded ==>
              && s.data.Some?
              && (s.restores[Starter].phase == Returned(true) ==> s.data == Some(s.restores[Starter].backup.value.tree))
    ensures forall name :: name in store ==> name in s.store
  {
    if s.lastWriter.Some? {
      assert s.lastWriter.value == Starter;
      assert s.restores[Starter].name in s.store;
    }
  }

  /** What the lives leave: after an interrupted one its leftovers, otherwise whole data, or an empty directory with a
      backup in the store. */
  ghost predicate LivesInv(store: Store, data: Option<Tree>, lives: seq<Life>) {
    var s, whole := EndOf(store, data, lives), LastBackup(store, data, lives);
    && (whole.Some? ==> s.store != map[])
    && (!UpgradedSince(store, data, lives) ==>
          && (whole.Some? ==> s.data.Some?)
          && if LastInterrupted(store, data, lives) then s.data != Some(EmptyDir) && whole.Some? && s.data != whole
             else IsWholeNow(store, data, lives) || (s.data == Some(EmptyDir) && whole.Some?))
  }

  lemma {:induction false} LivesKeep(store: Store, data: Option<Tree>, lives: seq<Life>)
    requires NoRequests(lives)
    ensures LivesInv(store, data, lives)
  {
    if lives != [] {
      LivesKeep(store, data, lives[..|lives| - 1]);
      LifeKeeps(store, data, lives);
    }
  }

  lemma LifeInv(store: Store, data: Option<Tree>, lives: seq<Life>)
    requires NoRequests(lives) && lives != []
    ensures var before, s := EndOf(store, data, lives[..|lives| - 1]), EndOf(store, data, lives);
            Inv(before.store, before.data, s) && OnlyOwn(s)
  {
    var before := EndOf(store, data, lives[..|lives| - 1]);
    assert lives[|lives| - 1] in lives;
    RunKeeps(before.store, before.data, lives[|lives| - 1]);
    RunCalls(Start(before.store, before.data), lives[|lives| - 1]);
  }

  lemma LifeKeeps(store: Store, data: Option<Tree>, lives: seq<Life>)
    requires NoRequests(lives) && lives != [] && LivesInv(store, data, lives[..|lives| - 1])
    ensures LivesInv(store, data, lives)
  {
    var before, s := EndOf(store, data, lives[..|lives| - 1]), EndOf(store, data, lives);
    LifeInv(store, data, lives);
    OneLife(before.store, before.data, s);
    if s.lastWriter.None? {
      assert LastBackup(store, data, lives) == LastBackup(store, data, lives[..|lives| - 1]);
    } else {
      assert LastBackup(store, data, lives) == Some(s.restores[Starter].backup.value.tree);
    }
  }

  /** A life that is done and has written nothing itself: it has found something, or there are no backups. */
  lemma DoneWithoutWriting(store: Store, data: Option<Tree>, s: State)
    requires Inv(store, data, s) && OnlyOwn(s) && s.pc.Finished? && s.lastWriter.None? && store != map[]
    ensures data.Some? && data != Some(EmptyDir)
  {
    NotFresh(store, data, s);
  }

  lemma OwnReturned(store: Store, data: Option<Tree>, s: State)
    requires Inv(store, data, s) && s.pc.Finished? && Starter in s.restores
    ensures s.restores[Starter].phase == Returned(true)
  {
  }

  /** Over any sequence of lives without restore requests: DONE is reached on data that is not whole, unless
      upgraded since, if and only if the last life to write a backup ended inside its own recovery with something
      written that is neither empty nor whole. */
  lemma {:induction false} PartialExactly(store: Store, data: Option<Tree>, lives: seq<Life>)
    requires NoRequests(lives) && EndOf(store, data, lives).status == DONE && !UpgradedSince(store, data, lives)
    ensures !IsWholeNow(store, data, lives) <==> LastInterrupted(store, data, lives)
  {
    assert lives != [];
    var init := lives[..|lives| - 1];
    var before, s := EndOf(store, data, init), EndOf(store, data, lives);
    LivesKeep(store, data, init);
    LivesKeep(store, data, lives);
    LifeInv(store, data, lives);
    OneLife(before.store, before.data, s);
    if s.lastWriter.Some? {
      OwnReturned(before.store, before.data, s);
    } else if LastBackup(store, data, init).Some? {
      DoneWithoutWriting(before.store, before.data, s);
    }
  }

  lemma SomeBefore(store: Store, data: Option<Tree>, lives: seq<Life>)
    requires lives != [] && SomeInterrupted(store, data, lives[..|lives| - 1])
    ensures SomeInterrupted(store, data, lives)
  {
    SameEnds(store, data, lives);
    var init := lives[..|lives| - 1];
    var k :| 0 <= k < |init| && Interrupted(EndAfter(store, data, init, k));
    assert Interrupted(EndAfter(store, data, lives, k));
  }

  lemma SomeEarlier(store: Store, data: Option<Tree>, lives: seq<Life>, k: nat)
    requires k < |lives| - 1 && Interrupted(EndAfter(store, data, lives, k))
    ensures SomeInterrupted(store, data, lives[..|lives| - 1])
  {
    SameEnds(store, data, lives);
    assert Interrupted(EndAfter(store, data, lives[..|lives| - 1], k));
  }

  lemma SomeMore(store: Store, data: Option<Tree>, lives: seq<Life>)
    requires lives != []
    ensures SomeInterrupted(store, data, lives)
            <==> SomeInterrupted(store, data, lives[..|lives| - 1]) || Interrupted(EndOf(store, data, lives))
  {
    SameEnds(store, data, lives);
    var n := |lives| - 1;
    if SomeInterrupted(store, data, lives) {
      var k :| 0 <= k < |lives| && Interrupted(EndAfter(store, data, lives, k));
      if k < n {
        SomeEarlier(store, data, lives, k);
      }
    }
    if SomeInterrupted(store, data, lives[..n]) {
      SomeBefore(store, data, lives);
    }
    if Interrupted(EndOf(store, data, lives)) {
      assert Interrupted(EndAfter(store, data, lives, n));
    }
  }

  ghost predicate NoUpgrades(store: Store, data: Option<Tree>, lives: seq<Life>) {
    forall k :: 0 <= k < |lives| ==> !EndAfter(store, data, lives, k).upgraded
  }

  /** Once a life was interrupted no later one writes a backup, as long as no upgrade changes or loses the data. */
  lemma {:induction false} InterruptedLasts(store: Store, data: Option<Tree>, lives: seq<Life>)
    requires NoRequests(lives) && NoUpgrades(store, data, lives)
    ensures !UpgradedSince(store, data, lives)
    ensures LastInterrupted(store, data, lives) <==> SomeInterrupted(store, data, lives)
  {
    if lives != [] {
      var init := lives[..|lives| - 1];
      var before, s := EndOf(store, data, init), EndOf(store, data, lives);
      SameEnds(store, data, lives);
      SomeMore(store, data, lives);
      InterruptedLasts(store, data, init);
      LivesKeep(store, data, init);
      LifeInv(store, data, lives);
      OneLife(before.store, before.data, s);
    }
  }

  /** So without upgrades: if and only if any earlier life was interrupted. */
  lemma {:induction false} PartialForGood(store: Store, data: Option<Tree>, lives: seq<Life>)
    requires NoRequests(lives) && NoUpgrades(store, data, lives) && EndOf(store, data, lives).status == DONE
    ensures lives != []
    ensures !IsWholeNow(store, data, lives) <==> SomeInterrupted(store, data, lives[..|lives| - 1])
  {
    assert lives != [];
    var init := lives[..|lives| - 1];
    InterruptedLasts(store, data, lives);
    PartialExactly(store, data, lives);
    SomeMore(store, data, lives);
    LifeInv(store, data, lives);
    if Starter in EndOf(store, data, lives).restores {
      var before := EndOf(store, data, init);
      OwnReturned(before.store, before.data, EndOf(store, data, lives));
    }
  }

  /** A life that is killed while it recovers the latest backup. */
  lemma KilledLife(store: Store, name: string, part: Tree) returns (life: Life)
    requires IsLatest(store, name)
    ensures var s := Run(Start(store, None), life);
            && s.store == store && s.data == Some(part) && s.lastWriter == Some(Starter)
            && s.restores == map[Starter := Restore(name, Some(store[name]), Recovering, false)]
    ensures forall e :: e in life ==> !e.RestoreBackup?
  {
    var first := [Boot(true, true), StopSignal, Check(true), List(true, name)];
    StartRuns.LatestIsReached(store, name);
    var s := Run(Start(store, None), first);
    StartRuns.RunOneMore(Start(store, None), first, Fetch(Starter, true));
    StartRuns.CallFetches(s, Starter, name);
    var fetched := Apply(s, Fetch(Starter, true));
    StartRuns.RunOneMore(Start(store, None), first + [Fetch(Starter, true)], Write(Starter, part));
    StartRuns.CallWrites(fetched, Starter, Restore(name, Some(store[name]), Recovering, false), part);
    life := first + [Fetch(Starter, true)] + [Write(Starter, part)];
  }

  /** Two lives that end in DONE on part of the latest backup. */
  lemma PartIsStarted(store: Store, name: string, part: Tree) returns (lives: seq<Life>)
    requires IsLatest(store, name) && part != EmptyDir && part != store[name].tree
    ensures NoRequests(lives)
    ensures EndOf(store, None, lives).status == DONE && EndOf(store, None, lives).data == Some(part)
    ensures !IsWholeNow(store, None, lives)
  {
    var one := KilledLife(store, name, part);
    var two := StartRuns.PlainStart(store, part);
    lives := [one, two];
    assert lives[..1] == [one] && [one][..0] == [];
    assert EndOf(store, None, [one]) == Run(Start(store, None), one);
    assert LastBackup(store, None, [one]) == Some(store[name].tree);
  }
}
