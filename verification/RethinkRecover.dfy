/** Restoring RethinkDB against a helper process, over any number of starts
    (cmd/internal/database/rethinkdb/rethinkdb.go and the initialization around it in
    cmd/internal/initializer/initializer.go). Every run is a sequence of events of the main program, of
    the helper process and of the pod; an event that is not possible in a state leaves it as it is. */
module RethinkRecover {
  /** The data directory: Partial is a database without all of the restored data. */
  datatype Data = Absent | Empty | Partial | Full

  /** The helper process with its goroutine. Scheduled is before the command is started. */
  datatype Process = None | Scheduled | Running | Finished

  datatype Pc =
    | Booting
    | Checking
    | Listing
    | Fetching
    | Prechecks
    | Probing
    | Importing
    | Terminating
    | AwaitingExit
    | Cancelling
    | AwaitingKilled
    | Removing
    | Upgrading
    | Done
    | Exited

  /** cleanupFailed and killed are history: the removal of a half-restored data directory after a failed recovery
      did not succeed, or the pod was killed inside Recover on one. */
  datatype State = State(pc: Pc, data: Data, process: Process, cancelled: bool, cleanupFailed: bool, killed: bool)

  datatype Event =
    /** The next step of the main program; ok is the outcome of the call it makes. */
    | Main(ok: bool)
    /** The helper: its command starts or not, writes to the data directory, exits. */
    | ProcessStart(ok: bool)
    | ProcessWrite
    | ProcessExit
    /** The real database writes after a finished initialization. */
    | DatabaseWrite
    /** The container is started again after it exited, or is killed at any moment. */
    | Restart
    | Kill

  /** Between the start of the helper process and the return of Recover. */
  predicate InRecover(pc: Pc) {
    pc.Probing? || pc.Importing? || pc.Terminating? || pc.AwaitingExit?
    || pc.Cancelling? || pc.AwaitingKilled? || pc.Removing?
  }

  function NextMain(backups: bool, s: State, ok: bool): State {
    match s.pc
    case Booting =>
      // the data directory is made when it is missing; ensuring the bucket may fail
      s.(data := if s.data.Absent? then Empty else s.data, pc := if ok then Checking else Exited)
    case Checking =>
      if !ok then s.(pc := Exited) else s.(pc := if s.data.Empty? then Listing else Upgrading)
    case Listing =>
      if !ok then s.(pc := Exited) else s.(pc := if backups then Fetching else Upgrading)
    case Fetching =>
      s.(pc := if ok then Prechecks else Exited)
    case Prechecks =>
      // restore file and password; then the goroutine is started
      if ok then s.(pc := Probing, process := Scheduled, cancelled := false) else s.(pc := Exited)
    case Probing =>
      // the probe succeeds only against a running helper
      if ok then (if s.process.Running? then s.(pc := Importing) else s) else s.(pc := Cancelling)
    case Importing =>
      if ok then (if s.process.Running? then s.(pc := Terminating, data := Full) else s) else s.(pc := Cancelling)
    case Terminating =>
      // a failing signal is followed by cancelling the context
      s.(pc := AwaitingExit, cancelled := s.cancelled || !ok)
    case AwaitingExit =>
      if s.process.Finished? then s.(pc := Upgrading) else s
    case Cancelling =>
      s.(pc := AwaitingKilled, cancelled := true)
    case AwaitingKilled =>
      if s.process.Finished? then s.(pc := Removing) else s
    case Removing =>
      if ok then s.(pc := Exited, data := Absent) else s.(pc := Exited, cleanupFailed := s.data.Partial?)
    case Upgrading => s.(pc := Done)
    case Done => s
    case Exited => s
  }

  function Apply(backups: bool, s: State, e: Event): State {
    match e
    case Main(ok) => NextMain(backups, s, ok)
    case ProcessStart(ok) =>
      // a command whose context is cancelled is not started
      if s.process.Scheduled? then s.(process := if ok && !s.cancelled then Running else Finished) else s
    case ProcessWrite =>
      if s.process.Running? && !s.data.Full? then s.(data := Partial) else s
    case ProcessExit =>
      if s.process.Running? then s.(process := Finished) else s
    case DatabaseWrite =>
      if s.pc.Done? && s.data.Empty? then s.(data := Full) else s
    case Restart =>
      if s.pc.Exited? || s.pc.Done? then s.(pc := Booting, process := None) else s
    case Kill =>
      s.(pc := Booting, process := None, killed := s.killed || (InRecover(s.pc) && s.data.Partial?))
  }

  function Run(backups: bool, s: State, events: seq<Event>): State {
    if events == [] then s
    else Apply(backups, Run(backups, s, events[..|events| - 1]), events[|events| - 1])
  }

  function Start(data: Data): State {
    State(Booting, data, None, false, false, false)
  }

  ghost predicate Inv(backups: bool, s: State) {
    && (s.process.Scheduled? || s.process.Running? ==> InRecover(s.pc) && !s.pc.Removing?)
    && (s.pc.Terminating? || s.pc.AwaitingExit? ==> s.data.Full?)
    && (s.data.Absent? ==> s.pc.Booting? || s.pc.Exited?)
    && (s.pc.Listing? || s.pc.Fetching? || s.pc.Prechecks? ==> s.data.Empty?)
    && (if InRecover(s.pc) then !s.cleanupFailed && !s.killed else s.data.Partial? <==> s.cleanupFailed || s.killed)
    && (s.pc.Upgrading? || s.pc.Done? ==> (s.data.Empty? ==> !backups))
  }

  lemma StepKeeps(backups: bool, s: State, e: Event)
    requires Inv(backups, s)
    ensures Inv(backups, Apply(backups, s, e))
  {
    if e.Main? {
      if InRecover(s.pc) {
        RecoverKeeps(backups, s, e.ok);
      } else {
        InitializeKeeps(backups, s, e.ok);
      }
    }
  }

  lemma RecoverKeeps(backups: bool, s: State, ok: bool)
    requires Inv(backups, s) && InRecover(s.pc)
    ensures Inv(backups, NextMain(backups, s, ok))
  {
  }

  lemma InitializeKeeps(backups: bool, s: State, ok: bool)
    requires Inv(backups, s) && !InRecover(s.pc)
    ensures Inv(backups, NextMain(backups, s, ok))
  {
  }

  lemma {:induction false} RunKeeps(backups: bool, data: Data, events: seq<Event>)
    requires !data.Partial?
    ensures Inv(backups, Run(backups, Start(data), events))
  {
    if events != [] {
      RunKeeps(backups, data, events[..|events| - 1]);
      StepKeeps(backups, Run(backups, Start(data), events[..|events| - 1]), events[|events| - 1]);
    }
  }

  /** Containment: in every run, whenever Recover has returned, on success or failure, no helper process is left
      or still to come, so that none of its steps changes anything any more. */
  lemma ProcessContained(backups: bool, data: Data, events: seq<Event>, ok: bool)
    requires !data.Partial?
    ensures var s := Run(backups, Start(data), events);
            !InRecover(s.pc) ==>
              && !s.process.Scheduled? && !s.process.Running?
              && Apply(backups, s, ProcessStart(ok)) == s
              && Apply(backups, s, ProcessWrite) == s
              && Apply(backups, s, ProcessExit) == s
  {
    RunKeeps(backups, data, events);
  }

  /** Exactly when: over any sequence of starts, kills and helper steps, outside Recover the data directory is
      half-restored if and only if a removal of half-restored data has failed or the pod was killed on such
      data inside Recover. */
  lemma HalfRestoredExactly(backups: bool, data: Data, events: seq<Event>)
    requires !data.Partial?
    ensures var s := Run(backups, Start(data), events);
            !InRecover(s.pc) ==> (s.data.Partial? <==> s.cleanupFailed || s.killed)
  {
    RunKeeps(backups, data, events);
  }

  /** So the initialization is done on a complete directory, or without backups on a fresh one, exactly when neither has
      happened. */
  lemma NeverHalfRestored(backups: bool, data: Data, events: seq<Event>)
    requires !data.Partial?
    ensures var s := Run(backups, Start(data), events);
            s.pc.Done? ==> (s.data.Full? || (s.data.Empty? && !backups) <==> !s.cleanupFailed && !s.killed)
  {
    RunKeeps(backups, data, events);
  }

  /** A start of which nothing fails. */
  const PlainStart: seq<Event> := [Restart, Main(true), Main(true), Main(true)]

  lemma RunOneMore(backups: bool, s: State, events: seq<Event>, e: Event)
    ensures Run(backups, s, events + [e]) == Apply(backups, Run(backups, s, events), e)
  {
    assert (events + [e])[..|events + [e]| - 1] == events;
  }

  lemma RunPlainStart(backups: bool, s: State)
    ensures Run(backups, s, PlainStart)
            == var s1 := Apply(backups, s, Restart);
               NextMain(backups, NextMain(backups, NextMain(backups, s1, true), true), true)
  {
    var go := Main(true);
    RunOneMore(backups, s, [], Restart);
    RunOneMore(backups, s, [Restart], go);
    RunOneMore(backups, s, [Restart] + [go], go);
    RunOneMore(backups, s, [Restart] + [go] + [go], go);
    assert [] + [Restart] == [Restart];
    assert PlainStart == [Restart] + [go] + [go] + [go];
  }

  /** In one step: a failed recovery that left something behind leads the next plain start to be done on
      a half-restored directory if and only if the cleanup fails. */
  lemma CleanupDecides(backups: bool, s: State, ok: bool)
    requires s.pc.Removing? && s.data.Partial? && s.process.Finished?
    ensures var next := Run(backups, Apply(backups, s, Main(ok)), PlainStart);
            (next.pc.Done? && next.data.Partial?) <==> !ok
  {
    RunPlainStart(backups, Apply(backups, s, Main(ok)));
  }

  /** Such a failure can happen: from an empty directory and with backups to restore, events lead to a finished
      initialization on a half-restored directory. */
  lemma HalfRestoredIsReachable() returns (events: seq<Event>)
    ensures var s := Run(true, Start(Empty), events); s.pc.Done? && s.data.Partial? && s.cleanupFailed && !s.killed
  {
    var s := Start(Empty);
    var steps := [Main(true), Main(true), Main(true), Main(true), Main(true), ProcessStart(true),
                                  ProcessWrite, Main(false), Main(true), ProcessExit, Main(true), Main(false),
                                  Restart, Main(true), Main(true), Main(true)];
    events := [];
    for i := 0 to |steps|
      invariant s == Run(true, Start(Empty), events)
      invariant s == Expected(i)
    {
      RunOneMore(true, Start(Empty), events, steps[i]);
      events := events + [steps[i]];
      s := Apply(true, s, steps[i]);
    }
  }

  /** The state after each step of that run. */
  function Expected(i: nat): State {
    match i
    case 0 => Start(Empty)
    case 1 => State(Checking, Empty, None, false, false, false)
    case 2 => State(Listing, Empty, None, false, false, false)
    case 3 => State(Fetching, Empty, None, false, false, false)
    case 4 => State(Prechecks, Empty, None, false, false, false)
    case 5 => State(Probing, Empty, Scheduled, false, false, false)
    case 6 => State(Probing, Empty, Running, false, false, false)
    case 7 => State(Probing, Partial, Running, false, false, false)
    case 8 => State(Cancelling, Partial, Running, false, false, false)
    case 9 => State(AwaitingKilled, Partial, Running, true, false, false)
    case 10 => State(AwaitingKilled, Partial, Finished, true, false, false)
    case 11 => State(Removing, Partial, Finished, true, false, false)
    case 12 => State(Exited, Partial, Finished, true, true, false)
    case 13 => State(Booting, Partial, None, true, true, false)
    case 14 => State(Checking, Partial, None, true, true, false)
    case 15 => State(Upgrading, Partial, None, true, true, false)
    case _ => State(Done, Partial, None, true, true, false)
  }

  /** Progress: with a backup, a start without data from which nothing goes wrong ends on the restored data. */
  lemma RestoreSucceeds() returns (events: seq<Event>)
    ensures var s := Run(true, Start(Absent), events);
            s.pc.Done? && s.data.Full? && s.process.Finished? && !s.cleanupFailed && !s.killed
  {
    var s := Start(Absent);
    var steps := [Main(true), Main(true), Main(true), Main(true), Main(true), ProcessStart(true), ProcessWrite,
                                  Main(true), Main(true), Main(true), ProcessExit, Main(true), Main(true)];
    events := [];
    for i := 0 to |steps|
      invariant s == Run(true, Start(Absent), events)
      invariant s == OnTheWay(i)
    {
      RunOneMore(true, Start(Absent), events, steps[i]);
      events := events + [steps[i]];
      s := Apply(true, s, steps[i]);
    }
  }

  /** The state after each step of that run. */
  function OnTheWay(i: nat): State {
    match i
    case 0 => Start(Absent)
    case 1 => State(Checking, Empty, None, false, false, false)
    case 2 => State(Listing, Empty, None, false, false, false)
    case 3 => State(Fetching, Empty, None, false, false, false)
    case 4 => State(Prechecks, Empty, None, false, false, false)
    case 5 => State(Probing, Empty, Scheduled, false, false, false)
    case 6 => State(Probing, Empty, Running, false, false, false)
    case 7 => State(Probing, Partial, Running, false, false, false)
    case 8 => State(Importing, Partial, Running, false, false, false)
    case 9 => State(Terminating, Full, Running, false, false, false)
    case 10 => State(AwaitingExit, Full, Running, false, false, false)
    case 11 => State(AwaitingExit, Full, Finished, false, false, false)
    case 12 => State(Upgrading, Full, Finished, false, false, false)
    case _ => State(Done, Full, Finished, false, false, false)
  }

  /** Progress: existing data is started on, and so is an empty directory when there are no backups. */
  lemma StartSucceeds(backups: bool, s: State)
    requires s.pc.Booting?
    ensures var c := NextMain(backups, NextMain(backups, s, true), true);
            && (s.data.Partial? || s.data.Full? ==> NextMain(backups, c, true).pc.Done?)
            && (!backups && (s.data.Absent? || s.data.Empty?) ==>
                  NextMain(backups, NextMain(backups, c, true), true).pc.Done?)
  {
  }

  /** What a fresh database has written is kept by the next start. */
  lemma FreshDatabaseIsKept(backups: bool, s: State)
    requires s.pc.Done? && s.data.Empty?
    ensures var next := Run(backups, Apply(backups, s, DatabaseWrite), PlainStart);
            next.pc.Done? && next.data.Full?
  {
    RunPlainStart(backups, Apply(backups, s, DatabaseWrite));
  }

  /** Every failing step ends the start, outside Recover at once with the data as it is, inside by cancelling the
      helper. */
  lemma FailureEnds(backups: bool, s: State)
    ensures var t := NextMain(backups, s, false);
            && (s.pc.Checking? || s.pc.Listing? || s.pc.Fetching? || s.pc.Prechecks? ==> t == s.(pc := Exited))
            && (s.pc.Booting? ==> t.pc.Exited?)
            && (s.pc.Probing? || s.pc.Importing? ==> t == s.(pc := Cancelling))
  {
  }

  /** The same with a kill inside Recover after the helper has written: there is no cleanup then. */
  lemma KillHalfRestores(backups: bool, s: State)
    requires InRecover(s.pc) && s.data.Partial?
    ensures var next := Run(backups, Apply(backups, s, Kill), PlainStart);
            next.pc.Done? && next.data.Partial?
  {
    RunPlainStart(backups, Apply(backups, s, Kill));
  }

  predicate IsHelper(e: Event) {
    e.ProcessStart? || e.ProcessWrite? || e.ProcessExit?
  }

  predicate AllHelper(events: seq<Event>) {
    forall e :: e in events ==> IsHelper(e)
  }

  /** What any steps of the helper can do: nothing before it is scheduled or after it has finished; otherwise it may
      start, unless it is cancelled, write, and finish. Restored data stays restored. */
  predicate HelperSteps(before: State, after: State) {
    && after == before.(data := after.data, process := after.process)
    && (after.data == before.data || (after.data.Partial? && !before.data.Full?))
    && match before.process
       case None => after == before
       case Finished => after == before
       case Running => after.process.Running? || after.process.Finished?
       case Scheduled =>
         !after.process.None? && (before.cancelled ==> !after.process.Running? && after.data == before.data)
  }

  /** Every sequence of helper events is such a step. */
  lemma {:induction false} HelperEvents(backups: bool, s: State, events: seq<Event>)
    requires AllHelper(events)
    ensures HelperSteps(s, Run(backups, s, events))
  {
    if events != [] {
      HelperEvents(backups, s, events[..|events| - 1]);
      assert events[|events| - 1] in events;
    }
  }

  lemma {:induction false} RunConcat(backups: bool, s: State, a: seq<Event>, b: seq<Event>)
    ensures Run(backups, s, a + b) == Run(backups, Run(backups, s, a), b)
    decreases |b|
  {
    if b == [] {
      assert a + b == a;
    } else {
      assert (a + b)[..|a + b| - 1] == a + b[..|b| - 1];
      RunConcat(backups, s, a, b[..|b| - 1]);
    }
  }

  /** A helper that has been scheduled and is not cancelled can be up. */
  lemma CanRun(backups: bool, s: State)
    requires (s.process.Scheduled? && !s.cancelled) || s.process.Running?
    ensures exists events :: AllHelper(events) && Run(backups, s, events).process.Running?
  {
    RunOneMore(backups, s, [], ProcessStart(true));
    assert [] + [ProcessStart(true)] == [ProcessStart(true)];
    assert AllHelper([]) && AllHelper([ProcessStart(true)]);
    if s.process.Running? {
      assert Run(backups, s, []).process.Running?;
    } else {
      assert Run(backups, s, [ProcessStart(true)]).process.Running?;
    }
  }

  /** A helper that has been scheduled can come to its end. */
  lemma CanFinish(backups: bool, s: State)
    requires !s.process.None?
    ensures exists events :: AllHelper(events) && Run(backups, s, events).process.Finished?
  {
    var last := if s.process.Scheduled? then ProcessStart(false) else ProcessExit;
    RunOneMore(backups, s, [], last);
    assert Apply(backups, s, last).process.Finished? && [] + [last] == [last];
    assert AllHelper([last]);
  }

  predicate CanComeUp(s: State) {
    (s.process.Scheduled? && !s.cancelled) || s.process.Running?
  }

  /** Recover as it is written: every statement that matters is an event of the machine, and the helper takes any
      steps in between. trace is the history of these events. */
  class Recovery {
    const backups: bool
    /** Nothing fails: the files are there, the helper comes up and stays, the import succeeds. */
    const faultless: bool
    /** The data directory can be removed. */
    const cleans: bool
    ghost const first: State
    ghost var trace: seq<Event>
    var state: State

    /** The state is what the history makes of the first one. */
    ghost predicate Valid()
      reads this
    {
      state == Run(backups, first, trace)
    }

    constructor (backups: bool, state: State, faultless: bool, cleans: bool)
      ensures Valid() && this.backups == backups && this.state == state && first == state
      ensures this.faultless == faultless && this.cleans == cleans
    {
      this.backups, this.faultless, this.cleans := backups, faultless, cleans;
      this.state, this.first, this.trace := state, state, [];
    }

    method Advance(ok: bool)
      requires Valid()
      modifies this
      ensures Valid() && state == NextMain(backups, old(state), ok)
    {
      RunOneMore(backups, first, trace, Main(ok));
      state := NextMain(backups, state, ok);
      trace := trace + [Main(ok)];
    }

    method Helper()
      requires Valid()
      modifies this
      ensures Valid() && HelperSteps(old(state), state)
      ensures faultless && CanComeUp(old(state)) ==> state.process.Running?
    {
      if CanComeUp(state) {
        CanRun(backups, state);
      }
      var events: seq<Event> :| AllHelper(events)
                                && (faultless && CanComeUp(state) ==> Run(backups, state, events).process.Running?) by {
        assert AllHelper([]);
      }
      HelperEvents(backups, state, events);
      RunConcat(backups, first, trace, events);
      state := Run(backups, state, events);
      trace := trace + events;
    }

    /** g.Wait returns once the goroutine has finished. */
    method Wait()
      requires Valid() && !state.process.None?
      modifies this
      ensures Valid() && HelperSteps(old(state), state) && state.process.Finished?
    {
      CanFinish(backups, state);
      var events: seq<Event> :| AllHelper(events) && Run(backups, state, events).process.Finished?;
      HelperEvents(backups, state, events);
      RunConcat(backups, first, trace, events);
      state := Run(backups, state, events);
      trace := trace + events;
    }

    /** The end of handleFailedRecovery, once the helper has stopped. */
    method CleanUp() returns (removed: bool)
      requires Valid() && state.pc.AwaitingKilled? && state.process.Finished?
      modifies this
      ensures Valid() && state.pc.Exited? && state.process.Finished? && (cleans ==> removed)
      ensures if removed then state.data.Absent? else state.cleanupFailed <==> state.data.Partial?
    {
      Advance(true);
      removed := *;
      removed := removed || cleans;
      Advance(removed);
    }

    /** handleFailedRecovery: kill, wait, and only then remove. */
    method HandleFailedRecovery() returns (removed: bool)
      requires Valid() && state.pc.Cancelling? && !state.process.None?
      modifies this
      ensures Valid() && state.pc.Exited? && state.process.Finished? && (cleans ==> removed)
      ensures if removed then state.data.Absent? else state.cleanupFailed <==> state.data.Partial?
    {
      Advance(true);
      Helper();
      Wait();
      removed := CleanUp();
    }

    /** The probe and the import: each may succeed only against a running helper. */
    method Attempt() returns (ok: bool)
      requires Valid() && (state.pc.Probing? || state.pc.Importing?) && !state.process.None?
      modifies this
      ensures Valid() && !state.process.None? && state.cancelled == old(state).cancelled
      ensures faultless && CanComeUp(old(state)) ==> ok
      ensures ok ==> state.process.Running?
      ensures !ok ==> state.pc.Cancelling?
      ensures ok ==> state.pc == if old(state).pc.Probing? then Importing else Terminating
      ensures ok && old(state).pc.Importing? ==> state.data.Full?
    {
      Helper();
      ok := *;
      ok := (ok || faultless) && state.process.Running?;
      Advance(ok);
    }

    /** The signal, followed by cancelling the context when it fails, and the end of the helper. */
    method Terminate()
      requires Valid() && state.pc.Terminating? && !state.process.None? && state.data.Full?
      modifies this
      ensures Valid() && state.pc.Upgrading? && state.process.Finished? && state.data.Full?
    {
      Helper();
      var signalled: bool := *;
      Advance(signalled);
      Wait();
      Advance(true);
    }

    /** Recover is a run of the machine from its prechecks to its return. Whenever it returns, the helper is
        stopped. Success leaves the restored data; a failure before the helper was started changes nothing; a later
        failure leaves no data directory, if it could be removed. It succeeds when nothing fails. */
    method Recover() returns (ok: bool, started: bool, removed: bool)
      requires Valid() && state.pc.Prechecks? && state.process.None?
      modifies this
      ensures Valid()
      ensures if ok then state.pc.Upgrading? else state.pc.Exited?
      ensures state.process.None? || state.process.Finished?
      ensures !started ==> !ok && state == old(state).(pc := Exited)
      ensures ok ==> state.data.Full?
      ensures started && !ok ==> if removed then state.data.Absent? else state.cleanupFailed <==> state.data.Partial?
      ensures faultless ==> ok
      ensures cleans && started && !ok ==> removed
    {
      started, removed := false, false;
      // restore file and password file
      ok := *;
      ok := ok || faultless;
      Advance(ok);
      if !ok {
        return;
      }
      started := true;
      ok := Attempt();
      if ok {
        ok := Attempt();
      }
      if !ok {
        removed := HandleFailedRecovery();
        return;
      }
      Terminate();
    }
  }
}
