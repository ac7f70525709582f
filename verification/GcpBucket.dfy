/** Several sidecars keep their lifecycle rules in one bucket
    (EnsureBackupBucket of cmd/internal/backup/providers/gcp/gcp.go). */
module GcpBucket {
  import opened Decimal
  import opened BucketObjects

  datatype Rule = Rule(matchesPrefix: seq<string>, numNewerVersions: int, action: string)
  datatype Bucket = Bucket(rules: seq<Rule>, metageneration: nat)
  datatype Sidecar = Sidecar(prefix: string, objectsToKeep: int)

  predicate Names(r: Rule, prefix: string) {
    prefix in r.matchesPrefix
  }

  function OwnRule(s: Sidecar): Rule {
    Rule([s.prefix], s.objectsToKeep, "Delete")
  }

  /** A version of an object with so many newer ones. */
  datatype Version = Version(name: string, newer: nat)

  /** What a rule deletes. */
  predicate Deletes(r: Rule, v: Version) {
    && r.action == "Delete" && v.newer >= r.numNewerVersions
    && exists p :: p in r.matchesPrefix && p <= v.name
  }

  predicate Deletable(rules: seq<Rule>, v: Version) {
    exists r :: r in rules && Deletes(r, v)
  }

  /** The own rule deletes exactly the versions with enough newer ones, of all names that begin with the prefix. */
  lemma OwnRuleDeletes(s: Sidecar, v: Version)
    ensures Deletes(OwnRule(s), v) <==> s.prefix <= v.name && v.newer >= s.objectsToKeep
  {
    assert s.prefix in OwnRule(s).matchesPrefix;
  }

  /** Of the object of a sidecar: exactly when that one's prefix begins with the own one. */
  lemma RuleTouches(s: Sidecar, t: Sidecar, base: string, v: Version)
    requires IsBase(base) && '/' !in s.prefix && v.name == ObjectName(t.prefix, base)
    ensures Deletes(OwnRule(s), v) <==>
              v.newer >= s.objectsToKeep && s.prefix <= if t.prefix == "" then base else t.prefix
  {
    OwnRuleDeletes(s, v);
    PrefixCovers(s.prefix, t.prefix, base);
  }

  /** The rule of a sidecar "db" that keeps one version deletes what a sidecar "db2" is to keep: the rule names the
      prefix without a slash. */
  lemma ShorterPrefixDeletes(base: string)
    requires IsBase(base)
    ensures var s, t := Sidecar("db", 1), Sidecar("db2", 20);
            var v := Version(ObjectName(t.prefix, base), 1);
            !Deletes(OwnRule(t), v) && Deletable([OwnRule(t), OwnRule(s)], v)
  {
    var s, t := Sidecar("db", 1), Sidecar("db2", 20);
    var v := Version(ObjectName(t.prefix, base), 1);
    RuleTouches(s, t, base, v);
    RuleTouches(t, t, base, v);
    assert OwnRule(s) in [OwnRule(t), OwnRule(s)];
  }

  /** The position of the first rule naming a prefix; the length when there is none. */
  function IndexOf(rules: seq<Rule>, prefix: string): (i: nat)
    ensures i <= |rules| && (i < |rules| ==> Names(rules[i], prefix))
    ensures forall j :: 0 <= j < i ==> !Names(rules[j], prefix)
  {
    if rules == [] || Names(rules[0], prefix) then 0 else 1 + IndexOf(rules[1..], prefix)
  }

  function Merge(rules: seq<Rule>, s: Sidecar): seq<Rule> {
    var i := IndexOf(rules, s.prefix);
    if i < |rules| then rules[i := OwnRule(s)] else rules + [OwnRule(s)]
  }

  function Count(rules: seq<Rule>, prefix: string): nat {
    if rules == [] then 0 else (if Names(rules[0], prefix) then 1 else 0) + Count(rules[1..], prefix)
  }

  lemma {:induction false} CountUpdate(rules: seq<Rule>, i: nat, r: Rule, prefix: string)
    requires i < |rules|
    ensures Count(rules[i := r], prefix) + (if Names(rules[i], prefix) then 1 else 0)
            == Count(rules, prefix) + if Names(r, prefix) then 1 else 0
  {
    if i == 0 {
      assert rules[0 := r][1..] == rules[1..];
    } else {
      assert rules[i := r][1..] == rules[1..][i - 1 := r];
      CountUpdate(rules[1..], i - 1, r, prefix);
    }
  }

  lemma {:induction false} CountAppend(rules: seq<Rule>, r: Rule, prefix: string)
    ensures Count(rules + [r], prefix) == Count(rules, prefix) + if Names(r, prefix) then 1 else 0
  {
    if rules != [] {
      assert (rules + [r])[1..] == rules[1..] + [r];
      CountAppend(rules[1..], r, prefix);
    }
  }

  lemma {:induction false} CountIn(rules: seq<Rule>, prefix: string)
    ensures Count(rules, prefix) == 0 <==> forall r :: r in rules ==> !Names(r, prefix)
  {
    if rules != [] {
      CountIn(rules[1..], prefix);
      assert rules == [rules[0]] + rules[1..];
    }
  }

  /** A merge leaves exactly one rule for the own prefix, if and only if there was at most one before. */
  lemma MergeOwn(rules: seq<Rule>, s: Sidecar)
    ensures OwnRule(s) in Merge(rules, s)
    ensures Count(Merge(rules, s), s.prefix) == 1 <==> Count(rules, s.prefix) <= 1
  {
    var i := IndexOf(rules, s.prefix);
    CountIn(rules, s.prefix);
    if i < |rules| {
      CountUpdate(rules, i, OwnRule(s), s.prefix);
      assert Merge(rules, s)[i] == OwnRule(s);
      assert rules[i] in rules;
    } else {
      CountAppend(rules, OwnRule(s), s.prefix);
      assert forall r :: r in rules ==> !Names(r, s.prefix);
    }
  }

  /** A merge keeps the number of rules for another prefix, if and only if the first rule
      naming the own prefix does not name the other one too. */
  lemma MergeOther(rules: seq<Rule>, s: Sidecar, other: string)
    requires other != s.prefix
    ensures var i := IndexOf(rules, s.prefix);
            Count(Merge(rules, s), other) == Count(rules, other) <==> !(i < |rules| && Names(rules[i], other))
    ensures Count(Merge(rules, s), other) <= Count(rules, other)
  {
    var i := IndexOf(rules, s.prefix);
    if i < |rules| {
      CountUpdate(rules, i, OwnRule(s), other);
    } else {
      CountAppend(rules, OwnRule(s), other);
    }
  }

  lemma TwoCount(rules: seq<Rule>, i: nat, k: nat, prefix: string)
    requires i < |rules| && k < |rules| && i != k && Names(rules[i], prefix) && Names(rules[k], prefix)
    ensures Count(rules, prefix) >= 2
  {
    var r := Rule([], 0, "");
    CountUpdate(rules, k, r, prefix);
    assert rules[k := r][i] in rules[k := r];
    CountIn(rules[k := r], prefix);
  }

  /** Two rules for the own prefix stay two: only the first is replaced. */
  lemma DuplicateStays(s: Sidecar, r: Rule)
    requires r.matchesPrefix == [s.prefix]
    ensures Count(Merge([r, r], s), s.prefix) == 2
  {
    assert r.matchesPrefix[0] == s.prefix && OwnRule(s).matchesPrefix[0] == s.prefix;
    assert Names(r, s.prefix) && Names(OwnRule(s), s.prefix);
    assert [r, r][1..] == [r] && [r][1..] == [];
    assert Count([r, r], s.prefix) == 1 + Count([r], s.prefix);
    assert IndexOf([r, r], s.prefix) == 0;
    CountUpdate([r, r], 0, OwnRule(s), s.prefix);
  }

  /** The rules that name no prefix of a sidecar, in order. */
  function Foreign(rules: seq<Rule>, sidecars: seq<Sidecar>): seq<Rule> {
    if rules == [] then []
    else
      var init, last := rules[..|rules| - 1], rules[|rules| - 1];
      Foreign(init, sidecars) +
      if exists s :: s in sidecars && Names(last, s.prefix) then [] else [last]
  }

  lemma {:induction false} ForeignUpdate(rules: seq<Rule>, sidecars: seq<Sidecar>, i: nat, s: Sidecar)
    requires i < |rules| && s in sidecars && Names(rules[i], s.prefix)
    ensures Foreign(rules[i := OwnRule(s)], sidecars) == Foreign(rules, sidecars)
  {
    var k := |rules| - 1;
    if i == k {
      assert rules[i := OwnRule(s)][..k] == rules[..k];
    } else {
      assert rules[i := OwnRule(s)][..k] == rules[..k][i := OwnRule(s)];
      ForeignUpdate(rules[..k], sidecars, i, s);
    }
  }

  /** Rules of nobody's prefix survive every merge, unchanged and in order. */
  lemma MergeForeign(rules: seq<Rule>, sidecars: seq<Sidecar>, s: Sidecar)
    requires s in sidecars
    ensures Foreign(Merge(rules, s), sidecars) == Foreign(rules, sidecars)
  {
    var i := IndexOf(rules, s.prefix);
    if i < |rules| {
      ForeignUpdate(rules, sidecars, i, s);
    } else {
      assert (rules + [OwnRule(s)])[..|rules|] == rules;
      assert Names(OwnRule(s), s.prefix);
    }
  }

  /** Where a sidecar is in EnsureBackupBucket. */
  datatype Pc =
    | Down
    | Starting
    | Ensured
    | HasAttrs(rules: seq<Rule>, metageneration: nat)
    | Returned(ok: bool)

  /** settled is the history: the sidecars whose conditional update has been applied. */
  datatype State = State(bucket: Option<Bucket>, pcs: seq<Pc>, settled: set<nat>)

  /** One request of one sidecar reaching the bucket, or its process failing. A reply may be lost
      after the request took effect. */
  datatype Event =
    | Boot(i: nat)
    | Create(i: nat, metageneration: nat, replied: bool)
    | ReadAttrs(i: nat)
    | Update(i: nat, replied: bool)
    | Fail(i: nat)

  function Apply(sidecars: seq<Sidecar>, st: State, e: Event): (r: State)
    requires |st.pcs| == |sidecars|
    ensures |r.pcs| == |sidecars|
  {
    if e.i >= |sidecars| then st
    else
      var s, pc := sidecars[e.i], st.pcs[e.i];
      match e
      case Boot(i) =>
        if pc.Down? || pc.Returned? then st.(pcs := st.pcs[i := Starting]) else st
      case Create(i, metageneration, replied) =>
        // an existing bucket answers with a conflict, which is no error
        if pc.Starting? then
          st.(bucket := if st.bucket.None? then Some(Bucket([OwnRule(s)], metageneration)) else st.bucket,
              pcs := st.pcs[i := if replied then Ensured else Returned(false)])
        else st
      case ReadAttrs(i) =>
        if pc.Ensured? && st.bucket.Some? then
          st.(pcs := st.pcs[i := HasAttrs(st.bucket.value.rules, st.bucket.value.metageneration)])
        else st
      case Update(i, replied) =>
        if pc.HasAttrs? && st.bucket.Some? then
          if pc.metageneration == st.bucket.value.metageneration then
            State(Some(Bucket(Merge(pc.rules, s), pc.metageneration + 1)),
                  st.pcs[i := Returned(replied)], st.settled + {i})
          else st.(pcs := st.pcs[i := Returned(false)])
        else st
      case Fail(i) => st.(pcs := st.pcs[i := Down])
  }

  function Run(sidecars: seq<Sidecar>, st: State, events: seq<Event>): (r: State)
    requires |st.pcs| == |sidecars|
    ensures |r.pcs| == |sidecars|
    decreases |events|
  {
    if events == [] then st
    else Apply(sidecars, Run(sidecars, st, events[..|events| - 1]), events[|events| - 1])
  }

  ghost predicate DistinctPrefixes(sidecars: seq<Sidecar>) {
    forall i, j :: 0 <= i < j < |sidecars| ==> sidecars[i].prefix != sidecars[j].prefix
  }

  /** At most one rule for each sidecar. */
  ghost predicate Separate(sidecars: seq<Sidecar>, rules: seq<Rule>) {
    forall s :: s in sidecars ==> Count(rules, s.prefix) <= 1
  }

  /** Exactly one rule names the sidecar's prefix, and it is the sidecar's own. */
  ghost predicate HasOwnRule(rules: seq<Rule>, s: Sidecar) {
    Count(rules, s.prefix) == 1 && OwnRule(s) in rules
  }

  ghost predicate Inv(sidecars: seq<Sidecar>, foreign: seq<Rule>, st: State) {
    && |st.pcs| == |sidecars|
    && (forall i :: i in st.settled ==> i < |sidecars|)
    && (st.bucket.None? ==> st.settled == {} && forall i :: 0 <= i < |st.pcs| ==> !st.pcs[i].HasAttrs?)
    && (st.bucket.Some? ==>
          var b := st.bucket.value;
          && Separate(sidecars, b.rules) && Foreign(b.rules, sidecars) == foreign
          && (forall i :: i in st.settled ==> HasOwnRule(b.rules, sidecars[i]))
          && (forall i :: 0 <= i < |st.pcs| && st.pcs[i].HasAttrs? ==>
                && st.pcs[i].metageneration <= b.metageneration
                && (st.pcs[i].metageneration == b.metageneration ==> st.pcs[i].rules == b.rules)))
  }

  /** Another sidecar's rule is not the one that is replaced: it names no other prefix. */
  lemma MergeKeepsOwn(rules: seq<Rule>, s: Sidecar, t: Sidecar)
    requires t.prefix != s.prefix && HasOwnRule(rules, t)
    ensures HasOwnRule(Merge(rules, s), t)
  {
    var i, m := IndexOf(rules, s.prefix), Merge(rules, s);
    var k :| 0 <= k < |rules| && rules[k] == OwnRule(t);
    assert Names(rules[k], t.prefix) && !Names(OwnRule(t), s.prefix);
    assert m[k] == rules[k];
    if i < |rules| && Names(rules[i], t.prefix) {
      TwoCount(rules, i, k, t.prefix);
    }
    MergeOther(rules, s, t.prefix);
  }

  lemma MergeSeparate(sidecars: seq<Sidecar>, rules: seq<Rule>, s: Sidecar)
    requires Separate(sidecars, rules) && s in sidecars
    ensures Separate(sidecars, Merge(rules, s)) && HasOwnRule(Merge(rules, s), s)
    ensures forall t :: t in sidecars && t.prefix != s.prefix && HasOwnRule(rules, t) ==> HasOwnRule(Merge(rules, s), t)
  {
    MergeOwn(rules, s);
    forall t | t in sidecars ensures Count(Merge(rules, s), t.prefix) <= 1 {
      if t.prefix != s.prefix {
        MergeOther(rules, s, t.prefix);
      }
    }
    forall t | t in sidecars && t.prefix != s.prefix && HasOwnRule(rules, t) ensures HasOwnRule(Merge(rules, s), t) {
      MergeKeepsOwn(rules, s, t);
    }
  }

  lemma StepKeeps(sidecars: seq<Sidecar>, foreign: seq<Rule>, st: State, e: Event)
    requires DistinctPrefixes(sidecars) && Inv(sidecars, foreign, st)
    requires st.bucket.None? ==> foreign == []
    ensures Inv(sidecars, foreign, Apply(sidecars, st, e))
    ensures st.settled <= Apply(sidecars, st, e).settled
    ensures st.bucket.Some? ==> Apply(sidecars, st, e).bucket.Some?
  {
    if e.i < |sidecars| {
      var s := sidecars[e.i];
      assert s in sidecars;
      match e
      case Create(i, _, _) =>
        if st.bucket.None? {
          FirstRule(sidecars, s);
        }
      case Update(i, _) =>
        UpdateKeeps(sidecars, foreign, st, e);
      case _ =>
    }
  }

  lemma FirstRule(sidecars: seq<Sidecar>, s: Sidecar)
    requires DistinctPrefixes(sidecars) && s in sidecars
    ensures Separate(sidecars, [OwnRule(s)]) && Foreign([OwnRule(s)], sidecars) == []
  {
    assert Merge([], s) == [OwnRule(s)];
    MergeSeparate(sidecars, [], s);
    MergeForeign([], sidecars, s);
  }

  lemma UpdateKeeps(sidecars: seq<Sidecar>, foreign: seq<Rule>, st: State, e: Event)
    requires DistinctPrefixes(sidecars) && Inv(sidecars, foreign, st) && e.Update? && e.i < |sidecars|
    ensures Inv(sidecars, foreign, Apply(sidecars, st, e))
  {
    var s, pc := sidecars[e.i], st.pcs[e.i];
    if pc.HasAttrs? && pc.metageneration == st.bucket.value.metageneration {
      MergeSeparate(sidecars, pc.rules, s);
      MergeForeign(pc.rules, sidecars, s);
      forall i | i in st.settled && i != e.i ensures HasOwnRule(Merge(pc.rules, s), sidecars[i]) {
        assert sidecars[i] in sidecars && sidecars[i].prefix != s.prefix;
      }
    }
  }

  lemma {:induction false} RunKeeps(sidecars: seq<Sidecar>, bucket: Option<Bucket>, st: State, events: seq<Event>)
    requires DistinctPrefixes(sidecars)
    requires st == State(bucket, seq(|sidecars|, i => Down), {})
    requires bucket.Some? ==> Separate(sidecars, bucket.value.rules)
    ensures var foreign := if bucket.Some? then Foreign(bucket.value.rules, sidecars) else [];
            Inv(sidecars, foreign, Run(sidecars, st, events))
    ensures bucket.Some? ==> Run(sidecars, st, events).bucket.Some?
    decreases |events|
  {
    if events != [] {
      RunKeeps(sidecars, bucket, st, events[..|events| - 1]);
      var foreign := if bucket.Some? then Foreign(bucket.value.rules, sidecars) else [];
      StepKeeps(sidecars, foreign, Run(sidecars, st, events[..|events| - 1]), events[|events| - 1]);
    }
  }

  lemma {:induction false} SettledStays(sidecars: seq<Sidecar>, bucket: Option<Bucket>, st: State,
                                        before: seq<Event>, after: seq<Event>)
    requires DistinctPrefixes(sidecars)
    requires st == State(bucket, seq(|sidecars|, i => Down), {})
    requires bucket.Some? ==> Separate(sidecars, bucket.value.rules)
    ensures Run(sidecars, st, before).settled <= Run(sidecars, st, before + after).settled
    decreases |after|
  {
    if after == [] {
      assert before + after == before;
    } else {
      var init := before + after[..|after| - 1];
      assert (before + after)[..|before + after| - 1] == init;
      SettledStays(sidecars, bucket, st, before, after[..|after| - 1]);
      RunKeeps(sidecars, bucket, st, init);
      var foreign := if bucket.Some? then Foreign(bucket.value.rules, sidecars) else [];
      StepKeeps(sidecars, foreign, Run(sidecars, st, init), after[|after| - 1]);
    }
  }

  /** No lost update: under every interleaving of any number of sidecars with pairwise distinct
      prefixes, with crashes and lost replies, once a sidecar's update has been applied every later
      bucket has exactly one rule naming its prefix, which is its own; and rules of nobody's
      prefix are still there, in order. */
  lemma NoLostUpdate(sidecars: seq<Sidecar>, bucket: Option<Bucket>, before: seq<Event>, after: seq<Event>, i: nat)
    requires DistinctPrefixes(sidecars)
    requires bucket.Some? ==> Separate(sidecars, bucket.value.rules)
    requires i in Run(sidecars, State(bucket, seq(|sidecars|, k => Down), {}), before).settled
    ensures var st := Run(sidecars, State(bucket, seq(|sidecars|, k => Down), {}), before + after);
            && i < |sidecars| && st.bucket.Some?
            && HasOwnRule(st.bucket.value.rules, sidecars[i])
            && Foreign(st.bucket.value.rules, sidecars)
               == if bucket.Some? then Foreign(bucket.value.rules, sidecars) else []
  {
    var st := State(bucket, seq(|sidecars|, k => Down), {});
    SettledStays(sidecars, bucket, st, before, after);
    RunKeeps(sidecars, bucket, st, before + after);
  }

  /** Progress: whatever has happened before, a sidecar that is down or has returned and whose next requests are
      undisturbed has its update applied, to the bucket as it is at that moment. */
  lemma UndisturbedSettles(sidecars: seq<Sidecar>, st: State, i: nat, metageneration: nat)
    requires |st.pcs| == |sidecars| && i < |sidecars| && (st.pcs[i].Down? || st.pcs[i].Returned?)
    ensures var s := sidecars[i];
            var b := if st.bucket.None? then Bucket([OwnRule(s)], metageneration) else st.bucket.value;
            var e := Undisturbed(sidecars, st, i, metageneration);
            && e.pcs[i] == Returned(true) && i in e.settled
            && e.bucket == Some(Bucket(Merge(b.rules, s), b.metageneration + 1))
  {
    var s1 := Apply(sidecars, st, Boot(i));
    var s2 := Apply(sidecars, s1, Create(i, metageneration, true));
    var s3 := Apply(sidecars, s2, ReadAttrs(i));
    assert s1.pcs[i] == Starting && s2.pcs[i] == Ensured;
    assert s3.pcs[i] == HasAttrs(s2.bucket.value.rules, s2.bucket.value.metageneration);
  }

  function Undisturbed(sidecars: seq<Sidecar>, st: State, i: nat, metageneration: nat): (r: State)
    requires |st.pcs| == |sidecars|
    ensures |r.pcs| == |sidecars|
  {
    var s1 := Apply(sidecars, st, Boot(i));
    var s2 := Apply(sidecars, s1, Create(i, metageneration, true));
    Apply(sidecars, Apply(sidecars, s2, ReadAttrs(i)), Update(i, true))
  }

  /** An update of rules that are no longer the bucket's is an error, and changes nothing; the sidecar can boot again. */
  lemma StaleUpdateFails(sidecars: seq<Sidecar>, st: State, i: nat, replied: bool)
    requires |st.pcs| == |sidecars| && i < |sidecars| && st.pcs[i].HasAttrs? && st.bucket.Some?
    requires st.pcs[i].metageneration != st.bucket.value.metageneration
    ensures var t := Apply(sidecars, st, Update(i, replied));
            && t == st.(pcs := st.pcs[i := Returned(false)]) && Apply(sidecars, t, Boot(i)).pcs[i].Starting?
  {
  }

  /** A sidecar that fails can boot again, and the bucket and what has been applied stay. */
  lemma FailedBootsAgain(sidecars: seq<Sidecar>, st: State, i: nat)
    requires |st.pcs| == |sidecars| && i < |sidecars|
    ensures var f := Apply(sidecars, st, Fail(i));
            f.pcs[i].Down? && f.bucket == st.bucket && f.settled == st.settled
  {
  }

  /** In a bucket that the sidecars have made themselves, there are only their rules. */
  ghost predicate OnlyOwn(sidecars: seq<Sidecar>, rules: seq<Rule>) {
    forall r :: r in rules ==> exists s :: s in sidecars && r == OwnRule(s)
  }

  ghost predicate OwnInv(sidecars: seq<Sidecar>, st: State) {
    && (st.bucket.Some? ==> OnlyOwn(sidecars, st.bucket.value.rules))
    && forall i :: 0 <= i < |st.pcs| && st.pcs[i].HasAttrs? ==> OnlyOwn(sidecars, st.pcs[i].rules)
  }

  lemma MergeOnlyOwn(sidecars: seq<Sidecar>, rules: seq<Rule>, s: Sidecar)
    requires OnlyOwn(sidecars, rules) && s in sidecars
    ensures OnlyOwn(sidecars, Merge(rules, s))
  {
    var m := Merge(rules, s);
    forall r | r in m ensures exists t :: t in sidecars && r == OwnRule(t) {
      if r != OwnRule(s) {
        assert r in rules;
      }
    }
  }

  lemma {:induction false} RunOnlyOwn(sidecars: seq<Sidecar>, events: seq<Event>)
    ensures OwnInv(sidecars, Run(sidecars, State(None, seq(|sidecars|, k => Down), {}), events))
  {
    if events != [] {
      var init, e := events[..|events| - 1], events[|events| - 1];
      RunOnlyOwn(sidecars, init);
      var st := Run(sidecars, State(None, seq(|sidecars|, k => Down), {}), init);
      if e.i < |sidecars| {
        assert sidecars[e.i] in sidecars;
        if e.Update? && st.pcs[e.i].HasAttrs? {
          MergeOnlyOwn(sidecars, st.pcs[e.i].rules, sidecars[e.i]);
        }
      }
    }
  }

  /** No sidecar's prefix begins with that of another one. */
  ghost predicate Incomparable(sidecars: seq<Sidecar>) {
    && (forall s :: s in sidecars ==> s.prefix != "" && '/' !in s.prefix)
    && forall i, j :: 0 <= i < |sidecars| && 0 <= j < |sidecars| && sidecars[i].prefix <= sidecars[j].prefix ==> i == j
  }

  /** Under every interleaving in a bucket of their own, once a sidecar's update has been applied exactly that of
      its object is deletable which it no longer keeps. */
  lemma SharedBucket(sidecars: seq<Sidecar>, events: seq<Event>, i: nat, base: string, v: Version)
    requires Incomparable(sidecars) && IsBase(base)
    requires i in Run(sidecars, State(None, seq(|sidecars|, k => Down), {}), events).settled
    ensures i < |sidecars|
    ensures v.name == ObjectName(sidecars[i].prefix, base) ==>
              var st := Run(sidecars, State(None, seq(|sidecars|, k => Down), {}), events);
              && st.bucket.Some?
              && (Deletable(st.bucket.value.rules, v) <==> v.newer >= sidecars[i].objectsToKeep)
  {
    var st := Run(sidecars, State(None, seq(|sidecars|, k => Down), {}), events);
    NoLostUpdate(sidecars, None, events, [], i);
    assert events + [] == events;
    RunOnlyOwn(sidecars, events);
    if v.name == ObjectName(sidecars[i].prefix, base) {
      assert sidecars[i] in sidecars;
      RuleTouches(sidecars[i], sidecars[i], base, v);
      forall r | r in st.bucket.value.rules && Deletes(r, v) ensures v.newer >= sidecars[i].objectsToKeep {
        var s :| s in sidecars && r == OwnRule(s);
        RuleTouches(s, sidecars[i], base, v);
      }
    }
  }

  /** The bucket as one sidecar sees it: others may update it between any two requests. */
  class RemoteBucket {
    /** No request fails, and nobody else updates the bucket. */
    const faultless: bool
    const alone: bool
    var bucket: Option<Bucket>

    /** Any updates by others: every one raises the metageneration, and a bucket is not deleted. */
    ghost predicate Later(before: Option<Bucket>, after: Option<Bucket>) {
      before.Some? ==> after.Some? && before.value.metageneration <= after.value.metageneration
                       && (before.value.metageneration == after.value.metageneration ==> before == after)
    }

    method Others()
      modifies this
      ensures Later(old(bucket), bucket) && (alone ==> bucket == old(bucket))
    {
      ghost var before := bucket;
      var next: Option<Bucket> := *;
      if !alone && next.Some? && (bucket.None? || next.value.metageneration > bucket.value.metageneration) {
        bucket := next;
      }
    }

    /** slices.IndexFunc over the rules with slices.ContainsFunc over their prefixes, then replace or append. */
    method MergeRule(rules: seq<Rule>, s: Sidecar) returns (r: seq<Rule>)
      ensures r == Merge(rules, s)
    {
      var idx := 0;
      while idx < |rules|
        invariant idx <= |rules| && forall j :: 0 <= j < idx ==> !Names(rules[j], s.prefix)
      {
        var found := false;
        var k := 0;
        while k < |rules[idx].matchesPrefix| && !found
          invariant k <= |rules[idx].matchesPrefix|
          invariant found <==> exists p :: 0 <= p < k && rules[idx].matchesPrefix[p] == s.prefix
        {
          found := rules[idx].matchesPrefix[k] == s.prefix;
          k := k + 1;
        }
        if found {
          break;
        }
        idx := idx + 1;
      }
      r := rules;
      if idx < |r| {
        r := r[idx := OwnRule(s)];
      } else {
        r := r + [OwnRule(s)];
      }
    }

    /** EnsureBackupBucket: when it succeeds, the bucket has just changed from some state the others left behind to
        that very state merged with the own rule: nothing they wrote is lost. It succeeds when no request
        fails and nobody else updates the bucket. */
    method EnsureBackupBucket(s: Sidecar) returns (ok: bool, ghost before: Bucket)
      modifies this
      ensures ok ==> Later(old(bucket), Some(before))
                     && bucket == Some(Bucket(Merge(before.rules, s), before.metageneration + 1))
      ensures faultless && alone ==> ok
      ensures faultless && alone && old(bucket).Some? ==> before == old(bucket).value
      ensures faultless && alone && old(bucket).None? ==> before.rules == [OwnRule(s)]
    {
      before := Bucket([], 0);
      Others();
      if bucket.None? {
        var metageneration: nat :| true;
        bucket := Some(Bucket([OwnRule(s)], metageneration));
      }
      ok := *;
      ok := ok || faultless;
      if !ok {
        return;
      }
      Others();
      ok := *;
      ok := ok || faultless;
      if !ok {
        return;
      }
      var attrs := bucket.value;
      Others();
      var rules := MergeRule(attrs.rules, s);
      before := bucket.value;
      if attrs.metageneration != bucket.value.metageneration {
        ok := false;
        return;
      }
      bucket := Some(Bucket(rules, attrs.metageneration + 1));
      ok := *;
      ok := ok || faultless;
    }
  }
}
