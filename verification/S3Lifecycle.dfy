/** The lifecycle rule merge in a shared bucket
    (EnsureBackupBucket of cmd/internal/backup/providers/s3/s3.go). There is no conditional
    write, so the runs below come one after the other. */
module S3Lifecycle {
  import opened Decimal
  import opened BucketObjects

  datatype Rule = Rule(id: Option<string>, prefix: string, newerVersions: int, days: Option<int>, enabled: bool)
  datatype Sidecar = Sidecar(objectPrefix: string, objectsToKeep: int, daysToKeep: Option<int>)

  const RULE_SUFFIX := "-backup-restore-lifecycle"

  function RuleId(s: Sidecar): string {
    s.objectPrefix + RULE_SUFFIX
  }

  function OwnRule(s: Sidecar): Rule {
    Rule(Some(RuleId(s)), s.objectPrefix + "/", s.objectsToKeep, s.daysToKeep, true)
  }

  /** Rules that have an ID and none of the given ones, in order. A rule without ID is not carried over. */
  function Others(rules: seq<Rule>, ids: set<string>): seq<Rule> {
    if rules == [] then []
    else
      var last := rules[|rules| - 1];
      Others(rules[..|rules| - 1], ids) + if last.id.Some? && last.id.value !in ids then [last] else []
  }

  function Merge(s: Sidecar, rules: seq<Rule>): seq<Rule> {
    [OwnRule(s)] + Others(rules, {RuleId(s)})
  }

  /** A noncurrent version of an object: how many newer ones there are, and for how many days it has been noncurrent. */
  datatype Version = Version(name: string, newer: nat, days: nat)

  /** What a rule allows the bucket to delete. */
  predicate Expires(r: Rule, v: Version) {
    r.enabled && r.prefix <= v.name && v.newer >= r.newerVersions && (r.days.Some? ==> v.days >= r.days.value)
  }

  predicate Deletable(rules: seq<Rule>, v: Version) {
    exists r :: r in rules && Expires(r, v)
  }

  /** A version that a sidecar's configuration no longer keeps. */
  predicate Outlived(s: Sidecar, v: Version) {
    v.newer >= s.objectsToKeep && (s.daysToKeep.Some? ==> v.days >= s.daysToKeep.value)
  }

  /** The own rule allows deleting exactly what the configuration no longer keeps, of names in the own directory. */
  lemma OwnRuleExpires(s: Sidecar, v: Version)
    ensures Expires(OwnRule(s), v) <==> s.objectPrefix + "/" <= v.name && Outlived(s, v)
  {
  }

  /** Of the object of a sidecar: exactly when that one's directory lies in the own one. */
  lemma RuleTouches(s: Sidecar, t: Sidecar, base: string, v: Version)
    requires IsBase(base) && v.name == ObjectName(t.objectPrefix, base)
    ensures Expires(OwnRule(s), v) <==>
              t.objectPrefix != "" && s.objectPrefix + "/" <= t.objectPrefix + "/" && Outlived(s, v)
  {
    OwnRuleExpires(s, v);
    DirectoryCovers(s.objectPrefix, t.objectPrefix, base);
  }

  /** Without an object prefix the own rule touches nothing of its own. */
  lemma EmptyPrefixKeepsAll(s: Sidecar, base: string, v: Version)
    requires s.objectPrefix == "" && IsBase(base) && v.name == ObjectName("", base)
    ensures !Expires(OwnRule(s), v)
  {
    RuleTouches(s, s, base, v);
  }

  /** After a merge: what the own rule no longer keeps, and what the other rules allow. */
  lemma MergeDeletes(s: Sidecar, rules: seq<Rule>, v: Version)
    ensures Deletable(Merge(s, rules), v) <==>
              || (s.objectPrefix + "/" <= v.name && Outlived(s, v))
              || Deletable(Others(rules, {RuleId(s)}), v)
  {
    OwnRuleExpires(s, v);
    var m := Merge(s, rules);
    assert m[0] == OwnRule(s) && m[1..] == Others(rules, {RuleId(s)});
    if Deletable(Others(rules, {RuleId(s)}), v) {
      var r :| r in Others(rules, {RuleId(s)}) && Expires(r, v);
      assert r in m;
    }
  }

  lemma RuleIdInjective(s: Sidecar, t: Sidecar)
    ensures RuleId(s) == RuleId(t) <==> s.objectPrefix == t.objectPrefix
  {
    if RuleId(s) == RuleId(t) {
      assert RuleId(s)[..|RuleId(s)| - |RULE_SUFFIX|] == s.objectPrefix;
      assert RuleId(t)[..|RuleId(t)| - |RULE_SUFFIX|] == t.objectPrefix;
    }
  }

  lemma {:induction false} OthersConcat(a: seq<Rule>, b: seq<Rule>, ids: set<string>)
    ensures Others(a + b, ids) == Others(a, ids) + Others(b, ids)
  {
    if b == [] {
      assert a + b == a;
    } else {
      assert (a + b)[..|a + b| - 1] == a + b[..|b| - 1];
      OthersConcat(a, b[..|b| - 1], ids);
    }
  }

  lemma {:induction false} OthersTwice(rules: seq<Rule>, ids: set<string>, more: set<string>)
    ensures Others(Others(rules, ids), more) == Others(rules, ids + more)
  {
    if rules != [] {
      var init, last := rules[..|rules| - 1], rules[|rules| - 1];
      OthersTwice(init, ids, more);
      OthersConcat(Others(init, ids), if last.id.Some? && last.id.value !in ids then [last] else [], more);
    }
  }

  /** One run of one sidecar. read tells whether the existing configuration came back: the code also
      goes on when the request returned an error and no output. */
  datatype Ensure = Ensure(s: Sidecar, read: bool)

  function After(rules: seq<Rule>, runs: seq<Ensure>): seq<Rule> {
    if runs == [] then rules
    else
      var last := runs[|runs| - 1];
      Merge(last.s, if last.read then After(rules, runs[..|runs| - 1]) else [])
  }

  /** The sidecars of the runs, the most recent one first, each once with its last configuration. */
  function MostRecent(runs: seq<Ensure>): seq<Sidecar> {
    if runs == [] then []
    else [runs[|runs| - 1].s] + Except(MostRecent(runs[..|runs| - 1]), runs[|runs| - 1].s.objectPrefix)
  }

  function Except(sidecars: seq<Sidecar>, prefix: string): seq<Sidecar> {
    if sidecars == [] then []
    else
      var last := sidecars[|sidecars| - 1];
      Except(sidecars[..|sidecars| - 1], prefix) + if last.objectPrefix != prefix then [last] else []
  }

  function OwnRules(sidecars: seq<Sidecar>): (r: seq<Rule>)
    ensures |r| == |sidecars|
  {
    seq(|sidecars|, i requires 0 <= i < |sidecars| => OwnRule(sidecars[i]))
  }

  function Ids(runs: seq<Ensure>): set<string> {
    set e | e in runs :: RuleId(e.s)
  }

  lemma {:induction false} OthersOfOwn(sidecars: seq<Sidecar>, s: Sidecar)
    ensures Others(OwnRules(sidecars), {RuleId(s)}) == OwnRules(Except(sidecars, s.objectPrefix))
  {
    if sidecars != [] {
      var init, last := sidecars[..|sidecars| - 1], sidecars[|sidecars| - 1];
      assert OwnRules(sidecars)[..|init|] == OwnRules(init);
      OthersOfOwn(init, s);
      RuleIdInjective(last, s);
    }
  }

  lemma {:induction false} ExceptIn(sidecars: seq<Sidecar>, prefix: string, t: Sidecar)
    ensures t in Except(sidecars, prefix) <==> t in sidecars && t.objectPrefix != prefix
  {
    if sidecars != [] {
      var init, last := sidecars[..|sidecars| - 1], sidecars[|sidecars| - 1];
      assert sidecars == init + [last];
      ExceptIn(init, prefix, t);
    }
  }

  /** One more run moves its sidecar to the front. */
  lemma MergeFront(s: Sidecar, sidecars: seq<Sidecar>, rest: seq<Rule>)
    ensures Merge(s, OwnRules(sidecars) + rest)
            == OwnRules([s] + Except(sidecars, s.objectPrefix)) + Others(rest, {RuleId(s)})
  {
    OthersConcat(OwnRules(sidecars), rest, {RuleId(s)});
    OthersOfOwn(sidecars, s);
    var e := Except(sidecars, s.objectPrefix);
    OwnRulesFront(s, e);
  }

  lemma OwnRulesFront(s: Sidecar, sidecars: seq<Sidecar>)
    ensures OwnRules([s] + sidecars) == [OwnRule(s)] + OwnRules(sidecars)
  {
  }

  /** The sidecars' rules, the most recently ensured first, and behind them, when the first run read
      the configuration, the initial rules with other IDs in their order. */
  function Expected(rules: seq<Rule>, runs: seq<Ensure>): seq<Rule>
    requires runs != []
  {
    OwnRules(MostRecent(runs)) + if runs[0].read then Others(rules, Ids(runs)) else []
  }

  /** What runs that read the configuration leave behind; whether the first one read it decides
      about the initial rules. */
  lemma {:induction false} AfterReadRuns(rules: seq<Rule>, runs: seq<Ensure>)
    requires runs != [] && forall j :: 1 <= j < |runs| ==> runs[j].read
    ensures After(rules, runs) == Expected(rules, runs)
    decreases |runs|
  {
    if |runs| == 1 {
      OneRun(rules, runs);
    } else {
      AfterReadRuns(rules, runs[..|runs| - 1]);
      OneMoreRun(rules, runs);
    }
  }

  lemma OneRun(rules: seq<Rule>, runs: seq<Ensure>)
    requires |runs| == 1
    ensures After(rules, runs) == Expected(rules, runs)
  {
    var s := runs[0].s;
    LastId(runs);
    assert runs[..0] == [] && Ids([]) == {};
    assert MostRecent(runs) == [s] + Except([], s.objectPrefix) == [s];
    OthersNone(rules, s);
  }

  lemma OneMoreRun(rules: seq<Rule>, runs: seq<Ensure>)
    requires |runs| > 1 && runs[|runs| - 1].read
    requires After(rules, runs[..|runs| - 1]) == Expected(rules, runs[..|runs| - 1])
    ensures After(rules, runs) == Expected(rules, runs)
  {
    var init, s := runs[..|runs| - 1], runs[|runs| - 1].s;
    LastId(runs);
    OthersTwice(rules, Ids(init), {RuleId(s)});
    MergeFront(s, MostRecent(init), if runs[0].read then Others(rules, Ids(init)) else []);
    assert MostRecent(runs) == [s] + Except(MostRecent(init), s.objectPrefix);
  }

  lemma LastId(runs: seq<Ensure>)
    requires runs != []
    ensures Ids(runs) == Ids(runs[..|runs| - 1]) + {RuleId(runs[|runs| - 1].s)}
  {
    assert runs == runs[..|runs| - 1] + [runs[|runs| - 1]];
  }

  lemma OthersNone(rules: seq<Rule>, s: Sidecar)
    ensures Merge(s, rules) == OwnRules([s]) + Others(rules, {RuleId(s)})
    ensures Merge(s, []) == OwnRules([s]) && OwnRules([s]) + [] == OwnRules([s])
    ensures [s] + Except([], s.objectPrefix) == [s]
    ensures {} + {RuleId(s)} == {RuleId(s)}
  {
  }

  /** A run that did not get the configuration makes everything before it irrelevant. */
  lemma {:induction false} UnreadForgets(rules: seq<Rule>, before: seq<Ensure>, runs: seq<Ensure>)
    requires runs != [] && !runs[0].read
    ensures After(rules, before + runs) == After([], runs)
    decreases |runs|
  {
    if |runs| == 1 {
      assert before + runs == before + [runs[0]];
      assert (before + runs)[|before + runs| - 1] == runs[0];
    } else {
      assert (before + runs)[..|before + runs| - 1] == before + runs[..|runs| - 1];
      UnreadForgets(rules, before, runs[..|runs| - 1]);
    }
  }

  /** How often an ID occurs. */
  function CountId(rules: seq<Rule>, id: string): nat {
    if rules == [] then 0
    else (if rules[|rules| - 1].id == Some(id) then 1 else 0) + CountId(rules[..|rules| - 1], id)
  }

  lemma {:induction false} OthersCount(rules: seq<Rule>, id: string, ids: set<string>)
    ensures CountId(Others(rules, ids), id) == if id in ids then 0 else CountId(rules, id)
  {
    if rules != [] {
      var init, last := rules[..|rules| - 1], rules[|rules| - 1];
      OthersCount(init, id, ids);
      if last.id.Some? && last.id.value !in ids {
        assert Others(rules, ids)[..|Others(rules, ids)| - 1] == Others(init, ids);
      } else {
        assert Others(rules, ids) == Others(init, ids);
      }
    }
  }

  lemma {:induction false} CountFirst(r: Rule, rules: seq<Rule>, id: string)
    ensures CountId([r] + rules, id) == (if r.id == Some(id) then 1 else 0) + CountId(rules, id)
  {
    if rules != [] {
      assert ([r] + rules)[..|rules|] == [r] + rules[..|rules| - 1];
      CountFirst(r, rules[..|rules| - 1], id);
    } else {
      assert [r] + rules == [r] && [r][..0] == [];
    }
  }

  /** The last run of a sidecar followed only by runs of others. */
  ghost predicate LastRun(runs: seq<Ensure>, k: nat, prefix: string) {
    k < |runs| && runs[k].s.objectPrefix == prefix
    && forall j :: k < j < |runs| ==> runs[j].s.objectPrefix != prefix
  }

  ghost predicate ReadAfter(runs: seq<Ensure>, k: nat) {
    forall j :: k < j < |runs| ==> runs[j].read
  }

  lemma MergeOwnOnce(s: Sidecar, rules: seq<Rule>)
    ensures CountId(Merge(s, rules), RuleId(s)) == 1 && OwnRule(s) in Merge(s, rules)
  {
    CountFirst(OwnRule(s), Others(rules, {RuleId(s)}), RuleId(s));
    OthersCount(rules, RuleId(s), {RuleId(s)});
    assert Merge(s, rules)[0] == OwnRule(s);
  }

  lemma MergeKeepsOther(s: Sidecar, rules: seq<Rule>, t: Sidecar)
    requires s.objectPrefix != t.objectPrefix
    ensures CountId(Merge(s, rules), RuleId(t)) == CountId(rules, RuleId(t))
    ensures OwnRule(t) in Merge(s, rules) <==> OwnRule(t) in rules
  {
    RuleIdInjective(s, t);
    CountFirst(OwnRule(s), Others(rules, {RuleId(s)}), RuleId(t));
    OthersCount(rules, RuleId(t), {RuleId(s)});
    OthersMember(rules, {RuleId(s)}, OwnRule(t));
  }

  /** A sidecar's rule ID occurs exactly once after its last run, with its own rule, if every later run of
      the others read the configuration; and not at all otherwise. */
  lemma {:induction false} OwnRuleSurvives(rules: seq<Rule>, runs: seq<Ensure>, k: nat, s: Sidecar)
    requires LastRun(runs, k, s.objectPrefix) && runs[k].s == s
    ensures CountId(After(rules, runs), RuleId(s)) == if ReadAfter(runs, k) then 1 else 0
    ensures OwnRule(s) in After(rules, runs) <==> ReadAfter(runs, k)
    decreases |runs|
  {
    var init, last := runs[..|runs| - 1], runs[|runs| - 1];
    var base := if last.read then After(rules, init) else [];
    if k == |runs| - 1 {
      MergeOwnOnce(s, base);
    } else {
      OwnRuleSurvives(rules, init, k, s);
      MergeKeepsOther(last.s, base, s);
      ReadAfterLast(runs, k);
    }
  }

  lemma ReadAfterLast(runs: seq<Ensure>, k: nat)
    requires k < |runs| - 1
    ensures ReadAfter(runs, k) <==> ReadAfter(runs[..|runs| - 1], k) && runs[|runs| - 1].read
  {
    var init := runs[..|runs| - 1];
    if ReadAfter(init, k) && runs[|runs| - 1].read {
      forall j | k < j < |runs| ensures runs[j].read {
        assert j < |init| ==> init[j].read;
      }
    }
    if ReadAfter(runs, k) {
      forall j | k < j < |init| ensures init[j].read {
        assert runs[j].read;
      }
    }
  }

  /** Every rule is an initial one or a sidecar's. */
  lemma {:induction false} RulesOf(rules: seq<Rule>, runs: seq<Ensure>, r: Rule)
    requires r in After(rules, runs)
    ensures r in rules || exists e :: e in runs && r == OwnRule(e.s)
  {
    if runs != [] {
      var init, last := runs[..|runs| - 1], runs[|runs| - 1];
      assert runs == init + [last];
      var base := if last.read then After(rules, init) else [];
      OthersMember(base, {RuleId(last.s)}, r);
      if r != OwnRule(last.s) {
        RulesOf(rules, init, r);
      }
    }
  }

  lemma {:induction false} CountTwo(rules: seq<Rule>, id: string, r: Rule)
    requires r in rules && r.id == Some(id)
    ensures CountId(rules, id) >= 1
    ensures forall q :: q in rules && q.id == Some(id) && q != r ==> CountId(rules, id) >= 2
  {
    var init, last := rules[..|rules| - 1], rules[|rules| - 1];
    assert rules == init + [last];
    if r in init {
      CountTwo(init, id, r);
    }
    forall q | q in rules && q.id == Some(id) && q != r ensures CountId(rules, id) >= 2 {
      if q in init && r == last {
        CountTwo(init, id, q);
      }
    }
  }

  /** Flat sidecars share a bucket: of the object of one of them exactly that is deletable which its last configuration
      no longer keeps, if every later run of the others read the rules; otherwise nothing is. */
  lemma SharedBucket(rules: seq<Rule>, runs: seq<Ensure>, k: nat, s: Sidecar, base: string, v: Version)
    requires LastRun(runs, k, s.objectPrefix) && runs[k].s == s && s.objectPrefix != ""
    requires IsBase(base) && v.name == ObjectName(s.objectPrefix, base)
    requires forall e :: e in runs ==> '/' !in e.s.objectPrefix
    requires forall r :: r in rules ==> !(r.prefix <= v.name)
    ensures Deletable(After(rules, runs), v) <==> ReadAfter(runs, k) && Outlived(s, v)
  {
    var now := After(rules, runs);
    OwnRuleSurvives(rules, runs, k, s);
    RuleTouches(s, s, base, v);
    assert runs[k] in runs;
    forall r | r in now && Expires(r, v) ensures r == OwnRule(s) {
      RulesOf(rules, runs, r);
      var e :| e in runs && r == OwnRule(e.s);
      RuleTouches(e.s, s, base, v);
      FlatDirectories(e.s.objectPrefix, s.objectPrefix);
      CountTwo(now, RuleId(s), r);
    }
  }

  /** No flat sidecar's rule touches the object of another one. */
  lemma FlatRulesApart(s: Sidecar, t: Sidecar, base: string, v: Version)
    requires '/' !in s.objectPrefix && '/' !in t.objectPrefix && s.objectPrefix != t.objectPrefix
    requires IsBase(base) && v.name == ObjectName(t.objectPrefix, base)
    ensures !Expires(OwnRule(s), v)
  {
    RuleTouches(s, t, base, v);
    FlatDirectories(s.objectPrefix, t.objectPrefix);
  }

  /** A run by b whose request for the configuration fails without output deletes a's rule. */
  lemma UnreadDeletes(rules: seq<Rule>, a: Sidecar, b: Sidecar)
    requires a.objectPrefix != b.objectPrefix
    ensures OwnRule(a) in After(rules, [Ensure(a, true)])
    ensures OwnRule(a) !in After(rules, [Ensure(a, true), Ensure(b, false)])
  {
    OwnRuleSurvives(rules, [Ensure(a, true)], 0, a);
    OwnRuleSurvives(rules, [Ensure(a, true), Ensure(b, false)], 0, a);
    assert ![Ensure(a, true), Ensure(b, false)][1].read;
  }

  lemma {:induction false} OthersMember(rules: seq<Rule>, ids: set<string>, r: Rule)
    ensures r in Others(rules, ids) <==> r in rules && r.id.Some? && r.id.value !in ids
  {
    if rules != [] {
      var init, last := rules[..|rules| - 1], rules[|rules| - 1];
      assert rules == init + [last];
      OthersMember(init, ids, r);
    }
  }

  /** Repeating a run that reads the configuration changes nothing. */
  lemma EnsureIdempotent(rules: seq<Rule>, s: Sidecar)
    ensures Merge(s, Merge(s, rules)) == Merge(s, rules)
  {
    OthersConcat([OwnRule(s)], Others(rules, {RuleId(s)}), {RuleId(s)});
    OthersTwice(rules, {RuleId(s)}, {RuleId(s)});
    assert Others([OwnRule(s)], {RuleId(s)}) == Others([], {RuleId(s)});
    assert {RuleId(s)} + {RuleId(s)} == {RuleId(s)};
  }

  /** The bucket's lifecycle configuration; None when it has none. */
  class RemoteBucket {
    /** No request fails. */
    const faultless: bool
    var lifecycle: Option<seq<Rule>>

    /** A run that returns without error leaves the own rule followed by the rules it read: the existing
        ones, or none when the request gave no output. A failing run changes nothing, except that
        its last request may have taken effect. When no request fails it succeeds and has read what there was. */
    method EnsureBackupBucket(s: Sidecar) returns (ok: bool, ghost read: bool)
      modifies this
      ensures faultless ==> ok && (read <==> old(lifecycle).Some?)
      ensures read ==> old(lifecycle).Some?
      ensures ok ==> lifecycle == Some(Merge(s, if read then old(lifecycle).value else []))
      ensures !ok ==> lifecycle == old(lifecycle)
                      || lifecycle == Some(Merge(s, if read then old(lifecycle).value else []))
    {
      read := false;
      // listing, creating and versioning the bucket
      var reached: bool := *;
      if !reached && !faultless {
        return false, read;
      }
      var rules := [OwnRule(s)];
      assert rules == [OwnRule(s)] + Others([], {RuleId(s)});
      var output, failed: bool := *, *;
      if (output || faultless) && lifecycle.Some? {
        if failed && !faultless {
          return false, read;
        }
        read := true;
        var existing := lifecycle.value;
        for i := 0 to |existing|
          invariant rules == [OwnRule(s)] + Others(existing[..i], {RuleId(s)})
        {
          assert existing[..i + 1][..i] == existing[..i];
          if existing[i].id.Some? && existing[i].id.value != RuleId(s) {
            rules := rules + [existing[i]];
          }
        }
        assert existing[..|existing|] == existing;
      }
      var applied: bool := *;
      ok := *;
      ok := ok || faultless;
      if applied || ok {
        lifecycle := Some(rules);
      }
    }
  }
}
