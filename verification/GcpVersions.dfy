/** Listing object generations (cmd/internal/backup/providers/gcp/versions.go). */
module GcpVersions {
  import opened Decimal
  import opened Versions

  datatype ObjectAttrs = ObjectAttrs(name: string, generation: int, updated: int)

  function VersionOf(a: ObjectAttrs): BackupVersion {
    BackupVersion(a.name, Format(a.generation), a.updated)
  }

  /** The first entry of each generation, in order. */
  function FirstOfEach(attrs: seq<ObjectAttrs>): seq<ObjectAttrs> {
    if attrs == [] then []
    else
      var init, last := attrs[..|attrs| - 1], attrs[|attrs| - 1];
      if last.generation in Generations(init) then FirstOfEach(init) else FirstOfEach(init) + [last]
  }

  function Generations(attrs: seq<ObjectAttrs>): set<int> {
    set a | a in attrs :: a.generation
  }

  /** Every generation occurs exactly once, with an entry of the original list. */
  lemma {:induction false} FirstOfEachOnce(attrs: seq<ObjectAttrs>)
    ensures var f := FirstOfEach(attrs);
            && (forall i, j :: 0 <= i < j < |f| ==> f[i].generation != f[j].generation)
            && (forall a :: a in f ==> a in attrs)
            && Generations(f) == Generations(attrs)
  {
    if attrs != [] {
      var init, last := attrs[..|attrs| - 1], attrs[|attrs| - 1];
      FirstOfEachOnce(init);
      assert attrs == init + [last];
      assert Generations(attrs) == Generations(init) + {last.generation};
      var f := FirstOfEach(init);
      assert Generations(f + [last]) == Generations(f) + {last.generation};
      forall i | 0 <= i < |f| ensures f[i].generation in Generations(init) {
        assert f[i] in f;
      }
    }
  }

  function AllVersions(attrs: seq<ObjectAttrs>): (r: seq<BackupVersion>)
    ensures |r| == |attrs|
  {
    seq(|attrs|, i requires 0 <= i < |attrs| => VersionOf(attrs[i]))
  }

  /** List: a date-descending permutation of one version for each generation. */
  method List(attrs: seq<ObjectAttrs>) returns (result: array<BackupVersion>)
    ensures fresh(result) && Descending(result[..])
    ensures multiset(result[..]) == multiset(AllVersions(FirstOfEach(attrs)))
  {
    var seen: map<int, bool> := map[];
    var found: seq<BackupVersion> := [];
    for i := 0 to |attrs|
      invariant seen.Keys == Generations(attrs[..i])
      invariant found == AllVersions(FirstOfEach(attrs[..i]))
    {
      NextOfEach(attrs, i);
      if attrs[i].generation !in seen {
        seen := seen[attrs[i].generation := true];
        found := found + [VersionOf(attrs[i])];
      }
    }
    assert attrs[..|attrs|] == attrs;
    result := new BackupVersion[|found|](i requires 0 <= i < |found| => found[i]);
    assert result[..] == found;
    Sort(result);
  }

  /** What one more object adds. */
  lemma NextOfEach(attrs: seq<ObjectAttrs>, i: nat)
    requires i < |attrs|
    ensures Generations(attrs[..i + 1]) == Generations(attrs[..i]) + {attrs[i].generation}
    ensures AllVersions(FirstOfEach(attrs[..i + 1]))
            == AllVersions(FirstOfEach(attrs[..i]))
               + if attrs[i].generation in Generations(attrs[..i]) then [] else [VersionOf(attrs[i])]
  {
    var init, last := attrs[..i], attrs[i];
    assert attrs[..i + 1] == init + [last];
    assert (init + [last])[..i] == init;
    if last.generation !in Generations(init) {
      assert FirstOfEach(init + [last]) == FirstOfEach(init) + [last];
    }
  }

  lemma Permuted(a: seq<BackupVersion>, r: seq<BackupVersion>, v: BackupVersion)
    requires multiset(r) == multiset(a)
    ensures v in r <==> v in a
  {
    assert v in r <==> v in multiset(r);
  }

  /** Of any listing: the versions are distinct, so that Get finds each listed entry. */
  lemma ListedDistinct(attrs: seq<ObjectAttrs>, r: seq<BackupVersion>)
    requires multiset(r) == multiset(AllVersions(FirstOfEach(attrs)))
    ensures DistinctVersions(r)
  {
    var f := FirstOfEach(attrs);
    FirstOfEachOnce(attrs);
    forall i, j | 0 <= i < j < |f| ensures AllVersions(f)[i].version != AllVersions(f)[j].version {
      FormatInjective(f[i].generation, f[j].generation);
    }
    PermutedDistinct(AllVersions(f), r);
  }

  /** The version of a listed entry parses back to the generation of an object of that name and date. */
  lemma ListedParses(attrs: seq<ObjectAttrs>, r: seq<BackupVersion>, v: BackupVersion)
    requires multiset(r) == multiset(AllVersions(FirstOfEach(attrs))) && v in r
    requires forall a :: a in attrs ==> IsInt64(a.generation)
    ensures Parse(v.version).Some? && ObjectAttrs(v.name, Parse(v.version).value, v.date) in attrs
  {
    var f := FirstOfEach(attrs);
    FirstOfEachOnce(attrs);
    Permuted(AllVersions(f), r, v);
    var i :| 0 <= i < |f| && AllVersions(f)[i] == v;
    assert f[i] in f;
    ParseFormat(f[i].generation);
  }

  /** Every generation of the bucket is listed. */
  lemma AllListed(attrs: seq<ObjectAttrs>, r: seq<BackupVersion>, a: ObjectAttrs)
    requires multiset(r) == multiset(AllVersions(FirstOfEach(attrs))) && a in attrs
    ensures exists v :: v in r && v.version == Format(a.generation)
  {
    var f := FirstOfEach(attrs);
    FirstOfEachOnce(attrs);
    assert a.generation in Generations(f);
    var i :| 0 <= i < |f| && f[i].generation == a.generation;
    assert AllVersions(f)[i] in AllVersions(f);
    Permuted(AllVersions(f), r, AllVersions(f)[i]);
  }

  lemma {:induction false} PermutedDistinct(a: seq<BackupVersion>, r: seq<BackupVersion>)
    requires multiset(r) == multiset(a) && DistinctVersions(a)
    ensures DistinctVersions(r)
  {
    forall i, j | 0 <= i < j < |r| ensures r[i].version != r[j].version {
      if r[i].version == r[j].version {
        assert r[i] in multiset(r) && r[j] in multiset(r);
        var x, y := r[i], r[j];
        assert x in a && y in a;
        assert x == y;
        TwiceIn(r, i, j);
        OnceIn(a, x);
      }
    }
  }

  lemma TwiceIn(s: seq<BackupVersion>, i: nat, j: nat)
    requires i < j < |s| && s[i] == s[j]
    ensures multiset(s)[s[i]] >= 2
  {
    assert s == s[..i] + [s[i]] + s[i + 1..j] + [s[j]] + s[j + 1..];
  }

  lemma OnceIn(s: seq<BackupVersion>, x: BackupVersion)
    requires DistinctVersions(s)
    ensures multiset(s)[x] <= 1
  {
    assert forall i, j :: 0 <= i < j < |s| ==> s[i] != s[j];
    CountOnce(s, x);
  }
}
