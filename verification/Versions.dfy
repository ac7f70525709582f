/** Backup versions: sorting, the latest one, lookup
    (cmd/internal/backup/providers/common/common.go). */
module Versions {
  import opened Decimal

  datatype BackupVersion = BackupVersion(name: string, version: string, date: int)

  /** Newest first; entries of equal date in any order. */
  ghost predicate Descending(s: seq<BackupVersion>) {
    forall i, j :: 0 <= i < j < |s| ==> s[i].date >= s[j].date
  }

  ghost predicate StrictlyDescending(s: seq<BackupVersion>) {
    forall i, j :: 0 <= i < j < |s| ==> s[i].date > s[j].date
  }

  function Insert(x: BackupVersion, s: seq<BackupVersion>): (r: seq<BackupVersion>)
    ensures multiset(r) == multiset(s) + multiset{x}
  {
    if s == [] || x.date >= s[0].date then [x] + s
    else
      assert s == [s[0]] + s[1..];
      [s[0]] + Insert(x, s[1..])
  }

  lemma InsertBelow(x: BackupVersion, s: seq<BackupVersion>, date: int)
    requires x.date <= date && forall v :: v in s ==> v.date <= date
    ensures forall v :: v in Insert(x, s) ==> v.date <= date
  {
    forall v | v in Insert(x, s) ensures v.date <= date {
      assert v in multiset(Insert(x, s));
    }
  }

  lemma {:induction false} InsertDescending(x: BackupVersion, s: seq<BackupVersion>)
    requires Descending(s)
    ensures Descending(Insert(x, s))
  {
    if s != [] && x.date < s[0].date {
      var r := Insert(x, s[1..]);
      InsertDescending(x, s[1..]);
      InsertBelow(x, s[1..], s[0].date);
    }
  }

  function Sorted(s: seq<BackupVersion>): (r: seq<BackupVersion>)
    ensures multiset(r) == multiset(s) && |r| == |s| && Descending(r)
  {
    if s == [] then []
    else
      assert s == [s[0]] + s[1..];
      InsertDescending(s[0], Sorted(s[1..]));
      var r := Insert(s[0], Sorted(s[1..]));
      assert |multiset(r)| == |r|;
      r
  }

  /** Sort, in place. Callers may rely on the order and on the contents only:
      sort.Slice keeps no order among equal dates. */
  method Sort(versions: array<BackupVersion>)
    modifies versions
    ensures Descending(versions[..])
    ensures multiset(versions[..]) == old(multiset(versions[..]))
  {
    var r := Sorted(versions[..]);
    forall i | 0 <= i < versions.Length {
      versions[i] := r[i];
    }
    assert versions[..] == r;
  }

  /** Latest: nothing on an empty list, else an entry no other entry is newer than. */
  method Latest(versions: array<BackupVersion>) returns (r: Option<BackupVersion>)
    modifies versions
    ensures multiset(versions[..]) == old(multiset(versions[..])) && Descending(versions[..])
    ensures r == if versions.Length == 0 then None else Some(versions[0])
    ensures r.Some? ==> r.value in old(versions[..])
                        && forall v :: v in old(versions[..]) ==> v.date <= r.value.date
  {
    Sort(versions);
    ghost var now := versions[..];
    ghost var was := old(versions[..]);
    if versions.Length == 0 {
      return None;
    }
    r := Some(versions[0]);
    assert now[0] in multiset(now);
    assert r.value in multiset(was);
    forall v | v in was ensures v.date <= r.value.date {
      assert v in multiset(was) && v in multiset(now);
      var k :| 0 <= k < |now| && now[k] == v;
    }
  }

  /** Get: the first entry of that version, or an error when there is none. */
  method Get(versions: seq<BackupVersion>, version: string) returns (r: Option<BackupVersion>)
    ensures r.None? ==> forall v :: v in versions ==> v.version != version
    ensures r.Some? ==> exists i :: 0 <= i < |versions| && r.value == versions[i] && versions[i].version == version
                                    && forall j :: 0 <= j < i ==> versions[j].version != version
  {
    for i := 0 to |versions|
      invariant forall j :: 0 <= j < i ==> versions[j].version != version
    {
      if version == versions[i].version {
        return Some(versions[i]);
      }
    }
    r := None;
  }

  ghost predicate DistinctVersions(s: seq<BackupVersion>) {
    forall i, j :: 0 <= i < j < |s| ==> s[i].version != s[j].version
  }

  /** Listing and lookup agree: with distinct versions, Get of a listed version is that entry. */
  method GetListed(versions: seq<BackupVersion>, i: nat) returns (r: Option<BackupVersion>)
    requires DistinctVersions(versions) && i < |versions|
    ensures r == Some(versions[i])
  {
    r := Get(versions, versions[i].version);
  }

  /** A descending order of entries with pairwise different dates is unique. */
  lemma {:induction false} OrderUnique(a: seq<BackupVersion>, b: seq<BackupVersion>)
    requires multiset(a) == multiset(b) && Descending(a) && StrictlyDescending(b)
    ensures a == b
  {
    assert |multiset(a)| == |a| && |multiset(b)| == |b|;
    if a != [] {
      SameFirst(a, b);
      TailEntries(a);
      TailEntries(b);
      OrderUnique(a[1..], b[1..]);
      assert a == [a[0]] + a[1..] && b == [b[0]] + b[1..];
    }
  }

  lemma TailEntries(s: seq<BackupVersion>)
    requires s != []
    ensures multiset(s[1..]) == multiset(s) - multiset{s[0]}
  {
    assert s == [s[0]] + s[1..];
  }

  lemma SameFirst(a: seq<BackupVersion>, b: seq<BackupVersion>)
    requires multiset(a) == multiset(b) && Descending(a) && StrictlyDescending(b)
    requires a != [] && b != []
    ensures a[0] == b[0]
  {
    assert a[0] in multiset(b) && b[0] in multiset(a);
    var j :| 0 <= j < |b| && b[j] == a[0];
    var i :| 0 <= i < |a| && a[i] == b[0];
    assert i > 0 ==> a[0].date >= a[i].date;
    assert j > 0 ==> b[0].date > b[j].date;
  }

  lemma {:induction false} CountOnce<T>(s: seq<T>, x: T)
    requires forall i, j :: 0 <= i < j < |s| ==> s[i] != s[j]
    ensures multiset(s)[x] == if x in s then 1 else 0
  {
    if s != [] {
      CountOnce(s[1..], x);
      assert s == [s[0]] + s[1..];
    }
  }

  lemma SameMembers<T>(a: seq<T>, b: seq<T>)
    requires forall i, j :: 0 <= i < j < |a| ==> a[i] != a[j]
    requires forall i, j :: 0 <= i < j < |b| ==> b[i] != b[j]
    requires forall x :: x in a <==> x in b
    ensures multiset(a) == multiset(b)
  {
    forall x ensures multiset(a)[x] == multiset(b)[x] {
      CountOnce(a, x);
      CountOnce(b, x);
    }
  }
}
