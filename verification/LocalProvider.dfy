/** The local backup provider: a ring of slots in one directory
    (cmd/internal/backup/providers/local/local.go and versions.go). */
module LocalProvider {
  import opened FileTree
  import opened Decimal
  import opened Versions

  const DEFAULT_OBJECTS_TO_KEEP := 20

  datatype Object = Object(content: seq<byte>, modTime: int)
  datatype FileInfo = FileInfo(name: string, modTime: int)
  /** The next slot number, the name handed out last, and the backup directory. */
  datatype Ring = Ring(next: nat, current: string, store: map<string, Object>)

  function SlotName(suffix: string, slot: nat): string {
    Format(slot) + suffix
  }

  function TakeName(n: nat, r: Ring): Ring
    requires n > 0
  {
    Ring((r.next + 1) % n, Format(r.next), r.store)
  }

  function Put(suffix: string, r: Ring, content: seq<byte>, time: int): Ring {
    r.(store := r.store[r.current + suffix := Object(content, time)])
  }

  /** What happens to the ring over time: the process restarts, or an attempt takes a name and then
      never gets to its file, leaves a torn file, or stores a whole backup. */
  datatype Attempt =
    | Restart
    | Skipped
    | Torn(content: seq<byte>, time: int)
    | Stored(content: seq<byte>, time: int)

  predicate Touches(a: Attempt) {
    a.Torn? || a.Stored?
  }

  function Step(n: nat, suffix: string, r: Ring, a: Attempt): Ring
    requires n > 0
  {
    match a
    case Restart => Ring(0, "", r.store)
    case Skipped => TakeName(n, r)
    case Torn(content, time) => Put(suffix, TakeName(n, r), content, time)
    case Stored(content, time) => Put(suffix, TakeName(n, r), content, time)
  }

  function Run(n: nat, suffix: string, r: Ring, attempts: seq<Attempt>): Ring
    requires n > 0
  {
    if attempts == [] then r
    else Step(n, suffix, Run(n, suffix, r, attempts[..|attempts| - 1]), attempts[|attempts| - 1])
  }

  lemma SlotNameInjective(suffix: string, a: nat, b: nat)
    ensures SlotName(suffix, a) == SlotName(suffix, b) ==> a == b
  {
    if SlotName(suffix, a) == SlotName(suffix, b) {
      assert SlotName(suffix, a)[..|SlotName(suffix, a)| - |suffix|] == Format(a);
      assert SlotName(suffix, b)[..|SlotName(suffix, b)| - |suffix|] == Format(b);
      FormatInjective(a, b);
    }
  }

  lemma ModUnique(n: nat, x: nat, q: int, r: nat)
    requires n > 0 && x == q * n + r && r < n
    ensures x % n == r
  {
    var d := x / n - q;
    assert d * n == r - x % n;
    MulAway(d, n);
  }

  lemma MulAway(d: int, n: nat)
    ensures d >= 1 ==> d * n >= n
    ensures d <= -1 ==> d * n <= 0 - (n as int)
  {
  }

  lemma ModNext(n: nat, x: nat)
    requires n > 0
    ensures (x % n + 1) % n == (x + 1) % n
  {
    if x % n + 1 == n {
      ModUnique(n, x + 1, x / n + 1, 0);
      ModUnique(n, n, 1, 0);
    } else {
      ModUnique(n, x + 1, x / n, x % n + 1);
      ModUnique(n, x % n + 1, 0, x % n + 1);
    }
  }

  /** Two positions share a slot exactly when they are a multiple of n apart. */
  lemma SameSlot(n: nat, x: nat, k: nat)
    requires n > 0
    ensures (x + k) % n == x % n <==> k % n == 0
  {
    if k % n == 0 {
      assert x + k == (x / n + k / n) * n + x % n;
      ModUnique(n, x + k, x / n + k / n, x % n);
    }
    if (x + k) % n == x % n {
      assert k == ((x + k) / n - x / n) * n + 0;
      ModUnique(n, k, (x + k) / n - x / n, 0);
    }
  }

  lemma SmallMod(n: nat, k: nat)
    requires 0 < k < n
    ensures k % n != 0
  {
    ModUnique(n, k, 0, k);
  }

  /** One more attempt in a later position of the ring. */
  lemma KeptByOne(n: nat, suffix: string, r: Ring, position: nat, k: nat, a: Attempt)
    requires n > 0 && r.next == (position + k) % n && SlotName(suffix, position % n) in r.store
    requires !a.Restart? && (k % n == 0 ==> a.Skipped?)
    ensures var s, name := Step(n, suffix, r, a), SlotName(suffix, position % n);
            s.next == (position + k + 1) % n && name in s.store && s.store[name] == r.store[name]
  {
    ModNext(n, position + k);
    SameSlot(n, position, k);
    SlotNameInjective(suffix, position % n, r.next);
  }

  lemma {:induction false} KeptAfter(n: nat, suffix: string, r: Ring, position: nat, after: seq<Attempt>)
    requires n > 0 && r.next == (position + 1) % n && SlotName(suffix, position % n) in r.store
    requires forall i :: 0 <= i < |after| ==>
               !after[i].Restart? && ((i + 1) % n == 0 ==> after[i].Skipped?)
    ensures var s := Run(n, suffix, r, after);
            && s.next == (position + 1 + |after|) % n
            && SlotName(suffix, position % n) in s.store
            && s.store[SlotName(suffix, position % n)] == r.store[SlotName(suffix, position % n)]
    decreases |after|
  {
    if after != [] {
      var k := |after| - 1;
      KeptAfter(n, suffix, r, position, after[..k]);
      KeptByOne(n, suffix, Run(n, suffix, r, after[..k]), position, k + 1, after[k]);
    }
  }

  /** Within one process life a stored backup stays in the directory, byte for byte, however the
      following attempts end, unless attempt number n, 2n, ... after it gets as far as its file. */
  lemma Retention(n: nat, suffix: string, start: Ring, before: seq<Attempt>,
                  content: seq<byte>, time: int, after: seq<Attempt>)
    requires n > 0 && start.next < n
    requires forall i :: 0 <= i < |after| ==>
               !after[i].Restart? && ((i + 1) % n == 0 ==> after[i].Skipped?)
    ensures var taken := Run(n, suffix, start, before);
            var name := SlotName(suffix, taken.next);
            var s := Run(n, suffix, start, before + [Stored(content, time)] + after);
            name in s.store && s.store[name] == Object(content, time)
  {
    NextInRange(n, suffix, start, before);
    var taken := Run(n, suffix, start, before);
    var stored := Step(n, suffix, taken, Stored(content, time));
    ModUnique(n, taken.next, 0, taken.next);
    KeptAfter(n, suffix, stored, taken.next, after);
    assert (before + [Stored(content, time)])[..|before|] == before;
    RunConcat(n, suffix, start, before + [Stored(content, time)], after);
  }

  lemma {:induction false} RunConcat(n: nat, suffix: string, r: Ring, a: seq<Attempt>, b: seq<Attempt>)
    requires n > 0
    ensures Run(n, suffix, r, a + b) == Run(n, suffix, Run(n, suffix, r, a), b)
    decreases |b|
  {
    if b == [] {
      assert a + b == a;
    } else {
      assert (a + b)[..|a + b| - 1] == a + b[..|b| - 1];
      RunConcat(n, suffix, r, a, b[..|b| - 1]);
    }
  }

  lemma {:induction false} NextInRange(n: nat, suffix: string, r: Ring, attempts: seq<Attempt>)
    requires n > 0 && r.next < n
    ensures Run(n, suffix, r, attempts).next < n
  {
    if attempts != [] {
      NextInRange(n, suffix, r, attempts[..|attempts| - 1]);
    }
  }

  /** The next slot after some attempts, whatever they stored. */
  function NextSlot(n: nat, next: nat, attempts: seq<Attempt>): nat
    requires n > 0
  {
    if attempts == [] then next
    else if attempts[|attempts| - 1].Restart? then 0
    else (NextSlot(n, next, attempts[..|attempts| - 1]) + 1) % n
  }

  lemma {:induction false} RunNext(n: nat, suffix: string, r: Ring, attempts: seq<Attempt>)
    requires n > 0
    ensures Run(n, suffix, r, attempts).next == NextSlot(n, r.next, attempts)
  {
    if attempts != [] {
      RunNext(n, suffix, r, attempts[..|attempts| - 1]);
    }
  }

  /** Attempt i of those gets to its file, and that is the one of the slot. */
  predicate Reaches(n: nat, next: nat, attempts: seq<Attempt>, i: nat, slot: nat)
    requires n > 0 && i < |attempts|
  {
    Touches(attempts[i]) && NextSlot(n, next, attempts[..i]) == slot
  }

  ghost predicate NoneReaches(n: nat, next: nat, attempts: seq<Attempt>, slot: nat)
    requires n > 0
  {
    forall i :: 0 <= i < |attempts| ==> !Reaches(n, next, attempts, i, slot)
  }

  lemma NoneReachesMore(n: nat, next: nat, attempts: seq<Attempt>, slot: nat)
    requires n > 0 && attempts != []
    ensures var k := |attempts| - 1;
            NoneReaches(n, next, attempts, slot)
            <==> NoneReaches(n, next, attempts[..k], slot) && !Reaches(n, next, attempts, k, slot)
  {
    var k := |attempts| - 1;
    forall i | 0 <= i < k ensures Reaches(n, next, attempts, i, slot) <==> Reaches(n, next, attempts[..k], i, slot) {
      assert attempts[..k][..i] == attempts[..i];
    }
  }

  predicate Holds(r: Ring, name: string, o: Object) {
    name in r.store && r.store[name] == o
  }

  /** All attempts that get to their file do so later. */
  predicate AllLater(attempts: seq<Attempt>, time: int) {
    forall a :: a in attempts && Touches(a) ==> a.time > time
  }

  lemma {:induction false} HeldExactly(n: nat, suffix: string, r: Ring, slot: nat, o: Object, after: seq<Attempt>)
    requires n > 0 && Holds(r, SlotName(suffix, slot), o) && AllLater(after, o.modTime)
    ensures Holds(Run(n, suffix, r, after), SlotName(suffix, slot), o) <==> NoneReaches(n, r.next, after, slot)
  {
    if after != [] {
      var k := |after| - 1;
      var init, a := after[..k], after[k];
      assert a in after && forall b :: b in init ==> b in after;
      HeldExactly(n, suffix, r, slot, o, init);
      NoneReachesMore(n, r.next, after, slot);
      RunNext(n, suffix, r, init);
      SlotNameInjective(suffix, slot, Run(n, suffix, r, init).next);
    }
  }

  /** Exactly how long a stored backup stays in the directory, over any attempts and restarts: until an attempt that
      gets to its file has its slot. The slots go round the ring from the one after it, and from 0 after a restart.
      */
  lemma RetentionExactly(n: nat, suffix: string, start: Ring, before: seq<Attempt>,
                         content: seq<byte>, time: int, after: seq<Attempt>)
    requires n > 0 && AllLater(after, time)
    ensures var slot := Run(n, suffix, start, before).next;
            var s := Run(n, suffix, start, before + [Stored(content, time)] + after);
            Holds(s, SlotName(suffix, slot), Object(content, time)) <==> NoneReaches(n, (slot + 1) % n, after, slot)
  {
    var taken := Run(n, suffix, start, before);
    assert (before + [Stored(content, time)])[..|before|] == before;
    RunConcat(n, suffix, start, before + [Stored(content, time)], after);
    HeldExactly(n, suffix, Step(n, suffix, taken, Stored(content, time)), taken.next, Object(content, time), after);
  }

  /** However many backups are to be kept: after one backup, a restart and a torn upload there is no whole one left. */
  lemma RestartThenTorn(n: nat, suffix: string, stored: seq<byte>, torn: seq<byte>)
    requires n > 0
    ensures Run(n, suffix, Fresh, [Stored(stored, 1), Restart, Torn(torn, 2)]).store
            == map[SlotName(suffix, 0) := Object(torn, 2)]
  {
    var a, b, c := Stored(stored, 1), Restart, Torn(torn, 2);
    RunOneMore(n, suffix, Fresh, [], a);
    RunOneMore(n, suffix, Fresh, [a], b);
    RunOneMore(n, suffix, Fresh, [a] + [b], c);
    assert [] + [a] == [a] && [a, b, c] == [a] + [b] + [c];
  }

  lemma RunOneMore(n: nat, suffix: string, r: Ring, attempts: seq<Attempt>, a: Attempt)
    requires n > 0
    ensures Run(n, suffix, r, attempts + [a]) == Step(n, suffix, Run(n, suffix, r, attempts), a)
  {
    assert (attempts + [a])[..|attempts|] == attempts;
  }

  const Fresh := Ring(0, "", map[])

  /** Position j is among the last n of k. */
  predicate InWindow(n: nat, k: nat, j: nat) {
    j < k && k <= j + n
  }

  /** The file of the j-th upload of an uninterrupted process. */
  function SlotOf(n: nat, suffix: string): nat -> string
    requires n > 0
  {
    (j: nat) => SlotName(suffix, j % n)
  }

  /** Among n + 1 consecutive uploads only the first and the last share their file. */
  ghost predicate Rotates(n: nat, slot: nat -> string) {
    forall j: nat, k: nat :: j < k <= j + n ==> (slot(j) == slot(k) <==> k == j + n)
  }

  lemma SlotsApart(n: nat, suffix: string, j: nat, k: nat)
    requires n > 0 && j < k <= j + n
    ensures SlotName(suffix, j % n) == SlotName(suffix, k % n) <==> k == j + n
  {
    SameSlot(n, j, k - j);
    SlotNameInjective(suffix, j % n, k % n);
    if k == j + n {
      ModUnique(n, n, 1, 0);
    } else {
      SmallMod(n, k - j);
    }
  }

  lemma SlotOfRotates(n: nat, suffix: string)
    requires n > 0
    ensures Rotates(n, SlotOf(n, suffix))
  {
    forall j: nat, k: nat | j < k <= j + n
      ensures SlotOf(n, suffix)(j) == SlotOf(n, suffix)(k) <==> k == j + n
    {
      SlotsApart(n, suffix, j, k);
    }
  }

  /** The directory holds the last n of the uploads, each in its slot, and nothing else. */
  ghost predicate HoldsLast(n: nat, slot: nat -> string, uploads: seq<Object>, store: map<string, Object>) {
    && (forall name :: name in store ==> exists j: nat :: InWindow(n, |uploads|, j) && name == slot(j))
    && (forall j: nat :: InWindow(n, |uploads|, j) ==> slot(j) in store && store[slot(j)] == uploads[j])
  }

  /** The directory after uploading into those slots one after the other. */
  function Fill(slot: nat -> string, uploads: seq<Object>): map<string, Object> {
    if uploads == [] then map[]
    else
      var k := |uploads| - 1;
      Fill(slot, uploads[..k])[slot(k) := uploads[k]]
  }

  /** When slots rotate, the directory is exactly the last n uploads. */
  lemma {:induction false} FillHoldsLast(n: nat, slot: nat -> string, uploads: seq<Object>)
    requires n > 0 && Rotates(n, slot)
    ensures HoldsLast(n, slot, uploads, Fill(slot, uploads))
  {
    if uploads != [] {
      var k := |uploads| - 1;
      var before, after := Fill(slot, uploads[..k]), Fill(slot, uploads);
      FillHoldsLast(n, slot, uploads[..k]);
      forall j: nat | InWindow(n, k + 1, j) ensures slot(j) in after && after[slot(j)] == uploads[j] {
        assert j != k ==> InWindow(n, k, j) && slot(j) != slot(k);
      }
      forall name | name in after ensures exists j: nat :: InWindow(n, k + 1, j) && name == slot(j) {
        if name == slot(k) {
          assert InWindow(n, k + 1, k);
        } else {
          var j: nat :| InWindow(n, k, j) && name == slot(j);
          assert InWindow(n, k + 1, j);
        }
      }
    }
  }

  function AllStored(uploads: seq<Object>): (r: seq<Attempt>)
    ensures |r| == |uploads|
  {
    seq(|uploads|, i requires 0 <= i < |uploads| => Stored(uploads[i].content, uploads[i].modTime))
  }

  /** An uninterrupted process uploads into the slots 0, 1, ..., n - 1, 0, 1, ... */
  lemma {:induction false} RunFills(n: nat, suffix: string, uploads: seq<Object>)
    requires n > 0
    ensures Run(n, suffix, Fresh, AllStored(uploads)).next == |uploads| % n
    ensures Run(n, suffix, Fresh, AllStored(uploads)).store == Fill(SlotOf(n, suffix), uploads)
  {
    if uploads == [] {
      ModUnique(n, 0, 0, 0);
    } else {
      var k := |uploads| - 1;
      RunFills(n, suffix, uploads[..k]);
      assert AllStored(uploads)[..k] == AllStored(uploads[..k]);
      ModNext(n, k);
    }
  }

  /** files names every entry of the directory once, in any order. */
  ghost predicate Enumerates(files: seq<FileInfo>, store: map<string, Object>) {
    && (forall i, j :: 0 <= i < j < |files| ==> files[i].name != files[j].name)
    && (forall f :: f in files ==> f.name in store && store[f.name].modTime == f.modTime)
    && (forall name :: name in store ==> FileInfo(name, store[name].modTime) in files)
  }

  function Entry(f: FileInfo): BackupVersion {
    BackupVersion(f.name, "", f.modTime)
  }

  function Entries(files: seq<FileInfo>): (r: seq<BackupVersion>)
    ensures |r| == |files|
  {
    seq(|files|, i requires 0 <= i < |files| => Entry(files[i]))
  }

  function Unnumbered(s: seq<BackupVersion>): (r: seq<BackupVersion>)
    ensures |r| == |s|
  {
    seq(|s|, i requires 0 <= i < |s| => s[i].(version := ""))
  }

  /** A date-descending permutation of the files, numbered from 0. */
  ghost predicate IsListing(files: seq<FileInfo>, r: seq<BackupVersion>) {
    && Descending(r)
    && multiset(Unnumbered(r)) == multiset(Entries(files))
    && forall i :: 0 <= i < |r| ==> r[i].version == Format(i)
  }

  lemma ListingVersionsDistinct(files: seq<FileInfo>, r: seq<BackupVersion>)
    requires IsListing(files, r)
    ensures DistinctVersions(r)
  {
    forall i, j | 0 <= i < j < |r| ensures r[i].version != r[j].version {
      FormatInjective(i, j);
    }
  }

  lemma SortedUnnumbered(files: seq<FileInfo>, s: seq<BackupVersion>)
    requires multiset(s) == multiset(Entries(files))
    ensures Unnumbered(s) == s
  {
    forall i | 0 <= i < |s| ensures s[i].version == "" {
      assert s[i] in multiset(s);
      assert s[i] in multiset(Entries(files));
    }
  }

  /** Writes each entry's position into its version. */
  method Number(versions: array<BackupVersion>)
    modifies versions
    ensures forall i :: 0 <= i < versions.Length ==> versions[i] == old(versions[i]).(version := Format(i))
  {
    for i := 0 to versions.Length
      invariant forall k :: 0 <= k < i ==> versions[k] == old(versions[k]).(version := Format(k))
      invariant forall k :: i <= k < versions.Length ==> versions[k] == old(versions[k])
    {
      versions[i] := versions[i].(version := Format(i));
    }
  }

  /** List of versions.go. */
  method List(files: seq<FileInfo>) returns (result: array<BackupVersion>)
    ensures fresh(result) && IsListing(files, result[..])
  {
    result := new BackupVersion[|files|](i requires 0 <= i < |files| => Entry(files[i]));
    assert result[..] == Entries(files);
    Sort(result);
    ghost var sorted := result[..];
    SortedUnnumbered(files, sorted);
    Number(result);
    assert Unnumbered(result[..]) == Unnumbered(sorted);
  }

  function Min(a: nat, b: nat): nat {
    if a < b then a else b
  }

  /** The last min(k, n) of k uploads, newest first, numbered from 0. */
  function NewestFirst(n: nat, slot: nat -> string, uploads: seq<Object>): (r: seq<BackupVersion>)
    ensures |r| == Min(|uploads|, n)
  {
    var k := |uploads|;
    seq(Min(k, n), i requires 0 <= i < Min(k, n) =>
      BackupVersion(slot(k - 1 - i), Format(i), uploads[k - 1 - i].modTime))
  }

  lemma EntryInWindow(n: nat, slot: nat -> string, uploads: seq<Object>, store: map<string, Object>, f: FileInfo)
    requires HoldsLast(n, slot, uploads, store) && f.name in store && store[f.name].modTime == f.modTime
    ensures Entry(f) in Unnumbered(NewestFirst(n, slot, uploads))
  {
    var u := Unnumbered(NewestFirst(n, slot, uploads));
    var j: nat :| InWindow(n, |uploads|, j) && f.name == slot(j);
    assert u[|uploads| - 1 - j] == Entry(f);
  }

  lemma WindowInStore(n: nat, slot: nat -> string, uploads: seq<Object>, store: map<string, Object>, i: nat)
    requires HoldsLast(n, slot, uploads, store) && i < Min(|uploads|, n)
    ensures var v := Unnumbered(NewestFirst(n, slot, uploads))[i];
            v.name in store && v == Entry(FileInfo(v.name, store[v.name].modTime))
            && store[v.name].content == uploads[|uploads| - 1 - i].content
  {
    assert InWindow(n, |uploads|, |uploads| - 1 - i);
  }

  lemma SameEntries(n: nat, slot: nat -> string, uploads: seq<Object>, store: map<string, Object>, files: seq<FileInfo>)
    requires HoldsLast(n, slot, uploads, store) && Enumerates(files, store)
    ensures forall v :: v in Entries(files) <==> v in Unnumbered(NewestFirst(n, slot, uploads))
  {
    var u, es := Unnumbered(NewestFirst(n, slot, uploads)), Entries(files);
    forall p | 0 <= p < |es| ensures es[p] in u {
      assert files[p] in files;
      EntryInWindow(n, slot, uploads, store, files[p]);
    }
    forall i | 0 <= i < |u| ensures u[i] in es {
      WindowInStore(n, slot, uploads, store, i);
      var p :| 0 <= p < |files| && files[p] == FileInfo(u[i].name, store[u[i].name].modTime);
      assert es[p] == u[i];
    }
  }

  ghost predicate TimesIncrease(uploads: seq<Object>) {
    forall i, j :: 0 <= i < j < |uploads| ==> uploads[i].modTime < uploads[j].modTime
  }

  /** Ring refines "keep the last n": any listing of the directory after k uninterrupted uploads with
      increasing times is exactly the last min(k, n) uploads, newest first, version i the i-th newest. */
  lemma ListsLastN(n: nat, suffix: string, uploads: seq<Object>, files: seq<FileInfo>, r: seq<BackupVersion>)
    requires n > 0 && TimesIncrease(uploads)
    requires Enumerates(files, Run(n, suffix, Fresh, AllStored(uploads)).store) && IsListing(files, r)
    ensures r == NewestFirst(n, SlotOf(n, suffix), uploads)
    ensures forall i :: 0 <= i < |r| ==>
              var store := Run(n, suffix, Fresh, AllStored(uploads)).store;
              r[i].name in store && store[r[i].name].content == uploads[|uploads| - 1 - i].content
  {
    RunFills(n, suffix, uploads);
    SlotOfRotates(n, suffix);
    ListingOfFill(n, SlotOf(n, suffix), uploads, files, r);
  }

  lemma ListingOfFill(n: nat, slot: nat -> string, uploads: seq<Object>, files: seq<FileInfo>, r: seq<BackupVersion>)
    requires n > 0 && Rotates(n, slot) && TimesIncrease(uploads)
    requires Enumerates(files, Fill(slot, uploads)) && IsListing(files, r)
    ensures r == NewestFirst(n, slot, uploads)
    ensures forall i :: 0 <= i < |r| ==>
              r[i].name in Fill(slot, uploads)
              && Fill(slot, uploads)[r[i].name].content == uploads[|uploads| - 1 - i].content
  {
    FillHoldsLast(n, slot, uploads);
    ListingIsNewest(n, slot, uploads, Fill(slot, uploads), files, r);
    NewestContents(n, slot, uploads, Fill(slot, uploads));
  }

  lemma ListingIsNewest(n: nat, slot: nat -> string, uploads: seq<Object>, store: map<string, Object>,
                        files: seq<FileInfo>, r: seq<BackupVersion>)
    requires HoldsLast(n, slot, uploads, store) && TimesIncrease(uploads)
    requires Enumerates(files, store) && IsListing(files, r)
    ensures r == NewestFirst(n, slot, uploads)
  {
    var e := NewestFirst(n, slot, uploads);
    ListingEntries(n, slot, uploads, store, files);
    NewestFirstOrder(n, slot, uploads);
    assert Descending(Unnumbered(r));
    OrderUnique(Unnumbered(r), Unnumbered(e));
    SameNumbered(r, e);
  }

  lemma NewestContents(n: nat, slot: nat -> string, uploads: seq<Object>, store: map<string, Object>)
    requires HoldsLast(n, slot, uploads, store)
    ensures var e := NewestFirst(n, slot, uploads);
            forall i :: 0 <= i < |e| ==>
              e[i].name in store && store[e[i].name].content == uploads[|uploads| - 1 - i].content
  {
    var e := NewestFirst(n, slot, uploads);
    forall i | 0 <= i < |e|
      ensures e[i].name in store && store[e[i].name].content == uploads[|uploads| - 1 - i].content
    {
      WindowInStore(n, slot, uploads, store, i);
    }
  }

  lemma NewestFirstOrder(n: nat, slot: nat -> string, uploads: seq<Object>)
    requires TimesIncrease(uploads)
    ensures StrictlyDescending(Unnumbered(NewestFirst(n, slot, uploads)))
  {
  }

  lemma ListingEntries(n: nat, slot: nat -> string, uploads: seq<Object>, store: map<string, Object>,
                       files: seq<FileInfo>)
    requires HoldsLast(n, slot, uploads, store) && TimesIncrease(uploads) && Enumerates(files, store)
    ensures multiset(Entries(files)) == multiset(Unnumbered(NewestFirst(n, slot, uploads)))
  {
    var es, u := Entries(files), Unnumbered(NewestFirst(n, slot, uploads));
    SameEntries(n, slot, uploads, store, files);
    assert forall i, j :: 0 <= i < j < |u| ==> u[i].date > u[j].date;
    assert forall i, j :: 0 <= i < j < |es| ==> es[i].name != es[j].name;
    SameMembers(es, u);
  }

  lemma SameNumbered(a: seq<BackupVersion>, b: seq<BackupVersion>)
    requires Unnumbered(a) == Unnumbered(b)
    requires forall i :: 0 <= i < |a| ==> a[i].version == Format(i)
    requires forall i :: 0 <= i < |b| ==> b[i].version == Format(i)
    ensures a == b
  {
    forall i | 0 <= i < |a| ensures a[i] == b[i] {
      assert Unnumbered(a)[i] == Unnumbered(b)[i];
    }
  }

  ghost predicate AttemptTimesIncrease(attempts: seq<Attempt>) {
    forall i, j :: 0 <= i < j < |attempts| && Touches(attempts[i]) && Touches(attempts[j]) ==>
      attempts[i].time < attempts[j].time
  }

  /** The last attempt that reached its file. */
  function LastTouch(attempts: seq<Attempt>): (r: Option<nat>)
    ensures r.None? ==> forall a :: a in attempts ==> !Touches(a)
    ensures r.Some? ==> r.value < |attempts| && Touches(attempts[r.value])
                        && forall i :: r.value < i < |attempts| ==> !Touches(attempts[i])
  {
    if attempts == [] then None
    else if Touches(attempts[|attempts| - 1]) then Some(|attempts| - 1)
    else LastTouch(attempts[..|attempts| - 1])
  }

  function SlotNames(suffix: string, n: nat): set<string> {
    set s | 0 <= s < n :: SlotName(suffix, s)
  }

  lemma {:induction false} CountSlots(suffix: string, n: nat)
    ensures |SlotNames(suffix, n)| <= n
  {
    if n > 0 {
      CountSlots(suffix, n - 1);
      assert SlotNames(suffix, n) == SlotNames(suffix, n - 1) + {SlotName(suffix, n - 1)};
    }
  }

  ghost predicate IsNewest(store: map<string, Object>, name: string, o: Object) {
    name in store && store[name] == o
    && forall other :: other in store && other != name ==> store[other].modTime < o.modTime
  }

  /** Over any attempts and restarts: only slot names occur, and the last file reached is there,
      with every other file older. */
  lemma {:induction false} OverRestarts(n: nat, suffix: string, attempts: seq<Attempt>)
    requires n > 0 && AttemptTimesIncrease(attempts)
    ensures var r := Run(n, suffix, Fresh, attempts);
            && r.next < n && r.store.Keys <= SlotNames(suffix, n)
            && (LastTouch(attempts).None? ==> r.store == map[])
            && (LastTouch(attempts).Some? ==>
                  var a := attempts[LastTouch(attempts).value];
                  exists name :: IsNewest(r.store, name, Object(a.content, a.time)))
  {
    if attempts != [] {
      var k := |attempts| - 1;
      var init, a := attempts[..k], attempts[k];
      OverRestarts(n, suffix, init);
      var r, s := Run(n, suffix, Fresh, init), Run(n, suffix, Fresh, attempts);
      assert LastTouch(init).Some? ==> init[LastTouch(init).value] == attempts[LastTouch(init).value];
      if !Touches(a) {
        assert LastTouch(attempts) == LastTouch(init) && s.store == r.store;
      } else {
        assert LastTouch(attempts) == Some(k);
        var name := SlotName(suffix, r.next);
        assert name in SlotNames(suffix, n);
        assert s.store == r.store[name := Object(a.content, a.time)];
        forall other | other in s.store && other != name ensures s.store[other].modTime < a.time {
          if LastTouch(init).Some? {
            assert init[LastTouch(init).value].time < a.time;
          }
        }
        assert IsNewest(s.store, name, Object(a.content, a.time));
      }
    }
  }

  /** Across restarts the directory never exceeds n files, and the first entry of any listing is the
      last file reached: the last stored backup exactly when no later attempt left a torn file. */
  lemma LatestOverRestarts(n: nat, suffix: string, attempts: seq<Attempt>, files: seq<FileInfo>, r: seq<BackupVersion>)
    requires n > 0 && AttemptTimesIncrease(attempts)
    requires Enumerates(files, Run(n, suffix, Fresh, attempts).store) && IsListing(files, r)
    ensures |Run(n, suffix, Fresh, attempts).store| <= n
    ensures r == [] <==> LastTouch(attempts).None?
    ensures r != [] ==>
              var store := Run(n, suffix, Fresh, attempts).store;
              var a := attempts[LastTouch(attempts).value];
              r[0].name in store && r[0].date == a.time && store[r[0].name] == Object(a.content, a.time)
  {
    var store := Run(n, suffix, Fresh, attempts).store;
    OverRestarts(n, suffix, attempts);
    CountSlots(suffix, n);
    SubsetSize(store.Keys, SlotNames(suffix, n));
    assert |store| == |store.Keys|;
    assert |multiset(Unnumbered(r))| == |r| && |multiset(Entries(files))| == |files|;
    if LastTouch(attempts).Some? {
      var a := attempts[LastTouch(attempts).value];
      var name :| IsNewest(store, name, Object(a.content, a.time));
      NewestListedFirst(store, name, files, r);
    } else {
      NoFiles(files, store);
    }
  }

  /** A torn upload after a stored one is what is listed first. */
  lemma TornIsLatest(n: nat, suffix: string, stored: seq<byte>, torn: seq<byte>,
                     files: seq<FileInfo>, r: seq<BackupVersion>)
    requires n > 0
    requires var attempts := [Stored(stored, 1), Torn(torn, 2)];
             Enumerates(files, Run(n, suffix, Fresh, attempts).store) && IsListing(files, r)
    ensures var store := Run(n, suffix, Fresh, [Stored(stored, 1), Torn(torn, 2)]).store;
            r != [] && r[0].name in store && store[r[0].name].content == torn
  {
    var attempts := [Stored(stored, 1), Torn(torn, 2)];
    assert LastTouch(attempts) == Some(1);
    LatestOverRestarts(n, suffix, attempts, files, r);
  }

  lemma NewestListedFirst(store: map<string, Object>, name: string, files: seq<FileInfo>, r: seq<BackupVersion>)
    requires name in store && IsNewest(store, name, store[name])
    requires Enumerates(files, store) && IsListing(files, r)
    ensures r != [] && r[0].name == name && r[0].date == store[name].modTime
  {
    var es, us := Entries(files), Unnumbered(r);
    var p :| 0 <= p < |files| && files[p] == FileInfo(name, store[name].modTime);
    assert es[p] in multiset(us);
    var q :| 0 <= q < |us| && us[q] == es[p];
    assert us[0] in multiset(es);
    var z :| 0 <= z < |es| && es[z] == us[0];
    assert files[z] in files && (q > 0 ==> r[0].date >= r[q].date);
  }

  lemma NoFiles(files: seq<FileInfo>, store: map<string, Object>)
    requires Enumerates(files, store)
    ensures store == map[] ==> files == []
  {
    if files != [] {
      assert files[0] in files;
    }
  }

  lemma SubsetSize<T>(a: set<T>, b: set<T>)
    requires a <= b
    ensures |a| <= |b|
  {
    assert b == a + (b - a);
  }

  /** The number of slots. The remainder of a non-negative count by a negative number
      is the remainder by its absolute value. */
  function Slots(objectsToKeep: int): nat {
    if objectsToKeep < 0 then 0 - objectsToKeep else objectsToKeep
  }

  lemma SlotsRemainder(x: nat, objectsToKeep: int)
    requires objectsToKeep != 0
    ensures x % objectsToKeep == x % Slots(objectsToKeep) < Slots(objectsToKeep)
  {
    if objectsToKeep < 0 {
      var q, r := x / objectsToKeep, x % objectsToKeep;
      NegatedProduct(q, objectsToKeep);
      assert x == (0 - q) * Slots(objectsToKeep) + r;
      ModUnique(Slots(objectsToKeep), x, 0 - q, r);
    }
  }

  lemma NegatedProduct(q: int, k: int)
    ensures q * k == (0 - q) * (0 - k)
  {
  }

  class BackupProviderLocal {
    /** No call fails on the backup directory. */
    const faultless: bool
    const objectsToKeep: int
    const suffix: string
    var nextBackupCount: nat
    var currentBackupName: string
    var store: map<string, Object>

    const slots: nat := Slots(objectsToKeep)

    ghost predicate Valid()
      reads this
    {
      objectsToKeep != 0 && nextBackupCount < slots
    }

    function State(): Ring
      reads this
    {
      Ring(nextBackupCount, currentBackupName, store)
    }

    /** New: 0 means the default; the directory may hold files of earlier processes. */
    constructor (objectsToKeep: int, suffix: string, store: map<string, Object>, faultless: bool)
      ensures Valid() && State() == Ring(0, "", store) && this.suffix == suffix && this.faultless == faultless
      ensures this.objectsToKeep == if objectsToKeep == 0 then DEFAULT_OBJECTS_TO_KEEP else objectsToKeep
    {
      this.objectsToKeep := if objectsToKeep == 0 then DEFAULT_OBJECTS_TO_KEEP else objectsToKeep;
      this.suffix, this.faultless := suffix, faultless;
      nextBackupCount := 0;
      currentBackupName := "";
      this.store := store;
    }

    /** EnsureBackupBucket: the own directory is made. */
    method EnsureBackupBucket() returns (ok: bool)
      ensures faultless ==> ok
    {
      ok := *;
      ok := ok || faultless;
    }

    method GetNextBackupName() returns (name: string)
      requires Valid()
      modifies this
      ensures Valid() && State() == TakeName(slots, old(State()))
      ensures name == currentBackupName == Format(old(nextBackupCount))
    {
      name := Format(nextBackupCount);
      nextBackupCount := nextBackupCount + 1;
      SlotsRemainder(nextBackupCount, objectsToKeep);
      nextBackupCount := nextBackupCount % objectsToKeep;
      currentBackupName := name;
    }

    /** Success stores everything under the name handed out last; a failure leaves the directory
        alone or a prefix in that place. */
    method UploadBackup(content: seq<byte>, now: int) returns (ok: bool)
      requires Valid()
      modifies this`store
      ensures Valid()
      ensures ok ==> State() == Put(suffix, old(State()), content, now)
      ensures !ok ==> State() == old(State())
                      || exists part :: part <= content && State() == Put(suffix, old(State()), part, now)
      ensures faultless ==> ok
    {
      ok := *;
      if !ok && !faultless {
        return;
      }
      ok := *;
      ok := ok || faultless;
      var n: nat :| n <= |content| && (ok ==> n == |content|);
      store := store[currentBackupName + suffix := Object(content[..n], now)];
      assert content[..n] <= content && State() == Put(suffix, old(State()), content[..n], now);
      assert ok ==> content[..n] == content;
    }

    /** What is written to the given writer: everything on success, otherwise nothing or a prefix of it. */
    method DownloadBackup(name: string) returns (ok: bool, written: seq<byte>)
      ensures ok ==> name in store && written == store[name].content
      ensures written == [] || (name in store && written <= store[name].content)
      ensures faultless ==> (ok <==> name in store)
    {
      ok := *;
      if (!ok && !faultless) || name !in store {
        return false, [];
      }
      ok := *;
      ok := ok || faultless;
      var n: nat :| n <= |store[name].content| && (ok ==> n == |store[name].content|);
      written := store[name].content[..n];
    }

    /** Names come in any order; a failing Stat fails the listing. */
    method ListBackups() returns (r: Option<seq<FileInfo>>)
      ensures r.Some? ==> Enumerates(r.value, store)
      ensures faultless ==> r.Some?
    {
      var names := store.Keys;
      var files: seq<FileInfo> := [];
      while names != {}
        invariant names <= store.Keys
        invariant forall f :: f in files ==> f.name in store && f.name !in names && store[f.name].modTime == f.modTime
        invariant forall name :: name in store && name !in names ==> FileInfo(name, store[name].modTime) in files
        invariant forall i, j :: 0 <= i < j < |files| ==> files[i].name != files[j].name
        decreases names
      {
        var ok: bool := *;
        if !ok && !faultless {
          return None;
        }
        var name :| name in names;
        forall i | 0 <= i < |files| ensures files[i].name != name {
          assert files[i] in files;
        }
        files := files + [FileInfo(name, store[name].modTime)];
        names := names - {name};
      }
      r := Some(files);
    }
  }
}
