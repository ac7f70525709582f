/** The in-place major upgrade of Postgres (cmd/internal/database/postgres/upgrade.go): two directories,
    the data directory and the temporary one, and external commands that may fail at every step. */
module PostgresUpgrade {
  import opened FileTree
  import opened Decimal
  import LocalFs

  const PG_VERSION := "PG_VERSION"
  const HBA_CONF := "pg_hba.conf"
  const POSTGRESQL_CONF := "postgresql.conf"
  const PG_CONFIG := "pg_config"
  const BIN_PREFIX := "pg-bin-v"

  /** What the files mean: the number in a version file, and the major version
      that the pg_config of a directory of binaries reports. */
  datatype Tools = Tools(versionIn: seq<byte> -> Option<int>, majorOf: Tree -> Option<nat>)

  /** The running container: its major version, its binaries, and what its initdb creates. */
  datatype Image = Image(major: nat, bins: Tree, cluster: Tree)

  function BinName(major: int): string {
    BIN_PREFIX + Format(major)
  }

  /** The names restoreOldPostgresBinaries copies. */
  predicate IsSaved(name: string) {
    BIN_PREFIX <= name
  }

  lemma BinNames(a: int, b: int)
    ensures IsSaved(BinName(a)) && (BinName(a) == BinName(b) <==> a == b)
  {
    FormatInjective(a, b);
    assert BinName(a)[|BIN_PREFIX|..] == Format(a);
    assert BinName(b)[|BIN_PREFIX|..] == Format(b);
  }

  lemma ConfigNames()
    ensures !IsSaved(PG_VERSION) && !IsSaved(HBA_CONF) && !IsSaved(POSTGRESQL_CONF)
    ensures PG_VERSION != HBA_CONF && PG_VERSION != POSTGRESQL_CONF && HBA_CONF != POSTGRESQL_CONF
  {
    assert PG_VERSION[0] == 'P' && HBA_CONF[2] == '_' && POSTGRESQL_CONF[1] == 'o' && BIN_PREFIX[2] == '-';
    assert BIN_PREFIX[0] == 'p' && BIN_PREFIX[1] == 'g' && HBA_CONF[0] == 'p' && HBA_CONF[1] == 'g';
  }

  /** Saved binaries lie directly in the directory, nowhere deeper. */
  ghost predicate TopOnly(t: Tree) {
    forall x, k :: x in t && 1 <= k < |x| ==> !IsSaved(x[k])
  }

  ghost predicate NothingSaved(t: Tree) {
    forall x, k :: x in t && 0 <= k < |x| ==> !IsSaved(x[k])
  }

  /** The version file's number, when it is one of 64 bits. */
  function VersionAt(tools: Tools, t: Tree): Option<int> {
    if !IsFile(t, [PG_VERSION]) then None
    else
      match tools.versionIn(t[[PG_VERSION]].content)
      case None => None
      case Some(v) => if IsInt64(v) then Some(v) else None
  }

  /** The conversion that every comparison of versions makes. */
  function Unsigned(v: int): int {
    if v < 0 then v + 0x1_0000_0000_0000_0000 else v
  }

  ghost predicate ValidImage(tools: Tools, image: Image) {
    && tools.majorOf(image.bins) == Some(image.major) && IsDir(image.bins, []) && IsFile(image.bins, [PG_CONFIG])
    && NothingSaved(image.bins)
    && VersionAt(tools, image.cluster) == Some(image.major) && NothingSaved(image.cluster)
  }

  /** What neither pg_upgrade nor a running database touches: version, configuration and saved binaries. */
  predicate Protected(name: string) {
    name == PG_VERSION || name == HBA_CONF || name == POSTGRESQL_CONF || IsSaved(name)
  }

  ghost predicate Kept(a: Tree, b: Tree) {
    && (forall x :: x != [] && Protected(x[0]) ==> SameAt(a, b, x))
    && (TopOnly(a) ==> TopOnly(b))
  }

  lemma KeptBelow(a: Tree, b: Tree, name: string)
    requires Kept(a, b) && Protected(name)
    ensures Below(a, [name]) == Below(b, [name]) && SameAt(a, b, [name])
  {
    forall q ensures SameAt(Below(a, [name]), Below(b, [name]), q) {
      InBelow(a, [name], q);
      InBelow(b, [name], q);
      assert ([name] + q)[0] == name && SameAt(a, b, [name] + q);
    }
    SameEverywhere(Below(a, [name]), Below(b, [name]));
  }

  /** The binaries of the running version replaced or added; nothing else changed. */
  function WithBins(t: Tree, image: Image): Tree {
    Graft(Without(t, [BinName(image.major)]), [BinName(image.major)], image.bins)
  }

  lemma NamesApart(a: string, b: string)
    ensures a != b <==> Apart([a], [b])
  {
    assert [a][0] == a && [b][0] == b;
  }

  lemma GraftElsewhere(t: Tree, name: string, s: Tree, other: string)
    requires name != other
    ensures Below(Graft(t, [name], s), [other]) == Below(t, [other]) && SameAt(t, Graft(t, [name], s), [other])
  {
    NamesApart(name, other);
    GraftOnlyWithin(t, [name], s);
    BelowElsewhere(t, Graft(t, [name], s), [name], [other]);
  }

  lemma WithoutElsewhere(t: Tree, name: string, other: string)
    requires name != other
    ensures Below(Without(t, [name]), [other]) == Below(t, [other]) && SameAt(t, Without(t, [name]), [other])
  {
    NamesApart(name, other);
    LocalFs.WithoutBelow(t, [name]);
    BelowElsewhere(t, Without(t, [name]), [name], [other]);
  }


  lemma WithBinsEffect(tools: Tools, t: Tree, image: Image)
    requires ValidImage(tools, image)
    ensures var r, bin := WithBins(t, image), BinName(image.major);
            && Below(r, [bin]) == image.bins
            && (forall n :: n != bin ==> Below(r, [n]) == Below(t, [n]) && SameAt(t, r, [n]))
            && (TopOnly(t) ==> TopOnly(r))
            && Without(r, [bin]) == Without(t, [bin])
  {
    var r, bin := WithBins(t, image), BinName(image.major);
    var w := Without(t, [bin]);
    LocalFs.WithoutBelow(t, [bin]);
    BelowGraft(w, [bin], image.bins);
    forall n | n != bin ensures Below(r, [n]) == Below(t, [n]) && SameAt(t, r, [n]) {
      GraftElsewhere(w, bin, image.bins, n);
      WithoutElsewhere(t, bin, n);
    }
    GraftTopOnly(w, bin, image.bins);
    GraftWithout(t, bin, image.bins);
  }

  lemma GraftTopOnly(t: Tree, name: string, s: Tree)
    requires NothingSaved(s)
    ensures TopOnly(t) ==> TopOnly(Graft(t, [name], s))
  {
    var r := Graft(t, [name], s);
    forall x, k | TopOnly(t) && x in r && 1 <= k < |x| ensures !IsSaved(x[k]) {
      InGraft(t, [name], s, x);
      if x !in t {
        assert x[1..][k - 1] == x[k];
      }
    }
  }

  /** Only the named entry differs, however much of it has been written. */
  lemma GraftWithout(t: Tree, name: string, part: Tree)
    ensures Without(Graft(Without(t, [name]), [name], part), [name]) == Without(t, [name])
  {
    var w := Without(t, [name]);
    var l := Without(Graft(w, [name], part), [name]);
    forall q ensures SameAt(l, w, q) {
      InGraft(w, [name], part, q);
    }
    SameEverywhere(l, w);
  }

  /** The data directory has its configuration, a version that the running binaries do not fall behind, and, when they
      are newer, saved binaries of exactly that version. */
  ghost predicate Ready(tools: Tools, t: Tree, image: Image) {
    && TopOnly(t) && VersionAt(tools, t).Some? && HasConfigs(t)
    && var v := VersionAt(tools, t).value;
       0 <= v <= image.major && (v < image.major ==> HasBinaries(tools, t, v))
  }

  predicate HasConfigs(t: Tree) {
    IsFile(t, [HBA_CONF]) && IsFile(t, [POSTGRESQL_CONF])
  }

  predicate HasBinaries(tools: Tools, t: Tree, v: int) {
    IsFile(t, [BinName(v), PG_CONFIG]) && tools.majorOf(Below(t, [BinName(v)])).Some?
    && tools.majorOf(Below(t, [BinName(v)])).value == Unsigned(v)
  }

  /** A start that has kept or upgraded the data: the version is that of the running binaries, which are saved; all
      other saved binaries and the configuration are the old ones. */
  ghost predicate Started(tools: Tools, before: Tree, image: Image, after: Tree) {
    && VersionAt(tools, after) == Some(image.major)
    && SameAt(before, after, [HBA_CONF]) && SameAt(before, after, [POSTGRESQL_CONF])
    && Below(after, [BinName(image.major)]) == image.bins
    && (forall n :: IsSaved(n) && [n] in before && n != BinName(image.major) ==>
          Below(after, [n]) == Below(before, [n]))
    && TopOnly(after)
  }

  /** One name in the new directory: a saved one that is no longer waiting is overlaid with
      the source's contents, another one is as before. */
  ghost predicate CopiedAt(before: Tree, source: Tree, after: Tree, waiting: set<Path>, n: string) {
    if IsSaved(n) && [n] in source && [n] !in waiting then
      Below(after, [n]) == Below(before, [n]) + Below(source, [n])
    else
      Below(after, [n]) == Below(before, [n]) && SameAt(before, after, [n])
  }

  ghost predicate SavedCopied(before: Tree, source: Tree, after: Tree, waiting: set<Path>) {
    && (forall n :: CopiedAt(before, source, after, waiting, n))
    && (TopOnly(before) ==> TopOnly(after))
  }

  /** Whatever is copied where, nothing happens to entries of another name. */
  ghost predicate OthersKept(before: Tree, after: Tree) {
    forall n :: !IsSaved(n) ==> SameBelow(before, after, n)
  }

  predicate SameBelow(before: Tree, after: Tree, n: string) {
    Below(after, [n]) == Below(before, [n]) && SameAt(before, after, [n])
  }

  lemma GraftKeepsOthers(before: Tree, after: Tree, name: string, s: Tree)
    requires OthersKept(before, after) && IsSaved(name)
    ensures OthersKept(before, Graft(after, [name], s))
  {
    forall n | !IsSaved(n) ensures SameBelow(before, Graft(after, [name], s), n) {
      assert SameBelow(before, after, n);
      GraftElsewhere(after, name, s, n);
    }
  }

  /** Only entries directly in the source have a saved name. */
  lemma SavedIsTop(source: Tree, x: Path)
    requires TopOnly(source) && x in source && x != [] && IsSaved(x[|x| - 1])
    ensures x == [x[0]]
  {
  }

  lemma CopyOne(before: Tree, source: Tree, after: Tree, waiting: set<Path>, name: string)
    requires SavedCopied(before, source, after, waiting) && TopOnly(source)
    requires [name] in source && [name] in waiting && IsSaved(name)
    ensures SavedCopied(before, source, Graft(after, [name], Below(source, [name])), waiting - {[name]})
  {
    var r := Graft(after, [name], Below(source, [name]));
    forall n ensures CopiedAt(before, source, r, waiting - {[name]}, n) {
      assert CopiedAt(before, source, after, waiting, n);
      if n == name {
        BelowGraft(after, [name], Below(source, [name]));
      } else {
        GraftElsewhere(after, name, Below(source, [name]), n);
        assert [n][0] != [name][0];
      }
    }
    BelowNothingSaved(source, name);
    GraftTopOnly(after, name, Below(source, [name]));
  }

  lemma BelowNothingSaved(source: Tree, name: string)
    requires TopOnly(source)
    ensures NothingSaved(Below(source, [name]))
  {
    var s := Below(source, [name]);
    forall x, k | x in s && 0 <= k < |x| ensures !IsSaved(x[k]) {
      InBelow(source, [name], x);
      assert ([name] + x)[k + 1] == x[k];
    }
  }

  /** Entries that are not copied stop waiting without a change. */
  lemma SkipOne(before: Tree, source: Tree, after: Tree, waiting: set<Path>, x: Path)
    requires SavedCopied(before, source, after, waiting) && (x == [] || !IsSaved(x[|x| - 1]))
    ensures SavedCopied(before, source, after, waiting - {x})
  {
    forall n ensures CopiedAt(before, source, after, waiting - {x}, n) {
      assert CopiedAt(before, source, after, waiting, n);
      assert IsSaved(n) ==> [n] != x;
    }
  }

  /** The returns of Upgrade, in order. */
  datatype Exit =
    | NoVersionFile
    | SavingBinaries
    | MissingCommand
    | UnreadVersion
    | UnreadBinaryVersion
    | SameVersion
    | NewerDatabase
    | NoOldBinaries
    | UnreadOldBinaries
    | OtherOldBinaries
    | UserLookup
    | RemoveTemp
    | Chown
    | InitDb
    | ReadConfig
    | WriteConfig
    | RestoreBinaries
    | BinDir
    | TimescaleDB
    | PgUpgrade
    | RemoveOld
    | Rename
    | Swapped

  /** The returns from pg_upgrade on. */
  predicate Ran(exit: Exit) {
    exit in {PgUpgrade, RemoveOld, Rename, Swapped}
  }

  /** The returns with an error before that, although the old data is unmodified. */
  predicate EarlyError(exit: Exit) {
    exit in {SavingBinaries, NewerDatabase, UserLookup, Chown, ReadConfig, WriteConfig, RestoreBinaries, BinDir,
             TimescaleDB}
  }

  /** The database is older than the binaries. */
  predicate Older(tools: Tools, t: Tree, image: Image) {
    VersionAt(tools, t).Some? && Unsigned(VersionAt(tools, t).value) < image.major
  }

  /** What must be true of the data directory for a return, whichever steps fail. */
  predicate Explained(tools: Tools, data: Option<Tree>, image: Image, exit: Exit) {
    if data.None? || [PG_VERSION] !in data.value then exit.NoVersionFile?
    else
      var t := data.value;
      match exit
      case NoVersionFile => false
      case SavingBinaries => true
      case MissingCommand => true
      case UnreadVersion => true
      case UnreadBinaryVersion => VersionAt(tools, t).Some?
      case SameVersion => VersionAt(tools, t).Some? && Unsigned(VersionAt(tools, t).value) == image.major
      case NewerDatabase => VersionAt(tools, t).Some? && Unsigned(VersionAt(tools, t).value) > image.major
      case NoOldBinaries => Older(tools, t, image)
      case UnreadOldBinaries => Older(tools, t, image)
      case OtherOldBinaries => Older(tools, t, image) && !HasBinaries(tools, t, VersionAt(tools, t).value)
      case _ => Older(tools, t, image) && HasBinaries(tools, t, VersionAt(tools, t).value)
  }

  /** A step that can fail: the one before a return, or reading or writing one configuration file. */
  datatype Step = Before(exit: Exit) | Config(name: string, write: bool)

  /** The returns before anything is prepared, with the steps that fail; none means that an upgrade is begun. */
  function Deciding(tools: Tools, failing: set<Step>, t: Tree, image: Image): Option<Exit> {
    var version := VersionAt(tools, t);
    if Before(MissingCommand) in failing then Some(MissingCommand)
    else if Before(UnreadVersion) in failing || version.None? then Some(UnreadVersion)
    else if Before(UnreadBinaryVersion) in failing then Some(UnreadBinaryVersion)
    else if Unsigned(version.value) == image.major then Some(SameVersion)
    else if Unsigned(version.value) > image.major then Some(NewerDatabase)
    else if Before(NoOldBinaries) in failing || !IsFile(t, [BinName(version.value), PG_CONFIG]) then Some(NoOldBinaries)
    else
      var found := tools.majorOf(Below(t, [BinName(version.value)]));
      if Before(UnreadOldBinaries) in failing || found.None? then Some(UnreadOldBinaries)
      else if found.value != Unsigned(version.value) then Some(OtherOldBinaries)
      else None
  }

  function Configuring(failing: set<Step>, t: Tree, names: seq<string>): Option<Exit> {
    if names == [] then None
    else if Config(names[0], false) in failing || !IsFile(t, [names[0]]) then Some(ReadConfig)
    else if Config(names[0], true) in failing then Some(WriteConfig)
    else Configuring(failing, t, names[1..])
  }

  const CONFIGS := [HBA_CONF, POSTGRESQL_CONF]

  /** The first of these steps that fails. */
  function FirstFailing(failing: set<Step>, exits: seq<Exit>): Option<Exit> {
    if exits == [] then None
    else if Before(exits[0]) in failing then Some(exits[0])
    else FirstFailing(failing, exits[1..])
  }

  const BEFORE_CONFIGS := [UserLookup, RemoveTemp, Chown, InitDb]
  const AFTER_CONFIGS := [RestoreBinaries, BinDir, TimescaleDB]
  const SWAPPING := [PgUpgrade, RemoveOld, Rename]

  /** The returns between the decision and pg_upgrade. */
  function Preparation(failing: set<Step>, t: Tree): Option<Exit> {
    match FirstFailing(failing, BEFORE_CONFIGS)
    case Some(exit) => Some(exit)
    case None =>
      match Configuring(failing, t, CONFIGS)
      case Some(exit) => Some(exit)
      case None => FirstFailing(failing, AFTER_CONFIGS)
  }

  function Swapping(failing: set<Step>): Exit {
    match FirstFailing(failing, SWAPPING)
    case Some(exit) => exit
    case None => Swapped
  }

  function Resulting(tools: Tools, failing: set<Step>, t: Tree, image: Image): Exit {
    match Deciding(tools, failing, t, image)
    case Some(exit) => exit
    case None =>
      match Preparation(failing, t)
      case Some(exit) => exit
      case None => Swapping(failing)
  }

  /** The return that the data directory and the failing steps decide. */
  function Verdict(tools: Tools, failing: set<Step>, data: Option<Tree>, image: Image): Exit {
    if data.None? || [PG_VERSION] !in data.value then NoVersionFile
    else if Before(SavingBinaries) in failing then SavingBinaries
    else Resulting(tools, failing, data.value, image)
  }

  /** What a call of Upgrade can make of the data directory, whatever the database: without one nothing happens,
      and one that is lost is an error. */
  predicate Possible<T>(before: Option<T>, after: Option<T>, ok: bool) {
    && (before.None? ==> after.None? && ok)
    && (before.Some? && after.None? ==> !ok)
  }

  class Postgres {
    const tools: Tools
    /** The base name of the data directory. */
    const name: string
    /** The data directory and the temporary one; None when there is none. */
    var data: Option<Tree>
    var temp: Option<Tree>

    constructor (tools: Tools, name: string, data: Option<Tree>)
      ensures this.tools == tools && this.name == name && this.data == data && temp.None?
    {
      this.tools, this.name, this.data := tools, name, data;
      temp := None;
    }

    /** copyPostgresBinaries: whatever fails, only the running version's saved binaries may have changed. */
    method CopyPostgresBinaries(image: Image, override: bool, failing: set<Step>) returns (ok: bool)
      requires data.Some?
      modifies `data
      ensures data.Some?
              && Without(data.value, [BinName(image.major)]) == Without(old(data).value, [BinName(image.major)])
      ensures Before(SavingBinaries) !in failing ==> ok
      ensures ok && override ==> Before(SavingBinaries) !in failing
      ensures ok ==>
                data == if !override && [BinName(image.major), PG_CONFIG] in old(data).value then old(data)
                        else Some(WithBins(old(data).value, image))
    {
      var bin := BinName(image.major);
      var fails := Before(SavingBinaries) in failing;
      // the running pg_config reports its directory and version
      var now: bool := *;
      if fails && now {
        return false;
      }
      if !override && [bin, PG_CONFIG] in data.value {
        return true;
      }
      now := *;
      if fails && now {
        return false;
      }
      var cleared := Without(data.value, [bin]);
      data := Some(cleared);
      ok := !fails;
      var part: Tree :| ok ==> part == image.bins;
      GraftWithout(old(data).value, bin, part);
      data := Some(Graft(cleared, [bin], part));
    }

    /** restoreOldPostgresBinaries: a walk over the data directory that copies every entry with a saved name into
        the temporary directory; it may fail at any entry. */
    method RestoreOldPostgresBinaries(failing: set<Step>) returns (ok: bool)
      requires data.Some? && temp.Some?
      modifies `temp
      ensures temp.Some? && (ok <==> Before(RestoreBinaries) !in failing) && OthersKept(old(temp).value, temp.value)
      ensures ok && TopOnly(data.value) && !IsSaved(name) ==>
                SavedCopied(old(temp).value, data.value, temp.value, {})
    {
      var source := data.value;
      var todo := source.Keys;
      var fails := Before(RestoreBinaries) in failing;
      ghost var top := TopOnly(source) && !IsSaved(name);
      while todo != {}
        invariant temp.Some? && todo <= source.Keys && OthersKept(old(temp).value, temp.value)
        invariant top ==> SavedCopied(old(temp).value, source, temp.value, todo)
        decreases todo
      {
        var x :| x in todo;
        var entry := if x == [] then name else x[|x| - 1];
        var now: bool := *;
        if fails && now {
          return false;
        }
        if IsSaved(entry) {
          if top {
            SavedIsTop(source, x);
            CopyOne(old(temp).value, source, temp.value, todo, entry);
          }
          GraftKeepsOthers(old(temp).value, temp.value, entry, Below(source, x));
          temp := Some(Graft(temp.value, [entry], Below(source, x)));
        } else if top {
          SkipOne(old(temp).value, source, temp.value, todo, x);
        }
        todo := todo - {x};
      }
      ok := !fails;
    }

    /** The returns before anything is prepared; without one, v is the version to upgrade from. An error is returned
        only for a database that is newer than the binaries. */
    method Decide(image: Image, failing: set<Step>) returns (exit: Option<Exit>, ok: bool, v: int)
      requires data.Some? && [PG_VERSION] in data.value
      ensures exit == Deciding(tools, failing, data.value, image)
      ensures ok <==> exit != Some(NewerDatabase)
      ensures exit.None? ==> Older(tools, data.value, image) && VersionAt(tools, data.value) == Some(v)
                             && HasBinaries(tools, data.value, v)
    {
      ok, v := true, 0;
      // required commands
      if Before(MissingCommand) in failing {
        return Some(MissingCommand), ok, v;
      }
      var version := VersionAt(tools, data.value);
      if Before(UnreadVersion) in failing || version.None? {
        return Some(UnreadVersion), ok, v;
      }
      v := version.value;
      if Before(UnreadBinaryVersion) in failing {
        return Some(UnreadBinaryVersion), ok, v;
      }
      if Unsigned(v) == image.major {
        return Some(SameVersion), ok, v;
      }
      if Unsigned(v) > image.major {
        return Some(NewerDatabase), false, v;
      }
      if Before(NoOldBinaries) in failing || !IsFile(data.value, [BinName(v), PG_CONFIG]) {
        return Some(NoOldBinaries), ok, v;
      }
      var found := tools.majorOf(Below(data.value, [BinName(v)]));
      if Before(UnreadOldBinaries) in failing || found.None? {
        return Some(UnreadOldBinaries), ok, v;
      }
      if found.value != Unsigned(v) {
        return Some(OtherOldBinaries), ok, v;
      }
      return None, ok, v;
    }

    /** From the decision up to pg_upgrade: the data directory is only read. Without a return the temporary directory is
        a new cluster with the old configuration and all saved binaries. */
    method Prepare(image: Image, failing: set<Step>) returns (exit: Option<Exit>, ok: bool)
      requires data.Some? && ValidImage(tools, image)
      modifies `temp
      ensures exit == Preparation(failing, data.value)
      ensures exit.Some? ==> (ok <==> exit.value == RemoveTemp || exit.value == InitDb)
      ensures exit.None? ==> temp.Some?
      ensures exit.None? && TopOnly(data.value) && !IsSaved(name) ==> Prepared(tools, data.value, image, temp.value)
    {
      FirstOf(failing, BEFORE_CONFIGS);
      // looking up the postgres user
      if Before(UserLookup) in failing {
        return Some(UserLookup), false;
      }
      if Before(RemoveTemp) in failing {
        return Some(RemoveTemp), true;
      }
      temp := None;
      if Before(Chown) in failing {
        return Some(Chown), false;
      }
      if Before(InitDb) in failing {
        // initdb may have left something behind
        var part: Option<Tree> := *;
        temp := part;
        return Some(InitDb), true;
      }
      temp := Some(image.cluster);
      exit := CopyConfigs(image, failing);
      if exit.Some? {
        return exit, false;
      }
      ghost var configured := temp.value;
      FirstOf(failing, AFTER_CONFIGS);
      ok := RestoreOldPostgresBinaries(failing);
      if !ok {
        return Some(RestoreBinaries), false;
      }
      if TopOnly(data.value) && !IsSaved(name) {
        CopiedIsPrepared(tools, data.value, image, configured, temp.value);
      }
      if Before(BinDir) in failing {
        return Some(BinDir), false;
      }
      if Before(TimescaleDB) in failing {
        return Some(TimescaleDB), false;
      }
    }

    /** The old configuration replaces that of the new cluster. */
    method CopyConfigs(image: Image, failing: set<Step>) returns (exit: Option<Exit>)
      requires data.Some? && ValidImage(tools, image) && temp == Some(image.cluster)
      modifies `temp
      ensures exit == Configuring(failing, data.value, CONFIGS)
      ensures exit.Some? ==> exit.value == ReadConfig || exit.value == WriteConfig
      ensures temp.Some? && NothingSaved(temp.value) && VersionAt(tools, temp.value) == Some(image.major)
      ensures exit.None? ==> HasConfigs(data.value) && SameAt(data.value, temp.value, [HBA_CONF])
                             && SameAt(data.value, temp.value, [POSTGRESQL_CONF])
    {
      ConfigNames();
      var configs := CONFIGS;
      assert configs[0..] == configs;
      for i := 0 to |configs|
        invariant temp.Some? && VersionAt(tools, temp.value) == Some(image.major) && NothingSaved(temp.value)
        invariant Configuring(failing, data.value, CONFIGS) == Configuring(failing, data.value, configs[i..])
        invariant forall j :: 0 <= j < i ==>
                    SameAt(data.value, temp.value, [configs[j]]) && IsFile(data.value, [configs[j]])
      {
        var config := configs[i];
        assert configs[i..][0] == config && configs[i..][1..] == configs[i + 1..];
        if Config(config, false) in failing || !IsFile(data.value, [config]) {
          return Some(ReadConfig);
        }
        if Config(config, true) in failing {
          return Some(WriteConfig);
        }
        ConfigWritten(tools, data.value, temp.value, config);
        temp := Some(temp.value[[config] := data.value[[config]]]);
      }
      assert IsFile(data.value, [configs[0]]) && IsFile(data.value, [configs[1]]);
      assert SameAt(data.value, temp.value, [configs[0]]) && SameAt(data.value, temp.value, [configs[1]]);
      return None;
    }

    /** Upgrade, whichever steps fail: the return is the one that the data and they decide. Before pg_upgrade is run
        the data directory does not change outside the running version's saved binaries, and an error is returned
        exactly at the early errors. pg_upgrade is run only for a strictly newer version and with saved binaries of
        exactly the old one. A nil return after it means a complete replacement. With no step failing, a data
        directory that is ready ends at the running version. */
    method Upgrade(image: Image, failing: set<Step>) returns (ok: bool, ghost exit: Exit)
      requires ValidImage(tools, image) && !IsSaved(name)
      modifies this
      ensures exit == Verdict(tools, failing, old(data), image)
      ensures Possible(old(data), data, ok) && (data.None? && old(data).Some? ==> exit.Rename?)
      ensures ok <==> if Ran(exit) then exit.Swapped? else !EarlyError(exit)
      ensures !Ran(exit) ==> (data.Some? <==> old(data).Some?)
      ensures !Ran(exit) && data.Some? ==>
                Without(data.value, [BinName(image.major)]) == Without(old(data).value, [BinName(image.major)])
      ensures ok && Ran(exit) && TopOnly(old(data).value) ==>
                data.Some? && temp.None? && Started(tools, old(data).value, image, data.value)
      ensures failing == {} && old(data).Some? && Ready(tools, old(data).value, image) ==>
                ok && data.Some? && Started(tools, old(data).value, image, data.value)
    {
      if data.None? || [PG_VERSION] !in data.value {
        return true, NoVersionFile;
      }
      ghost var before := data.value;
      ok := CopyPostgresBinaries(image, true, failing);
      if !ok {
        return false, SavingBinaries;
      }
      SavingDecidesNothing(tools, failing, before, image);
      ok, exit := UpgradeSaved(image, failing);
      if ok && Ran(exit) && TopOnly(before) {
        MigratedIsStarted(tools, before, image, data.value);
      }
      if failing == {} && Ready(tools, before, image) {
        ReadyVerdict(tools, before, image);
        if exit.SameVersion? {
          SavedIsStarted(tools, before, image);
        }
      }
    }

    /** Upgrade once the running binaries are saved. */
    method UpgradeSaved(image: Image, failing: set<Step>) returns (ok: bool, ghost exit: Exit)
      requires data.Some? && [PG_VERSION] in data.value && ValidImage(tools, image) && !IsSaved(name)
      modifies this
      ensures exit == Resulting(tools, failing, old(data).value, image)
      ensures ok <==> if Ran(exit) then exit.Swapped? else !EarlyError(exit)
      ensures if Ran(exit) then data.None? ==> exit.Rename? else data == old(data)
      ensures ok && Ran(exit) ==>
                data.Some? && temp.None?
                && (TopOnly(old(data).value) ==> Migrated(tools, old(data).value, image, data.value))
    {
      ghost var found := data.value;
      DecidingEnds(tools, failing, found, image);
      var early, v;
      early, ok, v := Decide(image, failing);
      if early.Some? {
        return ok, early.value;
      }
      PreparationEnds(failing, found);
      early, ok := Prepare(image, failing);
      if early.Some? {
        return ok, early.value;
      }
      ghost var cluster := temp.value;
      ok, exit := MigrateAndSwap(failing);
      if ok && TopOnly(found) {
        assert Prepared(tools, found, image, cluster) && Kept(cluster, data.value);
      }
    }

    /** pg_upgrade and the exchange of the directories: success puts the migrated cluster in place. */
    method MigrateAndSwap(failing: set<Step>) returns (ok: bool, ghost exit: Exit)
      requires temp.Some?
      modifies this
      ensures exit == Swapping(failing) && Ran(exit) && (ok <==> exit.Swapped?)
      ensures ok ==> data.Some? && temp.None? && Kept(old(temp).value, data.value)
      ensures data.None? <==> exit.Rename?
    {
      FirstOf(failing, SWAPPING);
      // pg_upgrade links files: the old directory is not usable as it was
      var rest, used: Tree := *, *;
      MigrateKeeps(temp.value, rest);
      temp, data := Some(Migrate(temp.value, rest)), Some(used);
      if Before(PgUpgrade) in failing {
        return false, PgUpgrade;
      }
      if Before(RemoveOld) in failing {
        return false, RemoveOld;
      }
      data := None;
      if Before(Rename) in failing {
        return false, Rename;
      }
      data, temp := temp, None;
      return true, Swapped;
    }

    /** One start of the container with its record; the database runs when it goes ahead. */
    method RunStart(image: Image, failing: set<Step>) returns (ghost l: Life)
      requires data.Some? && !IsSaved(name) && ValidImage(tools, image)
      modifies this
      ensures l.image == image && l.found == old(data).value
      ensures failing == {} ==> Fits(tools, l) && data.Some? && Lived(l.left, data.value)
    {
      ghost var found := data.value;
      var ok;
      ghost var exit;
      NothingIsLost(tools, data, image);
      ok, exit := Upgrade(image, failing);
      l := Life(image, found, if data.Some? then data.value else found);
      if ok && data.Some? {
        var rest: Tree := *;
        MigrateKeeps(data.value, rest);
        data := Some(Migrate(data.value, rest));
      }
    }

    /** Any number of starts with images of non-decreasing versions: the record up to the first failing step is one of
        Starts, and so what UpgradeChain says of it; with no step failing it is the record of all of them. */
    method RunStarts(images: seq<Image>, failing: seq<set<Step>>) returns (ghost lives: seq<Life>)
      requires data.Some? && !IsSaved(name) && Ordered(tools, images) && |failing| == |images|
      modifies this
      ensures Recorded(tools, images, old(data).value, lives)
      ensures |lives| == UntilFailing(failing)
      ensures lives != [] && Ready(tools, lives[0].found, lives[0].image) ==> Chained(tools, lives)
    {
      ghost var first, clean := data.value, true;
      lives := [];
      var i := 0;
      while i < |images| && data.Some?
        invariant i <= |images| && |lives| <= i && Recorded(tools, images, first, lives)
        invariant clean ==> |lives| == i && data.Some? && Current(lives, first, data.value)
        invariant if clean then i <= UntilFailing(failing) else |lives| == UntilFailing(failing)
      {
        if clean {
          UntilFailingAt(failing, i);
        }
        clean := clean && failing[i] == {};
        ghost var l;
        l := RunStart(images[i], failing[i]);
        if clean {
          RecordMore(tools, images, first, lives, l);
          lives := lives + [l];
        }
        i := i + 1;
      }
      UpgradeChain(tools, lives);
    }
  }

  /** The number of starts before the first one in which a step fails. */
  function UntilFailing(failing: seq<set<Step>>): (n: nat)
    ensures n <= |failing|
  {
    if failing == [] || failing[0] != {} then 0 else 1 + UntilFailing(failing[1..])
  }

  lemma {:induction false} UntilFailingAt(failing: seq<set<Step>>, i: nat)
    requires i < |failing| && i <= UntilFailing(failing)
    ensures if failing[i] == {} then i < UntilFailing(failing) else i == UntilFailing(failing)
  {
    if i > 0 {
      UntilFailingAt(failing[1..], i - 1);
    }
  }

  lemma {:induction false} AllUntilFailing(failing: seq<set<Step>>)
    ensures UntilFailing(failing) == |failing| <==> forall j :: 0 <= j < |failing| ==> failing[j] == {}
  {
    if failing != [] {
      var rest := failing[1..];
      AllUntilFailing(rest);
      assert forall j :: 0 <= j < |rest| ==> rest[j] == failing[j + 1];
      assert forall j :: 1 <= j < |failing| ==> failing[j] == rest[j - 1];
    }
  }

  /** The unfolded choice. */
  lemma FirstOf(failing: set<Step>, exits: seq<Exit>)
    requires |exits| == 3 || |exits| == 4
    ensures FirstFailing(failing, exits)
            == if Before(exits[0]) in failing then Some(exits[0])
               else if Before(exits[1]) in failing then Some(exits[1])
               else if Before(exits[2]) in failing then Some(exits[2])
               else if |exits| == 4 && Before(exits[3]) in failing then Some(exits[3])
               else None
  {
    assert exits[0..] == exits;
    FirstFrom(failing, exits, 0);
    FirstFrom(failing, exits, 1);
    FirstFrom(failing, exits, 2);
    FirstFrom(failing, exits, 3);
  }

  lemma FirstFrom(failing: set<Step>, exits: seq<Exit>, k: nat)
    requires k <= |exits|
    ensures FirstFailing(failing, exits[k..])
            == if k == |exits| then None
               else if Before(exits[k]) in failing then Some(exits[k])
               else FirstFailing(failing, exits[k + 1..])
  {
    if k < |exits| {
      assert exits[k..][0] == exits[k] && exits[k..][1..] == exits[k + 1..];
    }
  }

  lemma DecidingEnds(tools: Tools, failing: set<Step>, t: Tree, image: Image)
    ensures var exit := Deciding(tools, failing, t, image);
            exit.Some? ==> !Ran(exit.value) && (EarlyError(exit.value) <==> exit == Some(NewerDatabase))
  {
  }

  lemma PreparationEnds(failing: set<Step>, t: Tree)
    ensures var exit := Preparation(failing, t);
            exit.Some? ==> Preparing(exit.value)
  {
    FirstOf(failing, BEFORE_CONFIGS);
    FirstOf(failing, AFTER_CONFIGS);
    TwoConfigs(failing, t);
  }

  lemma TwoConfigs(failing: set<Step>, t: Tree)
    ensures Configuring(failing, t, CONFIGS)
            == if Config(HBA_CONF, false) in failing || !IsFile(t, [HBA_CONF]) then Some(ReadConfig)
               else if Config(HBA_CONF, true) in failing then Some(WriteConfig)
               else if Config(POSTGRESQL_CONF, false) in failing || !IsFile(t, [POSTGRESQL_CONF]) then Some(ReadConfig)
               else if Config(POSTGRESQL_CONF, true) in failing then Some(WriteConfig)
               else None
  {
    var second := [POSTGRESQL_CONF];
    assert CONFIGS[0] == HBA_CONF && CONFIGS[1..] == second;
    assert second[1..] == [] && Configuring(failing, t, []) == None;
    assert Configuring(failing, t, CONFIGS)
           == if Config(HBA_CONF, false) in failing || !IsFile(t, [HBA_CONF]) then Some(ReadConfig)
              else if Config(HBA_CONF, true) in failing then Some(WriteConfig)
              else Configuring(failing, t, second);
  }

  lemma NothingFails(t: Tree)
    ensures Preparation({}, t) == if HasConfigs(t) then None else Some(ReadConfig)
    ensures Swapping({}) == Swapped
  {
    FirstOf({}, BEFORE_CONFIGS);
    FirstOf({}, AFTER_CONFIGS);
    FirstOf({}, SWAPPING);
    TwoConfigs({}, t);
  }

  lemma NothingIsLost(tools: Tools, data: Option<Tree>, image: Image)
    ensures !Verdict(tools, {}, data, image).Rename?
  {
    if data.Some? {
      NothingFails(data.value);
    }
  }

  /** Every return is explained by the data, whichever steps fail. */
  lemma VerdictExplained(tools: Tools, failing: set<Step>, data: Option<Tree>, image: Image)
    ensures Explained(tools, data, image, Verdict(tools, failing, data, image))
  {
    if data.Some? {
      PreparationEnds(failing, data.value);
      FirstOf(failing, SWAPPING);
    }
  }

  /** With no step failing an upgrade is made exactly from an older version whose binaries are saved and whose
      configuration is there. */
  lemma SwappedExactly(tools: Tools, t: Tree, image: Image)
    requires [PG_VERSION] in t
    ensures Verdict(tools, {}, Some(t), image) == Swapped <==>
              Older(tools, t, image) && HasBinaries(tools, t, VersionAt(tools, t).value) && HasConfigs(t)
  {
    NothingFails(t);
  }

  /** And it is not made, or not finished, with any of its steps failing. */
  lemma FailingStepStops(tools: Tools, failing: set<Step>, t: Tree, image: Image, exit: Exit)
    requires [PG_VERSION] in t && Before(exit) in failing && Preparing(exit)
    requires exit != ReadConfig && exit != WriteConfig
    ensures !Ran(Verdict(tools, failing, Some(t), image))
  {
    FirstOf(failing, BEFORE_CONFIGS);
    FirstOf(failing, AFTER_CONFIGS);
    PreparationEnds(failing, t);
    DecidingEnds(tools, failing, t, image);
  }

  /** The returns between the decision and pg_upgrade. */
  predicate Preparing(exit: Exit) {
    exit in {UserLookup, RemoveTemp, Chown, InitDb, ReadConfig, WriteConfig, RestoreBinaries, BinDir, TimescaleDB}
  }

  ghost predicate Prepared(tools: Tools, data: Tree, image: Image, temp: Tree) {
    && VersionAt(tools, temp) == Some(image.major)
    && SameAt(data, temp, [HBA_CONF]) && SameAt(data, temp, [POSTGRESQL_CONF])
    && (forall n :: IsSaved(n) && [n] in data ==> Below(temp, [n]) == Below(data, [n]))
    && TopOnly(temp)
  }

  lemma NoneSavedBelow(t: Tree, n: string)
    requires NothingSaved(t) && IsSaved(n)
    ensures Below(t, [n]) == map[]
  {
    var b := Below(t, [n]);
    forall q ensures q !in b {
      InBelow(t, [n], q);
      assert ([n] + q)[0] == n;
    }
    assert b.Keys == {};
  }

  lemma ConfigWritten(tools: Tools, data: Tree, temp: Tree, config: string)
    requires config == HBA_CONF || config == POSTGRESQL_CONF
    requires NothingSaved(temp) && [config] in data
    ensures var r := temp[[config] := data[[config]]];
            && NothingSaved(r) && VersionAt(tools, r) == VersionAt(tools, temp) && SameAt(data, r, [config])
            && forall other :: other != config ==> SameAt(temp, r, [other])
  {
    ConfigNames();
    var r := temp[[config] := data[[config]]];
    assert [config][0] == config && [PG_VERSION][0] == PG_VERSION;
    forall other | other != config ensures SameAt(temp, r, [other]) {
      assert [other][0] == other;
    }
  }

  lemma CopiedIsPrepared(tools: Tools, data: Tree, image: Image, cluster: Tree, temp: Tree)
    requires SavedCopied(cluster, data, temp, {}) && NothingSaved(cluster)
    requires VersionAt(tools, cluster) == Some(image.major)
    requires SameAt(data, cluster, [HBA_CONF]) && SameAt(data, cluster, [POSTGRESQL_CONF])
    ensures Prepared(tools, data, image, temp)
  {
    ConfigNames();
    assert CopiedAt(cluster, data, temp, {}, PG_VERSION);
    assert CopiedAt(cluster, data, temp, {}, HBA_CONF);
    assert CopiedAt(cluster, data, temp, {}, POSTGRESQL_CONF);
    assert VersionAt(tools, temp) == Some(image.major);
    forall n | IsSaved(n) && [n] in data ensures Below(temp, [n]) == Below(data, [n]) {
      CopiedOver(cluster, data, temp, n);
    }
    assert TopOnly(cluster);
  }

  lemma CopiedOver(cluster: Tree, data: Tree, temp: Tree, n: string)
    requires SavedCopied(cluster, data, temp, {}) && NothingSaved(cluster) && IsSaved(n) && [n] in data
    ensures Below(temp, [n]) == Below(data, [n])
  {
    assert CopiedAt(cluster, data, temp, {}, n);
    NoneSavedBelow(cluster, n);
    assert map[] + Below(data, [n]) == Below(data, [n]);
  }

  predicate AnySaved(x: Path) {
    exists k :: 0 <= k < |x| && IsSaved(x[k])
  }

  predicate AtProtected(x: Path) {
    x != [] && Protected(x[0])
  }

  /** What pg_upgrade makes of the new cluster: anything, except for the protected entries. */
  function Migrate(t: Tree, rest: Tree): Tree {
    (map x | x in t && AtProtected(x) :: t[x]) + (map x | x in rest && !AtProtected(x) && !AnySaved(x) :: rest[x])
  }

  lemma MigrateKeeps(t: Tree, rest: Tree)
    ensures Kept(t, Migrate(t, rest))
  {
    var m := Migrate(t, rest);
    forall x | x != [] && Protected(x[0]) ensures SameAt(t, m, x) {
      assert AtProtected(x);
    }
    forall x, k | TopOnly(t) && x in m && 1 <= k < |x| ensures !IsSaved(x[k]) {
      if x in t && AtProtected(x) {
        assert !IsSaved(x[k]);
      } else {
        assert !AnySaved(x);
      }
    }
  }

  /** Saving the running binaries keeps the version and every other name. */
  lemma SavedBins(tools: Tools, t: Tree, image: Image)
    requires ValidImage(tools, image)
    ensures var r := WithBins(t, image);
            && VersionAt(tools, r) == VersionAt(tools, t)
            && SameAt(t, r, [HBA_CONF]) && SameAt(t, r, [POSTGRESQL_CONF])
            && (TopOnly(t) ==> TopOnly(r))
            && (forall n :: n != BinName(image.major) ==> Below(r, [n]) == Below(t, [n]) && SameAt(t, r, [n]))
            && Below(r, [BinName(image.major)]) == image.bins && [BinName(image.major)] in r
  {
    var bin := BinName(image.major);
    ConfigNames();
    BinNames(image.major, image.major);
    WithBinsEffect(tools, t, image);
    assert SameAt(t, WithBins(t, image), [PG_VERSION]);
    InBelow(WithBins(t, image), [bin], []);
    assert [bin] + [] == [bin];
  }

  lemma SavedIsStarted(tools: Tools, t: Tree, image: Image)
    requires ValidImage(tools, image) && VersionAt(tools, t) == Some(image.major) && TopOnly(t)
    ensures Started(tools, t, image, WithBins(t, image))
  {
    SavedBins(tools, t, image);
  }

  lemma OtherBinaries(tools: Tools, t: Tree, image: Image, v: int)
    requires ValidImage(tools, image) && v != image.major
    ensures IsFile(WithBins(t, image), [BinName(v), PG_CONFIG]) <==> IsFile(t, [BinName(v), PG_CONFIG])
    ensures Below(WithBins(t, image), [BinName(v)]) == Below(t, [BinName(v)])
  {
    var r := WithBins(t, image);
    BinNames(v, image.major);
    SavedBins(tools, t, image);
    InBelow(t, [BinName(v)], [PG_CONFIG]);
    InBelow(r, [BinName(v)], [PG_CONFIG]);
    assert [BinName(v)] + [PG_CONFIG] == [BinName(v), PG_CONFIG];
  }

  /** Two directories look the same to every decision. */
  predicate SameForDecisions(tools: Tools, a: Tree, b: Tree, image: Image) {
    && ([PG_VERSION] in a <==> [PG_VERSION] in b) && VersionAt(tools, a) == VersionAt(tools, b)
    && (IsFile(a, [HBA_CONF]) <==> IsFile(b, [HBA_CONF]))
    && (IsFile(a, [POSTGRESQL_CONF]) <==> IsFile(b, [POSTGRESQL_CONF]))
    && (VersionAt(tools, a).Some? && VersionAt(tools, a).value != image.major ==>
          var bin := BinName(VersionAt(tools, a).value);
          && (IsFile(a, [bin, PG_CONFIG]) <==> IsFile(b, [bin, PG_CONFIG]))
          && Below(a, [bin]) == Below(b, [bin]))
  }

  lemma SameFacts(tools: Tools, t: Tree, image: Image)
    requires ValidImage(tools, image)
    ensures SameForDecisions(tools, t, WithBins(t, image), image)
  {
    ConfigNames();
    SavedBins(tools, t, image);
    BinNames(image.major, image.major);
    assert SameAt(t, WithBins(t, image), [PG_VERSION]);
    if VersionAt(tools, t).Some? && VersionAt(tools, t).value != image.major {
      OtherBinaries(tools, t, image, VersionAt(tools, t).value);
    }
  }

  lemma SameVerdict(tools: Tools, failing: set<Step>, a: Tree, b: Tree, image: Image)
    requires SameForDecisions(tools, a, b, image)
    ensures Resulting(tools, failing, a, image) == Resulting(tools, failing, b, image)
  {
    TwoConfigs(failing, a);
    TwoConfigs(failing, b);
    assert Deciding(tools, failing, a, image) == Deciding(tools, failing, b, image);
    assert Preparation(failing, a) == Preparation(failing, b);
  }

  /** Saving the running binaries leads to the same return. */
  lemma SavingDecidesNothing(tools: Tools, failing: set<Step>, t: Tree, image: Image)
    requires ValidImage(tools, image) && [PG_VERSION] in t
    ensures var r := WithBins(t, image);
            && [PG_VERSION] in r && (TopOnly(t) ==> TopOnly(r))
            && Resulting(tools, failing, r, image) == Resulting(tools, failing, t, image)
  {
    SavedBins(tools, t, image);
    SameFacts(tools, t, image);
    SameVerdict(tools, failing, t, WithBins(t, image), image);
  }

  /** What a prepared cluster can be migrated to. */
  ghost predicate Migrated(tools: Tools, saved: Tree, image: Image, after: Tree) {
    exists cluster :: Prepared(tools, saved, image, cluster) && Kept(cluster, after)
  }

  lemma MigratedIsStarted(tools: Tools, before: Tree, image: Image, after: Tree)
    requires ValidImage(tools, image) && TopOnly(before) && Migrated(tools, WithBins(before, image), image, after)
    ensures Started(tools, before, image, after)
  {
    var cluster :| Prepared(tools, WithBins(before, image), image, cluster) && Kept(cluster, after);
    SavedBins(tools, before, image);
    BinNames(image.major, image.major);
    KeptBelow(cluster, after, PG_VERSION);
    KeptBelow(cluster, after, HBA_CONF);
    KeptBelow(cluster, after, POSTGRESQL_CONF);
    KeptBelow(cluster, after, BinName(image.major));
    forall n | IsSaved(n) && [n] in before && n != BinName(image.major)
      ensures Below(after, [n]) == Below(before, [n])
    {
      KeptBelow(cluster, after, n);
      assert SameAt(before, WithBins(before, image), [n]);
    }
  }

  lemma ReadyVerdict(tools: Tools, t: Tree, image: Image)
    requires Ready(tools, t, image)
    ensures Verdict(tools, {}, Some(t), image)
            == if VersionAt(tools, t) == Some(image.major) then SameVersion else Swapped
  {
    NothingFails(t);
  }

  /** What a running database leaves alone between two starts. */
  ghost predicate Lived(a: Tree, b: Tree) {
    Kept(a, b)
  }

  /** After a successful start any image that is not older can start again. */
  lemma ReadyAgain(tools: Tools, before: Tree, image: Image, after: Tree, lived: Tree, next: Image)
    requires ValidImage(tools, image) && Started(tools, before, image, after) && Lived(after, lived)
    requires HasConfigs(before) && image.major <= next.major
    ensures Ready(tools, lived, next)
  {
    var bin := BinName(image.major);
    BinNames(image.major, image.major);
    KeptBelow(after, lived, PG_VERSION);
    KeptBelow(after, lived, HBA_CONF);
    KeptBelow(after, lived, POSTGRESQL_CONF);
    KeptBelow(after, lived, bin);
    InBelow(lived, [bin], [PG_CONFIG]);
    assert [bin] + [PG_CONFIG] == [bin, PG_CONFIG];
  }

  /** A container start: its image, and the data directory when Upgrade begins and when it has returned. */
  datatype Life = Life(image: Image, found: Tree, left: Tree)

  /** What a call of Upgrade has promised when no step fails. */
  ghost predicate Fits(tools: Tools, l: Life) {
    ValidImage(tools, l.image) && (Ready(tools, l.found, l.image) ==> Started(tools, l.found, l.image, l.left))
  }

  /** The next start: the image is not older, and the database has run in between. */
  ghost predicate FollowsOn(l: Life, next: Life) {
    l.image.major <= next.image.major && Lived(l.left, next.found)
  }

  function Last(lives: seq<Life>): Life
    requires lives != []
  {
    lives[|lives| - 1]
  }

  ghost predicate Starts(tools: Tools, lives: seq<Life>) {
    lives != [] ==>
      var init := lives[..|lives| - 1];
      Starts(tools, init) && Fits(tools, Last(lives)) && (init != [] ==> FollowsOn(Last(init), Last(lives)))
  }

  lemma StartsMore(tools: Tools, lives: seq<Life>, next: Life)
    requires Starts(tools, lives) && Fits(tools, next) && (lives != [] ==> FollowsOn(Last(lives), next))
    ensures Starts(tools, lives + [next])
  {
    assert (lives + [next])[..|lives|] == lives;
  }

  lemma {:induction false} StartsPrefix(tools: Tools, lives: seq<Life>, n: nat)
    requires Starts(tools, lives) && n <= |lives|
    ensures Starts(tools, lives[..n])
    decreases |lives|
  {
    if n < |lives| {
      var init := lives[..|lives| - 1];
      StartsPrefix(tools, init, n);
      assert init[..n] == lives[..n];
    } else {
      assert lives[..n] == lives;
    }
  }

  /** The saved binaries of one major version. */
  function Saved(t: Tree, major: nat): Tree {
    Below(t, [BinName(major)])
  }

  /** They are those of a start with that version. */
  ghost predicate SavedFrom(lives: seq<Life>, major: nat, bins: Tree) {
    lives != []
    && ((Last(lives).image.major == major && Last(lives).image.bins == bins)
        || SavedFrom(lives[..|lives| - 1], major, bins))
  }

  /** Saved binaries of another version go through the database's life and the next start unchanged. */
  lemma StartKeepsSaved(tools: Tools, previous: Life, next: Life, major: nat)
    requires Fits(tools, next) && Ready(tools, next.found, next.image) && FollowsOn(previous, next)
    requires [] in Saved(previous.left, major) && major != next.image.major
    ensures Saved(next.left, major) == Saved(previous.left, major)
  {
    var bin := BinName(major);
    BinNames(major, next.image.major);
    KeptBelow(previous.left, next.found, bin);
    InBelow(next.found, [bin], []);
    assert [bin] + [] == [bin];
  }

  /** Starts of which the first one found the directory ready. */
  ghost predicate ReadyStarts(tools: Tools, lives: seq<Life>) {
    lives != [] && Fits(tools, Last(lives))
    && var init := lives[..|lives| - 1];
       if init == [] then Ready(tools, Last(lives).found, Last(lives).image)
       else ReadyStarts(tools, init) && FollowsOn(Last(init), Last(lives))
  }

  lemma {:induction false} StartsReady(tools: Tools, lives: seq<Life>)
    requires lives != [] && Starts(tools, lives) && Ready(tools, lives[0].found, lives[0].image)
    ensures ReadyStarts(tools, lives)
  {
    var init := lives[..|lives| - 1];
    if init != [] {
      assert init[0] == lives[0];
      StartsReady(tools, init);
    }
  }

  lemma {:induction false} SavedIsDir(tools: Tools, lives: seq<Life>, major: nat, bins: Tree)
    requires ReadyStarts(tools, lives) && SavedFrom(lives, major, bins)
    ensures [] in bins
  {
    if !(Last(lives).image.major == major && Last(lives).image.bins == bins) {
      SavedIsDir(tools, lives[..|lives| - 1], major, bins);
    }
  }

  lemma {:induction false} ChainReady(tools: Tools, lives: seq<Life>)
    requires ReadyStarts(tools, lives)
    ensures ReadyAndStarted(tools, Last(lives))
  {
    var init := lives[..|lives| - 1];
    if init != [] {
      ChainReady(tools, init);
      FitsLast(tools, init);
      ReadyAgain(tools, Last(init).found, Last(init).image, Last(init).left, Last(lives).found, Last(lives).image);
    }
  }

  lemma FitsLast(tools: Tools, lives: seq<Life>)
    requires ReadyStarts(tools, lives)
    ensures Fits(tools, Last(lives))
  {
  }

  lemma LastSaved(tools: Tools, lives: seq<Life>)
    requires ReadyStarts(tools, lives)
    ensures var l := Last(lives);
            SavedFrom(lives, l.image.major, l.image.bins) && Saved(l.left, l.image.major) == l.image.bins
  {
    ChainReady(tools, lives);
  }

  lemma NextSaved(tools: Tools, lives: seq<Life>, major: nat, bins: Tree)
    requires |lives| > 1 && ReadyStarts(tools, lives)
    requires major != Last(lives).image.major && SavedFrom(lives[..|lives| - 1], major, bins)
    requires Saved(Last(lives[..|lives| - 1]).left, major) == bins
    ensures SavedFrom(lives, major, bins) && Saved(Last(lives).left, major) == bins
  {
    SavedIsDir(tools, lives[..|lives| - 1], major, bins);
    ChainReady(tools, lives);
    StartKeepsSaved(tools, Last(lives[..|lives| - 1]), Last(lives), major);
  }

  lemma {:induction false} ChainSaved(tools: Tools, lives: seq<Life>, i: nat, major: nat) returns (bins: Tree)
    requires i < |lives| && ReadyStarts(tools, lives) && lives[i].image.major == major
    ensures SavedFrom(lives, major, bins) && Saved(Last(lives).left, major) == bins
    decreases |lives|
  {
    if major == Last(lives).image.major {
      LastSaved(tools, lives);
      return Last(lives).image.bins;
    }
    bins := ChainSaved(tools, lives[..|lives| - 1], i, major);
    NextSaved(tools, lives, major, bins);
  }

  /** After start j, the binaries of the version of start i are saved as some start up to then has left them. */
  ghost predicate KeepsBinaries(lives: seq<Life>, i: nat, j: nat)
    requires i <= j < |lives|
  {
    SavedFrom(lives[..j + 1], lives[i].image.major, Saved(lives[j].left, lives[i].image.major))
  }

  /** Every start was ready and has started, with saved binaries of every version run so far. */
  ghost predicate Chained(tools: Tools, lives: seq<Life>) {
    && (forall j :: 0 <= j < |lives| ==> ReadyAndStarted(tools, lives[j]))
    && (forall i, j :: 0 <= i <= j < |lives| ==> KeepsBinaries(lives, i, j))
  }

  /** Upgrade chain: once the first start finds the data directory ready, every start does, and ends with the
      version of its own binaries and with saved binaries of every version run so far. */
  lemma UpgradeChain(tools: Tools, lives: seq<Life>)
    requires Starts(tools, lives)
    ensures lives != [] && Ready(tools, lives[0].found, lives[0].image) ==> Chained(tools, lives)
  {
    if lives != [] && Ready(tools, lives[0].found, lives[0].image) {
      ReadyChained(tools, lives);
    }
  }

  lemma ReadyChained(tools: Tools, lives: seq<Life>)
    requires lives != [] && Starts(tools, lives) && Ready(tools, lives[0].found, lives[0].image)
    ensures Chained(tools, lives)
  {
    forall j | 0 <= j < |lives| ensures ReadyAndStarted(tools, lives[j]) {
      PrefixReady(tools, lives, j);
      PrefixStarted(tools, lives, j);
    }
    forall i, j | 0 <= i <= j < |lives| ensures KeepsBinaries(lives, i, j) {
      PrefixReady(tools, lives, j);
      PrefixSaved(tools, lives, i, j);
    }
  }

  lemma PrefixReady(tools: Tools, lives: seq<Life>, j: nat)
    requires j < |lives| && Starts(tools, lives) && Ready(tools, lives[0].found, lives[0].image)
    ensures ReadyStarts(tools, lives[..j + 1])
  {
    StartsPrefix(tools, lives, j + 1);
    StartsReady(tools, lives[..j + 1]);
  }

  lemma PrefixStarted(tools: Tools, lives: seq<Life>, j: nat)
    requires j < |lives| && ReadyStarts(tools, lives[..j + 1])
    ensures ReadyAndStarted(tools, lives[j])
  {
    ChainReady(tools, lives[..j + 1]);
  }

  lemma PrefixSaved(tools: Tools, lives: seq<Life>, i: nat, j: nat)
    requires i <= j < |lives| && ReadyStarts(tools, lives[..j + 1])
    ensures KeepsBinaries(lives, i, j)
  {
    var bins := ChainSaved(tools, lives[..j + 1], i, lives[i].image.major);
  }

  ghost predicate ReadyAndStarted(tools: Tools, l: Life) {
    Ready(tools, l.found, l.image) && Started(tools, l.found, l.image, l.left)
  }

  /** A record of starts with the first of these images, from a data directory. */
  ghost predicate Recorded(tools: Tools, images: seq<Image>, first: Tree, lives: seq<Life>) {
    Starts(tools, lives) && FirstImages(images, lives) && (lives != [] ==> lives[0].found == first)
  }

  ghost predicate FirstImages(images: seq<Image>, lives: seq<Life>) {
    |lives| <= |images| && forall j :: 0 <= j < |lives| ==> lives[j].image == images[j]
  }

  lemma MoreImages(images: seq<Image>, lives: seq<Life>, next: Life)
    requires FirstImages(images, lives) && |lives| < |images| && next.image == images[|lives|]
    ensures FirstImages(images, lives + [next])
  {
  }

  lemma NextFollows(tools: Tools, images: seq<Image>, first: Tree, lives: seq<Life>, next: Life)
    requires lives != [] && FirstImages(images, lives) && |lives| < |images| && Ordered(tools, images)
    requires next.image == images[|lives|] && Current(lives, first, next.found)
    ensures FollowsOn(Last(lives), next)
  {
    assert Last(lives).image == images[|lives| - 1];
  }

  /** The data directory that the next start finds. */
  ghost predicate Current(lives: seq<Life>, first: Tree, data: Tree) {
    if lives == [] then data == first else Lived(Last(lives).left, data)
  }

  lemma RecordMore(tools: Tools, images: seq<Image>, first: Tree, lives: seq<Life>, next: Life)
    requires Recorded(tools, images, first, lives) && |lives| < |images| && Ordered(tools, images)
    requires next.image == images[|lives|] && Fits(tools, next) && Current(lives, first, next.found)
    ensures Recorded(tools, images, first, lives + [next])
  {
    MoreImages(images, lives, next);
    if lives != [] {
      NextFollows(tools, images, first, lives, next);
      assert (lives + [next])[0] == lives[0];
    }
    StartsMore(tools, lives, next);
  }

  ghost predicate Ordered(tools: Tools, images: seq<Image>) {
    && (forall j :: 0 <= j < |images| ==> ValidImage(tools, images[j]))
    && (forall i, j :: 0 <= i <= j < |images| ==> images[i].major <= images[j].major)
  }

  /** A database of version 15 under binaries of version 14: an early error. */
  lemma NewerDatabaseIsAnError() returns (tools: Tools, image: Image, data: Tree)
    ensures ValidImage(tools, image) && image.major == 14 && VersionAt(tools, data) == Some(15)
    ensures Verdict(tools, {}, Some(data), image) == NewerDatabase && EarlyError(NewerDatabase) && !Ran(NewerDatabase)
  {
    tools := Tools((s: seq<byte>) => if s == [0x31, 0x35] then Some(15) else Some(14), (t: Tree) => Some(14));
    image := Image(14, map[[] := Dir, [PG_CONFIG] := File([])], map[[] := Dir, [PG_VERSION] := File([0x31, 0x34])]);
    data := map[[] := Dir, [PG_VERSION] := File([0x31, 0x35])];
    ConfigNames();
    assert !IsSaved(PG_CONFIG) by {
      assert PG_CONFIG[2] == '_' && BIN_PREFIX[2] == '-';
    }
  }
}
