# Verified model of backup-restore-sidecar

A Dafny model of the sidecar's stateful parts and proofs about it. It covers the streaming encryption with its
trailing vector, directory copying, the ring of local backups, taking a backup alone and concurrently, restoring and
gating the start of the database, the shared-bucket lifecycle rules of GCP and S3, RethinkDB recovery against its
helper process, and the Postgres major upgrade.

Run `dafny verify dfyconfig.toml` to check the whole project.

## How it is modelled

- `FileTree`, `Os`: the disk is a map from paths to directories and files. Every call may fail at any point, every read
  may be short, and bytes may arrive together with the end of the file. A failing write leaves a prefix behind.
  `RemoveAll` and `MkdirAll` either happen or do not.
- Success is promised, too. A disk, a provider or a bucket that is `faultless` fails a call only where the state does not allow
  it, and an operation on it succeeds exactly under the condition its contract names. `Upgrade` of Postgres is given the set of
  the steps that fail, and its return is a function of that set and the data. State machines come with runs that arrive.
- Code that updates state is a class or a method with its loops, proved against functions on the old state. Concurrent
  code is a state machine over events; every sequence of events is a run, and an event that is not possible changes
  nothing, so that a lemma about all sequences is about every interleaving, crash and restart.
- The block cipher is an arbitrary function on blocks, and counter mode is that of section 6.5 of NIST SP 800-38A. The
  archive library is a pair of functions of which `Compress.Sound` says all that is assumed. Sorting promises an order
  and a permutation, and nothing about equal dates.
- `LocalProvider` keeps its backup directory apart from the disk of the other modules, and a modification time with
  every file.

## What the proofs show about the code

Some properties hold under a condition only. The condition is then proved to be exact or the failing case is exhibited.

- Encrypted and decrypted files are opened without truncation. The round trip is the identity if and only if nothing
  longer lay at either output (`Encryption.RoundTrip`). `Restore` removes the earlier encrypted download but not the
  earlier decrypted one, so a shorter archive restored after a longer one of the same name is not deciphered to itself
  (`EndToEnd.DecipheredIsArchive`).
- `CreateBackup` removes a prior archive inside the directory that holds the copied data. With the localfs database, a top-level
  entry of the data directory that is named like the archive is lost, and a restore gives the data back if and only if there is
  no such entry (`EndToEnd.StoredRecovers`, `EndToEnd.ArchiveNameIsLost`).
- The walk function of `CopyFS` ignores the error of a directory that cannot be listed and still returns nil. The copy is
  complete if and only if no directory with entries is unlistable (`Files.ReachedAll`).
- In a shared GCP bucket the lifecycle rule names the object prefix without a slash. The rule of a sidecar deletes versions of
  every sidecar whose prefix begins with its own, by its own number to keep (`GcpBucket.RuleTouches`,
  `GcpBucket.ShorterPrefixDeletes`). The S3 rule ends in a slash and is exact for prefixes without one
  (`S3Lifecycle.SharedBucket`), but with an empty object prefix it touches nothing (`S3Lifecycle.EmptyPrefixKeepsAll`).
- Both providers list by the prefix without a slash, so that a sidecar also lists, and may restore, the backups of those whose
  prefix begins with its own (`BucketObjects.ListsAnother`).
- A local upload that fails halfway leaves a torn file, which is then the latest version (`LocalProvider.TornIsLatest`). The
  slot counter starts again at 0 with every process, so that however many backups are to be kept, one backup, a restart and a
  torn upload leave no whole one (`LocalProvider.RestartThenTorn`; the exact rule is `LocalProvider.RetentionExactly`).
- The S3 provider goes on when reading the lifecycle configuration gives an error without output. A sidecar's rule
  survives if and only if no later run of another one did that (`S3Lifecycle.OwnRuleSurvives`).
- Restore requests are served while the sidecar boots. Start's Check can then meet what a request has written so far, and the
  database is started on it (`StartRuns.RequestDuringBoot`). The data is a whole backup, or what was there before, whatever
  the recoveries write, if and only if the restore that wrote last has returned nil undisturbed or has left an empty directory
  that it was to restore (`StartAlike.WholeExactlyWhenSettled`); anything else at DONE is the work of a request
  (`StartProtocol.UnsettledByRequest`).
- Backup requests are served then, too. With localfs, a backup of the empty directory can become the latest one before Start
  lists the backups (`StartRuns.BackupDuringBoot`), or take the place of the latest one between the listing and the
  download (`StartRuns.BackupBeforeDownload`). It is then restored although older backups hold data. Without restore
  requests, a fresh database is started over backups that hold data in exactly these two cases (`StartBackups.FreshExactly`).
- A backup taken while a recovery is under way stores what has been written so far, is then the latest one, and is restored
  as such (`StartRuns.PartIsRestored`). It is whole exactly when the data is at that moment (`StartBackups.CreatedBackups`).
- A manual restore after the initialization leaves the status at RESTORING for the rest of the process's life: the
  status is DONE exactly as long as no request has begun (`StartProtocol.DoneIsNotRegained`).
- RethinkDB's data directory is half-restored outside a recovery if and only if a removal of half-restored data has failed, or
  the pod was killed on such data inside Recover (`RethinkRecover.HalfRestoredExactly`).
- The recoveries of localfs and Postgres have no such cleanup: after a failed restore the next start keeps what was left if
  and only if anything was (`EndToEnd.FailedRestoreThenStart`, with `EndToEnd.HalfCopied` as an example). Over any number of
  lives without restore requests, DONE is reached on data that is not whole if and only if the last life to write a backup
  ended inside its own recovery with something neither empty nor whole (`StartLives.PartialExactly`).
- The comment at cmd/internal/database/contract.go:14-17 says that `Upgrade` returns no error as long as the old data is
  unmodified. Before pg_upgrade the code returns an error at exactly the nine exits of `PostgresUpgrade.EarlyError`, among
  them a database that is newer than the binaries (`PostgresUpgrade.NewerDatabaseIsAnError`); the model follows the code.

## Model

| member | source | states |
|---|---|---|
| Encryption.RoundTrip | cmd/internal/encryption/encryption.go:56-135 | deciphering what was enciphered gives the message back exactly when neither output file was longer than what is written to it |
| Encryption.LongerOutputBreaks | cmd/internal/encryption/encryption.go:152-154 | a longer old output, opened without truncation, breaks the round trip |
| Encryption.EncryptFile | cmd/internal/encryption/encryption.go:166-192 | for every schedule of short reads the output is counter mode of the whole input followed by the vector, over the old bytes; it succeeds when no call fails |
| Encryption.DecryptFile | cmd/internal/encryption/encryption.go:216-242 | the clamped chunks write exactly the message part of the input, never a byte of the trailer, and the loop ends; it succeeds when no call fails |
| Encryption.ReadIVAndMessageLength | cmd/internal/encryption/encryption.go:200-213 | the vector is the last block and the length the rest; shorter files are an error |
| Encryption.Encrypter.Encrypt | cmd/internal/encryption/encryption.go:56-93 | success leaves the sealed message under the suffixed name, with the input removed if it can be; a failure changes no other path, so the plaintext is intact; with no failing call but perhaps that removal, it succeeds exactly for a file with no directory at the output |
| Encryption.Encrypter.Decrypt | cmd/internal/encryption/encryption.go:97-135 | success leaves the deciphered bytes over the old output; a failure changes no other path; with no failing call but perhaps the removal of the input, it succeeds exactly for an encrypted file of at least one block with no directory at the output |
| Encryption.Encrypter.EncryptThenDecrypt | cmd/internal/encryption/encryption.go:56-135 | on the disk, both calls in a row restore the file exactly when the sealed path held nothing longer than message and vector |
| Encryption.SuffixRoundTrip | cmd/internal/encryption/encryption.go:97-103 | the extension test agrees with adding and removing the suffix |
| Encryption.ExtSuffix | cmd/internal/encryption/encryption.go:195-197 | the last extension is the suffix exactly when the name ends in it |
| Ctr.StreamIsCtrMode | cmd/internal/encryption/encryption.go:166-192 | the byte stream equals the standard's block-wise counter mode of the whole text |
| Ctr.IncrementAddsOne | cmd/internal/encryption/encryption.go:168-168 | the next counter block stands for one more, modulo 2^128, most significant byte first |
| Ctr.CounterIs | cmd/internal/encryption/encryption.go:168-173 | the j-th counter block is the one block that stands for the vector plus j |
| Ctr.CountersDistinct | cmd/internal/encryption/encryption.go:168-173 | the first 2^128 counter blocks are pairwise different |
| Ctr.StreamConcat | cmd/internal/encryption/encryption.go:170-177 | chunks combine to the whole when the position is carried on |
| Ctr.StreamTwice | cmd/internal/encryption/encryption.go:216-242 | the stream undoes itself |
| Files.IsEmpty | cmd/internal/utils/files.go:16-29 | empty exactly when nothing lies below the directory; an error only for a failing call or a missing directory |
| Files.RemoveContents | cmd/internal/utils/files.go:32-51 | success leaves the directory there and empty; nothing outside changes in any case; with no failing call it succeeds exactly for a directory |
| Files.CopyFS | cmd/internal/utils/files.go:91-124 | the reached part of the source is written over the target for every order that visits directories first; nothing outside changes; with no failing call it succeeds exactly when the source is a directory, the target can be made, and no entry meets one of the other type |
| Files.CopyEntries | cmd/internal/utils/files.go:92-123 | success lays the whole source over the directory; a failure stops at one entry whose directory has been copied, as that of every entry copied so far, and nothing else has changed |
| Files.ReachedAll | cmd/internal/utils/files.go:92-99 | a copy is complete exactly when no directory with entries is unlistable |
| Files.UnlistableIsLost | cmd/internal/utils/files.go:92-99 | a file below an unlistable directory is missing from the copy |
| Files.ReplaceContents | cmd/internal/database/localfs/localfs.go:58-69 | clearing and copying makes the target equal to what was reached of the source, whatever it held; with no failing call it succeeds exactly when both are directories |
| LocalFs.LocalFS.Backup | cmd/internal/database/localfs/localfs.go:40-55 | the backup directory becomes a copy of the data directory; nothing else changes; with no failing call it succeeds exactly when there is a data directory and no file in the way |
| LocalFs.LocalFS.Recover | cmd/internal/database/localfs/localfs.go:58-69 | the data directory becomes a copy of the restore directory; nothing else changes |
| LocalFs.LocalFS.Check | cmd/internal/database/localfs/localfs.go:26-37 | a restore is needed exactly when the data directory is empty |
| Compress.Compressor.Compress | cmd/internal/compress/compress.go:35-38 | a new file holds the archive of the backup directory without itself; only that path changes; with no failing call it succeeds exactly when there is none yet and its directory is there |
| Compress.Compressor.Decompress | cmd/internal/compress/compress.go:41-43 | the archive, in the format its file name says, is laid out next to the restore directory; nothing outside the download directory changes; with no failing call it succeeds exactly for an archive that overwrites no file |
| Compress.FormatOfName | cmd/internal/compress/compress.go:21-30 | every configured extension is recognised at the end of a name and is not the encryption suffix |
| Versions.Sort | cmd/internal/backup/providers/common/common.go:11-15 | newest first, same entries |
| Versions.Latest | cmd/internal/backup/providers/common/common.go:18-24 | none for an empty list, else an entry no other is newer than |
| Versions.Get | cmd/internal/backup/providers/common/common.go:27-34 | the first entry of that version, or an error when there is none |
| Versions.GetListed | cmd/internal/backup/providers/common/common.go:27-34 | in a list of distinct versions, lookup of a listed version gives that entry |
| Versions.OrderUnique | cmd/internal/backup/providers/common/common.go:11-15 | with different dates there is only one such order |
| LocalProvider.List | cmd/internal/backup/providers/local/versions.go:19-36 | a date-descending permutation of the files, numbered from 0 |
| LocalProvider.ListingVersionsDistinct | cmd/internal/backup/providers/local/versions.go:31-40 | listed versions are pairwise different, so that lookup finds each |
| LocalProvider.BackupProviderLocal.GetNextBackupName | cmd/internal/backup/providers/local/local.go:135-141 | hands out the current slot number and moves on around the ring |
| LocalProvider.BackupProviderLocal.UploadBackup | cmd/internal/backup/providers/local/local.go:115-132 | success stores everything in the slot named last; a failure leaves the directory alone or a prefix there; it succeeds when no call fails |
| LocalProvider.BackupProviderLocal.DownloadBackup | cmd/internal/backup/providers/local/local.go:94-112 | success writes exactly the stored bytes of that name, a failure nothing or a prefix of them; with no failing call it succeeds exactly for a stored name |
| LocalProvider.BackupProviderLocal.ListBackups | cmd/internal/backup/providers/local/local.go:144-171 | every file of the directory once, with its modification time; it succeeds when no call fails |
| LocalProvider.Retention | cmd/internal/backup/providers/local/local.go:116-141 | a stored backup stays byte for byte, whatever fails in between, until the n-th following attempt reaches its file |
| LocalProvider.RetentionExactly | cmd/internal/backup/providers/local/local.go:67-141 | over any attempts and restarts it stays until, and only until, an attempt that gets to its file has its slot |
| LocalProvider.RestartThenTorn | cmd/internal/backup/providers/local/local.go:67-72 | one backup, a restart and a torn upload leave no whole backup, whatever the number to keep |
| LocalProvider.ListsLastN | cmd/internal/backup/providers/local/versions.go:19-36 | after k uploads any listing is exactly the last min(k, n), newest first, version i the i-th newest, with their bytes |
| LocalProvider.LatestOverRestarts | cmd/internal/backup/providers/local/local.go:67-72 | across restarts and failures at most n files, and the first listed is the last file an attempt has reached |
| LocalProvider.TornIsLatest | cmd/internal/backup/providers/local/local.go:121-131 | after a torn upload the torn file is listed first |
| Decimal.ParseFormat | cmd/internal/backup/providers/gcp/gcp.go:178-182 | every int64 survives printing and parsing |
| Decimal.FormatInjective | cmd/internal/backup/providers/local/local.go:136-136 | different numbers print differently |
| Decimal.FormatDigits | cmd/internal/backup/providers/local/versions.go:32-32 | what is printed are the decimal digits, the most significant one first and not zero |
| Backup.Backuper.CreateBackup | cmd/internal/backup/backup.go:82-146 | a second call is refused and changes nothing; every other exit frees the semaphore; success stores in the slot taken the archive of the copied data directory; with no failing call it succeeds exactly when the semaphore is free, there is a data directory, and nothing is in the way |
| Backup.Backuper.RunBackup | cmd/internal/backup/backup.go:88-145 | the steps under the semaphore: a failure leaves the ring as after no, a skipped or a torn attempt |
| Backup.Backuper.BuildArchive | cmd/internal/backup/backup.go:98-125 | the file to upload holds the archive of the copied tree, sealed when a key is configured |
| BackupProtocol.EveryInterleaving | cmd/internal/backup/backup.go:82-146 | for any number of concurrent callers every upload goes to its caller's own slot with its caller's own snapshot, the ring is a sequential run of the attempts, and the semaphore is held exactly while one caller is inside |
| BackupProtocol.StepKeeps | cmd/internal/backup/backup.go:82-131 | each step of each caller keeps that |
| BackupProtocol.Leaves | cmd/internal/backup/backup.go:83-92 | from every reachable state a caller that fails inside gets out and leaves the semaphore free and the provider as it was |
| BackupProtocol.Releases | cmd/internal/backup/backup.go:86-86 | so does one that has finished |
| BackupProtocol.GetsIn | cmd/internal/backup/backup.go:83-88 | when the semaphore is free any caller gets in, otherwise nobody |
| BackupProtocol.BackupSucceeds | cmd/internal/backup/backup.go:82-145 | from every reachable state with nobody inside, an undisturbed backup adds exactly one upload, of its snapshot in the slot that is next, and leaves nobody inside |
| BackupProtocol.TearsUpload | cmd/internal/backup/backup.go:127-131 | an upload that breaks off leaves a torn file in the slot |
| Initializer.Initializer.Stage | cmd/internal/initializer/initializer.go:196-244 | clean, download, decipher and unpack leave the recovered tree in the restore directory and touch downloads only; with no failing call they succeed exactly for a stored archive of the backup directory with nothing in the way |
| Initializer.Initializer.Restore | cmd/internal/initializer/initializer.go:190-253 | success leaves in the data directory what was recovered of the version's bytes; until the database recovers, failures leave the data as it was; with no failing call it succeeds exactly if the version recovers and there is a data directory |
| Initializer.Initializer.Initialize | cmd/internal/initializer/initializer.go:126-187 | success is justified: data kept, or for an empty directory no backup at all or the latest one restored; existing data is unchanged on every exit; with no failing call data is kept, no backup means a fresh database, and otherwise success means exactly that the latest backup recovers and can be deciphered |
| Initializer.Initializer.Start | cmd/internal/initializer/initializer.go:106-124 | status DONE exactly on success, and then no existing backup was passed over for an empty data directory; existing data is unchanged on every exit; with no failing call DONE is reached exactly as for initialize |
| Initializer.LatestListed | cmd/internal/initializer/initializer.go:164-173 | the entry chosen from a listing is one that no file of the provider is newer than |
| EndToEnd.StoredRecovers | cmd/internal/initializer/initializer.go:190-253 | what CreateBackup stored recovers, under any later compression and with encryption kept or switched on, to the copied tree exactly when that has no entry named like the archive |
| EndToEnd.DecipheredIsArchive | cmd/internal/initializer/initializer.go:210-238 | the deciphered download is the archive exactly when nothing longer was in the way |
| EndToEnd.ArchiveNameIsLost | cmd/internal/backup/backup.go:98-104 | a file named like the archive is missing after the restore |
| EndToEnd.BackupChangeRestore | cmd/internal/initializer/initializer.go:190-253 | backup, any change of the data, and a restore by a process of other configuration give the old data back exactly when nothing got lost on the way; with no failing call they succeed exactly when nothing is in the way of the backup and the download |
| EndToEnd.BackupLossStart | cmd/internal/initializer/initializer.go:106-187 | after a backup and the loss of the data, the next start brings the data back by itself, exactly when nothing got lost on the way; with no failing call it succeeds exactly when nothing is in the way |
| EndToEnd.CameBack | cmd/internal/utils/files.go:91-124 | nothing gets lost exactly when there is no top-level entry named like the archive and no directory with entries is unlistable, at the backup or at the restore |
| EndToEnd.FailedRestoreThenStart | cmd/internal/initializer/initializer.go:152-186 | after a failed restore the next successful start keeps what was left exactly when anything was, and otherwise restores exactly when there is a backup |
| EndToEnd.HalfCopied | cmd/internal/database/localfs/localfs.go:58-69 | a copy that fails at the second of two files leaves something that is neither empty nor the whole |
| GcpVersions.List | cmd/internal/backup/providers/gcp/versions.go:19-38 | a date-descending permutation of one version for each generation |
| GcpVersions.ListedDistinct | cmd/internal/backup/providers/gcp/versions.go:40-42 | listed versions are pairwise different, so that lookup finds each |
| GcpVersions.ListedParses | cmd/internal/backup/providers/gcp/gcp.go:178-188 | the version of a listed entry parses back to the generation of that object |
| GcpVersions.AllListed | cmd/internal/backup/providers/gcp/versions.go:22-33 | no generation is left out |
| GcpBucket.RemoteBucket.MergeRule | cmd/internal/backup/providers/gcp/gcp.go:142-155 | the first rule naming the prefix is replaced, or the own rule appended |
| BucketObjects.DirectoryCovers | cmd/internal/backup/providers/s3/s3.go:220-222 | a prefix with a slash covers another sidecar's object exactly when that one's prefix is a directory in it |
| BucketObjects.PrefixCovers | cmd/internal/backup/providers/gcp/gcp.go:108-111 | without the slash, exactly when that one's prefix begins with it |
| BucketObjects.ListsAnother | cmd/internal/backup/providers/s3/s3.go:320-330 | a sidecar "db" lists the objects of a sidecar "db2" |
| GcpBucket.RemoteBucket.EnsureBackupBucket | cmd/internal/backup/providers/gcp/gcp.go:103-169 | with others updating in between, success means the bucket changed from its latest state to that state merged with the own rule; it succeeds when no request fails and nobody else updates |
| GcpBucket.OwnRuleDeletes | cmd/internal/backup/providers/gcp/gcp.go:107-115 | the own rule deletes exactly the versions with at least as many newer ones as are to be kept, of names that begin with the prefix |
| GcpBucket.RuleTouches | cmd/internal/backup/providers/gcp/gcp.go:108-111 | it touches another sidecar's object exactly when that one's prefix begins with the own one |
| GcpBucket.ShorterPrefixDeletes | cmd/internal/backup/providers/gcp/gcp.go:108-111 | two sidecars of which one's rule deletes what the other is to keep |
| GcpBucket.SharedBucket | cmd/internal/backup/providers/gcp/gcp.go:103-169 | under every interleaving in a bucket of their own, with prefixes none of which begins with another, exactly that of a sidecar's object is deletable which it no longer keeps |
| GcpBucket.UndisturbedSettles | cmd/internal/backup/providers/gcp/gcp.go:118-166 | from any state, a sidecar whose requests are undisturbed has its update applied to the bucket as it is |
| GcpBucket.StaleUpdateFails | cmd/internal/backup/providers/gcp/gcp.go:157-166 | an update of rules that are no longer the bucket's is an error and changes nothing |
| GcpBucket.MergeOwn | cmd/internal/backup/providers/gcp/gcp.go:142-155 | exactly one own rule after a merge, if and only if there was at most one before |
| GcpBucket.MergeOther | cmd/internal/backup/providers/gcp/gcp.go:151-152 | another prefix keeps its rules, if and only if the replaced rule does not name it too |
| GcpBucket.DuplicateStays | cmd/internal/backup/providers/gcp/gcp.go:144-152 | two rules for the own prefix stay two |
| GcpBucket.NoLostUpdate | cmd/internal/backup/providers/gcp/gcp.go:103-169 | from at most one rule for each sidecar, under every interleaving with crashes and lost replies, an applied update stays: exactly one rule for the prefix, the own one, and foreign rules unchanged |
| GcpBucket.MergeKeepsOwn | cmd/internal/backup/providers/gcp/gcp.go:142-155 | a merge never replaces another sidecar's own rule when that is the only one for its prefix |
| S3Lifecycle.RemoteBucket.EnsureBackupBucket | cmd/internal/backup/providers/s3/s3.go:159-255 | success leaves the own rule and then what was read, nothing when the request gave no output; when no request fails it succeeds and has read what there was |
| S3Lifecycle.OwnRuleExpires | cmd/internal/backup/providers/s3/s3.go:208-224 | the own rule allows deleting exactly the versions in the own directory that the configuration no longer keeps |
| S3Lifecycle.RuleTouches | cmd/internal/backup/providers/s3/s3.go:220-222 | it touches another sidecar's object exactly when that one's prefix is a directory in the own one |
| S3Lifecycle.EmptyPrefixKeepsAll | cmd/internal/backup/providers/s3/s3.go:220-222 | with an empty prefix it touches nothing of its own |
| S3Lifecycle.MergeDeletes | cmd/internal/backup/providers/s3/s3.go:215-249 | after a run that is deletable which the own rule or a carried-over one allows |
| S3Lifecycle.SharedBucket | cmd/internal/backup/providers/s3/s3.go:206-253 | for prefixes without a slash, after any runs exactly that of a sidecar's object is deletable which its last configuration no longer keeps, if every later run read the rules, and otherwise nothing |
| S3Lifecycle.FlatRulesApart | cmd/internal/backup/providers/s3/s3.go:220-222 | no such sidecar's rule touches the object of another one |
| S3Lifecycle.AfterReadRuns | cmd/internal/backup/providers/s3/s3.go:206-253 | after any runs the sidecars' rules come most recent first, followed by the initial rules with other IDs in order |
| S3Lifecycle.UnreadForgets | cmd/internal/backup/providers/s3/s3.go:227-242 | a run that read no configuration makes everything before it irrelevant |
| S3Lifecycle.OwnRuleSurvives | cmd/internal/backup/providers/s3/s3.go:227-253 | a sidecar's rule ID occurs exactly once if every later run of others read the configuration, and not at all otherwise |
| S3Lifecycle.UnreadDeletes | cmd/internal/backup/providers/s3/s3.go:231-234 | a failing read by one sidecar deletes the rule of another |
| S3Lifecycle.EnsureIdempotent | cmd/internal/backup/providers/s3/s3.go:235-241 | repeating a run changes nothing |
| RethinkRecover.Recovery.Recover | cmd/internal/database/rethinkdb/rethinkdb.go:110-216 | a run of the machine: on every return the helper is stopped; success leaves the restored data, failure after its start no data directory if it can be removed; it succeeds when nothing fails |
| RethinkRecover.Recovery.HandleFailedRecovery | cmd/internal/database/rethinkdb/rethinkdb.go:135-155 | kill, wait, then remove: the directory stays removed |
| RethinkRecover.HelperEvents | cmd/internal/database/rethinkdb/rethinkdb.go:160-175 | what any sequence of steps of the helper process can do |
| RethinkRecover.ProcessContained | cmd/internal/database/rethinkdb/rethinkdb.go:135-216 | in every run over restarts, outside Recover no step of a helper process changes anything |
| RethinkRecover.HalfRestoredExactly | cmd/internal/database/rethinkdb/rethinkdb.go:110-216 | in every run over restarts, outside Recover the directory is half-restored if and only if a removal of half-restored data failed or the pod was killed on it inside Recover |
| RethinkRecover.NeverHalfRestored | cmd/internal/database/rethinkdb/rethinkdb.go:59-216 | DONE is reached on a complete directory, or without backups on a fresh one, if and only if neither has happened |
| RethinkRecover.CleanupDecides | cmd/internal/database/rethinkdb/rethinkdb.go:148-152 | a failed recovery leads to DONE on a half-restored directory if and only if the cleanup fails |
| RethinkRecover.KillHalfRestores | cmd/internal/database/rethinkdb/rethinkdb.go:130-133 | so does a kill inside Recover once the helper has written |
| RethinkRecover.HalfRestoredIsReachable | cmd/internal/database/rethinkdb/rethinkdb.go:148-149 | a concrete run that ends there |
| RethinkRecover.RestoreSucceeds | cmd/internal/database/rethinkdb/rethinkdb.go:110-216 | a run without data that ends done on the restored data |
| RethinkRecover.StartSucceeds | cmd/internal/initializer/initializer.go:152-173 | existing data is started on, and so is an empty directory without backups |
| RethinkRecover.FreshDatabaseIsKept | cmd/internal/database/rethinkdb/rethinkdb.go:59-70 | what a fresh database has written is kept by the next start |
| RethinkRecover.FailureEnds | cmd/internal/initializer/initializer.go:129-184 | every failing step ends the start, inside Recover by cancelling the helper |
| StartProtocol.DoneMeansInitialized | cmd/internal/initializer/initializer.go:106-187 | in every interleaving with manual restores and backups, DONE means that Start's own initialize and upgrade returned nil: on data found at Check, on an empty store, or with the latest entry of the listing restored; waiting containers go ahead only after that |
| StartAlike.WholeExactlyWhenSettled | cmd/internal/initializer/initializer.go:190-253 | in every interleaving the data is certain to be what was there or a whole backup, whatever the recoveries write, exactly when the restore that wrote last returned nil with no other one meanwhile, or has left an empty directory that it was to restore |
| StartAlike.RunLockstep | cmd/internal/initializer/initializer.go:106-253 | runs that differ only in what is written, but not in whether it is empty, go through the same steps |
| StartProtocol.UnsettledByRequest | cmd/internal/initializer/service.go:63-84 | when Start has finished on anything else, a restore request is its last writer or has disturbed Start's own restore |
| StartProtocol.NoFreshDatabase | cmd/internal/initializer/initializer.go:152-186 | in every interleaving, without data and with backups DONE is reached only with the latest listed backup restored or on what a restore request had written by Check |
| StartProtocol.CheckDecides | cmd/internal/initializer/initializer.go:152-160 | which of the two it is depends exactly on whether the data directory is empty at Check |
| StartProtocol.WithoutRequests | cmd/internal/initializer/initializer.go:106-187 | without restore requests DONE is reached on the whole latest backup, a fresh directory without backups, or the data that was there, whatever it is, exactly when there was any |
| StartProtocol.RestoredIsNewest | cmd/internal/initializer/initializer.go:164-224 | in every interleaving the restored backup is the latest of those before this life exactly when none was created before the listing and none in its place before the download; otherwise it is newer than all of them |
| StartBackups.RestoredOrEmpty | cmd/internal/initializer/initializer.go:164-224 | without restore requests and without data, in that other case an empty directory is restored |
| StartBackups.FreshExactly | cmd/internal/initializer/initializer.go:77-224 | so over backups that hold data DONE is reached on an empty directory in exactly those two cases |
| StartBackups.CreatedBackups | cmd/internal/initializer/service.go:115-122 | every backup of this life holds the data of the moment it was created, and is whole exactly when that was |
| StartProtocol.LostUpgradeIsRestored | cmd/internal/database/postgres/upgrade.go:226-235 | an upgrade that loses the data directory ends the process, and the next life is done only with the latest backup restored or on what a request had written |
| StartProtocol.DoneIsNotRegained | cmd/internal/initializer/initializer.go:193-252 | after DONE, the status is DONE if and only if no further restore request has begun |
| StartProtocol.NobodyGoesAhead | cmd/internal/wait/wait.go:25-44 | once DONE is lost, no container that waits goes ahead any more |
| StartRuns.RequestDuringBoot | cmd/internal/initializer/initializer.go:82-160 | for any backup and any part of it, a life in which a restore request during the boot leads to DONE and a started container on that part |
| StartRuns.BackupDuringBoot | cmd/internal/initializer/initializer.go:77-173 | a life in which a backup of the empty directory, requested before the listing, is restored over older backups |
| StartRuns.BackupBeforeDownload | cmd/internal/initializer/initializer.go:164-224 | the same with a backup that takes the place of the latest one between the listing and the download |
| StartRuns.PartIsRestored | cmd/internal/initializer/service.go:115-122 | a backup during a recovery stores the part written so far, and the next life without data is done on it |
| StartRuns.FreshStart | cmd/internal/initializer/initializer.go:169-173 | without data and backups an undisturbed start is done on a fresh directory |
| StartRuns.PlainRestore | cmd/internal/initializer/initializer.go:164-186 | without data it is done on the latest backup |
| StartRuns.PlainStart | cmd/internal/initializer/initializer.go:152-160 | with data it is done on that, and a waiting container goes ahead |
| StartRuns.UpgradedStart | cmd/internal/initializer/initializer.go:112-123 | it is done on what the upgrade leaves of the data |
| StartRuns.FailureEnds | cmd/internal/initializer/initializer.go:106-118 | every failing step of Start ends the process |
| StartRuns.FailedCallReturns | cmd/internal/initializer/service.go:78-81 | a failing call of Restore returns, and Start's own one ends the process |
| StartRuns.PollDecides | cmd/internal/wait/wait.go:25-44 | a polling container goes ahead on DONE and stops on the stop signal |
| StartProtocol.RunOverlaps | cmd/internal/initializer/service.go:63-84 | in every interleaving, calls of Restore in progress at the same time all count as disturbed |
| StartLives.PartialExactly | cmd/internal/initializer/initializer.go:106-253 | over any sequence of lives without restore requests, DONE is reached on data that is not whole exactly when the last life to write a backup ended inside its own recovery with something neither empty nor whole |
| StartLives.PartialForGood | cmd/internal/initializer/initializer.go:152-160 | without upgrades that change the data: exactly when any earlier life did |
| StartLives.PartIsStarted | cmd/internal/database/localfs/localfs.go:58-69 | for any part of the latest backup, two lives that end in DONE on it |
| Wait.Start | cmd/internal/wait/wait.go:25-44 | the loop goes ahead exactly on the first answer DONE before any stop signal |
| PostgresUpgrade.Postgres.CopyPostgresBinaries | cmd/internal/database/postgres/upgrade.go:323-358 | whatever fails, only the running version's saved binaries may change; success makes them the running ones |
| PostgresUpgrade.Postgres.RestoreOldPostgresBinaries | cmd/internal/database/postgres/upgrade.go:360-382 | every saved directory is overlaid on the new one; no entry of another name changes there, whatever is copied or fails |
| PostgresUpgrade.Postgres.Decide | cmd/internal/database/postgres/upgrade.go:53-106 | the exit is the one that the data and the failing steps decide; an upgrade is begun only for strictly newer binaries with saved ones of exactly the old version, and the only error is a database newer than the binaries |
| PostgresUpgrade.Postgres.Prepare | cmd/internal/database/postgres/upgrade.go:108-188 | the data directory is only read; the exit is that of the first failing step or missing file, an error except for two steps; without one the new cluster has the old configuration and all saved binaries |
| PostgresUpgrade.Postgres.MigrateAndSwap | cmd/internal/database/postgres/upgrade.go:202-239 | success puts the migrated cluster in place; a lost directory is never a success |
| PostgresUpgrade.Postgres.Upgrade | cmd/internal/database/postgres/upgrade.go:37-240 | for every choice of failing steps the exit is the one that they and the data decide: unchanged data before pg_upgrade, with an error exactly at the early error exits; a complete replacement on nil after it; a lost directory is an error; with no failure a ready directory ends at the running version |
| PostgresUpgrade.SwappedExactly | cmd/internal/database/postgres/upgrade.go:61-188 | with no failing step an upgrade is made exactly from an older version whose binaries are saved and whose configuration is there |
| PostgresUpgrade.VerdictExplained | cmd/internal/database/postgres/upgrade.go:41-103 | whichever steps fail, every exit is explained by the data |
| PostgresUpgrade.FailingStepStops | cmd/internal/database/postgres/upgrade.go:108-188 | pg_upgrade is not run when a step before it fails |
| PostgresUpgrade.NewerDatabaseIsAnError | cmd/internal/database/contract.go:14-17 | a concrete database of version 15 under binaries of version 14: an error although the data is unmodified |
| PostgresUpgrade.SavingDecidesNothing | cmd/internal/database/postgres/upgrade.go:47-103 | saving the running binaries first does not change which exit is taken |
| PostgresUpgrade.Postgres.RunStarts | cmd/internal/database/postgres/upgrade.go:37-240 | calling Upgrade for one image after the other, with the database running in between, makes a record of all starts before the first failing step, of which the chain holds |
| PostgresUpgrade.UpgradeChain | cmd/internal/database/postgres/upgrade.go:37-240 | over any run of starts with non-decreasing versions no upgrade is skipped, each start ends at its own version, and binaries of every version run are saved |
| PostgresUpgrade.ReadyAgain | cmd/internal/database/postgres/upgrade.go:84-103 | after one start the next image always finds the old binaries it needs |

## Left out

- Real AES, archive formats, the sort algorithm, cron, gRPC, cloud SDKs and SQL: library code.
- cmd/main.go, api, pkg/client, pkg/generate, metrics, the table printer, command execution and probing: plumbing; only the
  composition of the provider's suffix is taken from cmd/main.go.
- etcd, redis and Postgres Backup and Recover bodies and the TimescaleDB update: calls of external tools.
- Permissions, ownership, symbolic links, a partial RemoveAll or MkdirAll, wall-clock intervals and log output.
- The validation of the encryption key, and the choice of random vectors: any vector is allowed.
- Cleaning of path components such as "..": version names are taken as single components.
- S3 runs that interleave: the code has no conditional write there, so only runs one after the other are covered.
- StartProtocol: the snapshot and the upload of a backup are one step, so are a download and a call of Upgrade, and the clock
  goes forward between backups. Restores that overlap leave anything; an upgrade that overlaps with a restore request takes
  effect at one moment. What the database writes to its directory, and a manual restore during a RethinkDB recovery, are not
  in it.
- Initializer.Initializer.Start: the class is for the localfs database and the local provider; other databases are covered
  by StartProtocol, RethinkRecover and PostgresUpgrade with an abstract data directory or their own.
- Files.CopyFS: a source root that cannot be opened makes the walk function panic, which is an error return here.
- Initializer.Initializer.Restore: success is promised for archives of a directory with the backup directory's base name; whether
  another one fits in beside the other downloads is not.
- EndToEnd.BackupChangeRestore: with encryption it assumes that nothing longer lies at the two outputs; what is deciphered
  otherwise is EndToEnd.DecipheredIsArchive.
- EndToEnd.BackupLossStart: with encryption it assumes the same as EndToEnd.BackupChangeRestore.
- RethinkRecover.Recovery.Recover: a successful probe or import is assumed to have met the running helper, and imported data
  to be durable; that g.Wait returns at all is not claimed.
- PostgresUpgrade.Postgres.RestoreOldPostgresBinaries: when a deeper entry has a pg-bin-v name, which the walk copies too, no more
  is promised than that entries of other names stay.
- PostgresUpgrade.Postgres.Upgrade: the data directory and /data/postgres-new are two separate trees, and the promises
  about saved binaries are for directories in which no deeper entry has a pg-bin-v name; pg_upgrade and a
  running database are assumed to leave PG_VERSION, the two configuration files and saved binaries alone.
- PostgresUpgrade.Postgres.Decide: reading a version file and running a saved pg_config are functions of the file
  contents, and the running binaries report one version throughout an upgrade.
- GcpBucket.NoLostUpdate: the bucket is not deleted, and nobody but the sidecars edits its rules in a run.
