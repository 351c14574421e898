# Unity save system: a Dafny model of the write-back pipeline

This project models the core of a Unity save library in Dafny. Game code asks the saves
system for a record by type and id. The system returns a cached instance, or loads one from
storage through a provider, migrating it to the current schema, or creates a fresh one.
Game code marks changed records dirty. Once per frame `SaveDirtyFiles` hands the dirty records
to the provider. The provider stamps them with the current migration id, serializes them and
merges them into a pending buffer, keyed by record type and id. A background writer thread
drains that buffer into storage. The system also raises `SaveInProgressChanged` so the game
can show a "saving" indicator.

The library exists in two generations, and both are modelled, each in its own modules:

- **Older generation** (Assets/Runtime/Scripts):
  - `LegacyRecords`: `SaveFile` records and the system's dirty set;
  - `JsonProvider`: `SaveProvider` and `JsonSaveProvider`, one `.save` file per record in a
    folder;
  - `LegacySystem`: `SavesSystem`, with a per-type dictionary of records as its cache.
- **Newer generation** (Assets/Runtime/Scripts/Base and Providers/LiteDB):
  - `BaseRecords`: `Save` records grouped in a `SaveContainer` per record type;
  - `LiteDbProvider`: `SaveProvider` and `LiteDbSaveProvider`, one LiteDB collection per record
    type;
  - `BaseSystem`: `SavesSystem`, which caches containers and marks whole containers dirty.
- **Shared modules**:
  - `SaveTypes`: type names, registry entries, snapshots, the `-1` migration sentinel;
  - `Wrappers`: `Option`, `Outcome`, `Result`;
  - `Collections`: enumerating hash sets and dictionaries;
  - `SaveNotification`: the progress-notification rule;
  - `PendingWrites`: the pending buffer and its merge;
  - `Migration`: `DefaultSaveMigrationRule` and `DefaultSaveMigrationHandler`;
  - `SampleMigrations`: the two sample rules of the JSON migration sample;
  - `SampleLoads`: the migration sample's record loaded through the newer system over LiteDB.

How the C# constructs are represented:

- **Objects and events.** Records, containers, providers, handlers and the systems are Dafny
  classes whose methods update their fields in place. A C# event is a `subscriber` field. A
  ghost counter records how often the event fired.
- **Exceptions.** The exception a duplicate `Dictionary.Add` throws is an `Outcome` or `Result`
  error value.
- **Storage.** The JSON folder is a map from file name to snapshot. The LiteDB database is a map
  from collection name to a map from id to document.
- **The writer thread.** Each write cycle is two atomic steps:
  - `BeginWrite`: wake up and read the notification flag;
  - `EndWrite`: write everything pending, then bump the counter.

  `Uninitialize` joins the thread by running it until it exits.

## Model

| member | source | states |
|---|---|---|
| Collections.Enumerate | Assets/Runtime/Scripts/SavesSystem.cs:180-183 | a `foreach` over a hash set visits every element exactly once, in an order the set does not fix |
| SaveNotification.ObserveEvents | Assets/Runtime/Scripts/SavesSystem.cs:155-173 | a `SaveDirtyFiles` call raises nothing exactly when the main thread has already seen the writer's flag and counter; otherwise it raises the new flag when the flag changed, else a `true`,`false` pair when only the counter moved |
| SaveNotification.ObserveNext | Assets/Runtime/Scripts/SavesSystem.cs:155-173 | after a `SaveDirtyFiles` call the remembered flag and counter match the writer's, which it leaves untouched |
| SaveNotification.BeginWrite | Assets/Runtime/Scripts/SavesSystem.cs:198-202 | a waking writer raises the flag when some pending unit asks for the notification, and changes nothing else |
| SaveNotification.EndWrite | Assets/Runtime/Scripts/SavesSystem.cs:205-210 | a notifying cycle ends with the counter bumped by one and the flag lowered; any other cycle changes nothing |
| SaveNotification.SilentWhenSynced | Assets/Runtime/Scripts/SavesSystem.cs:155-173 | once the main thread has seen everything, further calls raise nothing and change nothing |
| SaveNotification.QuietCycleIsSilent | Assets/Runtime/Scripts/SavesSystem.cs:197-210 | a write cycle that needs no notification is invisible to the main thread |
| SaveNotification.CyclesAdvanceCounter | Assets/Runtime/Scripts/SavesSystem.cs:205-210 | `k` notifying cycles in a row only move the counter, by exactly `k` |
| SaveNotification.FastCyclesCoalesce | Assets/Runtime/Scripts/SavesSystem.cs:163-172 | however many notifying writes finish between two frames, the next call announces them with exactly one `true` followed by one `false`, and is then in sync |
| SaveNotification.SlowCycleAnnouncedOnce | Assets/Runtime/Scripts/SavesSystem.cs:155-160 | a notifying write seen while in progress is announced `true` during it and `false` after it, and its counter bump raises nothing more |
| SaveNotification.OverlappingCyclesRepeatTrue | Assets/Runtime/Scripts/Base/SavesSystem.cs:121-140 | the rule can announce back-to-back writes as `true`,`true`,`false`,`false` (the race the source's comment accepts) |
| PendingWrites.FirstIndex | Assets/Runtime/Scripts/Providers/Json/JsonSaveProvider.cs:47 | `List.FindIndex`: `-1` exactly when no buffered unit has key (type, id); otherwise the first such position |
| PendingWrites.FindIndex | Assets/Runtime/Scripts/Providers/Json/JsonSaveProvider.cs:47 | the loop-based search returns the first position holding the key, or `-1` |
| PendingWrites.UpsertKeysUnique | Assets/Runtime/Scripts/Providers/Json/JsonSaveProvider.cs:47-55 | replace-else-append keeps at most one pending unit per (type, id) |
| PendingWrites.MergeAllKeysUnique | Assets/Runtime/Scripts/Providers/Json/JsonSaveProvider.cs:43-57 | merging any batch into a key-unique buffer leaves it key-unique |
| PendingWrites.UpsertLookup | Assets/Runtime/Scripts/Providers/Json/JsonSaveProvider.cs:47-55 | after one merge step the unit's key finds the new unit and every other key finds what it found before |
| PendingWrites.MergeAllLookup | Assets/Runtime/Scripts/Providers/Json/JsonSaveProvider.cs:43-57 | after a merge each key holds the batch's last unit with that key (later units win), or, when the batch has none, what it held before |
| PendingWrites.MergeAllLength | Assets/Runtime/Scripts/Providers/Json/JsonSaveProvider.cs:43-57 | the buffer never shrinks and grows by at most the batch size |
| PendingWrites.UpsertNotify | Assets/Runtime/Scripts/Providers/Json/JsonSaveProvider.cs:112 | after one merge step some unit asks for the notification exactly when one did before or the new unit does, when units of one type agree on the flag |
| PendingWrites.MergeAllNotify | Assets/Runtime/Scripts/Providers/Json/JsonSaveProvider.cs:112 | `AnySaveRequiresNotification` after a merge holds exactly when it held for the buffer or for the batch, when units of one type agree on the flag |
| PendingWrites.MergeAllSubset | Assets/Runtime/Scripts/Providers/Json/JsonSaveProvider.cs:43-57 | every unit of a merged buffer comes from the buffer or from the batch |
| Migration.MigrationRule.constructor | Assets/Runtime/Scripts/Base/DefaultSaveMigrationRule.cs:6 | a rule carries its fixed id and its migration step |
| Migration.CompareToConsistentWithIds | Assets/Runtime/Scripts/Base/DefaultSaveMigrationRule.cs:20-25 | `CompareTo` puts `null` first, returns 0 for a rule with itself, is antisymmetric, and orders two distinct rules by their ids |
| Migration.FindRule | Assets/Runtime/Scripts/DefaultSaveMigrationHandler.cs:36-44 | the first rule written with the stored id, if any, with no earlier rule matching; `None` when no rule matches |
| Migration.InsertById | Assets/Runtime/Scripts/DefaultSaveMigrationHandler.cs:70-71 | `Add` then `Sort`: the result is the old list plus the new rule, as a multiset |
| Migration.InsertByIdAscending | Assets/Runtime/Scripts/DefaultSaveMigrationHandler.cs:70-71 | inserting a rule with a fresh id into a strictly ascending list keeps it strictly ascending |
| Migration.MigrationHandler.constructor | Assets/Runtime/Scripts/DefaultSaveMigrationHandler.cs:8 | a new handler has no rules |
| Migration.MigrationHandler.TryMigrate | Assets/Runtime/Scripts/DefaultSaveMigrationHandler.cs:20-54 | the replayed rules are those after the rule the record was written with (all of them for the `-1` sentinel, none for an unknown id or the last rule's id), applied in order; the record becomes dirty unless there are no rules or it was written with the last one |
| Migration.MigrationHandler.AddMigrationRule | Assets/Runtime/Scripts/DefaultSaveMigrationHandler.cs:56-72 | a rule whose id is already registered is ignored; otherwise the list gains exactly that rule and stays strictly ascending by id |
| Migration.MigrationHandler.GetCurrentMigrationId | Assets/Runtime/Scripts/DefaultSaveMigrationHandler.cs:74-82 | `-1` with no rules; otherwise the id of a registered rule that no rule exceeds |
| Migration.StampedRecordNeedsNoMigration | Assets/Runtime/Scripts/DefaultSaveMigrationHandler.cs:22-27 | a record stamped with the current migration id replays nothing and stays clean |
| Migration.SentinelReplaysAll | Assets/Runtime/Scripts/DefaultSaveMigrationHandler.cs:29-34 | a record from before any rule replays every rule |
| Migration.ResumesAfterMatchingRule | Assets/Runtime/Scripts/DefaultSaveMigrationHandler.cs:36-51 | a record written with rule `k` replays exactly the rules after it |
| Migration.UnknownIdReplaysNothing | Assets/Runtime/Scripts/DefaultSaveMigrationHandler.cs:36-53 | a stored id that matches no rule replays nothing, yet the record is marked dirty |
| Migration.ReplayIsAscendingSuffix | Assets/Runtime/Scripts/DefaultSaveMigrationHandler.cs:36-51 | the replayed rules are always a suffix of the list, so they run in ascending id order |
| SampleMigrations.WrapInt32 | Assets/Samples/JsonSamples/JsonMigrationSample/SampleSaveMigration2.cs:9 | unchecked C# `int` arithmetic: the result is in range, congruent modulo 2^32, and unchanged when already in range |
| SampleMigrations.CopyNumber | Assets/Samples/JsonSamples/JsonMigrationSample/SampleSaveMigration1.cs:7-11 | rule 1 copies `SomeNumber` into `SomeNumberAnother`, keeping both in `int` range |
| SampleMigrations.LowerAnotherBy100 | Assets/Samples/JsonSamples/JsonMigrationSample/SampleSaveMigration2.cs:7-11 | rule 2 lowers `SomeNumberAnother` by 100, wrapping around below `int.MinValue + 100` |
| SampleMigrations.CopyNumberIdempotent | Assets/Samples/JsonSamples/JsonMigrationSample/SampleSaveMigration1.cs:7-11 | applying rule 1 twice is the same as once |
| SampleMigrations.LowerTwiceLowersBy200 | Assets/Samples/JsonSamples/JsonMigrationSample/SampleSaveMigration2.cs:7-11 | applying rule 2 twice lowers by 200 when no wrap-around occurs |
| SampleMigrations.SampleHandler | Assets/Samples/JsonSamples/JsonMigrationSample/SceneEntryPoint.cs:16-18 | registering rules 1 and 2 in either order, with or without a repeated rule 2, gives the list [rule 1, rule 2] |
| SampleMigrations.RegisterAgain | Assets/Runtime/Scripts/DefaultSaveMigrationHandler.cs:58-63 | a second rule with an already registered id leaves the handler unchanged |
| SampleMigrations.LoadSample | Assets/Runtime/Scripts/DefaultSaveMigrationHandler.cs:20-54 | through the sample handler a sentinel record gets both steps, a rule-1 record gets rule 2, a rule-2 record is untouched and clean, an unknown id is untouched but dirty; the next stamp is 2 |
| SampleMigrations.LoadFifty | Assets/Samples/JsonSamples/JsonMigrationSample/SampleSaveMigration2.cs:7-11 | a pre-migration sample with `SomeNumber = 50` loads with `SomeNumberAnother = -50`, dirty |
| SampleLoads.SampleChainOnFifty | Assets/Samples/JsonSamples/JsonMigrationSample/SampleSaveMigration2.cs:7-11 | on the sample chain, a record from before any rule replays both rules, is marked dirty and turns (50, 7) into (50, -50); a record stamped with id 2 replays nothing |
| SampleLoads.SampleSystem | Assets/Samples/JsonSamples/JsonMigrationSample/SceneEntryPoint.cs:14-23 | the sample set-up over a LiteDB database holding (50, 7) from before any rule: a valid system whose provider migrates that record to (50, -50), marks it dirty, and stamps it with id 2 on write |
| SampleLoads.LoadFiftyThroughContainers | Assets/Runtime/Scripts/Base/SaveProvider.cs:50-64 | through `NewContainerAsWritten` the sample record stays (50, 7), clean and unstamped, while `NewContainer` gives (50, -50), dirty; the kept record's snapshot, stamped with `Stamp` (id 2) by hand rather than written and re-read, migrates to (50, 7) |
| LegacyRecords.SaveFileSet.constructor | Assets/Runtime/Scripts/SavesSystem.cs:17 | the dirty set starts empty |
| LegacyRecords.SaveFile.constructor | Assets/Runtime/Scripts/SaveFile.cs:7-12 | a new record has id 0, is clean and not just created, carries the `-1` sentinel and has no subscriber |
| LegacyRecords.SaveFile.SetDirty | Assets/Runtime/Scripts/SaveFile.cs:14-18 | the record is dirty, `SaveChanged` fired once, and a subscribed dirty set now holds it |
| LegacyRecords.SaveFile.ResetDirty | Assets/Runtime/Scripts/SaveFile.cs:20-23 | the record is clean and nothing else changes |
| LegacyRecords.SaveFile.ResetJustCreatedFlag | Assets/Runtime/Scripts/SaveFile.cs:25-29 | the flag is down and the record is dirty and reported to its subscriber |
| LegacyRecords.SaveFile.OnNewInstanceCreated | Assets/Runtime/Scripts/SaveFile.cs:34-37 | the record is marked just created |
| JsonProvider.NatToString | Assets/Runtime/Scripts/Providers/Json/JsonSaveProvider.cs:81 | the decimal digits of a natural number, at least one, with two or more exactly from 10 up |
| JsonProvider.NatToStringInjective | Assets/Runtime/Scripts/Providers/Json/JsonSaveProvider.cs:81 | different numbers have different decimal spellings |
| JsonProvider.IntToStringInjective | Assets/Runtime/Scripts/Providers/Json/JsonSaveProvider.cs:81 | `int.ToString()` is injective, the sign included |
| JsonProvider.FileNameInjective | Assets/Runtime/Scripts/Providers/Json/JsonSaveProvider.cs:81 | within one persistence name, different ids go to different files |
| JsonProvider.FileNamesCollideAcrossNames | Assets/Runtime/Scripts/Providers/Json/JsonSaveProvider.cs:81 | across persistence names, name + id is ambiguous: `Save1` id 2 and `Save` id 12 share `Save12.save` |
| JsonProvider.StoreAllWrites | Assets/Runtime/Scripts/Providers/Json/JsonSaveProvider.cs:69-72 | a unit that no later unit overwrites ends up in its file, unless that file cannot be written |
| JsonProvider.StoreAllKeeps | Assets/Runtime/Scripts/Providers/Json/JsonSaveProvider.cs:77-90 | a failed write is caught and later units still go out; a file no unit names, or whose write fails, keeps its content |
| JsonProvider.JsonSaveProvider.constructor | Assets/Runtime/Scripts/Providers/Json/JsonSaveProvider.cs:12-17 | the provider starts over the given folder with empty buffers and no registrations |
| JsonProvider.JsonSaveProvider.InjectDependencies | Assets/Runtime/Scripts/SaveProvider.cs:12-20 | the provider now knows the system's type registry |
| JsonProvider.JsonSaveProvider.RegisterSaveTypeMigrationHandler | Assets/Runtime/Scripts/SaveProvider.cs:69-72 | registering a second handler for a type fails with a duplicate key and changes nothing; otherwise the handler is added |
| JsonProvider.JsonSaveProvider.UnitsOf | Assets/Runtime/Scripts/Providers/Json/JsonSaveProvider.cs:33-41 | one serialized unit per record, in enumeration order |
| JsonProvider.JsonSaveProvider.AddSavesToWrite | Assets/Runtime/Scripts/SaveProvider.cs:27-38 | every handed-over record is stamped with its type's current migration id, then its unit is merged into the pending buffer |
| JsonProvider.JsonSaveProvider.SerializeDirtySaves | Assets/Runtime/Scripts/Providers/Json/JsonSaveProvider.cs:31-60 | the records' units, in order, are merged into the pending buffer and the scratch list ends empty |
| JsonProvider.JsonSaveProvider.MergeIntoPending | Assets/Runtime/Scripts/Providers/Json/JsonSaveProvider.cs:43-57 | the replace-else-append loop computes the merge and keeps one unit per key |
| JsonProvider.JsonSaveProvider.SerializeAll | Assets/Runtime/Scripts/Providers/Json/JsonSaveProvider.cs:33-41 | the serialize loop yields exactly the records' units in order |
| JsonProvider.JsonSaveProvider.WriteSaves | Assets/Runtime/Scripts/Providers/Json/JsonSaveProvider.cs:62-75 | the swapped-out buffer is written in order into the folder and both buffers end empty |
| JsonProvider.JsonSaveProvider.WriteSave | Assets/Runtime/Scripts/Providers/Json/JsonSaveProvider.cs:77-90 | the unit's file gets its payload unless writing it fails, in which case the folder is unchanged |
| JsonProvider.JsonSaveProvider.ReadSave | Assets/Runtime/Scripts/Providers/Json/JsonSaveProvider.cs:92-106 | `null` exactly when the file is missing; otherwise a fresh, clean, unsubscribed record of the type holding the file's snapshot |
| JsonProvider.JsonSaveProvider.TryMigrate | Assets/Runtime/Scripts/SaveProvider.cs:57-65 | a record of a type with a handler is migrated and possibly marked dirty; any other record is untouched |
| JsonProvider.JsonSaveProvider.GetSave | Assets/Runtime/Scripts/SaveProvider.cs:44-53 | `null` exactly when the file is missing; otherwise a fresh record holding the migrated snapshot, dirty exactly when migration marked it |
| JsonProvider.JsonSaveProvider.GetAllSaves | Assets/Runtime/Scripts/Providers/Json/JsonSaveProvider.cs:114-124 | "all saves" of a type is at most the record with id 0, present exactly when its file exists, migrated, dirty exactly when migration marked it, carrying the type's notification flag |
| JsonProvider.RoundTrip | Assets/Runtime/Scripts/SaveProvider.cs:27-53 | a record written with no failing file reads back with the same snapshot, its stamp included, clean and needing no migration |
| LegacySystem.SavesSystem.constructor | Assets/Runtime/Scripts/SavesSystem.cs:28-45 | the system shares its registry with the provider, has an empty cache and dirty set, and its writer waits |
| LegacySystem.SavesSystem.CacheSave | Assets/Runtime/Scripts/SavesSystem.cs:73-84 | the record is added under its type and id, and an id already cached for the type fails with a duplicate key and leaves the cache as it was |
| LegacySystem.SavesSystem.CreateNewInstanceOfSave | Assets/Runtime/Scripts/SavesSystem.cs:61-71 | a fresh record of the type with the requested id, just created and dirty, is in the dirty set and cached under its id |
| LegacySystem.SavesSystem.OnSaveChanged | Assets/Runtime/Scripts/SavesSystem.cs:86-89 | the changed record joins the dirty set |
| LegacySystem.SavesSystem.GetSave | Assets/Runtime/Scripts/SavesSystem.cs:91-137 | a cached record is returned unchanged; otherwise a stored file is loaded, migrated, subscribed and registered as dirty when migration marked it, then cached under its stored id, or, on a duplicate id, fails with the cache unchanged and the dirty record still registered; with no file a new record is created |
| LegacySystem.SavesSystem.GetSaveTwice | Assets/Runtime/Scripts/SavesSystem.cs:91-99 | asking twice for a record that the first call delivered with the requested id returns the same instance |
| LegacySystem.SavesSystem.PreloadAllSavesOfType | Assets/Runtime/Scripts/SavesSystem.cs:139-151 | with no file for id 0 nothing changes; otherwise the migrated record joins the dirty set exactly when migration marked it, subscribed, and is cached under its stored id, or a duplicate id fails and leaves the cache as it was |
| LegacySystem.SavesSystem.AdoptLoaded | Assets/Runtime/Scripts/SavesSystem.cs:101-113 | a loaded record is subscribed, joins the dirty set exactly when it is dirty, and is cached unless its id is taken |
| LegacySystem.SavesSystem.SaveDirtyFiles | Assets/Runtime/Scripts/SavesSystem.cs:153-188 | raises exactly the notification events of the rule; when records are dirty their units are merged into the pending buffer, each is stamped and clean, the set is emptied and the writer woken |
| LegacySystem.SavesSystem.Drain | Assets/Runtime/Scripts/SavesSystem.cs:175-187 | with an empty dirty set nothing is handed over; otherwise as `HandOver` |
| LegacySystem.SavesSystem.HandOver | Assets/Runtime/Scripts/SavesSystem.cs:175-187 | every dirty record, each once, is staged for writing, stamped and reset; the set is empty and the writer signalled |
| LegacySystem.SavesSystem.ClearDirtySet | Assets/Runtime/Scripts/SavesSystem.cs:185-186 | the dirty set is empty and the writer signalled |
| LegacySystem.SavesSystem.ObserveProgress | Assets/Runtime/Scripts/SavesSystem.cs:155-173 | the system raises the notification events of the rule and remembers the writer's state |
| LegacySystem.SavesSystem.WriteBack | Assets/Runtime/Scripts/SavesSystem.cs:179-183 | the provider merges the batch's units and every batch record ends stamped and clean |
| LegacySystem.SavesSystem.ResetAll | Assets/Runtime/Scripts/SavesSystem.cs:180-183 | every handed-over record is clean |
| LegacySystem.SavesSystem.BeginWrite | Assets/Runtime/Scripts/SavesSystem.cs:197-202 | the wake-up is consumed and the flag rises exactly when a pending unit asks for the notification |
| LegacySystem.SavesSystem.EndWrite | Assets/Runtime/Scripts/SavesSystem.cs:204-213 | everything pending is written to the folder; a notifying cycle bumps the counter and lowers the flag; the writer exits once the system is uninitialized |
| LegacySystem.SavesSystem.Uninitialize | Assets/Runtime/Scripts/SavesSystem.cs:52-59 | when initialized, a final drain, then the writer stops and the folder holds everything pending plus the drained records' units; otherwise nothing changes |
| LegacySystem.SavesSystem.Stop | Assets/Runtime/Scripts/SavesSystem.cs:56-58 | the writer is woken, finishes, and everything pending is in the folder |
| LegacySystem.SavesSystem.Join | Assets/Runtime/Scripts/SavesSystem.cs:58 | the writer runs to its exit and the buffer ends written and empty |
| BaseRecords.ContainerSet.constructor | Assets/Runtime/Scripts/Base/SavesSystem.cs:18 | the dirty-container set starts empty |
| BaseRecords.Save.constructor | Assets/Runtime/Scripts/Base/Save.cs:7-11 | a new record has id 0, is clean and not just created, carries the `-1` sentinel and has no subscriber |
| BaseRecords.Save.SetDirty | Assets/Runtime/Scripts/Base/Save.cs:15-19 | the record is dirty and the event reaches its container, which in turn lands in the system's dirty set |
| BaseRecords.Save.ResetDirty | Assets/Runtime/Scripts/Base/Save.cs:21-24 | the record is clean |
| BaseRecords.Save.ResetJustCreatedFlag | Assets/Runtime/Scripts/Base/Save.cs:26-30 | the flag is down and the record is dirty and reported along the chain |
| BaseRecords.Save.OnNewInstanceCreated | Assets/Runtime/Scripts/Base/Save.cs:35-38 | the record is marked just created |
| BaseRecords.SaveContainer.constructor | Assets/Runtime/Scripts/Base/SaveContainer.cs:14-24 | the container holds exactly the given records, each under its own id, or none for `null` |
| BaseRecords.SaveContainer.GetSaveById | Assets/Runtime/Scripts/Base/SaveContainer.cs:31-34 | the record under an id carries that id and reports to this container |
| BaseRecords.SaveContainer.HaveSaveWithIdIffMember | Assets/Runtime/Scripts/Base/SaveContainer.cs:26-29 | `HaveSaveWithId` holds exactly when some member carries the id |
| BaseRecords.SaveContainer.GetAllSavesAreMembers | Assets/Runtime/Scripts/Base/SaveContainer.cs:36-39 | `GetAllSaves` yields every member and only members, each the one stored under its id |
| BaseRecords.SaveContainer.AddNewSave | Assets/Runtime/Scripts/Base/SaveContainer.cs:41-45 | the record is added under its id and subscribed; an id already present fails with a duplicate key and changes nothing |
| BaseRecords.SaveContainer.OnSomeOfMySavesChanged | Assets/Runtime/Scripts/Base/SaveContainer.cs:47-50 | the container's event fires and a subscribed system set now holds the container |
| BaseRecords.SaveContainer.ResetDirty | Assets/Runtime/Scripts/Base/SaveContainer.cs:52-58 | every record of the container is clean |
| BaseRecords.AddThenSetDirty | Assets/Runtime/Scripts/Base/SaveContainer.cs:41-50 | a record added to a container and then marked dirty is in the container and dirty, and the container is in the system's dirty set |
| LiteDbProvider.StoreOne | Assets/Runtime/Scripts/Providers/LiteDB/LiteDbSaveProvider.cs:85-97 | update-or-insert: afterwards the unit's collection maps its id to its document, and every other document is unchanged |
| LiteDbProvider.StoreAllWrites | Assets/Runtime/Scripts/Providers/LiteDB/LiteDbSaveProvider.cs:76-80 | a unit that no later unit overwrites ends up as the document under its id |
| LiteDbProvider.StoreAllKeeps | Assets/Runtime/Scripts/Providers/LiteDB/LiteDbSaveProvider.cs:76-80 | a document no unit names keeps its place and content |
| LiteDbProvider.StoreAllWellKeyed | Assets/Runtime/Scripts/Providers/LiteDB/LiteDbSaveProvider.cs:85-97 | writing units keyed by their records' ids keeps every document under its own id |
| LiteDbProvider.MergeAllLiteDbUnits | Assets/Runtime/Scripts/Providers/LiteDB/LiteDbSaveProvider.cs:50-64 | the merged buffer holds only units this provider builds |
| LiteDbProvider.LiteDbSaveProvider.constructor | Assets/Runtime/Scripts/Providers/LiteDB/LiteDbSaveProvider.cs:21-33 | the provider starts over the given database with empty buffers and no registrations |
| LiteDbProvider.LiteDbSaveProvider.InjectDependencies | Assets/Runtime/Scripts/Base/SaveProvider.cs:13-23 | the provider now knows the system's type registry |
| LiteDbProvider.LiteDbSaveProvider.RegisterSaveTypeMigrationHandler | Assets/Runtime/Scripts/Base/SaveProvider.cs:78-81 | a second handler for a type fails with a duplicate key and changes nothing; otherwise it is added |
| LiteDbProvider.LiteDbSaveProvider.UnitOf | Assets/Runtime/Scripts/Providers/LiteDB/LiteDbSaveProvider.cs:41-43 | a record's unit carries the container's type, the record's id and snapshot, and never asks for the notification |
| LiteDbProvider.LiteDbSaveProvider.UnitsOf | Assets/Runtime/Scripts/Providers/LiteDB/LiteDbSaveProvider.cs:39-47 | one unit per record of a container, in enumeration order |
| LiteDbProvider.LiteDbSaveProvider.BatchUnits | Assets/Runtime/Scripts/Providers/LiteDB/LiteDbSaveProvider.cs:37-48 | a batch's units are built by this provider, keyed by their records' ids |
| LiteDbProvider.LiteDbSaveProvider.AddSavesToWrite | Assets/Runtime/Scripts/Base/SaveProvider.cs:30-44 | every record of every handed-over container is stamped with the current migration id, then all their units are merged into the pending buffer |
| LiteDbProvider.LiteDbSaveProvider.StampContainers | Assets/Runtime/Scripts/Base/SaveProvider.cs:32-41 | every record of every container carries its type's stamp |
| LiteDbProvider.LiteDbSaveProvider.StampContainer | Assets/Runtime/Scripts/Base/SaveProvider.cs:34-40 | every record of one container carries its type's stamp |
| LiteDbProvider.LiteDbSaveProvider.StampAll | Assets/Runtime/Scripts/Base/SaveProvider.cs:34-40 | every listed record carries its type's stamp |
| LiteDbProvider.LiteDbSaveProvider.SerializeDirtySaves | Assets/Runtime/Scripts/Providers/LiteDB/LiteDbSaveProvider.cs:35-67 | the containers' records, each once per container, are serialized and merged into the pending buffer |
| LiteDbProvider.LiteDbSaveProvider.SerializeAll | Assets/Runtime/Scripts/Providers/LiteDB/LiteDbSaveProvider.cs:37-48 | the nested loop yields every container's records' units, container by container |
| LiteDbProvider.LiteDbSaveProvider.SerializeContainer | Assets/Runtime/Scripts/Providers/LiteDB/LiteDbSaveProvider.cs:39-47 | the inner loop visits each record of the container once and yields its unit |
| LiteDbProvider.LiteDbSaveProvider.MergeIntoPending | Assets/Runtime/Scripts/Providers/LiteDB/LiteDbSaveProvider.cs:50-64 | the replace-else-append loop computes the merge and keeps the buffer valid |
| LiteDbProvider.LiteDbSaveProvider.WriteSaves | Assets/Runtime/Scripts/Providers/LiteDB/LiteDbSaveProvider.cs:69-83 | the swapped-out buffer is written in order to the database and both buffers end empty |
| LiteDbProvider.LiteDbSaveProvider.WriteSave | Assets/Runtime/Scripts/Providers/LiteDB/LiteDbSaveProvider.cs:85-97 | the unit's document is updated or inserted |
| LiteDbProvider.LiteDbSaveProvider.ReadSaves | Assets/Runtime/Scripts/Providers/LiteDB/LiteDbSaveProvider.cs:99-105 | one fresh, clean, unsubscribed record per document of the type's collection, with distinct ids that are exactly the collection's ids |
| LiteDbProvider.LiteDbSaveProvider.TryMigrate | Assets/Runtime/Scripts/Base/SaveProvider.cs:68-76 | a record of a type with a handler is migrated and possibly marked dirty; any other record is untouched |
| LiteDbProvider.LiteDbSaveProvider.GetAllSavesOfType | Assets/Runtime/Scripts/Base/SaveProvider.cs:50-64 | one fresh record per stored document with exactly the collection's ids, each migrated and dirty exactly when migration marked it (the migrating enumeration; the caller re-enumerates the query, see Findings) |
| LiteDbProvider.LiteDbSaveProvider.MigrateAll | Assets/Runtime/Scripts/Base/SaveProvider.cs:54-60 | every loaded record is migrated once |
| LiteDbProvider.LiteDbSaveProvider.AnySaveRequiresNotification | Assets/Runtime/Scripts/Providers/LiteDB/LiteDbSaveProvider.cs:112 | with this provider no pending unit ever asks for the notification |
| BaseSystem.SavesSystem.constructor | Assets/Runtime/Scripts/Base/SavesSystem.cs:30-50 | the system shares its registry with the provider, has no containers and an empty dirty set, and its writer waits |
| BaseSystem.SavesSystem.LoadContainer | Assets/Runtime/Scripts/Base/SavesSystem.cs:71-83 | a cached container is returned as is; otherwise a fresh container of the type's migrated records, with exactly the stored ids, is subscribed and cached; the dirty set is unchanged; the load is the intended one (see Findings) |
| BaseSystem.SavesSystem.NewContainer | Assets/Runtime/Scripts/Base/SavesSystem.cs:75-76 | a fresh container holds one fresh record per stored id, migrated and dirty exactly when migration marked it; this is the intended load (see Findings) |
| BaseSystem.SavesSystem.NewContainerAsWritten | Assets/Runtime/Scripts/Base/SavesSystem.cs:75-76 | the container load as the code reads, with a deferred query: a fresh container holds one fresh record per stored id, as stored (unmigrated) and clean |
| BaseSystem.SavesSystem.EnumerateTwice | Assets/Runtime/Scripts/Base/SaveProvider.cs:50-64 | after the migrating enumeration, a second enumeration of the query yields fresh, clean records equal to the stored documents |
| BaseSystem.SavesSystem.Subscribe | Assets/Runtime/Scripts/Base/SavesSystem.cs:77-78 | the container reports to the system's dirty set and is cached under its type |
| BaseSystem.SavesSystem.CreateNewInstanceOfSave | Assets/Runtime/Scripts/Base/SavesSystem.cs:85-93 | a fresh record of the type with the requested id, just created and dirty, with its event fired once and nobody subscribed |
| BaseSystem.SavesSystem.OnSaveContainerChanged | Assets/Runtime/Scripts/Base/SavesSystem.cs:95-98 | the changed container joins the dirty set |
| BaseSystem.SavesSystem.GetSave | Assets/Runtime/Scripts/Base/SavesSystem.cs:100-111 | the returned record is the one the type's container holds under the id; a cached record is returned unchanged, a stored one is loaded migrated (the intended load; see Findings), and otherwise a new one is created and added; the dirty set is unchanged |
| BaseSystem.SavesSystem.GetSaveTwice | Assets/Runtime/Scripts/Base/SavesSystem.cs:100-111 | asking twice for the same type and id returns the same instance |
| BaseSystem.SavesSystem.FindOrCreate | Assets/Runtime/Scripts/Base/SavesSystem.cs:103-110 | a record present in the container is returned; otherwise a new record is created and added under the id |
| BaseSystem.SavesSystem.GetSaves | Assets/Runtime/Scripts/Base/SavesSystem.cs:113-117 | the records returned are exactly the type's container's records; when not cached, a fresh container of the type's migrated records, each dirty exactly when migration marked it, with exactly the stored ids (the intended load; see Findings); the dirty set is unchanged |
| BaseSystem.SavesSystem.PreloadAllSavesOfType | Assets/Runtime/Scripts/Base/SavesSystem.cs:52-55 | the type's container is cached afterwards; if it was not before, it is a fresh container of the type's migrated records with exactly the stored ids (the intended load; see Findings); the dirty set is unchanged |
| BaseSystem.SavesSystem.SaveDirtyFiles | Assets/Runtime/Scripts/Base/SavesSystem.cs:119-155 | raises exactly the notification events of the rule; every dirty container, once, has all its records stamped, serialized into the pending buffer and reset; the set is emptied and the writer woken |
| BaseSystem.SavesSystem.Drain | Assets/Runtime/Scripts/Base/SavesSystem.cs:142-154 | with no dirty container nothing is handed over; otherwise as `HandOver` |
| BaseSystem.SavesSystem.HandOver | Assets/Runtime/Scripts/Base/SavesSystem.cs:142-154 | every dirty container, once, is staged for writing with all its records stamped and reset; the set is empty and the writer signalled |
| BaseSystem.SavesSystem.ClearDirtySet | Assets/Runtime/Scripts/Base/SavesSystem.cs:152-153 | the dirty set is empty and the writer signalled |
| BaseSystem.SavesSystem.ObserveProgress | Assets/Runtime/Scripts/Base/SavesSystem.cs:121-140 | the system raises the notification events of the rule and remembers the writer's state |
| BaseSystem.SavesSystem.WriteBack | Assets/Runtime/Scripts/Base/SavesSystem.cs:146-150 | the provider stages the batch and every batch record ends stamped and clean |
| BaseSystem.SavesSystem.StageAndReset | Assets/Runtime/Scripts/Base/SavesSystem.cs:146-150 | the provider stages the containers, then every record of every container is reset |
| BaseSystem.SavesSystem.ResetAll | Assets/Runtime/Scripts/Base/SavesSystem.cs:147-150 | every record of every drained container is clean |
| BaseSystem.SavesSystem.BeginWrite | Assets/Runtime/Scripts/Base/SavesSystem.cs:164-169 | the wake-up is consumed and, with this provider, the flag stays down |
| BaseSystem.SavesSystem.EndWrite | Assets/Runtime/Scripts/Base/SavesSystem.cs:172-180 | everything pending is written to the database; the writer exits once the system is uninitialized |
| BaseSystem.SavesSystem.Uninitialize | Assets/Runtime/Scripts/Base/SavesSystem.cs:62-69 | when initialized, a final drain of every dirty container, then the writer stops and the database holds everything pending plus the drained records' units; otherwise nothing changes |
| BaseSystem.SavesSystem.StopAfterDrain | Assets/Runtime/Scripts/Base/SavesSystem.cs:66-68 | stopping the writer leaves the drained records, and what they serialize to, as they are |
| BaseSystem.SavesSystem.Stop | Assets/Runtime/Scripts/Base/SavesSystem.cs:66-68 | the writer is woken, finishes, and everything pending is in the database |
| BaseSystem.SavesSystem.Join | Assets/Runtime/Scripts/Base/SavesSystem.cs:68 | the writer runs to its exit and the buffer ends written and empty |

## Left out

- Threads: the writer thread's interleavings finer than its two atomic steps are not modelled. Each lock, swap and write cycle is one step. In the source, a writer in mid-cycle when `Uninitialize` clears `isInitialized` exits its loop without another cycle, so the final drain can stay unwritten. The model's `Join` finishes the cycle in progress, or runs one cycle when the writer was waiting. Either way, everything pending is written.
- `Dispose`: the model starts from `Uninitialize`. Both systems dispose the provider before `Uninitialize` (Assets/Runtime/Scripts/SavesSystem.cs:221-225, Assets/Runtime/Scripts/Base/SavesSystem.cs:188-192). For LiteDB this closes the database before the final drain is written, and that write then fails. The JSON provider's `Dispose` does nothing.
- Exceptions thrown by LiteDB and by the file system are not modelled, apart from a JSON file write failing. That failure is a `failing` set of file names: the write is skipped, as the catch in `WriteSave` does.
- Logging, `InjectLogger` and `SaveSystemLogger` are left out. `SaveSystemLogger.Log` is compiled only when `SAZONOFF_SAVESYSTEM_LOGSENABLED` is defined (Assets/Runtime/Scripts/Base/SaveSystemLogger.cs:24-25); by default the call is stripped, and `AddMigrationRule` silently ignores a duplicate id, as the model does. With that symbol defined, a duplicate rule registered before the provider injects the logger dereferences a null logger and throws `NullReferenceException`; that build is not modelled.
- `SampleMigrations.SampleHandler` includes a repeated registration of rule 2 that the sample scene does not perform. In the default build it is ignored; only with `SAZONOFF_SAVESYSTEM_LOGSENABLED` defined would it throw, as above.
- Reflection: `Activator.CreateInstance`, the `[Save]` attribute and the assembly scanning of the type providers are left out. They become a type registry (`SaveData`) handed to the system.
- C# events are modelled with at most one subscriber per record or container, which is how the library uses them.
- JSON and BSON mapping are not modelled: a record serializes to its `Snapshot`. The JSON serializer skips `IsDirty`, whose setter is private, so records the JSON provider loads start clean.
- LiteDbProvider.LiteDbSaveProvider.ReadSaves, `EnumerateTwice`, `NewContainerAsWritten` and `SampleLoads.LoadFiftyThroughContainers` state that records read from LiteDB start clean, and `GetAllSavesOfType`, `NewContainer`, `LoadContainer`, `GetSaves` and `PreloadAllSavesOfType` that they are dirty exactly when migration marked them. LiteDB's `BsonMapper` most likely maps `IsDirty` despite its private setter; the document is built before `ResetDirty` (Assets/Runtime/Scripts/Providers/LiteDB/LiteDbSaveProvider.cs:41), so a record written while dirty would load with the flag set. The model's document has no dirty flag. The newer system never reads `IsDirty`, so no other contract depends on it.
- Enumeration order of hash sets and dictionaries is left open (`Enumerate`). Contracts hold for every order.
- `saveCounter` is an unbounded integer: the 32-bit wrap-around after 2^31 notifying writes is not modelled. Wrap-around is modelled only in the sample migration rules.
- The constructor and `Initialize` are merged into one constructor, and `saveProvider.Initialize()` becomes the provider's constructor. Directory creation and database opening are not modelled.
- BaseRecords.SaveContainer.constructor requires the given records to have distinct ids. With a duplicate id the source's `Dictionary.Add` throws inside the constructor. The only caller passes records read from one LiteDB collection, whose ids are distinct.
- Inside `HandOver`, the model clears the dirty set and signals the writer before the provider call, while the source does so after it. The step is atomic, so the order inside it is not observable.
- Migration.MigrationRule.constructor: a rule's `Step` sees and changes only the record's own properties (`Data`). The source's `Migrate` receives the whole record and could also change `Id`, `JustCreatedFlag` or `SavedMigrationId`; such a rule is not modelled. The sample rules change only their own properties.
- A migration rule's own `SetDirty` inside `Migrate` is folded into the handler's final `SetDirty`. The effect on `IsDirty` is the same, and a freshly loaded record has no subscriber yet.
- `migrationRules.Sort()` is modelled as a sorted insertion. It is proved to keep the list strictly ascending by id, which is the only order `Sort` can produce on rules with distinct ids.
- `IsSaveWasWrittenWithThatRule` is a predicate on the stored id, used by `FindRule` and `TryMigrate`.
- SampleLoads.SampleSystem pairs the JSON migration sample's record type and handler with the LiteDB provider to exhibit the container load. The shipped migration sample uses the JSON provider, and the LiteDB usage sample registers no handler.
- `SaveSystemHelperEditor`, `NetSaveToFileLogic` and the usage samples' scene scripts are not part of this model.
- LegacySystem.SavesSystem.GetSaveTwice: the second call is proved to return the same instance only when the first call succeeded with the requested id. A file whose stored `Id` differs from the id in its name is cached under the stored `Id`, so asking again reloads it.

## Findings

| source | as written | input that shows it | evidently intended | confidence | as-written member | corrected member |
|---|---|---|---|---|---|---|
| Assets/Runtime/Scripts/Base/SaveProvider.cs:50-64 | `GetAllSavesOfType` migrates the records of LiteDB's deferred `FindAll` query in a `foreach`, then returns the query itself; the `SaveContainer` constructor called at Base/SavesSystem.cs:75-76 enumerates it again and receives freshly read, unmigrated records (clean as modelled; see Left out on LiteDB's dirty flag) | the migration sample's record stored as `SomeNumber = 50, SomeNumberAnother = 7` with the sentinel id: the intended load gives (50, -50); the container holds (50, 7), and the next write stamps it with id 2, so no later load replays rule 2 | the container receives the migrated records, dirty exactly when migration marked them | not executed; relies on `FindAll` returning a deferred query | BaseSystem.SavesSystem.NewContainerAsWritten, SampleLoads.LoadFiftyThroughContainers | BaseSystem.SavesSystem.NewContainer |
