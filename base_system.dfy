/**
 * The newer saves system, `SavesSystem` of Assets/Runtime/Scripts/Base/SavesSystem.cs, over the
 * LiteDB provider: one `SaveContainer` per record type, loaded on first use and cached; the hash
 * set of containers a member change has marked dirty; and the write-back cycle. The writer thread
 * is two atomic steps, `BeginWrite` and `EndWrite`, that callers interleave with the main-thread
 * operations.
 */
module BaseSystem {
  import opened Wrappers
  import opened SaveTypes
  import opened PendingWrites
  import opened BaseRecords
  import opened LiteDbProvider
  import opened SaveNotification
  import opened Collections

  /** The records of the given containers. */
  ghost function RecordsOf<P>(containers: set<SaveContainer<P>>): set<Save<P>>
    reads containers`saves
  {
    set c, s | c in containers && s in c.saves.Values :: s
  }

  class SavesSystem<P(==)> {
    /** The type registry: every record type the system can hand out. */
    const savesTypes: map<TypeName, SaveData<P>>
    const saveProvider: LiteDbSaveProvider<P>
    /** `dirtySaves`: cached containers are subscribed into this set. */
    const dirtySaves: ContainerSet<P>
    var isInitialized: bool
    var cachedSavesContainers: map<TypeName, SaveContainer<P>>
    var prevSaveInProgress: bool
    var prevSaveCounter: int
    var saveCounter: int
    var IsSaveInProgress: bool
    /** The argument of every `SaveInProgressChanged` raised so far, in order. */
    var SaveInProgressChanged: seq<bool>
    /** The `AutoResetEvent` that wakes the writer. */
    var signalled: bool
    var writer: WriterPhase

    /** The values the notification rule works on. */
    function CurrentProgress(): Progress
      reads this
    {
      Progress(prevSaveInProgress, prevSaveCounter, IsSaveInProgress, saveCounter)
    }

    /** Every record of every cached container. */
    ghost function Loaded(): set<Save<P>>
      reads this`cachedSavesContainers, cachedSavesContainers.Values`saves
    {
      set c, s | c in cachedSavesContainers.Values && s in c.saves.Values :: s
    }

    /**
     * Every cached container sits under its own registered type, keeps its members under their
     * ids and is subscribed to the dirty set.
     */
    ghost predicate CacheValid()
      reads this`cachedSavesContainers, cachedSavesContainers.Values
      reads (set c, s | c in cachedSavesContainers.Values && s in c.saves.Values :: s)`Id
      reads (set c, s | c in cachedSavesContainers.Values && s in c.saves.Values :: s)`subscriber
    {
      forall t | t in cachedSavesContainers ::
        t in savesTypes && cachedSavesContainers[t].MySaveType == t &&
        cachedSavesContainers[t].subscriber == dirtySaves && cachedSavesContainers[t].Valid()
    }

    /**
     * The cache is well formed, the dirty set only holds cached containers, the writer has not
     * exited while the system is initialized, and the in-progress flag is up only inside a
     * notifying write.
     */
    ghost predicate Consistent()
      reads this, dirtySaves, cachedSavesContainers.Values
      reads (set c, s | c in cachedSavesContainers.Values && s in c.saves.Values :: s)`Id
      reads (set c, s | c in cachedSavesContainers.Values && s in c.saves.Values :: s)`subscriber
    {
      CacheValid() &&
      dirtySaves.Elements <= cachedSavesContainers.Values &&
      !(isInitialized && writer.Stopped?) &&
      IsSaveInProgress == (writer.Writing? && writer.RequiredNotification)
    }

    /** The provider is between calls and knows the system's record types, and the system is consistent. */
    ghost predicate Valid()
      reads this, saveProvider, dirtySaves, cachedSavesContainers.Values
      reads (set c, s | c in cachedSavesContainers.Values && s in c.saves.Values :: s)`Id
      reads (set c, s | c in cachedSavesContainers.Values && s in c.saves.Values :: s)`subscriber
    {
      saveProvider.Valid() && saveProvider.SavesTypes == savesTypes && Consistent()
    }

    /** `new SavesSystem(...)` followed by `Initialize`: dependencies injected and the writer started. */
    constructor (types: map<TypeName, SaveData<P>>, provider: LiteDbSaveProvider<P>)
      requires provider.Valid()
      modifies provider`SavesTypes
      ensures Valid() && fresh(dirtySaves)
      ensures savesTypes == types && saveProvider == provider && provider.SavesTypes == types
      ensures isInitialized && writer == Waiting && !signalled
      ensures cachedSavesContainers == map[] && dirtySaves.Elements == {} && SaveInProgressChanged == []
      ensures CurrentProgress() == Progress(false, 0, false, 0)
    {
      savesTypes, saveProvider := types, provider;
      dirtySaves := new ContainerSet();
      cachedSavesContainers := map[];
      prevSaveInProgress, prevSaveCounter, saveCounter, IsSaveInProgress := false, 0, 0, false;
      SaveInProgressChanged, signalled := [], false;
      new;
      provider.InjectDependencies(types);
      isInitialized := true;
      writer := Waiting;
    }

    /**
     * `LoadContainer`: the cached container of type `t`; on first use, a new container of the
     * provider's records for `t`, subscribed to the dirty set only after it is filled, so records
     * that migration left dirty do not put it in the set.
     */
    method LoadContainer(t: TypeName) returns (c: SaveContainer<P>)
      requires Valid() && t in savesTypes
      modifies this`cachedSavesContainers
      ensures Valid()
      ensures t in cachedSavesContainers && c == cachedSavesContainers[t]
      ensures old(t in cachedSavesContainers) ==> c == old(cachedSavesContainers[t]) && cachedSavesContainers == old(cachedSavesContainers)
      ensures old(t !in cachedSavesContainers) ==>
                fresh(c) && cachedSavesContainers == old(cachedSavesContainers)[t := c] &&
                c.saves.Keys == saveProvider.CollectionOfType(t).Keys &&
                forall id | id in c.saves :: fresh(c.saves[id]) && c.saves[id].Type == t &&
                  c.saves[id].Serialize() == saveProvider.Migrated(t, saveProvider.CollectionOfType(t)[id]) &&
                  c.saves[id].IsDirty == saveProvider.MigrationMarksDirty(t, saveProvider.CollectionOfType(t)[id])
      ensures dirtySaves.Elements == old(dirtySaves.Elements)
    {
      if t !in cachedSavesContainers {
        c := NewContainer(t);
        Subscribe(t, c);
        return;
      }
      c := cachedSavesContainers[t];
    }

    /** The miss branch of `LoadContainer` up to the subscription: a container of the provider's records. */
    method NewContainer(t: TypeName) returns (c: SaveContainer<P>)
      requires saveProvider.Valid() && t in savesTypes && saveProvider.SavesTypes == savesTypes
      ensures fresh(c) && c.MySaveType == t && c.subscriber == null && c.Valid()
      ensures forall s | s in c.saves.Values :: fresh(s)
      ensures c.saves.Keys == saveProvider.CollectionOfType(t).Keys
      ensures forall id | id in c.saves :: c.saves[id].Type == t &&
                c.saves[id].Serialize() == saveProvider.Migrated(t, saveProvider.CollectionOfType(t)[id]) &&
                c.saves[id].IsDirty == saveProvider.MigrationMarksDirty(t, saveProvider.CollectionOfType(t)[id])
    {
      var saves := saveProvider.GetAllSavesOfType(t);
      ghost var ids := set s | s in saves.value :: s.Id;
      assert ids == saveProvider.CollectionOfType(t).Keys;
      c := new SaveContainer(t, saves);
      LoadedKeys(c, saves.value, ids);
    }

    /**
     * The miss branch of `LoadContainer` as the code reads: `GetAllSavesOfType` hands back LiteDB's
     * deferred `FindAll` query, so its migrating loop runs over one enumeration of the collection and
     * the container's constructor over a second one. The migrated records are dropped; the container
     * holds the stored documents as read, unmigrated and clean. `NewContainer` is the intended load.
     */
    method NewContainerAsWritten(t: TypeName) returns (c: SaveContainer<P>)
      requires saveProvider.Valid() && t in savesTypes && saveProvider.SavesTypes == savesTypes
      ensures fresh(c) && c.MySaveType == t && c.subscriber == null && c.Valid()
      ensures c.saves.Keys == saveProvider.CollectionOfType(t).Keys
      ensures forall id | id in c.saves :: fresh(c.saves[id]) && c.saves[id].Type == t &&
                c.saves[id].Serialize() == saveProvider.CollectionOfType(t)[id] && !c.saves[id].IsDirty
    {
      var reread := EnumerateTwice(t);
      ghost var ids := set s | s in reread :: s.Id;
      c := new SaveContainer(t, Some(reread));
      LoadedKeys(c, reread, ids);
    }

    /** The two enumerations of the deferred query: the first migrates records nobody keeps, the second reads afresh. */
    method EnumerateTwice(t: TypeName) returns (reread: seq<Save<P>>)
      requires saveProvider.Valid() && t in saveProvider.SavesTypes
      ensures DistinctIds(reread) && Unsubscribed(reread)
      ensures (set s | s in reread :: s.Id) == saveProvider.CollectionOfType(t).Keys
      ensures forall s | s in reread :: fresh(s) && s.Type == t && s.Id in saveProvider.CollectionOfType(t) &&
                s.Serialize() == saveProvider.CollectionOfType(t)[s.Id] && !s.IsDirty
    {
      var migrated := saveProvider.GetAllSavesOfType(t);
      reread := saveProvider.ReadSaves(t);
    }

    /**
     * `SomeSaveChanged += OnSaveContainerChanged` and `cachedSavesContainers.Add`: a new container
     * subscribed to the dirty set and cached under its own type.
     */
    method Subscribe(t: TypeName, c: SaveContainer<P>)
      requires Valid() && t in savesTypes && t !in cachedSavesContainers && c !in cachedSavesContainers.Values
      requires c.MySaveType == t && c.Valid()
      modifies this`cachedSavesContainers, c`subscriber
      ensures Valid() && c.subscriber == dirtySaves && cachedSavesContainers == old(cachedSavesContainers)[t := c]
    {
      c.subscriber := dirtySaves;
      cachedSavesContainers := cachedSavesContainers[t := c];
    }

    /** A container filled from `loaded` holds exactly the ids `loaded` carries, each under its record. */
    static lemma LoadedKeys(c: SaveContainer<P>, loaded: seq<Save<P>>, keys: set<int>)
      requires c.Valid() && (set s | s in loaded :: s.Id) == keys
      requires c.saves.Values == set s | s in loaded
      requires forall s | s in loaded :: s.Id in c.saves && c.saves[s.Id] == s
      ensures c.saves.Keys == keys
      ensures forall id | id in c.saves :: c.saves[id] in loaded
    {
      forall id | id in c.saves ensures id in keys && c.saves[id] in loaded {
        assert c.saves[id] in c.saves.Values;
      }
      forall id | id in keys ensures id in c.saves {
        var s :| s in loaded && s.Id == id;
      }
    }

    /**
     * `CreateNewInstanceOfSave`: a new record with the given id, just created and marked dirty.
     * It is not subscribed yet, so marking it dirty reaches no container.
     */
    method CreateNewInstanceOfSave(id: int, t: TypeName) returns (save: Save<P>)
      requires t in savesTypes
      ensures fresh(save) && save.subscriber == null
      ensures save.Type == t && save.Id == id && save.JustCreatedFlag && save.IsDirty
      ensures save.Data == savesTypes[t].NewData && save.SavedMigrationId == NoMigration
      ensures save.NotifyUserAboutSaving == savesTypes[t].NotifyUserAboutSaving && save.ChangedEvents == 1
    {
      save := new Save(t, savesTypes[t].NotifyUserAboutSaving, savesTypes[t].NewData);
      save.Id := id;
      save.OnNewInstanceCreated();
      save.SetDirty();
    }

    /** `OnSaveContainerChanged`: the handler every cached container's `SomeSaveChanged` is subscribed to. */
    method OnSaveContainerChanged(container: SaveContainer<P>)
      modifies dirtySaves
      ensures dirtySaves.Elements == old(dirtySaves.Elements) + {container}
    {
      dirtySaves.Elements := dirtySaves.Elements + {container};
    }

    /**
     * `GetSave`: the member of the type's container stored under `id`; when there is none, a new
     * record added to the container. The new record is marked dirty before the container
     * subscribes to it, so the dirty set does not change.
     */
    method GetSave(t: TypeName, id: int) returns (save: Save<P>)
      requires Valid() && t in savesTypes
      modifies this`cachedSavesContainers
      modifies if t in cachedSavesContainers then {cachedSavesContainers[t]} else {}
      ensures Valid()
      ensures t in cachedSavesContainers && id in cachedSavesContainers[t].saves
      ensures save == cachedSavesContainers[t].saves[id] && save.Id == id
      ensures cachedSavesContainers == old(cachedSavesContainers)[t := cachedSavesContainers[t]]
      ensures dirtySaves.Elements == old(dirtySaves.Elements)
      ensures old(t in cachedSavesContainers && id in cachedSavesContainers[t].saves) ==>
                save == old(cachedSavesContainers[t].saves[id]) &&
                cachedSavesContainers[t].saves == old(cachedSavesContainers[t].saves)
      ensures old(t in cachedSavesContainers && id !in cachedSavesContainers[t].saves) ==>
                cachedSavesContainers[t].saves == old(cachedSavesContainers[t].saves)[id := save]
      ensures old(t !in cachedSavesContainers) ==>
                cachedSavesContainers[t].saves.Keys == saveProvider.CollectionOfType(t).Keys + {id}
      ensures old(t !in cachedSavesContainers) && id in saveProvider.CollectionOfType(t) ==>
                fresh(save) && save.Type == t &&
                save.Serialize() == saveProvider.Migrated(t, saveProvider.CollectionOfType(t)[id]) &&
                save.IsDirty == saveProvider.MigrationMarksDirty(t, saveProvider.CollectionOfType(t)[id])
      ensures old(t !in cachedSavesContainers || id !in cachedSavesContainers[t].saves) &&
              (old(t in cachedSavesContainers) || id !in saveProvider.CollectionOfType(t)) ==>
                fresh(save) && save.Type == t && save.JustCreatedFlag && save.IsDirty &&
                save.Data == savesTypes[t].NewData && save.SavedMigrationId == NoMigration
    {
      var container := LoadContainer(t);
      save := FindOrCreate(t, container, id);
    }

    /** Asking twice for the same (type, id) hands out the same instance, carrying that id. */
    method GetSaveTwice(t: TypeName, id: int) returns (first: Save<P>, second: Save<P>)
      requires Valid() && t in savesTypes
      modifies this`cachedSavesContainers
      modifies if t in cachedSavesContainers then {cachedSavesContainers[t]} else {}
      ensures first == second && first.Id == id
    {
      first := GetSave(t, id);
      ghost var c := cachedSavesContainers[t];
      assert id in c.saves && first == c.saves[id];
      second := GetSave(t, id);
    }

    /** The part of `GetSave` after `LoadContainer`: the member under `id`, or a new record added under it. */
    method FindOrCreate(t: TypeName, c: SaveContainer<P>, id: int) returns (save: Save<P>)
      requires Valid() && t in cachedSavesContainers && c == cachedSavesContainers[t]
      modifies c`saves
      ensures Valid() && id in c.saves && save == c.saves[id] && save.Id == id
      ensures old(id in c.saves) ==> save == old(c.saves[id]) && c.saves == old(c.saves)
      ensures old(id !in c.saves) ==>
                c.saves == old(c.saves)[id := save] &&
                fresh(save) && save.Type == t && save.JustCreatedFlag && save.IsDirty &&
                save.Data == savesTypes[t].NewData && save.SavedMigrationId == NoMigration
    {
      if c.HaveSaveWithId(id) {
        return c.GetSaveById(id);
      }
      save := CreateNewInstanceOfSave(id, t);
      var added := c.AddNewSave(save);
    }

    /** `GetSaves`: every member of the type's container, loading it on first use. */
    method GetSaves(t: TypeName) returns (saves: set<Save<P>>)
      requires Valid() && t in savesTypes
      modifies this`cachedSavesContainers
      ensures Valid()
      ensures t in cachedSavesContainers && saves == cachedSavesContainers[t].saves.Values
      ensures old(t in cachedSavesContainers) ==> saves == old(cachedSavesContainers[t].saves.Values) && cachedSavesContainers == old(cachedSavesContainers)
      ensures old(t !in cachedSavesContainers) ==>
                var c := cachedSavesContainers[t];
                fresh(c) && cachedSavesContainers == old(cachedSavesContainers)[t := c] &&
                c.saves.Keys == saveProvider.CollectionOfType(t).Keys &&
                forall id | id in c.saves :: fresh(c.saves[id]) && c.saves[id].Type == t &&
                  c.saves[id].Serialize() == saveProvider.Migrated(t, saveProvider.CollectionOfType(t)[id]) &&
                  c.saves[id].IsDirty == saveProvider.MigrationMarksDirty(t, saveProvider.CollectionOfType(t)[id])
      ensures dirtySaves.Elements == old(dirtySaves.Elements)
    {
      var container := LoadContainer(t);
      saves := container.GetAllSaves();
    }

    /**
     * `PreloadAllSavesOfType`: loads and caches the type's container; its records arrive migrated,
     * and the dirty set is left as it was even when migration marked some of them dirty.
     */
    method PreloadAllSavesOfType(t: TypeName)
      requires Valid() && t in savesTypes
      modifies this`cachedSavesContainers
      ensures Valid() && t in cachedSavesContainers
      ensures old(t in cachedSavesContainers) ==> cachedSavesContainers == old(cachedSavesContainers)
      ensures old(t !in cachedSavesContainers) ==>
                var c := cachedSavesContainers[t];
                fresh(c) && cachedSavesContainers == old(cachedSavesContainers)[t := c] &&
                c.saves.Keys == saveProvider.CollectionOfType(t).Keys &&
                forall id | id in c.saves :: fresh(c.saves[id]) && c.saves[id].Type == t &&
                  c.saves[id].Serialize() == saveProvider.Migrated(t, saveProvider.CollectionOfType(t)[id]) &&
                  c.saves[id].IsDirty == saveProvider.MigrationMarksDirty(t, saveProvider.CollectionOfType(t)[id])
      ensures dirtySaves.Elements == old(dirtySaves.Elements)
    {
      var container := LoadContainer(t);
    }

    /**
     * `SaveDirtyFiles`: the notification rule, then, when some container is dirty, the hand-over of
     * every dirty container to the provider, the reset of every member's dirty flag, the clear of
     * the set and the writer's wake-up. `batch` is the order the set was enumerated in and
     * `orders[i]` the order the members of `batch[i]` were serialized in.
     */
    method SaveDirtyFiles() returns (ghost batch: seq<SaveContainer<P>>, ghost orders: seq<seq<Save<P>>>)
      requires Valid()
      modifies this`prevSaveInProgress, this`prevSaveCounter, this`SaveInProgressChanged, this`signalled
      modifies saveProvider`tempList, saveProvider`bsonsToSave, dirtySaves
      modifies RecordsOf(dirtySaves.Elements)`IsDirty, RecordsOf(dirtySaves.Elements)`SavedMigrationId
      ensures Valid()
      ensures CurrentProgress() == ObserveNext(old(CurrentProgress()))
      ensures SaveInProgressChanged == old(SaveInProgressChanged) + ObserveEvents(old(CurrentProgress()))
      ensures Enumerates(batch, old(dirtySaves.Elements)) && saveProvider.EnumeratesMembers(batch, orders)
      ensures forall c | c in batch :: c.MySaveType in savesTypes
      ensures saveProvider.bsonsToSave == MergeAll(old(saveProvider.bsonsToSave), saveProvider.BatchUnits(batch, orders))
      ensures forall s | s in Members(batch) ::
                !s.IsDirty && s.SavedMigrationId == saveProvider.Stamp(s.Type, old(s.SavedMigrationId))
      ensures dirtySaves.Elements == {}
      ensures signalled == (old(signalled) || old(dirtySaves.Elements) != {})
    {
      ObserveProgress();
      batch, orders := Drain();
    }

    /** The hand-over of `SaveDirtyFiles`, skipped when no container is dirty. */
    method Drain() returns (ghost batch: seq<SaveContainer<P>>, ghost orders: seq<seq<Save<P>>>)
      requires Valid()
      modifies this`signalled, saveProvider`tempList, saveProvider`bsonsToSave, dirtySaves
      modifies RecordsOf(dirtySaves.Elements)`IsDirty, RecordsOf(dirtySaves.Elements)`SavedMigrationId
      ensures Valid() && dirtySaves.Elements == {}
      ensures Enumerates(batch, old(dirtySaves.Elements)) && saveProvider.EnumeratesMembers(batch, orders)
      ensures forall c | c in batch :: c.MySaveType in savesTypes
      ensures saveProvider.bsonsToSave == MergeAll(old(saveProvider.bsonsToSave), saveProvider.BatchUnits(batch, orders))
      ensures forall s | s in Members(batch) ::
                !s.IsDirty && s.SavedMigrationId == saveProvider.Stamp(s.Type, old(s.SavedMigrationId))
      ensures signalled == (old(signalled) || old(dirtySaves.Elements) != {})
    {
      batch, orders := [], [];
      if |dirtySaves.Elements| > 0 {
        batch, orders := HandOver();
      }
    }

    /**
     * The write-back half of `SaveDirtyFiles`, run when the dirty set is not empty. The set is
     * cleared and the writer signalled before the provider call here and after it in the source;
     * the step is atomic, so the order inside it is not observable.
     */
    method HandOver() returns (ghost batch: seq<SaveContainer<P>>, ghost orders: seq<seq<Save<P>>>)
      requires Valid()
      modifies this`signalled, saveProvider`tempList, saveProvider`bsonsToSave, dirtySaves
      modifies RecordsOf(dirtySaves.Elements)`IsDirty, RecordsOf(dirtySaves.Elements)`SavedMigrationId
      ensures Valid() && signalled && dirtySaves.Elements == {}
      ensures Enumerates(batch, old(dirtySaves.Elements)) && saveProvider.EnumeratesMembers(batch, orders)
      ensures forall c | c in batch :: c.MySaveType in savesTypes
      ensures saveProvider.bsonsToSave == MergeAll(old(saveProvider.bsonsToSave), saveProvider.BatchUnits(batch, orders))
      ensures forall s | s in Members(batch) ::
                !s.IsDirty && s.SavedMigrationId == saveProvider.Stamp(s.Type, old(s.SavedMigrationId))
    {
      ghost var drained := dirtySaves.Elements;
      var dirty := Enumerate(dirtySaves.Elements);
      batch := dirty;
      MembersOfEnumeration(dirty, drained);
      ClearDirtySet();
      orders := WriteBack(dirty, drained);
    }

    /** `dirtySaves.Clear()` and `waitHandler.Set()`. */
    method ClearDirtySet()
      requires Valid()
      modifies this`signalled, dirtySaves
      ensures Valid() && signalled && dirtySaves.Elements == {}
    {
      dirtySaves.Elements := {};
      signalled := true;
    }

    /** The records of an enumeration of a set of containers are the records of the set. */
    static lemma MembersOfEnumeration(xs: seq<SaveContainer<P>>, s: set<SaveContainer<P>>)
      requires Enumerates(xs, s)
      ensures Members(xs) == RecordsOf(s)
    {
    }

    /** The notification half of `SaveDirtyFiles`. */
    method ObserveProgress()
      requires Valid()
      modifies this`prevSaveInProgress, this`prevSaveCounter, this`SaveInProgressChanged
      ensures Valid()
      ensures CurrentProgress() == ObserveNext(old(CurrentProgress()))
      ensures SaveInProgressChanged == old(SaveInProgressChanged) + ObserveEvents(old(CurrentProgress()))
    {
      if prevSaveInProgress != IsSaveInProgress {
        SaveInProgressChanged := SaveInProgressChanged + [IsSaveInProgress];
        prevSaveInProgress := IsSaveInProgress;
        prevSaveCounter := saveCounter;
      } else {
        if prevSaveCounter != saveCounter {
          SaveInProgressChanged := SaveInProgressChanged + [true, false];
          prevSaveCounter := saveCounter;
        }
      }
    }

    /** `StageAndReset` on the system's own provider keeps the system valid; `drained` is the set `dirty` enumerates. */
    method WriteBack(dirty: seq<SaveContainer<P>>, ghost drained: set<SaveContainer<P>>) returns (ghost orders: seq<seq<Save<P>>>)
      requires Valid() && forall c | c in dirty :: c.MySaveType in savesTypes
      requires Members(dirty) == RecordsOf(drained)
      modifies saveProvider`tempList, saveProvider`bsonsToSave, RecordsOf(drained)`IsDirty, RecordsOf(drained)`SavedMigrationId
      ensures Valid() && saveProvider.EnumeratesMembers(dirty, orders)
      ensures saveProvider.bsonsToSave == MergeAll(old(saveProvider.bsonsToSave), saveProvider.BatchUnits(dirty, orders))
      ensures forall s | s in Members(dirty) :: !s.IsDirty && s.SavedMigrationId == saveProvider.Stamp(s.Type, old(s.SavedMigrationId))
    {
      orders := StageAndReset(saveProvider, dirty);
    }

    /** The provider call of `SaveDirtyFiles` and the `foreach` that resets every drained container. */
    static method StageAndReset(provider: LiteDbSaveProvider<P>, dirty: seq<SaveContainer<P>>) returns (ghost orders: seq<seq<Save<P>>>)
      requires provider.Valid() && forall c | c in dirty :: c.MySaveType in provider.SavesTypes
      modifies provider`tempList, provider`bsonsToSave, Members(dirty)`IsDirty, Members(dirty)`SavedMigrationId
      ensures provider.Valid() && provider.EnumeratesMembers(dirty, orders)
      ensures provider.bsonsToSave == MergeAll(old(provider.bsonsToSave), provider.BatchUnits(dirty, orders))
      ensures forall s | s in Members(dirty) :: !s.IsDirty && s.SavedMigrationId == provider.Stamp(s.Type, old(s.SavedMigrationId))
    {
      orders := provider.AddSavesToWrite(dirty);
      ResetAll(dirty);
    }

    /** `ResetDirty` on every drained container: every member ends clean. */
    static method ResetAll(containers: seq<SaveContainer<P>>)
      modifies Members(containers)`IsDirty
      ensures forall s | s in Members(containers) :: !s.IsDirty
    {
      for i := 0 to |containers|
        invariant forall s | s in Members(containers[..i]) :: !s.IsDirty
      {
        containers[i].ResetDirty();
        assert forall s | s in Members(containers[..i + 1]) :: s in Members(containers[..i]) || s in containers[i].saves.Values;
      }
      assert containers[..|containers|] == containers;
    }

    /**
     * The writer wakes on the event (which resets it) and reads whether any pending unit asks for
     * the notification; with this provider none does, so the flag stays down.
     */
    method BeginWrite()
      requires Valid() && writer == Waiting && signalled
      modifies this`IsSaveInProgress, this`signalled, this`writer
      ensures Valid() && !signalled
      ensures writer == Writing(false)
      ensures CurrentProgress() == old(CurrentProgress())
    {
      signalled := false;
      var requiredNotification := saveProvider.AnySaveRequiresNotification();
      IsSaveInProgress := SaveNotification.BeginWrite(CurrentProgress(), requiredNotification).IsSaveInProgress;
      writer := Writing(requiredNotification);
    }

    /**
     * The writer writes the pending buffer to the database, then, in a notifying cycle, bumps the
     * counter and lowers the flag; it goes back to waiting while the system is initialized and
     * exits otherwise.
     */
    method EndWrite()
      requires Valid() && writer.Writing?
      modifies this`saveCounter, this`IsSaveInProgress, this`writer
      modifies saveProvider`bsonsToSave, saveProvider`bsonsToSaveTemp, saveProvider`db
      ensures Valid()
      ensures saveProvider.db == StoreAll(old(saveProvider.db), old(saveProvider.bsonsToSave))
      ensures saveProvider.bsonsToSave == []
      ensures CurrentProgress() == SaveNotification.EndWrite(old(CurrentProgress()), old(writer).RequiredNotification)
      ensures writer == if isInitialized then Waiting else Stopped
    {
      saveProvider.WriteSaves();
      if writer.RequiredNotification {
        saveCounter := saveCounter + 1;
        IsSaveInProgress := false;
      }
      writer := if isInitialized then Waiting else Stopped;
    }

    /**
     * `Uninitialize`: when initialized, one final drain, then the writer is woken and joined; it
     * writes everything pending, the final drain included, and exits. When not initialized,
     * nothing happens. `batch` is the containers of the final drain, `orders` the order their
     * records were serialized in, and `units` what that serialized.
     */
    method Uninitialize() returns (ghost batch: seq<SaveContainer<P>>, ghost orders: seq<seq<Save<P>>>, ghost units: seq<PendingUnit<P>>)
      requires Valid()
      modifies this`prevSaveInProgress, this`prevSaveCounter, this`SaveInProgressChanged, this`signalled
      modifies this`isInitialized, this`IsSaveInProgress, this`writer, this`saveCounter
      modifies saveProvider`tempList, saveProvider`bsonsToSave, saveProvider`bsonsToSaveTemp, saveProvider`db
      modifies dirtySaves, RecordsOf(dirtySaves.Elements)`IsDirty, RecordsOf(dirtySaves.Elements)`SavedMigrationId
      ensures Valid()
      ensures !old(isInitialized) ==> batch == [] && orders == [] && units == [] && unchanged(this, saveProvider, dirtySaves)
      ensures old(isInitialized) ==> !isInitialized && writer == Stopped && !IsSaveInProgress
      ensures old(isInitialized) ==>
                Enumerates(batch, old(dirtySaves.Elements)) && dirtySaves.Elements == {} &&
                saveProvider.bsonsToSave == [] && cachedSavesContainers == old(cachedSavesContainers)
      ensures old(isInitialized) ==>
                saveProvider.EnumeratesMembers(batch, orders) && (forall c | c in batch :: c.MySaveType in savesTypes) &&
                units == saveProvider.BatchUnits(batch, orders)
      ensures old(isInitialized) ==>
                saveProvider.db == StoreAll(old(saveProvider.db), MergeAll(old(saveProvider.bsonsToSave), units))
    {
      batch, orders, units := [], [], [];
      if !isInitialized {
        return;
      }
      batch, orders := SaveDirtyFiles();
      units := saveProvider.BatchUnits(batch, orders);
      StopAfterDrain(batch, orders);
    }

    /** `Stop`, which leaves the records of the final drain, and so what they serialize to, as they are. */
    method StopAfterDrain(ghost drained: seq<SaveContainer<P>>, ghost orders: seq<seq<Save<P>>>)
      requires Valid() && isInitialized
      requires |orders| == |drained| && forall c | c in drained :: c.MySaveType in saveProvider.SavesTypes
      modifies this`isInitialized, this`IsSaveInProgress, this`signalled, this`writer, this`saveCounter
      modifies saveProvider`bsonsToSave, saveProvider`bsonsToSaveTemp, saveProvider`db
      ensures Valid() && !isInitialized && writer == Stopped && !IsSaveInProgress
      ensures saveProvider.db == StoreAll(old(saveProvider.db), old(saveProvider.bsonsToSave))
      ensures saveProvider.bsonsToSave == []
      ensures saveProvider.BatchUnits(drained, orders) == old(saveProvider.BatchUnits(drained, orders))
      ensures saveProvider.EnumeratesMembers(drained, orders) == old(saveProvider.EnumeratesMembers(drained, orders))
    {
      Stop();
    }

    /** `isInitialized = false`, the last wake-up and `Join`. */
    method Stop()
      requires Valid() && isInitialized
      modifies this`isInitialized, this`IsSaveInProgress, this`signalled, this`writer, this`saveCounter
      modifies saveProvider`bsonsToSave, saveProvider`bsonsToSaveTemp, saveProvider`db
      ensures Valid() && !isInitialized && writer == Stopped && !IsSaveInProgress
      ensures saveProvider.db == StoreAll(old(saveProvider.db), old(saveProvider.bsonsToSave))
      ensures saveProvider.bsonsToSave == []
    {
      isInitialized := false;
      signalled := true;
      Join();
    }

    /** `Join` after the last wake-up: the writer finishes its cycle, or runs one, and exits. */
    method Join()
      requires Valid() && !isInitialized && signalled && !writer.Stopped?
      modifies this`IsSaveInProgress, this`signalled, this`writer, this`saveCounter
      modifies saveProvider`bsonsToSave, saveProvider`bsonsToSaveTemp, saveProvider`db
      ensures Valid() && writer == Stopped && !IsSaveInProgress
      ensures saveProvider.db == StoreAll(old(saveProvider.db), old(saveProvider.bsonsToSave))
      ensures saveProvider.bsonsToSave == []
    {
      if writer == Waiting {
        BeginWrite();
      }
      EndWrite();
    }
  }
}
