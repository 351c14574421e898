/**
 * The older saves system, `SavesSystem` of Assets/Runtime/Scripts/SavesSystem.cs: a per-type,
 * per-id cache of `SaveFile` records, the hash set of dirty records, and the write-back cycle
 * through the JSON provider. The writer thread is two atomic steps, `BeginWrite` and `EndWrite`,
 * that callers interleave with the main-thread operations.
 */
module LegacySystem {
  import opened Wrappers
  import opened SaveTypes
  import opened PendingWrites
  import opened LegacyRecords
  import opened JsonProvider
  import opened SaveNotification
  import opened Collections

  class SavesSystem<P(==)> {
    /** The type registry: every record type the system can hand out. */
    const savesTypes: map<TypeName, SaveData<P>>
    const saveProvider: JsonSaveProvider<P>
    /** `dirtySaves`: cached records are subscribed into this set. */
    const dirtySaves: SaveFileSet<P>
    var isInitialized: bool
    var cachedSaves: map<TypeName, map<int, SaveFile<P>>>
    var prevSaveInProgress: bool
    var prevSaveCounter: int
    var saveCounter: int
    var IsSaveInProgress: bool
    /** The argument of every `SaveInProgressChanged` raised so far, in order. */
    var SaveInProgressChanged: seq<bool>
    /** The `AutoResetEvent` that wakes the writer. */
    var signalled: bool
    var writer: WriterPhase

    /** The values the notification rule works on. */
    function CurrentProgress(): Progress
      reads this
    {
      Progress(prevSaveInProgress, prevSaveCounter, IsSaveInProgress, saveCounter)
    }

    /** The cached records of type `t`, by id (empty when the type has no map yet). */
    function CachedOfType(t: TypeName): map<int, SaveFile<P>>
      reads this
    {
      if t in cachedSaves then cachedSaves[t] else map[]
    }

    /**
     * Every cached record sits under its own type and id and is subscribed to the dirty set; the
     * dirty set only holds registered record types; the writer has not exited while the system is
     * initialized, and the in-progress flag is up only inside a notifying write.
     */
    ghost predicate Consistent()
      reads this, dirtySaves
      reads (set t, id | t in cachedSaves && id in cachedSaves[t] :: cachedSaves[t][id])`Id
      reads (set t, id | t in cachedSaves && id in cachedSaves[t] :: cachedSaves[t][id])`subscriber
    {
      (forall t | t in cachedSaves :: t in savesTypes) &&
      (forall t, id | t in cachedSaves && id in cachedSaves[t] ::
         cachedSaves[t][id].Type == t && cachedSaves[t][id].Id == id && cachedSaves[t][id].subscriber == dirtySaves) &&
      (forall s | s in dirtySaves.Elements :: s.Type in savesTypes) &&
      !(isInitialized && writer.Stopped?) &&
      IsSaveInProgress == (writer.Writing? && writer.RequiredNotification)
    }

    /** The provider is between calls and knows the system's record types, and the system is consistent. */
    ghost predicate Valid()
      reads this, saveProvider, dirtySaves
      reads (set t, id | t in cachedSaves && id in cachedSaves[t] :: cachedSaves[t][id])`Id
      reads (set t, id | t in cachedSaves && id in cachedSaves[t] :: cachedSaves[t][id])`subscriber
    {
      saveProvider.Valid() && saveProvider.SavesTypes == savesTypes && Consistent()
    }

    /** `new SavesSystem(...)` followed by `Initialize`: dependencies injected and the writer started. */
    constructor (types: map<TypeName, SaveData<P>>, provider: JsonSaveProvider<P>)
      requires provider.Valid()
      modifies provider`SavesTypes
      ensures Valid() && fresh(dirtySaves)
      ensures savesTypes == types && saveProvider == provider && provider.SavesTypes == types
      ensures isInitialized && writer == Waiting && !signalled
      ensures cachedSaves == map[] && dirtySaves.Elements == {} && SaveInProgressChanged == []
      ensures CurrentProgress() == Progress(false, 0, false, 0)
    {
      savesTypes, saveProvider := types, provider;
      dirtySaves := new SaveFileSet();
      cachedSaves := map[];
      prevSaveInProgress, prevSaveCounter, saveCounter, IsSaveInProgress := false, 0, 0, false;
      SaveInProgressChanged, signalled := [], false;
      new;
      provider.InjectDependencies(types);
      isInitialized := true;
      writer := Waiting;
    }

    /** `CacheSave`: creates the type's map on first use, then adds the record; a taken id throws, after that creation. */
    method CacheSave(saveFile: SaveFile<P>) returns (r: Outcome<Error>)
      requires Valid() && saveFile.Type in savesTypes && saveFile.subscriber == dirtySaves
      modifies this`cachedSaves
      ensures Valid()
      ensures var t := saveFile.Type;
              var before := old(CachedOfType(t));
              r == (if saveFile.Id in before then Fail(DuplicateKey) else Pass) &&
              cachedSaves == old(cachedSaves)[t := if r.Pass? then before[saveFile.Id := saveFile] else before]
    {
      var t := saveFile.Type;
      if t !in cachedSaves {
        var empty: map<int, SaveFile<P>> := map[];
        cachedSaves := cachedSaves[t := empty];
      }
      if saveFile.Id in cachedSaves[t] {
        return Fail(DuplicateKey);
      }
      var forType: map<int, SaveFile<P>> := cachedSaves[t];
      cachedSaves := cachedSaves[t := forType[saveFile.Id := saveFile]];
      r := Pass;
    }

    /** `CreateNewInstanceOfSave`: a new record with the given id, subscribed, marked dirty and cached. */
    method CreateNewInstanceOfSave(id: int, t: TypeName) returns (save: SaveFile<P>)
      requires Valid() && t in savesTypes
      requires t !in cachedSaves || id !in cachedSaves[t]
      modifies this`cachedSaves, dirtySaves
      ensures Valid() && fresh(save)
      ensures save.Type == t && save.Id == id && save.JustCreatedFlag && save.IsDirty
      ensures save.Data == savesTypes[t].NewData && save.SavedMigrationId == NoMigration
      ensures save.NotifyUserAboutSaving == savesTypes[t].NotifyUserAboutSaving
      ensures dirtySaves.Elements == old(dirtySaves.Elements) + {save}
      ensures cachedSaves == old(cachedSaves)[t := old(CachedOfType(t))[id := save]]
    {
      save := new SaveFile(t, savesTypes[t].NotifyUserAboutSaving, savesTypes[t].NewData);
      save.Id := id;
      save.OnNewInstanceCreated();
      save.subscriber := dirtySaves;
      save.SetDirty();
      var cached := CacheSave(save);
    }

    /** `OnSaveChanged`: the handler every cached record's `SaveChanged` is subscribed to. */
    method OnSaveChanged(saveFile: SaveFile<P>)
      modifies dirtySaves
      ensures dirtySaves.Elements == old(dirtySaves.Elements) + {saveFile}
    {
      dirtySaves.Elements := dirtySaves.Elements + {saveFile};
    }

    /**
     * `GetSave`: the cached record for (type, id); otherwise the provider's record, subscribed,
     * put in the dirty set when migration left it dirty, and cached under its stored id (which throws
     * when that id is taken, leaving the record in the dirty set); otherwise a new record. Both
     * source branches (type known to the cache or not) do the same. `loaded` is what the provider
     * returned, if it was asked.
     */
    method GetSave(t: TypeName, id: int) returns (r: Result<SaveFile<P>, Error>, ghost loaded: Option<SaveFile<P>>)
      requires Valid() && t in savesTypes
      modifies this`cachedSaves, dirtySaves
      ensures Valid()
      ensures old(t in cachedSaves && id in cachedSaves[t]) ==>
                r == Success(old(cachedSaves[t][id])) && loaded.None? && cachedSaves == old(cachedSaves) &&
                dirtySaves.Elements == old(dirtySaves.Elements)
      ensures var name := FileName(savesTypes[t].SaveName, id);
              old(t !in cachedSaves || id !in cachedSaves[t]) && name in saveProvider.files ==>
                var stored := saveProvider.files[name];
                var before := old(CachedOfType(t));
                loaded.Some? && var s := loaded.value;
                fresh(s) && s.Type == t && s.Id == stored.Id && s.subscriber == dirtySaves &&
                s.Serialize() == saveProvider.Migrated(t, stored) &&
                s.IsDirty == saveProvider.MigrationMarksDirty(t, stored) &&
                dirtySaves.Elements == old(dirtySaves.Elements) + (if s.IsDirty then {s} else {}) &&
                r == (if stored.Id in before then Failure(DuplicateKey) else Success(s)) &&
                (r.Success? ==> cachedSaves == old(cachedSaves)[t := before[stored.Id := s]]) &&
                (r.Failure? ==> cachedSaves == old(cachedSaves))
      ensures var name := FileName(savesTypes[t].SaveName, id);
              old(t !in cachedSaves || id !in cachedSaves[t]) && name !in saveProvider.files ==>
                r.Success? && loaded.None? && var s := r.value;
                fresh(s) && s.Type == t && s.Id == id && s.JustCreatedFlag && s.IsDirty &&
                s.Data == savesTypes[t].NewData && s.SavedMigrationId == NoMigration &&
                cachedSaves == old(cachedSaves)[t := old(CachedOfType(t))[id := s]] &&
                dirtySaves.Elements == old(dirtySaves.Elements) + {s}
    {
      loaded := None;
      if t in cachedSaves && id in cachedSaves[t] {
        return Success(cachedSaves[t][id]), loaded;
      }
      var loadedSave := saveProvider.GetSave(id, t);
      loaded := loadedSave;
      if loadedSave.Some? {
        var cached := AdoptLoaded(loadedSave.value);
        if cached.Fail? {
          return Failure(cached.error), loaded;
        }
        return Success(loadedSave.value), loaded;
      }
      var newSave := CreateNewInstanceOfSave(id, t);
      return Success(newSave), loaded;
    }

    /** Once `GetSave` has handed out a record for (type, id), asking again hands out the same instance. */
    method GetSaveTwice(t: TypeName, id: int) returns (first: Result<SaveFile<P>, Error>, second: Result<SaveFile<P>, Error>)
      requires Valid() && t in savesTypes
      modifies this`cachedSaves, dirtySaves
      ensures first.Success? && first.value.Id == id ==> second == first
    {
      ghost var loaded;
      first, loaded := GetSave(t, id);
      second, loaded := GetSave(t, id);
    }

    /**
     * `PreloadAllSavesOfType`: caches what the provider finds for the type (at most the record with
     * id 0), like a load in `GetSave`: a record migration left dirty joins the dirty set before it is
     * cached, so it stays there even when its id is already cached and the call throws. `loaded` is
     * what the provider returned.
     */
    method PreloadAllSavesOfType(t: TypeName) returns (r: Outcome<Error>, ghost loaded: seq<SaveFile<P>>)
      requires Valid() && t in savesTypes
      modifies this`cachedSaves, dirtySaves
      ensures Valid()
      ensures var name := FileName(savesTypes[t].SaveName, 0);
              name !in saveProvider.files ==>
                r.Pass? && loaded == [] && cachedSaves == old(cachedSaves) && dirtySaves.Elements == old(dirtySaves.Elements)
      ensures var name := FileName(savesTypes[t].SaveName, 0);
              name in saveProvider.files ==>
                var stored := saveProvider.files[name];
                var before := old(CachedOfType(t));
                |loaded| == 1 && var s := loaded[0];
                fresh(s) && s.Type == t && s.Id == stored.Id && s.subscriber == dirtySaves &&
                s.Serialize() == saveProvider.Migrated(t, stored) &&
                s.IsDirty == saveProvider.MigrationMarksDirty(t, stored) &&
                dirtySaves.Elements == old(dirtySaves.Elements) + (if s.IsDirty then {s} else {}) &&
                r == (if stored.Id in before then Fail(DuplicateKey) else Pass) &&
                (r.Pass? ==> cachedSaves == old(cachedSaves)[t := before[stored.Id := s]]) &&
                (r.Fail? ==> cachedSaves == old(cachedSaves))
    {
      var saves := saveProvider.GetAllSaves(t);
      loaded := saves;
      r := Pass;
      for i := 0 to |saves|
        invariant Valid() && |saves| <= 1 && loaded == saves
        modifies this`cachedSaves, dirtySaves, (set s | s in saves)`subscriber
        invariant i == 0 ==> cachedSaves == old(cachedSaves) && dirtySaves.Elements == old(dirtySaves.Elements)
        invariant i == 0 ==> forall s | s in saves :: fresh(s) && s.Type == t && s.subscriber == null &&
                               s.Serialize() == saveProvider.Migrated(t, saveProvider.files[FileName(savesTypes[t].SaveName, 0)]) &&
                               s.IsDirty == saveProvider.MigrationMarksDirty(t, saveProvider.files[FileName(savesTypes[t].SaveName, 0)])
        invariant i == 1 ==> var stored := saveProvider.files[FileName(savesTypes[t].SaveName, 0)];
                             var before := old(CachedOfType(t));
                             var s := saves[0];
                             fresh(s) && s.Type == t && s.Id == stored.Id && s.subscriber == dirtySaves &&
                             s.Serialize() == saveProvider.Migrated(t, stored) &&
                             s.IsDirty == saveProvider.MigrationMarksDirty(t, stored) &&
                             dirtySaves.Elements == old(dirtySaves.Elements) + (if s.IsDirty then {s} else {}) &&
                             stored.Id !in before && cachedSaves == old(cachedSaves)[t := before[stored.Id := s]]
        invariant r == Pass
      {
        r := AdoptLoaded(saves[i]);
        if r.Fail? {
          return;
        }
      }
    }

    /**
     * What `GetSave` and `PreloadAllSavesOfType` do with a record the provider loaded: put it in the
     * dirty set if migration left it dirty, subscribe to it, and cache it.
     */
    method AdoptLoaded(save: SaveFile<P>) returns (r: Outcome<Error>)
      requires Valid() && save.Type in savesTypes && save.subscriber == null
      modifies this`cachedSaves, dirtySaves, save`subscriber
      ensures Valid() && save.subscriber == dirtySaves
      ensures dirtySaves.Elements == old(dirtySaves.Elements) + (if save.IsDirty then {save} else {})
      ensures r == (if save.Id in old(CachedOfType(save.Type)) then Fail(DuplicateKey) else Pass)
      ensures cachedSaves == old(cachedSaves)[save.Type := if r.Pass? then old(CachedOfType(save.Type))[save.Id := save]
                                                           else old(CachedOfType(save.Type))]
    {
      if save.IsDirty {
        OnSaveChanged(save);
      }
      save.subscriber := dirtySaves;
      r := CacheSave(save);
    }

    /**
     * `SaveDirtyFiles`: applies the notification rule, then, when some record is dirty, hands the
     * whole dirty set to the provider, resets each record's dirty flag, empties the set and wakes
     * the writer. With nothing dirty the provider is not called.
     */
    method SaveDirtyFiles() returns (ghost batch: seq<SaveFile<P>>)
      requires Valid()
      modifies this`prevSaveInProgress, this`prevSaveCounter, this`SaveInProgressChanged, this`signalled
      modifies saveProvider`tempList, saveProvider`jsonsToSave, dirtySaves
      modifies dirtySaves.Elements`IsDirty, dirtySaves.Elements`SavedMigrationId
      ensures Valid()
      ensures CurrentProgress() == ObserveNext(old(CurrentProgress()))
      ensures SaveInProgressChanged == old(SaveInProgressChanged) + ObserveEvents(old(CurrentProgress()))
      ensures |batch| == |old(dirtySaves.Elements)| && forall s :: s in batch <==> s in old(dirtySaves.Elements)
      ensures saveProvider.jsonsToSave == MergeAll(old(saveProvider.jsonsToSave), saveProvider.UnitsOf(batch))
      ensures forall s | s in old(dirtySaves.Elements) ::
                !s.IsDirty && s.SavedMigrationId == saveProvider.Stamp(s.Type, old(s.SavedMigrationId))
      ensures dirtySaves.Elements == {}
      ensures signalled == (old(signalled) || old(dirtySaves.Elements) != {})
    {
      ObserveProgress();
      batch := Drain();
    }

    /** The hand-over of `SaveDirtyFiles`, skipped when no record is dirty. */
    method Drain() returns (ghost batch: seq<SaveFile<P>>)
      requires Valid()
      modifies this`signalled, saveProvider`tempList, saveProvider`jsonsToSave, dirtySaves
      modifies dirtySaves.Elements`IsDirty, dirtySaves.Elements`SavedMigrationId
      ensures Valid() && dirtySaves.Elements == {}
      ensures |batch| == |old(dirtySaves.Elements)| && forall s :: s in batch <==> s in old(dirtySaves.Elements)
      ensures saveProvider.jsonsToSave == MergeAll(old(saveProvider.jsonsToSave), saveProvider.UnitsOf(batch))
      ensures forall s | s in old(dirtySaves.Elements) ::
                !s.IsDirty && s.SavedMigrationId == saveProvider.Stamp(s.Type, old(s.SavedMigrationId))
      ensures signalled == (old(signalled) || old(dirtySaves.Elements) != {})
    {
      batch := [];
      if |dirtySaves.Elements| > 0 {
        batch := HandOver();
      }
    }

    /**
     * The write-back half of `SaveDirtyFiles`, run when the dirty set is not empty. The set is
     * cleared and the writer signalled before the provider call here and after it in the source;
     * the step is atomic, so the order inside it is not observable.
     */
    method HandOver() returns (ghost batch: seq<SaveFile<P>>)
      requires Valid()
      modifies this`signalled, saveProvider`tempList, saveProvider`jsonsToSave, dirtySaves
      modifies dirtySaves.Elements`IsDirty, dirtySaves.Elements`SavedMigrationId
      ensures Valid() && signalled && dirtySaves.Elements == {}
      ensures |batch| == |old(dirtySaves.Elements)| && forall s :: s in batch <==> s in old(dirtySaves.Elements)
      ensures saveProvider.jsonsToSave == MergeAll(old(saveProvider.jsonsToSave), saveProvider.UnitsOf(batch))
      ensures forall s | s in old(dirtySaves.Elements) ::
                !s.IsDirty && s.SavedMigrationId == saveProvider.Stamp(s.Type, old(s.SavedMigrationId))
    {
      var dirty := Enumerate(dirtySaves.Elements);
      batch := dirty;
      ClearDirtySet();
      WriteBack(saveProvider, dirty);
    }

    /** `dirtySaves.Clear()` and `waitHandler.Set()`. */
    method ClearDirtySet()
      requires Valid()
      modifies this`signalled, dirtySaves
      ensures Valid() && signalled && dirtySaves.Elements == {}
    {
      dirtySaves.Elements := {};
      signalled := true;
    }

    /** The notification half of `SaveDirtyFiles`. */
    method ObserveProgress()
      requires Valid()
      modifies this`prevSaveInProgress, this`prevSaveCounter, this`SaveInProgressChanged
      ensures Valid()
      ensures CurrentProgress() == ObserveNext(old(CurrentProgress()))
      ensures SaveInProgressChanged == old(SaveInProgressChanged) + ObserveEvents(old(CurrentProgress()))
    {
      if prevSaveInProgress != IsSaveInProgress {
        SaveInProgressChanged := SaveInProgressChanged + [IsSaveInProgress];
        prevSaveInProgress := IsSaveInProgress;
        prevSaveCounter := saveCounter;
      } else {
        if prevSaveCounter != saveCounter {
          SaveInProgressChanged := SaveInProgressChanged + [true, false];
          prevSaveCounter := saveCounter;
        }
      }
    }

    /** The provider call of `SaveDirtyFiles` and the `foreach` that resets every drained record's dirty flag. */
    static method WriteBack(provider: JsonSaveProvider<P>, dirty: seq<SaveFile<P>>)
      requires provider.Valid() && forall s | s in dirty :: s.Type in provider.SavesTypes
      modifies provider`tempList, provider`jsonsToSave, (set s | s in dirty)`IsDirty, (set s | s in dirty)`SavedMigrationId
      ensures provider.Valid()
      ensures provider.jsonsToSave == MergeAll(old(provider.jsonsToSave), provider.UnitsOf(dirty))
      ensures forall s | s in dirty :: !s.IsDirty && s.SavedMigrationId == provider.Stamp(s.Type, old(s.SavedMigrationId))
    {
      provider.AddSavesToWrite(dirty);
      ResetAll(dirty);
    }

    static method ResetAll(saves: seq<SaveFile<P>>)
      modifies (set s | s in saves)`IsDirty
      ensures forall s | s in saves :: !s.IsDirty
    {
      for i := 0 to |saves|
        invariant forall s | s in saves[..i] :: !s.IsDirty
      {
        saves[i].ResetDirty();
        assert saves[..i + 1] == saves[..i] + [saves[i]];
      }
      assert saves[..|saves|] == saves;
    }

    /**
     * The writer wakes on the event (which resets it) and reads whether any pending unit asks for
     * the notification; if so it raises the in-progress flag.
     */
    method BeginWrite()
      requires Valid() && writer == Waiting && signalled
      modifies this`IsSaveInProgress, this`signalled, this`writer
      ensures Valid() && !signalled
      ensures writer == Writing(saveProvider.AnySaveRequiresNotification())
      ensures CurrentProgress() == SaveNotification.BeginWrite(old(CurrentProgress()), saveProvider.AnySaveRequiresNotification())
    {
      signalled := false;
      var requiredNotification := saveProvider.AnySaveRequiresNotification();
      if requiredNotification {
        IsSaveInProgress := true;
      }
      writer := Writing(requiredNotification);
    }

    /**
     * The writer writes the pending buffer (files in `failing` cannot be written), then, in a
     * notifying cycle, bumps the counter and lowers the flag; it goes back to waiting while the
     * system is initialized and exits otherwise.
     */
    method EndWrite(failing: set<string>)
      requires Valid() && writer.Writing?
      modifies this`saveCounter, this`IsSaveInProgress, this`writer
      modifies saveProvider`jsonsToSave, saveProvider`jsonsToSaveTemp, saveProvider`files
      ensures Valid()
      ensures saveProvider.files == StoreAll(old(saveProvider.files), old(saveProvider.jsonsToSave), failing)
      ensures saveProvider.jsonsToSave == []
      ensures CurrentProgress() == SaveNotification.EndWrite(old(CurrentProgress()), old(writer).RequiredNotification)
      ensures writer == if isInitialized then Waiting else Stopped
    {
      saveProvider.WriteSaves(failing);
      if writer.RequiredNotification {
        saveCounter := saveCounter + 1;
        IsSaveInProgress := false;
      }
      writer := if isInitialized then Waiting else Stopped;
    }

    /**
     * `Dispose` (the JSON provider's own `Dispose` does nothing) and `Uninitialize`: when
     * initialized, one final drain, then the writer is woken and joined; it writes everything
     * pending, the final drain included (files in `failing` cannot be written), and exits. When
     * not initialized, nothing happens. `batch` is the records of the final drain and `units`
     * what that serialized.
     */
    method Uninitialize(failing: set<string>) returns (ghost batch: seq<SaveFile<P>>, ghost units: seq<PendingUnit<P>>)
      requires Valid()
      modifies this, saveProvider`tempList, saveProvider`jsonsToSave, saveProvider`jsonsToSaveTemp, saveProvider`files
      modifies dirtySaves, dirtySaves.Elements`IsDirty, dirtySaves.Elements`SavedMigrationId
      ensures Valid()
      ensures !old(isInitialized) ==> batch == [] && units == [] && unchanged(this, saveProvider, dirtySaves)
      ensures old(isInitialized) ==> !isInitialized && writer == Stopped && !IsSaveInProgress
      ensures old(isInitialized) ==> (dirtySaves.Elements == {} && saveProvider.jsonsToSave == [] &&
                                      forall s :: s in batch <==> s in old(dirtySaves.Elements))
      ensures old(isInitialized) ==> cachedSaves == old(cachedSaves)
      ensures old(isInitialized) ==> units == saveProvider.UnitsOf(batch)
      ensures old(isInitialized) ==>
                saveProvider.files == StoreAll(old(saveProvider.files), MergeAll(old(saveProvider.jsonsToSave), units), failing)
    {
      batch, units := [], [];
      if !isInitialized {
        return;
      }
      batch := SaveDirtyFiles();
      units := saveProvider.UnitsOf(batch);
      Stop(failing, batch);
    }

    /** `isInitialized = false`, the last wake-up and `Join`. */
    method Stop(failing: set<string>, ghost drained: seq<SaveFile<P>>)
      requires Valid() && isInitialized && forall s | s in drained :: s.Type in saveProvider.SavesTypes
      modifies this`isInitialized, this`IsSaveInProgress, this`signalled, this`writer, this`saveCounter
      modifies saveProvider`jsonsToSave, saveProvider`jsonsToSaveTemp, saveProvider`files
      ensures Valid() && !isInitialized && writer == Stopped && !IsSaveInProgress
      ensures saveProvider.files == StoreAll(old(saveProvider.files), old(saveProvider.jsonsToSave), failing)
      ensures saveProvider.jsonsToSave == []
      ensures saveProvider.UnitsOf(drained) == old(saveProvider.UnitsOf(drained))
    {
      isInitialized := false;
      signalled := true;
      Join(failing);
    }

    /** `Join` after the last wake-up: the writer finishes its cycle, or runs one, and exits. */
    method Join(failing: set<string>)
      requires Valid() && !isInitialized && signalled && !writer.Stopped?
      modifies this`IsSaveInProgress, this`signalled, this`writer, this`saveCounter
      modifies saveProvider`jsonsToSave, saveProvider`jsonsToSaveTemp, saveProvider`files
      ensures Valid() && writer == Stopped && !IsSaveInProgress
      ensures saveProvider.files == StoreAll(old(saveProvider.files), old(saveProvider.jsonsToSave), failing)
      ensures saveProvider.jsonsToSave == []
    {
      if writer == Waiting {
        BeginWrite();
      }
      EndWrite(failing);
    }
  }
}
