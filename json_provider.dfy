/**
 * The older provider: the migration bookkeeping of the abstract `SaveProvider`
 * (Assets/Runtime/Scripts/SaveProvider.cs) together with its JSON implementation
 * `JsonSaveProvider` (Assets/Runtime/Scripts/Providers/Json/JsonSaveProvider.cs). The save
 * folder is a map from file name to the snapshot the file holds; the JSON text itself is left out.
 */
module JsonProvider {
  import opened Wrappers
  import opened SaveTypes
  import opened Migration
  import opened PendingWrites
  import opened LegacyRecords

  const SaveFileExtension: string := ".save"

  function DigitChar(d: nat): (c: char)
    requires d < 10
    ensures '0' <= c <= '9'
  {
    (d + '0' as int) as char
  }

  /** Decimal digits of a natural number, most significant first, without leading zeros. */
  function NatToString(n: nat): (s: string)
    ensures |s| >= 1 && forall i | 0 <= i < |s| :: '0' <= s[i] <= '9'
    ensures n >= 10 <==> |s| >= 2
  {
    if n < 10 then [DigitChar(n)] else NatToString(n / 10) + [DigitChar(n % 10)]
  }

  /** `int.ToString()`: a minus sign before the digits of a negative number. */
  function IntToString(n: int): string
  {
    if n < 0 then "-" + NatToString(-n) else NatToString(n)
  }

  /** The file a record of persistence name `saveName` and id `id` is written to and read from. */
  function FileName(saveName: string, id: int): string
  {
    saveName + IntToString(id) + SaveFileExtension
  }

  lemma {:induction false} NatToStringInjective(a: nat, b: nat)
    requires NatToString(a) == NatToString(b)
    ensures a == b
  {
    if a >= 10 && b >= 10 {
      var sa, sb := NatToString(a), NatToString(b);
      assert sa[..|sa| - 1] == NatToString(a / 10) && sb[..|sb| - 1] == NatToString(b / 10);
      NatToStringInjective(a / 10, b / 10);
      assert DigitChar(a % 10) == sa[|sa| - 1] == DigitChar(b % 10);
      assert a == 10 * (a / 10) + a % 10 && b == 10 * (b / 10) + b % 10;
    }
  }

  lemma IntToStringInjective(a: int, b: int)
    requires IntToString(a) == IntToString(b)
    ensures a == b
  {
    assert IntToString(a)[0] == '-' <==> a < 0;
    assert IntToString(b)[0] == '-' <==> b < 0;
    if a < 0 && b < 0 {
      assert IntToString(a)[1..] == NatToString(-a);
      assert IntToString(b)[1..] == NatToString(-b);
      NatToStringInjective(-a, -b);
    } else if a >= 0 && b >= 0 {
      NatToStringInjective(a, b);
    }
  }

  /** Within one persistence name, different ids go to different files, so a write is read back by its id. */
  lemma FileNameInjective(saveName: string, a: int, b: int)
    requires FileName(saveName, a) == FileName(saveName, b)
    ensures a == b
  {
    var fa, fb := FileName(saveName, a), FileName(saveName, b);
    assert IntToString(a) == fa[|saveName|..|fa| - |SaveFileExtension|];
    assert IntToString(b) == fb[|saveName|..|fb| - |SaveFileExtension|];
    IntToStringInjective(a, b);
  }

  /** Across persistence names the rule is ambiguous: two different records share one file. */
  lemma FileNamesCollideAcrossNames()
    ensures FileName("Save1", 2) == FileName("Save", 12) == "Save12.save"
  {
  }

  /** One `WriteSave`: the file is overwritten with the unit's payload, unless writing it fails. */
  function StoreOne<P>(files: map<string, Snapshot<P>>, u: PendingUnit<P>, failing: set<string>): map<string, Snapshot<P>>
  {
    var name := FileName(u.SaveName, u.Id);
    if name in failing then files else files[name := u.Payload]
  }

  /** The save folder after writing `units` in order. */
  function StoreAll<P>(files: map<string, Snapshot<P>>, units: seq<PendingUnit<P>>, failing: set<string>): map<string, Snapshot<P>>
  {
    if units == [] then files else StoreOne(StoreAll(files, units[..|units| - 1], failing), units[|units| - 1], failing)
  }

  /** A unit no later unit overwrites ends up in its file, unless that file cannot be written. */
  lemma {:induction false} StoreAllWrites<P>(files: map<string, Snapshot<P>>, units: seq<PendingUnit<P>>, failing: set<string>, k: nat)
    requires k < |units| && FileName(units[k].SaveName, units[k].Id) !in failing
    requires forall j | k < j < |units| :: FileName(units[j].SaveName, units[j].Id) != FileName(units[k].SaveName, units[k].Id)
    ensures var name := FileName(units[k].SaveName, units[k].Id);
            name in StoreAll(files, units, failing) && StoreAll(files, units, failing)[name] == units[k].Payload
  {
    var init := units[..|units| - 1];
    if k < |units| - 1 {
      StoreAllWrites(files, init, failing, k);
    }
  }

  /**
   * A write that fails is caught and the loop goes on: a file no unit names, or whose write fails,
   * keeps its old content, and a failing unit does not stop later units.
   */
  lemma {:induction false} StoreAllKeeps<P>(files: map<string, Snapshot<P>>, units: seq<PendingUnit<P>>, failing: set<string>, name: string)
    requires name in failing || forall u | u in units :: FileName(u.SaveName, u.Id) != name
    ensures name in StoreAll(files, units, failing) <==> name in files
    ensures name in files ==> StoreAll(files, units, failing)[name] == files[name]
  {
    if units != [] {
      var init := units[..|units| - 1];
      assert forall u | u in init :: u in units;
      StoreAllKeeps(files, init, failing, name);
    }
  }

  /** The older provider with its JSON save folder. */
  class JsonSaveProvider<P(==)> {
    /** The type registry handed over by `InjectDependencies`. */
    var SavesTypes: map<TypeName, SaveData<P>>
    var MigrationHandlers: map<TypeName, MigrationHandler<P>>
    var tempList: seq<PendingUnit<P>>
    /** The buffer the main thread merges into. */
    var jsonsToSave: seq<PendingUnit<P>>
    /** The buffer the writer drains. */
    var jsonsToSaveTemp: seq<PendingUnit<P>>
    /** The save folder: file name to the record it holds. */
    var files: map<string, Snapshot<P>>

    /** Between calls the scratch list and the writer's buffer are empty, and the pending buffer has one unit per key. */
    ghost predicate Valid()
      reads this
    {
      tempList == [] && jsonsToSaveTemp == [] && KeysUnique(jsonsToSave)
    }

    /** A provider over a save folder that already holds `folder`. */
    constructor (folder: map<string, Snapshot<P>>)
      ensures Valid() && files == folder && jsonsToSave == []
      ensures SavesTypes == map[] && MigrationHandlers == map[]
    {
      SavesTypes, MigrationHandlers := map[], map[];
      tempList, jsonsToSave, jsonsToSaveTemp := [], [], [];
      files := folder;
    }

    method InjectDependencies(savesTypes: map<TypeName, SaveData<P>>)
      modifies this`SavesTypes
      ensures SavesTypes == savesTypes
    {
      SavesTypes := savesTypes;
    }

    /** `Dictionary.Add`: a second handler for one record type throws and changes nothing. */
    method RegisterSaveTypeMigrationHandler(t: TypeName, handler: MigrationHandler<P>) returns (r: Outcome<Error>)
      modifies this`MigrationHandlers
      ensures r == (if t in old(MigrationHandlers) then Fail(DuplicateKey) else Pass)
      ensures r.Pass? ==> MigrationHandlers == old(MigrationHandlers)[t := handler]
      ensures r.Fail? ==> MigrationHandlers == old(MigrationHandlers)
    {
      if t in MigrationHandlers {
        return Fail(DuplicateKey);
      }
      MigrationHandlers := MigrationHandlers[t := handler];
      r := Pass;
    }

    /** The migration id a record of type `t` holding `stored` carries after stamping. */
    function Stamp(t: TypeName, stored: int): int
      reads this, MigrationHandlers.Values
    {
      StampWith(MigrationHandlers, t, stored)
    }

    /** The unit `SerializeDirtySaves` builds for one record. */
    function UnitOf(s: SaveFile<P>): PendingUnit<P>
      requires s.Type in SavesTypes
      reads this`SavesTypes, s`Id, s`JustCreatedFlag, s`SavedMigrationId, s`Data
    {
      PendingUnit(s.Type, s.Id, s.Serialize(), SavesTypes[s.Type].SaveName, s.NotifyUserAboutSaving)
    }

    function UnitsOf(saves: seq<SaveFile<P>>): (units: seq<PendingUnit<P>>)
      requires forall s | s in saves :: s.Type in SavesTypes
      reads this`SavesTypes, saves`Id, saves`JustCreatedFlag, saves`SavedMigrationId, saves`Data
      ensures |units| == |saves| && forall i | 0 <= i < |saves| :: units[i] == UnitOf(saves[i])
    {
      if saves == [] then [] else UnitsOf(saves[..|saves| - 1]) + [UnitOf(saves[|saves| - 1])]
    }

    /**
     * `AddSavesToWrite`: stamps each record with its type's current migration id (records of a type
     * without a handler keep theirs), then serializes all of them into the pending buffer.
     */
    method AddSavesToWrite(dirtySaves: seq<SaveFile<P>>)
      requires Valid()
      requires forall s | s in dirtySaves :: s.Type in SavesTypes
      modifies this`tempList, this`jsonsToSave, (set s | s in dirtySaves)`SavedMigrationId
      ensures Valid()
      ensures forall s | s in dirtySaves :: s.SavedMigrationId == Stamp(s.Type, old(s.SavedMigrationId))
      ensures jsonsToSave == MergeAll(old(jsonsToSave), UnitsOf(dirtySaves))
    {
      for i := 0 to |dirtySaves|
        invariant forall s | s in dirtySaves && s !in dirtySaves[..i] :: s.SavedMigrationId == old(s.SavedMigrationId)
        invariant forall s | s in dirtySaves[..i] :: s.SavedMigrationId == Stamp(s.Type, old(s.SavedMigrationId))
        invariant Valid() && jsonsToSave == old(jsonsToSave)
      {
        var s := dirtySaves[i];
        if s.Type in MigrationHandlers {
          s.SavedMigrationId := MigrationHandlers[s.Type].GetCurrentMigrationId();
        }
        assert dirtySaves[..i + 1] == dirtySaves[..i] + [s];
      }
      assert dirtySaves[..|dirtySaves|] == dirtySaves;
      ghost var units := SerializeDirtySaves(dirtySaves);
    }

    /** Serializes every record once into the scratch list, merges the list into the pending buffer, clears it. */
    method SerializeDirtySaves(dirtySaves: seq<SaveFile<P>>) returns (ghost units: seq<PendingUnit<P>>)
      requires Valid()
      requires forall s | s in dirtySaves :: s.Type in SavesTypes
      modifies this`tempList, this`jsonsToSave
      ensures Valid()
      ensures units == UnitsOf(dirtySaves) && jsonsToSave == MergeAll(old(jsonsToSave), units)
    {
      var batch := SerializeAll(dirtySaves);
      tempList := batch;
      MergeIntoPending(batch);
      tempList := [];
      units := batch;
    }

    /** The second loop of `SerializeDirtySaves`: each unit replaces the pending unit with its key, or is appended. */
    method MergeIntoPending(units: seq<PendingUnit<P>>)
      requires KeysUnique(jsonsToSave)
      modifies this`jsonsToSave
      ensures jsonsToSave == MergeAll(old(jsonsToSave), units) && KeysUnique(jsonsToSave)
    {
      ghost var start := jsonsToSave;
      for i := 0 to |units|
        invariant jsonsToSave == MergeAll(start, units[..i])
      {
        var save := units[i];
        var index := FindIndex(jsonsToSave, save.Type, save.Id);
        assert units[..i + 1][..i] == units[..i];
        assert MergeAll(start, units[..i + 1]) == Upsert(jsonsToSave, save);
        if index != -1 {
          jsonsToSave := jsonsToSave[index := save];
        } else {
          jsonsToSave := jsonsToSave + [save];
        }
      }
      assert units[..|units|] == units;
      MergeAllKeysUnique(start, units);
    }

    /** The first loop of `SerializeDirtySaves`: one unit per record, in order. */
    method SerializeAll(dirtySaves: seq<SaveFile<P>>) returns (units: seq<PendingUnit<P>>)
      requires forall s | s in dirtySaves :: s.Type in SavesTypes
      ensures units == UnitsOf(dirtySaves)
    {
      units := [];
      for i := 0 to |dirtySaves|
        invariant units == UnitsOf(dirtySaves[..i])
      {
        assert dirtySaves[..i + 1][..i] == dirtySaves[..i];
        units := units + [UnitOf(dirtySaves[i])];
      }
      assert dirtySaves[..|dirtySaves|] == dirtySaves;
    }

    /**
     * The writer's step: swaps the buffers, writes every swapped-out unit in buffer order, and
     * clears it. Files in `failing` cannot be written; their errors are caught and skipped.
     */
    method WriteSaves(failing: set<string>)
      requires Valid()
      modifies this`jsonsToSave, this`jsonsToSaveTemp, this`files
      ensures Valid()
      ensures files == StoreAll(old(files), old(jsonsToSave), failing)
      ensures jsonsToSave == [] && jsonsToSaveTemp == []
    {
      jsonsToSave, jsonsToSaveTemp := jsonsToSaveTemp, jsonsToSave;
      var toWrite := jsonsToSaveTemp;
      for i := 0 to |toWrite|
        invariant files == StoreAll(old(files), toWrite[..i], failing)
        invariant jsonsToSave == [] && tempList == []
      {
        assert toWrite[..i + 1][..i] == toWrite[..i];
        WriteSave(toWrite[i], failing);
      }
      assert toWrite[..|toWrite|] == toWrite;
      jsonsToSaveTemp := [];
    }

    method WriteSave(jsonSave: PendingUnit<P>, failing: set<string>)
      modifies this`files
      ensures files == StoreOne(old(files), jsonSave, failing)
    {
      var fileName := FileName(jsonSave.SaveName, jsonSave.Id);
      if fileName !in failing {
        files := files[fileName := jsonSave.Payload];
      }
    }

    /** The stored snapshot after migration on load. */
    function Migrated(t: TypeName, snap: Snapshot<P>): Snapshot<P>
      reads this, MigrationHandlers.Values
    {
      MigratedWith(MigrationHandlers, t, snap)
    }

    /** Whether migration on load marks the record dirty. */
    predicate MigrationMarksDirty(t: TypeName, snap: Snapshot<P>)
      reads this, MigrationHandlers.Values
    {
      MarksDirtyWith(MigrationHandlers, t, snap)
    }

    /** `ReadSave`: a fresh record built from the file for (type, id), or nothing when there is no file. */
    method ReadSave(id: int, t: TypeName) returns (r: Option<SaveFile<P>>)
      requires t in SavesTypes
      ensures var name := FileName(SavesTypes[t].SaveName, id);
              r.None? <==> name !in files
      ensures r.Some? ==> var s := r.value;
              fresh(s) && s.Serialize() == files[FileName(SavesTypes[t].SaveName, id)] && s.Type == t &&
              s.NotifyUserAboutSaving == SavesTypes[t].NotifyUserAboutSaving && !s.IsDirty && s.subscriber == null
    {
      var fileName := FileName(SavesTypes[t].SaveName, id);
      if fileName in files {
        var snap := files[fileName];
        var save := new SaveFile(t, SavesTypes[t].NotifyUserAboutSaving, snap.Data);
        save.Id, save.JustCreatedFlag, save.SavedMigrationId := snap.Id, snap.JustCreatedFlag, snap.SavedMigrationId;
        return Some(save);
      }
      return None;
    }

    /** Runs the type's handler, if one is registered, on a freshly read record. */
    method TryMigrate(save: SaveFile<P>)
      requires save.subscriber == null
      modifies save`Data, save`IsDirty, save`ChangedEvents
      ensures save.Serialize() == Migrated(save.Type, old(save.Serialize()))
      ensures save.IsDirty == (old(save.IsDirty) || MigrationMarksDirty(save.Type, old(save.Serialize())))
    {
      if save.Type in MigrationHandlers {
        var handler := MigrationHandlers[save.Type];
        var migrated, setDirty, executed := handler.TryMigrate(save.SavedMigrationId, save.Data);
        save.Data := migrated;
        if setDirty {
          save.SetDirty();
        }
      }
    }

    /**
     * `GetSave`: the record stored for (type, id), migrated, or nothing. A found record keeps its
     * stored migration id: it is stamped only when written.
     */
    method GetSave(id: int, t: TypeName) returns (r: Option<SaveFile<P>>)
      requires t in SavesTypes
      ensures var name := FileName(SavesTypes[t].SaveName, id);
              r.None? <==> name !in files
      ensures r.Some? ==> var s := r.value; var stored := files[FileName(SavesTypes[t].SaveName, id)];
              fresh(s) && s.Type == t && s.subscriber == null &&
              s.NotifyUserAboutSaving == SavesTypes[t].NotifyUserAboutSaving &&
              s.Serialize() == Migrated(t, stored) && s.IsDirty == MigrationMarksDirty(t, stored)
    {
      r := ReadSave(id, t);
      if r.Some? {
        TryMigrate(r.value);
      }
    }

    /** `GetAllSaves`: this provider only ever finds the record with id 0. */
    method GetAllSaves(t: TypeName) returns (saves: seq<SaveFile<P>>)
      requires t in SavesTypes
      ensures |saves| <= 1
      ensures |saves| == 1 <==> FileName(SavesTypes[t].SaveName, 0) in files
      ensures forall s | s in saves :: fresh(s) && s.Type == t && s.subscriber == null &&
                s.NotifyUserAboutSaving == SavesTypes[t].NotifyUserAboutSaving &&
                s.Serialize() == Migrated(t, files[FileName(SavesTypes[t].SaveName, 0)]) &&
                s.IsDirty == MigrationMarksDirty(t, files[FileName(SavesTypes[t].SaveName, 0)])
    {
      var saveFile := GetSave(0, t);
      saves := [];
      if saveFile.Some? {
        saves := saves + [saveFile.value];
      }
    }

    /** `AnySaveRequiresNotification`, read by the writer before it swaps. */
    predicate AnySaveRequiresNotification()
      reads this
    {
      AnyNotify(jsonsToSave)
    }
  }

  /**
   * Write-then-read round trip: a record handed to an idle provider, written with no failing file,
   * reads back with the same snapshot (its stamped migration id included), unmigrated and clean.
   */
  method RoundTrip<P(==)>(provider: JsonSaveProvider<P>, s: SaveFile<P>) returns (back: Option<SaveFile<P>>)
    requires provider.Valid() && provider.jsonsToSave == [] && s.Type in provider.SavesTypes
    requires forall h | h in provider.MigrationHandlers.Values :: h.Valid()
    modifies provider, s`SavedMigrationId
    ensures back.Some? && back.value.Serialize() == s.Serialize() && !back.value.IsDirty
    ensures s.SavedMigrationId == provider.Stamp(s.Type, old(s.SavedMigrationId))
  {
    provider.AddSavesToWrite([s]);
    assert provider.jsonsToSave == [provider.UnitOf(s)];
    provider.WriteSaves({});
    StoreAllWrites(old(provider.files), [provider.UnitOf(s)], {}, 0);
    back := provider.GetSave(s.Id, s.Type);
    if s.Type in provider.MigrationHandlers {
      StampedRecordNeedsNoMigration(provider.MigrationHandlers[s.Type]);
    }
  }
}
