/**
 * The newer provider: the migration bookkeeping of the abstract `SaveProvider`
 * (Assets/Runtime/Scripts/Base/SaveProvider.cs) together with its LiteDB implementation
 * `LiteDbSaveProvider` (Assets/Runtime/Scripts/Providers/LiteDB/LiteDbSaveProvider.cs). The
 * database is a map from collection name to a collection, and a collection a map from document
 * id to the document; BSON mapping itself is left out.
 */
module LiteDbProvider {
  import opened Wrappers
  import opened SaveTypes
  import opened Migration
  import opened PendingWrites
  import opened BaseRecords
  import opened Collections

  type Database<P> = map<string, map<int, Snapshot<P>>>

  /** `db.GetCollection(name)`: a collection that does not exist yet is created empty. */
  function CollectionOf<P>(db: Database<P>, name: string): map<int, Snapshot<P>>
  {
    if name in db then db[name] else map[]
  }

  /**
   * One `WriteSave`: `Update` when the unit's id is in its collection, `Insert` otherwise; either
   * way the collection then maps the id to the unit's document.
   */
  function StoreOne<P>(db: Database<P>, u: PendingUnit<P>): (r: Database<P>)
    ensures u.SaveName in r && u.Id in r[u.SaveName] && r[u.SaveName][u.Id] == u.Payload
    ensures forall name, id | name != u.SaveName || id != u.Id ::
              (id in CollectionOf(r, name) <==> id in CollectionOf(db, name)) &&
              (id in CollectionOf(db, name) ==> CollectionOf(r, name)[id] == CollectionOf(db, name)[id])
  {
    db[u.SaveName := CollectionOf(db, u.SaveName)[u.Id := u.Payload]]
  }

  /** The database after writing `units` in order. */
  function StoreAll<P>(db: Database<P>, units: seq<PendingUnit<P>>): Database<P>
  {
    if units == [] then db else StoreOne(StoreAll(db, units[..|units| - 1]), units[|units| - 1])
  }

  /** A unit that no later unit overwrites ends up as the document under its id in its collection. */
  lemma {:induction false} StoreAllWrites<P>(db: Database<P>, units: seq<PendingUnit<P>>, k: nat)
    requires k < |units|
    requires forall j | k < j < |units| :: units[j].SaveName != units[k].SaveName || units[j].Id != units[k].Id
    ensures var r := StoreAll(db, units);
            units[k].SaveName in r && units[k].Id in r[units[k].SaveName] && r[units[k].SaveName][units[k].Id] == units[k].Payload
  {
    var init := units[..|units| - 1];
    if k < |units| - 1 {
      StoreAllWrites(db, init, k);
      var r := StoreAll(db, init);
      assert CollectionOf(r, units[k].SaveName)[units[k].Id] == units[k].Payload;
    }
  }

  /** A document no unit names keeps its place and content. */
  lemma {:induction false} StoreAllKeeps<P>(db: Database<P>, units: seq<PendingUnit<P>>, name: string, id: int)
    requires forall u | u in units :: u.SaveName != name || u.Id != id
    ensures id in CollectionOf(StoreAll(db, units), name) <==> id in CollectionOf(db, name)
    ensures id in CollectionOf(db, name) ==> CollectionOf(StoreAll(db, units), name)[id] == CollectionOf(db, name)[id]
  {
    if units != [] {
      var init := units[..|units| - 1];
      assert forall u | u in init :: u in units;
      StoreAllKeeps(db, init, name, id);
      assert units[|units| - 1] in units;
    }
  }

  /** Every document sits under its own id (LiteDB's `_id` is the record's `Id`). */
  ghost predicate WellKeyed<P>(db: Database<P>)
  {
    forall name, id | name in db && id in db[name] :: db[name][id].Id == id
  }

  /** The units this provider builds: each is keyed by its document's id, and none asks for the notification. */
  ghost predicate LiteDbUnits<P>(units: seq<PendingUnit<P>>)
  {
    forall u | u in units :: u.Payload.Id == u.Id && !u.Notify
  }

  /** Writing units keyed by their documents' ids keeps every document under its own id. */
  lemma {:induction false} StoreAllWellKeyed<P>(db: Database<P>, units: seq<PendingUnit<P>>)
    requires WellKeyed(db) && LiteDbUnits(units)
    ensures WellKeyed(StoreAll(db, units))
  {
    if units != [] {
      var init := units[..|units| - 1];
      var last := units[|units| - 1];
      assert last in units;
      assert forall u | u in init :: u in units;
      StoreAllWellKeyed(db, init);
      var before: Database<P> := StoreAll(db, init);
      var after: Database<P> := StoreOne(before, last);
      forall name: string, id: int | name in after && id in after[name]
        ensures after[name][id].Id == id
      {
        if name != last.SaveName || id != last.Id {
          assert id in CollectionOf(before, name);
        }
      }
    }
  }

  /** A merge of units built by this provider is made only of such units. */
  lemma MergeAllLiteDbUnits<P>(buf: seq<PendingUnit<P>>, units: seq<PendingUnit<P>>)
    requires LiteDbUnits(buf) && LiteDbUnits(units)
    ensures LiteDbUnits(MergeAll(buf, units))
  {
    MergeAllSubset(buf, units);
  }

  /** The records of the given containers. */
  ghost function Members<P>(containers: seq<SaveContainer<P>>): set<Save<P>>
    reads containers`saves
  {
    set c, s | c in containers && s in c.saves.Values :: s
  }

  /** Adding a container to a batch adds its records. */
  lemma MembersSnoc<P>(containers: seq<SaveContainer<P>>, c: SaveContainer<P>)
    ensures Members(containers + [c]) == Members(containers) + c.saves.Values
  {
    assert forall d | d in containers + [c] :: d in containers || d == c;
  }

  /** The records listed in `orders`. */
  ghost function Listed<P>(orders: seq<seq<Save<P>>>): set<Save<P>>
  {
    set i, s | 0 <= i < |orders| && s in orders[i] :: s
  }

  lemma ListedPrefix<P>(orders: seq<seq<Save<P>>>, n: nat)
    requires n < |orders|
    ensures Listed(orders[..n]) <= Listed(orders)
    ensures forall s | s in orders[n] :: s in Listed(orders)
  {
    forall s | s in Listed(orders[..n]) ensures s in Listed(orders) {
      var i :| 0 <= i < n && s in orders[..n][i];
      assert s in orders[i];
    }
  }

  /** Records carrying the ids of an enumeration of `keys`, one each, have distinct ids and exactly those. */
  lemma IdsOfEnumeration<P>(saves: seq<Save<P>>, ids: seq<int>, keys: set<int>)
    requires |saves| == |ids| && Enumerates(ids, keys)
    requires forall j | 0 <= j < |saves| :: saves[j].Id == ids[j]
    ensures DistinctIds(saves)
    ensures (set s | s in saves :: s.Id) == keys
  {
    forall id | id in keys ensures id in (set s | s in saves :: s.Id) {
      var j :| 0 <= j < |ids| && ids[j] == id;
      assert saves[j] in saves;
    }
  }

  /** The newer provider with its database. */
  class LiteDbSaveProvider<P(==)> {
    /** The type registry handed over by `InjectDependencies`. */
    var SavesTypes: map<TypeName, SaveData<P>>
    var MigrationHandlers: map<TypeName, MigrationHandler<P>>
    var tempList: seq<PendingUnit<P>>
    /** The buffer the main thread merges into. */
    var bsonsToSave: seq<PendingUnit<P>>
    /** The buffer the writer drains. */
    var bsonsToSaveTemp: seq<PendingUnit<P>>
    var db: Database<P>

    /**
     * Between calls the scratch list and the writer's buffer are empty, the pending buffer has one
     * unit per key and only units this provider builds, and every document sits under its own id.
     */
    ghost predicate Valid()
      reads this
    {
      tempList == [] && bsonsToSaveTemp == [] && KeysUnique(bsonsToSave) && LiteDbUnits(bsonsToSave) && WellKeyed(db)
    }

    /** `Initialize`: the connection to a database that already holds `database`. */
    constructor (database: Database<P>)
      requires WellKeyed(database)
      ensures Valid() && db == database && bsonsToSave == []
      ensures SavesTypes == map[] && MigrationHandlers == map[]
    {
      SavesTypes, MigrationHandlers := map[], map[];
      tempList, bsonsToSave, bsonsToSaveTemp := [], [], [];
      db := database;
    }

    method InjectDependencies(savesTypes: map<TypeName, SaveData<P>>)
      modifies this`SavesTypes
      ensures SavesTypes == savesTypes
    {
      SavesTypes := savesTypes;
    }

    /** `Dictionary.Add`: a second handler for one record type throws and changes nothing. */
    method RegisterSaveTypeMigrationHandler(t: TypeName, handler: MigrationHandler<P>) returns (r: Outcome<Error>)
      modifies this`MigrationHandlers
      ensures r == (if t in old(MigrationHandlers) then Fail(DuplicateKey) else Pass)
      ensures r.Pass? ==> MigrationHandlers == old(MigrationHandlers)[t := handler]
      ensures r.Fail? ==> MigrationHandlers == old(MigrationHandlers)
    {
      if t in MigrationHandlers {
        return Fail(DuplicateKey);
      }
      MigrationHandlers := MigrationHandlers[t := handler];
      r := Pass;
    }

    /** The migration id a record of type `t` holding `stored` carries after stamping. */
    function Stamp(t: TypeName, stored: int): int
      reads this`MigrationHandlers, MigrationHandlers.Values
    {
      StampWith(MigrationHandlers, t, stored)
    }

    /** The unit `SerializeDirtySaves` builds for a record of the container of type `t`: never notifying. */
    function UnitOf(t: TypeName, s: Save<P>): (u: PendingUnit<P>)
      requires t in SavesTypes
      reads this`SavesTypes, s`Id, s`JustCreatedFlag, s`SavedMigrationId, s`Data
      ensures u.Type == t && u.Id == s.Id && u.Payload == s.Serialize() && !u.Notify
    {
      PendingUnit(t, s.Id, s.Serialize(), SavesTypes[t].SaveName, false)
    }

    /** The units for `members`, records of the container of type `t`, in that order. */
    ghost function UnitsOf(t: TypeName, members: seq<Save<P>>): (units: seq<PendingUnit<P>>)
      requires t in SavesTypes
      reads this`SavesTypes, (set s | s in members)`Id, (set s | s in members)`JustCreatedFlag
      reads (set s | s in members)`SavedMigrationId, (set s | s in members)`Data
      ensures |units| == |members| && forall j | 0 <= j < |members| :: units[j] == UnitOf(t, members[j])
      ensures LiteDbUnits(units)
    {
      if members == [] then [] else UnitsOf(t, members[..|members| - 1]) + [UnitOf(t, members[|members| - 1])]
    }

    /**
     * The units for a batch of containers, `orders[i]` being the order the records of
     * `containers[i]` were enumerated in: container by container, one unit per record.
     */
    ghost function BatchUnits(containers: seq<SaveContainer<P>>, orders: seq<seq<Save<P>>>): (units: seq<PendingUnit<P>>)
      requires |orders| == |containers| && forall c | c in containers :: c.MySaveType in SavesTypes
      reads this`SavesTypes, (set i, s | 0 <= i < |orders| && s in orders[i] :: s)`Id
      reads (set i, s | 0 <= i < |orders| && s in orders[i] :: s)`JustCreatedFlag
      reads (set i, s | 0 <= i < |orders| && s in orders[i] :: s)`SavedMigrationId
      reads (set i, s | 0 <= i < |orders| && s in orders[i] :: s)`Data
      ensures LiteDbUnits(units)
    {
      if containers == [] then []
      else
        var n := |containers| - 1;
        ListedPrefix(orders, n);
        BatchUnits(containers[..n], orders[..n]) + UnitsOf(containers[n].MySaveType, orders[n])
    }

    lemma BatchUnitsSnoc(containers: seq<SaveContainer<P>>, orders: seq<seq<Save<P>>>, c: SaveContainer<P>, members: seq<Save<P>>)
      requires |orders| == |containers| && forall d | d in containers + [c] :: d.MySaveType in SavesTypes
      ensures BatchUnits(containers + [c], orders + [members]) == BatchUnits(containers, orders) + UnitsOf(c.MySaveType, members)
    {
      assert (containers + [c])[..|containers|] == containers;
      assert (orders + [members])[..|orders|] == orders;
    }

    /** `orders[i]` lists each record of `containers[i]` exactly once. */
    ghost predicate EnumeratesMembers(containers: seq<SaveContainer<P>>, orders: seq<seq<Save<P>>>)
      reads containers`saves
    {
      |orders| == |containers| &&
      forall i | 0 <= i < |containers| :: Enumerates(orders[i], containers[i].saves.Values)
    }

    lemma EnumeratesMembersSnoc(containers: seq<SaveContainer<P>>, orders: seq<seq<Save<P>>>, c: SaveContainer<P>, members: seq<Save<P>>)
      requires EnumeratesMembers(containers, orders) && Enumerates(members, c.saves.Values)
      ensures EnumeratesMembers(containers + [c], orders + [members])
    {
    }

    /**
     * `AddSavesToWrite`: stamps every record of every container with its type's current migration
     * id (records of a type without a handler keep theirs), then serializes all of them into the
     * pending buffer, container by container in the order `orders` enumerated their records.
     */
    method AddSavesToWrite(containers: seq<SaveContainer<P>>) returns (ghost orders: seq<seq<Save<P>>>)
      requires Valid()
      requires forall c | c in containers :: c.MySaveType in SavesTypes
      modifies this`tempList, this`bsonsToSave, Members(containers)`SavedMigrationId
      ensures Valid() && EnumeratesMembers(containers, orders)
      ensures forall s | s in Members(containers) :: s.SavedMigrationId == Stamp(s.Type, old(s.SavedMigrationId))
      ensures bsonsToSave == MergeAll(old(bsonsToSave), BatchUnits(containers, orders))
    {
      StampContainers(containers);
      ghost var units;
      orders, units := SerializeDirtySaves(containers);
    }

    /** The stamping `foreach` of `AddSavesToWrite`, over the containers. */
    method StampContainers(containers: seq<SaveContainer<P>>)
      modifies Members(containers)`SavedMigrationId
      ensures forall s | s in Members(containers) :: s.SavedMigrationId == Stamp(s.Type, old(s.SavedMigrationId))
    {
      for i := 0 to |containers|
        invariant forall s | s in Members(containers[..i]) :: s.SavedMigrationId == Stamp(s.Type, old(s.SavedMigrationId))
        invariant forall s | s in Members(containers) ::
                    s.SavedMigrationId == old(s.SavedMigrationId) || s.SavedMigrationId == Stamp(s.Type, old(s.SavedMigrationId))
      {
        StampContainer(containers[i]);
        MembersSnoc(containers[..i], containers[i]);
        assert containers[..i + 1] == containers[..i] + [containers[i]];
      }
      assert containers[..|containers|] == containers;
    }

    /** Stamps the records of one container. */
    method StampContainer(c: SaveContainer<P>)
      modifies c.saves.Values`SavedMigrationId
      ensures forall s | s in c.saves.Values :: s.SavedMigrationId == Stamp(s.Type, old(s.SavedMigrationId))
    {
      var members := Enumerate(c.GetAllSaves());
      StampAll(members);
    }

    /** The inner `foreach` of `AddSavesToWrite`. */
    method StampAll(saves: seq<Save<P>>)
      modifies (set s | s in saves)`SavedMigrationId
      ensures forall s | s in saves :: s.SavedMigrationId == Stamp(s.Type, old(s.SavedMigrationId))
    {
      for i := 0 to |saves|
        invariant forall s | s in saves && s !in saves[..i] :: s.SavedMigrationId == old(s.SavedMigrationId)
        invariant forall s | s in saves[..i] :: s.SavedMigrationId == Stamp(s.Type, old(s.SavedMigrationId))
      {
        var s := saves[i];
        if s.Type in MigrationHandlers {
          s.SavedMigrationId := MigrationHandlers[s.Type].GetCurrentMigrationId();
        }
        assert saves[..i + 1] == saves[..i] + [s];
      }
      assert saves[..|saves|] == saves;
    }

    /**
     * Serializes every record of every container into the scratch list (never notifying), merges
     * the list into the pending buffer, and clears it.
     */
    method SerializeDirtySaves(containers: seq<SaveContainer<P>>) returns (ghost orders: seq<seq<Save<P>>>, ghost units: seq<PendingUnit<P>>)
      requires Valid()
      requires forall c | c in containers :: c.MySaveType in SavesTypes
      modifies this`tempList, this`bsonsToSave
      ensures Valid() && EnumeratesMembers(containers, orders)
      ensures units == BatchUnits(containers, orders) && bsonsToSave == MergeAll(old(bsonsToSave), units)
    {
      var batch;
      batch, orders := SerializeAll(containers);
      MergeIntoPending(batch);
      units := batch;
    }

    /** The nested `foreach` of `SerializeDirtySaves`. */
    method SerializeAll(containers: seq<SaveContainer<P>>) returns (units: seq<PendingUnit<P>>, ghost orders: seq<seq<Save<P>>>)
      requires forall c | c in containers :: c.MySaveType in SavesTypes
      ensures EnumeratesMembers(containers, orders)
      ensures units == BatchUnits(containers, orders) && LiteDbUnits(units)
    {
      units, orders := [], [];
      for i := 0 to |containers|
        invariant EnumeratesMembers(containers[..i], orders)
        invariant units == BatchUnits(containers[..i], orders)
      {
        var built, members := SerializeContainer(containers[i]);
        SerializeStep(containers, i, orders, members, units, built);
        units, orders := units + built, orders + [members];
      }
      assert containers[..|containers|] == containers;
    }

    /** One turn of the outer loop of `SerializeAll`. */
    lemma SerializeStep(containers: seq<SaveContainer<P>>, i: nat, orders: seq<seq<Save<P>>>, members: seq<Save<P>>,
                        units: seq<PendingUnit<P>>, built: seq<PendingUnit<P>>)
      requires i < |containers| && forall c | c in containers :: c.MySaveType in SavesTypes
      requires EnumeratesMembers(containers[..i], orders) && units == BatchUnits(containers[..i], orders)
      requires Enumerates(members, containers[i].saves.Values) && built == UnitsOf(containers[i].MySaveType, members)
      ensures EnumeratesMembers(containers[..i + 1], orders + [members])
      ensures units + built == BatchUnits(containers[..i + 1], orders + [members])
    {
      assert containers[..i + 1] == containers[..i] + [containers[i]];
      BatchUnitsSnoc(containers[..i], orders, containers[i], members);
      EnumeratesMembersSnoc(containers[..i], orders, containers[i], members);
    }

    /** The inner `foreach` of `SerializeDirtySaves`, over one container's records. */
    method SerializeContainer(c: SaveContainer<P>) returns (units: seq<PendingUnit<P>>, ghost members: seq<Save<P>>)
      requires c.MySaveType in SavesTypes
      ensures Enumerates(members, c.saves.Values)
      ensures units == UnitsOf(c.MySaveType, members) && LiteDbUnits(units)
    {
      var saves := Enumerate(c.GetAllSaves());
      units := [];
      for i := 0 to |saves|
        invariant units == UnitsOf(c.MySaveType, saves[..i]) && LiteDbUnits(units)
      {
        assert saves[..i + 1][..i] == saves[..i];
        units := units + [UnitOf(c.MySaveType, saves[i])];
      }
      assert saves[..|saves|] == saves;
      members := saves;
    }

    /**
     * The scratch list holding `units`, then the locked loop of `SerializeDirtySaves`: each unit
     * replaces the pending unit with its key, or is appended; the list is cleared afterwards.
     */
    method MergeIntoPending(units: seq<PendingUnit<P>>)
      requires Valid() && LiteDbUnits(units)
      modifies this`tempList, this`bsonsToSave
      ensures Valid() && bsonsToSave == MergeAll(old(bsonsToSave), units)
    {
      tempList := units;
      ghost var start := bsonsToSave;
      for i := 0 to |units|
        invariant bsonsToSave == MergeAll(start, units[..i])
      {
        var bsonSave := units[i];
        var index := FindIndex(bsonsToSave, bsonSave.Type, bsonSave.Id);
        assert units[..i + 1][..i] == units[..i];
        assert MergeAll(start, units[..i + 1]) == Upsert(bsonsToSave, bsonSave);
        if index != -1 {
          bsonsToSave := bsonsToSave[index := bsonSave];
        } else {
          bsonsToSave := bsonsToSave + [bsonSave];
        }
      }
      assert units[..|units|] == units;
      MergeAllKeysUnique(start, units);
      MergeAllLiteDbUnits(start, units);
      tempList := [];
    }

    /** The writer's step: swaps the buffers, writes every swapped-out unit in buffer order, and clears it. */
    method WriteSaves()
      requires Valid()
      modifies this`bsonsToSave, this`bsonsToSaveTemp, this`db
      ensures Valid()
      ensures db == StoreAll(old(db), old(bsonsToSave))
      ensures bsonsToSave == [] && bsonsToSaveTemp == []
    {
      bsonsToSave, bsonsToSaveTemp := bsonsToSaveTemp, bsonsToSave;
      var toWrite := bsonsToSaveTemp;
      for i := 0 to |toWrite|
        invariant db == StoreAll(old(db), toWrite[..i])
        invariant bsonsToSave == [] && tempList == []
      {
        assert toWrite[..i + 1][..i] == toWrite[..i];
        WriteSave(toWrite[i]);
      }
      assert toWrite[..|toWrite|] == toWrite;
      bsonsToSaveTemp := [];
      StoreAllWellKeyed(old(db), toWrite);
    }

    /**
     * Updates the document under the unit's id, or inserts it when there is none. On the
     * collection, modelled as a map, `Update` and `Insert` have the same effect.
     */
    method WriteSave(bsonSave: PendingUnit<P>)
      modifies this`db
      ensures db == StoreOne(old(db), bsonSave)
    {
      var collection := CollectionOf(db, bsonSave.SaveName);
      if bsonSave.Id in collection {
        db := db[bsonSave.SaveName := collection[bsonSave.Id := bsonSave.Payload]];
      } else {
        db := db[bsonSave.SaveName := collection[bsonSave.Id := bsonSave.Payload]];
      }
    }

    /** The collection records of type `t` are kept in. */
    function CollectionOfType(t: TypeName): map<int, Snapshot<P>>
      requires t in SavesTypes
      reads this`SavesTypes, this`db
    {
      CollectionOf(db, SavesTypes[t].SaveName)
    }

    /** The stored document after migration on load. */
    function Migrated(t: TypeName, snap: Snapshot<P>): Snapshot<P>
      reads this`MigrationHandlers, MigrationHandlers.Values
    {
      MigratedWith(MigrationHandlers, t, snap)
    }

    /** Whether migration on load marks the record dirty. */
    predicate MigrationMarksDirty(t: TypeName, snap: Snapshot<P>)
      reads this`MigrationHandlers, MigrationHandlers.Values
    {
      MarksDirtyWith(MigrationHandlers, t, snap)
    }

    /** `ReadSaves` (`FindAll`): one fresh, clean, unsubscribed record per document of the type's collection. */
    method ReadSaves(t: TypeName) returns (saves: seq<Save<P>>)
      requires Valid() && t in SavesTypes
      ensures DistinctIds(saves) && Unsubscribed(saves)
      ensures (set s | s in saves :: s.Id) == CollectionOfType(t).Keys
      ensures forall s | s in saves :: fresh(s) && s.Type == t && s.Id in CollectionOfType(t) &&
                s.Serialize() == CollectionOfType(t)[s.Id] && !s.IsDirty &&
                s.NotifyUserAboutSaving == SavesTypes[t].NotifyUserAboutSaving
    {
      var collection := CollectionOfType(t);
      var ids := Enumerate(collection.Keys);
      saves := [];
      for i := 0 to |ids|
        invariant |saves| == i
        invariant forall j | 0 <= j < i :: saves[j].Id == ids[j] && ids[j] in collection
        invariant forall j | 0 <= j < i :: fresh(saves[j]) && saves[j].Type == t && saves[j].subscriber == null &&
                    saves[j].Serialize() == collection[ids[j]] && !saves[j].IsDirty &&
                    saves[j].NotifyUserAboutSaving == SavesTypes[t].NotifyUserAboutSaving
      {
        var save := FromDocument(t, SavesTypes[t].NotifyUserAboutSaving, ids[i], collection[ids[i]]);
        saves := saves + [save];
      }
      IdsOfEnumeration(saves, ids, collection.Keys);
    }

    /** The deserializer's record for the document stored under `id`: fresh, clean and unsubscribed. */
    static method FromDocument(t: TypeName, notify: bool, id: int, document: Snapshot<P>) returns (save: Save<P>)
      ensures fresh(save) && save.Type == t && save.NotifyUserAboutSaving == notify && save.subscriber == null
      ensures save.Id == id && save.JustCreatedFlag == document.JustCreatedFlag && save.SavedMigrationId == document.SavedMigrationId
      ensures save.Data == document.Data && !save.IsDirty
    {
      save := new Save(t, notify, document.Data);
      save.Id, save.JustCreatedFlag, save.SavedMigrationId := id, document.JustCreatedFlag, document.SavedMigrationId;
    }

    /** Runs the type's handler, if one is registered, on a freshly read record. */
    method TryMigrate(save: Save<P>)
      requires save.subscriber == null
      modifies save`Data, save`IsDirty, save`ChangedEvents
      ensures save.Serialize() == Migrated(save.Type, old(save.Serialize()))
      ensures save.IsDirty == (old(save.IsDirty) || MigrationMarksDirty(save.Type, old(save.Serialize())))
    {
      if save.Type in MigrationHandlers {
        var handler := MigrationHandlers[save.Type];
        var migrated, setDirty, executed := handler.TryMigrate(save.SavedMigrationId, save.Data);
        save.Data := migrated;
        if setDirty {
          save.SetDirty();
        }
      }
    }

    /**
     * `GetAllSavesOfType`: the type's documents as records, each migrated once. LiteDB's `FindAll`
     * never yields null, so the result is always present; records keep their stored migration id.
     */
    method GetAllSavesOfType(t: TypeName) returns (r: Option<seq<Save<P>>>)
      requires Valid() && t in SavesTypes
      ensures r.Some? && DistinctIds(r.value) && Unsubscribed(r.value)
      ensures (set s | s in r.value :: s.Id) == CollectionOfType(t).Keys
      ensures forall s | s in r.value :: fresh(s) && s.Type == t && s.Id in CollectionOfType(t) &&
                s.Serialize() == Migrated(t, CollectionOfType(t)[s.Id]) &&
                s.IsDirty == MigrationMarksDirty(t, CollectionOfType(t)[s.Id])
    {
      var saves := ReadSaves(t);
      MigrateAll(saves);
      r := Some(saves);
    }

    /** The `foreach` of `GetAllSavesOfType`: `TryMigrate` on each record read, in order. */
    method MigrateAll(saves: seq<Save<P>>)
      requires forall i, j | 0 <= i < j < |saves| :: saves[i] != saves[j]
      requires forall s | s in saves :: s.subscriber == null
      modifies (set s | s in saves)`Data, (set s | s in saves)`IsDirty, (set s | s in saves)`ChangedEvents
      ensures forall s | s in saves :: s.Serialize() == Migrated(s.Type, old(s.Serialize())) &&
                s.IsDirty == (old(s.IsDirty) || MigrationMarksDirty(s.Type, old(s.Serialize())))
    {
      ghost var stored := seq(|saves|, j requires 0 <= j < |saves| reads saves => saves[j].Serialize());
      ghost var migrated := seq(|saves|, j requires 0 <= j < |saves| reads this, MigrationHandlers.Values, saves => Migrated(saves[j].Type, stored[j]));
      ghost var dirty := seq(|saves|, j requires 0 <= j < |saves| reads this, MigrationHandlers.Values, saves =>
                               saves[j].IsDirty || MigrationMarksDirty(saves[j].Type, stored[j]));
      for i := 0 to |saves|
        invariant forall j | 0 <= j < i :: saves[j].Serialize() == migrated[j] && saves[j].IsDirty == dirty[j]
        invariant forall j | i <= j < |saves| :: saves[j].Serialize() == stored[j] && saves[j].IsDirty == old(saves[j].IsDirty)
      {
        TryMigrate(saves[i]);
      }
    }

    /** `AnySaveRequiresNotification`: no unit of this provider asks for it, so it is always false. */
    function AnySaveRequiresNotification(): (r: bool)
      requires Valid()
      reads this
      ensures !r
    {
      AnyNotify(bsonsToSave)
    }
  }
}
