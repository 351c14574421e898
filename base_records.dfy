/**
 * The newer record class, `Save` (Assets/Runtime/Scripts/Base/Save.cs), the record group
 * `SaveContainer` (Assets/Runtime/Scripts/Base/SaveContainer.cs), and the hash set of
 * containers the newer saves system subscribes groups into. Records and groups refer to each
 * other through their change events, so they share one module.
 */
module BaseRecords {
  import opened Wrappers
  import opened SaveTypes

  /**
   * The newer saves system's `dirtySaves` hash set. A container whose `SomeSaveChanged` event is
   * subscribed to the system's `OnSaveContainerChanged` handler names this set as its subscriber.
   */
  class ContainerSet<P> {
    var Elements: set<SaveContainer<P>>

    constructor ()
      ensures Elements == {}
    {
      Elements := {};
    }
  }

  /** One persisted record of the newer generation. `Data` stands for the derived type's own properties. */
  class Save<P> {
    const Type: TypeName
    const NotifyUserAboutSaving: bool
    var Id: int
    var JustCreatedFlag: bool
    var IsDirty: bool
    var SavedMigrationId: int
    var Data: P
    /** The container whose handler `SaveChanged` invokes, or null while nothing is subscribed. */
    var subscriber: SaveContainer?<P>
    /** How many times `SaveChanged` has been raised. */
    ghost var ChangedEvents: nat

    /**
     * A new instance as `Activator.CreateInstance` or a deserializer first builds it; `notify`
     * is the type's `NotifyUserAboutSaving` (`DefaultNotifyUserAboutSaving` unless overridden).
     */
    constructor (saveType: TypeName, notify: bool, data: P)
      ensures Type == saveType && NotifyUserAboutSaving == notify && Data == data
      ensures Id == 0 && !JustCreatedFlag && !IsDirty && SavedMigrationId == NoMigration
      ensures subscriber == null && ChangedEvents == 0
    {
      Type, NotifyUserAboutSaving, Data := saveType, notify, data;
      Id, JustCreatedFlag, IsDirty, SavedMigrationId := 0, false, false, NoMigration;
      subscriber := null;
      ChangedEvents := 0;
    }

    /** What the serializer writes for this record. */
    function Serialize(): Snapshot<P>
      reads this`Id, this`JustCreatedFlag, this`SavedMigrationId, this`Data
    {
      Snapshot(Id, JustCreatedFlag, SavedMigrationId, Data)
    }

    /** The container a `SaveChanged` event is forwarded to, as a set. */
    function Forwarder(): set<SaveContainer<P>>
      reads this
    {
      if subscriber != null then {subscriber} else {}
    }

    /** The hash sets a `SaveChanged` event reaches through the subscribed container. */
    function Listeners(): set<ContainerSet<P>>
      reads this, subscriber
    {
      if subscriber != null && subscriber.subscriber != null then {subscriber.subscriber} else {}
    }

    /**
     * Marks the record dirty and raises `SaveChanged` once, even if it was already dirty; the
     * subscribed container forwards it as one `SomeSaveChanged`.
     */
    method SetDirty()
      modifies this`IsDirty, this`ChangedEvents
      modifies Forwarder()`ChangedEvents
      modifies Listeners()
      ensures IsDirty && ChangedEvents == old(ChangedEvents) + 1
      ensures subscriber != null ==> subscriber.ChangedEvents == old(subscriber.ChangedEvents) + 1
      ensures subscriber != null && subscriber.subscriber != null ==>
                subscriber.subscriber.Elements == old(subscriber.subscriber.Elements) + {subscriber}
    {
      IsDirty := true;
      ChangedEvents := ChangedEvents + 1;
      if subscriber != null {
        subscriber.OnSomeOfMySavesChanged();
      }
    }

    /** Clears the dirty flag only; raises nothing. */
    method ResetDirty()
      modifies this`IsDirty
      ensures !IsDirty
    {
      IsDirty := false;
    }

    /** Clears the just-created flag, then marks the record dirty. */
    method ResetJustCreatedFlag()
      modifies this`JustCreatedFlag, this`IsDirty, this`ChangedEvents
      modifies Forwarder()`ChangedEvents
      modifies Listeners()
      ensures !JustCreatedFlag && IsDirty && ChangedEvents == old(ChangedEvents) + 1
      ensures subscriber != null ==> subscriber.ChangedEvents == old(subscriber.ChangedEvents) + 1
      ensures subscriber != null && subscriber.subscriber != null ==>
                subscriber.subscriber.Elements == old(subscriber.subscriber.Elements) + {subscriber}
    {
      JustCreatedFlag := false;
      SetDirty();
    }

    /** The default hook run on a newly created instance. */
    method OnNewInstanceCreated()
      modifies this`JustCreatedFlag
      ensures JustCreatedFlag
    {
      JustCreatedFlag := true;
    }
  }

  /** All loaded records of one type, keyed by id, forwarding member changes as one group event. */
  class SaveContainer<P> {
    const MySaveType: TypeName
    var saves: map<int, Save<P>>
    /** The hash set `SomeSaveChanged` adds this container to, or null while nothing is subscribed. */
    var subscriber: ContainerSet?<P>
    /** How many times `SomeSaveChanged` has been raised. */
    ghost var ChangedEvents: nat

    /** Every member is stored under its own id and forwards its changes to this container. */
    ghost predicate Valid()
      reads this`saves, saves.Values`Id, saves.Values`subscriber
    {
      forall id | id in saves :: saves[id].Id == id && saves[id].subscriber == this
    }

    /** Builds the group from a provider result; `None` (a null enumerable) gives an empty group. */
    constructor (saveType: TypeName, loaded: Option<seq<Save<P>>>)
      requires loaded.Some? ==> DistinctIds(loaded.value) && Unsubscribed(loaded.value)
      modifies (if loaded.Some? then set s | s in loaded.value else {})`subscriber
      ensures MySaveType == saveType && subscriber == null && ChangedEvents == 0 && Valid()
      ensures saves.Values == if loaded.Some? then set s | s in loaded.value else {}
      ensures loaded.Some? ==> forall s | s in loaded.value :: s.Id in saves && saves[s.Id] == s
    {
      MySaveType := saveType;
      saves := map[];
      subscriber := null;
      ChangedEvents := 0;
      new;
      if loaded.Some? {
        var all := loaded.value;
        var i := 0;
        while i < |all|
          invariant 0 <= i <= |all|
          invariant subscriber == null && ChangedEvents == 0 && Valid()
          invariant saves.Values == set s | s in all[..i]
          invariant forall s | s in all[..i] :: s.Id in saves && saves[s.Id] == s
          invariant forall j | i <= j < |all| :: all[j].subscriber == null && all[j].Id !in saves
        {
          ghost var before := saves;
          var added := AddNewSave(all[i]);
          MapUpdateValues(before, all[i].Id, all[i]);
          assert all[..i + 1] == all[..i] + [all[i]];
          i := i + 1;
        }
      }
    }

    /** `HaveSaveWithId`: whether some member is stored under `id`. */
    predicate HaveSaveWithId(id: int)
      reads this`saves
    {
      id in saves
    }

    /** `GetSaveById`: the member stored under `id` (the dictionary indexer throws for a missing id). */
    function GetSaveById(id: int): (s: Save<P>)
      requires HaveSaveWithId(id)
      requires Valid()
      reads this`saves, saves.Values`Id, saves.Values`subscriber
      ensures s.Id == id && s.subscriber == this
    {
      saves[id]
    }

    /** `GetAllSaves`: the current members. */
    function GetAllSaves(): set<Save<P>>
      reads this`saves
    {
      saves.Values
    }

    /** In a well-formed group, `HaveSaveWithId(id)` holds exactly when some member carries `id`. */
    lemma HaveSaveWithIdIffMember(id: int)
      requires Valid()
      ensures HaveSaveWithId(id) <==> exists s | s in saves.Values :: s.Id == id
    {
      if HaveSaveWithId(id) {
        assert saves[id] in saves.Values;
      } else {
        forall s | s in saves.Values
          ensures s.Id != id
        {
          var k := KeyOfValue(saves, s);
        }
      }
    }

    /** `GetAllSaves` yields exactly the members, each of them the one stored under its id. */
    lemma GetAllSavesAreMembers()
      requires Valid()
      ensures forall s | s in GetAllSaves() :: s.Id in saves && saves[s.Id] == s
      ensures forall id | id in saves :: saves[id] in GetAllSaves()
    {
      forall s | s in GetAllSaves()
        ensures s.Id in saves && saves[s.Id] == s
      {
        var id := KeyOfValue(saves, s);
      }
    }

    /** Stores `save` under its id and subscribes to its changes; a taken id throws and changes nothing. */
    method AddNewSave(save: Save<P>) returns (r: Outcome<Error>)
      requires Valid() && save.subscriber == null
      modifies this`saves, save`subscriber
      ensures Valid()
      ensures r == (if save.Id in old(saves) then Fail(DuplicateKey) else Pass)
      ensures r.Pass? ==> saves == old(saves)[save.Id := save] && save.subscriber == this
      ensures r.Fail? ==> saves == old(saves) && save.subscriber == null
    {
      if save.Id in saves {
        return Fail(DuplicateKey);
      }
      saves := saves[save.Id := save];
      save.subscriber := this;
      r := Pass;
    }

    /** The handler subscribed to every member's `SaveChanged`: raises `SomeSaveChanged` once. */
    method OnSomeOfMySavesChanged()
      modifies this`ChangedEvents, if subscriber != null then {subscriber} else {}
      ensures ChangedEvents == old(ChangedEvents) + 1
      ensures subscriber != null ==> subscriber.Elements == old(subscriber.Elements) + {this}
    {
      ChangedEvents := ChangedEvents + 1;
      if subscriber != null {
        subscriber.Elements := subscriber.Elements + {this};
      }
    }

    /** Clears the dirty flag of every member and nothing else. */
    method ResetDirty()
      modifies saves.Values`IsDirty
      ensures forall s | s in saves.Values :: !s.IsDirty
    {
      var pending := saves.Values;
      while pending != {}
        invariant pending <= saves.Values
        invariant forall s | s in saves.Values - pending :: !s.IsDirty
        decreases pending
      {
        var s :| s in pending;
        s.ResetDirty();
        pending := pending - {s};
      }
    }
  }

  /**
   * A record added to a group reports its later changes through it: one `SetDirty` raises
   * `SomeSaveChanged` once with the group, which lands in the hash set the group is subscribed to.
   */
  method AddThenSetDirty<P>(c: SaveContainer<P>, s: Save<P>) returns (r: Outcome<Error>)
    requires c.Valid() && s.subscriber == null && s.Id !in c.saves
    modifies c`saves, c`ChangedEvents, s
    modifies if c.subscriber != null then {c.subscriber} else {}
    ensures r.Pass? && c.Valid() && c.saves == old(c.saves)[s.Id := s]
    ensures s.IsDirty && s.subscriber == c && c.ChangedEvents == old(c.ChangedEvents) + 1
    ensures c.subscriber != null ==> c.subscriber.Elements == old(c.subscriber.Elements) + {c}
  {
    r := c.AddNewSave(s);
    s.SetDirty();
  }

  /** No two records of `all` carry the same id. */
  ghost predicate DistinctIds<P>(all: seq<Save<P>>)
    reads all
  {
    forall i, j | 0 <= i < j < |all| :: all[i].Id != all[j].Id
  }

  /** No record of `all` is subscribed to anything yet. */
  ghost predicate Unsubscribed<P>(all: seq<Save<P>>)
    reads all
  {
    forall s | s in all :: s.subscriber == null
  }

  /** A value of a map is stored under some key. */
  lemma KeyOfValue<K, V>(m: map<K, V>, v: V) returns (k: K)
    requires v in m.Values
    ensures k in m.Keys && m[k] == v
  {
    k :| k in m.Keys && m[k] == v;
  }

  /** Adding a fresh key adds exactly its value to the map's values. */
  lemma MapUpdateValues<K, V>(m: map<K, V>, k: K, v: V)
    requires k !in m
    ensures m[k := v].Values == m.Values + {v}
  {
    var m' := m[k := v];
    assert m'[k] == v;
    forall x | x in m'.Values ensures x in m.Values + {v} {
      var j :| j in m'.Keys && m'[j] == x;
      if j != k { assert j in m.Keys && m[j] == x; }
    }
    forall x | x in m.Values ensures x in m'.Values {
      var j :| j in m.Keys && m[j] == x;
      assert m'[j] == x;
    }
  }
}
