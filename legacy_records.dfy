/**
 * The older record class, `SaveFile` (Assets/Runtime/Scripts/SaveFile.cs), and the hash set the
 * older saves system subscribes records into.
 */
module LegacyRecords {
  import opened SaveTypes

  /**
   * The older saves system's `dirtySaves` hash set. A record whose `SaveChanged` event is
   * subscribed to the system's `OnSaveChanged` handler names this set as its subscriber.
   */
  class SaveFileSet<P> {
    var Elements: set<SaveFile<P>>

    constructor ()
      ensures Elements == {}
    {
      Elements := {};
    }
  }

  /** One persisted record of the older generation. `Data` stands for the derived type's own properties. */
  class SaveFile<P> {
    const Type: TypeName
    // SaveFile does not declare this property, yet the JSON provider reads it; the record type supplies it.
    const NotifyUserAboutSaving: bool
    var Id: int
    var JustCreatedFlag: bool
    var IsDirty: bool
    var SavedMigrationId: int
    var Data: P
    /** The set `SaveChanged` adds this record to, or null while nothing is subscribed. */
    var subscriber: SaveFileSet?<P>
    /** How many times `SaveChanged` has been raised. */
    ghost var ChangedEvents: nat

    /** A new instance as `Activator.CreateInstance` or a deserializer first builds it. */
    constructor (saveType: TypeName, notify: bool, data: P)
      ensures Type == saveType && NotifyUserAboutSaving == notify && Data == data
      ensures Id == 0 && !JustCreatedFlag && !IsDirty && SavedMigrationId == NoMigration
      ensures subscriber == null && ChangedEvents == 0
    {
      Type, NotifyUserAboutSaving, Data := saveType, notify, data;
      Id, JustCreatedFlag, IsDirty, SavedMigrationId := 0, false, false, NoMigration;
      subscriber := null;
      ChangedEvents := 0;
    }

    /** What the serializer writes for this record. */
    function Serialize(): Snapshot<P>
      reads this`Id, this`JustCreatedFlag, this`SavedMigrationId, this`Data
    {
      Snapshot(Id, JustCreatedFlag, SavedMigrationId, Data)
    }

    /** Marks the record dirty and raises `SaveChanged` once, even if it was already dirty. */
    method SetDirty()
      modifies this`IsDirty, this`ChangedEvents, subscriber
      ensures IsDirty && ChangedEvents == old(ChangedEvents) + 1
      ensures subscriber != null ==> subscriber.Elements == old(subscriber.Elements) + {this}
    {
      IsDirty := true;
      ChangedEvents := ChangedEvents + 1;
      if subscriber != null {
        subscriber.Elements := subscriber.Elements + {this};
      }
    }

    /** Clears the dirty flag only; raises nothing. */
    method ResetDirty()
      modifies this`IsDirty
      ensures !IsDirty
    {
      IsDirty := false;
    }

    /** Clears the just-created flag, then marks the record dirty. */
    method ResetJustCreatedFlag()
      modifies this`JustCreatedFlag, this`IsDirty, this`ChangedEvents, subscriber
      ensures !JustCreatedFlag && IsDirty && ChangedEvents == old(ChangedEvents) + 1
      ensures subscriber != null ==> subscriber.Elements == old(subscriber.Elements) + {this}
    {
      JustCreatedFlag := false;
      SetDirty();
    }

    /** The default hook run on a newly created instance. */
    method OnNewInstanceCreated()
      modifies this`JustCreatedFlag
      ensures JustCreatedFlag
    {
      JustCreatedFlag := true;
    }
  }
}
