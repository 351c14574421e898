/**
 * Vocabulary shared by both generations of the save library: the record types known to the
 * type registry, what a serialized record holds, and the exceptions the core can raise.
 */
module SaveTypes {

  /** The runtime type of a record (`save.GetType()` / `typeof(T)`). */
  type TypeName = string

  /** The sentinel `SavedMigrationId` of a record that predates every migration rule. */
  const NoMigration: int := -1

  /** `NotifyUserAboutSaving` of a record type that does not override it. */
  const DefaultNotifyUserAboutSaving: bool := true

  /**
   * What the type registry knows about one record type: its persistence name (the
   * `[Save("...")]` attribute), the state of a freshly constructed instance, and whether
   * writes of it should be announced to the user.
   */
  datatype SaveData<P> = SaveData(SaveName: string, NewData: P, NotifyUserAboutSaving: bool)

  /**
   * The part of a record that survives serialization: its public settable properties.
   * `IsDirty` has a private setter, which the JSON serializer does not restore; whether LiteDB's
   * mapper stores it is not modelled, so no document carries it;
   * `NotifyUserAboutSaving` is get-only and comes from the record type.
   */
  datatype Snapshot<P> = Snapshot(Id: int, JustCreatedFlag: bool, SavedMigrationId: int, Data: P)

  /** Exceptions the core raises. */
  datatype Error =
    | DuplicateKey   // Dictionary.Add with a key already present
}
