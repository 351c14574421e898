/**
 * The migration sample's record type, with its handler of rules 1 and 2, loaded through the newer
 * generation's saves system over LiteDB: the container load as the code reads
 * (`NewContainerAsWritten`) set against the intended one (`NewContainer`).
 */
module SampleLoads {
  import opened SaveTypes
  import opened Migration
  import opened LiteDbProvider
  import opened BaseRecords
  import opened BaseSystem
  import opened SampleMigrations

  /** The runtime type of the sample record. */
  const SampleType: TypeName := "SampleSave"

  /** The registry entry of the sample record: `[Save("SampleSaveName")]`, a new instance holds zeros. */
  const SampleTypes: map<TypeName, SaveData<SampleSave>> :=
    map[SampleType := SaveData("SampleSaveName", SampleSave(0, 0), DefaultNotifyUserAboutSaving)]

  /** A sample record written before any rule existed: id 0, `SomeNumber = 50`, `SomeNumberAnother = 7`. */
  const StoredFifty: Snapshot<SampleSave> := Snapshot(0, false, NoMigration, SampleSave(50, 7))

  /**
   * On the sample chain, a record from before any rule replays both rules and is marked dirty,
   * turning (50, 7) into (50, -50); a record stamped with id 2 replays nothing.
   */
  lemma SampleChainOnFifty(rules: seq<MigrationRule<SampleSave>>)
    requires |rules| == 2 && rules[0].Id == 1 && rules[0].Step == CopyNumber
    requires rules[1].Id == 2 && rules[1].Step == LowerAnotherBy100
    ensures RulesToReplay(rules, NoMigration) == rules && RunsMigration(rules, NoMigration)
    ensures Replay(rules, SampleSave(50, 7)) == SampleSave(50, -50)
    ensures RulesToReplay(rules, 2) == [] && !RunsMigration(rules, 2)
  {
    SentinelReplaysAll(rules);
    assert rules[..1] == [rules[0]] && [rules[0]][..0] == [];
    assert Replay(rules[..1], SampleSave(50, 7)) == CopyNumber(SampleSave(50, 7));
  }

  /**
   * The migration sample's set-up with the LiteDB provider: a database holding `StoredFifty` in the
   * sample's collection, the sample handler registered for the sample type, and a saves system
   * over both. Loading the stored record migrates it to (50, -50) and marks it dirty; the next
   * write stamps it with id 2, under which loading replays nothing.
   */
  method SampleSystem() returns (sys: SavesSystem<SampleSave>)
    ensures sys.Valid() && sys.savesTypes == SampleTypes && sys.saveProvider.SavesTypes == SampleTypes
    ensures sys.saveProvider.CollectionOfType(SampleType) == map[0 := StoredFifty]
    ensures sys.saveProvider.Migrated(SampleType, StoredFifty) == StoredFifty.(Data := SampleSave(50, -50))
    ensures sys.saveProvider.MigrationMarksDirty(SampleType, StoredFifty)
    ensures sys.saveProvider.Stamp(SampleType, NoMigration) == 2
    ensures sys.saveProvider.Migrated(SampleType, StoredFifty.(SavedMigrationId := 2)) == StoredFifty.(SavedMigrationId := 2)
  {
    var provider := new LiteDbSaveProvider(map["SampleSaveName" := map[0 := StoredFifty]]);
    var handler := SampleHandler(false, false);
    var registered := provider.RegisterSaveTypeMigrationHandler(SampleType, handler);
    SampleChainOnFifty(handler.migrationRules);
    sys := new SavesSystem(SampleTypes, provider);
  }

  /**
   * The sample record loaded into a container both ways. As the code reads, the container holds
   * the stored (50, 7), clean; the intended load gives (50, -50), dirty. The as-written record,
   * once written, carries id 2, and loading it again leaves it at (50, 7): the value rule 2 was
   * meant to produce never reaches it.
   */
  method LoadFiftyThroughContainers() returns (asWritten: Save<SampleSave>, intended: Save<SampleSave>, reloaded: SampleSave)
    ensures asWritten.Data == SampleSave(50, 7) && !asWritten.IsDirty && asWritten.SavedMigrationId == NoMigration
    ensures intended.Data == SampleSave(50, -50) && intended.IsDirty
    ensures reloaded == SampleSave(50, 7)
  {
    var sys := SampleSystem();
    var kept := sys.NewContainerAsWritten(SampleType);
    asWritten := kept.saves[0];
    var migrated := sys.NewContainer(SampleType);
    intended := migrated.saves[0];
    var stamp := sys.saveProvider.Stamp(SampleType, asWritten.SavedMigrationId);
    reloaded := sys.saveProvider.Migrated(SampleType, asWritten.Serialize().(SavedMigrationId := stamp)).Data;
  }
}
