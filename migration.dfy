/**
 * The migration chain: `DefaultSaveMigrationRule` (Assets/Runtime/Scripts/Base/DefaultSaveMigrationRule.cs)
 * and `DefaultSaveMigrationHandler` (Assets/Runtime/Scripts/DefaultSaveMigrationHandler.cs).
 * A rule's `Migrate` is modelled by its effect `Step` on the record's own properties; the handler
 * decides which rules to replay on a freshly loaded record and whether the record becomes dirty.
 */
module Migration {
  import opened Wrappers
  import opened SaveTypes

  /** `int.CompareTo`: -1, 0 or 1. */
  function CompareInts(a: int, b: int): int
  {
    if a < b then -1 else if a > b then 1 else 0
  }

  /** One schema-upgrade step for one record type. Rules are objects: `CompareTo` tests reference equality. */
  class MigrationRule<P> {
    const Id: int
    /** What `Migrate` does to the record's own properties. */
    const Step: P -> P

    constructor (id: int, step: P -> P)
      ensures Id == id && Step == step
    {
      Id, Step := id, step;
    }

    /** Whether a record whose stored migration id is `savedMigrationId` was last written under this rule. */
    predicate IsSaveWasWrittenWithThatRule(savedMigrationId: int)
    {
      savedMigrationId == Id
    }

    /** Orders rules by id; a missing rule sorts first and a rule equals itself. */
    function CompareTo(other: MigrationRule?<P>): int
    {
      if other == null then 1
      else if this == other then 0
      else CompareInts(Id, other.Id)
    }
  }

  /** `CompareTo` is an antisymmetric ordering consistent with the ids. */
  lemma CompareToConsistentWithIds<P>(a: MigrationRule<P>, b: MigrationRule<P>)
    ensures a.CompareTo(null) == 1 && a.CompareTo(a) == 0
    ensures a != b ==> a.CompareTo(b) == -b.CompareTo(a)
    ensures a != b ==> (a.CompareTo(b) < 0 <==> a.Id < b.Id) && (a.CompareTo(b) > 0 <==> a.Id > b.Id)
  {
  }

  /** Rule ids strictly ascend along the list: sorted, with no two rules sharing an id. */
  ghost predicate StrictlyAscending<P>(rules: seq<MigrationRule<P>>)
  {
    forall i, j | 0 <= i < j < |rules| :: rules[i].Id < rules[j].Id
  }

  /** The position of the first rule whose id is `saved`, if any. */
  function FindRule<P>(rules: seq<MigrationRule<P>>, saved: int): (k: Option<nat>)
    ensures k.Some? ==> k.value < |rules| && rules[k.value].Id == saved
    ensures k.Some? ==> forall j | 0 <= j < k.value :: rules[j].Id != saved
    ensures k.None? ==> forall j | 0 <= j < |rules| :: rules[j].Id != saved
  {
    if |rules| == 0 then None
    else if rules[0].Id == saved then Some(0)
    else match FindRule(rules[1..], saved)
      case None => None
      case Some(k) => Some(k + 1)
  }

  /** Neither early return of `TryMigrate` fires: some rule exists and the newest did not write the record. */
  predicate RunsMigration<P>(rules: seq<MigrationRule<P>>, saved: int)
  {
    |rules| > 0 && !rules[|rules| - 1].IsSaveWasWrittenWithThatRule(saved)
  }

  /**
   * The rules `TryMigrate` replays on a record stored with migration id `saved`: all of them for the
   * sentinel, those after the matching rule otherwise, and none when no rule matches.
   */
  function RulesToReplay<P>(rules: seq<MigrationRule<P>>, saved: int): seq<MigrationRule<P>>
  {
    if !RunsMigration(rules, saved) then []
    else if saved == NoMigration then rules
    else match FindRule(rules, saved)
      case Some(k) => rules[k + 1..]
      case None => []
  }

  /** The record's properties after running `rules` in list order. */
  function Replay<P>(rules: seq<MigrationRule<P>>, data: P): P
  {
    if rules == [] then data else rules[|rules| - 1].Step(Replay(rules[..|rules| - 1], data))
  }

  /** A running migration whose stored id first matches rule `k` replays the rules after `k`. */
  lemma MatchReplaysRest<P>(rules: seq<MigrationRule<P>>, saved: int, k: nat)
    requires RunsMigration(rules, saved) && saved != NoMigration
    requires k < |rules| && rules[k].Id == saved
    requires forall j | 0 <= j < k :: rules[j].Id != saved
    ensures RulesToReplay(rules, saved) == rules[k + 1..]
  {
    FindFirstMatch(rules, saved, k);
  }

  lemma FindFirstMatch<P>(rules: seq<MigrationRule<P>>, saved: int, i: nat)
    requires i < |rules| && rules[i].Id == saved
    requires forall j | 0 <= j < i :: rules[j].Id != saved
    ensures FindRule(rules, saved) == Some(i)
  {
  }

  lemma FindNoMatch<P>(rules: seq<MigrationRule<P>>, saved: int)
    requires forall j | 0 <= j < |rules| :: rules[j].Id != saved
    ensures FindRule(rules, saved) == None
  {
  }

  lemma ReplaySnoc<P>(rules: seq<MigrationRule<P>>, r: MigrationRule<P>, data: P)
    ensures Replay(rules + [r], data) == r.Step(Replay(rules, data))
  {
    assert (rules + [r])[..|rules|] == rules;
  }

  /**
   * `Add` then `Sort` on a list sorted by id that holds no rule with `r`'s id: `r` lands before the
   * first rule with a larger id.
   */
  function InsertById<P>(rules: seq<MigrationRule<P>>, r: MigrationRule<P>): (result: seq<MigrationRule<P>>)
    ensures multiset(result) == multiset(rules) + multiset{r}
    ensures forall x | x in result :: x == r || x in rules
  {
    if |rules| == 0 || r.Id < rules[0].Id then [r] + rules
    else
      assert rules == [rules[0]] + rules[1..];
      [rules[0]] + InsertById(rules[1..], r)
  }

  /** Inserting a rule with a fresh id into a strictly ascending list keeps it strictly ascending. */
  lemma {:induction false} InsertByIdAscending<P>(rules: seq<MigrationRule<P>>, r: MigrationRule<P>)
    requires StrictlyAscending(rules) && forall j | 0 <= j < |rules| :: rules[j].Id != r.Id
    ensures StrictlyAscending(InsertById(rules, r))
  {
    if |rules| > 0 && rules[0].Id < r.Id {
      var tail := rules[1..];
      InsertByIdAscending(tail, r);
      var rest := InsertById(tail, r);
      forall x | x in rest
        ensures rules[0].Id < x.Id
      {
        if x != r {
          var k :| 0 <= k < |tail| && tail[k] == x;
          assert rules[k + 1] == x;
        }
      }
      var result := [rules[0]] + rest;
      forall a, b | 0 <= a < b < |result|
        ensures result[a].Id < result[b].Id
      {
        if a == 0 {
          assert result[b] in rest;
        } else {
          assert result[a] == rest[a - 1] && result[b] == rest[b - 1];
        }
      }
    }
  }

  /** The rule list of one record type, and the decision which rules a loaded record needs. */
  class MigrationHandler<P> {
    var migrationRules: seq<MigrationRule<P>>

    ghost predicate Valid()
      reads this
    {
      StrictlyAscending(migrationRules)
    }

    constructor ()
      ensures migrationRules == [] && Valid()
    {
      migrationRules := [];
    }

    /**
     * Replays on a freshly loaded record's properties the rules it has not seen yet, and reports
     * whether the handler marks the record dirty. The stored migration id is left alone.
     */
    method TryMigrate(savedMigrationId: int, data: P) returns (migrated: P, setDirty: bool, ghost executed: seq<MigrationRule<P>>)
      ensures executed == RulesToReplay(migrationRules, savedMigrationId)
      ensures migrated == Replay(executed, data)
      ensures setDirty == RunsMigration(migrationRules, savedMigrationId)
      ensures |migrationRules| == 0 ==> migrated == data && !setDirty
    {
      migrated, setDirty, executed := data, false, [];
      var rules := migrationRules;
      if |rules| == 0 {
        return;
      }
      if rules[|rules| - 1].IsSaveWasWrittenWithThatRule(savedMigrationId) {
        return;
      }
      var executingMigrations := false;
      if savedMigrationId == NoMigration {
        executingMigrations := true;
      }
      ghost var start := 0;
      var i := 0;
      while i < |rules|
        invariant 0 <= i <= |rules|
        invariant !executingMigrations ==> savedMigrationId != NoMigration && migrated == data && executed == []
        invariant !executingMigrations ==> forall j | 0 <= j < i :: rules[j].Id != savedMigrationId
        invariant executingMigrations ==> 0 <= start <= i && executed == rules[start..i] && migrated == Replay(executed, data)
        invariant executingMigrations && savedMigrationId == NoMigration ==> start == 0
        invariant executingMigrations && savedMigrationId != NoMigration ==>
                    0 < start && rules[start - 1].Id == savedMigrationId && forall j | 0 <= j < start - 1 :: rules[j].Id != savedMigrationId
      {
        if !executingMigrations {
          if rules[i].IsSaveWasWrittenWithThatRule(savedMigrationId) {
            executingMigrations := true;
            start := i + 1;
          }
        } else {
          ReplaySnoc(executed, rules[i], data);
          migrated := rules[i].Step(migrated);
          executed := executed + [rules[i]];
        }
        i := i + 1;
      }
      if !executingMigrations {
        UnknownIdReplaysNothing(rules, savedMigrationId);
      } else if savedMigrationId != NoMigration {
        MatchReplaysRest(rules, savedMigrationId, start - 1);
      }
      setDirty := true;
    }

    /** Adds a rule unless its id is already registered (`Any`), then `Add` and `Sort` by id. */
    method AddMigrationRule(migrationRule: MigrationRule<P>)
      requires Valid()
      modifies this
      ensures Valid()
      ensures (exists r | r in old(migrationRules) :: r.Id == migrationRule.Id) ==> migrationRules == old(migrationRules)
      ensures (forall r | r in old(migrationRules) :: r.Id != migrationRule.Id) ==>
                multiset(migrationRules) == multiset(old(migrationRules)) + multiset{migrationRule}
    {
      if exists r | r in migrationRules :: r.Id == migrationRule.Id {
        return;
      }
      InsertByIdAscending(migrationRules, migrationRule);
      migrationRules := InsertById(migrationRules, migrationRule);
    }

    /** The id stamped on records when they are written: the newest rule's id, or the sentinel. */
    function GetCurrentMigrationId(): (id: int)
      reads this`migrationRules
      ensures |migrationRules| == 0 ==> id == NoMigration
      ensures |migrationRules| > 0 ==> exists r | r in migrationRules :: r.Id == id
      ensures Valid() ==> forall r | r in migrationRules :: r.Id <= id
    {
      if |migrationRules| > 0 then migrationRules[|migrationRules| - 1].Id else NoMigration
    }
  }

  /**
   * The provider-side use of a registry of handlers, one per record type (both providers' `MigrationHandlers`).
   * On write, a record of a type with a handler carries the handler's current id; others keep theirs.
   */
  function StampWith<P>(handlers: map<TypeName, MigrationHandler<P>>, t: TypeName, stored: int): int
    reads handlers.Values
  {
    if t in handlers then handlers[t].GetCurrentMigrationId() else stored
  }

  /** On load, a record of a type with a handler has the rules it has not seen replayed on its properties. */
  function MigratedWith<P>(handlers: map<TypeName, MigrationHandler<P>>, t: TypeName, snap: Snapshot<P>): Snapshot<P>
    reads handlers.Values
  {
    if t in handlers
    then snap.(Data := Replay(RulesToReplay(handlers[t].migrationRules, snap.SavedMigrationId), snap.Data))
    else snap
  }

  /** Whether migration on load marks the record dirty. */
  predicate MarksDirtyWith<P>(handlers: map<TypeName, MigrationHandler<P>>, t: TypeName, snap: Snapshot<P>)
    reads handlers.Values
  {
    t in handlers && RunsMigration(handlers[t].migrationRules, snap.SavedMigrationId)
  }

  /** A record stamped with the current id is left alone: nothing replays and the dirty flag is untouched. */
  lemma {:induction false} StampedRecordNeedsNoMigration<P>(h: MigrationHandler<P>)
    ensures RulesToReplay(h.migrationRules, h.GetCurrentMigrationId()) == []
    ensures !RunsMigration(h.migrationRules, h.GetCurrentMigrationId())
  {
  }

  /** A record that predates every rule replays the whole chain, in ascending id order. */
  lemma SentinelReplaysAll<P>(rules: seq<MigrationRule<P>>)
    requires StrictlyAscending(rules) && |rules| > 0 && rules[|rules| - 1].Id != NoMigration
    ensures RulesToReplay(rules, NoMigration) == rules
    ensures RunsMigration(rules, NoMigration)
  {
  }

  /** A record last written under rule `k` (not the newest) replays exactly the rules after `k`. */
  lemma ResumesAfterMatchingRule<P>(rules: seq<MigrationRule<P>>, k: nat)
    requires StrictlyAscending(rules) && k < |rules| - 1 && rules[k].Id != NoMigration
    ensures RulesToReplay(rules, rules[k].Id) == rules[k + 1..]
    ensures RunsMigration(rules, rules[k].Id)
  {
    var found := FindRule(rules, rules[k].Id);
    assert found == Some(k);
  }

  /** A stored id that is not the sentinel and matches no rule replays nothing, yet marks the record dirty. */
  lemma UnknownIdReplaysNothing<P>(rules: seq<MigrationRule<P>>, saved: int)
    requires |rules| > 0 && saved != NoMigration
    requires forall j | 0 <= j < |rules| :: rules[j].Id != saved
    ensures RulesToReplay(rules, saved) == []
    ensures RunsMigration(rules, saved)
  {
    assert FindRule(rules, saved).None?;
  }

  /** Whatever is replayed is a suffix of the chain, so rules run in strictly ascending id order. */
  lemma ReplayIsAscendingSuffix<P>(rules: seq<MigrationRule<P>>, saved: int)
    requires StrictlyAscending(rules)
    ensures exists j | 0 <= j <= |rules| :: RulesToReplay(rules, saved) == rules[j..]
    ensures StrictlyAscending(RulesToReplay(rules, saved))
  {
    var replay := RulesToReplay(rules, saved);
    if !RunsMigration(rules, saved) {
      assert replay == rules[|rules|..];
    } else if saved == NoMigration {
      assert replay == rules[0..];
    } else {
      match FindRule(rules, saved)
      case Some(k) =>
        assert replay == rules[k + 1..];
      case None =>
        assert replay == rules[|rules|..];
    }
  }
}
