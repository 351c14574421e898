/**
 * The two sample migration rules for `SampleSave`
 * (Assets/Samples/JsonSamples/JsonMigrationSample/SampleSaveMigration1.cs and SampleSaveMigration2.cs)
 * and the handler that the migration sample scene registers them with.
 */
module SampleMigrations {
  import opened SaveTypes
  import opened Migration

  /** The sample record's own properties: two C# `int`s. */
  datatype SampleSave = SampleSave(SomeNumber: int, SomeNumberAnother: int)

  predicate IsInt32(x: int)
  {
    -0x8000_0000 <= x < 0x8000_0000
  }

  predicate ValidSample(s: SampleSave)
  {
    IsInt32(s.SomeNumber) && IsInt32(s.SomeNumberAnother)
  }

  /** Unchecked C# `int` arithmetic: the result is taken modulo 2^32 into the signed range. */
  function WrapInt32(x: int): (r: int)
    ensures IsInt32(r)
    ensures (r - x) % 0x1_0000_0000 == 0
    ensures IsInt32(x) ==> r == x
  {
    (x + 0x8000_0000) % 0x1_0000_0000 - 0x8000_0000
  }

  /** Rule 1 copies `SomeNumber` into `SomeNumberAnother`. */
  function CopyNumber(s: SampleSave): (r: SampleSave)
    ensures r.SomeNumber == s.SomeNumber && r.SomeNumberAnother == s.SomeNumber
    ensures ValidSample(s) ==> ValidSample(r)
  {
    s.(SomeNumberAnother := s.SomeNumber)
  }

  /** Rule 2 lowers `SomeNumberAnother` by 100 with `int` wrap-around. */
  function LowerAnotherBy100(s: SampleSave): (r: SampleSave)
    ensures r.SomeNumber == s.SomeNumber
    ensures ValidSample(s) ==> ValidSample(r)
    ensures -0x8000_0000 + 100 <= s.SomeNumberAnother < 0x8000_0000 ==> r.SomeNumberAnother == s.SomeNumberAnother - 100
    ensures s.SomeNumberAnother < -0x8000_0000 + 100 && IsInt32(s.SomeNumberAnother) ==>
              r.SomeNumberAnother == s.SomeNumberAnother - 100 + 0x1_0000_0000
  {
    s.(SomeNumberAnother := WrapInt32(s.SomeNumberAnother - 100))
  }

  /** Copying is idempotent: replaying rule 1 twice is the same as once. */
  lemma CopyNumberIdempotent(s: SampleSave)
    ensures CopyNumber(CopyNumber(s)) == CopyNumber(s)
  {
  }

  /** Rule 2 is not idempotent: replaying it twice lowers the value by 200 (barring wrap-around). */
  lemma LowerTwiceLowersBy200(s: SampleSave)
    requires IsInt32(s.SomeNumberAnother) && s.SomeNumberAnother >= -0x8000_0000 + 200
    ensures LowerAnotherBy100(LowerAnotherBy100(s)).SomeNumberAnother == s.SomeNumberAnother - 200
  {
  }

  /** A two-rule list holding both rules, strictly ascending, is the two rules in id order. */
  lemma TwoRulesInOrder<P>(rules: seq<MigrationRule<P>>, r1: MigrationRule<P>, r2: MigrationRule<P>)
    requires StrictlyAscending(rules) && r1.Id < r2.Id
    requires multiset(rules) == multiset{r1, r2}
    ensures rules == [r1, r2]
  {
    assert |rules| == |multiset(rules)| == 2;
    assert r1 in multiset(rules) && r2 in multiset(rules);
    assert r1 in rules && r2 in rules;
  }

  /** A list whose multiset is one rule is that rule alone. */
  lemma OneRule<P>(rules: seq<MigrationRule<P>>, r: MigrationRule<P>)
    requires multiset(rules) == multiset{r}
    ensures rules == [r]
  {
    assert |rules| == |multiset(rules)| == 1;
    assert r in multiset(rules);
  }

  /**
   * The migration sample scene's handler: rules 1 and 2 registered (in either order, or with a
   * duplicate registration of rule 2 thrown in) become the list [rule 1, rule 2].
   */
  method SampleHandler(reversed: bool, duplicate: bool) returns (h: MigrationHandler<SampleSave>)
    ensures fresh(h) && h.Valid() && |h.migrationRules| == 2
    ensures h.migrationRules[0].Id == 1 && h.migrationRules[0].Step == CopyNumber
    ensures h.migrationRules[1].Id == 2 && h.migrationRules[1].Step == LowerAnotherBy100
  {
    h := new MigrationHandler();
    var rule1 := new MigrationRule(1, CopyNumber);
    var rule2 := new MigrationRule(2, LowerAnotherBy100);
    var first, second := rule1, rule2;
    if reversed {
      first, second := rule2, rule1;
    }
    h.AddMigrationRule(first);
    OneRule(h.migrationRules, first);
    h.AddMigrationRule(second);
    if duplicate {
      RegisterAgain(h, rule2);
    }
    TwoRulesInOrder(h.migrationRules, rule1, rule2);
  }

  /** A second registration of a rule with id 2, when `rule2` is already registered, changes nothing. */
  method RegisterAgain(h: MigrationHandler<SampleSave>, rule2: MigrationRule<SampleSave>)
    requires h.Valid() && rule2 in multiset(h.migrationRules) && rule2.Id == 2
    modifies h
    ensures h.Valid() && h.migrationRules == old(h.migrationRules)
  {
    var again := new MigrationRule(2, LowerAnotherBy100);
    assert rule2 in h.migrationRules;
    h.AddMigrationRule(again);
  }

  /**
   * Loading a sample record through the sample handler: the stored migration id decides the result.
   * A record from before any rule gets both steps, one written under rule 1 gets rule 2 only, one
   * written under rule 2 is untouched and clean, and an unknown id leaves the data but marks it dirty.
   * The id stamped on the next write is 2.
   */
  method LoadSample(s: SampleSave, savedMigrationId: int) returns (r: SampleSave, dirty: bool, stamp: int)
    ensures savedMigrationId == NoMigration ==> r == LowerAnotherBy100(CopyNumber(s)) && dirty
    ensures savedMigrationId == 1 ==> r == LowerAnotherBy100(s) && dirty
    ensures savedMigrationId == 2 ==> r == s && !dirty
    ensures savedMigrationId !in {NoMigration, 1, 2} ==> r == s && dirty
    ensures ValidSample(s) ==> ValidSample(r)
    ensures stamp == 2
  {
    var h := SampleHandler(false, false);
    ghost var rules := h.migrationRules;
    ghost var executed;
    r, dirty, executed := h.TryMigrate(savedMigrationId, s);
    if savedMigrationId == NoMigration {
      SentinelReplaysAll(rules);
      assert executed[..1] == [rules[0]] && [rules[0]][..0] == [];
      assert Replay(executed[..1], s) == CopyNumber(s);
    } else if savedMigrationId == 1 {
      ResumesAfterMatchingRule(rules, 0);
      assert executed == [rules[1]];
      assert executed[..0] == [];
    } else if savedMigrationId != 2 {
      UnknownIdReplaysNothing(rules, savedMigrationId);
    }
    stamp := h.GetCurrentMigrationId();
  }

  /**
   * The migration sample end to end: a record from before any rule holding `SomeNumber = 50` loads
   * with `SomeNumberAnother = -50`, dirty, still stored with the sentinel until it is written.
   */
  method LoadFifty(another: int) returns (r: SampleSave, dirty: bool)
    ensures r == SampleSave(50, -50) && dirty
  {
    var stamp;
    r, dirty, stamp := LoadSample(SampleSave(50, another), NoMigration);
  }
}
