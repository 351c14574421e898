/**
 * The pending-write buffer both providers keep between the main thread and the writer:
 * serialized units (`JsonSave` in Assets/Runtime/Scripts/Providers/Json/JsonSave.cs, `BsonSave` in
 * Assets/Runtime/Scripts/Providers/LiteDB/BsonSave.cs), merged by "replace the unit with the same
 * (type, id), else append".
 */
module PendingWrites {
  import opened Wrappers
  import opened SaveTypes

  /** One serialized record waiting for the writer. */
  datatype PendingUnit<P> = PendingUnit(Type: TypeName, Id: int, Payload: Snapshot<P>, SaveName: string, Notify: bool)

  /** The buffer's key test, `s.Type == save.Type && s.Id == save.Id`. */
  predicate HasKey<P(==)>(u: PendingUnit<P>, t: TypeName, id: int)
  {
    u.Type == t && u.Id == id
  }

  /** `List.FindIndex`: the first position holding key (t, id), or -1. */
  function FirstIndex<P(==)>(buf: seq<PendingUnit<P>>, t: TypeName, id: int): (r: int)
    ensures -1 <= r < |buf|
    ensures r == -1 <==> forall i | 0 <= i < |buf| :: !HasKey(buf[i], t, id)
    ensures r >= 0 ==> HasKey(buf[r], t, id) && forall i | 0 <= i < r :: !HasKey(buf[i], t, id)
  {
    if |buf| == 0 then -1
    else if HasKey(buf[0], t, id) then 0
    else
      var r := FirstIndex(buf[1..], t, id);
      if r == -1 then -1 else r + 1
  }

  /** One merge step: the unit replaces the buffered unit with its key in place, or is appended. */
  function Upsert<P(==)>(buf: seq<PendingUnit<P>>, u: PendingUnit<P>): seq<PendingUnit<P>>
  {
    var i := FirstIndex(buf, u.Type, u.Id);
    if i == -1 then buf + [u] else buf[i := u]
  }

  /** Merging a batch: each unit in batch order. */
  function MergeAll<P(==)>(buf: seq<PendingUnit<P>>, units: seq<PendingUnit<P>>): seq<PendingUnit<P>>
  {
    if units == [] then buf else Upsert(MergeAll(buf, units[..|units| - 1]), units[|units| - 1])
  }

  /** At most one unit per (type, id). */
  predicate KeysUnique<P(==)>(buf: seq<PendingUnit<P>>)
  {
    forall i, j | 0 <= i < j < |buf| :: !HasKey(buf[j], buf[i].Type, buf[i].Id)
  }

  /** The buffered unit for (t, id), if any. */
  function Lookup<P(==)>(buf: seq<PendingUnit<P>>, t: TypeName, id: int): Option<PendingUnit<P>>
  {
    var i := FirstIndex(buf, t, id);
    if i == -1 then None else Some(buf[i])
  }

  /** The last unit of a batch with key (t, id): the one a merge keeps. */
  function LastWithKey<P(==)>(units: seq<PendingUnit<P>>, t: TypeName, id: int): (r: Option<PendingUnit<P>>)
    ensures r.Some? ==> r.value in units && HasKey(r.value, t, id)
    ensures r.None? ==> forall u | u in units :: !HasKey(u, t, id)
  {
    if units == [] then None
    else if HasKey(units[|units| - 1], t, id) then Some(units[|units| - 1])
    else
      assert units == units[..|units| - 1] + [units[|units| - 1]];
      LastWithKey(units[..|units| - 1], t, id)
  }

  /** Whether some buffered unit asks for the "save in progress" notification. */
  predicate AnyNotify<P(==)>(buf: seq<PendingUnit<P>>)
  {
    exists u | u in buf :: u.Notify
  }

  /** Units of one record type agree on the notification flag (it is a property of the type). */
  predicate NotifyByType<P(==)>(units: seq<PendingUnit<P>>)
  {
    forall a, b | a in units && b in units && a.Type == b.Type :: a.Notify == b.Notify
  }

  /** The `FindIndex` scan of the providers' merge loops. */
  method FindIndex<P(==)>(buf: seq<PendingUnit<P>>, t: TypeName, id: int) returns (index: int)
    ensures index == FirstIndex(buf, t, id)
  {
    index := 0;
    while index < |buf|
      invariant 0 <= index <= |buf|
      invariant forall i | 0 <= i < index :: !HasKey(buf[i], t, id)
    {
      if HasKey(buf[index], t, id) {
        return;
      }
      index := index + 1;
    }
    index := -1;
  }

  /** A merge step keeps at most one unit per key. */
  lemma {:induction false} UpsertKeysUnique<P>(buf: seq<PendingUnit<P>>, u: PendingUnit<P>)
    requires KeysUnique(buf)
    ensures KeysUnique(Upsert(buf, u))
  {
    var i := FirstIndex(buf, u.Type, u.Id);
    var r := Upsert(buf, u);
    forall a, b | 0 <= a < b < |r|
      ensures !HasKey(r[b], r[a].Type, r[a].Id)
    {
      if i == -1 {
        if b == |buf| {
          assert !HasKey(buf[a], u.Type, u.Id);
        } else {
          assert !HasKey(buf[b], buf[a].Type, buf[a].Id);
        }
      } else if a == i {
        assert !HasKey(buf[b], buf[i].Type, buf[i].Id);
      } else if b == i {
        assert !HasKey(buf[i], buf[a].Type, buf[a].Id);
      } else {
        assert !HasKey(buf[b], buf[a].Type, buf[a].Id);
      }
    }
  }

  /** Invariant of the pending buffer: merging any batch into a key-unique buffer keeps it key-unique. */
  lemma {:induction false} MergeAllKeysUnique<P>(buf: seq<PendingUnit<P>>, units: seq<PendingUnit<P>>)
    requires KeysUnique(buf)
    ensures KeysUnique(MergeAll(buf, units))
  {
    if units != [] {
      MergeAllKeysUnique(buf, units[..|units| - 1]);
      UpsertKeysUnique(MergeAll(buf, units[..|units| - 1]), units[|units| - 1]);
    }
  }

  /** After a merge step, the unit's key finds the unit, and every other key finds what it found before. */
  lemma UpsertLookup<P>(buf: seq<PendingUnit<P>>, u: PendingUnit<P>, t: TypeName, id: int)
    ensures Lookup(Upsert(buf, u), t, id) == if HasKey(u, t, id) then Some(u) else Lookup(buf, t, id)
  {
    var i := FirstIndex(buf, u.Type, u.Id);
    var r := Upsert(buf, u);
    var j := FirstIndex(r, t, id);
    if HasKey(u, t, id) {
      if i == -1 {
        assert r[|buf|] == u;
        assert j == |buf|;
      } else {
        assert r[i] == u;
        assert j == i;
      }
    } else {
      var k := FirstIndex(buf, t, id);
      if i == -1 {
        assert !HasKey(r[|buf|], t, id);
        if k == -1 {
          assert j == -1;
        } else {
          assert r[k] == buf[k];
          assert j == k;
        }
      } else {
        assert !HasKey(buf[i], t, id);
        if k == -1 {
          assert j == -1;
        } else {
          assert r[k] == buf[k];
          assert j == k;
        }
      }
    }
  }

  /**
   * What a merged buffer holds for a key: the batch's last unit with that key (later units win),
   * or, when the batch has none, what the buffer held before.
   */
  lemma {:induction false} MergeAllLookup<P>(buf: seq<PendingUnit<P>>, units: seq<PendingUnit<P>>, t: TypeName, id: int)
    ensures Lookup(MergeAll(buf, units), t, id) == match LastWithKey(units, t, id)
                                                   case Some(u) => Some(u)
                                                   case None => Lookup(buf, t, id)
  {
    if units != [] {
      var init := units[..|units| - 1];
      MergeAllLookup(buf, init, t, id);
      UpsertLookup(MergeAll(buf, init), units[|units| - 1], t, id);
    }
  }

  /** The buffer never shrinks and grows by at most the batch size. */
  lemma {:induction false} MergeAllLength<P>(buf: seq<PendingUnit<P>>, units: seq<PendingUnit<P>>)
    ensures |buf| <= |MergeAll(buf, units)| <= |buf| + |units|
  {
    if units != [] {
      MergeAllLength(buf, units[..|units| - 1]);
    }
  }

  /** One merge step, seen by the notification query, when units of one type agree on the flag. */
  lemma UpsertNotify<P>(buf: seq<PendingUnit<P>>, u: PendingUnit<P>)
    requires NotifyByType(buf + [u])
    ensures AnyNotify(Upsert(buf, u)) <==> AnyNotify(buf) || u.Notify
  {
    var i := FirstIndex(buf, u.Type, u.Id);
    var r := Upsert(buf, u);
    if i == -1 {
      assert u in r;
      if AnyNotify(buf) {
        var w :| w in buf && w.Notify;
        assert w in r;
      }
    } else {
      assert buf[i] in buf + [u] && u in buf + [u];
      assert r[i] == u;
      if AnyNotify(buf) {
        var k :| 0 <= k < |buf| && buf[k].Notify;
        assert r[if k == i then i else k].Notify;
      }
      if AnyNotify(r) {
        var k :| 0 <= k < |r| && r[k].Notify;
        assert buf[if k == i then i else k].Notify;
      }
    }
  }

  /**
   * `AnySaveRequiresNotification` after a merge: some unit asks for the notification exactly when one
   * did in the buffer or in the batch, provided units of one type agree on the flag.
   */
  lemma {:induction false} MergeAllNotify<P>(buf: seq<PendingUnit<P>>, units: seq<PendingUnit<P>>)
    requires NotifyByType(buf + units)
    ensures AnyNotify(MergeAll(buf, units)) <==> AnyNotify(buf) || AnyNotify(units)
  {
    if units != [] {
      var init := units[..|units| - 1];
      var last := units[|units| - 1];
      assert units == init + [last];
      assert forall u | u in buf + init :: u in buf + units;
      MergeAllNotify(buf, init);
      MergeAllSubset(buf, init);
      var m := MergeAll(buf, init);
      assert forall u | u in m + [last] :: u in buf + units;
      UpsertNotify(m, last);
      if AnyNotify(init) {
        var w :| w in init && w.Notify;
        assert w in units;
      }
      if AnyNotify(units) {
        var w :| w in units && w.Notify;
        if w != last { assert w in init; }
      }
    }
  }

  /** Every unit of a merged buffer comes from the buffer or the batch. */
  lemma {:induction false} MergeAllSubset<P>(buf: seq<PendingUnit<P>>, units: seq<PendingUnit<P>>)
    ensures forall u | u in MergeAll(buf, units) :: u in buf || u in units
  {
    if units != [] {
      var init := units[..|units| - 1];
      var last := units[|units| - 1];
      MergeAllSubset(buf, init);
      var m := MergeAll(buf, init);
      forall u | u in Upsert(m, last)
        ensures u in buf || u in units
      {
        if u != last {
          assert u in m;
          if u in init { assert u in units; }
        }
      }
    }
  }
}
