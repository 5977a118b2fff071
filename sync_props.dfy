/** What synchronisation promises about the store once it has run: the five
    real tables are visited once each, the table of the new category ends with
    a record for the entity, the others end with none, nothing else changes,
    and a second run changes nothing. */
module SyncProperties {

  import opened JsValues
  import opened Collections
  import opened Api

  /** No two visited entries name the same table. */
  predicate DistinctVisited(entries: seq<(string, string)>) {
    forall i, j :: 0 <= i < j < |entries| && IsVisited(entries[i]) && IsVisited(entries[j]) ==> entries[i].1 != entries[j].1
  }

  /** The loop skips exactly the "Tombola" alias (entry 2) and "Subvention"
      (entry 6); the five entries it visits name five different tables. */
  lemma VisitedEntries()
    ensures forall i :: 0 <= i < |TrackingTables| ==> (IsVisited(TrackingTables[i]) <==> i != 2 && i != 6)
    ensures DistinctVisited(TrackingTables)
    ensures DistinctVisitedNames(TrackingTables)
  {
    var t := TrackingTables;
    assert t[0].0[0] == 'E' && t[1].0[8] == '(' && t[3].0[0] == 'P' && t[4].0[0] == 'M' && t[5].0[1] == 't';
    assert t[0].1[1] == '5' && t[1].1[1] == 'm' && t[3].1[1] == 'e' && t[4].1[1] == '8' && t[5].1[1] == 'i';
  }

  /** No two visited entries carry the same category name. */
  predicate DistinctVisitedNames(entries: seq<(string, string)>) {
    forall i, j :: 0 <= i < j < |entries| && IsVisited(entries[i]) && IsVisited(entries[j]) ==> entries[i].0 != entries[j].0
  }

  // ----- one step -----

  /** The rows a step leaves in the table it visits, given the id the store
      would give a new record. */
  function StepRows(rows: seq<Record>, entry: (string, string), entityId: Value, newType: Value, id: nat): seq<Record> {
    var linked := Linked(rows, entityId);
    if StrictEq(Str(entry.0), newType) then
      (if |linked| == 0 then rows + [AutoRecord(entityId, id)] else rows)
    else WithoutIds(rows, IdsOf(linked))
  }

  lemma StepTouchesOneTable(s: Snapshot, u: set<string>, e: (string, string), entityId: Value, newType: Value, t: string)
    ensures t != e.1 || !IsVisited(e) || e.1 in u ==>
      RowsOf(SyncStep(s, u, e, entityId, newType).tables, t) == RowsOf(s.tables, t)
    ensures t == e.1 && IsVisited(e) && e.1 !in u ==>
      RowsOf(SyncStep(s, u, e, entityId, newType).tables, t) == StepRows(RowsOf(s.tables, t), e, entityId, newType, s.nextId)
  {
    if t == e.1 && IsVisited(e) && e.1 !in u {
      var rows := RowsOf(s.tables, t);
      if |Linked(rows, entityId)| == 0 && !StrictEq(Str(e.0), newType) {
        WithoutIdsEmpty(rows);
      }
    }
  }

  /** The skeleton record designates the entity whenever the entity id is a plain value. */
  lemma AutoRecordLinks(entityId: Value, id: nat)
    requires !entityId.Obj?
    ensures LinksTo(AutoRecord(entityId, id), entityId)
  {
  }

  /** After deleting by the ids of the linked records, no linked record is left. */
  lemma {:induction false} NoneLinkedAfterDelete(rows: seq<Record>, entityId: Value)
    ensures Linked(WithoutIds(rows, IdsOf(Linked(rows, entityId))), entityId) == []
  {
    var linked := Linked(rows, entityId);
    var ids := IdsOf(linked);
    var rest := WithoutIds(rows, ids);
    forall i | 0 <= i < |rest|
      ensures !LinksTo(rest[i], entityId)
    {
      var r := rest[i];
      assert r in rows && Get(r, "Id") !in ids;
    }
    FilterNonePass(rest, (r: Record) => LinksTo(r, entityId));
  }

  /** A table the new category owns ends with a linked record; any other ends with none. */
  predicate TableSynced(rows: seq<Record>, category: string, entityId: Value, newType: Value) {
    if StrictEq(Str(category), newType) then |Linked(rows, entityId)| > 0 else |Linked(rows, entityId)| == 0
  }

  lemma StepSynchronises(rows: seq<Record>, entry: (string, string), entityId: Value, newType: Value, id: nat)
    requires !entityId.Obj?
    ensures TableSynced(StepRows(rows, entry, entityId, newType, id), entry.0, entityId, newType)
  {
    var linked := Linked(rows, entityId);
    if StrictEq(Str(entry.0), newType) {
      if |linked| == 0 {
        FilterSnoc(rows, AutoRecord(entityId, id), (r: Record) => LinksTo(r, entityId));
        AutoRecordLinks(entityId, id);
      }
    } else {
      NoneLinkedAfterDelete(rows, entityId);
    }
  }

  /** A step on a table that is already synchronised changes nothing. */
  lemma StepOnSynced(s: Snapshot, u: set<string>, e: (string, string), entityId: Value, newType: Value)
    requires IsVisited(e) && e.1 !in u ==> TableSynced(RowsOf(s.tables, e.1), e.0, entityId, newType)
    ensures SyncStep(s, u, e, entityId, newType) == s
  {
  }

  // ----- the whole loop -----

  /** Every visited table that can be reached is synchronised. */
  predicate Synced(s: Snapshot, u: set<string>, entries: seq<(string, string)>, entityId: Value, newType: Value) {
    forall i :: 0 <= i < |entries| && IsVisited(entries[i]) && entries[i].1 !in u ==>
      TableSynced(RowsOf(s.tables, entries[i].1), entries[i].0, entityId, newType)
  }

  /** A table no visited entry names, or one that cannot be reached, keeps its rows. */
  lemma {:induction false} SyncFrame(s0: Snapshot, u: set<string>, entries: seq<(string, string)>, entityId: Value, newType: Value, t: string)
    requires t in u || forall i :: 0 <= i < |entries| && IsVisited(entries[i]) ==> entries[i].1 != t
    ensures RowsOf(SyncUpTo(s0, u, entries, entityId, newType).tables, t) == RowsOf(s0.tables, t)
    decreases |entries|
  {
    if entries != [] {
      var n := |entries| - 1;
      SyncFrame(s0, u, entries[..n], entityId, newType, t);
      StepTouchesOneTable(SyncUpTo(s0, u, entries[..n], entityId, newType), u, entries[n], entityId, newType, t);
    }
  }

  /** One more step keeps the tables synchronised so far and synchronises its own. */
  lemma SyncedStep(sp: Snapshot, u: set<string>, p: seq<(string, string)>, e: (string, string), entityId: Value, newType: Value)
    requires !entityId.Obj?
    requires DistinctVisited(p + [e])
    requires Synced(sp, u, p, entityId, newType)
    ensures Synced(SyncStep(sp, u, e, entityId, newType), u, p + [e], entityId, newType)
  {
    var entries := p + [e];
    var s := SyncStep(sp, u, e, entityId, newType);
    assert entries[|p|] == e;
    forall i | 0 <= i < |entries| && IsVisited(entries[i]) && entries[i].1 !in u
      ensures TableSynced(RowsOf(s.tables, entries[i].1), entries[i].0, entityId, newType)
    {
      var t := entries[i].1;
      StepTouchesOneTable(sp, u, e, entityId, newType, t);
      if i == |p| {
        StepSynchronises(RowsOf(sp.tables, t), e, entityId, newType, sp.nextId);
      } else {
        assert p[i] == entries[i];
      }
    }
  }

  /** After the loop every visited, reachable table is synchronised. */
  lemma {:induction false} SyncEstablishes(s0: Snapshot, u: set<string>, entries: seq<(string, string)>, entityId: Value, newType: Value)
    requires !entityId.Obj?
    requires DistinctVisited(entries)
    ensures Synced(SyncUpTo(s0, u, entries, entityId, newType), u, entries, entityId, newType)
    decreases |entries|
  {
    if entries != [] {
      var n := |entries| - 1;
      var p := entries[..n];
      assert p + [entries[n]] == entries;
      assert DistinctVisited(p);
      SyncEstablishes(s0, u, p, entityId, newType);
      SyncedStep(SyncUpTo(s0, u, p, entityId, newType), u, p, entries[n], entityId, newType);
    }
  }

  /** On a synchronised store the loop changes nothing. */
  lemma {:induction false} SyncOnSynced(s: Snapshot, u: set<string>, entries: seq<(string, string)>, entityId: Value, newType: Value)
    requires Synced(s, u, entries, entityId, newType)
    ensures SyncUpTo(s, u, entries, entityId, newType) == s
    decreases |entries|
  {
    if entries != [] {
      var n := |entries| - 1;
      var p := entries[..n];
      assert Synced(s, u, p, entityId, newType) by {
        forall i | 0 <= i < |p| && IsVisited(p[i]) && p[i].1 !in u
          ensures TableSynced(RowsOf(s.tables, p[i].1), p[i].0, entityId, newType)
        {
          assert p[i] == entries[i];
        }
      }
      SyncOnSynced(s, u, p, entityId, newType);
      StepOnSynced(s, u, entries[n], entityId, newType);
    }
  }

  /** Running synchronisation a second time with the same category changes
      nothing: no record is created and none is deleted. */
  lemma SyncIdempotent(s0: Snapshot, u: set<string>, entityId: Value, newType: Value)
    requires !entityId.Obj?
    ensures var s1 := SyncUpTo(s0, u, TrackingTables, entityId, newType);
      SyncUpTo(s1, u, TrackingTables, entityId, newType) == s1
  {
    VisitedEntries();
    SyncEstablishes(s0, u, TrackingTables, entityId, newType);
    SyncOnSynced(SyncUpTo(s0, u, TrackingTables, entityId, newType), u, TrackingTables, entityId, newType);
  }

  /** The rows a visited, reachable table ends with are the rows one step
      makes of the rows it started with, the new record taking the id the store
      had reached by then. */
  lemma {:induction false} SyncOutcome(s0: Snapshot, u: set<string>, entries: seq<(string, string)>, entityId: Value, newType: Value, k: nat)
    requires DistinctVisited(entries)
    requires k < |entries| && IsVisited(entries[k]) && entries[k].1 !in u
    ensures RowsOf(SyncUpTo(s0, u, entries, entityId, newType).tables, entries[k].1) ==
      StepRows(RowsOf(s0.tables, entries[k].1), entries[k], entityId, newType, SyncUpTo(s0, u, entries[..k], entityId, newType).nextId)
    decreases |entries|
  {
    var n := |entries| - 1;
    var p := entries[..n];
    var t := entries[k].1;
    var sp := SyncUpTo(s0, u, p, entityId, newType);
    StepTouchesOneTable(sp, u, entries[n], entityId, newType, t);
    assert DistinctVisited(p);
    if k == n {
      forall i | 0 <= i < |p| && IsVisited(p[i])
        ensures p[i].1 != t
      {
        assert p[i] == entries[i];
      }
      SyncFrame(s0, u, p, entityId, newType, t);
    } else {
      assert p[k] == entries[k];
      assert p[..k] == entries[..k];
      SyncOutcome(s0, u, p, entityId, newType, k);
    }
  }

  /** The table of the new category: when no record links to the entity, exactly
      one is appended, linking to it and titled as auto-generated, behind the
      existing rows; otherwise the table is left as it was. */
  lemma SyncTargetTable(s0: Snapshot, u: set<string>, entityId: Value, newType: Value, k: nat)
    requires !entityId.Obj?
    requires k < |TrackingTables| && IsVisited(TrackingTables[k]) && TrackingTables[k].1 !in u
    requires StrictEq(Str(TrackingTables[k].0), newType)
    ensures var before := RowsOf(s0.tables, TrackingTables[k].1);
      var after := RowsOf(SyncUpTo(s0, u, TrackingTables, entityId, newType).tables, TrackingTables[k].1);
      (|Linked(before, entityId)| > 0 ==> after == before) &&
      (|Linked(before, entityId)| == 0 ==>
         |after| == |before| + 1 && after[..|before|] == before &&
         Get(after[|before|], "Link_Annonceur") == entityId &&
         Get(after[|before|], "Titre") == Str(AutoTitle) &&
         |Linked(after, entityId)| == 1)
  {
    VisitedEntries();
    SyncOutcome(s0, u, TrackingTables, entityId, newType, k);
    var before := RowsOf(s0.tables, TrackingTables[k].1);
    var id := SyncUpTo(s0, u, TrackingTables[..k], entityId, newType).nextId;
    if |Linked(before, entityId)| == 0 {
      var after := before + [AutoRecord(entityId, id)];
      assert after[..|before|] == before;
      FilterSnoc(before, AutoRecord(entityId, id), (r: Record) => LinksTo(r, entityId));
      AutoRecordLinks(entityId, id);
    }
  }

  /** Every other visited table loses exactly the records that link to the
      entity (and any record sharing an id with one of them), and keeps the
      rest in order. */
  lemma SyncOtherTable(s0: Snapshot, u: set<string>, entityId: Value, newType: Value, k: nat)
    requires k < |TrackingTables| && IsVisited(TrackingTables[k]) && TrackingTables[k].1 !in u
    requires !StrictEq(Str(TrackingTables[k].0), newType)
    ensures var before := RowsOf(s0.tables, TrackingTables[k].1);
      var after := RowsOf(SyncUpTo(s0, u, TrackingTables, entityId, newType).tables, TrackingTables[k].1);
      after == WithoutIds(before, IdsOf(Linked(before, entityId))) &&
      Linked(after, entityId) == [] &&
      IsSubsequence(after, before)
  {
    VisitedEntries();
    SyncOutcome(s0, u, TrackingTables, entityId, newType, k);
    var before := RowsOf(s0.tables, TrackingTables[k].1);
    NoneLinkedAfterDelete(before, entityId);
    FilterIsSubsequence(before, (r: Record) => Get(r, "Id") !in IdsOf(Linked(before, entityId)));
  }

  /** Tables the loop does not visit, and tables it cannot reach, keep their rows. */
  lemma SyncLeavesOtherTables(s0: Snapshot, u: set<string>, entityId: Value, newType: Value, t: string)
    requires t in u || t !in {"m5bbut4uy8toxt5", "mm0pgifcf72rnoj", "megvc314571rznb", "m80f7gykd2ubrfk", "midotel4vypc65e"}
    ensures RowsOf(SyncUpTo(s0, u, TrackingTables, entityId, newType).tables, t) == RowsOf(s0.tables, t)
  {
    VisitedEntries();
    if t !in u {
      forall i | 0 <= i < |TrackingTables| && IsVisited(TrackingTables[i])
        ensures TrackingTables[i].1 != t
      {
        assert i != 2 && i != 6;
      }
    }
    SyncFrame(s0, u, TrackingTables, entityId, newType, t);
  }

  /** The number of visited entries the new category names. */
  function Targets(entries: seq<(string, string)>, newType: Value): nat
    decreases |entries|
  {
    if entries == [] then 0
    else
      var e := entries[|entries| - 1];
      Targets(entries[..|entries| - 1], newType) + (if IsVisited(e) && StrictEq(Str(e.0), newType) then 1 else 0)
  }

  /** A record is created only in a table the new category names. */
  lemma {:induction false} SyncCreations(s0: Snapshot, u: set<string>, entries: seq<(string, string)>, entityId: Value, newType: Value)
    ensures s0.nextId <= SyncUpTo(s0, u, entries, entityId, newType).nextId <= s0.nextId + Targets(entries, newType)
    decreases |entries|
  {
    if entries != [] {
      SyncCreations(s0, u, entries[..|entries| - 1], entityId, newType);
    }
  }

  lemma {:induction false} TargetsZero(entries: seq<(string, string)>, newType: Value)
    requires forall i :: 0 <= i < |entries| && IsVisited(entries[i]) ==> !StrictEq(Str(entries[i].0), newType)
    ensures Targets(entries, newType) == 0
    decreases |entries|
  {
    if entries != [] {
      var n := |entries| - 1;
      assert forall i :: 0 <= i < n ==> entries[..n][i] == entries[i];
      TargetsZero(entries[..n], newType);
    }
  }

  /** Distinct names: at most one of them is the new category. */
  lemma {:induction false} TargetsAtMostOne(entries: seq<(string, string)>, newType: Value)
    requires DistinctVisitedNames(entries)
    ensures Targets(entries, newType) <= 1
    decreases |entries|
  {
    if entries != [] {
      var n := |entries| - 1;
      var p := entries[..n];
      assert forall i :: 0 <= i < n ==> p[i] == entries[i];
      TargetsAtMostOne(p, newType);
      if IsVisited(entries[n]) && StrictEq(Str(entries[n].0), newType) {
        TargetsZero(p, newType);
      }
    }
  }

  /** At most one of the visited names is the new category, so one run creates at most one record. */
  lemma SyncCreatesAtMostOne(s0: Snapshot, u: set<string>, entityId: Value, newType: Value)
    ensures SyncUpTo(s0, u, TrackingTables, entityId, newType).nextId <= s0.nextId + 1
  {
    SyncCreations(s0, u, TrackingTables, entityId, newType);
    VisitedEntries();
    TargetsAtMostOne(TrackingTables, newType);
  }

  /** When the new category is not one of the five visited names ("Subvention",
      the "Tombola" alias, null, anything else), nothing is created and every
      reachable visited table ends with no record linking to the entity. */
  lemma SyncToUnvisitedCategory(s0: Snapshot, u: set<string>, entityId: Value, newType: Value)
    requires !(newType.Str? && newType.s in {"Encart Pub", "Tombola (Lots)", "Partenaires", "Mécénat", "Stand"})
    requires !entityId.Obj?
    ensures var s1 := SyncUpTo(s0, u, TrackingTables, entityId, newType);
      s1.nextId == s0.nextId &&
      forall i :: 0 <= i < |TrackingTables| && IsVisited(TrackingTables[i]) && TrackingTables[i].1 !in u ==>
        Linked(RowsOf(s1.tables, TrackingTables[i].1), entityId) == []
  {
    VisitedEntries();
    TargetsZero(TrackingTables, newType);
    SyncCreations(s0, u, TrackingTables, entityId, newType);
    SyncEstablishes(s0, u, TrackingTables, entityId, newType);
  }
}
