/** The client of the record store: the category-to-table configuration, the
    tracking-table operations with their unknown-category behaviour, and the
    synchronisation that keeps an entity's tracking records in line with its
    category. The store itself is an object holding one sequence of rows per
    table id; a table the network cannot reach makes every request to it fail. */
module Api {

  import opened Wrappers
  import opened JsValues
  import opened Collections

  /** The entries of the tracking-table configuration, in declaration order:
      category name and table id. "Tombola" is an alias of "Tombola (Lots)" and
      "Subvention" borrows the Stand table. */
  const TrackingTables: seq<(string, string)> := [
    ("Encart Pub", "m5bbut4uy8toxt5"),
    ("Tombola (Lots)", "mm0pgifcf72rnoj"),
    ("Tombola", "mm0pgifcf72rnoj"),
    ("Partenaires", "megvc314571rznb"),
    ("Mécénat", "m80f7gykd2ubrfk"),
    ("Stand", "midotel4vypc65e"),
    ("Subvention", "midotel4vypc65e")
  ]

  /** The link field of each category in the main table; Subvention has none. */
  const LinkFields: seq<(string, string)> := [
    ("Encart Pub", "cyl94cin0jr44gs"),
    ("Tombola (Lots)", "cng8iswsgb2q60o"),
    ("Tombola", "cng8iswsgb2q60o"),
    ("Partenaires", "calv2cwh9dp92bi"),
    ("Mécénat", "cfjurax08wyyvyr"),
    ("Stand", "csvaotykbbr6jed")
  ]

  const MainTableId: string := "mz7t9hogvz3ynsm"

  /** Property lookup on a configuration object: the value of the key, if declared. */
  function Lookup(entries: seq<(string, string)>, key: string): (r: Option<string>)
    ensures r.Some? <==> exists i :: 0 <= i < |entries| && entries[i].0 == key
    ensures r.Some? ==> exists i :: 0 <= i < |entries| && entries[i] == (key, r.value)
  {
    if entries == [] then None
    else if entries[0].0 == key then Some(entries[0].1)
    else
      var r := Lookup(entries[1..], key);
      assert r.Some? ==> exists i :: 0 <= i < |entries| && entries[i] == (key, r.value) by {
        if r.Some? {
          var i :| 0 <= i < |entries[1..]| && entries[1..][i] == (key, r.value);
          assert entries[i + 1] == (key, r.value);
        }
      }
      assert (exists i :: 0 <= i < |entries| && entries[i].0 == key) ==> exists i :: 0 <= i < |entries[1..]| && entries[1..][i].0 == key by {
        if exists i :: 0 <= i < |entries| && entries[i].0 == key {
          var i :| 0 <= i < |entries| && entries[i].0 == key;
          assert i > 0 && entries[1..][i - 1] == entries[i];
        }
      }
      r
  }

  /** `TRACKING_TABLES[category]?.tableId` */
  function TableIdOf(category: string): Option<string> {
    Lookup(TrackingTables, category)
  }

  /** `LINK_FIELDS[category]` */
  function LinkFieldOf(category: string): Option<string> {
    Lookup(LinkFields, category)
  }

  /** The categories that have a table: exactly the seven configured names. */
  lemma {:induction false} KnownCategories(category: string)
    ensures TableIdOf(category).Some? <==> category in CategoryNames
  {
    assert forall i :: 0 <= i < |TrackingTables| ==> TrackingTables[i].0 == CategoryNames[i];
    if category in CategoryNames {
      var i :| 0 <= i < |CategoryNames| && CategoryNames[i] == category;
      assert TrackingTables[i].0 == category;
    }
  }

  const CategoryNames: seq<string> := ["Encart Pub", "Tombola (Lots)", "Tombola", "Partenaires", "Mécénat", "Stand", "Subvention"]

  /** The two Tombola names share one table and one link field. */
  lemma TombolaAlias()
    ensures TableIdOf("Tombola") == TableIdOf("Tombola (Lots)") == Some("mm0pgifcf72rnoj")
    ensures LinkFieldOf("Tombola") == LinkFieldOf("Tombola (Lots)") == Some("cng8iswsgb2q60o")
  {
    EntryTable(1);
    EntryTable(2);
    LinkEntry(1);
    LinkEntry(2);
  }

  /** Subvention uses the Stand table... */
  lemma SubventionBorrowsStand()
    ensures TableIdOf("Subvention") == TableIdOf("Stand") == Some("midotel4vypc65e")
  {
    EntryTable(5);
    EntryTable(6);
  }

  /** ...but has no link field. */
  lemma SubventionHasNoLinkField()
    ensures LinkFieldOf("Subvention") == None
  {
    forall i | 0 <= i < |LinkFields|
      ensures LinkFields[i].0 != "Subvention"
    {
      assert |LinkFields[i].0| != |"Subvention"| || LinkFields[i].0[1] != 'u';
    }
  }

  /** A key found at index `i`, when every entry of that key agrees with it,
      looks up to that entry's value. */
  lemma LookupAt(entries: seq<(string, string)>, i: nat)
    requires i < |entries|
    requires forall j :: 0 <= j < |entries| && entries[j].0 == entries[i].0 ==> entries[j].1 == entries[i].1
    ensures Lookup(entries, entries[i].0) == Some(entries[i].1)
  {
    var r := Lookup(entries, entries[i].0);
    assert r.Some?;
    var k :| 0 <= k < |entries| && entries[k] == (entries[i].0, r.value);
  }

  /** No two entries of the table configuration share a name. */
  lemma TableNamesDistinct(j: nat, i: nat)
    requires j < |TrackingTables| && i < |TrackingTables|
    requires TrackingTables[j].0 == TrackingTables[i].0
    ensures j == i
  {
    assert |TrackingTables[j].0| == |TrackingTables[i].0|;
    assert TrackingTables[j].0[0] == TrackingTables[i].0[0];
  }

  /** Every configured category maps to the table id of its own entry. */
  lemma EntryTable(i: nat)
    requires i < |TrackingTables|
    ensures TableIdOf(TrackingTables[i].0) == Some(TrackingTables[i].1)
  {
    forall j | 0 <= j < |TrackingTables| && TrackingTables[j].0 == TrackingTables[i].0
      ensures TrackingTables[j].1 == TrackingTables[i].1
    {
      TableNamesDistinct(j, i);
    }
    LookupAt(TrackingTables, i);
  }

  lemma {:induction false} LinkEntry(i: nat)
    requires i < |LinkFields|
    ensures LinkFieldOf(LinkFields[i].0) == Some(LinkFields[i].1)
  {
    assert LinkFields[2].1 == LinkFields[1].1;
    var r := LinkFieldOf(LinkFields[i].0);
    var k :| 0 <= k < |LinkFields| && LinkFields[k] == (LinkFields[i].0, r.value);
  }

  /** The message a tracking operation throws for an unconfigured category. */
  function UnknownType(category: string): string {
    "Unknown type: " + category
  }

  const NetworkError: string := "Network Error"

  /** `{ ...r, ...patch }`: the patch's fields win. */
  function Merge(r: Record, patch: Record): (m: Record)
    ensures m.Keys == r.Keys + patch.Keys
    ensures forall f :: f in patch ==> m[f] == patch[f]
    ensures forall f :: f in r && f !in patch ==> m[f] == r[f]
  {
    r + patch
  }

  /** The rows of a table; a table the store has never held reads as empty. */
  function RowsOf(tables: map<string, seq<Record>>, tableId: string): seq<Record> {
    if tableId in tables then tables[tableId] else []
  }

  /** The rows that remain after deleting the record with this id. */
  function WithoutId(rows: seq<Record>, id: Value): (r: seq<Record>)
    ensures forall i :: 0 <= i < |r| ==> Get(r[i], "Id") != id
  {
    Filter(rows, (row: Record) => Get(row, "Id") != id)
  }

  /** The rows after a PATCH with this body: the row with the body's id gets its fields. */
  function Patched(rows: seq<Record>, body: Record): (r: seq<Record>)
    ensures |r| == |rows|
    ensures forall i :: 0 <= i < |rows| ==>
      r[i] == if Get(rows[i], "Id") == Get(body, "Id") then Merge(rows[i], body) else rows[i]
  {
    MapSeq(rows, (row: Record) => if Get(row, "Id") == Get(body, "Id") then Merge(row, body) else row)
  }

  /** The remote record store. */
  class RecordStore {
    /** table id -> rows */
    var tables: map<string, seq<Record>>
    /** the id the store gives the next row it creates */
    var nextId: nat
    /** the tables every request to which fails */
    var unreachable: set<string>

    constructor(initial: map<string, seq<Record>>, firstId: nat, down: set<string>)
      ensures tables == initial && nextId == firstId && unreachable == down
    {
      tables := initial;
      nextId := firstId;
      unreachable := down;
    }

    function Rows(tableId: string): seq<Record>
      reads this
    {
      RowsOf(tables, tableId)
    }

    /** `fetchTrackingData`: the rows of the category's table, or `[]` when the
        category is unknown or the table cannot be reached. */
    method FetchTrackingData(category: string) returns (rows: seq<Record>)
      ensures TableIdOf(category).None? ==> rows == []
      ensures TableIdOf(category).Some? && TableIdOf(category).value in unreachable ==> rows == []
      ensures TableIdOf(category).Some? && TableIdOf(category).value !in unreachable ==>
        rows == Rows(TableIdOf(category).value)
    {
      var config := TableIdOf(category);
      if config.None? {
        return [];
      }
      if config.value in unreachable {
        return [];
      }
      rows := Rows(config.value);
    }

    /** `createTrackingRecord`: appends the row with a fresh id and returns it. */
    method CreateTrackingRecord(category: string, data: Record) returns (res: Result<Record>)
      modifies this
      ensures unreachable == old(unreachable)
      ensures TableIdOf(category).None? ==>
        res == Err(UnknownType(category)) && tables == old(tables) && nextId == old(nextId)
      ensures TableIdOf(category).Some? && TableIdOf(category).value in unreachable ==>
        res == Err(NetworkError) && tables == old(tables) && nextId == old(nextId)
      ensures TableIdOf(category).Some? && TableIdOf(category).value !in unreachable ==>
        var t := TableIdOf(category).value;
        res == Ok(data["Id" := Num(old(nextId))]) &&
        tables == old(tables)[t := old(Rows(t)) + [res.value]] &&
        nextId == old(nextId) + 1
    {
      var config := TableIdOf(category);
      if config.None? {
        return Err(UnknownType(category));
      }
      if config.value in unreachable {
        return Err(NetworkError);
      }
      var row := data["Id" := Num(nextId)];
      tables := tables[config.value := Rows(config.value) + [row]];
      nextId := nextId + 1;
      res := Ok(row);
    }

    /** `createAndLinkRecord`: creates the record with its `Link_Annonceur` set to the entity. */
    method CreateAndLinkRecord(category: string, data: Record, entityId: Value) returns (res: Result<Record>)
      modifies this
      ensures unreachable == old(unreachable)
      ensures TableIdOf(category).None? ==>
        res == Err(UnknownType(category)) && tables == old(tables) && nextId == old(nextId)
      ensures TableIdOf(category).Some? && TableIdOf(category).value in unreachable ==>
        res == Err(NetworkError) && tables == old(tables) && nextId == old(nextId)
      ensures TableIdOf(category).Some? && TableIdOf(category).value !in unreachable ==>
        var t := TableIdOf(category).value;
        res == Ok(data["Link_Annonceur" := entityId]["Id" := Num(old(nextId))]) &&
        tables == old(tables)[t := old(Rows(t)) + [res.value]] &&
        nextId == old(nextId) + 1
    {
      res := CreateTrackingRecord(category, data["Link_Annonceur" := entityId]);
    }

    /** `updateTrackingRecord`: sends `{ Id: id, ...data }`; the row with that id takes its fields. */
    method UpdateTrackingRecord(category: string, id: Value, data: Record) returns (res: Result<Record>)
      modifies this
      ensures unreachable == old(unreachable) && nextId == old(nextId)
      ensures TableIdOf(category).None? ==> res == Err(UnknownType(category)) && tables == old(tables)
      ensures TableIdOf(category).Some? && TableIdOf(category).value in unreachable ==>
        res == Err(NetworkError) && tables == old(tables)
      ensures TableIdOf(category).Some? && TableIdOf(category).value !in unreachable ==>
        var t := TableIdOf(category).value;
        res == Ok(Merge(map["Id" := id], data)) &&
        tables == old(tables)[t := Patched(old(Rows(t)), res.value)]
    {
      var config := TableIdOf(category);
      if config.None? {
        return Err(UnknownType(category));
      }
      if config.value in unreachable {
        return Err(NetworkError);
      }
      var body := Merge(map["Id" := id], data);
      tables := tables[config.value := Patched(Rows(config.value), body)];
      res := Ok(body);
    }

    /** `deleteTrackingRecord`: removes the row with that id (an absent id removes nothing). */
    method DeleteTrackingRecord(category: string, id: Value) returns (res: Result<Record>)
      modifies this
      ensures unreachable == old(unreachable) && nextId == old(nextId)
      ensures TableIdOf(category).None? ==> res == Err(UnknownType(category)) && tables == old(tables)
      ensures TableIdOf(category).Some? && TableIdOf(category).value in unreachable ==>
        res == Err(NetworkError) && tables == old(tables)
      ensures TableIdOf(category).Some? && TableIdOf(category).value !in unreachable ==>
        var t := TableIdOf(category).value;
        res == Ok(map["Id" := id]) && tables == old(tables)[t := WithoutId(old(Rows(t)), id)]
    {
      var config := TableIdOf(category);
      if config.None? {
        return Err(UnknownType(category));
      }
      if config.value in unreachable {
        return Err(NetworkError);
      }
      tables := tables[config.value := WithoutId(Rows(config.value), id)];
      res := Ok(map["Id" := id]);
    }

    /** `updateEntity`: sends `{ Id: id, ...data }` to the main table. */
    method UpdateEntity(id: Value, data: Record) returns (res: Result<Record>)
      modifies this
      ensures unreachable == old(unreachable) && nextId == old(nextId)
      ensures MainTableId in unreachable ==> res == Err(NetworkError) && tables == old(tables)
      ensures MainTableId !in unreachable ==>
        res == Ok(Merge(map["Id" := id], data)) &&
        tables == old(tables)[MainTableId := Patched(old(Rows(MainTableId)), res.value)]
    {
      if MainTableId in unreachable {
        return Err(NetworkError);
      }
      var body := Merge(map["Id" := id], data);
      tables := tables[MainTableId := Patched(Rows(MainTableId), body)];
      res := Ok(body);
    }

    /** `synchronizeTrackingType`: visits the configured tables in order, skipping
        "Subvention" and the "Tombola" alias. The table of the new category gets a
        skeleton record when none links to the entity; every other table loses the
        records that link to it. A table that cannot be reached is skipped and its
        category reported in `failed`; the loop goes on with the next table. */
    method SynchronizeTrackingType(entityId: Value, newType: Value) returns (failed: seq<string>)
      modifies this
      ensures unreachable == old(unreachable)
      ensures Snapshot(tables, nextId) ==
        SyncUpTo(Snapshot(old(tables), old(nextId)), unreachable, TrackingTables, entityId, newType)
      ensures failed == FailedCategories(TrackingTables, unreachable)
    {
      forall i | 0 <= i < |TrackingTables|
        ensures TableIdOf(TrackingTables[i].0) == Some(TrackingTables[i].1)
      {
        EntryTable(i);
      }
      failed := SyncLoop(TrackingTables, entityId, newType);
    }

    /** The loop over the configuration entries. */
    method SyncLoop(entries: seq<(string, string)>, entityId: Value, newType: Value) returns (failed: seq<string>)
      requires forall i :: 0 <= i < |entries| ==> TableIdOf(entries[i].0) == Some(entries[i].1)
      modifies this
      ensures unreachable == old(unreachable)
      ensures Snapshot(tables, nextId) == SyncUpTo(Snapshot(old(tables), old(nextId)), unreachable, entries, entityId, newType)
      ensures failed == FailedCategories(entries, unreachable)
    {
      ghost var s0 := Snapshot(tables, nextId);
      failed := [];
      var i := 0;
      while i < |entries|
        invariant 0 <= i <= |entries|
        invariant unreachable == old(unreachable)
        invariant Snapshot(tables, nextId) == SyncUpTo(s0, unreachable, entries[..i], entityId, newType) &&
                  failed == FailedCategories(entries[..i], unreachable)
      {
        var entry := entries[i];
        SyncPrefixStep(s0, unreachable, entries, i, entityId, newType);
        if !IsVisited(entry) {
          // "Subvention" and the "Tombola" alias are skipped
          i := i + 1;
          continue;
        }
        var reached := SyncTable(entry, entityId, newType);
        if !reached {
          failed := failed + [entry.0];
        }
        i := i + 1;
      }
      assert entries[..|entries|] == entries;
    }

    /** One table of the synchronisation loop. */
    method SyncTable(entry: (string, string), entityId: Value, newType: Value) returns (reached: bool)
      requires IsVisited(entry) && TableIdOf(entry.0) == Some(entry.1)
      modifies this
      ensures unreachable == old(unreachable)
      ensures reached == (entry.1 !in unreachable)
      ensures Snapshot(tables, nextId) == SyncStep(old(Snapshot(tables, nextId)), unreachable, entry, entityId, newType)
    {
      var category := entry.0;
      var tableId := entry.1;
      var isTarget := StrictEq(Str(category), newType);
      if tableId in unreachable {
        // the fetch throws; the error is caught and logged
        return false;
      }
      var records := Rows(tableId);
      var related := Filter(records, (r: Record) => LinksTo(r, entityId));
      assert related == Linked(records, entityId);
      if isTarget {
        if |related| == 0 {
          var created := CreateTrackingRecord(category, map["Link_Annonceur" := entityId, "Titre" := Str(AutoTitle)]);
        }
      } else if |related| > 0 {
        DeleteLinked(category, tableId, related);
      }
      reached := true;
    }

    /** The records linked to the entity go, one DELETE per record. */
    method DeleteLinked(category: string, tableId: string, related: seq<Record>)
      requires TableIdOf(category) == Some(tableId) && tableId !in unreachable
      requires |related| > 0
      modifies this
      ensures unreachable == old(unreachable) && nextId == old(nextId)
      ensures tables == old(tables)[tableId := WithoutIds(old(Rows(tableId)), IdsOf(related))]
    {
      ghost var records := Rows(tableId);
      ghost var t0 := tables;
      var j := 0;
      while j < |related|
        invariant 0 <= j <= |related|
        invariant unreachable == old(unreachable) && nextId == old(nextId)
        invariant j > 0 ==> tables == t0[tableId := WithoutIds(records, IdsOf(related)[..j])]
        invariant j == 0 ==> tables == t0
      {
        var id := Get(related[j], "Id");
        ghost var before := tables;
        var deleted := DeleteTrackingRecord(category, id);
        DeleteStep(t0, tableId, IdsOf(related), j, before, tables);
        j := j + 1;
      }
      assert IdsOf(related)[..|related|] == IdsOf(related);
    }
  }

  /** The categories whose table could not be reached, in visiting order. */
  function FailedCategories(entries: seq<(string, string)>, down: set<string>): seq<string>
    decreases |entries|
  {
    if entries == [] then []
    else
      var e := entries[|entries| - 1];
      FailedCategories(entries[..|entries| - 1], down) + (if IsVisited(e) && e.1 in down then [e.0] else [])
  }

  // ----- the synchronisation, as a function of the store's contents -----

  const AutoTitle: string := "Suivi (Auto-Généré)"

  /** The contents of the store that synchronisation reads and writes. */
  datatype Snapshot = Snapshot(tables: map<string, seq<Record>>, nextId: nat)

  /** The skeleton record synchronisation creates, once the store gave it an id. */
  function AutoRecord(entityId: Value, id: nat): Record {
    map["Link_Annonceur" := entityId, "Titre" := Str(AutoTitle), "Id" := Num(id)]
  }

  /** The loop skips "Subvention", whose table is the Stand table, and the
      "Tombola" alias of "Tombola (Lots)", so no table is visited twice. */
  predicate IsVisited(e: (string, string)) {
    e.0 != "Subvention" && e.0 != "Tombola"
  }

  /** The rows of a table that designate the entity. */
  function Linked(rows: seq<Record>, entityId: Value): (r: seq<Record>)
    ensures forall i :: 0 <= i < |r| ==> LinksTo(r[i], entityId)
  {
    Filter(rows, (r: Record) => LinksTo(r, entityId))
  }

  function IdsOf(rows: seq<Record>): seq<Value> {
    MapSeq(rows, (r: Record) => Get(r, "Id"))
  }

  /** The rows whose id is none of these. */
  function WithoutIds(rows: seq<Record>, ids: seq<Value>): seq<Record> {
    Filter(rows, (r: Record) => Get(r, "Id") !in ids)
  }

  /** One turn of the loop. */
  function SyncStep(s: Snapshot, unreachable: set<string>, entry: (string, string), entityId: Value, newType: Value): Snapshot {
    var t := entry.1;
    if !IsVisited(entry) || t in unreachable then s
    else
      var rows := RowsOf(s.tables, t);
      var linked := Linked(rows, entityId);
      if |linked| == 0 && StrictEq(Str(entry.0), newType) then
        Snapshot(s.tables[t := rows + [AutoRecord(entityId, s.nextId)]], s.nextId + 1)
      else if |linked| > 0 && !StrictEq(Str(entry.0), newType) then
        Snapshot(s.tables[t := WithoutIds(rows, IdsOf(linked))], s.nextId)
      else s
  }

  function SyncUpTo(s0: Snapshot, unreachable: set<string>, entries: seq<(string, string)>, entityId: Value, newType: Value): Snapshot
    decreases |entries|
  {
    if entries == [] then s0
    else SyncStep(SyncUpTo(s0, unreachable, entries[..|entries| - 1], entityId, newType), unreachable, entries[|entries| - 1], entityId, newType)
  }

  /** The synchronisation and its report after one more entry. */
  lemma SyncPrefixStep(s0: Snapshot, unreachable: set<string>, entries: seq<(string, string)>, i: nat,
                       entityId: Value, newType: Value)
    requires i < |entries|
    ensures SyncUpTo(s0, unreachable, entries[..i + 1], entityId, newType) ==
      SyncStep(SyncUpTo(s0, unreachable, entries[..i], entityId, newType), unreachable, entries[i], entityId, newType)
    ensures FailedCategories(entries[..i + 1], unreachable) ==
      FailedCategories(entries[..i], unreachable) +
      (if IsVisited(entries[i]) && entries[i].1 in unreachable then [entries[i].0] else [])
  {
    assert entries[..i + 1][..i] == entries[..i];
  }

  /** One DELETE of the loop over the linked records: the table then lacks the
      ids deleted so far. */
  lemma DeleteStep(t0: map<string, seq<Record>>, tableId: string, ids: seq<Value>, j: nat,
                   before: map<string, seq<Record>>, after: map<string, seq<Record>>)
    requires j < |ids|
    requires j > 0 ==> before == t0[tableId := WithoutIds(RowsOf(t0, tableId), ids[..j])]
    requires j == 0 ==> before == t0
    requires after == before[tableId := WithoutId(RowsOf(before, tableId), ids[j])]
    ensures after == t0[tableId := WithoutIds(RowsOf(t0, tableId), ids[..j + 1])]
  {
    var records := RowsOf(t0, tableId);
    WithoutIdsSnoc(records, ids[..j], ids[j]);
    assert ids[..j + 1] == ids[..j] + [ids[j]];
    if j == 0 {
      WithoutIdsEmpty(records);
    }
  }

  lemma {:induction false} WithoutIdsEmpty(rows: seq<Record>)
    ensures WithoutIds(rows, []) == rows
    decreases |rows|
  {
    if rows != [] {
      WithoutIdsEmpty(rows[1..]);
      assert [rows[0]] + rows[1..] == rows;
    }
  }

  lemma {:induction false} WithoutIdsSnoc(rows: seq<Record>, ids: seq<Value>, id: Value)
    ensures WithoutId(WithoutIds(rows, ids), id) == WithoutIds(rows, ids + [id])
    decreases |rows|
  {
    if rows != [] {
      WithoutIdsSnoc(rows[1..], ids, id);
      var x := Get(rows[0], "Id");
      assert x !in ids + [id] <==> x !in ids && x != id;
      var w := WithoutIds(rows[1..], ids);
      assert WithoutIds(rows, ids + [id]) == (if x !in ids + [id] then [rows[0]] else []) + WithoutIds(rows[1..], ids + [id]);
      if x !in ids {
        assert WithoutIds(rows, ids) == [rows[0]] + w;
        assert ([rows[0]] + w)[0] == rows[0];
        assert ([rows[0]] + w)[1..] == w;
        assert WithoutId([rows[0]] + w, id) == (if x != id then [rows[0]] else []) + WithoutId(w, id);
      } else {
        assert WithoutIds(rows, ids) == w;
      }
    }
  }
}
