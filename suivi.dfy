/** The progress-tracking page: one tab per tracked category, the cache of the
    tracking rows loaded per tab, the local copy of the contact list, and the
    handlers that write check boxes, pack choices, amounts and the two forms
    back to the store. Every handler runs to completion before the next one;
    a handler's reads of the page state are taken when it starts. */
module Suivi {

  import opened Wrappers
  import opened JsValues
  import opened Collections
  import opened Domain
  import opened Packs
  import opened Api
  import opened Completion

  const StandTableId: string := "midotel4vypc65e"
  const PartnerTableId: string := "megvc314571rznb"

  /** The two tables the pack side effect writes to, and their ids. */
  lemma StandAndPartnerTables()
    ensures TableIdOf(StandTab) == Some(StandTableId)
    ensures TableIdOf(PartnerTab) == Some(PartnerTableId)
    ensures StandTableId != PartnerTableId && StandTableId != MainTableId && PartnerTableId != MainTableId
  {
    assert StandTableId[1] == 'i' && PartnerTableId[1] == 'e' && MainTableId[1] == 'z';
    EntryTable(5);
    PartnerTable();
  }

  lemma PartnerTable()
    ensures TableIdOf(PartnerTab) == Some(PartnerTableId)
  {
    EntryTable(3);
  }

  /** No entry of the table list names the main table. */
  lemma EntryIsNotMain(i: nat)
    requires i < |TrackingTables|
    ensures TrackingTables[i].1 != MainTableId
  {
    assert MainTableId[1] == 'z';
    if i == 0 { assert TrackingTables[0].1[1] == '5'; }
    else if i < 3 { assert TrackingTables[i].1[1] == 'm'; }
    else if i == 3 { assert TrackingTables[3].1[1] == 'e'; }
    else if i == 4 { assert TrackingTables[4].1[1] == '8'; }
    else { assert TrackingTables[i].1[1] == 'i'; }
  }

  /** A tracking table is never the main table. */
  lemma TrackingTableIsNotMain(category: string)
    requires TableIdOf(category).Some?
    ensures TableIdOf(category).value != MainTableId
  {
    var i :| 0 <= i < |TrackingTables| && TrackingTables[i] == (category, TableIdOf(category).value);
    EntryIsNotMain(i);
  }

  /** `rows.map(r => r.Id === id ? { ...r, ...patch } : r)` */
  function PatchLocal(rows: seq<Record>, id: Value, patch: Record): (r: seq<Record>)
    ensures |r| == |rows|
    ensures forall i :: 0 <= i < |rows| ==>
      r[i] == if StrictEq(Get(rows[i], "Id"), id) then Merge(rows[i], patch) else rows[i]
  {
    MapSeq(rows, (row: Record) => if StrictEq(Get(row, "Id"), id) then Merge(row, patch) else row)
  }

  /** Only the table `changed` differs between the two maps, if any. */
  predicate OneTableWritten(tables0: map<string, seq<Record>>, tables1: map<string, seq<Record>>, changed: Option<string>) {
    tables1 == tables0 || (changed.Some? && tables1 == tables0[changed.value := RowsOf(tables1, changed.value)])
  }

  /** A table written before another keeps the rows written to it. */
  lemma WrittenThenOther(tables: map<string, seq<Record>>, t: string, rows: seq<Record>, other: string, otherRows: seq<Record>)
    requires t != other
    ensures RowsOf(tables[t := rows], t) == rows
    ensures RowsOf(tables[t := rows][other := otherRows], t) == rows
  {
  }

  /** Writing one table keeps every other table's rows. */
  lemma OtherTableKept(tables0: map<string, seq<Record>>, tables1: map<string, seq<Record>>, changed: Option<string>, other: string)
    requires OneTableWritten(tables0, tables1, changed)
    requires changed != Some(other)
    ensures RowsOf(tables1, other) == RowsOf(tables0, other)
  {
  }

  /** `relevantEntities.find(e => e.Id === id)` */
  function EntityWithId(relevant: seq<Entity>, id: Value): (r: Option<Entity>)
    ensures r.Some? <==> exists i :: 0 <= i < |relevant| && StrictEq(Get(relevant[i], "Id"), id)
    ensures r.Some? ==> r.value in relevant && StrictEq(Get(r.value, "Id"), id)
  {
    Find(relevant, (e: Entity) => StrictEq(Get(e, "Id"), id))
  }

  /** `trackingData[activeTab]?.find(r => r.Id === id)` */
  function RowWithId(rows: seq<Record>, id: Value): (r: Option<Record>)
    ensures r.Some? <==> exists i :: 0 <= i < |rows| && StrictEq(Get(rows[i], "Id"), id)
    ensures r.Some? ==> r.value in rows && StrictEq(Get(r.value, "Id"), id)
  {
    Find(rows, (row: Record) => StrictEq(Get(row, "Id"), id))
  }

  /** The record a check box creates when the entity has no tracking row yet:
      titled after the entity, with the clicked field set. */
  function NewTrackingRecord(entity: Option<Entity>, field: string, value: Value): (r: Record)
    ensures Get(r, field) == value
    ensures field != "Titre" ==> Get(r, "Titre") == Or(Field(entity, "title"), Str("Suivi"))
    ensures r.Keys == {"Titre", field}
  {
    map["Titre" := Or(Field(entity, "title"), Str("Suivi"))][field := value]
  }

  /** The title of an automatically created Stand record. */
  function StandTitle(entity: Option<Entity>): string {
    "Stand - " + ToStr(Or(Field(entity, "title"), Str("Partenaire")))
  }

  /** The Stand record created for a partner who ticks the stand pack. */
  function StandRecord(entity: Option<Entity>, entityId: Value, id: nat): (r: Record)
    ensures Get(r, "Id") == Num(id) && Get(r, "Link_Annonceur") == entityId
    ensures Get(r, "Titre") == Str(StandTitle(entity))
  {
    map["Titre" := Str(StandTitle(entity))]["Link_Annonceur" := entityId]["Id" := Num(id)]
  }

  /** The id held in a partner's `Stand` field, expanded or not. */
  function StandId(link: Value): Value {
    if link.Obj? then link.idField else link
  }

  // ----- a pack click as a function of the state -----

  /** What a click can change: the store's tables and id counter, and the
      page's cache of tracking rows. */
  datatype PageState = PageState(tables: map<string, seq<Record>>, nextId: nat, data: map<string, seq<Record>>)

  /** `trackingData[tab] || []` */
  function CacheOf(data: map<string, seq<Record>>, tab: string): seq<Record> {
    if tab in data then data[tab] else []
  }

  /** The tab's table exists and is not in the unreachable set. */
  predicate ReachableIn(unreachable: set<string>, tab: string) {
    TableIdOf(tab).Some? && TableIdOf(tab).value !in unreachable
  }

  /** `handleUpdate(trackingId, field, value, entityId)` on tab `tab`: with a
      row id, the cached row and the stored row take the value; without one,
      a row titled after the entity and linked to it is created and cached. */
  function WriteOutcome(s: PageState, unreachable: set<string>, tab: string, relevant: seq<Entity>,
                        trackingId: Value, field: string, value: Value, entityId: Value): PageState
  {
    var cache := CacheOf(s.data, tab);
    if Truthy(trackingId) then
      var tables := if ReachableIn(unreachable, tab) then
        s.tables[TableIdOf(tab).value := Patched(RowsOf(s.tables, TableIdOf(tab).value), Merge(map["Id" := trackingId], map[field := value]))]
      else s.tables;
      PageState(tables, s.nextId, s.data[tab := PatchLocal(cache, trackingId, map[field := value])])
    else if ReachableIn(unreachable, tab) then
      var t := TableIdOf(tab).value;
      var created := NewTrackingRecord(EntityWithId(relevant, entityId), field, value)["Link_Annonceur" := entityId]["Id" := Num(s.nextId)];
      PageState(s.tables[t := RowsOf(s.tables, t) + [created]], s.nextId + 1, s.data[tab := cache + [created["Link_Annonceur" := entityId]]])
    else s
  }

  /** The Stand step of a stand-pack click, given the partner's `Stand` link
      and whether the pack was chosen before the click: a tick without a
      stand creates one, an untick with a stand deletes it, and then the
      partner's stored and cached rows take the new id or `null`; the first
      write that fails ends the sequence. */
  function StandOutcome(s: PageState, unreachable: set<string>, tab: string, relevant: seq<Entity>,
                        trackingId: Value, link: Value, wasSelected: bool, entityId: Value): PageState
  {
    if wasSelected != Truthy(link) || StandTableId in unreachable then s
    else
      var newLink := if wasSelected then Null else Num(s.nextId);
      var stands := if wasSelected then WithoutId(RowsOf(s.tables, StandTableId), StandId(link))
                     else RowsOf(s.tables, StandTableId) + [StandRecord(EntityWithId(relevant, entityId), entityId, s.nextId)];
      var next := if wasSelected then s.nextId else s.nextId + 1;
      var tables := s.tables[StandTableId := stands];
      if PartnerTableId in unreachable then PageState(tables, next, s.data)
      else
        PageState(tables[PartnerTableId := Patched(RowsOf(s.tables, PartnerTableId), Merge(map["Id" := trackingId], map["Stand" := newLink]))],
                  next, s.data[tab := PatchLocal(CacheOf(s.data, tab), trackingId, map["Stand" := newLink])])
  }

  /** `handlePackChange(trackingId, currentPacks, tag, entityId)`: the toggled
      pack text is written, then, for the stand pack, the Stand step runs on
      the link the partner's cached row held before the click. */
  function PackClick(s: PageState, unreachable: set<string>, tab: string, relevant: seq<Entity>,
                     trackingId: Value, currentPacks: Value, tag: string, entityId: Value): PageState
  {
    var written := WriteOutcome(s, unreachable, tab, relevant, trackingId, "Pack_Choisi", Str(Clicked(currentPacks, tag)), entityId);
    if tag == StandTag then
      var link := Field(RowWithId(CacheOf(s.data, tab), trackingId), "Stand");
      StandOutcome(written, unreachable, tab, relevant, trackingId, link, tag in PackList(currentPacks), entityId)
    else written
  }

  /** A pack click is its write followed, for the stand pack, by its Stand step. */
  lemma PackClickSteps(s: PageState, written: PageState, final: PageState, unreachable: set<string>, tab: string,
                       relevant: seq<Entity>, trackingId: Value, currentPacks: Value, tag: string, entityId: Value)
    requires written == WriteOutcome(s, unreachable, tab, relevant, trackingId, "Pack_Choisi", Str(Clicked(currentPacks, tag)), entityId)
    requires tag == StandTag ==>
      final == StandOutcome(written, unreachable, tab, relevant, trackingId,
                            Field(RowWithId(CacheOf(s.data, tab), trackingId), "Stand"), tag in PackList(currentPacks), entityId)
    requires tag != StandTag ==> final == written
    ensures final == PackClick(s, unreachable, tab, relevant, trackingId, currentPacks, tag, entityId)
  {
  }

  /** The id counter moves once for a partner row created because the partner
      had none, and once more for a created stand. */
  lemma PackClickCounter(s: PageState, unreachable: set<string>, tab: string, relevant: seq<Entity>,
                         trackingId: Value, currentPacks: Value, tag: string, entityId: Value)
    ensures var link := Field(RowWithId(CacheOf(s.data, tab), trackingId), "Stand");
      PackClick(s, unreachable, tab, relevant, trackingId, currentPacks, tag, entityId).nextId ==
        s.nextId + (if !Truthy(trackingId) && ReachableIn(unreachable, tab) then 1 else 0) +
        (if tag == StandTag && tag !in PackList(currentPacks) && !Truthy(link) && StandTableId !in unreachable then 1 else 0)
  {
    var w := WriteOutcome(s, unreachable, tab, relevant, trackingId, "Pack_Choisi", Str(Clicked(currentPacks, tag)), entityId);
    assert w.nextId == s.nextId + (if !Truthy(trackingId) && ReachableIn(unreachable, tab) then 1 else 0);
    if tag == StandTag {
      var link := Field(RowWithId(CacheOf(s.data, tab), trackingId), "Stand");
      var selected := tag in PackList(currentPacks);
      assert PackClick(s, unreachable, tab, relevant, trackingId, currentPacks, tag, entityId) ==
        StandOutcome(w, unreachable, tab, relevant, trackingId, link, selected, entityId);
      StandOutcomeEffect(w, unreachable, tab, relevant, trackingId, link, selected, entityId);
    } else {
      assert PackClick(s, unreachable, tab, relevant, trackingId, currentPacks, tag, entityId) == w;
    }
  }

  /** With a row id, every cached row with that id holds the new pack text
      after the click, whatever the Stand step does. */
  lemma PackClickKeepsPackText(s: PageState, unreachable: set<string>, tab: string, relevant: seq<Entity>,
                               trackingId: Value, currentPacks: Value, tag: string, entityId: Value, i: nat)
    requires Truthy(trackingId)
    requires i < |CacheOf(s.data, tab)|
    requires StrictEq(Get(CacheOf(s.data, tab)[i], "Id"), trackingId)
    ensures var after := CacheOf(PackClick(s, unreachable, tab, relevant, trackingId, currentPacks, tag, entityId).data, tab);
      i < |after| && Get(after[i], "Pack_Choisi") == Str(Clicked(currentPacks, tag))
  {
    var packs := map["Pack_Choisi" := Str(Clicked(currentPacks, tag))];
    var picked := PatchLocal(CacheOf(s.data, tab), trackingId, packs);
    var written := WriteOutcome(s, unreachable, tab, relevant, trackingId, "Pack_Choisi", Str(Clicked(currentPacks, tag)), entityId);
    assert CacheOf(written.data, tab) == picked;
    assert picked[i] == Merge(CacheOf(s.data, tab)[i], packs);
    if tag == StandTag {
      var link := Field(RowWithId(CacheOf(s.data, tab), trackingId), "Stand");
      var selected := tag in PackList(currentPacks);
      StandStepKeepsPackText(written, unreachable, tab, relevant, trackingId, link, selected, entityId, i);
    }
  }

  /** The Stand step keeps every cached row's pack text. */
  lemma StandStepKeepsPackText(w: PageState, unreachable: set<string>, tab: string, relevant: seq<Entity>,
                               trackingId: Value, link: Value, wasSelected: bool, entityId: Value, i: nat)
    requires i < |CacheOf(w.data, tab)|
    ensures var after := CacheOf(StandOutcome(w, unreachable, tab, relevant, trackingId, link, wasSelected, entityId).data, tab);
      i < |after| && Get(after[i], "Pack_Choisi") == Get(CacheOf(w.data, tab)[i], "Pack_Choisi")
  {
    StandOutcomeCache(w, unreachable, tab, relevant, trackingId, link, wasSelected, entityId);
    StandPatchKeepsPacks(CacheOf(w.data, tab), trackingId, if wasSelected then Null else Num(w.nextId), i);
  }

  /** The Stand step leaves the cache alone or patches the partner's `Stand` link. */
  lemma StandOutcomeCache(s: PageState, unreachable: set<string>, tab: string, relevant: seq<Entity>,
                          trackingId: Value, link: Value, wasSelected: bool, entityId: Value)
    ensures var after := CacheOf(StandOutcome(s, unreachable, tab, relevant, trackingId, link, wasSelected, entityId).data, tab);
      after == CacheOf(s.data, tab) ||
      after == PatchLocal(CacheOf(s.data, tab), trackingId, map["Stand" := if wasSelected then Null else Num(s.nextId)])
  {
  }

  /** Patching the `Stand` link keeps a row's pack text. */
  lemma StandPatchKeepsPacks(rows: seq<Record>, trackingId: Value, link: Value, i: nat)
    requires i < |rows|
    ensures Get(PatchLocal(rows, trackingId, map["Stand" := link])[i], "Pack_Choisi") == Get(rows[i], "Pack_Choisi")
  {
    assert "Stand"[0] != "Pack_Choisi"[0];
  }

  /** A stand-pack click on a partner with a row: the cached row takes the
      new pack text, then the new stand's id or `null` once both the Stand
      write and the Partenaires write go through; on the Partenaires tab the
      stored row does the same; the counter moves only for a created stand. */
  lemma PackClickStandLink(s: PageState, unreachable: set<string>, tab: string, relevant: seq<Entity>,
                           trackingId: Value, currentPacks: Value, tag: string, entityId: Value)
    requires Truthy(trackingId) && tag == StandTag
    ensures var after := PackClick(s, unreachable, tab, relevant, trackingId, currentPacks, tag, entityId);
      var picked := PatchLocal(CacheOf(s.data, tab), trackingId, map["Pack_Choisi" := Str(Clicked(currentPacks, tag))]);
      var standLink := Field(RowWithId(CacheOf(s.data, tab), trackingId), "Stand");
      var adds := tag !in PackList(currentPacks) && !Truthy(standLink);
      var removes := tag in PackList(currentPacks) && Truthy(standLink);
      var link := if adds then Num(s.nextId) else Null;
      var linked := (adds || removes) && StandTableId !in unreachable && PartnerTableId !in unreachable;
      after.data == s.data[tab := if linked then PatchLocal(picked, trackingId, map["Stand" := link]) else picked] &&
      after.nextId == s.nextId + (if adds && StandTableId !in unreachable then 1 else 0) &&
      (tab == PartnerTab && PartnerTableId !in unreachable ==>
        var partners := Patched(RowsOf(s.tables, PartnerTableId),
                                Merge(map["Id" := trackingId], map["Pack_Choisi" := Str(Clicked(currentPacks, tag))]));
        RowsOf(after.tables, PartnerTableId) ==
          if (adds || removes) && StandTableId !in unreachable
          then Patched(partners, Merge(map["Id" := trackingId], map["Stand" := link]))
          else partners)
  {
    var packs := Str(Clicked(currentPacks, tag));
    var written := WriteOutcome(s, unreachable, tab, relevant, trackingId, "Pack_Choisi", packs, entityId);
    WriteWithRow(s, unreachable, tab, relevant, trackingId, "Pack_Choisi", packs, entityId);
    var standLink := Field(RowWithId(CacheOf(s.data, tab), trackingId), "Stand");
    var after := StandOutcome(written, unreachable, tab, relevant, trackingId, standLink, tag in PackList(currentPacks), entityId);
    assert PackClick(s, unreachable, tab, relevant, trackingId, currentPacks, tag, entityId) == after;
    StandOutcomeEffect(written, unreachable, tab, relevant, trackingId, standLink, tag in PackList(currentPacks), entityId);
    StandLinkCompose(s, written, after, unreachable, tab, trackingId, PatchLocal(CacheOf(s.data, tab), trackingId, map["Pack_Choisi" := packs]),
                     Merge(map["Id" := trackingId], map["Pack_Choisi" := packs]), standLink, tag in PackList(currentPacks));
  }

  /** The two steps of a stand click put together, on abstract states. */
  lemma StandLinkCompose(s: PageState, w: PageState, after: PageState, unreachable: set<string>, tab: string,
                         trackingId: Value, picked: seq<Record>, body: Record, standLink: Value, wasSelected: bool)
    requires w.data == s.data[tab := picked] && CacheOf(w.data, tab) == picked && w.nextId == s.nextId
    requires tab == PartnerTab && PartnerTableId !in unreachable ==>
      RowsOf(w.tables, PartnerTableId) == Patched(RowsOf(s.tables, PartnerTableId), body)
    requires var acts := wasSelected == Truthy(standLink) && StandTableId !in unreachable;
      var newLink := if wasSelected then Null else Num(w.nextId);
      after.data == (if acts && PartnerTableId !in unreachable
                     then w.data[tab := PatchLocal(CacheOf(w.data, tab), trackingId, map["Stand" := newLink])] else w.data) &&
      after.nextId == w.nextId + (if acts && !wasSelected then 1 else 0) &&
      (PartnerTableId !in unreachable ==>
        RowsOf(after.tables, PartnerTableId) ==
          if acts then Patched(RowsOf(w.tables, PartnerTableId), Merge(map["Id" := trackingId], map["Stand" := newLink]))
          else RowsOf(w.tables, PartnerTableId))
    ensures var adds := !wasSelected && !Truthy(standLink);
      var removes := wasSelected && Truthy(standLink);
      var link := if adds then Num(s.nextId) else Null;
      var linked := (adds || removes) && StandTableId !in unreachable && PartnerTableId !in unreachable;
      after.data == s.data[tab := if linked then PatchLocal(picked, trackingId, map["Stand" := link]) else picked] &&
      after.nextId == s.nextId + (if adds && StandTableId !in unreachable then 1 else 0) &&
      (tab == PartnerTab && PartnerTableId !in unreachable ==>
        RowsOf(after.tables, PartnerTableId) ==
          if (adds || removes) && StandTableId !in unreachable
          then Patched(Patched(RowsOf(s.tables, PartnerTableId), body), Merge(map["Id" := trackingId], map["Stand" := link]))
          else Patched(RowsOf(s.tables, PartnerTableId), body))
  {
  }

  /** `handleUpdate` with a row id: the cached rows with that id take the
      value, the counter stays, and on Partenaires the stored row is patched. */
  lemma WriteWithRow(s: PageState, unreachable: set<string>, tab: string, relevant: seq<Entity>,
                     trackingId: Value, field: string, value: Value, entityId: Value)
    requires Truthy(trackingId)
    ensures var w := WriteOutcome(s, unreachable, tab, relevant, trackingId, field, value, entityId);
      w.data == s.data[tab := PatchLocal(CacheOf(s.data, tab), trackingId, map[field := value])] &&
      CacheOf(w.data, tab) == PatchLocal(CacheOf(s.data, tab), trackingId, map[field := value]) &&
      w.nextId == s.nextId &&
      (tab == PartnerTab && PartnerTableId !in unreachable ==>
        RowsOf(w.tables, PartnerTableId) == Patched(RowsOf(s.tables, PartnerTableId), Merge(map["Id" := trackingId], map[field := value])))
  {
    StandAndPartnerTables();
  }

  /** The Stand step: when it acts, the counter moves for a created stand, and
      once both tables answer, the partner's cached and stored rows take the
      new link; otherwise the cache and the Partenaires rows stay. */
  lemma StandOutcomeEffect(w: PageState, unreachable: set<string>, tab: string, relevant: seq<Entity>,
                           trackingId: Value, link: Value, wasSelected: bool, entityId: Value)
    ensures var after := StandOutcome(w, unreachable, tab, relevant, trackingId, link, wasSelected, entityId);
      var acts := wasSelected == Truthy(link) && StandTableId !in unreachable;
      var newLink := if wasSelected then Null else Num(w.nextId);
      after.data == (if acts && PartnerTableId !in unreachable
                     then w.data[tab := PatchLocal(CacheOf(w.data, tab), trackingId, map["Stand" := newLink])] else w.data) &&
      after.nextId == w.nextId + (if acts && !wasSelected then 1 else 0) &&
      (PartnerTableId !in unreachable ==>
        RowsOf(after.tables, PartnerTableId) ==
          if acts then Patched(RowsOf(w.tables, PartnerTableId), Merge(map["Id" := trackingId], map["Stand" := newLink]))
          else RowsOf(w.tables, PartnerTableId))
  {
    StandAndPartnerTables();
    var after := StandOutcome(w, unreachable, tab, relevant, trackingId, link, wasSelected, entityId);
    if wasSelected != Truthy(link) || StandTableId in unreachable {
      assert after == w;
    } else if PartnerTableId in unreachable {
      assert after.data == w.data;
    } else {
      var newLink := if wasSelected then Null else Num(w.nextId);
      assert after.data == w.data[tab := PatchLocal(CacheOf(w.data, tab), trackingId, map["Stand" := newLink])];
    }
  }

  /** The Stand step's effect on the Stand table: one row more for a created
      stand, the linked row gone for a deleted one, and no change otherwise. */
  lemma StandOutcomeStands(w: PageState, unreachable: set<string>, tab: string, relevant: seq<Entity>,
                           trackingId: Value, link: Value, wasSelected: bool, entityId: Value)
    ensures RowsOf(StandOutcome(w, unreachable, tab, relevant, trackingId, link, wasSelected, entityId).tables, StandTableId) ==
      if wasSelected != Truthy(link) || StandTableId in unreachable then RowsOf(w.tables, StandTableId)
      else if wasSelected then WithoutId(RowsOf(w.tables, StandTableId), StandId(link))
      else RowsOf(w.tables, StandTableId) + [StandRecord(EntityWithId(relevant, entityId), entityId, w.nextId)]
  {
    var after := StandOutcome(w, unreachable, tab, relevant, trackingId, link, wasSelected, entityId);
    if wasSelected == Truthy(link) && StandTableId !in unreachable {
      StandAndPartnerTables();
      var stands := if wasSelected then WithoutId(RowsOf(w.tables, StandTableId), StandId(link))
                    else RowsOf(w.tables, StandTableId) + [StandRecord(EntityWithId(relevant, entityId), entityId, w.nextId)];
      var newLink := if wasSelected then Null else Num(w.nextId);
      var partners := Patched(RowsOf(w.tables, PartnerTableId), Merge(map["Id" := trackingId], map["Stand" := newLink]));
      assert after.tables == (if PartnerTableId in unreachable then w.tables[StandTableId := stands]
                              else w.tables[StandTableId := stands][PartnerTableId := partners]);
      WrittenThenOther(w.tables, StandTableId, stands, PartnerTableId, partners);
    }
  }

  /** Any other pack on a partner with a row: the cached rows with that id
      take the new pack text, the counter stays, and on Partenaires the stored
      row is patched while the Stand table keeps its rows. */
  lemma PackClickOtherTag(s: PageState, unreachable: set<string>, tab: string, relevant: seq<Entity>,
                          trackingId: Value, currentPacks: Value, tag: string, entityId: Value)
    requires Truthy(trackingId) && tag != StandTag
    ensures var after := PackClick(s, unreachable, tab, relevant, trackingId, currentPacks, tag, entityId);
      var packs := map["Pack_Choisi" := Str(Clicked(currentPacks, tag))];
      after.data == s.data[tab := PatchLocal(CacheOf(s.data, tab), trackingId, packs)] &&
      after.nextId == s.nextId &&
      (tab == PartnerTab ==> RowsOf(after.tables, StandTableId) == RowsOf(s.tables, StandTableId)) &&
      (tab == PartnerTab && PartnerTableId !in unreachable ==>
        RowsOf(after.tables, PartnerTableId) == Patched(RowsOf(s.tables, PartnerTableId), Merge(map["Id" := trackingId], packs)))
  {
    StandAndPartnerTables();
    var w := WriteOutcome(s, unreachable, tab, relevant, trackingId, "Pack_Choisi", Str(Clicked(currentPacks, tag)), entityId);
    assert PackClick(s, unreachable, tab, relevant, trackingId, currentPacks, tag, entityId) == w;
    WriteWithRow(s, unreachable, tab, relevant, trackingId, "Pack_Choisi", Str(Clicked(currentPacks, tag)), entityId);
    if tab == PartnerTab {
      assert OneTableWritten(s.tables, w.tables, Some(PartnerTableId));
      OtherTableKept(s.tables, w.tables, Some(PartnerTableId), StandTableId);
    }
  }

  /** Without a row id, on a reachable tab, the click creates the partner's
      row: the tab's table and the cache each gain one row, linked to the
      entity and holding the new pack text, before any Stand step. */
  lemma PackClickCreatesRow(s: PageState, unreachable: set<string>, tab: string, relevant: seq<Entity>,
                            trackingId: Value, currentPacks: Value, tag: string, entityId: Value)
    requires !Truthy(trackingId) && ReachableIn(unreachable, tab)
    ensures var written := WriteOutcome(s, unreachable, tab, relevant, trackingId, "Pack_Choisi", Str(Clicked(currentPacks, tag)), entityId);
      var t := TableIdOf(tab).value;
      var cache := CacheOf(s.data, tab);
      |RowsOf(written.tables, t)| == |RowsOf(s.tables, t)| + 1 &&
      RowsOf(written.tables, t)[..|RowsOf(s.tables, t)|] == RowsOf(s.tables, t) &&
      |CacheOf(written.data, tab)| == |cache| + 1 && CacheOf(written.data, tab)[..|cache|] == cache &&
      Get(CacheOf(written.data, tab)[|cache|], "Link_Annonceur") == entityId &&
      Get(CacheOf(written.data, tab)[|cache|], "Pack_Choisi") == Str(Clicked(currentPacks, tag)) &&
      Get(CacheOf(written.data, tab)[|cache|], "Id") == Num(s.nextId)
  {
    var written := WriteOutcome(s, unreachable, tab, relevant, trackingId, "Pack_Choisi", Str(Clicked(currentPacks, tag)), entityId);
    var t := TableIdOf(tab).value;
    var rows := RowsOf(s.tables, t);
    var cache := CacheOf(s.data, tab);
    var created := NewTrackingRecord(EntityWithId(relevant, entityId), "Pack_Choisi", Str(Clicked(currentPacks, tag)))["Link_Annonceur" := entityId]["Id" := Num(s.nextId)];
    assert RowsOf(written.tables, t) == rows + [created];
    assert (rows + [created])[..|rows|] == rows;
    assert CacheOf(written.data, tab) == cache + [created["Link_Annonceur" := entityId]];
    assert (cache + [created["Link_Annonceur" := entityId]])[..|cache|] == cache;
  }

  /** An entity the tracking rows `rows` do not cover. */
  function Untracked(rows: seq<Record>): Entity -> bool {
    (e: Entity) => TrackingRecord(rows, Get(e, "Id")).None?
  }

  /** The skeleton row the initialisation button creates for an entity. */
  function InitRecord(e: Entity, id: nat): (r: Record)
    ensures Get(r, "Id") == Num(id) && Get(r, "Link_Annonceur") == Get(e, "Id")
    ensures Get(r, "Titre") == Or(Get(e, "title"), Str("Suivi"))
  {
    map["Titre" := Or(Get(e, "title"), Str("Suivi"))]["Link_Annonceur" := Get(e, "Id")]["Id" := Num(id)]
  }

  /** The rows the initialisation button appends, in order, when the store
      gives ids from `firstId` on: one per entity that has no tracking row. */
  function InitRecords(es: seq<Entity>, missing: Entity -> bool, firstId: nat): seq<Record>
    decreases |es|
  {
    if es == [] then []
    else
      var prev := InitRecords(es[..|es| - 1], missing, firstId);
      var e := es[|es| - 1];
      if missing(e) then prev + [InitRecord(e, firstId + |prev|)] else prev
  }

  lemma InitRecordsSnoc(es: seq<Entity>, e: Entity, missing: Entity -> bool, firstId: nat)
    ensures InitRecords(es + [e], missing, firstId) ==
      var prev := InitRecords(es, missing, firstId);
      if missing(e) then prev + [InitRecord(e, firstId + |prev|)] else prev
  {
    var s := es + [e];
    assert s[..|s| - 1] == es && s[|s| - 1] == e;
  }

  /** One created row per untracked entity. */
  lemma {:induction false} InitCount(es: seq<Entity>, missing: Entity -> bool, firstId: nat)
    ensures |InitRecords(es, missing, firstId)| == Count(es, missing)
    decreases |es|
  {
    if es != [] {
      var init, last := es[..|es| - 1], es[|es| - 1];
      assert init + [last] == es;
      InitCount(init, missing, firstId);
      InitCountStep(init, last, missing, firstId);
    }
  }

  lemma InitCountStep(init: seq<Entity>, last: Entity, missing: Entity -> bool, firstId: nat)
    requires |InitRecords(init, missing, firstId)| == Count(init, missing)
    ensures |InitRecords(init + [last], missing, firstId)| == Count(init + [last], missing)
  {
    var es := init + [last];
    assert es[..|es| - 1] == init && es[|es| - 1] == last;
    FilterSnoc(init, last, missing);
  }

  /** Every entity of the list that is missing gets a created row whose link is its id. */
  lemma {:induction false} InitRecordsLink(es: seq<Entity>, missing: Entity -> bool, firstId: nat, k: nat)
    requires k < |es| && missing(es[k])
    ensures exists j :: 0 <= j < |InitRecords(es, missing, firstId)| && Get(InitRecords(es, missing, firstId)[j], "Link_Annonceur") == Get(es[k], "Id")
    decreases |es|
  {
    var init, last := es[..|es| - 1], es[|es| - 1];
    var prev := InitRecords(init, missing, firstId);
    var all := InitRecords(es, missing, firstId);
    assert init + [last] == es;
    InitRecordsSnoc(init, last, missing, firstId);
    if k == |es| - 1 {
      assert all[|prev|] == InitRecord(last, firstId + |prev|);
    } else {
      assert es[k] == init[k];
      InitRecordsLink(init, missing, firstId, k);
      var j :| 0 <= j < |prev| && Get(prev[j], "Link_Annonceur") == Get(es[k], "Id");
      assert all[j] == prev[j];
    }
  }

  /** After the initialisation every entity of the list has a tracking row. */
  lemma InitCoversAll(es: seq<Entity>, rows: seq<Record>, firstId: nat)
    requires forall k :: 0 <= k < |es| ==> !Get(es[k], "Id").Obj?
    ensures forall k :: 0 <= k < |es| ==>
      TrackingRecord(rows + InitRecords(es, Untracked(rows), firstId), Get(es[k], "Id")).Some?
  {
    forall k | 0 <= k < |es|
      ensures TrackingRecord(rows + InitRecords(es, Untracked(rows), firstId), Get(es[k], "Id")).Some?
    {
      InitCoversOne(es, rows, firstId, k);
    }
  }

  lemma InitCoversOne(es: seq<Entity>, rows: seq<Record>, firstId: nat, k: nat)
    requires k < |es| && !Get(es[k], "Id").Obj?
    ensures TrackingRecord(rows + InitRecords(es, Untracked(rows), firstId), Get(es[k], "Id")).Some?
  {
    var created := InitRecords(es, Untracked(rows), firstId);
    var id := Get(es[k], "Id");
    if TrackingRecord(rows, id).Some? {
      var i :| 0 <= i < |rows| && LinksTo(rows[i], id);
      LinkedRowFound(rows, created, id, i);
    } else {
      InitRecordsLink(es, Untracked(rows), firstId, k);
      var j :| 0 <= j < |created| && Get(created[j], "Link_Annonceur") == id;
      LinkedRowFound(rows, created, id, |rows| + j);
    }
  }

  /** A row that links to the entity makes its tracking record found. */
  lemma LinkedRowFound(rows: seq<Record>, created: seq<Record>, entityId: Value, i: nat)
    requires i < |rows| + |created|
    requires var r := (rows + created)[i]; LinksTo(r, entityId) || (Get(r, "Link_Annonceur") == entityId && !entityId.Obj?)
    ensures TrackingRecord(rows + created, entityId).Some?
  {
    assert LinksTo((rows + created)[i], entityId);
  }

  /** A second initialisation over the same list creates nothing. */
  lemma InitIdempotent(es: seq<Entity>, rows: seq<Record>, firstId: nat, secondId: nat)
    requires forall k :: 0 <= k < |es| ==> !Get(es[k], "Id").Obj?
    ensures InitRecords(es, Untracked(rows + InitRecords(es, Untracked(rows), firstId)), secondId) == []
  {
    var after := rows + InitRecords(es, Untracked(rows), firstId);
    InitCoversAll(es, rows, firstId);
    InitCount(es, Untracked(after), secondId);
    forall k | 0 <= k < |es|
      ensures !Untracked(after)(es[k])
    {
    }
    FilterNonePass(es, Untracked(after));
  }

  /** A record appended for an entity that had none is the one the page then finds. */
  lemma CreatedRecordIsFound(rows: seq<Record>, rec: Record, entityId: Value)
    requires TrackingRecord(rows, entityId).None?
    requires Get(rec, "Link_Annonceur") == entityId && !entityId.Obj?
    ensures TrackingRecord(rows + [rec], entityId) == Some(rec)
  {
    assert LinksTo(rec, entityId);
    FindAppended(rows, rec, (row: Record) => LinksTo(row, entityId));
  }

  /** Patching rows leaves the lookup of every entity on the same row, patched
      when it is the patched one, provided the patch leaves the link alone. */
  lemma {:induction false} PatchKeepsLookup(rows: seq<Record>, id: Value, patch: Record, entityId: Value)
    requires "Link_Annonceur" !in patch
    ensures TrackingRecord(PatchLocal(rows, id, patch), entityId).Some? == TrackingRecord(rows, entityId).Some?
    ensures TrackingRecord(rows, entityId).Some? ==>
      var t := TrackingRecord(rows, entityId).value;
      TrackingRecord(PatchLocal(rows, id, patch), entityId).value ==
        if StrictEq(Get(t, "Id"), id) then Merge(t, patch) else t
    decreases |rows|
  {
    if rows != [] {
      var p := PatchLocal(rows, id, patch);
      PatchKeepsLookup(rows[1..], id, patch, entityId);
      assert p[1..] == PatchLocal(rows[1..], id, patch);
      assert LinksTo(p[0], entityId) == LinksTo(rows[0], entityId) by {
        assert Get(p[0], "Link_Annonceur") == Get(rows[0], "Link_Annonceur");
      }
      TrackingRecordCons(rows, entityId);
      TrackingRecordCons(p, entityId);
    }
  }

  /** The lookup examines the first row, then the rest. */
  lemma TrackingRecordCons(rows: seq<Record>, entityId: Value)
    requires rows != []
    ensures TrackingRecord(rows, entityId) ==
      if LinksTo(rows[0], entityId) then Some(rows[0]) else TrackingRecord(rows[1..], entityId)
  {
  }

  /** After an amount edit the entity carries the parsed amount and every other
      entity keeps its own. */
  lemma RecetteEdit(entities: seq<Entity>, entityId: Value, newValue: Value)
    ensures var after := PatchLocal(entities, entityId, map["Recette" := Num(ParseAmount(newValue))]);
      |after| == |entities| &&
      forall i :: 0 <= i < |entities| ==>
        Amount(after[i]) == (if StrictEq(Get(entities[i], "Id"), entityId) then ParseAmount(newValue) else Amount(entities[i])) &&
        Get(after[i], "Id") == Get(entities[i], "Id")
  {
  }

  /** The tables after appending `rows` to table `t`; appending nothing changes nothing. */
  function AppendRows(tables: map<string, seq<Record>>, t: string, rows: seq<Record>): (r: map<string, seq<Record>>)
    ensures RowsOf(r, t) == RowsOf(tables, t) + rows
  {
    if rows == [] then tables else tables[t := RowsOf(tables, t) + rows]
  }

  lemma AppendRowsSnoc(tables: map<string, seq<Record>>, t: string, rows: seq<Record>, row: Record)
    ensures AppendRows(tables, t, rows + [row]) ==
      AppendRows(tables, t, rows)[t := RowsOf(AppendRows(tables, t, rows), t) + [row]]
  {
    if rows == [] {
      assert rows + [row] == [row];
    } else {
      assert RowsOf(tables, t) + rows + [row] == RowsOf(tables, t) + (rows + [row]);
    }
  }

  /** The tracking fields the invoice form writes. */
  function InvoiceTrackingPayload(form: Record): Record {
    map["Email_Contact" := Get(form, "Facture_Email"), "date_paiement" := Get(form, "Date_Paiement"),
        "Date_Paiement" := Get(form, "Date_Paiement"), "Type_Paiement" := Get(form, "Type_Paiement")]
  }

  /** The entity fields the invoice form writes. */
  function InvoiceEntityPayload(form: Record): Record {
    map["Siret" := Get(form, "Siret"), "Recette" := Get(form, "Facture_Montant"),
        "address" := Get(form, "Facture_Adresse"), "title" := Get(form, "Facture_Nom")]
  }

  /** The tracking fields the sponsorship form writes. */
  function MecenatTrackingPayload(form: Record): Record {
    map["Email_Contact" := Get(form, "Email"), "date_paiement" := Get(form, "Date_Paiement"),
        "Date_Paiement" := Get(form, "Date_Paiement")]
  }

  /** The entity fields the sponsorship form writes. */
  function MecenatEntityPayload(form: Record): Record {
    map["Siret" := Get(form, "SIRET"), "Recette" := Get(form, "Montant"), "address" := Get(form, "Adresse"),
        "title" := Get(form, "Dénomination"), "juridique" := Get(form, "Forme_Juridique")]
  }

  /** The tracking row a form save creates when the entity has none. */
  function FormRow(entity: Option<Entity>, payload: Record, entityId: Value, id: nat): (r: Record)
    ensures forall f :: f in payload && f != "Link_Annonceur" && f != "Id" ==> Get(r, f) == payload[f]
    ensures Get(r, "Link_Annonceur") == entityId && Get(r, "Id") == Num(id)
  {
    Merge(map["Titre" := Or(Field(entity, "title"), Str("Suivi"))], payload)["Link_Annonceur" := entityId]["Id" := Num(id)]
  }

  /** The cached rows of the tab after a form save on the tracking side. */
  function SavedCache(cache: seq<Record>, tracking: Option<Record>, entity: Option<Entity>,
                      payload: Record, extra: Record, id: nat): seq<Record>
  {
    var trackId := Field(tracking, "Id");
    var entityId := Field(entity, "Id");
    if Truthy(trackId) then PatchLocal(cache, trackId, Merge(payload, extra))
    else cache + [Merge(FormRow(entity, payload, entityId, id), Merge(map["Link_Annonceur" := entityId], extra))]
  }

  /** The store's tables after a form save on the tracking side, `t` being the tab's table. */
  function SavedTables(tables: map<string, seq<Record>>, t: string, tracking: Option<Record>,
                       entity: Option<Entity>, payload: Record, id: nat): map<string, seq<Record>>
  {
    var trackId := Field(tracking, "Id");
    if Truthy(trackId) then tables[t := Patched(RowsOf(tables, t), Merge(map["Id" := trackId], payload))]
    else tables[t := RowsOf(tables, t) + [FormRow(entity, payload, Field(entity, "Id"), id)]]
  }

  /** The store's tables after the entity side of a form save. */
  function EntityTables(tables: map<string, seq<Record>>, entityId: Value, entityPayload: Record, down: set<string>): map<string, seq<Record>> {
    if Truthy(entityId) && MainTableId !in down then
      tables[MainTableId := Patched(RowsOf(tables, MainTableId), Merge(map["Id" := entityId], entityPayload))]
    else tables
  }

  /** A form saved for an entity that had no tracking row gives it one, holding the form's fields. */
  lemma SavedFormIsFound(cache: seq<Record>, entity: Entity, payload: Record, extra: Record, id: nat)
    requires TrackingRecord(cache, Get(entity, "Id")).None? && !Get(entity, "Id").Obj?
    requires "Link_Annonceur" !in extra
    ensures var rec := TrackingRecord(SavedCache(cache, None, Some(entity), payload, extra, id), Get(entity, "Id"));
      rec.Some? &&
      (forall f :: f in payload && f !in extra && f != "Link_Annonceur" && f != "Id" ==> Get(rec.value, f) == payload[f]) &&
      (forall f :: f in extra ==> Get(rec.value, f) == extra[f])
  {
    var entityId := Get(entity, "Id");
    var row := Merge(FormRow(Some(entity), payload, entityId, id), Merge(map["Link_Annonceur" := entityId], extra));
    assert SavedCache(cache, None, Some(entity), payload, extra, id) == cache + [row];
    CreatedRecordIsFound(cache, row, entityId);
  }

  /** The page. */
  class SuiviPage {
    var activeTab: string
    /** tab -> the tracking rows loaded for it */
    var trackingData: map<string, seq<Record>>
    var filterMode: string
    var localEntities: seq<Entity>
    const store: RecordStore

    constructor(entities: seq<Entity>, db: RecordStore)
      ensures activeTab == EncartTab && trackingData == map[] && filterMode == "all"
      ensures localEntities == entities && store == db
    {
      activeTab := EncartTab;
      trackingData := map[];
      filterMode := "all";
      localEntities := entities;
      store := db;
    }

    /** `trackingData[tab] || []` */
    function Cache(tab: string): seq<Record>
      reads this
    {
      CacheOf(trackingData, tab)
    }

    /** The part of the state a click can change. */
    function Now(): PageState
      reads this, store
    {
      PageState(store.tables, store.nextId, trackingData)
    }

    /** The entities the active tab lists. */
    function Relevant(): seq<Entity>
      reads this
    {
      RelevantEntities(activeTab, localEntities, Cache(StandTab))
    }

    /** The cards of the active tab, before filtering. */
    function Items(): seq<Item>
      reads this
    {
      ProcessEntities(activeTab, Relevant(), Cache(activeTab))
    }

    /** The cards shown under the current filter. */
    function Shown(): seq<Item>
      reads this
    {
      FilteredItems(filterMode, Items())
    }

    /** The counters above the cards. */
    function Counters(): Stats
      reads this
    {
      StatsOf(activeTab, Items())
    }

    /** The `Stand` field of the cached row with this id on the active tab. */
    function StandLink(trackingId: Value): Value
      reads this
    {
      Field(RowWithId(Cache(activeTab), trackingId), "Stand")
    }

    /** The tab's table exists and answers. */
    predicate Reachable(tab: string)
      reads this, store
    {
      TableIdOf(tab).Some? && TableIdOf(tab).value !in store.unreachable
    }

    /** What fetching a tab's rows returns. */
    function Fetched(tab: string): (r: seq<Record>)
      reads this, store
      ensures Reachable(tab) ==> r == store.Rows(TableIdOf(tab).value)
      ensures !Reachable(tab) ==> r == []
    {
      if Reachable(tab) then store.Rows(TableIdOf(tab).value) else []
    }

    /** Clicking a tab: it becomes active and its rows are loaded into the cache. */
    method SelectTab(tab: string)
      modifies this
      ensures activeTab == tab && trackingData == old(trackingData)[tab := Fetched(tab)]
      ensures localEntities == old(localEntities) && filterMode == old(filterMode)
      ensures Cache(tab) == Fetched(tab)
    {
      activeTab := tab;
      var rows := store.FetchTrackingData(tab);
      trackingData := trackingData[tab := rows];
    }

    /** Clicking one of the three counters. */
    method SelectFilter(mode: string)
      modifies this
      ensures filterMode == mode
      ensures activeTab == old(activeTab) && trackingData == old(trackingData) && localEntities == old(localEntities)
    {
      filterMode := mode;
    }

    /** `handleUpdate`: with a tracking row, the cached row takes the value at
        once and the store is patched (a failed patch is not rolled back);
        without one, a row titled after the entity is created and linked, and
        the cache gets it once the store has answered. */
    method HandleUpdate(trackingId: Value, field: string, value: Value, entityId: Value)
      modifies this, store
      ensures activeTab == old(activeTab) && localEntities == old(localEntities) && filterMode == old(filterMode)
      ensures store.unreachable == old(store.unreachable)
      ensures Truthy(trackingId) ==>
        trackingData == old(trackingData)[activeTab := PatchLocal(old(Cache(activeTab)), trackingId, map[field := value])] &&
        store.nextId == old(store.nextId) &&
        if Reachable(activeTab) then
          var t := TableIdOf(activeTab).value;
          store.tables == old(store.tables)[t := Patched(old(store.Rows(t)), Merge(map["Id" := trackingId], map[field := value]))]
        else store.tables == old(store.tables)
      ensures !Truthy(trackingId) ==>
        if Reachable(activeTab) then
          var t := TableIdOf(activeTab).value;
          var rec := NewTrackingRecord(EntityWithId(old(Relevant()), entityId), field, value);
          var created := rec["Link_Annonceur" := entityId]["Id" := Num(old(store.nextId))];
          store.tables == old(store.tables)[t := old(store.Rows(t)) + [created]] &&
          store.nextId == old(store.nextId) + 1 &&
          trackingData == old(trackingData)[activeTab := old(Cache(activeTab)) + [created["Link_Annonceur" := entityId]]]
        else
          store.tables == old(store.tables) && store.nextId == old(store.nextId) && trackingData == old(trackingData)
      ensures OneTableWritten(old(store.tables), store.tables, TableIdOf(activeTab))
      ensures Now() == WriteOutcome(old(Now()), store.unreachable, activeTab, old(Relevant()), trackingId, field, value, entityId)
    {
      if Truthy(trackingId) {
        trackingData := trackingData[activeTab := PatchLocal(Cache(activeTab), trackingId, map[field := value])];
        var res := store.UpdateTrackingRecord(activeTab, trackingId, map[field := value]);
      } else {
        var entity := EntityWithId(Relevant(), entityId);
        var rec := NewTrackingRecord(entity, field, value);
        var created := store.CreateAndLinkRecord(activeTab, rec, entityId);
        if created.Ok? {
          trackingData := trackingData[activeTab := Cache(activeTab) + [created.value["Link_Annonceur" := entityId]]];
        }
      }
    }

    /** `handleRecetteUpdate`: the local entity takes the parsed amount at once,
        then the main table is patched. */
    method HandleRecetteUpdate(entityId: Value, newValue: Value)
      modifies this, store
      ensures localEntities == PatchLocal(old(localEntities), entityId, map["Recette" := Num(ParseAmount(newValue))])
      ensures activeTab == old(activeTab) && trackingData == old(trackingData) && filterMode == old(filterMode)
      ensures store.unreachable == old(store.unreachable) && store.nextId == old(store.nextId)
      ensures MainTableId in store.unreachable ==> store.tables == old(store.tables)
      ensures MainTableId !in store.unreachable ==>
        store.tables == old(store.tables)[MainTableId :=
          Patched(old(store.Rows(MainTableId)), Merge(map["Id" := entityId], map["Recette" := Num(ParseAmount(newValue))]))]
    {
      var val := Num(ParseAmount(newValue));
      localEntities := PatchLocal(localEntities, entityId, map["Recette" := val]);
      var res := store.UpdateEntity(entityId, map["Recette" := val]);
    }

    /** `handlePackChange`: writes the toggled pack list, and when the stand
        pack is the one clicked, creates or deletes the partner's Stand record.
        On the partners tab the Stand table changes only as follows: a click
        that adds the stand pack to a partner with no stand adds exactly one
        row, linked to the partner; a click that removes it deletes the linked
        stand; any other click leaves the table as it was. The partner's cached
        row and its Partenaires row take the new pack text, then the new
        stand's id or `null` once both writes go through. */
    method HandlePackChange(trackingId: Value, currentPacks: Value, tag: string, entityId: Value)
      modifies this, store
      ensures activeTab == old(activeTab) && localEntities == old(localEntities) && filterMode == old(filterMode)
      ensures store.unreachable == old(store.unreachable)
      ensures Truthy(trackingId) && tag != StandTag ==>
        trackingData == old(trackingData)[activeTab :=
          PatchLocal(old(Cache(activeTab)), trackingId, map["Pack_Choisi" := Str(Clicked(currentPacks, tag))])]
      ensures (activeTab == PartnerTab && (tag != StandTag || StandTableId in store.unreachable ||
                (tag in PackList(currentPacks)) != Truthy(old(StandLink(trackingId))))) ==>
        store.Rows(StandTableId) == old(store.Rows(StandTableId))
      ensures (activeTab == PartnerTab && tag == StandTag && StandTableId !in store.unreachable &&
               tag in PackList(currentPacks) && Truthy(old(StandLink(trackingId)))) ==>
        store.Rows(StandTableId) == WithoutId(old(store.Rows(StandTableId)), StandId(old(StandLink(trackingId))))
      ensures (activeTab == PartnerTab && tag == StandTag && StandTableId !in store.unreachable &&
               tag !in PackList(currentPacks) && !Truthy(old(StandLink(trackingId)))) ==>
        var stands := old(store.Rows(StandTableId));
        |store.Rows(StandTableId)| == |stands| + 1 && store.Rows(StandTableId)[..|stands|] == stands &&
        Get(store.Rows(StandTableId)[|stands|], "Link_Annonceur") == entityId &&
        Get(store.Rows(StandTableId)[|stands|], "Titre") == Str(StandTitle(EntityWithId(old(Relevant()), entityId)))
      ensures Now() == PackClick(old(Now()), store.unreachable, activeTab, old(Relevant()), trackingId, currentPacks, tag, entityId)
    {
      var cached := Cache(activeTab);
      var relevant := Relevant();
      var selected := tag in PackList(currentPacks);
      WritePacks(trackingId, Str(Clicked(currentPacks, tag)), entityId);
      ghost var written := Now();
      if tag == StandTag {
        var tracking := RowWithId(cached, trackingId);
        StandSideEffect(trackingId, tracking, selected, entityId, relevant);
      }
      PackClickSteps(old(Now()), written, Now(), store.unreachable, activeTab, relevant, trackingId, currentPacks, tag, entityId);
    }

    /** `StandBackLink` seen from the Stand table, the Partenaires table and
        the cache: a click that adds or removes a stand sets the partner's
        `Stand` link to the new id or to `null` once both writes go through. */
    method StandSideEffect(trackingId: Value, tracking: Option<Record>, wasSelected: bool, entityId: Value, relevant: seq<Entity>)
      modifies this, store
      ensures activeTab == old(activeTab) && localEntities == old(localEntities) && filterMode == old(filterMode)
      ensures store.unreachable == old(store.unreachable)
      ensures StandTableId in store.unreachable || wasSelected != Truthy(Field(tracking, "Stand")) ==>
        store.Rows(StandTableId) == old(store.Rows(StandTableId))
      ensures StandTableId !in store.unreachable && !wasSelected && !Truthy(Field(tracking, "Stand")) ==>
        var stands := old(store.Rows(StandTableId));
        |store.Rows(StandTableId)| == |stands| + 1 && store.Rows(StandTableId)[..|stands|] == stands &&
        Get(store.Rows(StandTableId)[|stands|], "Link_Annonceur") == entityId &&
        Get(store.Rows(StandTableId)[|stands|], "Titre") == Str(StandTitle(EntityWithId(relevant, entityId)))
      ensures StandTableId !in store.unreachable && wasSelected && Truthy(Field(tracking, "Stand")) ==>
        store.Rows(StandTableId) == WithoutId(old(store.Rows(StandTableId)), StandId(Field(tracking, "Stand")))
      ensures var acts := wasSelected == Truthy(Field(tracking, "Stand"));
        var link := if wasSelected then Null else Num(old(store.nextId));
        store.nextId == old(store.nextId) + (if acts && !wasSelected && StandTableId !in store.unreachable then 1 else 0) &&
        (acts && StandTableId !in store.unreachable && PartnerTableId !in store.unreachable ==>
          trackingData == old(trackingData)[activeTab := PatchLocal(old(Cache(activeTab)), trackingId, map["Stand" := link])] &&
          store.Rows(PartnerTableId) == Patched(old(store.Rows(PartnerTableId)), Merge(map["Id" := trackingId], map["Stand" := link]))) &&
        (!acts || StandTableId in store.unreachable || PartnerTableId in store.unreachable ==>
          trackingData == old(trackingData) && store.Rows(PartnerTableId) == old(store.Rows(PartnerTableId)))
      ensures Now() == StandOutcome(old(Now()), store.unreachable, activeTab, relevant, trackingId, Field(tracking, "Stand"), wasSelected, entityId)
    {
      ghost var stands := store.Rows(StandTableId);
      ghost var partners := store.Rows(PartnerTableId);
      StandAndPartnerTables();
      StandBackLink(trackingId, tracking, wasSelected, entityId, relevant);
      if StandTableId !in store.unreachable && !wasSelected && !Truthy(Field(tracking, "Stand")) {
        var rec := StandRecord(EntityWithId(relevant, entityId), entityId, old(store.nextId));
        assert store.Rows(StandTableId) == stands + [rec];
        assert store.Rows(StandTableId)[..|stands|] == stands;
      }
    }

    /** `handleUpdate` of the pack field, seen from the cache and the Stand and
        Partenaires tables. */
    method WritePacks(trackingId: Value, packs: Value, entityId: Value)
      modifies this, store
      ensures activeTab == old(activeTab) && localEntities == old(localEntities) && filterMode == old(filterMode)
      ensures store.unreachable == old(store.unreachable)
      ensures Truthy(trackingId) ==>
        trackingData == old(trackingData)[activeTab := PatchLocal(old(Cache(activeTab)), trackingId, map["Pack_Choisi" := packs])] &&
        store.nextId == old(store.nextId)
      ensures activeTab == PartnerTab ==> store.Rows(StandTableId) == old(store.Rows(StandTableId))
      ensures activeTab == PartnerTab && Truthy(trackingId) && PartnerTableId !in store.unreachable ==>
        store.Rows(PartnerTableId) == Patched(old(store.Rows(PartnerTableId)), Merge(map["Id" := trackingId], map["Pack_Choisi" := packs]))
      ensures Now() == WriteOutcome(old(Now()), store.unreachable, activeTab, old(Relevant()), trackingId, "Pack_Choisi", packs, entityId)
    {
      StandAndPartnerTables();
      ghost var partners := activeTab == PartnerTab;
      ghost var tables := store.tables;
      HandleUpdate(trackingId, "Pack_Choisi", packs, entityId);
      if partners {
        OtherTableKept(tables, store.tables, Some(PartnerTableId), StandTableId);
      }
    }

    /** The Stand side effect of a stand-pack click, given the partner's cached
        tracking row and whether the pack was chosen before the click: adding
        the pack to a partner with no stand creates one, removing it from a
        partner with a stand deletes it, and any other click does nothing. */
    method StandBackLink(trackingId: Value, tracking: Option<Record>, wasSelected: bool, entityId: Value, relevant: seq<Entity>)
      modifies this, store
      ensures activeTab == old(activeTab) && localEntities == old(localEntities) && filterMode == old(filterMode)
      ensures store.unreachable == old(store.unreachable)
      ensures wasSelected != Truthy(Field(tracking, "Stand")) ==>
        store.tables == old(store.tables) && store.nextId == old(store.nextId) && trackingData == old(trackingData)
      ensures !wasSelected && !Truthy(Field(tracking, "Stand")) ==>
        StandCreated(old(store.tables), old(store.nextId), old(trackingData), old(Cache(activeTab)), trackingId, entityId, relevant)
      ensures wasSelected && Truthy(Field(tracking, "Stand")) ==>
        StandRemoved(old(store.tables), old(store.nextId), old(trackingData), old(Cache(activeTab)), trackingId, StandId(Field(tracking, "Stand")))
      ensures StandTableId in store.unreachable || wasSelected != Truthy(Field(tracking, "Stand")) ==>
        store.Rows(StandTableId) == old(store.Rows(StandTableId))
      ensures StandTableId !in store.unreachable && !wasSelected && !Truthy(Field(tracking, "Stand")) ==>
        store.Rows(StandTableId) == old(store.Rows(StandTableId)) + [StandRecord(EntityWithId(relevant, entityId), entityId, old(store.nextId))]
      ensures StandTableId !in store.unreachable && wasSelected && Truthy(Field(tracking, "Stand")) ==>
        store.Rows(StandTableId) == WithoutId(old(store.Rows(StandTableId)), StandId(Field(tracking, "Stand")))
      ensures Now() == StandOutcome(old(Now()), store.unreachable, activeTab, relevant, trackingId, Field(tracking, "Stand"), wasSelected, entityId)
    {
      var link := Field(tracking, "Stand");
      if !wasSelected {
        if !Truthy(link) {
          CreateStand(trackingId, entityId, relevant);
          CreatedOutcome(old(Now()), old(Cache(activeTab)), trackingId, link, entityId, relevant);
        }
      } else {
        if wasSelected {
          if Truthy(link) {
            RemoveStand(trackingId, StandId(link));
            RemovedOutcome(old(Now()), old(Cache(activeTab)), trackingId, link, entityId, relevant);
          }
          // chosen before the click with no stand linked: nothing to delete
        } else {
          // the second creation block, under `!isSelected` inside `isSelected`'s else
          assert false;
        }
      }
      StandOutcomeStands(old(Now()), store.unreachable, activeTab, relevant, trackingId, link, wasSelected, entityId);
    }

    /** The state after creating a partner's stand: the Stand table gains one
        row linked to the partner, then the partner's row points to it, in the
        store and in the cache; the first step that fails ends the sequence. */
    ghost predicate StandCreated(tables0: map<string, seq<Record>>, next0: nat, data0: map<string, seq<Record>>,
                                 cache0: seq<Record>, trackingId: Value, entityId: Value, relevant: seq<Entity>)
      reads this, store
    {
      if StandTableId in store.unreachable then
        store.tables == tables0 && store.nextId == next0 && trackingData == data0
      else
        var added := tables0[StandTableId := RowsOf(tables0, StandTableId) + [StandRecord(EntityWithId(relevant, entityId), entityId, next0)]];
        store.nextId == next0 + 1 &&
        if PartnerTableId in store.unreachable then
          store.tables == added && trackingData == data0
        else
          store.tables == added[PartnerTableId := Patched(RowsOf(tables0, PartnerTableId), Merge(map["Id" := trackingId], map["Stand" := Num(next0)]))] &&
          trackingData == data0[activeTab := PatchLocal(cache0, trackingId, map["Stand" := Num(next0)])]
    }

    /** The state after deleting a partner's stand: the stand row goes, then the
        partner's row is unlinked, in the store and in the cache; the first step
        that fails ends the sequence. */
    /** A completed creation is the Stand step of an unticked-to-ticked click. */
    lemma CreatedOutcome(s: PageState, cache0: seq<Record>, trackingId: Value, link: Value, entityId: Value, relevant: seq<Entity>)
      requires cache0 == CacheOf(s.data, activeTab) && !Truthy(link)
      requires StandCreated(s.tables, s.nextId, s.data, cache0, trackingId, entityId, relevant)
      ensures Now() == StandOutcome(s, store.unreachable, activeTab, relevant, trackingId, link, false, entityId)
    {
    }

    /** A completed deletion is the Stand step of a ticked-to-unticked click. */
    lemma RemovedOutcome(s: PageState, cache0: seq<Record>, trackingId: Value, link: Value, entityId: Value, relevant: seq<Entity>)
      requires cache0 == CacheOf(s.data, activeTab) && Truthy(link)
      requires StandRemoved(s.tables, s.nextId, s.data, cache0, trackingId, StandId(link))
      ensures Now() == StandOutcome(s, store.unreachable, activeTab, relevant, trackingId, link, true, entityId)
    {
    }

    ghost predicate StandRemoved(tables0: map<string, seq<Record>>, next0: nat, data0: map<string, seq<Record>>,
                                 cache0: seq<Record>, trackingId: Value, standId: Value)
      reads this, store
    {
      store.nextId == next0 &&
      if StandTableId in store.unreachable then
        store.tables == tables0 && trackingData == data0
      else
        var removed := tables0[StandTableId := WithoutId(RowsOf(tables0, StandTableId), standId)];
        if PartnerTableId in store.unreachable then
          store.tables == removed && trackingData == data0
        else
          store.tables == removed[PartnerTableId := Patched(RowsOf(tables0, PartnerTableId), Merge(map["Id" := trackingId], map["Stand" := Null]))] &&
          trackingData == data0[activeTab := PatchLocal(cache0, trackingId, map["Stand" := Null])]
    }

    method CreateStand(trackingId: Value, entityId: Value, relevant: seq<Entity>)
      modifies this, store
      ensures activeTab == old(activeTab) && localEntities == old(localEntities) && filterMode == old(filterMode)
      ensures store.unreachable == old(store.unreachable)
      ensures StandCreated(old(store.tables), old(store.nextId), old(trackingData), old(Cache(activeTab)), trackingId, entityId, relevant)
    {
      var entity := EntityWithId(relevant, entityId);
      var newStand := AddStandRow(Str(StandTitle(entity)), entityId);
      if newStand.Err? {
        return;
      }
      var ok := LinkPartnerStand(trackingId, Get(newStand.value, "Id"));
    }

    method RemoveStand(trackingId: Value, standId: Value)
      modifies this, store
      ensures activeTab == old(activeTab) && localEntities == old(localEntities) && filterMode == old(filterMode)
      ensures store.unreachable == old(store.unreachable)
      ensures StandRemoved(old(store.tables), old(store.nextId), old(trackingData), old(Cache(activeTab)), trackingId, standId)
    {
      var res := DeleteStandRow(standId);
      if res.Err? {
        return;
      }
      var ok := LinkPartnerStand(trackingId, Null);
    }

    /** Creates a Stand row with this title, linked to the entity. */
    method AddStandRow(title: Value, entityId: Value) returns (res: Result<Record>)
      modifies store
      ensures store.unreachable == old(store.unreachable)
      ensures StandTableId in store.unreachable ==>
        res.Err? && store.tables == old(store.tables) && store.nextId == old(store.nextId)
      ensures StandTableId !in store.unreachable ==>
        var row := map["Titre" := title]["Link_Annonceur" := entityId]["Id" := Num(old(store.nextId))];
        res == Ok(row) && store.nextId == old(store.nextId) + 1 &&
        store.tables == old(store.tables)[StandTableId := old(store.Rows(StandTableId)) + [row]]
    {
      StandAndPartnerTables();
      res := store.CreateAndLinkRecord(StandTab, map["Titre" := title], entityId);
    }

    /** Deletes the Stand row with this id. */
    method DeleteStandRow(standId: Value) returns (res: Result<Record>)
      modifies store
      ensures store.unreachable == old(store.unreachable) && store.nextId == old(store.nextId)
      ensures StandTableId in store.unreachable ==> res.Err? && store.tables == old(store.tables)
      ensures StandTableId !in store.unreachable ==>
        res.Ok? && store.tables == old(store.tables)[StandTableId := WithoutId(old(store.Rows(StandTableId)), standId)]
    {
      StandAndPartnerTables();
      res := store.DeleteTrackingRecord(StandTab, standId);
    }

    /** Sets the partner's `Stand` field, in the Partenaires table and then in
        the cache of the active tab. */
    method LinkPartnerStand(trackingId: Value, standId: Value) returns (ok: bool)
      modifies this, store
      ensures activeTab == old(activeTab) && localEntities == old(localEntities) && filterMode == old(filterMode)
      ensures store.unreachable == old(store.unreachable) && store.nextId == old(store.nextId)
      ensures ok <==> PartnerTableId !in store.unreachable
      ensures !ok ==> store.tables == old(store.tables) && trackingData == old(trackingData)
      ensures ok ==>
        store.tables == old(store.tables)[PartnerTableId :=
          Patched(old(store.Rows(PartnerTableId)), Merge(map["Id" := trackingId], map["Stand" := standId]))] &&
        trackingData == old(trackingData)[activeTab := PatchLocal(old(Cache(activeTab)), trackingId, map["Stand" := standId])]
    {
      PartnerTable();
      var res := store.UpdateTrackingRecord(PartnerTab, trackingId, map["Stand" := standId]);
      if res.Err? {
        return false;
      }
      trackingData := trackingData[activeTab := PatchLocal(Cache(activeTab), trackingId, map["Stand" := standId])];
      ok := true;
    }

    /** The rows of the tab's table exist and answer, and the save has a row
        to patch or an entity to title a new row after. */
    predicate TrackingSavable(tracking: Option<Record>, entity: Option<Entity>)
      reads this, store
    {
      Reachable(activeTab) && (Truthy(Field(tracking, "Id")) || entity.Some?)
    }

    /** The outcome of saving a form: without a savable tracking side nothing
        changes; otherwise the tracking side is written to the tab's table and
        the cache, then the entity side to the main table when the entity has
        an id; `saved` tells whether every step succeeded. */
    ghost predicate FormSaved(tables0: map<string, seq<Record>>, next0: nat, data0: map<string, seq<Record>>,
                              cache0: seq<Record>, tracking: Option<Record>, entity: Option<Entity>,
                              payload: Record, extra: Record, entityPayload: Record, saved: bool)
      reads this, store
    {
      if !TrackingSavable(tracking, entity) then
        !saved && store.tables == tables0 && store.nextId == next0 && trackingData == data0
      else
        var t := TableIdOf(activeTab).value;
        var entityId := Field(entity, "Id");
        (saved <==> !Truthy(entityId) || MainTableId !in store.unreachable) &&
        store.nextId == (if Truthy(Field(tracking, "Id")) then next0 else next0 + 1) &&
        trackingData == data0[activeTab := SavedCache(cache0, tracking, entity, payload, extra, next0)] &&
        store.tables == EntityTables(SavedTables(tables0, t, tracking, entity, payload, next0), entityId, entityPayload, store.unreachable)
    }

    /** `handleInvoiceSave`; the invoice is generated whether or not the save succeeded. */
    method HandleInvoiceSave(entity: Option<Entity>, tracking: Option<Record>, form: Record) returns (saved: bool)
      modifies this, store
      ensures activeTab == old(activeTab) && localEntities == old(localEntities) && filterMode == old(filterMode)
      ensures store.unreachable == old(store.unreachable)
      ensures FormSaved(old(store.tables), old(store.nextId), old(trackingData), old(Cache(activeTab)), tracking, entity,
                        InvoiceTrackingPayload(form), map["Facture_Description" := Get(form, "Facture_Description")],
                        InvoiceEntityPayload(form), saved)
    {
      saved := SaveForm(tracking, entity, InvoiceTrackingPayload(form),
                        map["Facture_Description" := Get(form, "Facture_Description")], InvoiceEntityPayload(form));
    }

    /** `handleMecenatSave`; the receipt is generated only when the save succeeded. */
    method HandleMecenatSave(entity: Option<Entity>, tracking: Option<Record>, form: Record) returns (saved: bool)
      modifies this, store
      ensures activeTab == old(activeTab) && localEntities == old(localEntities) && filterMode == old(filterMode)
      ensures store.unreachable == old(store.unreachable)
      ensures FormSaved(old(store.tables), old(store.nextId), old(trackingData), old(Cache(activeTab)), tracking, entity,
                        MecenatTrackingPayload(form), map[], MecenatEntityPayload(form), saved)
    {
      saved := SaveForm(tracking, entity, MecenatTrackingPayload(form), map[], MecenatEntityPayload(form));
    }

    /** The save common to both forms; `extra` holds the fields kept only in the cache. */
    method SaveForm(tracking: Option<Record>, entity: Option<Entity>, payload: Record, extra: Record, entityPayload: Record)
      returns (saved: bool)
      modifies this, store
      ensures activeTab == old(activeTab) && localEntities == old(localEntities) && filterMode == old(filterMode)
      ensures store.unreachable == old(store.unreachable)
      ensures FormSaved(old(store.tables), old(store.nextId), old(trackingData), old(Cache(activeTab)),
                        tracking, entity, payload, extra, entityPayload, saved)
    {
      var ok := SaveTracking(tracking, entity, payload, extra);
      if !ok {
        return false;
      }
      TrackingTableIsNotMain(activeTab);
      saved := SaveEntity(Field(entity, "Id"), entityPayload);
    }

    /** The tracking side of a form save. */
    method SaveTracking(tracking: Option<Record>, entity: Option<Entity>, payload: Record, extra: Record) returns (ok: bool)
      modifies this, store
      ensures activeTab == old(activeTab) && localEntities == old(localEntities) && filterMode == old(filterMode)
      ensures store.unreachable == old(store.unreachable)
      ensures ok == TrackingSavable(tracking, entity)
      ensures !ok ==> store.tables == old(store.tables) && store.nextId == old(store.nextId) && trackingData == old(trackingData)
      ensures ok ==>
        store.nextId == (if Truthy(Field(tracking, "Id")) then old(store.nextId) else old(store.nextId) + 1) &&
        trackingData == old(trackingData)[activeTab := SavedCache(old(Cache(activeTab)), tracking, entity, payload, extra, old(store.nextId))] &&
        store.tables == SavedTables(old(store.tables), TableIdOf(activeTab).value, tracking, entity, payload, old(store.nextId))
    {
      if Truthy(Field(tracking, "Id")) {
        ok := PatchTracking(Field(tracking, "Id"), payload, extra);
      } else if entity.None? {
        ok := false;
      } else {
        ok := CreateTracking(entity.value, payload, extra);
      }
    }

    /** Form save, tracking side, for a row that exists: the store's row and the cached one take the fields. */
    method PatchTracking(trackId: Value, payload: Record, extra: Record) returns (ok: bool)
      modifies this, store
      ensures activeTab == old(activeTab) && localEntities == old(localEntities) && filterMode == old(filterMode)
      ensures store.unreachable == old(store.unreachable) && store.nextId == old(store.nextId)
      ensures ok == Reachable(activeTab)
      ensures !ok ==> store.tables == old(store.tables) && trackingData == old(trackingData)
      ensures ok ==>
        var t := TableIdOf(activeTab).value;
        trackingData == old(trackingData)[activeTab := PatchLocal(old(Cache(activeTab)), trackId, Merge(payload, extra))] &&
        store.tables == old(store.tables)[t := Patched(RowsOf(old(store.tables), t), Merge(map["Id" := trackId], payload))]
    {
      var res := store.UpdateTrackingRecord(activeTab, trackId, payload);
      if res.Err? {
        return false;
      }
      trackingData := trackingData[activeTab := PatchLocal(Cache(activeTab), trackId, Merge(payload, extra))];
      ok := true;
    }

    /** Form save, tracking side, for an entity with no row: a row titled after
        it is created and linked, and cached once the store has answered. */
    method CreateTracking(entity: Entity, payload: Record, extra: Record) returns (ok: bool)
      modifies this, store
      ensures activeTab == old(activeTab) && localEntities == old(localEntities) && filterMode == old(filterMode)
      ensures store.unreachable == old(store.unreachable)
      ensures ok == Reachable(activeTab)
      ensures !ok ==> store.tables == old(store.tables) && store.nextId == old(store.nextId) && trackingData == old(trackingData)
      ensures ok ==>
        var t := TableIdOf(activeTab).value;
        var row := FormRow(Some(entity), payload, Get(entity, "Id"), old(store.nextId));
        store.nextId == old(store.nextId) + 1 &&
        trackingData == old(trackingData)[activeTab :=
          old(Cache(activeTab)) + [Merge(row, Merge(map["Link_Annonceur" := Get(entity, "Id")], extra))]] &&
        store.tables == old(store.tables)[t := RowsOf(old(store.tables), t) + [row]]
    {
      var entityId := Get(entity, "Id");
      var newRecord := Merge(map["Titre" := Or(Get(entity, "title"), Str("Suivi"))], payload);
      var created := store.CreateAndLinkRecord(activeTab, newRecord, entityId);
      if created.Err? {
        return false;
      }
      trackingData := trackingData[activeTab := Cache(activeTab) + [Merge(created.value, Merge(map["Link_Annonceur" := entityId], extra))]];
      ok := true;
    }

    /** The entity side of a form save: only an entity with an id is written. */
    method SaveEntity(entityId: Value, entityPayload: Record) returns (ok: bool)
      modifies store
      ensures store.unreachable == old(store.unreachable) && store.nextId == old(store.nextId)
      ensures ok <==> !Truthy(entityId) || MainTableId !in store.unreachable
      ensures store.tables == EntityTables(old(store.tables), entityId, entityPayload, store.unreachable)
    {
      if Truthy(entityId) {
        var res := store.UpdateEntity(entityId, entityPayload);
        return res.Ok?;
      }
      ok := true;
    }

    /** The initialisation button: for every listed entity without a tracking
        row in the cache as it was when the button was pressed, a row titled
        after it is created and linked; `count` is the number of rows made. */
    method InitMissingRecords() returns (count: nat)
      modifies store
      ensures store.unreachable == old(store.unreachable)
      ensures Reachable(activeTab) ==>
        var t := TableIdOf(activeTab).value;
        var created := InitRecords(Relevant(), Untracked(Cache(activeTab)), old(store.nextId));
        store.tables == AppendRows(old(store.tables), t, created) &&
        store.nextId == old(store.nextId) + |created| &&
        count == |created| == Count(Relevant(), Untracked(Cache(activeTab)))
      ensures !Reachable(activeTab) ==>
        store.tables == old(store.tables) && store.nextId == old(store.nextId) && count == 0
    {
      count := CreateMissing(activeTab, Relevant(), Untracked(Cache(activeTab)));
      InitCount(Relevant(), Untracked(Cache(activeTab)), old(store.nextId));
    }

    /** The loop of the initialisation, over a snapshot of the list and of the rows. */
    method CreateMissing(tab: string, relevant: seq<Entity>, missing: Entity -> bool) returns (count: nat)
      modifies store
      ensures store.unreachable == old(store.unreachable)
      ensures Reachable(tab) ==>
        var created := InitRecords(relevant, missing, old(store.nextId));
        store.tables == AppendRows(old(store.tables), TableIdOf(tab).value, created) &&
        store.nextId == old(store.nextId) + |created| && count == |created|
      ensures !Reachable(tab) ==>
        store.tables == old(store.tables) && store.nextId == old(store.nextId) && count == 0
    {
      ghost var reach := Reachable(tab);
      ghost var t := if reach then TableIdOf(tab).value else "";
      ghost var tables0, next0 := store.tables, store.nextId;
      ghost var created: seq<Record> := [];
      count := 0;
      var i := 0;
      assert relevant[..0] == [];
      while i < |relevant|
        invariant 0 <= i <= |relevant|
        invariant store.unreachable == old(store.unreachable) && reach == Reachable(tab)
        invariant created == InitRecords(relevant[..i], missing, next0)
        invariant reach ==>
          store.tables == AppendRows(tables0, t, created) && store.nextId == next0 + |created| && count == |created|
        invariant !reach ==> store.tables == tables0 && store.nextId == next0 && count == 0
      {
        var e := relevant[i];
        assert relevant[..i + 1] == relevant[..i] + [e];
        InitRecordsSnoc(relevant[..i], e, missing, next0);
        if missing(e) {
          var made := CreateOne(tab, e, tables0, t, created, next0);
          if made {
            count := count + 1;
          }
          created := created + [InitRecord(e, next0 + |created|)];
        }
        i := i + 1;
      }
      assert relevant[..|relevant|] == relevant;
    }

    /** One step of the initialisation: creates the entity's row, linked to it. */
    method CreateOne(tab: string, e: Entity, ghost tables0: map<string, seq<Record>>, ghost t: string,
                     ghost created: seq<Record>, ghost next0: nat) returns (made: bool)
      requires Reachable(tab) ==>
        t == TableIdOf(tab).value && store.tables == AppendRows(tables0, t, created) && store.nextId == next0 + |created|
      modifies store
      ensures store.unreachable == old(store.unreachable)
      ensures made == Reachable(tab)
      ensures made ==>
        store.tables == AppendRows(tables0, t, created + [InitRecord(e, next0 + |created|)]) &&
        store.nextId == next0 + |created| + 1
      ensures !made ==> store.tables == old(store.tables) && store.nextId == old(store.nextId)
    {
      var res := store.CreateAndLinkRecord(tab, map["Titre" := Or(Get(e, "title"), Str("Suivi"))], Get(e, "Id"));
      made := res.Ok?;
      if made {
        AppendRowsSnoc(tables0, t, created, InitRecord(e, next0 + |created|));
      }
    }
  }
}
