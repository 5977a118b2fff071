/** The brochure-layout page, loading: the signed entities that bought an
    advertising insert or the back cover, the size, visual status and page each
    one takes from its tracking records, and the merge of those database facts
    into the layout data the page keeps per entity (page, size, position,
    file name, extension). */
module BrochureLoad {

  import opened Wrappers
  import opened Text
  import opened JsValues
  import opened Collections
  import opened Domain
  import Completion

  /** The layout data, keyed by the entity id as a property name. */
  type AdminData = map<string, Record>

  /** An entity id used as an object key. */
  function KeyOf(e: Entity): string {
    ToStr(Get(e, "Id"))
  }

  /** `adminData[id] || {}` */
  function Stored(admin: AdminData, key: string): Record {
    if key in admin then admin[key] else map[]
  }

  // ----- maps keyed by a string, the later write winning -----

  /** `s.forEach(x => { if (...) m[key] = value; })` as a function of `s`, with
      `f` giving the key and value an element writes, if any. */
  function KeyedBy<T, R>(s: seq<T>, f: T -> Option<(string, R)>): map<string, R>
    decreases |s|
  {
    if s == [] then map[]
    else
      var m := KeyedBy(s[..|s| - 1], f);
      match f(s[|s| - 1])
      case Some(entry) => m[entry.0 := entry.1]
      case None => m
  }

  predicate WritesKey<T, R>(f: T -> Option<(string, R)>, x: T, k: string) {
    f(x).Some? && f(x).value.0 == k
  }

  /** A key is present exactly when some element writes it, and it holds what
      the last element writing it wrote. */
  lemma {:induction false} KeyedByMeans<T, R>(s: seq<T>, f: T -> Option<(string, R)>, k: string)
    ensures k in KeyedBy(s, f) <==> exists i :: 0 <= i < |s| && WritesKey(f, s[i], k)
    ensures k in KeyedBy(s, f) ==>
      exists i :: 0 <= i < |s| && f(s[i]) == Some((k, KeyedBy(s, f)[k])) &&
        forall j :: i < j < |s| ==> !WritesKey(f, s[j], k)
    decreases |s|
  {
    if s != [] {
      var t := s[..|s| - 1];
      var n := |s| - 1;
      KeyedByMeans(t, f, k);
      assert forall i :: 0 <= i < |t| ==> s[i] == t[i];
      if !WritesKey(f, s[n], k) {
        assert KeyedBy(s, f) == KeyedBy(t, f) || (f(s[n]).Some? && KeyedBy(s, f) == KeyedBy(t, f)[f(s[n]).value.0 := f(s[n]).value.1]);
        if k in KeyedBy(s, f) {
          var i :| 0 <= i < |t| && f(t[i]) == Some((k, KeyedBy(t, f)[k])) && forall j :: i < j < |t| ==> !WritesKey(f, t[j], k);
          assert f(s[i]) == Some((k, KeyedBy(s, f)[k]));
        }
      }
    }
  }

  /** A map update that only adds keys: keys not written stay as they were. */
  lemma KeyedByUnwritten<T, R>(s: seq<T>, f: T -> Option<(string, R)>, k: string)
    requires forall i :: 0 <= i < |s| ==> !WritesKey(f, s[i], k)
    ensures k !in KeyedBy(s, f)
  {
    KeyedByMeans(s, f, k);
  }

  lemma KeyedBySnoc<T, R>(s: seq<T>, x: T, f: T -> Option<(string, R)>)
    ensures KeyedBy(s + [x], f) == if f(x).Some? then KeyedBy(s, f)[f(x).value.0 := f(x).value.1] else KeyedBy(s, f)
  {
    assert (s + [x])[..|s|] == s;
  }

  lemma MapSeqSnoc<T, U>(s: seq<T>, x: T, f: T -> U)
    ensures MapSeq(s + [x], f) == MapSeq(s, f) + [f(x)]
  {
  }

  lemma MergeStep<R>(a: map<string, R>, b: map<string, R>, k: string)
    requires k in b
    ensures a[k := b[k]] + (b - {k}) == a + b
  {
  }

  lemma MergeEmpty<R>(a: map<string, R>, b: map<string, R>)
    requires b == map[]
    ensures a + b == a
  {
  }

  // ----- the two inverse maps -----

  /** `p.Link_Annonceur && p.Link_Annonceur.Id`: only an expanded link object
      with a truthy `Id` designates an entity (a bare id has no `Id` property). */
  predicate Indexable(r: Record) {
    Get(r, "Link_Annonceur").Obj? && Truthy(Get(r, "Link_Annonceur").idField)
  }

  function IndexEntry(r: Record): Option<(string, Record)> {
    if Indexable(r) then Some((ToStr(Get(r, "Link_Annonceur").idField), r)) else None
  }

  /** The record a tracking record list gives each entity id. */
  function Index(records: seq<Record>): map<string, Record> {
    KeyedBy(records, IndexEntry)
  }

  /** `entityToPartenaireMap` / `entityToEncartMap`, filled by a `forEach`. */
  method BuildIndex(records: seq<Record>) returns (index: map<string, Record>)
    ensures index == Index(records)
  {
    index := map[];
    for i := 0 to |records|
      invariant index == KeyedBy(records[..i], IndexEntry)
    {
      assert records[..i + 1][..i] == records[..i];
      var p := records[i];
      if Get(p, "Link_Annonceur").Obj? && Truthy(Get(p, "Link_Annonceur").idField) {
        index := index[ToStr(Get(p, "Link_Annonceur").idField) := p];
      }
    }
    assert records[..|records|] == records;
  }

  /** The record links to the entity with this id. */
  predicate LinksKey(r: Record, key: string) {
    Indexable(r) && LinkKey(Get(r, "Link_Annonceur")) == key
  }

  /** The record indexed under an entity id links to that entity, and it is the
      last such record of the list; ids no record links to are absent. */
  lemma IndexedRecords(records: seq<Record>, key: string)
    ensures key in Index(records) <==>
      exists i :: 0 <= i < |records| && LinksKey(records[i], key)
    ensures key in Index(records) ==>
      exists i :: 0 <= i < |records| && records[i] == Index(records)[key] && LinksKey(records[i], key) &&
        forall j :: i < j < |records| ==> !LinksKey(records[j], key)
  {
    KeyedByMeans(records, IndexEntry, key);
    if key in Index(records) {
      var i :| 0 <= i < |records| && IndexEntry(records[i]) == Some((key, Index(records)[key])) &&
        forall j :: i < j < |records| ==> !WritesKey(IndexEntry, records[j], key);
      forall j | i < j < |records|
        ensures !LinksKey(records[j], key)
      {
        assert !WritesKey(IndexEntry, records[j], key);
      }
    }
    if exists i :: 0 <= i < |records| && LinksKey(records[i], key) {
      var i :| 0 <= i < |records| && LinksKey(records[i], key);
      assert WritesKey(IndexEntry, records[i], key);
    }
  }

  /** `map[e.Id]` */
  function Lookup(index: map<string, Record>, key: string): Option<Record> {
    if key in index then Some(index[key]) else None
  }

  // ----- which entities the brochure shows -----

  const BackCoverLong: string := "quatrième de couverture"

  /** The pack text searched: a string pack lower-cased, anything else empty. */
  function PackText(pack: Value): string {
    if pack.Str? then Lower(pack.s) else ""
  }

  predicate BuysBackCover(partner: Record) {
    var text := PackText(Get(partner, "Pack_Choisi"));
    Contains(text, Completion.CoverTag) || Contains(text, BackCoverLong)
  }

  /** The filter of `loadData`: a signed entity with an insert record, or with a
      partner record whose pack is the back cover. */
  function InBrochure(encarts: map<string, Record>, partners: map<string, Record>): Entity -> bool {
    e => IsSigned(e) &&
      (Lookup(encarts, KeyOf(e)).Some? ||
       (Lookup(partners, KeyOf(e)).Some? && BuysBackCover(Lookup(partners, KeyOf(e)).value)))
  }

  /** The record indexed under an id buys the back cover exactly when the last
      record linking to that id does. */
  lemma IndexedBackCover(records: seq<Record>, key: string)
    ensures (key in Index(records) && BuysBackCover(Index(records)[key])) <==>
      exists i :: 0 <= i < |records| && LinksKey(records[i], key) && BuysBackCover(records[i]) &&
        forall j :: i < j < |records| ==> !LinksKey(records[j], key)
  {
    IndexedRecords(records, key);
    if exists i :: 0 <= i < |records| && LinksKey(records[i], key) && BuysBackCover(records[i]) &&
         forall j :: i < j < |records| ==> !LinksKey(records[j], key) {
      var i :| 0 <= i < |records| && LinksKey(records[i], key) && BuysBackCover(records[i]) &&
        forall j :: i < j < |records| ==> !LinksKey(records[j], key);
      var m :| 0 <= m < |records| && records[m] == Index(records)[key] && LinksKey(records[m], key) &&
        forall j :: m < j < |records| ==> !LinksKey(records[j], key);
      assert i <= m;
      assert m <= i;
    }
  }

  /** Kept, in terms of the raw record lists: a signed entity that some insert
      record links to, or whose last linked partner record buys the back cover. */
  lemma InBrochureFromRecords(encartRecords: seq<Record>, partnerRecords: seq<Record>, e: Entity)
    ensures InBrochure(Index(encartRecords), Index(partnerRecords))(e) <==>
      (IsSigned(e) &&
       ((exists i :: 0 <= i < |encartRecords| && LinksKey(encartRecords[i], KeyOf(e))) ||
        (exists i :: 0 <= i < |partnerRecords| && LinksKey(partnerRecords[i], KeyOf(e)) && BuysBackCover(partnerRecords[i]) &&
           forall j :: i < j < |partnerRecords| ==> !LinksKey(partnerRecords[j], KeyOf(e)))))
  {
    IndexedRecords(encartRecords, KeyOf(e));
    IndexedBackCover(partnerRecords, KeyOf(e));
  }

  // ----- what the tracking records say about an entity -----

  /** The size, visual status, database page and tracking record derived for one
      entity; `page`, `trackingId` and `trackingType` start out `null`. */
  datatype Derived = Derived(size: Option<string>, hasVisual: bool, page: Value, trackingId: Value, trackingType: Value)

  /** The size a `Format_Pub` text names, markers tried in priority order. */
  function SizeOfFormat(format: string): Option<string> {
    var f := Lower(format);
    if Contains(f, "1/8") then Some("1/8")
    else if Contains(f, "1/4") then Some("1/4")
    else if Contains(f, "1/2") then Some("1/2")
    else if Contains(f, "page") || Contains(f, "entier") || Contains(f, "full") then Some("1/1")
    else None
  }

  /** The size stated by an insert record, when its `Format_Pub` is filled in. */
  function InsertSize(encart: Record): Option<string> {
    var format := Get(encart, "Format_Pub");
    if Truthy(format) then SizeOfFormat(ToStr(format)) else None
  }

  /** `if (r.Page_Brochure) dbPage = r.Page_Brochure` */
  function PageOr(r: Record, otherwise: Value): Value {
    if Truthy(Get(r, "Page_Brochure")) then Get(r, "Page_Brochure") else otherwise
  }

  /** The insert record is read first, then a partner record overrides it. */
  function Derive(encart: Option<Record>, partner: Option<Record>): Derived {
    var fromEncart :=
      match encart
      case None => Derived(None, false, Null, Null, Null)
      case Some(r) =>
        Derived(InsertSize(r), Truthy(Get(r, "Visuel_Envoye")), PageOr(r, Null), Get(r, "Id"), Str(Completion.EncartTab));
    match partner
    case None => fromEncart
    case Some(p) =>
      Derived(Some("1/2"), fromEncart.hasVisual || Truthy(Get(p, "Logo_Recu")), PageOr(p, fromEncart.page),
              Get(p, "Id"), Str(Completion.PartnerTab))
  }

  /** A visual is there when the insert record says it was sent or the partner
      record says the logo arrived; a partner record forces the half page and is
      the record page numbers are saved to; the database page is the partner
      record's when filled in, else the insert record's, else none. */
  lemma DeriveMeans(encart: Option<Record>, partner: Option<Record>)
    ensures var d := Derive(encart, partner);
      d.hasVisual <==>
        (encart.Some? && Truthy(Get(encart.value, "Visuel_Envoye"))) || (partner.Some? && Truthy(Get(partner.value, "Logo_Recu")))
    ensures var d := Derive(encart, partner);
      partner.Some? ==> d.size == Some("1/2") && d.trackingId == Get(partner.value, "Id") &&
                        d.trackingType == Str(Completion.PartnerTab)
    ensures var d := Derive(encart, partner);
      partner.None? && encart.Some? ==> d.size == InsertSize(encart.value) && d.trackingId == Get(encart.value, "Id") &&
                                        d.trackingType == Str(Completion.EncartTab)
    ensures partner.None? && encart.None? ==> Derive(encart, partner) == Derived(None, false, Null, Null, Null)
    ensures Derive(encart, partner).page ==
      if partner.Some? && Truthy(Get(partner.value, "Page_Brochure")) then Get(partner.value, "Page_Brochure")
      else if encart.Some? && Truthy(Get(encart.value, "Page_Brochure")) then Get(encart.value, "Page_Brochure")
      else Null
  {
  }

  /** The first marker found decides: "1/8" before "1/4" before "1/2" before the
      whole-page words. */
  lemma SizePriority(format: string)
    ensures Contains(Lower(format), "1/8") ==> SizeOfFormat(format) == Some("1/8")
    ensures SizeOfFormat(format) == Some("1/4") <==> !Contains(Lower(format), "1/8") && Contains(Lower(format), "1/4")
    ensures SizeOfFormat(format) == Some("1/2") <==>
      !Contains(Lower(format), "1/8") && !Contains(Lower(format), "1/4") && Contains(Lower(format), "1/2")
    ensures SizeOfFormat(format).None? <==>
      !Contains(Lower(format), "1/8") && !Contains(Lower(format), "1/4") && !Contains(Lower(format), "1/2") &&
      !Contains(Lower(format), "page") && !Contains(Lower(format), "entier") && !Contains(Lower(format), "full")
  {
    assert "1/8"[2] == '8' && "1/4"[2] == '4' && "1/2"[2] == '2' && "1/1"[2] == '1';
  }

  /** What the records give the entity with this key. */
  function DerivedAt(encarts: map<string, Record>, partners: map<string, Record>, key: string): Derived {
    Derive(Lookup(encarts, key), Lookup(partners, key))
  }

  /** `e._hasVisual = ...; e._trackingId = ...; e._trackingType = ...` */
  function Annotate(e: Entity, d: Derived): Entity {
    e["_hasVisual" := Bool(d.hasVisual)]["_trackingId" := d.trackingId]["_trackingType" := d.trackingType]
  }

  /** The three annotations are set and every other field is the entity's own. */
  lemma AnnotateMeans(e: Entity, d: Derived)
    ensures Get(Annotate(e, d), "_hasVisual") == Bool(d.hasVisual)
    ensures Get(Annotate(e, d), "_trackingId") == d.trackingId && Get(Annotate(e, d), "_trackingType") == d.trackingType
    ensures forall f :: f != "_hasVisual" && f != "_trackingId" && f != "_trackingType" ==> Get(Annotate(e, d), f) == Get(e, f)
  {
  }

  function Annotated(encarts: map<string, Record>, partners: map<string, Record>): Entity -> Entity {
    e => Annotate(e, DerivedAt(encarts, partners, KeyOf(e)))
  }

  // ----- the sync of size and page into the layout data -----

  /** The entry rewritten for one entity, `{ ...existingData, ...updates }`, or
      `None` when neither the size nor the page differs. */
  function SyncEntry(existing: Record, d: Derived): Option<Record> {
    var sizeUpdate := d.size.Some? && !StrictEq(Get(existing, "size"), Str(d.size.value));
    var pageUpdate := d.page != Null && d.page != Undefined && !StrictEq(Get(existing, "page"), Str(ToStr(d.page)));
    if !sizeUpdate && !pageUpdate then None
    else
      var withSize := if sizeUpdate then existing["size" := Str(d.size.value)] else existing;
      Some(if pageUpdate then withSize["page" := Str(ToStr(d.page))] else withSize)
  }

  /** The entry once the sync has run. */
  function After(existing: Record, d: Derived): Record {
    match SyncEntry(existing, d)
    case Some(r) => r
    case None => existing
  }

  /** The database page wins, written as a string; a derived size replaces the
      stored one; nothing else in the entry changes; and an entry is rewritten
      only when it differs. */
  lemma SyncMeans(existing: Record, d: Derived)
    ensures Get(After(existing, d), "page") ==
      if d.page != Null && d.page != Undefined then Str(ToStr(d.page)) else Get(existing, "page")
    ensures Get(After(existing, d), "size") == if d.size.Some? then Str(d.size.value) else Get(existing, "size")
    ensures forall f :: f != "size" && f != "page" ==> Get(After(existing, d), f) == Get(existing, f)
    ensures SyncEntry(existing, d).None? <==> After(existing, d) == existing
  {
    if SyncEntry(existing, d).Some? {
      var r := SyncEntry(existing, d).value;
      if d.size.Some? && !StrictEq(Get(existing, "size"), Str(d.size.value)) {
        assert Get(r, "size") != Get(existing, "size");
      } else {
        assert Get(r, "page") != Get(existing, "page");
      }
    }
  }

  /** A second sync with the same database facts changes nothing. */
  lemma SyncIdempotent(existing: Record, d: Derived)
    ensures SyncEntry(After(existing, d), d).None?
  {
    SyncMeans(existing, d);
  }

  /** `if (hasUpdate) newAdminDataUpdates[id] = ...` for one entity. */
  function UpdateOf(encarts: map<string, Record>, partners: map<string, Record>, admin: AdminData, e: Entity): Option<(string, Record)> {
    var key := KeyOf(e);
    match SyncEntry(Stored(admin, key), DerivedAt(encarts, partners, key))
    case Some(r) => Some((key, r))
    case None => None
  }

  function Updater(encarts: map<string, Record>, partners: map<string, Record>, admin: AdminData): Entity -> Option<(string, Record)> {
    e => UpdateOf(encarts, partners, admin, e)
  }

  lemma CollectStep(kept: seq<Entity>, i: nat, encarts: map<string, Record>, partners: map<string, Record>, admin: AdminData)
    requires i < |kept|
    ensures MapSeq(kept[..i + 1], Annotated(encarts, partners)) ==
            MapSeq(kept[..i], Annotated(encarts, partners)) + [Annotate(kept[i], DerivedAt(encarts, partners, KeyOf(kept[i])))]
    ensures KeyedBy(kept[..i + 1], Updater(encarts, partners, admin)) ==
            match SyncEntry(Stored(admin, KeyOf(kept[i])), DerivedAt(encarts, partners, KeyOf(kept[i])))
            case Some(r) => KeyedBy(kept[..i], Updater(encarts, partners, admin))[KeyOf(kept[i]) := r]
            case None => KeyedBy(kept[..i], Updater(encarts, partners, admin))
  {
    assert kept[..i + 1] == kept[..i] + [kept[i]];
    KeyedBySnoc(kept[..i], kept[i], Updater(encarts, partners, admin));
    MapSeqSnoc(kept[..i], kept[i], Annotated(encarts, partners));
  }

  /** The `forEach` over the kept entities: annotates each one and collects the
      rewritten entries. */
  method AnnotateAndCollect(kept: seq<Entity>, encarts: map<string, Record>, partners: map<string, Record>, admin: AdminData)
    returns (shown: seq<Entity>, updates: AdminData)
    ensures shown == MapSeq(kept, Annotated(encarts, partners))
    ensures updates == KeyedBy(kept, Updater(encarts, partners, admin))
  {
    shown := [];
    updates := map[];
    for i := 0 to |kept|
      invariant shown == MapSeq(kept[..i], Annotated(encarts, partners))
      invariant updates == KeyedBy(kept[..i], Updater(encarts, partners, admin))
    {
      var e := kept[i];
      CollectStep(kept, i, encarts, partners, admin);
      var id := KeyOf(e);
      var d := Derive(Lookup(encarts, id), Lookup(partners, id));
      shown := shown + [Annotate(e, d)];
      var existing := Stored(admin, id);
      var up := SyncEntry(existing, d);
      if up.Some? {
        updates := updates[id := up.value];
      }
    }
    assert kept[..|kept|] == kept;
  }

  /** `next = { ...prev }; for (const [id, up] of Object.entries(updates)) next[id] = up;` */
  method MergeUpdates(prev: AdminData, updates: AdminData) returns (next: AdminData)
    ensures next == prev + updates
  {
    next := prev;
    var rest := updates;
    while rest != map[]
      invariant next + rest == prev + updates
      decreases |rest.Keys|
    {
      var id :| id in rest;
      MergeStep(next, rest, id);
      next := next[id := rest[id]];
      rest := rest - {id};
    }
    MergeEmpty(next, rest);
  }

  /** The entities the brochure lists, before annotation. */
  function Kept(all: seq<Entity>, encartRecords: seq<Record>, partnerRecords: seq<Record>): seq<Entity> {
    Filter(all, InBrochure(Index(encartRecords), Index(partnerRecords)))
  }

  /** The layout data once the database facts are merged in. */
  function Synced(all: seq<Entity>, encartRecords: seq<Record>, partnerRecords: seq<Record>, admin: AdminData): AdminData {
    admin + KeyedBy(Kept(all, encartRecords, partnerRecords), Updater(Index(encartRecords), Index(partnerRecords), admin))
  }

  /** `loadData` after the three fetches: the entity list shown and the layout data. */
  method LoadData(all: seq<Entity>, partnerRecords: seq<Record>, encartRecords: seq<Record>, admin: AdminData)
    returns (shown: seq<Entity>, next: AdminData)
    ensures shown == MapSeq(Kept(all, encartRecords, partnerRecords), Annotated(Index(encartRecords), Index(partnerRecords)))
    ensures next == Synced(all, encartRecords, partnerRecords, admin)
  {
    var partners := BuildIndex(partnerRecords);
    var encarts := BuildIndex(encartRecords);
    var kept := Filter(all, InBrochure(encarts, partners));
    var updates;
    shown, updates := AnnotateAndCollect(kept, encarts, partners, admin);
    next := MergeUpdates(admin, updates);
  }

  /** The collected updates hold a kept entity's rewritten entry, and no
      entry for it when it needs none. */
  lemma UpdatesAgree(kept: seq<Entity>, encarts: map<string, Record>, partners: map<string, Record>, admin: AdminData, e: Entity)
    requires e in kept
    ensures var r := SyncEntry(Stored(admin, KeyOf(e)), DerivedAt(encarts, partners, KeyOf(e)));
            (r.Some? ==> KeyOf(e) in KeyedBy(kept, Updater(encarts, partners, admin)) &&
                         KeyedBy(kept, Updater(encarts, partners, admin))[KeyOf(e)] == r.value) &&
            (r.None? ==> KeyOf(e) !in KeyedBy(kept, Updater(encarts, partners, admin)))
  {
    var key := KeyOf(e);
    var f := Updater(encarts, partners, admin);
    var u := KeyedBy(kept, f);
    KeyedByMeans(kept, f, key);
    var i :| 0 <= i < |kept| && kept[i] == e;
    if SyncEntry(Stored(admin, key), DerivedAt(encarts, partners, key)).Some? {
      assert WritesKey(f, kept[i], key);
      var j :| 0 <= j < |kept| && f(kept[j]) == Some((key, u[key])) && forall m :: j < m < |kept| ==> !WritesKey(f, kept[m], key);
      assert KeyOf(kept[j]) == key;
    }
  }

  /** After the load, every kept entity's entry is its synced entry, whatever
      other entities share its id. */
  lemma SyncedEntry(kept: seq<Entity>, encarts: map<string, Record>, partners: map<string, Record>, admin: AdminData, e: Entity)
    requires e in kept
    ensures Stored(admin + KeyedBy(kept, Updater(encarts, partners, admin)), KeyOf(e)) ==
            After(Stored(admin, KeyOf(e)), DerivedAt(encarts, partners, KeyOf(e)))
  {
    UpdatesAgree(kept, encarts, partners, admin, e);
  }

  /** Entries of ids no kept entity has are left as they were. */
  lemma SyncedOthers(kept: seq<Entity>, encarts: map<string, Record>, partners: map<string, Record>, admin: AdminData, key: string)
    requires forall i :: 0 <= i < |kept| ==> KeyOf(kept[i]) != key
    ensures key in admin + KeyedBy(kept, Updater(encarts, partners, admin)) <==> key in admin
    ensures Stored(admin + KeyedBy(kept, Updater(encarts, partners, admin)), key) == Stored(admin, key)
  {
    var f := Updater(encarts, partners, admin);
    forall i | 0 <= i < |kept|
      ensures !WritesKey(f, kept[i], key)
    {
    }
    KeyedByUnwritten(kept, f, key);
  }

  /** The load as a whole: a kept entity's stored page becomes the database
      page, as a string, when the database has one; its size becomes the derived
      size when there is one; its other layout fields are kept. */
  lemma LoadedEntry(all: seq<Entity>, encartRecords: seq<Record>, partnerRecords: seq<Record>, admin: AdminData, e: Entity)
    requires e in Kept(all, encartRecords, partnerRecords)
    ensures var d := DerivedAt(Index(encartRecords), Index(partnerRecords), KeyOf(e));
            var entry := Stored(Synced(all, encartRecords, partnerRecords, admin), KeyOf(e));
            Get(entry, "page") == (if d.page != Null && d.page != Undefined then Str(ToStr(d.page)) else Get(Stored(admin, KeyOf(e)), "page")) &&
            Get(entry, "size") == (if d.size.Some? then Str(d.size.value) else Get(Stored(admin, KeyOf(e)), "size")) &&
            forall f :: f != "size" && f != "page" ==> Get(entry, f) == Get(Stored(admin, KeyOf(e)), f)
  {
    var encarts := Index(encartRecords);
    var partners := Index(partnerRecords);
    SyncedEntry(Kept(all, encartRecords, partnerRecords), encarts, partners, admin, e);
    SyncMeans(Stored(admin, KeyOf(e)), DerivedAt(encarts, partners, KeyOf(e)));
  }
}
