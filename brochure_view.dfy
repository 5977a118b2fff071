/** The brochure-layout page, display: the three-bucket order of the list, the
    counters above it, the per-size statistics, saving a typed page number to
    the tracking record, editing the layout data, the image file name and the
    HTML snippet pasted into the brochure. */
module BrochureView {

  import opened Wrappers
  import opened Text
  import opened JsValues
  import opened Collections
  import opened Sorting
  import opened Domain
  import Forms
  import Completion
  import opened BrochureLoad

  // ----- buckets and order -----

  /** `data.page && data.page.trim() !== ''` */
  predicate PageSet(data: Record) {
    Truthy(Get(data, "page")) && !IsBlank(ToStr(Get(data, "page")))
  }

  function HasPage(admin: AdminData): Entity -> bool {
    e => PageSet(Stored(admin, KeyOf(e)))
  }

  function HasVisual(e: Entity): bool {
    Truthy(Get(e, "_hasVisual"))
  }

  /** No page yet, visual received: ready to place. */
  function IsReady(admin: AdminData): Entity -> bool {
    Both(Not(HasPage(admin)), HasVisual)
  }

  /** No page yet, visual still missing. */
  function IsMissing(admin: AdminData): Entity -> bool {
    Both(Not(HasPage(admin)), Not(HasVisual))
  }

  /** `getScore`: 0 ready, 1 missing, 2 placed. */
  function Score(admin: AdminData, e: Entity): int {
    if HasPage(admin)(e) then 2 else if HasVisual(e) then 0 else 1
  }

  /** `(e.title || "").toLowerCase()`, compared code unit by code unit. */
  function TitleCodes(e: Entity): seq<int> {
    CharCodes(Lower(ToStr(Or(Get(e, "title"), Str("")))))
  }

  function OrderKey(admin: AdminData): Entity -> seq<int> {
    e => [Score(admin, e)] + TitleCodes(e)
  }

  /** `sortedEntities` */
  function Ordered(entities: seq<Entity>, admin: AdminData): seq<Entity> {
    SortBy(entities, OrderKey(admin))
  }

  /** Each entity falls in exactly the bucket its score names. */
  lemma ScoreBuckets(admin: AdminData, e: Entity)
    ensures Score(admin, e) == 0 <==> IsReady(admin)(e)
    ensures Score(admin, e) == 1 <==> IsMissing(admin)(e)
    ensures Score(admin, e) == 2 <==> HasPage(admin)(e)
  {
  }

  /** The sorted list is a permutation of the list; ready entities come first,
      then those missing a visual, then the placed ones; within a bucket the
      lower-cased titles ascend. */
  lemma OrderedBuckets(entities: seq<Entity>, admin: AdminData)
    ensures multiset(Ordered(entities, admin)) == multiset(entities)
    ensures forall i, j :: 0 <= i < j < |Ordered(entities, admin)| ==>
      Score(admin, Ordered(entities, admin)[i]) <= Score(admin, Ordered(entities, admin)[j])
    ensures forall i, j ::
      (0 <= i < j < |Ordered(entities, admin)| && Score(admin, Ordered(entities, admin)[i]) == Score(admin, Ordered(entities, admin)[j]))
      ==> LexLeq(TitleCodes(Ordered(entities, admin)[i]), TitleCodes(Ordered(entities, admin)[j]))
  {
    var r := Ordered(entities, admin);
    var key := OrderKey(admin);
    SortBySorted(entities, key);
    forall i, j | 0 <= i < j < |r|
      ensures Score(admin, r[i]) <= Score(admin, r[j])
      ensures Score(admin, r[i]) == Score(admin, r[j]) ==> LexLeq(TitleCodes(r[i]), TitleCodes(r[j]))
    {
      assert LexLeq(key(r[i]), key(r[j]));
      assert key(r[i])[0] == Score(admin, r[i]) && key(r[i])[1..] == TitleCodes(r[i]);
      assert key(r[j])[0] == Score(admin, r[j]) && key(r[j])[1..] == TitleCodes(r[j]);
    }
  }

  // ----- the counters -----

  /** `validated`, `ready` and `missing` partition the list: they add up to `total`. */
  lemma MetricsAddUp(entities: seq<Entity>, admin: AdminData)
    ensures Count(entities, HasPage(admin)) + Count(entities, IsReady(admin)) + Count(entities, IsMissing(admin)) == |entities|
  {
    CountSplit(entities, HasPage(admin), Not(HasPage(admin)));
    CountSplitBy(entities, Not(HasPage(admin)), HasVisual);
  }

  // ----- the per-size statistics -----

  const KnownSizes: set<string> := {"1/8", "1/4", "1/2", "1/1"}

  /** `data.size || "1/4"` */
  function SizeOf(admin: AdminData, e: Entity): (r: Value)
    ensures Truthy(r)
    ensures !Truthy(Get(Stored(admin, KeyOf(e)), "size")) ==> r == Str("1/4")
  {
    Or(Get(Stored(admin, KeyOf(e)), "size"), Str("1/4"))
  }

  /** `stats[size]` reaches the counter of this size. */
  function SizedAs(admin: AdminData, size: string): Entity -> bool {
    e => ToStr(SizeOf(admin, e)) == size
  }

  datatype SizeStats = SizeStats(total: nat, validated: nat)

  /** `stats[size].total++; if (isValidated) stats[size].validated++;` */
  function Bumped(t: SizeStats, validated: bool): SizeStats {
    SizeStats(t.total + 1, if validated then t.validated + 1 else t.validated)
  }

  /** The counter of one size after the entities seen so far. */
  function StatsOf(seen: seq<Entity>, admin: AdminData, size: string): SizeStats
    decreases |seen|
  {
    if seen == [] then SizeStats(0, 0)
    else
      var prev := StatsOf(seen[..|seen| - 1], admin, size);
      var e := seen[|seen| - 1];
      if SizedAs(admin, size)(e) then Bumped(prev, HasPage(admin)(e)) else prev
  }

  lemma CountSnoc<T>(s: seq<T>, x: T, p: T -> bool)
    ensures Count(s + [x], p) == Count(s, p) + if p(x) then 1 else 0
  {
    FilterSnoc(s, x, p);
  }

  /** A size's counter holds the number of entities of that size, and the
      number of those that are placed. */
  lemma {:induction false} StatsCount(seen: seq<Entity>, admin: AdminData, size: string)
    ensures StatsOf(seen, admin, size).total == Count(seen, SizedAs(admin, size))
    ensures StatsOf(seen, admin, size).validated == Count(seen, Both(SizedAs(admin, size), HasPage(admin)))
    decreases |seen|
  {
    if seen != [] {
      var init := seen[..|seen| - 1];
      var e := seen[|seen| - 1];
      StatsCount(init, admin, size);
      assert seen == init + [e];
      CountSnoc(init, e, SizedAs(admin, size));
      CountSnoc(init, e, Both(SizedAs(admin, size), HasPage(admin)));
    }
  }

  /** Every counter holds the statistics of the entities seen so far. */
  predicate Tallies(stats: map<string, SizeStats>, seen: seq<Entity>, admin: AdminData) {
    forall size :: size in stats ==> stats[size] == StatsOf(seen, admin, size)
  }

  /** One turn of the `forEach` keeps every counter up to date. */
  lemma TallyStep(entities: seq<Entity>, i: nat, admin: AdminData, stats: map<string, SizeStats>, next: map<string, SizeStats>)
    requires i < |entities| && Tallies(stats, entities[..i], admin)
    requires var size := ToStr(SizeOf(admin, entities[i]));
      next == if size in stats then stats[size := Bumped(stats[size], HasPage(admin)(entities[i]))] else stats
    ensures Tallies(next, entities[..i + 1], admin)
  {
    assert entities[..i + 1][..i] == entities[..i];
  }

  /** The `forEach` that fills `stats`: for each of the four sizes, the number
      of listed entities of that size and how many of them are placed. */
  method ComputeStats(entities: seq<Entity>, admin: AdminData) returns (stats: map<string, SizeStats>)
    ensures stats.Keys == KnownSizes
    ensures Tallies(stats, entities, admin)
  {
    stats := map["1/8" := SizeStats(0, 0), "1/4" := SizeStats(0, 0), "1/2" := SizeStats(0, 0), "1/1" := SizeStats(0, 0)];
    for i := 0 to |entities|
      invariant stats.Keys == KnownSizes
      invariant Tallies(stats, entities[..i], admin)
    {
      var e := entities[i];
      var size := ToStr(SizeOf(admin, e));
      var isValidated := PageSet(Stored(admin, KeyOf(e)));
      assert isValidated == HasPage(admin)(e);
      var next := stats;
      if size in stats {
        next := stats[size := Bumped(stats[size], isValidated)];
      }
      TallyStep(entities, i, admin, stats, next);
      stats := next;
    }
    assert entities[..|entities|] == entities;
  }

  /** The brochure space a size takes, in eighths of a page. */
  function Eighths(size: string): nat {
    if size == "1/8" then 1 else if size == "1/4" then 2 else if size == "1/2" then 4 else if size == "1/1" then 8 else 0
  }

  /** `totalPagesEquivalent`, times eight. */
  function PagesInEighths(stats: map<string, SizeStats>): int
    requires KnownSizes <= stats.Keys
  {
    stats["1/8"].total + 2 * stats["1/4"].total + 4 * stats["1/2"].total + 8 * stats["1/1"].total
  }

  function EighthsOf(admin: AdminData): Entity -> int {
    e => Eighths(ToStr(SizeOf(admin, e)))
  }

  lemma CountCons<T>(s: seq<T>, p: T -> bool)
    requires s != []
    ensures Count(s, p) == (if p(s[0]) then 1 else 0) + Count(s[1..], p)
  {
  }

  lemma EighthsBySize(size: string)
    ensures Eighths(size) == (if size == "1/8" then 1 else 0) + 2 * (if size == "1/4" then 1 else 0) +
                             4 * (if size == "1/2" then 1 else 0) + 8 * (if size == "1/1" then 1 else 0)
  {
    assert "1/8"[2] == '8' && "1/4"[2] == '4' && "1/2"[2] == '2' && "1/1"[2] == '1';
  }

  /** The page equivalent of the statistics is the space of every listed
      entity added up; an entity of an unknown size takes none. */
  lemma {:induction false} PagesEquivalent(entities: seq<Entity>, admin: AdminData)
    ensures Count(entities, SizedAs(admin, "1/8")) + 2 * Count(entities, SizedAs(admin, "1/4")) +
            4 * Count(entities, SizedAs(admin, "1/2")) + 8 * Count(entities, SizedAs(admin, "1/1")) ==
            SumBy(entities, EighthsOf(admin))
    decreases |entities|
  {
    if entities != [] {
      PagesEquivalent(entities[1..], admin);
      CountCons(entities, SizedAs(admin, "1/8"));
      CountCons(entities, SizedAs(admin, "1/4"));
      CountCons(entities, SizedAs(admin, "1/2"));
      CountCons(entities, SizedAs(admin, "1/1"));
      EighthsBySize(ToStr(SizeOf(admin, entities[0])));
    }
  }

  /** The page equivalent computed from the filled counters is the space of
      every listed entity added up. */
  lemma PagesOfStats(stats: map<string, SizeStats>, entities: seq<Entity>, admin: AdminData)
    requires stats.Keys == KnownSizes && Tallies(stats, entities, admin)
    ensures PagesInEighths(stats) == SumBy(entities, EighthsOf(admin))
  {
    StatsCount(entities, admin, "1/8");
    StatsCount(entities, admin, "1/4");
    StatsCount(entities, admin, "1/2");
    StatsCount(entities, admin, "1/1");
    PagesEquivalent(entities, admin);
  }

  // ----- saving a page number -----

  /** `updateTrackingRecord(type, id, { Page_Brochure: num })` */
  datatype PageSave = PageSave(category: Value, id: Value, fields: Record)

  /** `value === '' || value === null || value === undefined` */
  predicate Cleared(value: Value) {
    value == Str("") || value == Null || value == Undefined
  }

  /** `handlePageSave`: the request sent, if any. */
  function PageSaveRequest(entity: Entity, value: Value): Option<PageSave> {
    var category := Get(entity, "_trackingType");
    var id := Get(entity, "_trackingId");
    if !Truthy(category) || !Truthy(id) then None
    else if Cleared(value) then Some(PageSave(category, id, map["Page_Brochure" := Null]))
    else
      match ParseIntPrefix(ToStr(value))
      case None => None
      case Some(n) => Some(PageSave(category, id, map["Page_Brochure" := Num(n)]))
  }

  /** A request only ever sets the page of the entity's own tracking record;
      without a tracking record nothing is sent. */
  lemma PageSaveTarget(entity: Entity, value: Value)
    ensures !Truthy(Get(entity, "_trackingType")) || !Truthy(Get(entity, "_trackingId")) ==>
      PageSaveRequest(entity, value).None?
    ensures PageSaveRequest(entity, value).Some? ==>
      PageSaveRequest(entity, value).value.category == Get(entity, "_trackingType") &&
      PageSaveRequest(entity, value).value.id == Get(entity, "_trackingId") &&
      PageSaveRequest(entity, value).value.fields.Keys == {"Page_Brochure"}
  {
  }

  /** With a tracking record: an empty value clears the page; a value `parseInt`
      cannot read is not saved; anything else is saved as the number it starts with. */
  lemma PageSaveValue(entity: Entity, value: Value)
    requires Truthy(Get(entity, "_trackingType")) && Truthy(Get(entity, "_trackingId"))
    ensures Cleared(value) ==>
      PageSaveRequest(entity, value).Some? && PageSaveRequest(entity, value).value.fields["Page_Brochure"] == Null
    ensures !Cleared(value) ==>
      match ParseIntPrefix(ToStr(value))
      case None => PageSaveRequest(entity, value).None?
      case Some(n) => PageSaveRequest(entity, value).Some? && PageSaveRequest(entity, value).value.fields["Page_Brochure"] == Num(n)
  {
  }

  /** A page number typed in decimal is saved as that number, and the next load
      writes back the very text that was typed. */
  lemma PageRoundTrip(entity: Entity, n: nat)
    requires Truthy(Get(entity, "_trackingType")) && Truthy(Get(entity, "_trackingId"))
    ensures PageSaveRequest(entity, Str(NatToString(n))) ==
      Some(PageSave(Get(entity, "_trackingType"), Get(entity, "_trackingId"), map["Page_Brochure" := Num(n)]))
    ensures ToStr(Num(n)) == NatToString(n)
  {
    ParseIntOfRendering(n);
    assert !Cleared(Str(NatToString(n))) by {
      assert |NatToString(n)| >= 1;
    }
  }

  /** An entity with neither an insert nor a partner record has no tracking
      record, so no page number of it is ever saved. */
  lemma UntrackedNeverSaved(e: Entity, value: Value)
    ensures PageSaveRequest(Annotate(e, Derive(None, None)), value).None?
  {
    AnnotateMeans(e, Derive(None, None));
  }

  /** A kept entity with a partner record saves its page to that partner record. */
  lemma PartnerReceivesPage(e: Entity, encart: Option<Record>, partner: Record, value: Value)
    requires Truthy(Get(partner, "Id"))
    requires PageSaveRequest(Annotate(e, Derive(encart, Some(partner))), value).Some?
    ensures PageSaveRequest(Annotate(e, Derive(encart, Some(partner))), value).value.category == Str(Completion.PartnerTab)
    ensures PageSaveRequest(Annotate(e, Derive(encart, Some(partner))), value).value.id == Get(partner, "Id")
  {
    DeriveMeans(encart, Some(partner));
    AnnotateMeans(e, Derive(encart, Some(partner)));
    PageSaveTarget(Annotate(e, Derive(encart, Some(partner))), value);
  }

  // ----- editing the layout data -----

  /** `handleDataChange`: `{ ...prev, [id]: { ...prev[id], [field]: value } }` */
  function DataChange(admin: AdminData, key: string, field: string, value: string): (r: AdminData)
    ensures key in r && Get(r[key], field) == Str(value)
    ensures forall f :: f != field ==> Get(r[key], f) == Get(Stored(admin, key), f)
    ensures forall k :: k != key ==> (k in r <==> k in admin) && Stored(r, k) == Stored(admin, k)
  {
    admin[key := Forms.Change(Stored(admin, key), field, value)]
  }

  // ----- the image file name -----

  /** The characters a slug keeps. */
  predicate SafeChar(c: char) {
    'a' <= c <= 'z' || '0' <= c <= '9' || c == '-'
  }

  predicate AllSafe(s: string) {
    forall i :: 0 <= i < |s| ==> SafeChar(s[i])
  }

  /** `.replace(/\s+/g, '-')`: each maximal run of white space becomes one dash. */
  function DashRuns(s: string): (r: string)
    ensures forall i :: 0 <= i < |r| ==> !IsSpace(r[i])
    decreases |s|
  {
    if s == [] then []
    else if IsSpace(s[0]) then "-" + DashRuns(TrimStart(s[1..]))
    else [s[0]] + DashRuns(s[1..])
  }

  /** `.toLowerCase().replace(/\s+/g, '-').replace(/[^a-z0-9-]/g, '')` */
  function Slug(s: string): (r: string)
    ensures AllSafe(r)
  {
    Filter(DashRuns(Lower(s)), SafeChar)
  }

  lemma {:induction false} DashRunsOfSafe(s: string)
    requires AllSafe(s)
    ensures DashRuns(s) == s
    decreases |s|
  {
    if s != [] {
      assert SafeChar(s[0]);
      assert !IsSpace(s[0]);
      DashRunsOfSafe(s[1..]);
      assert s == [s[0]] + s[1..];
    }
  }

  /** A string already made of slug characters is its own slug. */
  lemma SlugOfSafe(s: string)
    requires AllSafe(s)
    ensures Slug(s) == s
  {
    assert Lower(s) == s by {
      forall i | 0 <= i < |s|
        ensures Lower(s)[i] == s[i]
      {
        assert SafeChar(s[i]);
      }
    }
    DashRunsOfSafe(s);
    FilterAllPass(s, SafeChar);
  }

  /** Slugging twice is slugging once. */
  lemma SlugIdempotent(s: string)
    ensures Slug(Slug(s)) == Slug(s)
  {
    SlugOfSafe(Slug(s));
  }

  const Untitled: string := "sans-titre"

  /** `generateFilename(entity, entity.Id)`: the custom name when one is set,
      verbatim; otherwise the slug of the title, "sans-titre" for an entity
      without a title. */
  function Filename(admin: AdminData, e: Entity): (r: string)
    ensures Truthy(Get(Stored(admin, KeyOf(e)), "customFilename")) ==>
      r == ToStr(Get(Stored(admin, KeyOf(e)), "customFilename"))
    ensures !Truthy(Get(Stored(admin, KeyOf(e)), "customFilename")) ==> AllSafe(r)
    ensures !Truthy(Get(Stored(admin, KeyOf(e)), "customFilename")) && !Truthy(Get(e, "title")) ==> r == Untitled
  {
    var custom := Get(Stored(admin, KeyOf(e)), "customFilename");
    if Truthy(custom) then ToStr(custom)
    else
      var name := Or(Get(e, "title"), Str(Untitled));
      assert AllSafe(Untitled) by {
        assert Untitled == ['s', 'a', 'n', 's', '-', 't', 'i', 't', 'r', 'e'];
      }
      SlugOfSafe(Untitled);
      Slug(ToStr(name))
  }

  // ----- the HTML snippet -----

  const UnknownFormat: string := "<!-- Format inconnu -->"
  const EmptySlot: string := "<!-- <div class=\"ad-slot w-half\">...</div> -->"
  const FullPageStyle: string := " style=\"width:100%; height:100%; object-fit:cover;\""

  /** Where the snippet expects the image file. */
  function ImagePath(folder: string, file: string, extension: string): string {
    "pub/" + folder + "/" + file + extension
  }

  const DivClass: string := "<div class=\""

  /** The markup of a template before the image path; every template opens a `div`. */
  function Opening(size: Value, position: Value): string {
    DivClass +
      if StrictEq(size, Str("1/1")) then "ad-page\">\n  <img src=\""
      else if StrictEq(size, Str("1/8")) && StrictEq(position, Str("left")) then
        "ad-row-1-4\">\n  <div class=\"ad-slot w-half\"><img src=\""
      else if StrictEq(size, Str("1/8")) then
        "ad-row-1-4\">\n  " + EmptySlot + "\n  <div class=\"ad-slot w-half\"><img src=\""
      else if StrictEq(size, Str("1/4")) then "ad-row-1-4\">\n  <div class=\"ad-slot w-full\"><img src=\""
      else "ad-row-1-2\">\n  <div class=\"ad-slot w-full\"><img src=\""
  }

  /** The markup of a template after the image path. */
  function Closing(size: Value, position: Value, title: string): string {
    if StrictEq(size, Str("1/1")) then "\" alt=\"" + title + "\"" + FullPageStyle + " />\n</div>"
    else if StrictEq(size, Str("1/8")) && StrictEq(position, Str("left")) then
      "\" alt=\"" + title + "\" /></div>\n  " + EmptySlot + "\n</div>"
    else "\" alt=\"" + title + "\" /></div>\n</div>"
  }

  /** The image folder of each known size. */
  function Folder(size: Value): Option<string> {
    if StrictEq(size, Str("1/1")) then Some("1")
    else if StrictEq(size, Str("1/8")) then Some("0.125")
    else if StrictEq(size, Str("1/4")) then Some("0.25")
    else if StrictEq(size, Str("1/2")) then Some("0.5")
    else None
  }

  function Extension(admin: AdminData, e: Entity): string {
    ToStr(Or(Get(Stored(admin, KeyOf(e)), "extension"), Str(".jpg")))
  }

  function AltText(e: Entity): string {
    ToStr(Or(Get(e, "title"), Str("Publicité")))
  }

  /** The template of a size, filled in. */
  function Snippet(size: Value, position: Value, file: string, extension: string, title: string): string {
    match Folder(size)
    case None => UnknownFormat
    case Some(folder) => Opening(size, position) + ImagePath(folder, file, extension) + Closing(size, position, title)
  }

  /** `generateCode`: the layout data's size (a quarter page by default) and
      position (left by default) choose the template. */
  function Code(admin: AdminData, e: Entity): string {
    Snippet(SizeOf(admin, e), Or(Get(Stored(admin, KeyOf(e)), "position"), Str("left")),
            Filename(admin, e), Extension(admin, e), AltText(e))
  }

  /** A known size gives a snippet showing the image from that size's folder. */
  lemma SnippetShowsImage(size: Value, position: Value, file: string, extension: string, title: string)
    requires Folder(size).Some?
    ensures Contains(Snippet(size, position, file, extension, title), ImagePath(Folder(size).value, file, extension))
  {
    ContainsSelf(Opening(size, position), ImagePath(Folder(size).value, file, extension), Closing(size, position, title));
  }

  /** Only a size that is none of the four gives the unknown-format comment. */
  lemma SnippetUnknown(size: Value, position: Value, file: string, extension: string, title: string)
    ensures Snippet(size, position, file, extension, title) == UnknownFormat <==> Folder(size).None?
  {
    if Folder(size).Some? {
      assert DivClass[1] == 'd' && UnknownFormat[1] == '!';
      assert Snippet(size, position, file, extension, title)[1] == DivClass[1];
    }
  }

  /** The snippet shows the entity's image file from the folder of its size,
      or is the unknown-format comment when the size is none of the four. */
  lemma CodeShowsImage(admin: AdminData, e: Entity)
    ensures Folder(SizeOf(admin, e)).Some? ==>
      Contains(Code(admin, e), ImagePath(Folder(SizeOf(admin, e)).value, Filename(admin, e), Extension(admin, e)))
    ensures Code(admin, e) == UnknownFormat <==> Folder(SizeOf(admin, e)).None?
  {
    var size := SizeOf(admin, e);
    var position := Or(Get(Stored(admin, KeyOf(e)), "position"), Str("left"));
    if Folder(size).Some? {
      SnippetShowsImage(size, position, Filename(admin, e), Extension(admin, e), AltText(e));
    }
    SnippetUnknown(size, position, Filename(admin, e), Extension(admin, e), AltText(e));
  }

  /** With no layout data stored, the snippet is the quarter-page template,
      image on the left, with a ".jpg" file. */
  lemma CodeDefaults(admin: AdminData, e: Entity)
    requires KeyOf(e) !in admin
    ensures Code(admin, e) == Snippet(Str("1/4"), Str("left"), Filename(admin, e), ".jpg", AltText(e))
  {
  }
}
