/** The financial report: three sections built from the signed entities, the
    first two adding up to the report's total, the raffle prizes listed apart. */
module Bilan {

  import opened Wrappers
  import opened JsValues
  import opened Collections
  import opened Sorting
  import opened Domain
  import opened Completion
  import opened Text

  /** The categories are the progress page's tabs, plus these two. */
  const Grant: string := "Subvention"
  const Raffle: string := "Tombola"

  /** The tracking rows the page loaded, by category; a category it did not
      load reads as no rows at all. */
  type Loaded = map<string, seq<Record>>

  /** `trackingData[type] || []` */
  function RowsOf(data: Loaded, category: Value): seq<Record> {
    if category.Str? && category.s in data then data[category.s] else []
  }

  /** `getTrackingInfo` */
  function TrackingInfo(data: Loaded, category: Value, entityId: Value): (r: Option<Record>)
    ensures r.Some? <==> exists i :: 0 <= i < |RowsOf(data, category)| && LinksTo(RowsOf(data, category)[i], entityId)
  {
    TrackingRecord(RowsOf(data, category), entityId)
  }

  /** `section1Types.includes(e.Type) && validStatuses.includes(e.Statuts)` */
  predicate InSection1(e: Entity) {
    (HasType(e, EncartTab) || HasType(e, PartnerTab) || HasType(e, MecenatTab) || HasType(e, StandTab)) && IsSigned(e)
  }

  /** `e.Type === 'Subvention' && validStatuses.includes(e.Statuts)` */
  predicate InSection2(e: Entity) {
    HasType(e, Grant) && IsSigned(e)
  }

  /** The raffle entities with a valid status. */
  predicate InSection3(e: Entity) {
    (HasType(e, Raffle) || HasType(e, TombolaTab)) && IsSigned(e)
  }

  /** An entity of the first section with its label and its amount. */
  datatype Line = Line(entity: Entity, displayType: string, amount: int)

  /** The type, with the ad format or the chosen pack in brackets when the
      tracking record gives one. */
  function DisplayType(e: Entity, track: Option<Record>): string {
    var details := ToStr(Get(e, "Type"));
    if HasType(e, EncartTab) && Truthy(Field(track, "Format_Pub")) then
      details + " (" + ToStr(Field(track, "Format_Pub")) + ")"
    else if HasType(e, PartnerTab) && Truthy(Field(track, "Pack_Choisi")) then
      details + " (" + ToStr(Field(track, "Pack_Choisi")) + ")"
    else details
  }

  function LineOf(data: Loaded): Entity -> Line {
    e => Line(e, DisplayType(e, TrackingInfo(data, Get(e, "Type"), Get(e, "Id"))), Amount(e))
  }

  /** The comparator `b.Montant - a.Montant` as a key. */
  function AmountKey(l: Line): seq<int> {
    [-l.amount]
  }

  function LineAmount(l: Line): int {
    l.amount
  }

  /** `itemsSection1` */
  function Section1(entities: seq<Entity>, data: Loaded): seq<Line> {
    SortBy(MapSeq(Filter(entities, InSection1), LineOf(data)), AmountKey)
  }

  function Total1(entities: seq<Entity>, data: Loaded): int {
    SumBy(Section1(entities, data), LineAmount)
  }

  /** An entity of the second section with its amount. */
  datatype Subsidy = Subsidy(entity: Entity, amount: int)

  function SubsidyOf(e: Entity): Subsidy {
    Subsidy(e, Amount(e))
  }

  function SubsidyAmount(g: Subsidy): int {
    g.amount
  }

  /** `itemsSection2`, in the order of the list. */
  function Section2(entities: seq<Entity>): seq<Subsidy> {
    MapSeq(Filter(entities, InSection2), SubsidyOf)
  }

  function Total2(entities: seq<Entity>): int {
    SumBy(Section2(entities), SubsidyAmount)
  }

  /** A prize of the third section. */
  datatype Prize = Prize(entity: Entity, description: Value, quantity: Value, value: int)

  function PrizeOf(data: Loaded): Entity -> Prize {
    e =>
      var track := TrackingInfo(data, Str(TombolaTab), Get(e, "Id"));
      Prize(e, Or(Field(track, "Description_Lot"), Str("N/A")), Or(Field(track, "Nb_Lot"), Num(1)), Amount(e))
  }

  /** `itemsSection3`, in the order of the list. */
  function Section3(entities: seq<Entity>, data: Loaded): seq<Prize> {
    MapSeq(Filter(entities, InSection3), PrizeOf(data))
  }

  /** `parseInt(i.Nombre || 0)` for one prize; `None` stands for NaN. */
  function LotCount(p: Prize): Option<int> {
    ParseIntPrefix(ToStr(Or(p.quantity, Num(0))))
  }

  /** The `reduce` that adds up the lot counts: one NaN makes the sum NaN. */
  function SumCounts(counts: seq<Option<int>>): (r: Option<int>)
    ensures r.Some? <==> forall i :: 0 <= i < |counts| ==> counts[i].Some?
    decreases |counts|
  {
    if counts == [] then Some(0)
    else
      var rest := SumCounts(counts[1..]);
      assert forall i :: 1 <= i < |counts| ==> counts[i] == counts[1..][i - 1];
      if counts[0].Some? && rest.Some? then Some(counts[0].value + rest.value) else None
  }

  /** "Nombre Total Lots", the third section's only total. */
  function TotalLots(entities: seq<Entity>, data: Loaded): (r: Option<int>)
    ensures r.Some? <==> forall p :: p in Section3(entities, data) ==> LotCount(p).Some?
  {
    var prizes := Section3(entities, data);
    var counts := MapSeq(prizes, LotCount);
    assert forall p :: p in prizes <==> exists i :: 0 <= i < |prizes| && prizes[i] == p;
    SumCounts(counts)
  }

  /** A prize's count when it is a number, and 0 otherwise. */
  function Quantity(p: Prize): int {
    if p.quantity.Num? then p.quantity.n else 0
  }

  /** A numeric count is read back as itself. */
  lemma LotCountOfNumber(p: Prize)
    requires p.quantity.Num?
    ensures LotCount(p) == Some(p.quantity.n)
  {
    var q := p.quantity;
    assert Or(q, Num(0)) == q || q == Num(0);
    ParseIntOfIntRendering(q.n);
  }

  /** Counts that are all numbers add up to their sum. */
  lemma {:induction false} SumCountsOfNumbers(prizes: seq<Prize>, counts: seq<Option<int>>)
    requires |counts| == |prizes|
    requires forall i :: 0 <= i < |prizes| ==> counts[i] == Some(Quantity(prizes[i]))
    ensures SumCounts(counts) == Some(SumBy(prizes, Quantity))
    decreases |prizes|
  {
    if prizes != [] {
      SumCountsOfNumbers(prizes[1..], counts[1..]);
    }
  }

  /** When every count is a number, the lot total is their sum. */
  lemma TotalLotsOfNumbers(entities: seq<Entity>, data: Loaded)
    requires forall p :: p in Section3(entities, data) ==> p.quantity.Num?
    ensures TotalLots(entities, data) == Some(SumBy(Section3(entities, data), Quantity))
  {
    var prizes := Section3(entities, data);
    var counts := MapSeq(prizes, LotCount);
    forall i | 0 <= i < |prizes|
      ensures counts[i] == Some(Quantity(prizes[i]))
    {
      assert prizes[i] in prizes;
      LotCountOfNumber(prizes[i]);
    }
    SumCountsOfNumbers(prizes, counts);
  }

  /** Without raffle tracking rows, every prize counts as one lot, so the lot
      total is the number of signed raffle entities. */
  lemma TotalLotsWithoutRows(entities: seq<Entity>, data: Loaded)
    requires RowsOf(data, Str(TombolaTab)) == []
    ensures TotalLots(entities, data) == Some(Count(entities, InSection3))
  {
    var prizes := Section3(entities, data);
    var signed := Filter(entities, InSection3);
    forall i | 0 <= i < |prizes|
      ensures prizes[i].quantity == Num(1)
    {
      assert prizes[i] == PrizeOf(data)(signed[i]);
      PrizeDefaults(data, signed[i]);
    }
    TotalLotsOfNumbers(entities, data);
    SumOfOnes(prizes);
  }

  lemma {:induction false} SumOfOnes(prizes: seq<Prize>)
    requires forall i :: 0 <= i < |prizes| ==> prizes[i].quantity == Num(1)
    ensures SumBy(prizes, Quantity) == |prizes|
    decreases |prizes|
  {
    if prizes != [] {
      assert forall i :: 0 <= i < |prizes[1..]| ==> prizes[1..][i] == prizes[i + 1];
      SumOfOnes(prizes[1..]);
    }
  }

  /** The figure at the bottom of the page. */
  function GrandTotal(entities: seq<Entity>, data: Loaded): int {
    Total1(entities, data) + Total2(entities)
  }

  lemma {:induction false} LineSums(s: seq<Entity>, data: Loaded)
    ensures SumBy(MapSeq(s, LineOf(data)), LineAmount) == SumBy(s, Amount)
    decreases |s|
  {
    if s != [] {
      LineSums(s[1..], data);
      assert MapSeq(s, LineOf(data))[1..] == MapSeq(s[1..], LineOf(data));
    }
  }

  lemma {:induction false} SubsidySums(s: seq<Entity>)
    ensures SumBy(MapSeq(s, SubsidyOf), SubsidyAmount) == SumBy(s, Amount)
    decreases |s|
  {
    if s != [] {
      SubsidySums(s[1..]);
      assert MapSeq(s, SubsidyOf)[1..] == MapSeq(s[1..], SubsidyOf);
    }
  }

  /** The first section lists exactly the signed advertisers, partners,
      sponsors and stand holders, each once with its parsed amount. */
  lemma Section1Members(entities: seq<Entity>, data: Loaded)
    ensures forall l :: l in Section1(entities, data) ==>
      l.entity in entities && InSection1(l.entity) && l.amount == Amount(l.entity)
    ensures forall e :: e in entities && InSection1(e) ==> exists l :: l in Section1(entities, data) && l.entity == e
    ensures |Section1(entities, data)| == Count(entities, InSection1)
  {
    var kept := Filter(entities, InSection1);
    var lines := MapSeq(kept, LineOf(data));
    forall l | l in Section1(entities, data)
      ensures l.entity in entities && InSection1(l.entity) && l.amount == Amount(l.entity)
    {
      assert l in multiset(Section1(entities, data));
      assert l in lines;
      var i :| 0 <= i < |lines| && lines[i] == l;
      assert kept[i] in kept;
    }
    forall e | e in entities && InSection1(e)
      ensures exists l :: l in Section1(entities, data) && l.entity == e
    {
      var j :| 0 <= j < |entities| && entities[j] == e;
      assert e in kept;
      var i :| 0 <= i < |kept| && kept[i] == e;
      assert lines[i] in multiset(Section1(entities, data));
    }
  }

  /** A refused entity never counts among the signed ones. */
  lemma RefusedNeverCounts(e: Entity)
    requires Get(e, "Statuts") == Str(Refused)
    ensures !InSection1(e) && !InSection2(e) && !InSection3(e)
  {
    assert Refused[0] == 'R' && Confirmed[0] == 'C' && PaymentDone[0] == 'P';
  }

  /** The first section is ranked by amount, highest first. */
  lemma Section1Ranked(entities: seq<Entity>, data: Loaded)
    ensures forall i, j :: 0 <= i < j < |Section1(entities, data)| ==>
      Section1(entities, data)[i].amount >= Section1(entities, data)[j].amount
  {
    SortBySorted(MapSeq(Filter(entities, InSection1), LineOf(data)), AmountKey);
  }

  /** The first section's total is the sum of its entities' amounts. */
  lemma Section1Total(entities: seq<Entity>, data: Loaded)
    ensures Total1(entities, data) == SumBy(Filter(entities, InSection1), Amount)
  {
    SortBySum(MapSeq(Filter(entities, InSection1), LineOf(data)), AmountKey, LineAmount);
    LineSums(Filter(entities, InSection1), data);
  }

  /** The label of a line. */
  lemma DisplayTypes(e: Entity, track: Option<Record>)
    ensures HasType(e, EncartTab) && Truthy(Field(track, "Format_Pub")) ==>
      DisplayType(e, track) == EncartTab + " (" + ToStr(Field(track, "Format_Pub")) + ")"
    ensures HasType(e, PartnerTab) && Truthy(Field(track, "Pack_Choisi")) ==>
      DisplayType(e, track) == PartnerTab + " (" + ToStr(Field(track, "Pack_Choisi")) + ")"
    ensures !(HasType(e, EncartTab) && Truthy(Field(track, "Format_Pub"))) &&
            !(HasType(e, PartnerTab) && Truthy(Field(track, "Pack_Choisi"))) ==>
      DisplayType(e, track) == ToStr(Get(e, "Type"))
  {
  }

  /** Sponsors and stand holders are labelled by their type alone, whatever
      the tracking record holds. */
  lemma PlainLabel(e: Entity, track: Option<Record>)
    requires HasType(e, MecenatTab) || HasType(e, StandTab)
    ensures DisplayType(e, track) == Get(e, "Type").s
  {
    assert EncartTab[0] == 'E' && PartnerTab[0] == 'P' && MecenatTab[0] == 'M' && StandTab[0] == 'S';
  }

  /** The second section lists the signed grants, its total their amounts. */
  lemma Section2Members(entities: seq<Entity>)
    ensures forall g :: g in Section2(entities) ==>
      g.entity in entities && InSection2(g.entity) && g.amount == Amount(g.entity)
    ensures |Section2(entities)| == Count(entities, InSection2)
    ensures Total2(entities) == SumBy(Filter(entities, InSection2), Amount)
  {
    SubsidySums(Filter(entities, InSection2));
    forall g | g in Section2(entities)
      ensures g.entity in entities && InSection2(g.entity) && g.amount == Amount(g.entity)
    {
      var i :| 0 <= i < |Section2(entities)| && Section2(entities)[i] == g;
      assert Filter(entities, InSection2)[i] in Filter(entities, InSection2);
    }
  }

  /** A prize without a tracking record reads "N/A", once. */
  lemma PrizeDefaults(data: Loaded, e: Entity)
    requires TrackingInfo(data, Str(TombolaTab), Get(e, "Id")).None?
    ensures PrizeOf(data)(e).description == Str("N/A") && PrizeOf(data)(e).quantity == Num(1)
    ensures PrizeOf(data)(e).value == Amount(e)
  {
  }

  /** A prize shows the tracking record's description and count when they are filled in. */
  lemma PrizeFromTracking(data: Loaded, e: Entity, track: Record)
    requires TrackingInfo(data, Str(TombolaTab), Get(e, "Id")) == Some(track)
    requires Truthy(Get(track, "Description_Lot")) && Truthy(Get(track, "Nb_Lot"))
    ensures PrizeOf(data)(e).description == Get(track, "Description_Lot")
    ensures PrizeOf(data)(e).quantity == Get(track, "Nb_Lot")
  {
  }

  /** The third section lists the signed raffle entities, in list order. */
  lemma Section3Members(entities: seq<Entity>, data: Loaded)
    ensures forall p :: p in Section3(entities, data) ==> p.entity in entities && InSection3(p.entity)
    ensures |Section3(entities, data)| == Count(entities, InSection3)
  {
    forall p | p in Section3(entities, data)
      ensures p.entity in entities && InSection3(p.entity)
    {
      var i :| 0 <= i < |Section3(entities, data)| && Section3(entities, data)[i] == p;
      assert Filter(entities, InSection3)[i] in Filter(entities, InSection3);
    }
  }

  /** The sections take disjoint sets of entities. */
  lemma SectionsDisjoint(e: Entity)
    ensures !(InSection1(e) && InSection2(e))
    ensures !(InSection1(e) && InSection3(e))
    ensures !(InSection2(e) && InSection3(e))
  {
    assert EncartTab[0] == 'E' && PartnerTab[0] == 'P' && MecenatTab[0] == 'M' && StandTab[0] == 'S';
    assert Grant[0] == 'S' && Grant[1] == 'u' && StandTab[1] == 't';
    assert Raffle[0] == 'T' && TombolaTab[0] == 'T';
  }

  /** The grand total is the amounts of the first two sections' entities. */
  lemma GrandTotalSums(entities: seq<Entity>, data: Loaded)
    ensures GrandTotal(entities, data) ==
            SumBy(Filter(entities, InSection1), Amount) + SumBy(Filter(entities, InSection2), Amount)
  {
    Section1Total(entities, data);
    SubsidySums(Filter(entities, InSection2));
  }

  /** A raffle entity adds nothing to the grand total. */
  lemma GrandTotalExcludesRaffle(entities: seq<Entity>, data: Loaded, e: Entity)
    requires InSection3(e)
    ensures GrandTotal(entities + [e], data) == GrandTotal(entities, data)
  {
    GrandTotalSums(entities, data);
    GrandTotalSums(entities + [e], data);
    RaffleFiltered(entities, e);
  }

  lemma RaffleFiltered(entities: seq<Entity>, e: Entity)
    requires InSection3(e)
    ensures Filter(entities + [e], InSection1) == Filter(entities, InSection1)
    ensures Filter(entities + [e], InSection2) == Filter(entities, InSection2)
  {
    SectionsDisjoint(e);
    FilterSnoc(entities, e, InSection1);
    FilterSnoc(entities, e, InSection2);
  }
}
