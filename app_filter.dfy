/** The contact list shown on the map and in the panel: the application narrows
    the full list by status, type, referent and a free-text search, each filter
    applying only when its field is filled in. */
module AppFilter {

  import opened JsValues
  import opened Text
  import opened Collections
  import opened Domain

  /** `e.Statuts === filters.Statuts` */
  function ByStatus(wanted: Value): Entity -> bool {
    e => StrictEq(Get(e, "Statuts"), wanted)
  }

  /** `e.Type === filters.Type` */
  function ByType(wanted: Value): Entity -> bool {
    e => StrictEq(Get(e, "Type"), wanted)
  }

  /** "Non attribué" asks for entities without a referent; any other choice
      for that exact referent. */
  function ByReferent(wanted: Value): Entity -> bool {
    if StrictEq(wanted, Str(Unassigned)) then e => !Truthy(Get(e, ReferentField))
    else e => StrictEq(Get(e, ReferentField), wanted)
  }

  /** `v && v.toLowerCase().includes(needle)` */
  predicate MatchesText(v: Value, needle: string) {
    Truthy(v) && Contains(Lower(ToStr(v)), needle)
  }

  /** The search text, lower-cased, occurs in the title, the address or the map link. */
  function BySearch(search: Value): Entity -> bool {
    var needle := Lower(ToStr(search));
    e => MatchesText(Get(e, "title"), needle) || MatchesText(Get(e, "address"), needle) ||
         MatchesText(Get(e, "Place"), needle)
  }

  /** One step of the chain: `if (active) result = result.filter(p)`. */
  function Step(s: seq<Entity>, active: bool, p: Entity -> bool): seq<Entity> {
    if active then Filter(s, p) else s
  }

  /** The filter effect, step by step as the application runs it. */
  function Filtered(filters: Record, entities: seq<Entity>): seq<Entity> {
    var byStatus := Step(entities, Truthy(Get(filters, "Statuts")), ByStatus(Get(filters, "Statuts")));
    var byType := Step(byStatus, Truthy(Get(filters, "Type")), ByType(Get(filters, "Type")));
    var byReferent := Step(byType, Truthy(Get(filters, "Referent")), ByReferent(Get(filters, "Referent")));
    Step(byReferent, Truthy(Get(filters, "Search")), BySearch(Get(filters, "Search")))
  }

  /** A filter that is off lets everything through. */
  function When(active: bool, p: Entity -> bool): Entity -> bool {
    e => !active || p(e)
  }

  /** The reference: an entity is shown when it satisfies every active filter. */
  function Shown(filters: Record): Entity -> bool {
    Both(Both(Both(
      When(Truthy(Get(filters, "Statuts")), ByStatus(Get(filters, "Statuts"))),
      When(Truthy(Get(filters, "Type")), ByType(Get(filters, "Type")))),
      When(Truthy(Get(filters, "Referent")), ByReferent(Get(filters, "Referent")))),
      When(Truthy(Get(filters, "Search")), BySearch(Get(filters, "Search"))))
  }

  lemma StepIsFilter(s: seq<Entity>, active: bool, p: Entity -> bool)
    ensures Step(s, active, p) == Filter(s, When(active, p))
  {
    if active {
      FilterCongruent(s, p, When(active, p));
    } else {
      FilterAllPass(s, When(active, p));
    }
  }

  /** The chain of filters keeps exactly the entities that pass every active
      filter, in their original order. */
  lemma FilteredIsConjunction(filters: Record, entities: seq<Entity>)
    ensures Filtered(filters, entities) == Filter(entities, Shown(filters))
    ensures IsSubsequence(Filtered(filters, entities), entities)
  {
    var w1 := When(Truthy(Get(filters, "Statuts")), ByStatus(Get(filters, "Statuts")));
    var w2 := When(Truthy(Get(filters, "Type")), ByType(Get(filters, "Type")));
    var w3 := When(Truthy(Get(filters, "Referent")), ByReferent(Get(filters, "Referent")));
    var w4 := When(Truthy(Get(filters, "Search")), BySearch(Get(filters, "Search")));
    var r1 := Step(entities, Truthy(Get(filters, "Statuts")), ByStatus(Get(filters, "Statuts")));
    var r2 := Step(r1, Truthy(Get(filters, "Type")), ByType(Get(filters, "Type")));
    var r3 := Step(r2, Truthy(Get(filters, "Referent")), ByReferent(Get(filters, "Referent")));
    StepIsFilter(entities, Truthy(Get(filters, "Statuts")), ByStatus(Get(filters, "Statuts")));
    StepIsFilter(r1, Truthy(Get(filters, "Type")), ByType(Get(filters, "Type")));
    StepIsFilter(r2, Truthy(Get(filters, "Referent")), ByReferent(Get(filters, "Referent")));
    StepIsFilter(r3, Truthy(Get(filters, "Search")), BySearch(Get(filters, "Search")));
    FilterFilter(entities, w1, w2);
    FilterFilter(entities, Both(w1, w2), w3);
    FilterFilter(entities, Both(Both(w1, w2), w3), w4);
    FilterIsSubsequence(entities, Shown(filters));
  }

  /** With every filter empty the whole list is shown. */
  lemma NoFilterShowsAll(filters: Record, entities: seq<Entity>)
    requires !Truthy(Get(filters, "Statuts")) && !Truthy(Get(filters, "Type"))
    requires !Truthy(Get(filters, "Referent")) && !Truthy(Get(filters, "Search"))
    ensures Filtered(filters, entities) == entities
  {
  }

  /** What each active filter demands of a shown entity. */
  lemma ShownEntity(filters: Record, entities: seq<Entity>, e: Entity)
    requires e in Filtered(filters, entities)
    ensures e in entities
    ensures Truthy(Get(filters, "Statuts")) ==> Get(e, "Statuts") == Get(filters, "Statuts")
    ensures Truthy(Get(filters, "Type")) ==> Get(e, "Type") == Get(filters, "Type")
    ensures Get(filters, "Referent") == Str(Unassigned) ==> !Truthy(Get(e, ReferentField))
    ensures Truthy(Get(filters, "Referent")) && Get(filters, "Referent") != Str(Unassigned) ==>
      Get(e, ReferentField) == Get(filters, "Referent")
    ensures Truthy(Get(filters, "Search")) ==> BySearch(Get(filters, "Search"))(e)
  {
    FilteredIsConjunction(filters, entities);
    assert Shown(filters)(e);
  }
}
