/** The dynamically typed values the front-end reads from the record store and
    from its forms, and the few JavaScript operators it applies to them:
    truthiness, `||`, `===`, `String(...)`, `parseFloat(...) || 0`, and the
    normalisation of a link field that arrives either as a bare id or as an
    expanded `{ Id }` object. */
module JsValues {

  import opened Wrappers
  import opened Text

  /** A field value. `Obj(idField)` is an expanded linked record; `idField` is
      its `Id` property (`Undefined` when it has none). Numbers are integers. */
  datatype Value = Undefined | Null | Bool(b: bool) | Num(n: int) | Str(s: string) | Obj(idField: Value)

  /** A row of a table, a form buffer or a stored preferences entry:
      a missing key reads as `undefined`. */
  type Record = map<string, Value>

  /** `r.f` */
  function Get(r: Record, f: string): Value {
    if f in r then r[f] else Undefined
  }

  /** `t?.f` for a record that may be absent. */
  function Field(t: Option<Record>, f: string): Value {
    if t.Some? then Get(t.value, f) else Undefined
  }

  /** JavaScript truthiness: `undefined`, `null`, `false`, `0` and `""` are falsy. */
  predicate Truthy(v: Value) {
    match v
    case Undefined => false
    case Null => false
    case Bool(b) => b
    case Num(n) => n != 0
    case Str(s) => s != ""
    case Obj(_) => true
  }

  /** `a || b` */
  function Or(a: Value, b: Value): (r: Value)
    ensures Truthy(r) <==> Truthy(a) || Truthy(b)
    ensures r == a || r == b
  {
    if Truthy(a) then a else b
  }

  /** `a === b`; two object values are never taken to be the same object. */
  predicate StrictEq(a: Value, b: Value) {
    a == b && !a.Obj?
  }

  /** `String(v)`, also what a template literal `${v}` writes. */
  function ToStr(v: Value): string {
    match v
    case Undefined => "undefined"
    case Null => "null"
    case Bool(b) => if b then "true" else "false"
    case Num(n) => IntToString(n)
    case Str(s) => s
    case Obj(_) => "[object Object]"
  }

  /** `parseFloat(v) || 0`, on integers: a number is itself, a string gives the
      integer that starts it (after white space and an optional sign), anything
      else gives 0. */
  function ParseAmount(v: Value): (r: int)
    ensures v.Num? ==> r == v.n
    ensures !v.Num? && !v.Str? ==> r == 0
  {
    match v
    case Num(n) => n
    case Str(s) => (match ParseIntPrefix(s) case Some(k) => k case None => 0)
    case _ => 0
  }

  /** The string a link field is compared by: the `Id` of an expanded object,
      the value itself otherwise. */
  function LinkKey(link: Value): string {
    if link.Obj? then ToStr(link.idField) else ToStr(link)
  }

  /** The record's `Link_Annonceur` field designates the entity with this id. */
  predicate LinksTo(r: Record, entityId: Value) {
    LinkKey(Get(r, "Link_Annonceur")) == ToStr(entityId)
  }

  /** A bare id and the same id wrapped as `{ Id }` designate the same entity. */
  lemma LinkFormsAgree(r: Record, id: Value, entityId: Value)
    requires !id.Obj?
    ensures LinksTo(r["Link_Annonceur" := id], entityId) <==> LinksTo(r["Link_Annonceur" := Obj(id)], entityId)
  {
  }

  /** The string `"42"` and the number `42` are the same id once normalised,
      and distinct numbers stay distinct. */
  lemma {:induction false} NumberIdsNormalise(n: nat, m: nat)
    ensures LinkKey(Str(NatToString(n))) == ToStr(Num(n))
    ensures LinkKey(Obj(Num(n))) == ToStr(Num(n))
    ensures ToStr(Num(n)) == ToStr(Num(m)) ==> n == m
  {
    NatToStringValue(n);
    NatToStringValue(m);
  }

  /** A number that renders as the given text parses back to itself. */
  lemma ParseAmountOfRendering(n: nat)
    ensures ParseAmount(Str(NatToString(n))) == n
  {
    ParseIntOfRendering(n);
  }
}
