/** What the two modal forms (invoice and tax receipt) share: a form buffer is
    a record of field values, a typed change replaces one field, `a || b || ''`
    takes the first truthy candidate, and generating is refused while a
    required field is empty. */
module Forms {

  import opened JsValues
  import opened Collections

  /** The first truthy candidate, or the empty string when none is:
      the value of the chain `c0 || c1 || ... || ''`. */
  function FirstTruthy(candidates: seq<Value>): (r: Value)
    ensures Truthy(r) <==> exists i :: 0 <= i < |candidates| && Truthy(candidates[i])
    ensures Truthy(r) ==> exists i :: 0 <= i < |candidates| && candidates[i] == r &&
                                       forall j :: 0 <= j < i ==> !Truthy(candidates[j])
    ensures !Truthy(r) ==> r == Str("")
  {
    if candidates == [] then Str("")
    else if Truthy(candidates[0]) then candidates[0]
    else FirstTruthy(candidates[1..])
  }

  /** `a || b || ''` is the first truthy of `a` and `b`. */
  lemma FallbackOfTwo(a: Value, b: Value)
    ensures Or(Or(a, b), Str("")) == FirstTruthy([a, b])
  {
    if !Truthy(a) {
      assert [a, b][1..] == [b];
      if !Truthy(b) { assert [a, b][1..][1..] == []; }
    }
  }

  /** `a || b || c` with a truthy last resort `c`. */
  lemma FallbackToLiteral(a: Value, b: Value, c: Value)
    requires Truthy(c)
    ensures Or(Or(a, b), c) == FirstTruthy([a, b, c])
    ensures Or(b, c) == FirstTruthy([b, c])
  {
    assert [b, c][1..] == [c];
    assert FirstTruthy([b, c]) == Or(b, c);
    assert [a, b, c][1..] == [b, c];
  }

  /** `a || ''` is `a` when truthy, the empty string otherwise. */
  lemma FallbackOfOne(a: Value)
    ensures Or(a, Str("")) == FirstTruthy([a])
  {
    if !Truthy(a) { assert [a][1..] == []; }
  }

  /** `setFormData(prev => ({ ...prev, [name]: value }))`: the input's text
      becomes the named field. */
  function Change(form: Record, name: string, value: string): (r: Record)
    ensures Get(r, name) == Str(value)
    ensures forall k :: k != name ==> Get(r, k) == Get(form, k)
    ensures r.Keys == form.Keys + {name}
  {
    form[name := Str(value)]
  }

  /** `required.filter(field => !formData[field])` */
  function Missing(form: Record, required: seq<string>): (r: seq<string>)
    ensures forall i :: 0 <= i < |r| ==> r[i] in required && !Truthy(Get(form, r[i]))
    ensures forall i :: 0 <= i < |required| ==> (required[i] in r <==> !Truthy(Get(form, required[i])))
  {
    Filter(required, f => !Truthy(Get(form, f)))
  }

  /** The missing fields come in the order of the required list. */
  lemma MissingInOrder(form: Record, required: seq<string>)
    ensures IsSubsequence(Missing(form, required), required)
  {
    FilterIsSubsequence(required, f => !Truthy(Get(form, f)));
  }

  /** What `handleGenerate` does: an alert listing the missing fields, or a call
      of `onGenerate` with the form. */
  datatype Outcome = Blocked(missing: seq<string>) | Generated(form: Record)

  function Generate(form: Record, required: seq<string>): (r: Outcome)
    ensures r.Generated? <==> forall i :: 0 <= i < |required| ==> Truthy(Get(form, required[i]))
    ensures r.Generated? ==> r.form == form
    ensures r.Blocked? ==> r.missing == Missing(form, required) && |r.missing| > 0
  {
    var missing := Missing(form, required);
    if |missing| > 0 then
      assert missing[0] in required && !Truthy(Get(form, missing[0]));
      Blocked(missing)
    else Generated(form)
  }

  /** A field outside the required list never decides whether generation runs. */
  lemma UnrequiredFieldIrrelevant(form: Record, required: seq<string>, name: string, value: string)
    requires name !in required
    ensures Generate(Change(form, name, value), required) ==
            (match Generate(form, required)
             case Blocked(m) => Blocked(m)
             case Generated(f) => Generated(Change(f, name, value)))
  {
    var changed := Change(form, name, value);
    assert forall i :: 0 <= i < |required| ==> Get(changed, required[i]) == Get(form, required[i]);
    FilterCongruent(required, f => !Truthy(Get(changed, f)), f => !Truthy(Get(form, f)));
  }
}
