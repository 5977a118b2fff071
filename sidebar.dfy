/** The filter panel's option lists: the distinct truthy values a field takes
    over the contact list, in order of first appearance. A JavaScript `Set`
    keeps one copy of equal texts, numbers and flags, but two objects are
    never the same member. */
module Sidebar {

  import opened JsValues
  import opened Collections

  /** `x` is already a member of a set built from `u`. */
  predicate InSet(u: seq<Value>, x: Value) {
    !x.Obj? && x in u
  }

  /** `[...new Set(s)]`: insertion keeps the first copy of each value. */
  function Unique(s: seq<Value>): (r: seq<Value>)
    ensures forall k :: 0 <= k < |r| ==> r[k] in s
    ensures forall i :: 0 <= i < |s| ==> s[i] in r
    ensures forall a, b :: 0 <= a < b < |r| ==> !StrictEq(r[a], r[b])
    ensures IsSubsequence(r, s)
    decreases |s|
  {
    if s == [] then []
    else
      var init, last := s[..|s| - 1], s[|s| - 1];
      var u := Unique(init);
      assert s == init + [last];
      SubsequenceSnoc(u, init, last);
      if InSet(u, last) then u
      else
        SubsequenceExtend(u, init, last);
        u + [last]
  }

  /** `entities.map(e => e[field]).filter(Boolean)` */
  function Present(entities: seq<Record>, field: string): (r: seq<Value>)
    ensures forall k :: 0 <= k < |r| ==> Truthy(r[k])
  {
    Filter(MapSeq(entities, (e: Record) => Get(e, field)), Truthy)
  }

  /** The option list for one field. */
  function Options(entities: seq<Record>, field: string): (r: seq<Value>)
    ensures forall k :: 0 <= k < |r| ==> Truthy(r[k])
    ensures forall a, b :: 0 <= a < b < |r| ==> !StrictEq(r[a], r[b])
  {
    Unique(Present(entities, field))
  }

  /** Every option is the field of some entity, and every entity's truthy
      field is an option. */
  lemma OptionsCover(entities: seq<Record>, field: string)
    ensures forall k :: 0 <= k < |Options(entities, field)| ==>
      exists i :: 0 <= i < |entities| && Get(entities[i], field) == Options(entities, field)[k]
    ensures forall i :: 0 <= i < |entities| && Truthy(Get(entities[i], field)) ==>
      Get(entities[i], field) in Options(entities, field)
  {
    var values := MapSeq(entities, (e: Record) => Get(e, field));
    var present := Present(entities, field);
    forall k | 0 <= k < |Options(entities, field)|
      ensures exists i :: 0 <= i < |entities| && Get(entities[i], field) == Options(entities, field)[k]
    {
      var v := Options(entities, field)[k];
      assert v in present;
      assert v in values;
      var i :| 0 <= i < |values| && values[i] == v;
      assert Get(entities[i], field) == v;
    }
    forall i | 0 <= i < |entities| && Truthy(Get(entities[i], field))
      ensures Get(entities[i], field) in Options(entities, field)
    {
      assert values[i] == Get(entities[i], field);
      assert values[i] in present;
    }
  }

  /** Position `i` holds the first occurrence of its value. */
  predicate FirstSeen(s: seq<Value>, i: nat)
    requires i < |s|
  {
    !InSet(s[..i], s[i])
  }

  /** Values come out in the order of their first appearance. */
  lemma {:induction false} FirstAppearanceOrder(s: seq<Value>, i: nat, j: nat)
    requires i < j < |s| && FirstSeen(s, i) && FirstSeen(s, j)
    ensures exists a, b :: 0 <= a < b < |Unique(s)| && Unique(s)[a] == s[i] && Unique(s)[b] == s[j]
    decreases |s|
  {
    var init, last := s[..|s| - 1], s[|s| - 1];
    assert s == init + [last];
    if j < |s| - 1 {
      assert init[..i] == s[..i] && init[..j] == s[..j];
      assert init[i] == s[i] && init[j] == s[j];
      FirstAppearanceOrder(init, i, j);
      OrderKept(init, last, s[i], s[j]);
    } else {
      assert s[..j] == init;
      NewValueAppended(init, last, i);
      var u, r := Unique(init), Unique(s);
      var a :| 0 <= a < |u| && u[a] == init[i];
      assert r[a] == s[i] && r[|u|] == s[j];
    }
  }

  /** Two options keep their relative order when the input grows. */
  lemma OrderKept(init: seq<Value>, last: Value, x: Value, y: Value)
    requires exists a, b :: 0 <= a < b < |Unique(init)| && Unique(init)[a] == x && Unique(init)[b] == y
    ensures exists a, b :: 0 <= a < b < |Unique(init + [last])| && Unique(init + [last])[a] == x && Unique(init + [last])[b] == y
  {
    UniqueGrows(init, last);
    var u, r := Unique(init), Unique(init + [last]);
    var a, b :| 0 <= a < b < |u| && u[a] == x && u[b] == y;
    assert r[a] == u[a] && r[b] == u[b];
  }

  /** Extending the input only ever appends to the option list. */
  lemma UniqueGrows(init: seq<Value>, last: Value)
    ensures Unique(init) <= Unique(init + [last])
  {
    assert (init + [last])[..|init|] == init;
  }

  /** A value seen for the first time goes at the end, behind every earlier value. */
  lemma NewValueAppended(init: seq<Value>, last: Value, i: nat)
    requires i < |init| && !InSet(init, last)
    ensures Unique(init + [last]) == Unique(init) + [last]
    ensures exists a :: 0 <= a < |Unique(init)| && Unique(init)[a] == init[i]
  {
    assert (init + [last])[..|init|] == init;
    assert init[i] in Unique(init);
  }

  lemma {:induction false} SubsequenceSnoc(a: seq<Value>, b: seq<Value>, x: Value)
    requires IsSubsequence(a, b)
    ensures IsSubsequence(a, b + [x])
    decreases |b|
  {
    if a != [] {
      assert (b + [x])[1..] == b[1..] + [x];
      if a[0] == b[0] {
        SubsequenceSnoc(a[1..], b[1..], x);
      } else {
        SubsequenceSnoc(a, b[1..], x);
      }
    }
  }

  lemma {:induction false} SubsequenceExtend(a: seq<Value>, b: seq<Value>, x: Value)
    requires IsSubsequence(a, b)
    ensures IsSubsequence(a + [x], b + [x])
    decreases |b|
  {
    if a == [] {
      assert a + [x] == [x];
      SubsequenceOfSingleton(b, x);
    } else {
      assert (b + [x])[1..] == b[1..] + [x];
      assert (a + [x])[1..] == a[1..] + [x];
      if a[0] == b[0] {
        SubsequenceExtend(a[1..], b[1..], x);
      } else {
        SubsequenceExtend(a, b[1..], x);
      }
    }
  }

  lemma {:induction false} SubsequenceOfSingleton(b: seq<Value>, x: Value)
    ensures IsSubsequence([x], b + [x])
    decreases |b|
  {
    if b != [] {
      assert (b + [x])[1..] == b[1..] + [x];
      SubsequenceOfSingleton(b[1..], x);
    } else {
      assert [x][1..] == [];
    }
  }
}
