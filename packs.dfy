/** The options a partner chooses are kept in one text field, `Pack_Choisi`,
    as tags separated by commas. This module reads that field into a tag list
    and computes the new field value when a tag's check box is clicked. */
module Packs {

  import opened Text
  import opened JsValues
  import opened Collections

  /** `v ? v.split(',') : []` */
  function PackList(v: Value): (r: seq<string>)
    ensures Truthy(v) ==> |r| >= 1 && Join(r, ',') == ToStr(v)
    ensures !Truthy(v) ==> r == []
    ensures forall k :: 0 <= k < |r| ==> ',' !in r[k]
  {
    if Truthy(v) then
      JoinSplit(ToStr(v), ',');
      Split(ToStr(v), ',')
    else []
  }

  /** The tag list after clicking `tag`: a chosen tag is removed, wherever and
      however often it occurs; any other is appended. */
  function TogglePacks(packs: seq<string>, tag: string): seq<string> {
    if tag in packs then Filter(packs, p => p != tag) else packs + [tag]
  }

  /** The `Pack_Choisi` value written after clicking `tag`. */
  function Clicked(current: Value, tag: string): string {
    Join(TogglePacks(PackList(current), tag), ',')
  }

  /** A click flips the clicked tag's membership... */
  lemma ToggleFlips(packs: seq<string>, tag: string)
    ensures tag in TogglePacks(packs, tag) <==> tag !in packs
  {
    if tag !in packs {
      assert (packs + [tag])[|packs|] == tag;
    }
  }

  /** ...and leaves every other tag where it was, in the same order. */
  lemma ToggleKeepsOthers(packs: seq<string>, tag: string)
    ensures Filter(TogglePacks(packs, tag), p => p != tag) == Filter(packs, p => p != tag)
    ensures forall p :: p != tag ==> (p in TogglePacks(packs, tag) <==> p in packs)
  {
    if tag in packs {
      FilterTwice(packs, p => p != tag);
    } else {
      FilterSnoc(packs, tag, p => p != tag);
    }
    forall p | p != tag
      ensures p in TogglePacks(packs, tag) <==> p in packs
    {
      if p in packs {
        var i :| 0 <= i < |packs| && packs[i] == p;
        if tag in packs {
          assert packs[i] in Filter(packs, q => q != tag);
        } else {
          assert (packs + [tag])[i] == p;
        }
      }
    }
  }

  /** Filtering by a test every element passes changes nothing. */
  lemma {:induction false} FilterKeepsAll(s: seq<string>, tag: string)
    requires tag !in s
    ensures Filter(s, p => p != tag) == s
    decreases |s|
  {
    if s != [] {
      FilterKeepsAll(s[1..], tag);
      assert [s[0]] + s[1..] == s;
    }
  }

  /** Removing a tag that was just appended to a list without it gives the list back. */
  lemma RemoveAppended(packs: seq<string>, tag: string)
    requires tag !in packs
    ensures TogglePacks(packs + [tag], tag) == packs
  {
    assert (packs + [tag])[|packs|] == tag;
    FilterSnoc(packs, tag, p => p != tag);
    FilterKeepsAll(packs, tag);
  }

  /** Joining the tags read from a text gives the text back. */
  lemma PackListText(s: string)
    ensures Join(PackList(Str(s)), ',') == s
  {
  }

  /** Clicking a tag that is not chosen, then clicking it again, gives back the
      original text. */
  lemma ToggleAbsentTwice(s: string, tag: string)
    requires ',' !in tag
    requires tag !in PackList(Str(s))
    ensures Clicked(Str(Clicked(Str(s), tag)), tag) == s
  {
    var packs := PackList(Str(s));
    var once := packs + [tag];
    assert TogglePacks(packs, tag) == once;
    var s1 := Join(once, ',');
    PackListText(s);
    if s1 == "" {
      // only an empty text and an empty tag join to nothing
      assert packs == [];
      assert TogglePacks([], tag) == [tag];
    } else {
      assert forall k :: 0 <= k < |once| ==> ',' !in once[k] by {
        forall k | 0 <= k < |once| ensures ',' !in once[k] {
          if k < |packs| { assert once[k] == packs[k]; }
        }
      }
      SplitJoin(once, ',');
      RemoveAppended(packs, tag);
    }
  }

}
