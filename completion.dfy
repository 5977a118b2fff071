/** The progress page's checklist rules: which entities a tab shows, which
    tracking record belongs to each, when that record counts as complete,
    which actions the page still lists as missing, and the filtered, sorted
    list with its counters. The completion test and the missing-action list
    are two separate rule sets; the lemmas below say where they agree and
    give the inputs on which they do not. */
module Completion {

  import opened Wrappers
  import opened Text
  import opened JsValues
  import opened Collections
  import opened Sorting
  import opened Domain
  import opened Packs
  import opened Api

  const EncartTab: string := "Encart Pub"
  const TombolaTab: string := "Tombola (Lots)"
  const PartnerTab: string := "Partenaires"
  const MecenatTab: string := "Mécénat"
  const StandTab: string := "Stand"

  /** The page's tabs, in display order; the first is open on arrival. */
  const Tabs: seq<string> := [EncartTab, TombolaTab, PartnerTab, MecenatTab, StandTab]

  /** The pack tags that carry a checklist flag of their own. */
  const CoverTag: string := "4e de couverture"
  const WallTag: string := "Affichage Mur"
  const BackdropTag: string := "Logo Backdrop"
  const PosterTag: string := "Logo Affiche"
  const StandTag: string := "Stand 3x3m"

  // ----- which entities a tab shows -----

  /** The status test: signed, or on the Tombola tab anything but Refusé and
      Sans réponse; a positive amount makes any entity active. */
  predicate IsActive(tab: string, e: Entity) {
    (if tab == TombolaTab
     then !StrictEq(Get(e, "Statuts"), Str(Refused)) && !StrictEq(Get(e, "Statuts"), Str(NoAnswer))
     else IsSigned(e))
    || Amount(e) > 0
  }

  /** Some loaded row designates the entity. */
  predicate LinkedFrom(rows: seq<Record>, e: Entity) {
    exists i :: 0 <= i < |rows| && LinksTo(rows[i], Get(e, "Id"))
  }

  /** An active entity is on its own type's tab; the Stand tab also shows an
      active entity of another type that a loaded Stand record links to. */
  predicate IsRelevant(tab: string, standRows: seq<Record>, e: Entity) {
    IsActive(tab, e) &&
    if tab == StandTab then HasType(e, StandTab) || LinkedFrom(standRows, e)
    else HasType(e, tab)
  }

  /** `relevantEntities`, given the loaded rows of the Stand table. */
  function RelevantEntities(tab: string, entities: seq<Entity>, standRows: seq<Record>): (r: seq<Entity>)
    ensures forall i :: 0 <= i < |r| ==> r[i] in entities && IsRelevant(tab, standRows, r[i])
    ensures forall i :: 0 <= i < |entities| ==> (entities[i] in r <==> IsRelevant(tab, standRows, entities[i]))
  {
    Filter(entities, e => IsRelevant(tab, standRows, e))
  }

  /** The tab keeps the order of the contact list. */
  lemma RelevantInOrder(tab: string, entities: seq<Entity>, standRows: seq<Record>)
    ensures IsSubsequence(RelevantEntities(tab, entities, standRows), entities)
  {
    FilterIsSubsequence(entities, e => IsRelevant(tab, standRows, e));
  }

  /** A positive amount overrides the status; the Tombola tab turns away only
      the two dead statuses. */
  lemma ActiveRules(tab: string, e: Entity)
    ensures Amount(e) > 0 ==> IsActive(tab, e)
    ensures IsActive(TombolaTab, e) <==>
      Amount(e) > 0 || (Get(e, "Statuts") != Str(Refused) && Get(e, "Statuts") != Str(NoAnswer))
    ensures tab != TombolaTab ==> (IsActive(tab, e) <==> Amount(e) > 0 || IsSigned(e))
  {
  }

  /** On the Stand tab an active entity of any type is shown once a Stand row
      links to it, whether the link is the bare id or an `{ Id }` object. */
  lemma StandTabShowsLinked(standRows: seq<Record>, e: Entity, i: nat, asObject: bool)
    requires IsActive(StandTab, e) && i < |standRows| && !Get(e, "Id").Obj?
    requires Get(standRows[i], "Link_Annonceur") == (if asObject then Obj(Get(e, "Id")) else Get(e, "Id"))
    ensures IsRelevant(StandTab, standRows, e)
  {
    assert LinksTo(standRows[i], Get(e, "Id"));
  }

  /** Off the Stand tab, an entity is shown only on the tab of its own type. */
  lemma OtherTabsByType(tab: string, standRows: seq<Record>, e: Entity)
    requires tab != StandTab
    ensures IsRelevant(tab, standRows, e) ==> HasType(e, tab)
    ensures IsRelevant(tab, standRows, e) <== HasType(e, tab) && IsActive(tab, e)
  {
  }

  // ----- the tracking record of an entity -----

  /** `getTrackingRecord`: the first loaded row that designates the entity. */
  function TrackingRecord(rows: seq<Record>, entityId: Value): (r: Option<Record>)
    ensures r.Some? <==> exists i :: 0 <= i < |rows| && LinksTo(rows[i], entityId)
    ensures r.Some? ==> r.value in rows && LinksTo(r.value, entityId)
  {
    Find(rows, (row: Record) => LinksTo(row, entityId))
  }

  /** The page finds a tracking record exactly when synchronisation counts the
      entity as linked in that table. */
  lemma TrackingAgreesWithSync(rows: seq<Record>, entityId: Value)
    ensures TrackingRecord(rows, entityId).Some? <==> |Linked(rows, entityId)| > 0
  {
    var linked := Linked(rows, entityId);
    if TrackingRecord(rows, entityId).Some? {
      var i :| 0 <= i < |rows| && LinksTo(rows[i], entityId);
      assert rows[i] in linked;
    }
    if |linked| > 0 {
      assert linked[0] in rows;
    }
  }

  /** A row added behind the loaded ones is found for numeric id `n` whether
      its link holds the number, its decimal text, or either wrapped as an
      `{ Id }` object; when no earlier row links to the entity it is the row found. */
  lemma LookupAcceptsEveryLinkForm(rows: seq<Record>, row: Record, n: nat)
    requires Get(row, "Link_Annonceur") in {Num(n), Str(NatToString(n)), Obj(Num(n)), Obj(Str(NatToString(n)))}
    ensures TrackingRecord(rows + [row], Num(n)).Some?
    ensures TrackingRecord(rows, Num(n)).None? ==> TrackingRecord(rows + [row], Num(n)) == Some(row)
  {
    NumberIdsNormalise(n, n);
    var all := rows + [row];
    assert all[|rows|] == row;
    assert LinksTo(row, Num(n));
    if TrackingRecord(rows, Num(n)).None? {
      var r := TrackingRecord(all, Num(n));
      assert r.value !in rows;
    }
  }

  // ----- completion -----

  /** `v === true` */
  predicate IsTrue(v: Value) {
    v == Bool(true)
  }

  /** A count the partner has filled in: neither undefined nor null, and not
      blank once written out, so that 0 counts. */
  predicate Present(v: Value) {
    v != Undefined && v != Null && !IsBlank(ToStr(v))
  }

  predicate ElecAnswered(v: Value) {
    v == Str("Oui") || v == Str("Non")
  }

  /** A partner whose stand is tracked on the Stand tab. */
  predicate IsPartnerStand(tab: string, e: Entity) {
    tab == StandTab && !HasType(e, StandTab)
  }

  /** `t?.Type_Paiement && t?.Type_Paiement !== ''` */
  predicate Paid(t: Option<Record>) {
    Truthy(Field(t, "Type_Paiement"))
  }

  /** The flag that each chosen pack tag requires. */
  predicate PackFlagsOk(packs: seq<string>, t: Option<Record>) {
    (CoverTag in packs ==> IsTrue(Field(t, "Encart_Pub"))) &&
    (WallTag in packs ==> IsTrue(Field(t, "Pancarte_Recu"))) &&
    (BackdropTag in packs || PosterTag in packs ==> IsTrue(Field(t, "Logo_Recu"))) &&
    (StandTag in packs ==> IsTrue(Field(t, "Stand_Inscrit")))
  }

  /** `isComplete`, read as a truth value. */
  predicate IsComplete(tab: string, e: Entity, t: Option<Record>) {
    if tab == TombolaTab then
      IsTrue(Field(t, "Lot_Recupere")) && IsTrue(Field(t, "Logo_Recu"))
    else if IsPartnerStand(tab, e) then
      Present(Field(t, "Nombre_Tables")) && Present(Field(t, "Nombre_Chaises")) &&
      ElecAnswered(Field(t, "Besoin_Electricite"))
    else if tab == EncartTab then
      IsTrue(Field(t, "Preuve_Paiement_Transmise")) && IsTrue(Field(t, "Visuel_Envoye"))
    else if tab == PartnerTab then
      PackFlagsOk(PackList(Field(t, "Pack_Choisi")), t) &&
      (Paid(t) || Truthy(Field(t, "Preuve_Paiement_Transmise")))
    else
      var moneyOk := Paid(t) || Truthy(Field(t, "Preuve_Paiement_Transmise")) ||
                     (tab == MecenatTab && IsTrue(Field(t, "Cerfa_Envoye")));
      if !moneyOk then false
      else if tab == MecenatTab then IsTrue(Field(t, "Cerfa_Envoye"))
      else true
  }

  // ----- the missing actions -----

  function Label(missing: bool, text: string): seq<string> {
    if missing then [text] else []
  }

  /** The three questions for a partner's stand. */
  function StandQuestions(t: Option<Record>): seq<string> {
    Label(!Present(Field(t, "Nombre_Tables")), "Nb Tables ?") +
    Label(!Present(Field(t, "Nombre_Chaises")), "Nb Chaises ?") +
    Label(!ElecAnswered(Field(t, "Besoin_Electricite")), "Besoin Élec ?")
  }

  /** The labels of the tab's own `switch` case. */
  function TabActions(tab: string, t: Option<Record>): seq<string> {
    if tab == EncartTab then
      Label(!Truthy(Field(t, "Visuel_Envoye")), "Visuel manquant") +
      Label(!Truthy(Field(t, "Preuve_Paiement_Transmise")), "Preuve manquante")
    else if tab == TombolaTab then
      Label(!Truthy(Field(t, "Lot_Recupere")), "Lot à récupérer") +
      Label(!Truthy(Field(t, "Logo_Recu")), "Logo manquant")
    else if tab == PartnerTab then PartnerActions(t)
    else []
  }

  /** The Partenaires case: a label per chosen tag whose flag is not set, then
      the money label. */
  function PartnerActions(t: Option<Record>): seq<string> {
    ChosenActions(PackList(Field(t, "Pack_Choisi")), t)
  }

  function ChosenActions(packs: seq<string>, t: Option<Record>): seq<string> {
    PartnerLabels(CoverTag in packs && !Truthy(Field(t, "Encart_Pub")),
                  WallTag in packs && !Truthy(Field(t, "Pancarte_Recu")),
                  (BackdropTag in packs || PosterTag in packs) && !Truthy(Field(t, "Logo_Recu")),
                  StandTag in packs && !Truthy(Field(t, "Stand_Inscrit")),
                  !Truthy(Field(t, "Preuve_Paiement_Transmise")) && !Truthy(Field(t, "Type_Paiement")))
  }

  function PartnerLabels(cover: bool, wall: bool, logo: bool, stand: bool, money: bool): seq<string> {
    Label(cover, "Encart Pub manquant") +
    Label(wall, "Pancarte manquante") +
    Label(logo, "Logo manquant") +
    Label(stand, "Stand non inscrit") +
    Label(money, "Paiement/Preuve manquant")
  }

  /** `getMissingActions`: the labels in the order they are pushed. */
  function MissingActions(tab: string, e: Entity, t: Option<Record>): seq<string> {
    (if IsPartnerStand(tab, e) then StandQuestions(t) else []) +
    Label(tab != TombolaTab && !IsPartnerStand(tab, e) && !Paid(t), "Paiement manquant") +
    TabActions(tab, t)
  }

  // ----- the checklist, tab by tab -----

  /** Tombola: both flags must be exactly `true`; the list asks for the lot,
      then the logo, and never for a payment. */
  lemma TombolaRule(e: Entity, t: Option<Record>)
    ensures IsComplete(TombolaTab, e, t) <==> IsTrue(Field(t, "Lot_Recupere")) && IsTrue(Field(t, "Logo_Recu"))
    ensures MissingActions(TombolaTab, e, t) ==
      Label(!Truthy(Field(t, "Lot_Recupere")), "Lot à récupérer") + Label(!Truthy(Field(t, "Logo_Recu")), "Logo manquant")
    ensures "Paiement manquant" !in MissingActions(TombolaTab, e, t)
    ensures IsComplete(TombolaTab, e, t) ==> MissingActions(TombolaTab, e, t) == []
  {
    assert !IsPartnerStand(TombolaTab, e);
  }

  /** `0` and `"0"` are filled-in counts; undefined, null and blank text are not. */
  lemma PresenceRule(s: string)
    ensures Present(Num(0)) && Present(Str("0"))
    ensures !Present(Undefined) && !Present(Null)
    ensures IsBlank(s) ==> !Present(Str(s))
  {
    assert ToStr(Num(0)) == [DigitChar(0)] == "0";
    assert ToStr(Num(0))[0] == '0' && !IsSpace('0');
    assert ToStr(Str("0"))[0] == '0';
  }

  /** A partner on the Stand tab: complete exactly when both counts are filled in
      and electricity is answered "Oui" or "Non"; the list asks the missing
      questions in order, and is empty exactly when the record is complete. */
  lemma PartnerStandRule(e: Entity, t: Option<Record>)
    requires !HasType(e, StandTab)
    ensures IsComplete(StandTab, e, t) <==>
      Present(Field(t, "Nombre_Tables")) && Present(Field(t, "Nombre_Chaises")) &&
      (Field(t, "Besoin_Electricite") == Str("Oui") || Field(t, "Besoin_Electricite") == Str("Non"))
    ensures MissingActions(StandTab, e, t) == StandQuestions(t)
    ensures MissingActions(StandTab, e, t) == [] <==> IsComplete(StandTab, e, t)
  {
    assert StandTab != TombolaTab && StandTab != EncartTab && StandTab != PartnerTab;
    assert TabActions(StandTab, t) == [];
    assert MissingActions(StandTab, e, t) == StandQuestions(t) + [] + [];
    if StandQuestions(t) == [] {
      assert |Label(!Present(Field(t, "Nombre_Tables")), "Nb Tables ?")| == 0;
      assert |Label(!Present(Field(t, "Nombre_Chaises")), "Nb Chaises ?")| == 0;
    }
  }

  /** Encart Pub: complete exactly when proof and visual are both `true`; the
      list asks for the payment type, then the visual, then the proof. */
  lemma EncartRule(e: Entity, t: Option<Record>)
    ensures IsComplete(EncartTab, e, t) <==>
      IsTrue(Field(t, "Preuve_Paiement_Transmise")) && IsTrue(Field(t, "Visuel_Envoye"))
    ensures MissingActions(EncartTab, e, t) ==
      Label(!Paid(t), "Paiement manquant") +
      Label(!Truthy(Field(t, "Visuel_Envoye")), "Visuel manquant") +
      Label(!Truthy(Field(t, "Preuve_Paiement_Transmise")), "Preuve manquante")
  {
    assert EncartTab != StandTab && EncartTab != TombolaTab;
  }

  /** An Encart Pub record with proof and visual but no payment type is
      complete, yet the page still lists "Paiement manquant" for it. */
  lemma EncartCompleteYetPaymentListed(e: Entity)
    ensures var t := Some(map["Preuve_Paiement_Transmise" := Bool(true), "Visuel_Envoye" := Bool(true)]);
      IsComplete(EncartTab, e, t) && MissingActions(EncartTab, e, t) == ["Paiement manquant"]
  {
    var t := Some(map["Preuve_Paiement_Transmise" := Bool(true), "Visuel_Envoye" := Bool(true)]);
    EncartRule(e, t);
    assert Field(t, "Type_Paiement") == Undefined;
  }

  /** Partenaires: each chosen tag that has a flag needs that flag to be `true`,
      and the money test needs a payment type or a sent proof; with those, the
      record is complete. */
  lemma PartnerRule(e: Entity, t: Option<Record>)
    ensures var packs := PackList(Field(t, "Pack_Choisi"));
      (CoverTag in packs && !IsTrue(Field(t, "Encart_Pub")) ==> !IsComplete(PartnerTab, e, t)) &&
      (WallTag in packs && !IsTrue(Field(t, "Pancarte_Recu")) ==> !IsComplete(PartnerTab, e, t)) &&
      ((BackdropTag in packs || PosterTag in packs) && !IsTrue(Field(t, "Logo_Recu")) ==> !IsComplete(PartnerTab, e, t)) &&
      (StandTag in packs && !IsTrue(Field(t, "Stand_Inscrit")) ==> !IsComplete(PartnerTab, e, t))
    ensures IsComplete(PartnerTab, e, t) ==> Paid(t) || Truthy(Field(t, "Preuve_Paiement_Transmise"))
    ensures PackFlagsOk(PackList(Field(t, "Pack_Choisi")), t) && (Paid(t) || Truthy(Field(t, "Preuve_Paiement_Transmise")))
      ==> IsComplete(PartnerTab, e, t)
    ensures !Truthy(Field(t, "Pack_Choisi")) ==>
      (IsComplete(PartnerTab, e, t) <==> Paid(t) || Truthy(Field(t, "Preuve_Paiement_Transmise")))
  {
    assert PartnerTab != StandTab && PartnerTab != TombolaTab && PartnerTab != EncartTab;
  }

  predicate IsLogoLabel(a: string) {
    a == "Logo manquant"
  }

  lemma CountLabel(missing: bool, text: string)
    ensures Count(Label(missing, text), IsLogoLabel) == if missing && IsLogoLabel(text) then 1 else 0
  {
    if missing {
      assert [text][1..] == [];
    }
  }

  /** However the two logo tags are combined, "Logo manquant" is listed at most
      once, on any tab. */
  lemma LogoAtMostOnce(tab: string, e: Entity, t: Option<Record>)
    ensures Count(MissingActions(tab, e, t), IsLogoLabel) <= 1
  {
    var questions := if IsPartnerStand(tab, e) then StandQuestions(t) else [];
    var pay := Label(tab != TombolaTab && !IsPartnerStand(tab, e) && !Paid(t), "Paiement manquant");
    var own := TabActions(tab, t);
    assert MissingActions(tab, e, t) == questions + pay + own;
    FilterAppend(questions + pay, own, IsLogoLabel);
    FilterAppend(questions, pay, IsLogoLabel);
    if IsPartnerStand(tab, e) {
      StandQuestionsNoLogo(t);
    }
    CountLabel(tab != TombolaTab && !IsPartnerStand(tab, e) && !Paid(t), "Paiement manquant");
    assert "Paiement manquant"[0] != "Logo manquant"[0];
    OwnActionsLogoOnce(tab, t);
  }

  lemma StandQuestionsNoLogo(t: Option<Record>)
    ensures Count(StandQuestions(t), IsLogoLabel) == 0
  {
    var q1 := Label(!Present(Field(t, "Nombre_Tables")), "Nb Tables ?");
    var q2 := Label(!Present(Field(t, "Nombre_Chaises")), "Nb Chaises ?");
    var q3 := Label(!ElecAnswered(Field(t, "Besoin_Electricite")), "Besoin Élec ?");
    assert StandQuestions(t) == q1 + q2 + q3;
    FilterAppend(q1 + q2, q3, IsLogoLabel);
    FilterAppend(q1, q2, IsLogoLabel);
    CountLabel(!Present(Field(t, "Nombre_Tables")), "Nb Tables ?");
    CountLabel(!Present(Field(t, "Nombre_Chaises")), "Nb Chaises ?");
    CountLabel(!ElecAnswered(Field(t, "Besoin_Electricite")), "Besoin Élec ?");
    assert "Nb Tables ?"[0] != "Logo manquant"[0];
    assert "Nb Chaises ?"[0] != "Logo manquant"[0];
    assert "Besoin Élec ?"[0] != "Logo manquant"[0];
  }

  lemma OwnActionsLogoOnce(tab: string, t: Option<Record>)
    ensures Count(TabActions(tab, t), IsLogoLabel) <= 1
  {
    if tab == EncartTab {
      var a1 := Label(!Truthy(Field(t, "Visuel_Envoye")), "Visuel manquant");
      var a2 := Label(!Truthy(Field(t, "Preuve_Paiement_Transmise")), "Preuve manquante");
      assert TabActions(tab, t) == a1 + a2;
      assert "Visuel manquant"[0] != "Logo manquant"[0];
      TwoLabelsLogoOnce(!Truthy(Field(t, "Visuel_Envoye")), "Visuel manquant",
                        !Truthy(Field(t, "Preuve_Paiement_Transmise")), "Preuve manquante");
    } else if tab == TombolaTab {
      var a1 := Label(!Truthy(Field(t, "Lot_Recupere")), "Lot à récupérer");
      var a2 := Label(!Truthy(Field(t, "Logo_Recu")), "Logo manquant");
      assert TabActions(tab, t) == a1 + a2;
      assert "Lot à récupérer"[2] != "Logo manquant"[2];
      TwoLabelsLogoOnce(!Truthy(Field(t, "Lot_Recupere")), "Lot à récupérer",
                        !Truthy(Field(t, "Logo_Recu")), "Logo manquant");
    } else if tab == PartnerTab {
      assert TabActions(tab, t) == PartnerActions(t);
      PartnerActionsLogoOnce(t);
    } else {
      assert TabActions(tab, t) == [];
    }
  }

  lemma PartnerActionsLogoOnce(t: Option<Record>)
    ensures Count(PartnerActions(t), IsLogoLabel) <= 1
  {
    ChosenActionsLogoOnce(PackList(Field(t, "Pack_Choisi")), t);
  }

  lemma ChosenActionsLogoOnce(packs: seq<string>, t: Option<Record>)
    ensures Count(ChosenActions(packs, t), IsLogoLabel) <= 1
  {
    PartnerLabelsLogoOnce(CoverTag in packs && !Truthy(Field(t, "Encart_Pub")),
                          WallTag in packs && !Truthy(Field(t, "Pancarte_Recu")),
                          (BackdropTag in packs || PosterTag in packs) && !Truthy(Field(t, "Logo_Recu")),
                          StandTag in packs && !Truthy(Field(t, "Stand_Inscrit")),
                          !Truthy(Field(t, "Preuve_Paiement_Transmise")) && !Truthy(Field(t, "Type_Paiement")));
  }

  lemma TwoLabelsLogoOnce(c1: bool, text1: string, c2: bool, text2: string)
    requires !IsLogoLabel(text1) || !IsLogoLabel(text2)
    ensures Count(Label(c1, text1) + Label(c2, text2), IsLogoLabel) <= 1
  {
    FilterAppend(Label(c1, text1), Label(c2, text2), IsLogoLabel);
    CountLabel(c1, text1);
    CountLabel(c2, text2);
  }

  lemma PartnerLabelsLogoOnce(c1: bool, c2: bool, c3: bool, c4: bool, c5: bool)
    ensures Count(PartnerLabels(c1, c2, c3, c4, c5), IsLogoLabel) <= 1
  {
    var a1 := Label(c1, "Encart Pub manquant");
    var a2 := Label(c2, "Pancarte manquante");
    var a3 := Label(c3, "Logo manquant");
    var a4 := Label(c4, "Stand non inscrit");
    var a5 := Label(c5, "Paiement/Preuve manquant");
    FilterAppend(a1 + a2 + a3 + a4, a5, IsLogoLabel);
    FilterAppend(a1 + a2 + a3, a4, IsLogoLabel);
    FilterAppend(a1 + a2, a3, IsLogoLabel);
    FilterAppend(a1, a2, IsLogoLabel);
    CountLabel(c1, "Encart Pub manquant");
    CountLabel(c2, "Pancarte manquante");
    CountLabel(c3, "Logo manquant");
    CountLabel(c4, "Stand non inscrit");
    CountLabel(c5, "Paiement/Preuve manquant");
    assert "Encart Pub manquant"[0] != "Logo manquant"[0];
    assert "Pancarte manquante"[0] != "Logo manquant"[0];
    assert "Stand non inscrit"[0] != "Logo manquant"[0];
    assert "Paiement/Preuve manquant"[0] != "Logo manquant"[0];
  }

  /** Mécénat: complete exactly when the Cerfa was sent, which also passes the
      money test by itself. */
  lemma MecenatRule(e: Entity, t: Option<Record>)
    ensures IsComplete(MecenatTab, e, t) <==> IsTrue(Field(t, "Cerfa_Envoye"))
  {
    assert MecenatTab != StandTab && MecenatTab != TombolaTab && MecenatTab != EncartTab && MecenatTab != PartnerTab;
  }

  /** A Mécénat record with a payment type and no Cerfa is incomplete, yet the
      page lists nothing missing for it. */
  lemma MecenatIncompleteYetNothingListed(e: Entity)
    ensures var t := Some(map["Type_Paiement" := Str("Virement")]);
      !IsComplete(MecenatTab, e, t) && MissingActions(MecenatTab, e, t) == []
  {
    var t := Some(map["Type_Paiement" := Str("Virement")]);
    MecenatRule(e, t);
    assert Field(t, "Cerfa_Envoye") == Undefined;
    assert Paid(t);
    assert MecenatTab != StandTab && MecenatTab != TombolaTab && MecenatTab != EncartTab && MecenatTab != PartnerTab;
    assert TabActions(MecenatTab, t) == [];
  }

  /** A Stand-typed entity on the Stand tab, and any tab without rules of its
      own: complete exactly when a payment type is set or a proof was sent;
      the list asks only for a missing payment type, so a record with a proof
      and no payment type is complete and still listed. */
  lemma DirectRule(tab: string, e: Entity, t: Option<Record>)
    requires tab != TombolaTab && tab != EncartTab && tab != PartnerTab && tab != MecenatTab
    requires !IsPartnerStand(tab, e)
    ensures IsComplete(tab, e, t) <==> Paid(t) || Truthy(Field(t, "Preuve_Paiement_Transmise"))
    ensures MissingActions(tab, e, t) == Label(!Paid(t), "Paiement manquant")
  {
    assert MissingActions(tab, e, t) == [] + Label(!Paid(t), "Paiement manquant") + [];
  }

  // ----- the list and its counters -----

  /** The value `isComplete` returns. Every tab's test yields a boolean except
      the Partenaires one, `ok && moneyOK`: when the chosen packs' flags are
      set and no payment type is given, that is the value of
      `Preuve_Paiement_Transmise` itself, `undefined` when the record or the
      field is missing. The value's truthiness is `IsComplete`. */
  function CompleteValue(tab: string, e: Entity, t: Option<Record>): (v: Value)
    ensures Truthy(v) <==> IsComplete(tab, e, t)
    ensures tab != PartnerTab ==> v.Bool?
    ensures tab == PartnerTab && PackFlagsOk(PackList(Field(t, "Pack_Choisi")), t) && !Paid(t) ==>
      v == Field(t, "Preuve_Paiement_Transmise")
    ensures !v.Bool? ==> tab == PartnerTab && v == Field(t, "Preuve_Paiement_Transmise")
  {
    if tab != PartnerTab then Bool(IsComplete(tab, e, t))
    else if !PackFlagsOk(PackList(Field(t, "Pack_Choisi")), t) then Bool(false)
    else if Paid(t) then Bool(true)
    else Field(t, "Preuve_Paiement_Transmise")
  }

  /** A partner without a tracking record: no packs, no payment, so
      `isComplete` returns `undefined`. */
  lemma PartnerWithoutRecordUndefined(e: Entity)
    ensures CompleteValue(PartnerTab, e, None) == Undefined
  {
    assert PackList(Field(None, "Pack_Choisi")) == [];
  }

  /** One row of the page; `complete` is the value `isComplete` returned. */
  datatype Item = Item(entity: Entity, tracking: Option<Record>, complete: Value, missing: seq<string>)

  function MakeItem(tab: string, rows: seq<Record>, e: Entity): Item {
    var t := TrackingRecord(rows, Get(e, "Id"));
    Item(e, t, CompleteValue(tab, e, t), MissingActions(tab, e, t))
  }

  /** `processedEntities`, given the loaded rows of the tab's table. */
  function ProcessEntities(tab: string, relevant: seq<Entity>, rows: seq<Record>): (r: seq<Item>)
    ensures |r| == |relevant|
    ensures forall i :: 0 <= i < |r| ==>
      (r[i].entity == relevant[i] &&
       r[i].tracking == TrackingRecord(rows, Get(relevant[i], "Id")) &&
       r[i].complete == CompleteValue(tab, relevant[i], r[i].tracking) &&
       (Truthy(r[i].complete) <==> IsComplete(tab, relevant[i], r[i].tracking)) &&
       r[i].missing == MissingActions(tab, relevant[i], r[i].tracking))
    ensures tab != PartnerTab ==> AllBoolean(r)
  {
    MapSeq(relevant, e => MakeItem(tab, rows, e))
  }

  /** Every row's `complete` is a boolean. */
  predicate AllBoolean(items: seq<Item>) {
    forall i :: 0 <= i < |items| ==> items[i].complete.Bool?
  }

  predicate IsTodo(item: Item) {
    !Truthy(item.complete)
  }

  predicate IsDone(item: Item) {
    Truthy(item.complete)
  }

  predicate Everything(item: Item) {
    true
  }

  /** The "all" comparator as written: equal when `a.complete === b.complete`,
      otherwise `a` after `b` exactly when `a.complete` is truthy. */
  function AllCompare(a: Item, b: Item): int {
    if StrictEq(a.complete, b.complete) then 0
    else if Truthy(a.complete) then 1
    else -1
  }

  /** The "all" comparator as a sort key: incomplete rows first. */
  function CompleteLast(item: Item): seq<int> {
    if Truthy(item.complete) then [1] else [0]
  }

  /** On boolean values the comparator is the order of `CompleteLast`: it puts
      `a` first or level with `b` exactly when `a`'s key is not above `b`'s,
      and compares equal exactly on equal keys. */
  lemma AllCompareByKey(a: Item, b: Item)
    requires a.complete.Bool? && b.complete.Bool?
    ensures AllCompare(a, b) <= 0 <==> LexLeq(CompleteLast(a), CompleteLast(b))
    ensures AllCompare(a, b) == 0 <==> CompleteLast(a) == CompleteLast(b)
    ensures AllCompare(a, b) == -AllCompare(b, a)
  {
  }

  /** With `false` against `undefined` the comparator says "first" both ways,
      so it is not a consistent comparator and the order `sort` leaves is the
      engine's own. */
  lemma AllCompareInconsistent(e: Entity, f: Entity)
    ensures var a := Item(e, None, Bool(false), []);
      var b := Item(f, None, Undefined, []);
      AllCompare(a, b) == -1 && AllCompare(b, a) == -1
  {
  }

  /** The comparator of the other modes: every pair compares equal. */
  function NoOrder(item: Item): seq<int> {
    []
  }

  /** `filteredItems`. In "all" mode the rows are sorted by `CompleteLast`,
      which is the source's comparator wherever that one is consistent
      (`AllCompareByKey`). */
  function FilteredItems(mode: string, items: seq<Item>): seq<Item> {
    if mode == "all" then SortBy(Filter(items, Everything), CompleteLast)
    else if mode == "todo" then SortBy(Filter(items, IsTodo), NoOrder)
    else if mode == "done" then SortBy(Filter(items, IsDone), NoOrder)
    else SortBy(Filter(items, Everything), NoOrder)
  }

  /** In "all" mode every row is shown, the incomplete ones first, each group
      in the order of the tab, when every `complete` is a boolean (on every
      tab but Partenaires, by `ProcessEntities`). */
  lemma FilteredAll(items: seq<Item>)
    requires AllBoolean(items)
    ensures FilteredItems("all", items) == Filter(items, IsTodo) + Filter(items, IsDone)
  {
    FilterAllPass(items, Everything);
    SortByTwoKeys(items, CompleteLast, [0], [1], IsTodo, IsDone);
  }

  /** "todo" shows the incomplete rows and "done" the complete ones, in the
      order of the tab. */
  lemma FilteredTodoDone(items: seq<Item>)
    ensures FilteredItems("todo", items) == Filter(items, IsTodo)
    ensures FilteredItems("done", items) == Filter(items, IsDone)
  {
    SortByConstant(Filter(items, IsTodo), NoOrder, []);
    SortByConstant(Filter(items, IsDone), NoOrder, []);
  }

  /** Any other mode shows every row as it is. */
  lemma FilteredOtherMode(mode: string, items: seq<Item>)
    requires mode != "all" && mode != "todo" && mode != "done"
    ensures FilteredItems(mode, items) == items
  {
    FilterAllPass(items, Everything);
    SortByConstant(items, NoOrder, []);
  }

  datatype Stats = Stats(total: nat, todo: nat, done: nat, revenuePromise: int)

  /** A row's share of the promised revenue: nothing for a partner's stand on
      the Stand tab, the entity's amount otherwise. */
  function Revenue(tab: string, item: Item): int {
    if IsPartnerStand(tab, item.entity) then 0 else Amount(item.entity)
  }

  /** `stats`. */
  function StatsOf(tab: string, items: seq<Item>): Stats {
    Stats(|items|, Count(items, IsTodo), Count(items, IsDone), SumBy(items, i => Revenue(tab, i)))
  }

  function ItemAmount(item: Item): int {
    Amount(item.entity)
  }

  /** The counters: every row is to do or done, the two counts are the lengths
      of the two filtered lists, and the promised revenue adds the amounts of
      every row except the partners' stands on the Stand tab. */
  lemma StatsMeaning(tab: string, items: seq<Item>)
    ensures StatsOf(tab, items).todo + StatsOf(tab, items).done == StatsOf(tab, items).total
    ensures StatsOf(tab, items).todo == |FilteredItems("todo", items)|
    ensures StatsOf(tab, items).done == |FilteredItems("done", items)|
    ensures StatsOf(tab, items).revenuePromise ==
      SumBy(Filter(items, (i: Item) => !IsPartnerStand(tab, i.entity)), ItemAmount)
    ensures tab != StandTab ==> StatsOf(tab, items).revenuePromise == SumBy(items, ItemAmount)
  {
    CountSplit(items, IsDone, IsTodo);
    FilteredTodoDone(items);
    var revenue := i => Revenue(tab, i);
    assert StatsOf(tab, items).revenuePromise == SumBy(items, revenue);
    SumByFilter(items, (i: Item) => !IsPartnerStand(tab, i.entity), ItemAmount, revenue);
    if tab != StandTab {
      FilterAllPass(items, (i: Item) => !IsPartnerStand(tab, i.entity));
    }
  }
}
