/** The invoice form: when it opens, its fields are filled from the tracking
    record and the entity, and a description is composed unless the tracking
    record already has one; generating needs five fields. */
module Facture {

  import opened JsValues
  import opened Domain
  import opened Wrappers
  import opened Forms
  import opened Collections

  const EventHeader: string :=
    "Championnat de France d'escalade de difficultés jeunes\n16 et 17 Mai 2026 - SAINT PIERRE EN FAUCIGNY\n\n"

  /** The fields `handleGenerate` insists on, in the order it reports them. */
  const Required: seq<string> :=
    ["Facture_Nom", "Facture_Adresse", "Facture_Email", "Facture_Description", "Facture_Montant"]

  /** The line that follows the event header, by entity type. */
  function Specifics(entity: Entity, tracking: Option<Record>, category: string): string {
    if category == "Encart Pub" then
      "Encart Publicitaire - " +
      ToStr(Or(Or(Field(tracking, "Format_Pub"), Field(tracking, "Pack_Choisi")), Str("Format non spécifié")))
    else if category == "Partenaires" then
      "Partenariat - Options: " + ToStr(Or(Field(tracking, "Pack_Choisi"), Str("Aucun pack")))
    else if category == "Stand" then
      "Stand - " + ToStr(Or(Field(tracking, "nb_jour"), Str("?"))) + " jours"
    else
      "Facturation pour " + ToStr(Get(entity, "title"))
  }

  /** The description the form opens with. */
  function Description(entity: Entity, tracking: Option<Record>, category: string): Value {
    var existing := Or(Field(tracking, "Facture_Description"), Str(""));
    if Truthy(existing) then existing else Str(EventHeader + Specifics(entity, tracking, category))
  }

  /** The form buffer the modal opens with. */
  function InitialForm(entity: Entity, tracking: Option<Record>, category: string): Record {
    map[
      "Facture_Nom" := Or(Or(Field(tracking, "Facture_Nom"), Get(entity, "title")), Str("")),
      "Facture_Adresse" := Or(Or(Field(tracking, "Facture_Adresse"), Get(entity, "address")), Str("")),
      "Siret" := Or(Get(entity, "Siret"), Str("")),
      "Facture_Email" := Or(Or(Field(tracking, "Facture_Email"), Field(tracking, "Email_Contact")), Str("")),
      "Facture_Montant" := Or(Or(Field(tracking, "Facture_Montant"), Get(entity, "Recette")), Str("")),
      "Facture_Description" := Description(entity, tracking, category),
      "Date_Paiement" := Or(Or(Field(tracking, "date_paiement"), Field(tracking, "Date_Paiement")), Str("")),
      "Type_Paiement" := Or(Or(Field(tracking, "Type_Paiement"), Field(tracking, "type_paiement")), Str(""))
    ]
  }

  /** An existing description is kept as it is; otherwise the description is
      the event header followed by a line that depends on the type. */
  lemma DescriptionRule(entity: Entity, tracking: Option<Record>, category: string)
    ensures var d := Get(InitialForm(entity, tracking, category), "Facture_Description");
      (Truthy(Field(tracking, "Facture_Description")) ==> d == Field(tracking, "Facture_Description")) &&
      (!Truthy(Field(tracking, "Facture_Description")) ==>
         d.Str? && d.s[..|EventHeader|] == EventHeader && d.s[|EventHeader|..] == Specifics(entity, tracking, category))
    ensures Truthy(Get(InitialForm(entity, tracking, category), "Facture_Description"))
  {
  }

  /** The type-specific line for each type, with its own fallbacks. */
  lemma SpecificLines(entity: Entity, tracking: Option<Record>, category: string)
    ensures category == "Encart Pub" ==>
      Specifics(entity, tracking, category) ==
      "Encart Publicitaire - " + ToStr(FirstTruthy([Field(tracking, "Format_Pub"), Field(tracking, "Pack_Choisi"), Str("Format non spécifié")]))
    ensures category == "Partenaires" ==>
      Specifics(entity, tracking, category) ==
      "Partenariat - Options: " + ToStr(FirstTruthy([Field(tracking, "Pack_Choisi"), Str("Aucun pack")]))
    ensures category == "Stand" ==>
      Specifics(entity, tracking, category) ==
      "Stand - " + ToStr(FirstTruthy([Field(tracking, "nb_jour"), Str("?")])) + " jours"
    ensures category !in {"Encart Pub", "Partenaires", "Stand"} ==>
      Specifics(entity, tracking, category) == "Facturation pour " + ToStr(Get(entity, "title"))
  {
    FallbackToLiteral(Field(tracking, "Format_Pub"), Field(tracking, "Pack_Choisi"), Str("Format non spécifié"));
    FallbackToLiteral(Undefined, Field(tracking, "Pack_Choisi"), Str("Aucun pack"));
    FallbackToLiteral(Undefined, Field(tracking, "nb_jour"), Str("?"));
  }

  /** The name and the address take the tracking record's invoice value
      first and the entity's as a fallback; the SIRET number is the entity's
      alone, or empty. */
  lemma FieldFallbacks(entity: Entity, tracking: Option<Record>, category: string)
    ensures var f := InitialForm(entity, tracking, category);
      f["Facture_Nom"] == FirstTruthy([Field(tracking, "Facture_Nom"), Get(entity, "title")]) &&
      f["Facture_Adresse"] == FirstTruthy([Field(tracking, "Facture_Adresse"), Get(entity, "address")]) &&
      f["Siret"] == FirstTruthy([Get(entity, "Siret")])
  {
    FallbackOfTwo(Field(tracking, "Facture_Nom"), Get(entity, "title"));
    FallbackOfTwo(Field(tracking, "Facture_Adresse"), Get(entity, "address"));
    FallbackOfOne(Get(entity, "Siret"));
  }

  /** The e-mail falls back to the contact e-mail, the amount to the entity's
      recorded revenue, and the lower-case payment date wins over the
      capitalised one. */
  lemma ContactFallbacks(entity: Entity, tracking: Option<Record>, category: string)
    ensures var f := InitialForm(entity, tracking, category);
      f["Facture_Email"] == FirstTruthy([Field(tracking, "Facture_Email"), Field(tracking, "Email_Contact")]) &&
      f["Facture_Montant"] == FirstTruthy([Field(tracking, "Facture_Montant"), Get(entity, "Recette")]) &&
      f["Date_Paiement"] == FirstTruthy([Field(tracking, "date_paiement"), Field(tracking, "Date_Paiement")])
  {
    FallbackOfTwo(Field(tracking, "Facture_Email"), Field(tracking, "Email_Contact"));
    FallbackOfTwo(Field(tracking, "Facture_Montant"), Get(entity, "Recette"));
    FallbackOfTwo(Field(tracking, "date_paiement"), Field(tracking, "Date_Paiement"));
  }

  /** `handleGenerate` */
  function HandleGenerate(form: Record): (r: Outcome)
    ensures r.Generated? <==>
      Truthy(Get(form, "Facture_Nom")) && Truthy(Get(form, "Facture_Adresse")) && Truthy(Get(form, "Facture_Email")) &&
      Truthy(Get(form, "Facture_Description")) && Truthy(Get(form, "Facture_Montant"))
    ensures r.Generated? ==> r.form == form
    ensures r.Blocked? ==> r.missing == Missing(form, Required)
  {
    assert Required[0] == "Facture_Nom" && Required[1] == "Facture_Adresse" && Required[2] == "Facture_Email" &&
           Required[3] == "Facture_Description" && Required[4] == "Facture_Montant";
    Generate(form, Required)
  }

  /** The SIRET number is optional: editing it never changes whether an invoice
      can be generated, nor what is reported missing. */
  lemma SiretNotRequired(form: Record, value: string)
    ensures HandleGenerate(Change(form, "Siret", value)).Generated? == HandleGenerate(form).Generated?
    ensures HandleGenerate(form).Blocked? ==>
      HandleGenerate(Change(form, "Siret", value)) == HandleGenerate(form)
  {
    assert "Siret" !in Required;
    UnrequiredFieldIrrelevant(form, Required, "Siret", value);
  }

  /** A freshly opened form is never blocked by its description, which is
      always filled, and lists its missing fields in the order of the list. */
  lemma OpenedFormMissing(entity: Entity, tracking: Option<Record>, category: string)
    ensures "Facture_Description" !in Missing(InitialForm(entity, tracking, category), Required)
    ensures IsSubsequence(Missing(InitialForm(entity, tracking, category), Required), Required)
  {
    var f := InitialForm(entity, tracking, category);
    DescriptionRule(entity, tracking, category);
    assert Required[3] == "Facture_Description";
    MissingInOrder(f, Required);
  }
}
