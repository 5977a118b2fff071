/** The tax-receipt form for sponsors: its fields are filled from the tracking
    record and the entity when it opens, a stored payment date is converted
    from `DD/MM/YYYY` to the ISO form a date input expects, and generating
    needs four fields. */
module Mecenat {

  import opened JsValues
  import opened Domain
  import opened Wrappers
  import opened Text
  import opened Forms

  const Required: seq<string> := ["Dénomination", "Adresse", "Email", "Montant"]

  /** `/^\d{4}-\d{2}-\d{2}$/` */
  predicate IsoShaped(s: string) {
    |s| == 10 &&
    (forall i :: 0 <= i < 10 && i != 4 && i != 7 ==> IsAsciiDigit(s[i])) &&
    s[4] == '-' && s[7] == '-'
  }

  /** `parseDateToIso`: an ISO date is kept, three `/`-separated parts are
      reordered as year-month-day, anything else gives the empty string. */
  function ParseDateToIso(s: string): string {
    if s == "" then ""
    else if IsoShaped(s) then s
    else
      var parts := Split(s, '/');
      if |parts| == 3 then parts[2] + "-" + parts[1] + "-" + parts[0] else ""
  }

  /** The number of separators in a text. */
  function SlashCount(s: string): nat {
    multiset(s)['/']
  }

  /** `split('/')` gives one part more than there are separators. */
  lemma {:induction false} SplitLength(s: string)
    ensures |Split(s, '/')| == SlashCount(s) + 1
    decreases |s|
  {
    if s != [] {
      SplitLength(s[1..]);
      assert s == [s[0]] + s[1..];
      assert multiset(s) == multiset{s[0]} + multiset(s[1..]);
    }
  }

  /** An empty input gives the empty string, and an ISO date comes back unchanged. */
  lemma EmptyAndIso(s: string)
    ensures ParseDateToIso("") == ""
    ensures IsoShaped(s) ==> ParseDateToIso(s) == s
  {
  }

  /** Three parts around two slashes are copied, unpadded and unchecked, as
      year-month-day. */
  lemma SlashDate(day: string, month: string, year: string)
    requires '/' !in day && '/' !in month && '/' !in year
    ensures ParseDateToIso(day + "/" + month + "/" + year) == year + "-" + month + "-" + day
  {
    var s := day + "/" + month + "/" + year;
    SplitJoin([day, month, year], '/');
    assert Join([day, month, year], '/') == s by {
      assert Join([month, year], '/') == month + "/" + year;
      assert [day, month, year][1..] == [month, year];
    }
    assert s[|day|] == '/';
  }

  /** A non-empty text that is not an ISO date and does not have exactly two
      slashes gives the empty string. */
  lemma OtherInputs(s: string)
    requires s != "" && !IsoShaped(s) && SlashCount(s) != 2
    ensures ParseDateToIso(s) == ""
  {
    SplitLength(s);
  }

  /** A digit-only `DD/MM/YYYY` date becomes an ISO date, which a second
      conversion leaves as it is. */
  lemma DigitDate(day: string, month: string, year: string)
    requires |day| == 2 && |month| == 2 && |year| == 4
    requires forall i :: 0 <= i < 2 ==> IsAsciiDigit(day[i]) && IsAsciiDigit(month[i])
    requires forall i :: 0 <= i < 4 ==> IsAsciiDigit(year[i])
    ensures IsoShaped(ParseDateToIso(day + "/" + month + "/" + year))
    ensures ParseDateToIso(ParseDateToIso(day + "/" + month + "/" + year)) ==
            ParseDateToIso(day + "/" + month + "/" + year)
  {
    assert '/' !in day by { assert forall i :: 0 <= i < 2 ==> day[i] != '/'; }
    assert '/' !in month by { assert forall i :: 0 <= i < 2 ==> month[i] != '/'; }
    assert '/' !in year by { assert forall i :: 0 <= i < 4 ==> year[i] != '/'; }
    SlashDate(day, month, year);
    var iso := year + "-" + month + "-" + day;
    assert forall i :: 0 <= i < 4 ==> iso[i] == year[i];
    assert forall i :: 5 <= i < 7 ==> iso[i] == month[i - 5];
    assert forall i :: 8 <= i < 10 ==> iso[i] == day[i - 8];
  }

  /** The form buffer the modal opens with. */
  function InitialForm(entity: Entity, tracking: Option<Record>): Record {
    map[
      "Dénomination" := Or(Or(Field(tracking, "Facture_Nom"), Get(entity, "title")), Str("")),
      "Adresse" := Or(Or(Field(tracking, "Facture_Adresse"), Get(entity, "address")), Str("")),
      "SIRET" := Or(Get(entity, "Siret"), Str("")),
      "Email" := Or(Or(Field(tracking, "Facture_Email"), Field(tracking, "Email_Contact")), Str("")),
      "Montant" := Or(Or(Field(tracking, "Facture_Montant"), Get(entity, "Recette")), Str("")),
      "Forme_Juridique" := Or(Get(entity, "juridique"), Str("")),
      "Type_Paiement" := Or(Field(tracking, "Type_Paiement"), Str("")),
      "Date_Paiement" :=
        Str(ParseDateToIso(ToStr(Or(Or(Field(tracking, "date_paiement"), Field(tracking, "Date_Paiement")), Str("")))))
    ]
  }

  /** The legal form is read from the entity's `juridique` field, the payment
      type only from the tracking record, and the name prefers the tracking
      record's invoice name. */
  lemma FieldSources(entity: Entity, tracking: Option<Record>)
    ensures var f := InitialForm(entity, tracking);
      f["Forme_Juridique"] == FirstTruthy([Get(entity, "juridique")]) &&
      f["Type_Paiement"] == FirstTruthy([Field(tracking, "Type_Paiement")]) &&
      f["Dénomination"] == FirstTruthy([Field(tracking, "Facture_Nom"), Get(entity, "title")])
  {
    FallbackOfOne(Get(entity, "juridique"));
    FallbackOfOne(Field(tracking, "Type_Paiement"));
    FallbackOfTwo(Field(tracking, "Facture_Nom"), Get(entity, "title"));
  }

  /** The address, e-mail and amount take the same sources as the invoice form. */
  lemma InvoiceValuesReused(entity: Entity, tracking: Option<Record>)
    ensures var f := InitialForm(entity, tracking);
      f["Adresse"] == FirstTruthy([Field(tracking, "Facture_Adresse"), Get(entity, "address")]) &&
      f["Email"] == FirstTruthy([Field(tracking, "Facture_Email"), Field(tracking, "Email_Contact")]) &&
      f["Montant"] == FirstTruthy([Field(tracking, "Facture_Montant"), Get(entity, "Recette")])
  {
    FallbackOfTwo(Field(tracking, "Facture_Adresse"), Get(entity, "address"));
    FallbackOfTwo(Field(tracking, "Facture_Email"), Field(tracking, "Email_Contact"));
    FallbackOfTwo(Field(tracking, "Facture_Montant"), Get(entity, "Recette"));
  }

  /** A stored `DD/MM/YYYY` payment date opens as the matching ISO date. */
  lemma StoredDateConverted(entity: Entity, tracking: Option<Record>, day: string, month: string, year: string)
    requires '/' !in day && '/' !in month && '/' !in year
    requires Field(tracking, "date_paiement") == Str(day + "/" + month + "/" + year)
    ensures InitialForm(entity, tracking)["Date_Paiement"] == Str(year + "-" + month + "-" + day)
  {
    SlashDate(day, month, year);
  }

  /** `handleGenerate` */
  function HandleGenerate(form: Record): (r: Outcome)
    ensures r.Generated? <==>
      Truthy(Get(form, "Dénomination")) && Truthy(Get(form, "Adresse")) &&
      Truthy(Get(form, "Email")) && Truthy(Get(form, "Montant"))
    ensures r.Generated? ==> r.form == form
    ensures r.Blocked? ==> r.missing == Missing(form, Required)
  {
    assert Required[0] == "Dénomination" && Required[1] == "Adresse" && Required[2] == "Email" && Required[3] == "Montant";
    Generate(form, Required)
  }

  /** Neither the SIRET number nor the legal form is required. */
  lemma OptionalFields(form: Record, value: string)
    ensures HandleGenerate(Change(form, "SIRET", value)).Generated? == HandleGenerate(form).Generated?
    ensures HandleGenerate(Change(form, "Forme_Juridique", value)).Generated? == HandleGenerate(form).Generated?
  {
    var a, b := Change(form, "SIRET", value), Change(form, "Forme_Juridique", value);
    assert Get(a, "Dénomination") == Get(form, "Dénomination") && Get(b, "Dénomination") == Get(form, "Dénomination");
    assert Get(a, "Adresse") == Get(form, "Adresse") && Get(b, "Adresse") == Get(form, "Adresse");
    assert Get(a, "Email") == Get(form, "Email") && Get(b, "Email") == Get(form, "Email");
    assert Get(a, "Montant") == Get(form, "Montant") && Get(b, "Montant") == Get(form, "Montant");
  }
}
