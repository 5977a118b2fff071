/** The entities of the contact list (advertisers, partners, sponsors, stand
    holders) and the statuses the pages test for. An entity is a row of the
    main table; its fields are read by name. */
module Domain {

  import opened JsValues

  type Entity = Record

  const Confirmed: string := "Confirmé (en attente de paiement)"
  const PaymentDone: string := "Paiement effectué"
  const Refused: string := "Refusé"
  const NoAnswer: string := "Sans réponse"

  /** The club member in charge of the contact, and the choice that stands
      for "nobody". */
  const ReferentField: string := "Référent_partenariat_club"
  const Unassigned: string := "Non attribué"

  /** The status is one of the two that count as a signed deal. */
  predicate IsSigned(e: Entity) {
    StrictEq(Get(e, "Statuts"), Str(Confirmed)) || StrictEq(Get(e, "Statuts"), Str(PaymentDone))
  }

  /** `e.Type === t` */
  predicate HasType(e: Entity, t: string) {
    StrictEq(Get(e, "Type"), Str(t))
  }

  /** `parseFloat(e.Recette) || 0` */
  function Amount(e: Entity): int {
    ParseAmount(Get(e, "Recette"))
  }
}
