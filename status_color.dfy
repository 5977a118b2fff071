/** The colour of the dot shown beside each entity in a referent's list. */
module StatusColor {

  import opened JsValues
  import opened Domain

  const Orange: string := "#FFA500"
  const Blue: string := "#3b82f6"
  const Green: string := "#4ade80"
  const Red: string := "#ef4444"
  const White: string := "#ffffff"

  const ToContact: string := "À contacter"
  const InDiscussion: string := "En discussion"

  /** `getStatusColor`: a `switch` on the status, compared with `===`. */
  function ColorOf(status: Value): string {
    if StrictEq(status, Str(ToContact)) || StrictEq(status, Str(NoAnswer)) then Orange
    else if StrictEq(status, Str(InDiscussion)) then Blue
    else if StrictEq(status, Str(Confirmed)) || StrictEq(status, Str(PaymentDone)) then Green
    else if StrictEq(status, Str(Refused)) then Red
    else White
  }

  /** The five colours are distinct. */
  lemma ColorsDistinct()
    ensures Orange != Blue && Orange != Green && Orange != Red && Orange != White
    ensures Blue != Green && Blue != Red && Blue != White
    ensures Green != Red && Green != White && Red != White
  {
    assert Orange[1] == 'F' && Blue[1] == '3' && Green[1] == '4' && Red[1] == 'e' && White[1] == 'f';
  }

  /** Green marks exactly the signed deals, the ones the financial report and
      the dashboard count. */
  lemma GreenIffSigned(e: Entity)
    ensures ColorOf(Get(e, "Statuts")) == Green <==> IsSigned(e)
  {
    ColorsDistinct();
  }

  /** Each colour and the statuses it stands for; every other status is white. */
  lemma ColorTable(status: Value)
    ensures ColorOf(status) == Orange <==> status == Str(ToContact) || status == Str(NoAnswer)
    ensures ColorOf(status) == Blue <==> status == Str(InDiscussion)
    ensures ColorOf(status) == Red <==> status == Str(Refused)
    ensures ColorOf(status) == White <==>
      status !in {Str(ToContact), Str(NoAnswer), Str(InDiscussion), Str(Confirmed), Str(PaymentDone), Str(Refused)}
  {
    ColorsDistinct();
  }
}
