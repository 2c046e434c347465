/** Card records and the rule that decides whether a posted card is saved.

    A card is built from the four fields of the request body (name, type,
    image URL and national Pokedex number); any of them may be absent from
    the JSON.  The card schema requires `name` and `type`; `imageUrl` is
    optional and the Pokedex number is not declared by the schema at all.
 */
module Cards {

  datatype Option<+T> = None | Some(value: T)

  /** One stored card, as the request body supplied its four fields. */
  datatype Card = Card(
    name: Option<string>,
    cardType: Option<string>,
    imageUrl: Option<string>,
    dex: Option<int>)

  /** The Pokedex number as the grouping reads it: a missing number and the
      falsy number 0 both become 0. */
  function DexOrZero(card: Card): (d: int)
    ensures card.dex.None? ==> d == 0
    ensures card.dex.Some? ==> d == card.dex.value
  {
    match card.dex
    case None => 0
    case Some(n) => n
  }

  /** A required String path holds a value only when it is present and not
      the empty string. */
  predicate Present(field: Option<string>)
  {
    field.Some? && field.value != ""
  }

  /** The schema validation run by `save`: `name` and `type` are required,
      `imageUrl` is not checked, and the Pokedex number is not in the schema. */
  predicate SatisfiesSchema(card: Card)
  {
    Present(card.name) && Present(card.cardType)
  }

  /** The response of the card-creation endpoint. */
  datatype SaveResponse =
    | Saved(message: string, card: Card)
    | SaveFailed(status: int, error: string)

  /** The store after a request together with the response sent back. */
  datatype SaveOutcome = SaveOutcome(response: SaveResponse, store: seq<Card>)

  /** Handles a card-creation request.  The card is built from the four body
      fields; `writeOk` is whether the database accepted the write of a valid
      document.  A failed validation or write is answered with status 500. */
  function SaveCard(store: seq<Card>, body: Card, writeOk: bool): (out: SaveOutcome)
    ensures out.response.Saved? <==> SatisfiesSchema(body) && writeOk
    ensures out.response.Saved? ==>
      out.response.message == "Card saved!" && out.response.card == body &&
      out.store == store + [body]
    ensures out.response.SaveFailed? ==>
      out.response.status == 500 && out.response.error == "Failed to save card" &&
      out.store == store
  {
    if SatisfiesSchema(body) && writeOk then
      SaveOutcome(Saved("Card saved!", body), store + [body])
    else
      SaveOutcome(SaveFailed(500, "Failed to save card"), store)
  }

  /** A card without a name or without a type is never saved, whatever the
      database would have done. */
  lemma MissingRequiredFieldFails(store: seq<Card>, body: Card, writeOk: bool)
    requires body.name.None? || body.cardType.None?
    ensures SaveCard(store, body, writeOk).response == SaveFailed(500, "Failed to save card")
    ensures SaveCard(store, body, writeOk).store == store
  {
  }

  /** The image URL never decides the outcome: two bodies that differ only in
      `imageUrl` are both saved or both refused. */
  lemma ImageUrlIsOptional(store: seq<Card>, body: Card, url: Option<string>, writeOk: bool)
    ensures SaveCard(store, body, writeOk).response.Saved? <==>
            SaveCard(store, body.(imageUrl := url), writeOk).response.Saved?
  {
  }

  /** The Pokedex number never decides the outcome either: the schema does
      not declare it. */
  lemma DexIsNotValidated(store: seq<Card>, body: Card, dex: Option<int>, writeOk: bool)
    ensures SaveCard(store, body, writeOk).response.Saved? <==>
            SaveCard(store, body.(dex := dex), writeOk).response.Saved?
  {
  }

  /** The body the home page posts (a name, a type that the page replaces by
      "Unknown" when the draw has none, an image URL and no Pokedex number) is
      saved whenever its name and type are non-empty and the write succeeds. */
  lemma ClientBodyIsSaved(store: seq<Card>, name: string, cardType: string, url: string)
    requires name != "" && cardType != ""
    ensures SaveCard(store, Card(Some(name), Some(cardType), Some(url), None), true).response.Saved?
  {
  }
}
