/** The card document of models/Card.js, as the payment route builds it. */
module CardModel {
  import opened JsValues

  /** The `_id` the store gives a saved document; opaque to the model. */
  type CardId = string

  /** The fields of the card schema. `cardNumber` is a string because the
      route only reaches the save once `slice` and `replace` have succeeded on
      it; the other fields are passed through from the request as they came.
      The `timestamps` option adds `createdAt`/`updatedAt`, which the store
      fills in and the model does not hold. */
  datatype CardRecord = CardRecord(
    userId: JsValue,
    cardHolder: JsValue,
    cardNumber: string,
    expiryDate: JsValue,
    cvv: JsValue,
    last4: string,
    brand: string)
}
