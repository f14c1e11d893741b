/** The `POST /process` handler of routes/payments.js, behind `verifyToken`.
    Saving the card is an oracle `save` that yields the new document's `_id`,
    or `None` where `newCard.save()` rejects; `now` stands for `Date.now()`. */
module PaymentRoutes {
  import opened Wrappers
  import opened Text
  import opened JsValues
  import opened CardBrand
  import opened CardModel
  import opened BearerAuth

  /** The `savedCard` object of the response. */
  datatype SavedCardView = SavedCardView(id: CardId, last4: string, brand: string)

  datatype Response =
    | Failure(status: nat, message: string)
    | Receipt(
        success: bool,
        message: string,
        transactionId: string,
        amount: JsValue,
        cardSaved: bool,
        savedCard: Option<SavedCardView>)

  const IncompleteMessage := "Datos de pago incompletos"
  const ProcessedMessage := "Pago procesado correctamente"

  /** The record `new Card({...})` is built from, once `cardData.cardNumber`
      is a string (otherwise `slice` or `replace` throws before the save). It
      keeps the raw number and CVV beside the derived `last4` and brand. */
  function CardRecordFor(userId: JsValue, cardData: JsValue, cardNumber: string): (record: CardRecord)
    requires HasProperties(cardData)
    ensures record.userId == userId && record.cardNumber == cardNumber
    ensures record.cvv == Property(cardData, "cvv")
    ensures |record.last4| == Min(4, |cardNumber|)
    ensures cardNumber[|cardNumber| - |record.last4|..] == record.last4
    ensures record.brand in BrandLabels
  {
    CardRecord(
      userId,
      Property(cardData, "cardHolder"),
      cardNumber,
      Property(cardData, "expiryDate"),
      Property(cardData, "cvv"),
      Last4(cardNumber),
      DetermineCardBrand(cardNumber))
  }

  /** What the handler answers for a request whose token passed, with
      `userId` for `req.userId` and `body` for `req.body`; `attempted` is the
      record handed to `save`, if any. */
  predicate ProcessOutcome(userId: JsValue, body: map<string, JsValue>,
                           save: CardRecord -> Option<CardId>, now: nat,
                           resp: Response, attempted: Option<CardRecord>)
  {
    var cardData, amount, saveCard := Get(body, "cardData"), Get(body, "amount"), Get(body, "saveCard");
    // 400 exactly for incomplete data, and then nothing is saved
    && (resp.Failure? <==> !Truthy(cardData) || !Truthy(amount))
    && (resp.Failure? ==> resp == Failure(400, IncompleteMessage) && attempted == None)
    && (resp.Receipt? ==>
          && resp.success
          && resp.message == ProcessedMessage
          && resp.amount == amount
          && resp.transactionId == "TXN_" + Decimal(now))
    // a save is tried exactly when the card is to be kept and its number is text
    && (attempted.Some? <==>
          resp.Receipt? && Truthy(saveCard) && Property(cardData, "cardNumber").Str?)
    // the record keeps the raw number and CVV beside the derived fingerprint
    && (attempted.Some? ==>
          var raw := Property(cardData, "cardNumber").s;
          && attempted.value.userId == userId
          && attempted.value.cardHolder == Property(cardData, "cardHolder")
          && attempted.value.cardNumber == raw
          && attempted.value.expiryDate == Property(cardData, "expiryDate")
          && attempted.value.cvv == Property(cardData, "cvv")
          && attempted.value.last4 == Last4(raw)
          && attempted.value.brand == DetermineCardBrand(raw))
    // a failed save is swallowed: only `cardSaved` and `savedCard` tell
    && (resp.Receipt? ==>
          && (resp.cardSaved <==> attempted.Some? && save(attempted.value).Some?)
          && (resp.savedCard.Some? <==> resp.cardSaved)
          && (resp.cardSaved ==>
                resp.savedCard.value ==
                  SavedCardView(save(attempted.value).value, attempted.value.last4, attempted.value.brand)))
  }

  /** The handler for a request whose token passed. */
  method ProcessPayment(userId: JsValue, body: map<string, JsValue>,
                        save: CardRecord -> Option<CardId>, now: nat)
    returns (resp: Response, attempted: Option<CardRecord>)
    ensures ProcessOutcome(userId, body, save, now, resp, attempted)
  {
    var cardData := Get(body, "cardData");
    var amount := Get(body, "amount");
    var saveCard := Get(body, "saveCard");
    attempted := None;
    if !Truthy(cardData) || !Truthy(amount) {
      resp := Failure(400, IncompleteMessage);
      return;
    }
    var savedCard: Option<SavedCardView> := None;
    if Truthy(saveCard) && Truthy(cardData) {
      var cardNumber := Property(cardData, "cardNumber");
      // a cardNumber that is not text makes `slice` or `replace` throw; the
      // inner catch swallows it and nothing is saved
      if cardNumber.Str? {
        var newCard := CardRecordFor(userId, cardData, cardNumber.s);
        attempted := Some(newCard);
        var stored := save(newCard);
        if stored.Some? {
          savedCard := Some(SavedCardView(stored.value, newCard.last4, newCard.brand));
        }
      }
    }
    resp := Receipt(true, ProcessedMessage, "TXN_" + Decimal(now), amount,
                    savedCard.Some?, savedCard);
  }

  /** `router.post("/process", verifyToken, handler)`: the middleware runs
      first and the handler only when it calls `next()`. */
  method HandleProcess(req: Request, verify: string -> Option<JsValue>,
                       save: CardRecord -> Option<CardId>, now: nat)
    returns (resp: Response, attempted: Option<CardRecord>)
    modifies req`userId
    ensures !HasToken(req.authorization) ==>
      resp == Failure(401, NoTokenMessage) && attempted == None && req.userId == old(req.userId)
    ensures HasToken(req.authorization) && !PayloadAccepted(verify(BearerToken(req.authorization).value)) ==>
      resp == Failure(401, InvalidTokenMessage) && attempted == None && req.userId == old(req.userId)
    ensures HasToken(req.authorization) && PayloadAccepted(verify(BearerToken(req.authorization).value)) ==>
      && req.userId == Property(verify(BearerToken(req.authorization).value).value, "userId")
      && ProcessOutcome(req.userId, req.body, save, now, resp, attempted)
    // a success needs a token that verified
    ensures resp.Receipt? ==>
      HasToken(req.authorization) && PayloadAccepted(verify(BearerToken(req.authorization).value))
  {
    var gate := req.VerifyToken(verify);
    if gate.Respond? {
      return Failure(gate.status, gate.message), None;
    }
    resp, attempted := ProcessPayment(req.userId, req.body, save, now);
  }
}
