/** The payment document of models/Payment.js: its order-number generator,
    the schema's defaults and enumerations, and the pre-save hook. The clock
    reading `ts` (`Date.now()`) and the draw `r` (`Math.floor(Math.random() *
    1000)`) are parameters. */
module PaymentModel {
  import opened Wrappers
  import opened Text

  /** The values `Math.floor(Math.random() * 1000)` can take. */
  type Random = r: nat | r < 1000

  const OrderPrefix := "PZ"

  /** `PZ${Date.now().toString().slice(-6)}${random.toString().padStart(3, '0')}`:
      the expression the schema default, the pre-save hook and the static
      `generateOrderNumber` all evaluate. It starts with `PZ` and is at
      least six characters long. */
  function GenerateOrderNumber(ts: nat, r: Random): (s: string)
    ensures OrderPrefix <= s && |s| >= 6
  {
    OrderPrefix + SliceLast(Decimal(ts), 6) + PadStart(Decimal(r), 3, '0')
  }

  /** The random part is exactly three digits and reads back as `r`. */
  lemma RandomSuffix(r: Random)
    ensures var p := PadStart(Decimal(r), 3, '0');
      |p| == 3 && AllDigits(p) && ParseDecimal(p) == r
  {
    var d := Decimal(r);
    DecimalWellFormed(r);
    ParseDecimalRoundTrip(r);
    assert |d| <= 3 by {
      DecimalLength(r);
      if |d| > 3 {
        Pow10Monotone(3, |d| - 1);
        assert false;
      }
    }
    var z := Repeat('0', 3 - |d|);
    assert PadStart(d, 3, '0') == z + d;
    ParseDecimalLeadingZeros(z, d);
  }

  /** The timestamp part is one to six digits. */
  lemma TimestampPart(ts: nat)
    ensures var t := SliceLast(Decimal(ts), 6);
      1 <= |t| <= 6 && AllDigits(t)
  {
    DecimalWellFormed(ts);
    SuffixDigits(Decimal(ts), 6);
  }

  /** The order number is the prefix, the last six characters of the
      timestamp's decimal text and the three-digit random part. */
  lemma OrderNumberParts(ts: nat, r: Random)
    ensures var t, p := SliceLast(Decimal(ts), 6), PadStart(Decimal(r), 3, '0');
      && GenerateOrderNumber(ts, r) == OrderPrefix + t + p
      && 1 <= |t| <= 6 && AllDigits(t)
      && |p| == 3 && AllDigits(p) && ParseDecimal(p) == r
  {
    RandomSuffix(r);
    TimestampPart(ts);
  }

  /** From a six-digit timestamp on, the order number is `PZ` and nine digits:
      six spelling `ts % 1000000`, then three spelling `r`. */
  lemma OrderNumberFormat(ts: nat, r: Random)
    requires ts >= 100000
    ensures var s := GenerateOrderNumber(ts, r);
      && |s| == 11
      && s[..2] == OrderPrefix
      && AllDigits(s[2..]) && AllDigits(s[2..8]) && AllDigits(s[8..])
      && ParseDecimal(s[2..8]) == ts % 1000000
      && ParseDecimal(s[8..]) == r
  {
    var d := Decimal(ts);
    var t, p := SliceLast(d, 6), PadStart(Decimal(r), 3, '0');
    OrderNumberParts(ts, r);
    SixDigits(ts);
    assert |t| == 6 && t == d[|d| - 6..];
    ParseDecimalSuffix(ts, 6);
    assert Pow10(6) == 1000000;
    assert ParseDecimal(t) == ts % 1000000;
    ThreeParts(OrderPrefix, t, p);
    ConcatDigits(t, p);
  }

  /** The three pieces of `a + t + p` sit where they were put. */
  lemma ThreeParts(a: string, t: string, p: string)
    ensures var s := a + t + p;
      && s[..|a|] == a && s[|a|..] == t + p
      && s[|a|..|a| + |t|] == t && s[|a| + |t|..] == p
  {
    var s := a + t + p;
    assert s == a + (t + p);
    assert s[|a|..] == t + p;
    assert (t + p)[..|t|] == t && (t + p)[|t|..] == p;
  }

  /** Below 100000 the timestamp has fewer than six digits and the order
      number is shorter than eleven characters. */
  lemma ShortTimestampShortOrderNumber(ts: nat, r: Random)
    requires ts < 100000
    ensures |GenerateOrderNumber(ts, r)| < 11
  {
    OrderNumberParts(ts, r);
    SixDigits(ts);
  }

  lemma SuffixDigits(s: string, k: nat)
    requires k >= 1 && AllDigits(s)
    ensures AllDigits(SliceLast(s, k))
  {
    var t := SliceLast(s, k);
    forall i | 0 <= i < |t| ensures IsDigit(t[i]) { assert t[i] == s[|s| - |t| + i]; }
  }

  lemma ConcatDigits(a: string, b: string)
    requires AllDigits(a) && AllDigits(b)
    ensures AllDigits(a + b)
  {
    forall i | 0 <= i < |a + b| ensures IsDigit((a + b)[i]) {
      if i < |a| { assert (a + b)[i] == a[i]; } else { assert (a + b)[i] == b[i - |a|]; }
    }
  }

  /** Two digit strings of one length with one value are the same string. */
  lemma {:induction false} ParseDecimalInjective(a: string, b: string)
    requires AllDigits(a) && AllDigits(b) && |a| == |b|
    requires ParseDecimal(a) == ParseDecimal(b)
    ensures a == b
  {
    if a != [] {
      var n := |a| - 1;
      var x, y := ParseDecimal(a[..n]), ParseDecimal(b[..n]);
      var da, db := DigitValue(a[n]), DigitValue(b[n]);
      assert 10 * x + da == 10 * y + db;
      assert da == (10 * x + da) % 10 && db == (10 * y + db) % 10;
      assert x == y;
      assert AllDigits(a[..n]) && AllDigits(b[..n]);
      ParseDecimalInjective(a[..n], b[..n]);
      assert a == a[..n] + [a[n]] && b == b[..n] + [b[n]];
    }
  }

  /** Generation is injective in the timestamp's last six characters and the
      random draw: two order numbers agree exactly when both parts do. */
  lemma OrderNumberInjective(ts1: nat, r1: Random, ts2: nat, r2: Random)
    ensures GenerateOrderNumber(ts1, r1) == GenerateOrderNumber(ts2, r2) <==>
      SliceLast(Decimal(ts1), 6) == SliceLast(Decimal(ts2), 6) && r1 == r2
  {
    var s1, s2 := GenerateOrderNumber(ts1, r1), GenerateOrderNumber(ts2, r2);
    if s1 == s2 {
      OrderNumberParts(ts1, r1);
      OrderNumberParts(ts2, r2);
      var t1, t2 := SliceLast(Decimal(ts1), 6), SliceLast(Decimal(ts2), 6);
      var p1, p2 := PadStart(Decimal(r1), 3, '0'), PadStart(Decimal(r2), 3, '0');
      ThreeParts(OrderPrefix, t1, p1);
      ThreeParts(OrderPrefix, t2, p2);
      assert |t1| == |t2| by {
        assert |s1| == 2 + |t1| + 3 && |s2| == 2 + |t2| + 3;
      }
      assert p1 == p2 && t1 == t2;
    }
  }

  /** One clock reading, two different draws: two different order numbers. */
  lemma SameTimestampDistinctDraws(ts: nat, r1: Random, r2: Random)
    requires r1 != r2
    ensures GenerateOrderNumber(ts, r1) != GenerateOrderNumber(ts, r2)
  {
    OrderNumberInjective(ts, r1, ts, r2);
  }

  /** For six-digit timestamps the order number determines, and is determined
      by, `ts % 1000000` and `r`: readings a multiple of 10^6 ms apart collide. */
  lemma OrderNumberCollision(ts1: nat, r1: Random, ts2: nat, r2: Random)
    requires ts1 >= 100000 && ts2 >= 100000
    ensures GenerateOrderNumber(ts1, r1) == GenerateOrderNumber(ts2, r2) <==>
      ts1 % 1000000 == ts2 % 1000000 && r1 == r2
  {
    var s1, s2 := GenerateOrderNumber(ts1, r1), GenerateOrderNumber(ts2, r2);
    OrderNumberFormat(ts1, r1);
    OrderNumberFormat(ts2, r2);
    OrderNumberParts(ts1, r1);
    OrderNumberParts(ts2, r2);
    OrderNumberInjective(ts1, r1, ts2, r2);
    if ts1 % 1000000 == ts2 % 1000000 && r1 == r2 {
      var t1, t2 := SliceLast(Decimal(ts1), 6), SliceLast(Decimal(ts2), 6);
      assert s1[2..8] == t1 && s2[2..8] == t2;
      ParseDecimalInjective(t1, t2);
    }
  }

  /** The hook's rule: keep a non-empty order number, fill an empty one
      (`undefined` and `null` are modelled as the empty string, all three
      being falsy). */
  function PreSaveOrderNumber(current: string, ts: nat, r: Random): (s: string)
    ensures s != ""
    ensures current != "" ==> s == current
  {
    if current == "" then GenerateOrderNumber(ts, r) else current
  }

  /** After the hook the required order number is always present; a present
      one is untouched. */
  lemma PreSaveFillsOnlyEmpty(current: string, ts: nat, r: Random)
    ensures PreSaveOrderNumber(current, ts, r) != ""
    ensures current != "" ==> PreSaveOrderNumber(current, ts, r) == current
    ensures current == "" ==> PreSaveOrderNumber(current, ts, r) == GenerateOrderNumber(ts, r)
  {
    assert |GenerateOrderNumber(ts, r)| >= 2;
  }

  /** Running the hook again, at any later clock reading and draw, changes
      nothing. */
  lemma PreSaveIdempotent(current: string, ts: nat, r: Random, ts2: nat, r2: Random)
    ensures PreSaveOrderNumber(PreSaveOrderNumber(current, ts, r), ts2, r2) ==
      PreSaveOrderNumber(current, ts, r)
  {
    PreSaveFillsOnlyEmpty(current, ts, r);
  }

  const DefaultCurrency := "MXN"
  const DefaultStatus := "completed"
  const PaymentMethods: seq<string> := ["card", "saved_card", "cash"]
  const Statuses: seq<string> := ["pending", "completed", "failed", "refunded"]

  datatype Item = Item(name: string, detail: string, price: real, quantity: real)
  datatype CardDetails = CardDetails(last4: string, brand: string, cardHolder: string)
  datatype CustomerInfo = CustomerInfo(name: string, email: string, phone: string)

  /** A payment document. An absent `userId` or `amount` is `None`. The
      `timestamps` option's `createdAt`/`updatedAt` are not held. */
  class PaymentDocument {
    var userId: Option<string>
    var orderNumber: string
    var amount: Option<real>
    var currency: string
    var items: seq<Item>
    var paymentMethod: string
    var cardDetails: Option<CardDetails>
    var status: string
    var customerInfo: Option<CustomerInfo>

    /** The schema's validators: the four required paths are set (a required
        string must be non-empty) and both enumerated paths hold one of their
        values. */
    predicate Valid()
      reads this
    {
      && userId.Some?
      && orderNumber != ""
      && amount.Some?
      && paymentMethod in PaymentMethods
      && status in Statuses
    }

    /** `new Payment({...})`: a path given as `undefined` takes its default;
        the `orderNumber` default is drawn at construction. */
    constructor (userId: Option<string>, orderNumber: Option<string>, amount: Option<real>,
                 currency: Option<string>, items: seq<Item>, paymentMethod: string,
                 cardDetails: Option<CardDetails>, status: Option<string>,
                 customerInfo: Option<CustomerInfo>, ts: nat, r: Random)
      ensures this.orderNumber ==
        if orderNumber.Some? then orderNumber.value else GenerateOrderNumber(ts, r)
      ensures this.currency == if currency.Some? then currency.value else DefaultCurrency
      ensures this.status == if status.Some? then status.value else DefaultStatus
      ensures this.userId == userId && this.amount == amount && this.items == items
      ensures this.paymentMethod == paymentMethod && this.cardDetails == cardDetails
      ensures this.customerInfo == customerInfo
      // with defaults taken, only the caller's own values can fail validation
      ensures orderNumber.None? && status.None? ==>
        (Valid() <==> userId.Some? && amount.Some? && paymentMethod in PaymentMethods)
    {
      this.userId := userId;
      this.orderNumber := if orderNumber.Some? then orderNumber.value else GenerateOrderNumber(ts, r);
      this.amount := amount;
      this.currency := if currency.Some? then currency.value else DefaultCurrency;
      this.items := items;
      this.paymentMethod := paymentMethod;
      this.cardDetails := cardDetails;
      this.status := if status.Some? then status.value else DefaultStatus;
      this.customerInfo := customerInfo;
      new;
      assert DefaultStatus == Statuses[1];
    }

    /** `paymentSchema.pre('save', ...)`: fills `orderNumber` in place when
        it is empty and touches nothing else. */
    method PreSave(ts: nat, r: Random)
      modifies this`orderNumber
      ensures orderNumber == PreSaveOrderNumber(old(orderNumber), ts, r)
      ensures orderNumber != ""
      ensures old(orderNumber) != "" ==> orderNumber == old(orderNumber)
      ensures old(Valid()) ==> Valid()
    {
      if orderNumber == "" {
        orderNumber := GenerateOrderNumber(ts, r);
      }
      PreSaveFillsOnlyEmpty(old(orderNumber), ts, r);
    }
  }

  /** A document saved twice keeps the order number the first save gave it. */
  method SaveTwice(doc: PaymentDocument, ts1: nat, r1: Random, ts2: nat, r2: Random)
    modifies doc`orderNumber
    ensures doc.orderNumber == PreSaveOrderNumber(old(doc.orderNumber), ts1, r1)
  {
    doc.PreSave(ts1, r1);
    doc.PreSave(ts2, r2);
    PreSaveIdempotent(old(doc.orderNumber), ts1, r1, ts2, r2);
  }
}
