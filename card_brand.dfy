/** The card fingerprint of routes/payments.js: the brand label chosen by
    `determineCardBrand` and the `last4` taken from the raw card number. */
module CardBrand {
  import opened Text

  /** The characters JavaScript's `\s` class matches (ECMAScript WhiteSpace
      and LineTerminator). */
  predicate IsWhitespace(c: char) {
    c in {'\t', '\n', '\U{000B}', '\U{000C}', '\r', ' ', '\U{00A0}', '\U{1680}',
          '\U{2028}', '\U{2029}', '\U{202F}', '\U{205F}', '\U{3000}', '\U{FEFF}'}
    || '\U{2000}' <= c <= '\U{200A}'
  }

  predicate NoWhitespace(s: string) { forall i :: 0 <= i < |s| ==> !IsWhitespace(s[i]) }

  predicate OnlyWhitespace(s: string) { forall i :: 0 <= i < |s| ==> IsWhitespace(s[i]) }

  /** `s.replace(/\s/g, '')`. */
  function StripWhitespace(s: string): (r: string)
    ensures |r| <= |s|
    ensures NoWhitespace(r)
  {
    if s == [] then []
    else if IsWhitespace(s[0]) then StripWhitespace(s[1..])
    else [s[0]] + StripWhitespace(s[1..])
  }

  predicate StartsWith(s: string, prefix: string) { prefix <= s }

  const Visa := "Visa"
  const MasterCard := "MasterCard"
  const AmericanExpress := "American Express"
  const Discover := "Discover"
  const Other := "Otra"

  const BrandLabels: set<string> := {Visa, MasterCard, AmericanExpress, Discover, Other}

  /** `determineCardBrand(cardNumber)`: its prefix tests, in its order. */
  function DetermineCardBrand(cardNumber: string): (brand: string)
    ensures brand in BrandLabels
  {
    var cleaned := StripWhitespace(cardNumber);
    if StartsWith(cleaned, "4") then Visa
    else if StartsWith(cleaned, "5") then MasterCard
    else if StartsWith(cleaned, "34") || StartsWith(cleaned, "37") then AmericanExpress
    else if StartsWith(cleaned, "6") then Discover
    else Other
  }

  /** The same rules with American Express tested first, the order a
      card-brand table usually lists them in. */
  function AmexFirstBrand(cleaned: string): (brand: string) {
    if StartsWith(cleaned, "34") || StartsWith(cleaned, "37") then AmericanExpress
    else if StartsWith(cleaned, "4") then Visa
    else if StartsWith(cleaned, "5") then MasterCard
    else if StartsWith(cleaned, "6") then Discover
    else Other
  }

  /** `cardNumber.slice(-4)`: taken from the raw text, whitespace included. */
  function Last4(cardNumber: string): (last4: string)
    ensures |last4| == Min(4, |cardNumber|)
    ensures cardNumber == cardNumber[..|cardNumber| - |last4|] + last4
  {
    SliceLast(cardNumber, 4)
  }

  /** Each label's exact condition on the cleaned number; the five conditions
      are mutually exclusive and cover every input. */
  lemma BrandCases(cardNumber: string)
    ensures var c := StripWhitespace(cardNumber);
      && (DetermineCardBrand(cardNumber) == Visa <==> |c| >= 1 && c[0] == '4')
      && (DetermineCardBrand(cardNumber) == MasterCard <==> |c| >= 1 && c[0] == '5')
      && (DetermineCardBrand(cardNumber) == AmericanExpress <==>
            |c| >= 2 && c[0] == '3' && (c[1] == '4' || c[1] == '7'))
      && (DetermineCardBrand(cardNumber) == Discover <==> |c| >= 1 && c[0] == '6')
      && (DetermineCardBrand(cardNumber) == Other <==>
            c == [] || (c[0] !in "3456") || (c[0] == '3' && (|c| == 1 || c[1] !in "47")))
  {
    var c := StripWhitespace(cardNumber);
    if |c| >= 2 {
      assert StartsWith(c, "34") <==> c[0] == '3' && c[1] == '4';
      assert StartsWith(c, "37") <==> c[0] == '3' && c[1] == '7';
    }
    if |c| >= 1 {
      assert StartsWith(c, "4") <==> c[0] == '4';
      assert StartsWith(c, "5") <==> c[0] == '5';
      assert StartsWith(c, "6") <==> c[0] == '6';
    }
  }

  /** Testing `4` and `5` before `34`/`37` loses nothing: the prefixes are
      disjoint, so the order of `determineCardBrand` and the Amex-first order
      agree. */
  lemma PrecedenceIrrelevant(cardNumber: string)
    ensures DetermineCardBrand(cardNumber) == AmexFirstBrand(StripWhitespace(cardNumber))
  {
    var c := StripWhitespace(cardNumber);
    if StartsWith(c, "34") || StartsWith(c, "37") {
      assert c[0] == '3';
      assert !StartsWith(c, "4") && !StartsWith(c, "5");
    }
  }

  /** Stripping distributes over concatenation. */
  lemma {:induction false} StripConcat(a: string, b: string)
    ensures StripWhitespace(a + b) == StripWhitespace(a) + StripWhitespace(b)
  {
    if a != [] {
      assert (a + b)[0] == a[0];
      assert (a + b)[1..] == a[1..] + b;
      StripConcat(a[1..], b);
    } else {
      assert a + b == b;
    }
  }

  lemma {:induction false} StripOnlyWhitespace(w: string)
    requires OnlyWhitespace(w)
    ensures StripWhitespace(w) == []
  {
    if w != [] {
      assert OnlyWhitespace(w[1..]) by {
        forall i | 0 <= i < |w[1..]| ensures IsWhitespace(w[1..][i]) { assert w[1..][i] == w[i + 1]; }
      }
      StripOnlyWhitespace(w[1..]);
    }
  }

  lemma {:induction false} StripNoWhitespace(s: string)
    requires NoWhitespace(s)
    ensures StripWhitespace(s) == s
  {
    if s != [] {
      assert NoWhitespace(s[1..]) by {
        forall i | 0 <= i < |s[1..]| ensures !IsWhitespace(s[1..][i]) { assert s[1..][i] == s[i + 1]; }
      }
      StripNoWhitespace(s[1..]);
      assert [s[0]] + s[1..] == s;
    }
  }

  /** Inserting (or, read backwards, removing) a run of whitespace anywhere in
      the number does not change its brand. */
  lemma WhitespaceInsertionPreservesBrand(a: string, w: string, b: string)
    requires OnlyWhitespace(w)
    ensures DetermineCardBrand(a + w + b) == DetermineCardBrand(a + b)
  {
    assert StripWhitespace(a + w + b) == StripWhitespace(a + b) by {
      StripConcat(a + w, b);
      StripConcat(a, w);
      StripOnlyWhitespace(w);
      StripConcat(a, b);
      assert StripWhitespace(a) + [] == StripWhitespace(a);
    }
  }

  /** Classifying an already cleaned number gives the same brand. */
  lemma BrandOfCleanedNumber(cardNumber: string)
    ensures DetermineCardBrand(StripWhitespace(cardNumber)) == DetermineCardBrand(cardNumber)
  {
    StripNoWhitespace(StripWhitespace(cardNumber));
  }

  /** The route keeps whitespace in `last4`: a number typed with a trailing
      whitespace character ends its `last4` with that character, so such a
      `last4` is not four digits. */
  lemma Last4KeepsTrailingWhitespace(digits: string, c: char)
    requires IsWhitespace(c)
    ensures var l := Last4(digits + [c]);
      |l| >= 1 && l[|l| - 1] == c && !AllDigits(l)
  {
    var l := Last4(digits + [c]);
    assert l[|l| - 1] == (digits + [c])[|digits + [c]| - 1];
    assert !IsDigit(l[|l| - 1]);
  }

  /** A number keeps its brand when written with leading whitespace. */
  lemma LeadingWhitespaceSkipped(w: string, cardNumber: string)
    requires OnlyWhitespace(w)
    ensures DetermineCardBrand(w + cardNumber) == DetermineCardBrand(cardNumber)
  {
    WhitespaceInsertionPreservesBrand([], w, cardNumber);
    assert [] + w + cardNumber == w + cardNumber && [] + cardNumber == cardNumber;
  }
}
