/** Models/CreditCard.cs: the card record and its declarative validation rules. Each data
    annotation becomes one predicate; ASP.NET's model validation (`ModelState.IsValid`)
    becomes `Valid`, and the list of messages it would report becomes `Errors`. */
module CreditCards {
  import opened Common

  /** A card row. The string columns may arrive null from the form, hence `Option`. At most
      one of the two owner links is set by the controllers. */
  datatype CreditCard = CreditCard(
    id: int,
    cardNumber: Option<string>,
    cardholderName: Option<string>,
    expiryMonth: int,
    expiryYear: int,
    cvv: Option<string>,
    customerId: Option<int>,
    sellerId: Option<int>)

  /** `[Required]` on a string: not null, and not empty or white space only. */
  predicate Required(s: Option<string>)
  {
    !IsNullOrWhiteSpace(s)
  }

  /** `[StringLength(50, MinimumLength = 2)]`: null passes, otherwise 2 to 50 characters. */
  predicate NameLengthOk(s: Option<string>)
  {
    s.None? || 2 <= |s.value| <= 50
  }

  predicate IsDigit(c: char)
  {
    '0' <= c <= '9'
  }

  /** `[RegularExpression(@"^\d{3,4}$")]`: null and "" pass; otherwise the whole string must
      match, so it is exactly three or four digits. */
  predicate CvvPatternOk(s: Option<string>)
  {
    s.None? || s.value == ""
    || ((|s.value| == 3 || |s.value| == 4) && forall i :: 0 <= i < |s.value| ==> IsDigit(s.value[i]))
  }

  predicate CardNumberOk(card: CreditCard)
  {
    Required(card.cardNumber)
  }

  predicate CardholderNameOk(card: CreditCard)
  {
    Required(card.cardholderName) && NameLengthOk(card.cardholderName)
  }

  /** `[Range(1, 12)]`. */
  predicate ExpiryMonthOk(card: CreditCard)
  {
    1 <= card.expiryMonth <= 12
  }

  /** `[Range(2025, 2050)]`. */
  predicate ExpiryYearOk(card: CreditCard)
  {
    2025 <= card.expiryYear <= 2050
  }

  predicate CvvOk(card: CreditCard)
  {
    Required(card.cvv) && CvvPatternOk(card.cvv)
  }

  /** The card passes every rule. */
  predicate Valid(card: CreditCard)
  {
    CardNumberOk(card) && CardholderNameOk(card) && ExpiryMonthOk(card)
    && ExpiryYearOk(card) && CvvOk(card)
  }

  /** The messages model validation reports, attribute by attribute, in declaration order. */
  function Errors(card: CreditCard): (r: seq<string>)
    ensures |r| <= 7
  {
    (if Required(card.cardNumber) then [] else ["Card number is required"])
    + (if Required(card.cardholderName) then [] else ["Cardholder name is required"])
    + (if NameLengthOk(card.cardholderName) then [] else ["Name must be 2–50 characters"])
    + (if ExpiryMonthOk(card) then [] else ["Expiry month must be between 1 and 12"])
    + (if ExpiryYearOk(card) then [] else ["Expiry year must be between 2025 and 2050"])
    + (if Required(card.cvv) then [] else ["CVV is required"])
    + (if CvvPatternOk(card.cvv) then [] else ["CVV must be 3 or 4 digits"])
  }

  /** A card is valid exactly when validation reports no message. */
  lemma ValidIffNoErrors(card: CreditCard)
    ensures Valid(card) <==> Errors(card) == []
  {
    if Errors(card) == [] {
      assert |Errors(card)| == 0;
    }
  }

  /** A valid CVV is three or four decimal digits, and any such string is a valid CVV. */
  lemma CvvExactly(card: CreditCard)
    ensures CvvOk(card) <==>
      card.cvv.Some? && (|card.cvv.value| == 3 || |card.cvv.value| == 4)
      && forall i :: 0 <= i < |card.cvv.value| ==> IsDigit(card.cvv.value[i])
  {
    if card.cvv.Some? && (|card.cvv.value| == 3 || |card.cvv.value| == 4)
      && forall i :: 0 <= i < |card.cvv.value| ==> IsDigit(card.cvv.value[i])
    {
      assert !IsWhiteSpace(card.cvv.value[0]);
    }
  }

  /** A valid cardholder name has 2 to 50 characters, not all of them white space. */
  lemma NameBounds(card: CreditCard)
    requires CardholderNameOk(card)
    ensures card.cardholderName.Some? && 2 <= |card.cardholderName.value| <= 50
    ensures exists i :: 0 <= i < |card.cardholderName.value| && !IsWhiteSpace(card.cardholderName.value[i])
  {
  }

  /** The owner links take no part in validation. */
  lemma OwnerIrrelevant(card: CreditCard, customerId: Option<int>, sellerId: Option<int>, id: int)
    ensures Valid(card) <==> Valid(card.(customerId := customerId, sellerId := sellerId, id := id))
    ensures Errors(card) == Errors(card.(customerId := customerId, sellerId := sellerId, id := id))
  {
  }

  /** Copies the five fields a form edits (number, holder, month, year, CVV) from `form` into
      `card`; identity and owner links stay those of `card`. */
  function CopyCardFields(card: CreditCard, form: CreditCard): (r: CreditCard)
    ensures r.id == card.id && r.customerId == card.customerId && r.sellerId == card.sellerId
    ensures Valid(r) <==> Valid(form)
  {
    card.(cardNumber := form.cardNumber, cardholderName := form.cardholderName,
          expiryMonth := form.expiryMonth, expiryYear := form.expiryYear, cvv := form.cvv)
  }

  /** The demo card installed by the static card store (Controllers/CardsController.cs). */
  function DemoCard(): CreditCard
  {
    CreditCard(1, Some("4111111111111111"), Some("John Doe"), 12, 2026, Some("123"), Some(1), None)
  }

  /** The demo card satisfies every rule. */
  lemma DemoCardValid()
    ensures Valid(DemoCard()) && Errors(DemoCard()) == []
  {
    var name := "John Doe";
    assert !IsWhiteSpace(name[0]);
    var number := "4111111111111111";
    assert !IsWhiteSpace(number[0]);
    var cvv := "123";
    assert !IsWhiteSpace(cvv[0]);
    assert forall i :: 0 <= i < |cvv| ==> IsDigit(cvv[i]);
    ValidIffNoErrors(DemoCard());
  }
}
