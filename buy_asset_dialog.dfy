/**
 * The purchase dialog: the total shown for the chosen quantity, the
 * quantity box's parse fallback, and the submit handler's validation and
 * state changes. The network call is not modelled; its outcome is an input.
 */
module BuyAssetDialog {
  import opened Wrappers
  import opened JsString

  /** The asset the dialog was opened for; prices are integers here. */
  datatype Asset = Asset(id: int, name: string, price: int, supply: int)

  /** The body of the purchase request the dialog posts. */
  datatype PurchaseRequest = PurchaseRequest(assetId: int, quantity: int, buyerName: string)

  /** What `Number.parseInt` gave for the text of the quantity box. */
  datatype ParsedInt = NaN | Parsed(value: int)

  /** A value thrown while the request was in flight. */
  datatype Thrown = ErrorObject(message: string) | OtherValue

  /**
   * How the request ended: a reply whose JSON body was read (with its
   * `ok` flag and its `error` field, if any), or a thrown value (the
   * network failed, or the body was not JSON).
   */
  datatype FetchOutcome = Responded(ok: bool, errorField: Option<string>) | Threw(thrown: Thrown)

  const NameRequired: string := "Please enter your name"
  const PurchaseFailed: string := "Purchase failed"
  const UnknownError: string := "An error occurred"

  /** `Quantity must be between 1 and ${asset.supply}`. */
  function QuantityRangeMessage(supply: int): string {
    "Quantity must be between 1 and " + IntToDecimal(supply)
  }

  /** The range message ends in the supply's numeral, which reads back as the supply. */
  lemma QuantityRangeMessageNamesSupply(supply: nat)
    ensures var m := QuantityRangeMessage(supply);
            && m[..31] == "Quantity must be between 1 and "
            && (forall i :: 31 <= i < |m| ==> IsDigit(m[i]))
            && DecimalValue(m[31..]) == supply
  {
    var m := QuantityRangeMessage(supply);
    assert m[31..] == NatToDecimal(supply);
    DecimalRoundTrip(supply);
  }

  /** The two validation messages can never be confused, and the second names the supply. */
  lemma ValidationMessagesDistinct(a: int, b: int)
    ensures QuantityRangeMessage(a) != NameRequired
    ensures QuantityRangeMessage(a) == QuantityRangeMessage(b) ==> a == b
  {
    assert QuantityRangeMessage(a)[0] == 'Q';
    var p := "Quantity must be between 1 and ";
    if QuantityRangeMessage(a) == QuantityRangeMessage(b) {
      assert QuantityRangeMessage(a)[|p|..] == IntToDecimal(a);
      assert QuantityRangeMessage(b)[|p|..] == IntToDecimal(b);
      IntToDecimalInjective(a, b);
    }
  }

  /* ---------------- pure parts ---------------- */

  /** `asset.price * quantity`: the total investment the dialog shows. */
  function TotalPrice(asset: Asset, quantity: int): (total: int)
    ensures quantity == 1 ==> total == asset.price
    ensures asset.price > 0 ==> (total > 0 <==> quantity > 0)
  {
    asset.price * quantity
  }

  /** One more token costs exactly one more unit price. */
  lemma TotalPriceStep(asset: Asset, quantity: int)
    ensures TotalPrice(asset, quantity + 1) == TotalPrice(asset, quantity) + asset.price
  {
  }

  /**
   * For a quantity the dialog accepts and a non-negative price, the total
   * lies between the price of one token and the price of the whole supply.
   */
  lemma TotalPriceBounds(asset: Asset, quantity: int)
    requires 1 <= quantity <= asset.supply && asset.price >= 0
    ensures asset.price <= TotalPrice(asset, quantity) <= TotalPrice(asset, asset.supply)
  {
  }

  /**
   * `Number.parseInt(text) || 1`: NaN and 0 (both falsy) become 1, every
   * other integer, negative ones included, is kept. The result is never 0.
   */
  function QuantityFromInput(p: ParsedInt): (q: int)
    ensures q != 0
    ensures p.Parsed? && p.value != 0 ==> q == p.value
    ensures p.NaN? || p.value == 0 ==> q == 1
  {
    match p
    case NaN => 1
    case Parsed(n) => if n == 0 then 1 else n
  }

  /** The submit handler's two checks, in order; `None` when both pass. */
  function ValidationError(buyerName: string, quantity: int, asset: Asset): (r: Option<string>)
    ensures Trim(buyerName) == [] ==> r == Some(NameRequired)
    ensures r.Some? ==> r.value == NameRequired || r.value == QuantityRangeMessage(asset.supply)
    ensures r.None? ==> Trim(buyerName) != [] && 1 <= quantity <= asset.supply
  {
    if Trim(buyerName) == [] then Some(NameRequired)
    else if quantity < 1 || quantity > asset.supply then Some(QuantityRangeMessage(asset.supply))
    else None
  }

  /** The form is accepted iff the name has a non-blank character and 1 <= quantity <= supply. */
  lemma ValidationAcceptsIff(buyerName: string, quantity: int, asset: Asset)
    ensures ValidationError(buyerName, quantity, asset).None?
            <==> !AllWhiteSpace(buyerName) && 1 <= quantity <= asset.supply
  {
    TrimEmptyIff(buyerName);
  }

  /** A blank name is reported whatever the quantity: the name is checked first. */
  lemma BlankNameCheckedFirst(buyerName: string, quantity: int, asset: Asset)
    requires AllWhiteSpace(buyerName)
    ensures ValidationError(buyerName, quantity, asset) == Some(NameRequired)
  {
    TrimEmptyIff(buyerName);
  }

  /** With a usable name, an out-of-range quantity is reported with the supply bound. */
  lemma QuantityOutOfRange(buyerName: string, quantity: int, asset: Asset)
    requires !AllWhiteSpace(buyerName)
    requires quantity < 1 || quantity > asset.supply
    ensures ValidationError(buyerName, quantity, asset) == Some(QuantityRangeMessage(asset.supply))
  {
    TrimEmptyIff(buyerName);
  }

  /** The reply is a success only when it was read and its status is ok. */
  function Succeeded(o: FetchOutcome): (r: bool)
    ensures o.Responded? ==> (r <==> o.ok)
    ensures o.Threw? ==> !r
  {
    o.Responded? && o.ok
  }

  /**
   * The message of the caught value: the server's non-empty `error` field,
   * else "Purchase failed", for a reply that is not ok; the thrown error's
   * message, else "An error occurred", when something was thrown.
   */
  function FailureMessage(o: FetchOutcome): (m: string)
    requires !Succeeded(o)
    ensures o.Responded? ==> m != []
    ensures o.Responded? && o.errorField.Some? && o.errorField.value != [] ==> m == o.errorField.value
    ensures o.Responded? && (o.errorField.None? || o.errorField.value == []) ==> m == PurchaseFailed
    ensures o.Threw? && o.thrown.ErrorObject? ==> m == o.thrown.message
    ensures o.Threw? && o.thrown.OtherValue? ==> m == UnknownError
  {
    match o
    case Responded(_, field) => if field.Some? && field.value != [] then field.value else PurchaseFailed
    case Threw(ErrorObject(message)) => message
    case Threw(OtherValue) => UnknownError
  }

  /* ---------------- the dialog's state ---------------- */

  class Dialog {
    const asset: Asset
    var buyerName: string
    var quantity: int
    var loading: bool
    var error: string
    var success: bool

    /** The quantity field never holds 0: it starts at 1 and every write maps 0 to 1. */
    ghost predicate Valid()
      reads this
    {
      quantity != 0
    }

    constructor (asset: Asset)
      ensures Valid() && this.asset == asset
      ensures buyerName == "" && quantity == 1
      ensures !loading && error == "" && !success
    {
      this.asset := asset;
      buyerName := "";
      quantity := 1;
      loading := false;
      error := "";
      success := false;
    }

    /** The name box's change handler. */
    method SetBuyerName(value: string)
      requires Valid()
      modifies this`buyerName
      ensures Valid() && buyerName == value
    {
      buyerName := value;
    }

    /** The quantity box's change handler. */
    method SetQuantityFromInput(p: ParsedInt)
      modifies this`quantity
      ensures Valid() && quantity == QuantityFromInput(p)
    {
      quantity := QuantityFromInput(p);
    }

    /**
     * The submit handler up to the request: clear the error, check the name,
     * then the quantity; only when both pass set `loading` and build the
     * request with the trimmed name.
     */
    method Submit() returns (request: Option<PurchaseRequest>)
      requires Valid()
      modifies this`error, this`loading
      ensures Valid()
      ensures request.Some? ==> request.value.buyerName != [] && 1 <= request.value.quantity <= asset.supply
      ensures match ValidationError(buyerName, quantity, asset)
        case Some(message) => error == message && loading == old(loading) && request.None?
        case None => error == "" && loading
                     && request == Some(PurchaseRequest(asset.id, quantity, Trim(buyerName)))
    {
      error := "";
      var verdict := ValidationError(buyerName, quantity, asset);
      if verdict.Some? {
        error := verdict.value;
        return None;
      }
      loading := true;
      request := Some(PurchaseRequest(asset.id, quantity, Trim(buyerName)));
    }

    /**
     * The submit handler after the request: success is flagged (and
     * `loading` is left as it was); any failure records its message and
     * clears `loading`.
     */
    method Settle(outcome: FetchOutcome)
      requires Valid()
      modifies this`error, this`loading, this`success
      ensures Valid()
      ensures Succeeded(outcome) ==> success && error == old(error) && loading == old(loading)
      ensures !Succeeded(outcome) ==> error == FailureMessage(outcome) && !loading && success == old(success)
    {
      if Succeeded(outcome) {
        success := true;
      } else {
        error := FailureMessage(outcome);
        loading := false;
      }
    }

    /** The whole submit handler, with the fetch outcome given. */
    method HandleSubmit(outcome: FetchOutcome) returns (request: Option<PurchaseRequest>)
      requires Valid()
      modifies this`error, this`loading, this`success
      ensures Valid()
      ensures match ValidationError(buyerName, quantity, asset)
        case Some(message) =>
          && error == message && loading == old(loading) && success == old(success)
          && request.None?
        case None =>
          && request == Some(PurchaseRequest(asset.id, quantity, Trim(buyerName)))
          && (Succeeded(outcome) ==> success && loading && error == "")
          && (!Succeeded(outcome) ==> success == old(success) && !loading && error == FailureMessage(outcome))
    {
      ghost var verdict := ValidationError(buyerName, quantity, asset);
      request := Submit();
      assert request.Some? <==> verdict.None?;
      if request.Some? {
        Settle(outcome);
      }
    }

    /** The delayed callback after a success: the form goes back to its initial values. */
    method ResetAfterSuccess()
      modifies this`buyerName, this`quantity, this`success
      ensures Valid()
      ensures buyerName == "" && quantity == 1 && !success
    {
      buyerName := "";
      quantity := 1;
      success := false;
    }
  }

  /**
   * A purchase from start to finish: the name is sent trimmed, and after the
   * reset the form is blank again while `loading` is still set.
   */
  method SuccessfulPurchase(asset: Asset) returns (request: Option<PurchaseRequest>, loadingAfter: bool)
    requires asset.supply >= 3
    ensures request == Some(PurchaseRequest(asset.id, 3, "Alice"))
    ensures loadingAfter
  {
    var d := new Dialog(asset);
    d.SetBuyerName("  Alice ");
    d.SetQuantityFromInput(Parsed(3));
    assert d.buyerName == "  Alice " && d.quantity == 3;
    TrimAlice();
    assert ValidationError("  Alice ", 3, asset).None?;
    request := d.HandleSubmit(Responded(true, None));
    d.ResetAfterSuccess();
    loadingAfter := d.loading;
  }

  /**
   * A purchase the server refuses: its `error` field becomes the dialog's
   * message, `loading` is cleared and `success` stays unset.
   */
  method FailedPurchase(asset: Asset) returns (error: string, loading: bool, success: bool)
    requires asset.supply >= 3
    ensures error == "Sold out" && !loading && !success
  {
    var d := new Dialog(asset);
    d.SetBuyerName("  Alice ");
    d.SetQuantityFromInput(Parsed(3));
    assert d.buyerName == "  Alice " && d.quantity == 3;
    TrimAlice();
    assert ValidationError("  Alice ", 3, asset).None?;
    var request := d.HandleSubmit(Responded(false, Some("Sold out")));
    error, loading, success := d.error, d.loading, d.success;
  }

  lemma TrimAlice()
    ensures Trim("  Alice ") == "Alice"
  {
    var s0, s1, s2, s3 := "  Alice ", " Alice ", "Alice ", "Alice";
    assert s0[1..] == s1 && s1[1..] == s2 && s2[..5] == s3;
    assert !IsJsWhiteSpace(s2[0]) && !IsJsWhiteSpace(s3[4]);
    assert TrimStart(s2) == s2 && TrimStart(s1) == s2;
    assert TrimEnd(s3) == s3;
  }
}
