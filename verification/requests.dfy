/** The body of `POST /api/expenses` and its data-annotation checks. */
module Requests {
  import opened Wrappers
  import opened Binary64
  import opened Money
  import opened Records

  const MaxDescriptionLength: nat := 1000

  /** The bound request. `Amount`, `Date` and `Category` are non-nullable
      value types, so a bound request always has a value for each of them;
      `Description` may be null. */
  datatype CreateExpenseRequest = CreateExpenseRequest(
    amount: real,
    date: Instant,
    category: int,
    description: Option<string>)

  /** The properties whose annotations can fail. */
  datatype Field = Amount | Description

  /** `[Range(0.01, 999999.99)]` goes through the attribute's
      `(double, double)` constructor: both bounds are double literals, and
      the decimal amount is compared after `Convert.ToDouble`. */
  predicate AmountInRange(amount: real) {
    ToDouble(MinAmount) <= ToDouble(amount) <= ToDouble(MaxAmount)
  }

  predicate DescriptionFits(description: Option<string>) {
    description.None? || |description.value| <= MaxDescriptionLength
  }

  /** The fields whose annotations reject the request, in declaration
      order: the range check on Amount, `[MaxLength(1000)]` on Description
      (a null Description passes). `[Required]` on the value type
      properties never fails on a bound value. */
  function Validate(req: CreateExpenseRequest): (errors: seq<Field>)
    ensures Amount in errors <==> !AmountInRange(req.amount)
    ensures Description in errors <==> !DescriptionFits(req.description)
    ensures |errors| <= 2
    ensures |errors| == 2 ==> errors == [Amount, Description]
  {
    (if AmountInRange(req.amount) then [] else [Amount])
      + (match req.description
         case Some(d) => if |d| <= MaxDescriptionLength then [] else [Description]
         case None => [])
  }

  /** `ModelState.IsValid`. */
  predicate IsValid(req: CreateExpenseRequest) {
    |Validate(req)| == 0
  }

  /** Every amount in the decimal interval [0.01, 999999.99] passes the
      double comparison: rounding to double keeps the order. */
  lemma ExactRangeAccepted(amount: real)
    requires MinAmount <= amount <= MaxAmount
    ensures AmountInRange(amount)
  {
    ToDoubleMonotone(MinAmount, amount);
    ToDoubleMonotone(amount, MaxAmount);
  }

  /** What the double comparison lets through lies within a few units of
      2^-53, relative, of the decimal interval: it is positive and below
      999999.99 by more than any rounding of a product by 100 can bridge. */
  lemma AcceptedNearRange(amount: real)
    requires AmountInRange(amount)
    ensures MinAmount * (1.0 - 2.0 * UnitRoundoff) < amount < MaxAmount * (1.0 + 3.0 * UnitRoundoff)
  {
    ToDoubleError(MinAmount);
    ToDoubleError(MaxAmount);
    ToDoubleError(amount);
  }

  /** A valid request is one whose amount passes the double comparison and
      whose description is absent or at most 1000 characters; date and
      category are unconstrained. The amounts that pass include the whole
      decimal interval and reach only a rounding error beyond it. */
  lemma IsValidCharacterised(req: CreateExpenseRequest)
    ensures IsValid(req) <==> AmountInRange(req.amount) && DescriptionFits(req.description)
    ensures MinAmount <= req.amount <= MaxAmount && DescriptionFits(req.description) ==> IsValid(req)
    ensures IsValid(req) ==>
      MinAmount * (1.0 - 2.0 * UnitRoundoff) < req.amount < MaxAmount * (1.0 + 3.0 * UnitRoundoff)
  {
    if !IsValid(req) {
      assert Validate(req)[0] in Validate(req);
    }
    if MinAmount <= req.amount <= MaxAmount {
      ExactRangeAccepted(req.amount);
    }
    if AmountInRange(req.amount) {
      AcceptedNearRange(req.amount);
    }
  }

  /** A valid request converts without overflow to at most 99999999
      pence, but only to at least 0: an amount just below 0.01 that
      rounds to the same double passes and truncates to nothing. */
  lemma ValidRequestMinorBounds(req: CreateExpenseRequest)
    requires IsValid(req)
    ensures ToMinor(req.amount).Some?
    ensures 0 <= ToMinor(req.amount).value <= 99_999_999
  {
    IsValidCharacterised(req);
    var d := req.amount * 100.0;
    assert 0.0 < d < 99_999_999.5;
    assert 0 <= d.Floor <= 99_999_999;
  }

  /** The double nearest to 0.01 is 5764607523034235 / 2^59, a little
      above 0.01: 0.01 lies in [2^-7, 2^-6), where doubles are 2^-59
      apart. */
  lemma MinAmountAsDouble()
    ensures ToDouble(MinAmount) == 5764607523034235.0 / 576460752303423488.0
  {
  }

  /** The decimal 0.0099999999999999999999, 10^-22 below 0.01, rounds to
      the same double. */
  lemma BelowMinAmountAsDouble()
    ensures ToDouble(0.0099999999999999999999) == 5764607523034235.0 / 576460752303423488.0
  {
  }

  /** The request the range check should refuse and does not: its amount
      is below 0.01, it passes validation, and it is stored as 0 pence. */
  lemma BelowMinimumAccepted(date: Instant, category: int)
    ensures
      var req := CreateExpenseRequest(0.0099999999999999999999, date, category, None);
      && req.amount < MinAmount
      && IsValid(req)
      && ToMinor(req.amount) == Some(0)
  {
    MinAmountAsDouble();
    BelowMinAmountAsDouble();
    ToDoubleMonotone(0.0099999999999999999999, MaxAmount);
  }

  /** The validation the range is evidently meant to perform,
      `[Range(typeof(decimal), "0.01", "999999.99")]`: the decimal amount
      compared with decimal bounds, exactly. */
  function ValidateExact(req: CreateExpenseRequest): (errors: seq<Field>)
    ensures Amount in errors <==> !(MinAmount <= req.amount <= MaxAmount)
    ensures Description in errors <==> !DescriptionFits(req.description)
    ensures |errors| <= 2
  {
    (if MinAmount <= req.amount <= MaxAmount then [] else [Amount])
      + (if DescriptionFits(req.description) then [] else [Description])
  }

  /** Under the exact check every valid request is stored as 1 to
      99999999 pence, and it is also valid under the double check, so the
      correction only refuses requests the program should not accept. */
  lemma ExactValidMinorBounds(req: CreateExpenseRequest)
    requires |ValidateExact(req)| == 0
    ensures ToMinor(req.amount).Some?
    ensures 1 <= ToMinor(req.amount).value <= 99_999_999
    ensures IsValid(req)
  {
    ValidAmountMinorBounds(req.amount);
    IsValidCharacterised(req);
  }
}
