/**
  The search for the gas limit of a payout transaction, over trials of limits. Adding two limits can exceed 64 bits:
  with overflow checks the search then stops (`Overflow`), and without them it goes on with what is left of the sum.
 */
module Payout {
  import opened Wrappers

  const BASE_TX_GAS := 21000
  const LENGTH_MARGIN := 128

  const U64_MAX: nat := 0xFFFF_FFFF_FFFF_FFFF

  type U64 = n: nat | n <= U64_MAX

  const HALF_RANGE: nat := 0x8000_0000_0000_0000

  datatype BlockSpace = BlockSpace(gas: U64, rlpLength: nat, blobGas: U64)

  datatype EstimateError<+E> = Failed(error: E) | FailedToEstimate | Overflow

  /** Executes a payout with a gas limit: the gas it took, nothing if it did not succeed, or an error. */
  type Trial<!E> = U64 -> Result<Option<U64>, E>

  predicate Succeeds<E>(trial: Trial<E>, gas: U64) {
    trial(gas).Ok? && trial(gas).value.Some?
  }

  predicate Fails<E>(trial: Trial<E>, gas: U64) {
    trial(gas).Ok? && trial(gas).value.None?
  }

  /** The gas that is left in the block, which is none when more is used than there is. */
  function GasLeft(cap: U64, used: U64): U64 {
    if used <= cap then cap - used else 0
  }

  /** What a found limit is: the trial estimated for all the gas left if it suffices, and otherwise a limit that
      suffices while its neighbour towards the estimate does not. */
  ghost predicate IsLimit<E>(trial: Trial<E>, gasLeft: U64, gas: U64) {
    && Succeeds(trial, gasLeft)
    && Succeeds(trial, gas)
    && var estimate := trial(gasLeft).value.value;
    && (Succeeds(trial, estimate) ==> gas == estimate)
    && (!Succeeds(trial, estimate) && estimate < gasLeft ==> estimate < gas <= gasLeft && Fails(trial, gas - 1))
    && (!Succeeds(trial, estimate) && estimate > gasLeft ==> gasLeft <= gas < estimate && Fails(trial, gas + 1))
  }

  /** The search gets to two limits whose sum exceeds 64 bits. */
  ghost predicate Overflows<E>(trial: Trial<E>, left: U64, right: U64)
    decreases if left < right then right - left else left - right
  {
    || left + right > U64_MAX
    || var mid := (left + right) / 2;
       && mid != left && mid != right && trial(mid).Ok?
       && if trial(mid).value.Some? then Overflows(trial, left, mid) else Overflows(trial, mid, right)
  }

  /** The search gets to trying the limit `g`. */
  ghost predicate Tries<E>(trial: Trial<E>, left: U64, right: U64, g: U64)
    decreases if left < right then right - left else left - right
  {
    && left + right <= U64_MAX
    && var mid := (left + right) / 2;
       && mid != left && mid != right
       && (|| g == mid
           || (trial(mid).Ok?
               && if trial(mid).value.Some? then Tries(trial, left, mid, g) else Tries(trial, mid, right, g)))
  }

  method EstimatePayoutGasLimit<E(!new)>(rlpLength: Result<nat, E>, hasCode: Result<bool, E>, trial: Trial<E>, cap: U64,
                                   used: U64)
    returns (r: Result<BlockSpace, EstimateError<E>>)
    ensures rlpLength.Err? ==> r == Err(FailedToEstimate)
    ensures rlpLength.Ok? && hasCode.Err? ==> r == Err(Failed(hasCode.error))
    ensures rlpLength.Ok? && hasCode.Ok? && !hasCode.value ==> r == Ok(BlockSpace(21000, rlpLength.value + 32 * 4, 0))
    ensures rlpLength.Ok? && hasCode.Ok? && hasCode.value ==>
              var gasLeft: U64 := if used > cap then 0 else cap - used;
              match trial(gasLeft)
              case Err(e) => r == Err(Failed(e))
              case Ok(None) => r == Err(FailedToEstimate)
              case Ok(Some(estimate)) =>
                match trial(estimate)
                case Err(e) => r == Err(Failed(e))
                case Ok(Some(_)) => r == Ok(BlockSpace(estimate, rlpLength.value + 32 * 4, 0))
                case Ok(None) =>
                  match r
                  case Ok(space) => IsLimit(trial, gasLeft, space.gas)
                                    && space.rlpLength == rlpLength.value + 32 * 4 && space.blobGas == 0
                  case Err(FailedToEstimate) => false
                  case Err(Failed(e)) => exists g: U64 :: Tries(trial, estimate, gasLeft, g) && trial(g) == Err(e)
                  case Err(Overflow) => Overflows(trial, estimate, gasLeft)
    ensures rlpLength.Ok? && hasCode.Ok? && hasCode.value ==>
              var gasLeft: U64 := if used > cap then 0 else cap - used;
              trial(gasLeft).Ok? && trial(gasLeft).value.Some? && Fails(trial, trial(gasLeft).value.value) ==>
                var estimate := trial(gasLeft).value.value;
                && (r == Err(Overflow) <==> Overflows(trial, estimate, gasLeft))
                && forall g: U64, e: E :: Tries(trial, estimate, gasLeft, g) && trial(g) == Err(e) ==>
                     r == Err(Failed(e))
  {
    if rlpLength.Err? {
      return Err(FailedToEstimate);
    }
    var length := rlpLength.value + LENGTH_MARGIN;
    if hasCode.Err? {
      return Err(Failed(hasCode.error));
    }
    if !hasCode.value {
      return Ok(BlockSpace(BASE_TX_GAS, length, 0));
    }
    var gasLeft := GasLeft(cap, used);
    var all := trial(gasLeft);
    if all.Err? {
      return Err(Failed(all.error));
    }
    if all.value.None? {
      return Err(FailedToEstimate);
    }
    var estimate := all.value.value;
    var first := trial(estimate);
    if first.Err? {
      return Err(Failed(first.error));
    }
    if first.value.Some? {
      return Ok(BlockSpace(estimate, length, 0));
    }
    var found := Search(trial, estimate, gasLeft);
    match found
    case Ok(gas) => return Ok(BlockSpace(gas, length, 0));
    case Err(e) => return Err(e);
  }

  /** Halves the distance between a limit that fails and one that suffices until they are neighbours. */
  method Search<E(!new)>(trial: Trial<E>, failing: U64, sufficing: U64) returns (r: Result<U64, EstimateError<E>>)
    requires Fails(trial, failing) && Succeeds(trial, sufficing)
    ensures r == Err(Overflow) <==> Overflows(trial, failing, sufficing)
    ensures r.Err? ==> r.error.Overflow? || r.error.Failed?
    ensures r.Err? && r.error.Failed? ==>
              exists g: U64 :: Tries(trial, failing, sufficing, g) && trial(g) == Err(r.error.error)
    ensures forall g: U64, e: E :: Tries(trial, failing, sufficing, g) && trial(g) == Err(e) ==> r == Err(Failed(e))
    ensures r.Ok? ==> Succeeds(trial, r.value)
    ensures r.Ok? && failing < sufficing ==> failing < r.value <= sufficing && Fails(trial, r.value - 1)
    ensures r.Ok? && failing > sufficing ==> sufficing <= r.value < failing && Fails(trial, r.value + 1)
  {
    hide SameErrors, Tries;
    var left: U64, right: U64 := failing, sufficing;
    SameErrorsStart(trial, failing, sufficing);
    while true
      invariant Fails(trial, left) && Succeeds(trial, right)
      invariant failing < sufficing ==> failing <= left < right <= sufficing
      invariant failing > sufficing ==> sufficing <= right < left <= failing
      invariant Overflows(trial, left, right) <==> Overflows(trial, failing, sufficing)
      invariant SameErrors(trial, failing, sufficing, left, right)
      decreases if left < right then right - left else left - right
    {
      SameErrorsUse(trial, failing, sufficing, left, right);
      if left > U64_MAX - right {
        return Err(Overflow);
      }
      var mid: U64 := (left + right) / 2;
      if mid == left || mid == right {
        return Ok(right);
      }
      var t := trial(mid);
      if t.Err? {
        return Err(Failed(t.error));
      }
      SameErrorsStep(trial, failing, sufficing, left, right);
      if t.value.Some? {
        right := mid;
      } else {
        left := mid;
      }
    }
  }

  /** Of the limits whose trial errs, the search from `left` and `right` tries those that the whole search tries. */
  ghost predicate SameErrors<E>(trial: Trial<E>, failing: U64, sufficing: U64, left: U64, right: U64) {
    forall g: U64 :: trial(g).Err? ==> (Tries(trial, left, right, g) <==> Tries(trial, failing, sufficing, g))
  }

  lemma SameErrorsStart<E>(trial: Trial<E>, failing: U64, sufficing: U64)
    ensures SameErrors(trial, failing, sufficing, failing, sufficing)
  {
  }

  lemma SameErrorsStep<E>(trial: Trial<E>, failing: U64, sufficing: U64, left: U64, right: U64)
    requires SameErrors(trial, failing, sufficing, left, right) && left + right <= U64_MAX
    requires var mid := (left + right) / 2; mid != left && mid != right && trial(mid).Ok?
    ensures var mid := (left + right) / 2;
            if trial(mid).value.Some? then SameErrors(trial, failing, sufficing, left, mid)
            else SameErrors(trial, failing, sufficing, mid, right)
  {
    var mid := (left + right) / 2;
    forall g: U64 | trial(g).Err?
      ensures Tries(trial, left, right, g) <==>
                if trial(mid).value.Some? then Tries(trial, left, mid, g) else Tries(trial, mid, right, g)
    {
    }
  }

  /** When no limit is left to try, the whole search tries none that errs; and it tries the next. */
  lemma SameErrorsUse<E>(trial: Trial<E>, failing: U64, sufficing: U64, left: U64, right: U64)
    requires SameErrors(trial, failing, sufficing, left, right)
    ensures var mid := (left + right) / 2;
            if left + right > U64_MAX || mid == left || mid == right
            then forall g: U64 :: Tries(trial, failing, sufficing, g) ==> trial(g).Ok?
            else trial(mid).Err? ==>
                   && Tries(trial, failing, sufficing, mid)
                   && forall g: U64 :: Tries(trial, failing, sufficing, g) && trial(g).Err? ==> g == mid
  {
    forall g: U64 | Tries(trial, failing, sufficing, g) && trial(g).Err?
      ensures Tries(trial, left, right, g)
    {
    }
  }

  /** More gas never makes a payout fail. */
  ghost predicate Monotone<E(!new)>(trial: Trial<E>) {
    forall a: U64, b: U64 :: a <= b && Succeeds(trial, a) ==> Succeeds(trial, b)
  }

  /** With trials that are monotone, the limit is the least that suffices from the estimate on. */
  lemma LimitIsLeast<E(!new)>(trial: Trial<E>, gasLeft: U64, gas: U64, g: U64)
    requires Monotone(trial) && IsLimit(trial, gasLeft, gas)
    ensures trial(gasLeft).value.value <= g ==> (Succeeds(trial, g) <==> gas <= g)
  {
    var estimate := trial(gasLeft).value.value;
    assert Succeeds(trial, estimate) || estimate < gasLeft;
    if !Succeeds(trial, estimate) && g < gas {
      assert !Succeeds(trial, gas - 1);
    }
  }

  // ---------------------------------------------------------------------------
  // When the sum of two limits exceeds 64 bits

  lemma {:induction false} HalfRangeSuffices<E>(trial: Trial<E>, left: U64, right: U64)
    requires left <= HALF_RANGE && right <= HALF_RANGE && left != right
    ensures !Overflows(trial, left, right)
    decreases if left < right then right - left else left - right
  {
    var mid := (left + right) / 2;
    if mid != left && mid != right {
      HalfRangeSuffices(trial, left, mid);
      HalfRangeSuffices(trial, mid, right);
    }
  }

  /** Trials that only the last limit passes. */
  function OnlyAt<E>(limit: U64): Trial<E> {
    (gas: U64) => Ok(if gas == limit then Some(0) else None)
  }

  /** Trials that all limits pass but one. */
  function AllBut<E>(limit: U64): Trial<E> {
    (gas: U64) => Ok(if gas == limit then None else Some(0))
  }

  lemma {:induction false} ClimbsTooHigh<E>(left: U64, right: U64)
    requires left < right && right > HALF_RANGE
    ensures Overflows(OnlyAt<E>(right), left, right)
    decreases right - left
  {
    if left + right <= U64_MAX {
      ClimbsTooHigh<E>((left + right) / 2, right);
    }
  }

  lemma {:induction false} RaisesTooHigh<E>(left: U64, right: U64)
    requires left > right && left > HALF_RANGE
    ensures Overflows(AllBut<E>(left), left, right)
    decreases left - right
  {
    if left + right <= U64_MAX {
      RaisesTooHigh<E>(left, (left + right) / 2);
    }
  }

  /** No trials make the search between two limits exceed 64 bits exactly when both are at most half of the range. */
  lemma OverflowExact<E(!new)>(failing: U64, sufficing: U64)
    requires failing != sufficing
    ensures (forall trial: Trial<E> :: Fails(trial, failing) && Succeeds(trial, sufficing) ==>
                                         !Overflows(trial, failing, sufficing))
       <==> failing <= HALF_RANGE && sufficing <= HALF_RANGE
  {
    if failing <= HALF_RANGE && sufficing <= HALF_RANGE {
      forall trial: Trial<E>
        ensures !Overflows(trial, failing, sufficing)
      {
        HalfRangeSuffices(trial, failing, sufficing);
      }
    } else if failing < sufficing {
      ClimbsTooHigh<E>(failing, sufficing);
      assert Fails(OnlyAt<E>(sufficing), failing) && Succeeds(OnlyAt<E>(sufficing), sufficing);
    } else {
      RaisesTooHigh<E>(failing, sufficing);
      assert Fails(AllBut<E>(failing), failing) && Succeeds(AllBut<E>(failing), sufficing);
    }
  }

  // ---------------------------------------------------------------------------
  // Without overflow checks

  /** One turn of the search with sums reduced to 64 bits: none when it ends. */
  function WrappingTurn<E>(trial: Trial<E>, left: U64, right: U64): Option<(U64, U64)> {
    var mid := (left + right) % (U64_MAX + 1) / 2;
    if mid == left || mid == right || trial(mid).Err? then None
    else if trial(mid).value.Some? then Some((left, mid)) else Some((mid, right))
  }

  function Turns<E>(trial: Trial<E>, left: U64, right: U64, n: nat): Option<(U64, U64)> {
    if n == 0 then Some((left, right))
    else
      match Turns(trial, left, right, n - 1)
      case None => None
      case Some((l, r)) => WrappingTurn(trial, l, r)
  }

  /** A power of two less one. */
  ghost predicate Ones(g: nat) {
    g == 0 || (g % 2 == 1 && Ones(g / 2))
  }

  lemma OneMore(g: nat)
    requires Ones(g)
    ensures Ones(2 * g + 1)
  {
    assert (2 * g + 1) / 2 == g && (2 * g + 1) % 2 == 1;
  }

  lemma FourMoreOnes(g: nat)
    requires Ones(g)
    ensures Ones(16 * g + 15)
  {
    hide Ones;
    OneMore(g);
    OneMore(2 * g + 1);
    OneMore(4 * g + 3);
    OneMore(8 * g + 7);
  }

  lemma SixteenMoreOnes(g: nat)
    requires Ones(g)
    ensures Ones(0x1_0000 * g + 0xFFFF)
  {
    hide Ones;
    FourMoreOnes(g);
    FourMoreOnes(16 * g + 15);
    FourMoreOnes(16 * (16 * g + 15) + 15);
    FourMoreOnes(16 * (16 * (16 * g + 15) + 15) + 15);
  }

  lemma HalfRangeOnes()
    ensures Ones(HALF_RANGE - 1)
  {
    assert Ones(7);
    hide Ones;
    FourMoreOnes(7);
    FourMoreOnes(0x7F);
    FourMoreOnes(0x7FF);
    SixteenMoreOnes(0x7FFF);
    SixteenMoreOnes(0x7FFF_FFFF);
    SixteenMoreOnes(0x7FFF_FFFF_FFFF);
  }

  lemma WrappedSum(k: U64)
    ensures (k + U64_MAX) % (U64_MAX + 1) == if k == 0 then U64_MAX else k - 1
  {
  }

  lemma OneTurn<E>(k: U64)
    requires k < HALF_RANGE && Ones(k)
    ensures WrappingTurn(OnlyAt<E>(U64_MAX), k, U64_MAX) == Some((if k == 0 then HALF_RANGE - 1 else k / 2, U64_MAX))
  {
    WrappedSum(k);
    HalfOfOnes(k);
    hide Ones;
  }

  lemma HalfOfOnes(k: nat)
    requires Ones(k)
    ensures k == 0 || (k - 1) / 2 == k / 2
  {
  }

  /** With nothing short of the largest limit passing, a search from a power of two less one goes round forever. */
  lemma {:induction false} NeverEnds<E>(left: U64, n: nat) returns (l: U64)
    requires Ones(left) && left < HALF_RANGE
    ensures Ones(l) && l < HALF_RANGE && Turns(OnlyAt<E>(U64_MAX), left, U64_MAX, n) == Some((l, U64_MAX))
  {
    hide WrappingTurn;
    if n == 0 {
      l := left;
    } else {
      var k := NeverEnds<E>(left, n - 1);
      HalfRangeOnes();
      OneTurn<E>(k);
      l := if k == 0 then HALF_RANGE - 1 else k / 2;
    }
  }
}
