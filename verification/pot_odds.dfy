/** Pot odds and implied odds: the share of the final pot that a call
    contributes, as a percentage, and the call decision that compares it
    with the hand's equity. Floats are modelled as exact reals. */
module PotOdds {
  import opened Wrappers

  /** A non-positive bet is rejected with a ValueError; a zero divisor
      (possible only with a negative pot) raises ZeroDivisionError. */
  datatype OddsError = BetNotPositive | DivisionByZero

  /** calculate_pot_odds */
  function PotOdds(potSize: real, betToCall: real): (r: Result<real, OddsError>) {
    if betToCall <= 0.0 then Err(BetNotPositive)
    else if potSize + betToCall == 0.0 then Err(DivisionByZero)
    else Ok(betToCall / (potSize + betToCall) * 100.0)
  }

  /** should_call: call when the equity reaches the pot odds. */
  function ShouldCall(potSize: real, betToCall: real, handEquity: real): (r: Result<bool, OddsError>) {
    var odds :- PotOdds(potSize, betToCall);
    Ok(handEquity >= odds)
  }

  /** calculate_implied_odds: the pot odds against the pot grown by the
      expected future winnings; no check on the bet. */
  function ImpliedOdds(potSize: real, betToCall: real, futureBetEstimate: real): (r: Result<real, OddsError>) {
    var total := potSize + futureBetEstimate;
    if total + betToCall == 0.0 then Err(DivisionByZero)
    else Ok(betToCall / (total + betToCall) * 100.0)
  }

  /** The pot odds fail exactly on a non-positive bet or a zero divisor,
      and otherwise are the percentage p with p * (pot + bet) = 100 * bet. */
  lemma PotOddsCharacterized(potSize: real, betToCall: real)
    ensures PotOdds(potSize, betToCall) == Err(BetNotPositive) <==> betToCall <= 0.0
    ensures PotOdds(potSize, betToCall) == Err(DivisionByZero) <==> betToCall > 0.0 && potSize + betToCall == 0.0
    ensures PotOdds(potSize, betToCall).Ok? ==>
              PotOdds(potSize, betToCall).value * (potSize + betToCall) == 100.0 * betToCall
  {
  }

  /** With a non-negative pot the odds lie in (0, 100], reaching 100 exactly
      when the pot is empty. */
  lemma PotOddsRange(potSize: real, betToCall: real)
    requires potSize >= 0.0 && betToCall > 0.0
    ensures PotOdds(potSize, betToCall).Ok?
    ensures 0.0 < PotOdds(potSize, betToCall).value <= 100.0
    ensures PotOdds(potSize, betToCall).value == 100.0 <==> potSize == 0.0
  {
    var d := potSize + betToCall;
    var q := betToCall / d;
    assert q * d == betToCall;
    assert q > 0.0;
    if potSize > 0.0 && q >= 1.0 {
      ScaleLeft(1.0, q, d);
      assert false;
    }
  }

  lemma ScaleLeft(a: real, b: real, c: real)
    requires a <= b && c > 0.0
    ensures a * c <= b * c
  {
    assert b * c - a * c == (b - a) * c;
  }

  lemma ScaleRight(a: real, b: real, c: real)
    requires a > 0.0 && b < c
    ensures a * b < a * c
  {
    assert a * c - a * b == a * (c - b);
  }

  /** A bigger pot makes the same call cheaper. */
  lemma PotOddsFallWithPot(pot1: real, pot2: real, betToCall: real)
    requires 0.0 <= pot1 < pot2 && betToCall > 0.0
    ensures PotOdds(pot1, betToCall).Ok? && PotOdds(pot2, betToCall).Ok?
    ensures PotOdds(pot2, betToCall).value < PotOdds(pot1, betToCall).value
  {
    var q1 := betToCall / (pot1 + betToCall);
    var q2 := betToCall / (pot2 + betToCall);
    assert q1 * (pot1 + betToCall) == betToCall;
    assert q2 * (pot2 + betToCall) == betToCall;
    assert q1 > 0.0;
    if q2 >= q1 {
      ScaleLeft(q1, q2, pot2 + betToCall);
      ScaleRight(q1, pot1 + betToCall, pot2 + betToCall);
      assert false;
    }
  }

  /** should_call fails exactly when the pot odds do; otherwise it calls
      exactly when equity times the final pot covers 100 times the bet. */
  lemma ShouldCallIsBreakEven(potSize: real, betToCall: real, handEquity: real)
    requires potSize + betToCall > 0.0
    ensures ShouldCall(potSize, betToCall, handEquity).Err? <==> betToCall <= 0.0
    ensures ShouldCall(potSize, betToCall, handEquity).Ok? ==>
              (ShouldCall(potSize, betToCall, handEquity).value <==>
               handEquity * (potSize + betToCall) >= 100.0 * betToCall)
  {
    if betToCall > 0.0 {
      var d := potSize + betToCall;
      var odds := betToCall / d * 100.0;
      assert odds * d == 100.0 * betToCall;
      assert handEquity >= odds <==> handEquity * d >= odds * d;
    }
  }

  /** More equity never turns a call into a fold. */
  lemma ShouldCallMonotone(potSize: real, betToCall: real, e1: real, e2: real)
    requires e1 <= e2
    ensures ShouldCall(potSize, betToCall, e1).Ok? == ShouldCall(potSize, betToCall, e2).Ok?
    ensures ShouldCall(potSize, betToCall, e1) == Ok(true) ==> ShouldCall(potSize, betToCall, e2) == Ok(true)
  {
  }

  /** Implied odds are the pot odds of the pot grown by the estimate; with
      no future winnings they coincide with the pot odds. */
  lemma ImpliedOddsAreGrownPotOdds(potSize: real, betToCall: real, futureBetEstimate: real)
    requires betToCall > 0.0
    ensures ImpliedOdds(potSize, betToCall, futureBetEstimate) == PotOdds(potSize + futureBetEstimate, betToCall)
    ensures ImpliedOdds(potSize, betToCall, 0.0) == PotOdds(potSize, betToCall)
  {
  }

  /** Expected future winnings can only lower the price of a call. */
  lemma ImpliedOddsAtMostPotOdds(potSize: real, betToCall: real, futureBetEstimate: real)
    requires potSize >= 0.0 && betToCall > 0.0 && futureBetEstimate >= 0.0
    ensures ImpliedOdds(potSize, betToCall, futureBetEstimate).Ok? && PotOdds(potSize, betToCall).Ok?
    ensures ImpliedOdds(potSize, betToCall, futureBetEstimate).value <= PotOdds(potSize, betToCall).value
  {
    if futureBetEstimate > 0.0 {
      PotOddsFallWithPot(potSize, potSize + futureBetEstimate, betToCall);
    }
  }

  /** The worked example: a 25 bet into a pot of 100 is 20% pot odds, so a
      35% equity calls and a 10% equity folds; 50 of future winnings bring
      the price down to 100/7 %. */
  lemma WorkedExample()
    ensures PotOdds(100.0, 25.0) == Ok(20.0)
    ensures ShouldCall(100.0, 25.0, 35.0) == Ok(true)
    ensures ShouldCall(100.0, 25.0, 10.0) == Ok(false)
    ensures ImpliedOdds(100.0, 25.0, 50.0) == Ok(100.0 / 7.0)
  {
  }

  /** A zero bet is refused by the pot odds but not by the implied odds. */
  lemma ZeroBetRefusedOnlyByPotOdds()
    ensures PotOdds(100.0, 0.0) == Err(BetNotPositive)
    ensures ImpliedOdds(100.0, 0.0, 50.0) == Ok(0.0)
  {
  }
}
