/** Exploration strategies for the reinforcement-learning agents:
    epsilon-greedy, its self-decaying variant, and the bookkeeping of
    the upper-confidence-bound strategy. The random draws are passed in;
    the softmax and UCB score arithmetic is left abstract. */
module ExplorationStrategies {
  import opened Wrappers
  import opened Vectors

  datatype ExplorationError =
    | EmptyActions       // random.choice on an empty list
    | EmptyValues        // np.argmax of an empty array
    | CountOutOfRange    // action_counts[action] past the end of the counts

  // ---------------------------------------------------------------------
  // Epsilon-greedy

  datatype EpsilonGreedy = EpsilonGreedy(epsilon: real, epsilonEnd: real, decayRate: real)

  /** EpsilonGreedyStrategy() */
  function NewEpsilonGreedy(): EpsilonGreedy {
    EpsilonGreedy(1.0, 0.1, 0.99)
  }

  /** DecayingEpsilonGreedyStrategy() */
  function NewDecayingEpsilonGreedy(): EpsilonGreedy {
    EpsilonGreedy(1.0, 0.05, 0.995)
  }

  /** get_action: explore with a uniformly chosen element of the
      available actions when the draw falls below epsilon, otherwise
      exploit the position of the largest q-value. `draw` is
      random.random() and `pick` is the position random.choice takes. */
  function GetAction(s: EpsilonGreedy, qValues: seq<real>, actions: seq<int>, draw: real, pick: nat)
    : Result<int, ExplorationError>
    requires 0.0 <= draw < 1.0
    requires |actions| > 0 ==> pick < |actions|
  {
    if draw < s.epsilon then
      if |actions| == 0 then Err(EmptyActions) else Ok(actions[pick])
    else
      if |qValues| == 0 then Err(EmptyValues) else Ok(ArgMax(qValues))
  }

  /** One multiplication by the rate. */
  function Scaled(e: real, r: real): real {
    e * r
  }

  /** decay_epsilon */
  function Decay(s: EpsilonGreedy): EpsilonGreedy {
    s.(epsilon := MaxReal(s.epsilonEnd, Scaled(s.epsilon, s.decayRate)))
  }

  /** Decay sets epsilon to the larger of the floor and epsilon * rate,
      and touches nothing else: epsilon never ends below the floor. */
  lemma DecayIsMaximum(s: EpsilonGreedy)
    ensures Decay(s).epsilonEnd == s.epsilonEnd && Decay(s).decayRate == s.decayRate
    ensures Decay(s).epsilon >= s.epsilonEnd && Decay(s).epsilon >= s.epsilon * s.decayRate
    ensures Decay(s).epsilon == s.epsilonEnd || Decay(s).epsilon == s.epsilon * s.decayRate
  {
  }

  /** DecayingEpsilonGreedyStrategy.get_action: choose with the current
      epsilon, then decay it once. A failed choice raises before the
      decay. */
  function DecayingGetAction(s: EpsilonGreedy, qValues: seq<real>, actions: seq<int>, draw: real, pick: nat)
    : Result<(int, EpsilonGreedy), ExplorationError>
    requires 0.0 <= draw < 1.0
    requires |actions| > 0 ==> pick < |actions|
  {
    var a :- GetAction(s, qValues, actions, draw, pick);
    Ok((a, Decay(s)))
  }

  /** Exploration returns an available action, exploitation the first
      position of the largest q-value; an empty list on the branch taken
      is an error. */
  lemma GetActionCharacterized(s: EpsilonGreedy, qValues: seq<real>, actions: seq<int>, draw: real, pick: nat)
    requires 0.0 <= draw < 1.0
    requires |actions| > 0 ==> pick < |actions|
    ensures var r := GetAction(s, qValues, actions, draw, pick);
            && (draw < s.epsilon ==>
                  && (r.Ok? <==> |actions| > 0)
                  && (r.Ok? ==> r.value == actions[pick] && r.value in actions))
            && (draw >= s.epsilon ==>
                  && (r.Ok? <==> |qValues| > 0)
                  && (r.Ok? ==> 0 <= r.value < |qValues|
                                && (forall j :: 0 <= j < |qValues| ==> qValues[j] <= qValues[r.value])
                                && (forall j :: 0 <= j < r.value ==> qValues[j] < qValues[r.value])))
  {
  }

  /** With epsilon 0 (or below) the strategy always exploits; with
      epsilon 1 (or above) it always explores. */
  lemma EpsilonExtremes(s: EpsilonGreedy, qValues: seq<real>, actions: seq<int>, draw: real, pick: nat)
    requires 0.0 <= draw < 1.0
    requires |actions| > 0 ==> pick < |actions|
    ensures s.epsilon <= 0.0 && |qValues| > 0 ==> GetAction(s, qValues, actions, draw, pick) == Ok(ArgMax(qValues))
    ensures s.epsilon >= 1.0 && |actions| > 0 ==> GetAction(s, qValues, actions, draw, pick) == Ok(actions[pick])
  {
  }

  /** The fresh strategies start fully exploring; the self-decaying one
      has the lower floor and the slower decay. */
  lemma DefaultSchedules(qValues: seq<real>, actions: seq<int>, draw: real, pick: nat)
    requires 0.0 <= draw < 1.0
    requires |actions| > 0 ==> pick < |actions|
    ensures |actions| > 0 ==> GetAction(NewEpsilonGreedy(), qValues, actions, draw, pick) == Ok(actions[pick])
    ensures |actions| > 0 ==> GetAction(NewDecayingEpsilonGreedy(), qValues, actions, draw, pick) == Ok(actions[pick])
    ensures 0.0 < NewDecayingEpsilonGreedy().epsilonEnd < NewEpsilonGreedy().epsilonEnd < 1.0
    ensures 0.0 < NewEpsilonGreedy().decayRate < NewDecayingEpsilonGreedy().decayRate < 1.0
  {
  }

  lemma ScaleDown(x: real, r: real)
    requires x >= 0.0 && 0.0 <= r <= 1.0
    ensures 0.0 <= x * r <= x
  {
    assert x - x * r == x * (1.0 - r);
  }

  lemma ScaleMonotone(a: real, b: real, r: real)
    requires a <= b && r >= 0.0
    ensures a * r <= b * r
  {
    assert b * r - a * r == (b - a) * r;
  }

  /** From at or above its floor, with a rate in [0, 1] and a floor that
      is not negative, one decay never raises epsilon and never takes it
      below the floor. */
  lemma DecayNonIncreasing(s: EpsilonGreedy)
    requires 0.0 <= s.epsilonEnd <= s.epsilon
    requires 0.0 <= s.decayRate <= 1.0
    ensures s.epsilonEnd <= Decay(s).epsilon <= s.epsilon
  {
    ScaleDown(s.epsilon, s.decayRate);
  }

  /** epsilon multiplied n times by the rate, with no floor. */
  function Unclamped(e: real, r: real, n: nat): real {
    if n == 0 then e else Scaled(Unclamped(e, r, n - 1), r)
  }

  /** n successive decays. */
  function DecayTimes(s: EpsilonGreedy, n: nat): EpsilonGreedy {
    if n == 0 then s else Decay(DecayTimes(s, n - 1))
  }

  /** One more decay of a clamped value: clamping again is never needed
      beyond the first time. */
  lemma ClampStep(f: real, r: real, prev: real)
    requires 0.0 <= f && 0.0 <= r <= 1.0
    ensures MaxReal(f, Scaled(MaxReal(f, prev), r)) == MaxReal(f, Scaled(prev, r))
  {
    if prev < f {
      assert MaxReal(f, prev) == f;
      ScaleDown(f, r);
      ScaleMonotone(prev, f, r);
      assert MaxReal(f, f * r) == f;
      assert MaxReal(f, prev * r) == f;
    } else {
      assert MaxReal(f, prev) == prev;
    }
  }

  /** Decaying never changes the floor or the rate. */
  lemma {:induction false} DecayKeepsSchedule(s: EpsilonGreedy, n: nat)
    ensures DecayTimes(s, n).epsilonEnd == s.epsilonEnd && DecayTimes(s, n).decayRate == s.decayRate
  {
    if n > 0 {
      DecayKeepsSchedule(s, n - 1);
    }
  }

  /** After n >= 1 decays epsilon is max(epsilon_end, epsilon * rate^n):
      the clamp at the floor never has to be applied twice. */
  lemma {:induction false} DecayClosedForm(s: EpsilonGreedy, n: nat)
    requires n >= 1
    requires 0.0 <= s.epsilonEnd && 0.0 <= s.decayRate <= 1.0
    ensures DecayTimes(s, n).epsilon == MaxReal(s.epsilonEnd, Unclamped(s.epsilon, s.decayRate, n))
  {
    var r, f := s.decayRate, s.epsilonEnd;
    var m: nat := n - 1;
    var t := DecayTimes(s, m);
    DecayKeepsSchedule(s, m);
    assert DecayTimes(s, n) == Decay(t);
    if m > 0 {
      DecayClosedForm(s, m);
      ClampStep(f, r, Unclamped(s.epsilon, r, m));
    }
  }

  /** The self-decaying variant decides with the epsilon it had before the
      call and then decays exactly once; a failed choice leaves the
      strategy as it was. */
  lemma DecayingChoosesThenDecays(s: EpsilonGreedy, qValues: seq<real>, actions: seq<int>, draw: real, pick: nat)
    requires 0.0 <= draw < 1.0
    requires |actions| > 0 ==> pick < |actions|
    ensures DecayingGetAction(s, qValues, actions, draw, pick).Ok? <==> GetAction(s, qValues, actions, draw, pick).Ok?
    ensures DecayingGetAction(s, qValues, actions, draw, pick).Ok? ==>
              DecayingGetAction(s, qValues, actions, draw, pick).value
                == (GetAction(s, qValues, actions, draw, pick).value, Decay(s))
    ensures Decay(s).epsilon <= draw < s.epsilon && |actions| > 0 ==>
              DecayingGetAction(s, qValues, actions, draw, pick).value.0 == actions[pick]
  {
  }

  /** A run of calls of the self-decaying variant: one draw and one pick
      per call. */
  function DecayingRun(s: EpsilonGreedy, qValues: seq<real>, actions: seq<int>, draws: seq<real>, picks: seq<nat>)
    : Result<(seq<int>, EpsilonGreedy), ExplorationError>
    requires |draws| == |picks|
    requires forall k :: 0 <= k < |draws| ==> 0.0 <= draws[k] < 1.0
    requires |actions| > 0 ==> forall k :: 0 <= k < |picks| ==> picks[k] < |actions|
    decreases |draws|
  {
    if |draws| == 0 then Ok(([], s))
    else
      var first :- DecayingGetAction(s, qValues, actions, draws[0], picks[0]);
      var rest :- DecayingRun(first.1, qValues, actions, draws[1..], picks[1..]);
      Ok(([first.0] + rest.0, rest.1))
  }

  /** A run of n successful calls makes n choices and decays exactly n
      times. */
  lemma {:induction false} DecayingRunDecaysOncePerCall(s: EpsilonGreedy, qValues: seq<real>, actions: seq<int>,
                                                        draws: seq<real>, picks: seq<nat>)
    requires |draws| == |picks|
    requires forall k :: 0 <= k < |draws| ==> 0.0 <= draws[k] < 1.0
    requires |actions| > 0 ==> forall k :: 0 <= k < |picks| ==> picks[k] < |actions|
    requires DecayingRun(s, qValues, actions, draws, picks).Ok?
    ensures |DecayingRun(s, qValues, actions, draws, picks).value.0| == |draws|
    ensures DecayingRun(s, qValues, actions, draws, picks).value.1 == DecayTimes(s, |draws|)
    decreases |draws|
  {
    if |draws| > 0 {
      DecayingRunDecaysOncePerCall(Decay(s), qValues, actions, draws[1..], picks[1..]);
      DecayTimesShift(s, |draws| - 1);
    }
  }

  /** Decaying once and then n times is decaying n + 1 times. */
  lemma {:induction false} DecayTimesShift(s: EpsilonGreedy, n: nat)
    ensures DecayTimes(Decay(s), n) == DecayTimes(s, n + 1)
  {
    if n > 0 {
      DecayTimesShift(s, n - 1);
    }
  }

  // ---------------------------------------------------------------------
  // Upper confidence bound

  /** The exploration constant and the per-action counts, absent until
      the first call. */
  datatype Ucb = Ucb(c: real, actionCounts: Option<seq<int>>)

  /** UCBExplorationStrategy() */
  function NewUcb(): Ucb {
    Ucb(2.0, None)
  }

  /** The outcome of one call and the strategy afterwards: the counts are
      initialised before anything can fail, so they persist even when the
      call raises. */
  datatype UcbStep = UcbStep(outcome: Result<nat, ExplorationError>, strategy: Ucb)

  /** The counts a call works with. */
  function CurrentCounts(u: Ucb, actions: seq<int>): seq<int> {
    if u.actionCounts.None? then seq(|actions|, _ => 0) else u.actionCounts.value
  }

  /** UCBExplorationStrategy.get_action, with `scores` standing for the
      upper-confidence values computed from the q-values, the step count
      and the current counts. */
  function UcbGetAction(u: Ucb, scores: seq<int> -> seq<real>, actions: seq<int>): UcbStep {
    var counts := CurrentCounts(u, actions);
    var v := scores(counts);
    if |v| == 0 then UcbStep(Err(EmptyValues), u.(actionCounts := Some(counts)))
    else
      var a := ArgMax(v);
      if a >= |counts| then UcbStep(Err(CountOutOfRange), u.(actionCounts := Some(counts)))
      else UcbStep(Ok(a), u.(actionCounts := Some(counts[a := counts[a] + 1])))
  }

  /** The first call starts the counts at zero, one per available action;
      a successful call returns the first position of the largest score
      and adds one to that action's count only, so the counts always add
      up to the number of successful calls. */
  lemma UcbBookkeeping(u: Ucb, scores: seq<int> -> seq<real>, actions: seq<int>)
    ensures u.actionCounts.None? ==>
              |CurrentCounts(u, actions)| == |actions| && Sum(CurrentCounts(u, actions)) == 0
    ensures var step := UcbGetAction(u, scores, actions);
            var counts := CurrentCounts(u, actions);
            && step.strategy.c == u.c
            && step.strategy.actionCounts.Some?
            && |step.strategy.actionCounts.value| == |counts|
            && (step.outcome.Err? ==> step.strategy.actionCounts.value == counts)
            && (step.outcome.Ok? ==>
                  var a := step.outcome.value;
                  && |scores(counts)| > 0
                  && a == ArgMax(scores(counts))
                  && a < |counts|
                  && step.strategy.actionCounts.value[a] == counts[a] + 1
                  && (forall j :: 0 <= j < |counts| && j != a ==> step.strategy.actionCounts.value[j] == counts[j])
                  && Sum(step.strategy.actionCounts.value) == Sum(counts) + 1)
  {
    if u.actionCounts.None? {
      SumOfZeros(|actions|);
    }
    var counts := CurrentCounts(u, actions);
    var v := scores(counts);
    if |v| > 0 && ArgMax(v) < |counts| {
      SumUpdate(counts, ArgMax(v), 1);
    }
  }
}
