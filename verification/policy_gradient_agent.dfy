/** The two pure parts of the policy-gradient agent: the experience
    memory and the discounting of an episode's rewards. The network
    itself is not modelled. */
module PolicyGradientAgent {

  /** The agent's memory: parallel lists of states, actions and rewards. */
  datatype Memory = Memory(states: seq<seq<real>>, actions: seq<int>, rewards: seq<real>)

  /** The memory of a new agent. */
  function EmptyMemory(): Memory {
    Memory([], [], [])
  }

  /** remember */
  function Remember(m: Memory, state: seq<real>, action: int, reward: real): Memory {
    Memory(m.states + [state], m.actions + [action], m.rewards + [reward])
  }

  /** The three lists describe the same steps. */
  predicate Aligned(m: Memory) {
    |m.states| == |m.actions| == |m.rewards|
  }

  /** remember adds one step at the end of each list and keeps what was
      there, so aligned lists stay aligned. */
  lemma RememberAppendsOneStep(m: Memory, state: seq<real>, action: int, reward: real)
    ensures var m' := Remember(m, state, action, reward);
            && |m'.states| == |m.states| + 1 && |m'.actions| == |m.actions| + 1 && |m'.rewards| == |m.rewards| + 1
            && m'.states[..|m.states|] == m.states && m'.actions[..|m.actions|] == m.actions
            && m'.rewards[..|m.rewards|] == m.rewards
            && m'.states[|m.states|] == state && m'.actions[|m.actions|] == action
            && m'.rewards[|m.rewards|] == reward
            && (Aligned(m) ==> Aligned(m'))
  {
  }

  /** A sequence of steps remembered one after another. */
  function RememberAll(m: Memory, steps: seq<(seq<real>, int, real)>): Memory
    decreases |steps|
  {
    if |steps| == 0 then m
    else RememberAll(Remember(m, steps[0].0, steps[0].1, steps[0].2), steps[1..])
  }

  /** Remembering n steps into a fresh memory gives aligned lists of n
      entries whose i-th reward is the i-th step's. */
  lemma {:induction false} RememberAllRecordsSteps(m: Memory, steps: seq<(seq<real>, int, real)>)
    requires Aligned(m)
    ensures var m' := RememberAll(m, steps);
            && Aligned(m')
            && |m'.rewards| == |m.rewards| + |steps|
            && m'.rewards[..|m.rewards|] == m.rewards
            && forall i :: 0 <= i < |steps| ==> m'.rewards[|m.rewards| + i] == steps[i].2 && m'.actions[|m.actions| + i] == steps[i].1
    decreases |steps|
  {
    if |steps| > 0 {
      var m1 := Remember(m, steps[0].0, steps[0].1, steps[0].2);
      RememberAllRecordsSteps(m1, steps[1..]);
      var m' := RememberAll(m, steps);
      assert m' == RememberAll(m1, steps[1..]);
      assert m'.rewards[..|m1.rewards|][..|m.rewards|] == m'.rewards[..|m.rewards|];
      forall i | 0 <= i < |steps|
        ensures m'.rewards[|m.rewards| + i] == steps[i].2 && m'.actions[|m.actions| + i] == steps[i].1
      {
        if i == 0 {
          assert m'.rewards[..|m1.rewards|] == m1.rewards;
          assert m'.actions[..|m1.actions|] == m1.actions by {
            AlignedPrefix(m1, steps[1..]);
          }
        } else {
          assert steps[i] == steps[1..][i - 1];
        }
      }
    }
  }

  /** Remembering more steps keeps the actions already there. */
  lemma {:induction false} AlignedPrefix(m: Memory, steps: seq<(seq<real>, int, real)>)
    ensures |RememberAll(m, steps).actions| == |m.actions| + |steps|
    ensures RememberAll(m, steps).actions[..|m.actions|] == m.actions
    decreases |steps|
  {
    if |steps| > 0 {
      var m1 := Remember(m, steps[0].0, steps[0].1, steps[0].2);
      AlignedPrefix(m1, steps[1..]);
      assert RememberAll(m, steps).actions[..|m1.actions|][..|m.actions|] == RememberAll(m, steps).actions[..|m.actions|];
    }
  }

  // ---------------------------------------------------------------------
  // Discounting

  /** One iteration of the backwards loop: the running sum times gamma,
      plus the reward. */
  function Accumulate(gamma: real, cumulative: real, reward: real): real {
    cumulative * gamma + reward
  }

  /** The discounted return from step t: the running sum the backwards
      loop holds once it has reached t. */
  function ReturnFrom(gamma: real, rewards: seq<real>, t: nat): real
    decreases |rewards| - t
  {
    if t >= |rewards| then 0.0 else Accumulate(gamma, ReturnFrom(gamma, rewards, t + 1), rewards[t])
  }

  /** The return from the last step is the last reward, and each earlier
      return is the reward plus gamma times the next return. */
  lemma ReturnRecurrence(gamma: real, rewards: seq<real>, t: nat)
    requires t < |rewards|
    ensures t == |rewards| - 1 ==> ReturnFrom(gamma, rewards, t) == rewards[t]
    ensures ReturnFrom(gamma, rewards, t) == rewards[t] + gamma * ReturnFrom(gamma, rewards, t + 1)
  {
  }

  /** A list holding the returns satisfies the backwards recurrence. */
  lemma DiscountedRecurrence(gamma: real, rewards: seq<real>, d: seq<real>)
    requires |d| == |rewards|
    requires forall t :: 0 <= t < |d| ==> d[t] == ReturnFrom(gamma, rewards, t)
    ensures forall t :: 0 <= t < |d| - 1 ==> d[t] == rewards[t] + gamma * d[t + 1]
  {
    forall t | 0 <= t < |d| - 1
      ensures d[t] == rewards[t] + gamma * d[t + 1]
    {
      ReturnRecurrence(gamma, rewards, t);
      StepOfReturns(d[t], d[t + 1], ReturnFrom(gamma, rewards, t), ReturnFrom(gamma, rewards, t + 1), gamma, rewards[t]);
    }
  }

  lemma StepOfReturns(a: real, b: real, x: real, y: real, gamma: real, r: real)
    requires a == x && b == y && x == r + gamma * y
    ensures a == r + gamma * b
  {
  }

  /** discount_rewards: walk the episode backwards keeping a running
      cumulative sum, multiplied by gamma before each reward is added. */
  method DiscountRewards(gamma: real, rewards: seq<real>) returns (d: seq<real>)
    ensures |d| == |rewards|
    ensures forall t :: 0 <= t < |d| ==> d[t] == ReturnFrom(gamma, rewards, t)
    ensures |rewards| > 0 ==> d[|d| - 1] == rewards[|rewards| - 1]
  {
    d := seq(|rewards|, _ => 0.0);
    var cumulative := 0.0;
    var t := |rewards|;
    while t > 0
      invariant 0 <= t <= |rewards| && |d| == |rewards|
      invariant cumulative == ReturnFrom(gamma, rewards, t)
      invariant forall k :: t <= k < |d| ==> d[k] == ReturnFrom(gamma, rewards, k)
    {
      t := t - 1;
      cumulative := Accumulate(gamma, cumulative, rewards[t]);
      d := d[t := cumulative];
    }
    if |rewards| > 0 {
      ReturnRecurrence(gamma, rewards, |rewards| - 1);
    }
  }

  /** Without discounting each step's return is its own reward. */
  lemma NoDiscountIsIdentity(rewards: seq<real>, t: nat)
    requires t < |rewards|
    ensures ReturnFrom(0.0, rewards, t) == rewards[t]
  {
  }

  /** sum(rewards[t:]) */
  function SumFrom(rewards: seq<real>, t: nat): real
    decreases |rewards| - t
  {
    if t >= |rewards| then 0.0 else rewards[t] + SumFrom(rewards, t + 1)
  }

  /** With gamma = 1 the return from t is the plain sum of the rewards from
      t on. */
  lemma {:induction false} FullDiscountIsSuffixSum(rewards: seq<real>, t: nat)
    ensures ReturnFrom(1.0, rewards, t) == SumFrom(rewards, t)
    decreases |rewards| - t
  {
    if t < |rewards| {
      FullDiscountIsSuffixSum(rewards, t + 1);
    }
  }

  /** Returns are linear in the rewards: scaling every reward by c scales
      every return by c. */
  lemma {:induction false} ReturnIsLinear(gamma: real, rewards: seq<real>, c: real, t: nat)
    ensures ReturnFrom(gamma, seq(|rewards|, i requires 0 <= i < |rewards| => c * rewards[i]), t)
              == c * ReturnFrom(gamma, rewards, t)
    decreases |rewards| - t
  {
    if t < |rewards| {
      ReturnIsLinear(gamma, rewards, c, t + 1);
      var scaled := seq(|rewards|, i requires 0 <= i < |rewards| => c * rewards[i]);
      var x := ReturnFrom(gamma, rewards, t + 1);
      assert ReturnFrom(gamma, scaled, t + 1) == c * x;
      assert (c * x) * gamma + c * rewards[t] == c * (x * gamma + rewards[t]);
    }
  }
}
