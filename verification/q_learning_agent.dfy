/** The tabular Q-learning agent: a state-by-action table of values,
    epsilon-greedy action choice, the temporal-difference update, the
    exploration decay and the reset. Hyperparameters arrive as a record
    (the YAML file is not read) and the random draws are passed in. */
module QLearningAgent {
  import opened Wrappers
  import opened Vectors

  datatype QError =
    | IndexOutOfRange    // a state or action outside the table
    | EmptyChoice        // random.choice(range(0))
    | EmptyRow           // np.argmax of a row with no actions

  /** The five keys load_config reads (save_path only matters to the file
      I/O, which is not modelled). */
  datatype Config = Config(
    learningRate: real,
    discountRate: real,
    explorationRate: real,
    explorationDecay: real,
    minExplorationRate: real)

  datatype Agent = Agent(
    stateSize: nat,
    actionSize: nat,
    table: seq<seq<real>>,
    learningRate: real,
    discountRate: real,
    explorationRate: real,
    explorationDecay: real,
    minExplorationRate: real)

  /** The table has state_size rows of action_size entries. */
  predicate WellShaped(a: Agent) {
    |a.table| == a.stateSize && forall i :: 0 <= i < |a.table| ==> |a.table[i]| == a.actionSize
  }

  /** QLearningAgent(state_size, action_size) with its configuration. */
  function NewAgent(stateSize: nat, actionSize: nat, config: Config): (a: Agent)
    ensures a.stateSize == stateSize && a.actionSize == actionSize && WellShaped(a)
    ensures forall i, j :: 0 <= i < |a.table| && 0 <= j < |a.table[i]| ==> a.table[i][j] == 0.0
    ensures a.explorationRate == config.explorationRate && a.learningRate == config.learningRate
    ensures a.discountRate == config.discountRate && a.explorationDecay == config.explorationDecay
    ensures a.minExplorationRate == config.minExplorationRate
  {
    Agent(stateSize, actionSize, ZeroMatrix(stateSize, actionSize),
          config.learningRate, config.discountRate, config.explorationRate,
          config.explorationDecay, config.minExplorationRate)
  }

  /** choose_action: `draw` is random.uniform(0, 1) and `pick` the value
      random.choice takes from range(action_size). A state in
      [-state_size, 0) counts from the end, as numpy indexing does. */
  function ChooseAction(a: Agent, state: int, draw: real, pick: nat): Result<nat, QError>
    requires 0.0 <= draw <= 1.0
    requires a.actionSize > 0 ==> pick < a.actionSize
  {
    if draw < a.explorationRate then
      if a.actionSize == 0 then Err(EmptyChoice) else Ok(pick)
    else
      match PyIndex(state, |a.table|)
      case None => Err(IndexOutOfRange)
      case Some(s) =>
        if |a.table[s]| == 0 then Err(EmptyRow) else Ok(ArgMax(a.table[s]))
  }

  /** The temporal-difference target of a transition into a row. */
  function TdTarget(a: Agent, reward: real, nextRow: seq<real>): real
    requires |nextRow| > 0
  {
    reward + a.discountRate * nextRow[ArgMax(nextRow)]
  }

  /** One step of the update: the current value moved towards the target by the
      learning rate. */
  function Blend(lr: real, current: real, target: real): real {
    current + lr * (target - current)
  }

  /** update_q_table. The target is computed from the table as it was
      before the update, so a self-transition sees the current value. */
  function UpdateQTable(a: Agent, state: int, action: int, reward: real, nextState: int): Result<Agent, QError> {
    match PyIndex(nextState, |a.table|)
    case None => Err(IndexOutOfRange)
    case Some(n) =>
      if |a.table[n]| == 0 then Err(EmptyRow)
      else
        var target := TdTarget(a, reward, a.table[n]);
        match PyIndex(state, |a.table|)
        case None => Err(IndexOutOfRange)
        case Some(s) =>
          match PyIndex(action, |a.table[s]|)
          case None => Err(IndexOutOfRange)
          case Some(c) =>
            var row := a.table[s][c := Blend(a.learningRate, a.table[s][c], target)];
            Ok(a.(table := a.table[s := row]))
  }

  /** decay_exploration */
  function DecayExploration(a: Agent): Agent {
    a.(explorationRate := MaxReal(a.minExplorationRate, a.explorationRate * a.explorationDecay))
  }

  /** reset */
  function Reset(a: Agent): Agent {
    a.(table := ZeroMatrix(a.stateSize, a.actionSize), explorationRate := 1.0)
  }

  /** load_q_table: `saved` is the file's table, or None when there is no
      file. The loaded table replaces the current one as it is. */
  function LoadQTable(a: Agent, saved: Option<seq<seq<real>>>): Agent {
    match saved
    case None => a
    case Some(t) => a.(table := t)
  }

  // ---------------------------------------------------------------------
  // Properties

  /** On a well-shaped table every chosen action is a column of the table:
      a random one when the draw is below the exploration rate, otherwise
      the first column holding the row's largest value. */
  lemma ChooseActionInRange(a: Agent, state: int, draw: real, pick: nat)
    requires WellShaped(a)
    requires 0.0 <= draw <= 1.0
    requires a.actionSize > 0 ==> pick < a.actionSize
    ensures var r := ChooseAction(a, state, draw, pick);
            && (r.Ok? ==> r.value < a.actionSize)
            && (draw < a.explorationRate ==> (r.Ok? <==> a.actionSize > 0) && (r.Ok? ==> r.value == pick))
            && (draw >= a.explorationRate ==>
                  && (r.Ok? <==> a.actionSize > 0 && -(a.stateSize as int) <= state < a.stateSize)
                  && (r.Ok? ==> var row := a.table[PyIndex(state, a.stateSize).value];
                                && (forall j :: 0 <= j < |row| ==> row[j] <= row[r.value])
                                && (forall j :: 0 <= j < r.value ==> row[j] < row[r.value])))
  {
  }

  /** The target is the reward plus the discounted largest value of the
      next state's row. */
  lemma TdTargetUsesRowMaximum(a: Agent, reward: real, nextRow: seq<real>)
    requires |nextRow| > 0
    ensures exists k :: 0 <= k < |nextRow|
                        && TdTarget(a, reward, nextRow) == reward + a.discountRate * nextRow[k]
                        && forall j :: 0 <= j < |nextRow| ==> nextRow[j] <= nextRow[k]
  {
    var k := ArgMax(nextRow);
    assert TdTarget(a, reward, nextRow) == reward + a.discountRate * nextRow[k];
  }

  /** A successful update changes exactly one cell, the (state, action)
      cell, which moves by learning_rate * (target - current); the table keeps
      its shape and everything else is untouched. It fails exactly when an
      index is out of range or the next row is empty. */
  lemma UpdateTouchesOneCell(a: Agent, state: int, action: int, reward: real, nextState: int)
    requires WellShaped(a)
    ensures UpdateQTable(a, state, action, reward, nextState).Ok? <==>
              && -(a.stateSize as int) <= nextState < a.stateSize
              && -(a.stateSize as int) <= state < a.stateSize
              && a.actionSize > 0
              && -(a.actionSize as int) <= action < a.actionSize
    ensures UpdateQTable(a, state, action, reward, nextState).Ok? ==>
              var b := UpdateQTable(a, state, action, reward, nextState).value;
              var s := PyIndex(state, a.stateSize).value;
              var c := PyIndex(action, a.actionSize).value;
              var n := PyIndex(nextState, a.stateSize).value;
              && WellShaped(b)
              && b.(table := a.table) == a
              && b.table[s][c] == a.table[s][c] + a.learningRate * (TdTarget(a, reward, a.table[n]) - a.table[s][c])
              && (forall i, j :: 0 <= i < a.stateSize && 0 <= j < a.actionSize && (i, j) != (s, c) ==>
                    b.table[i][j] == a.table[i][j])
  {
  }

  /** The update is a step towards the target: with learning rate 1 the
      cell becomes the target, and with a rate in [0, 1] its distance to
      the target shrinks by the factor 1 - rate. */
  lemma BlendApproachesTarget(lr: real, current: real, target: real)
    ensures lr == 1.0 ==> Blend(lr, current, target) == target
    ensures lr == 0.0 ==> Blend(lr, current, target) == current
    ensures 0.0 <= lr <= 1.0 ==> Abs(Blend(lr, current, target) - target) == (1.0 - lr) * Abs(current - target)
  {
    assert Blend(lr, current, target) - target == (1.0 - lr) * (current - target);
    if 0.0 <= lr <= 1.0 {
      if current - target >= 0.0 {
        NonNegativeProduct(1.0 - lr, current - target);
      } else {
        NonNegativeProduct(1.0 - lr, target - current);
      }
    }
  }

  function Abs(x: real): real {
    if x >= 0.0 then x else -x
  }

  /** Decay sets the rate to the larger of the floor and rate * decay, and
      nothing else; from at or above a non-negative floor with a decay in
      [0, 1] it never raises the rate. */
  lemma DecayExplorationEffect(a: Agent)
    ensures DecayExploration(a).(explorationRate := a.explorationRate) == a
    ensures DecayExploration(a).explorationRate >= a.minExplorationRate
    ensures DecayExploration(a).explorationRate >= a.explorationRate * a.explorationDecay
    ensures DecayExploration(a).explorationRate == a.minExplorationRate
            || DecayExploration(a).explorationRate == a.explorationRate * a.explorationDecay
    ensures 0.0 <= a.minExplorationRate <= a.explorationRate && 0.0 <= a.explorationDecay <= 1.0 ==>
              DecayExploration(a).explorationRate <= a.explorationRate
  {
    if 0.0 <= a.minExplorationRate <= a.explorationRate && 0.0 <= a.explorationDecay <= 1.0 {
      assert a.explorationRate - a.explorationRate * a.explorationDecay
          == a.explorationRate * (1.0 - a.explorationDecay);
      NonNegativeProduct(a.explorationRate, 1.0 - a.explorationDecay);
    }
  }

  /** Reset gives the table a fresh agent would have and full exploration,
      keeping every other setting; after a reset the agent always explores
      (every draw is below 1). */
  lemma ResetIsFresh(a: Agent, config: Config, draw: real, pick: nat)
    requires 0.0 <= draw < 1.0
    requires a.actionSize > 0 ==> pick < a.actionSize
    ensures Reset(a).table == NewAgent(a.stateSize, a.actionSize, config).table
    ensures WellShaped(Reset(a))
    ensures Reset(a).(table := a.table, explorationRate := a.explorationRate) == a
    ensures a.actionSize > 0 ==> ChooseAction(Reset(a), 0, draw, pick) == Ok(pick)
  {
  }

  /** Loading without a file leaves the agent exactly as it was. */
  lemma MissingFileKeepsTable(a: Agent, t: seq<seq<real>>)
    ensures LoadQTable(a, None) == a
    ensures LoadQTable(a, Some(t)).table == t
    ensures LoadQTable(a, Some(t)).(table := a.table) == a
  {
  }
}
