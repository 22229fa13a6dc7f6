/** The in-memory side of the training metrics logger: five parallel
    lists, one entry per logged episode, with the running total of the
    rewards kept alongside. Writing to and reading from the JSON file and
    the log are not modelled. */
module MetricsLogger {
  import opened Wrappers

  /** The metrics dictionary: "episodes", "rewards", "win_rate",
      "cumulative_rewards" and "average_q_values". */
  datatype Metrics = Metrics(
    episodes: seq<int>,
    rewards: seq<real>,
    winRate: seq<real>,
    cumulativeRewards: seq<real>,
    averageQValues: seq<real>)

  /** A list read at index -1 while it is empty. */
  datatype MetricsError = IndexOutOfRange

  /** What display_latest_metrics shows. */
  datatype Latest = Latest(episode: int, reward: real, winRate: real, averageQValue: real, cumulativeReward: real)

  /** Python's sum() over a list of rewards, added left to right. */
  function RealSum(s: seq<real>): real {
    if |s| == 0 then 0.0 else RealSum(s[..|s| - 1]) + s[|s| - 1]
  }

  /** The logger's metrics when it is created. */
  function NewLogger(): Metrics {
    Metrics([], [], [], [], [])
  }

  /** log_episode: one entry appended to each list; the cumulative entry
      is the sum of all the rewards including the new one. */
  function LogEpisode(m: Metrics, episode: int, reward: real, winRate: real, averageQValue: real): Metrics {
    var rewards := m.rewards + [reward];
    Metrics(m.episodes + [episode], rewards, m.winRate + [winRate],
            m.cumulativeRewards + [RealSum(rewards)], m.averageQValues + [averageQValue])
  }

  /** load_metrics: `saved` is the file's contents, or None when there is
      no file. */
  function LoadMetrics(m: Metrics, saved: Option<Metrics>): Metrics {
    match saved
    case None => m
    case Some(s) => s
  }

  /** display_latest_metrics: nothing when no episode has been logged;
      otherwise the last entry of each list, where an empty list fails as
      the [-1] lookup would. */
  function DisplayLatestMetrics(m: Metrics): Result<Option<Latest>, MetricsError> {
    if |m.episodes| == 0 then Ok(None)
    else if |m.rewards| == 0 || |m.winRate| == 0 || |m.averageQValues| == 0 || |m.cumulativeRewards| == 0 then
      Err(IndexOutOfRange)
    else
      Ok(Some(Latest(m.episodes[|m.episodes| - 1], m.rewards[|m.rewards| - 1], m.winRate[|m.winRate| - 1],
                     m.averageQValues[|m.averageQValues| - 1], m.cumulativeRewards[|m.cumulativeRewards| - 1])))
  }

  /** The logger's invariant: the five lists have one entry per episode
      and each cumulative entry is the sum of the rewards up to and
      including that episode. */
  predicate Consistent(m: Metrics) {
    && |m.rewards| == |m.episodes|
    && |m.winRate| == |m.episodes|
    && |m.cumulativeRewards| == |m.episodes|
    && |m.averageQValues| == |m.episodes|
    && forall i :: 0 <= i < |m.cumulativeRewards| ==> m.cumulativeRewards[i] == RealSum(m.rewards[..i + 1])
  }

  // ---------------------------------------------------------------------
  // Properties

  /** A new logger has five empty lists, which is a consistent state with
      nothing to display. */
  lemma NewLoggerIsEmpty()
    ensures var m := NewLogger();
            && |m.episodes| == 0 && |m.rewards| == 0 && |m.winRate| == 0
            && |m.cumulativeRewards| == 0 && |m.averageQValues| == 0
            && Consistent(m)
            && DisplayLatestMetrics(m) == Ok(None)
  {
  }

  /** Adding one more reward adds it to the sum. */
  lemma RealSumAppend(s: seq<real>, x: real)
    ensures RealSum(s + [x]) == RealSum(s) + x
  {
    assert (s + [x])[..|s|] == s;
  }

  /** Logging appends exactly one entry to each list, the arguments
      themselves and the new running total, and keeps every earlier entry. */
  lemma LogEpisodeAppends(m: Metrics, episode: int, reward: real, winRate: real, averageQValue: real)
    ensures var m' := LogEpisode(m, episode, reward, winRate, averageQValue);
            && m'.episodes == m.episodes + [episode]
            && m'.rewards == m.rewards + [reward]
            && m'.winRate == m.winRate + [winRate]
            && m'.averageQValues == m.averageQValues + [averageQValue]
            && m'.cumulativeRewards[..|m.cumulativeRewards|] == m.cumulativeRewards
            && |m'.cumulativeRewards| == |m.cumulativeRewards| + 1
            && m'.cumulativeRewards[|m.cumulativeRewards|] == RealSum(m.rewards) + reward
  {
    RealSumAppend(m.rewards, reward);
  }

  /** Logging keeps the logger consistent. */
  lemma LogEpisodeKeepsConsistent(m: Metrics, episode: int, reward: real, winRate: real, averageQValue: real)
    requires Consistent(m)
    ensures Consistent(LogEpisode(m, episode, reward, winRate, averageQValue))
  {
    var m' := LogEpisode(m, episode, reward, winRate, averageQValue);
    forall i | 0 <= i < |m'.cumulativeRewards|
      ensures m'.cumulativeRewards[i] == RealSum(m'.rewards[..i + 1])
    {
      if i < |m.cumulativeRewards| {
        assert m'.rewards[..i + 1] == m.rewards[..i + 1];
      } else {
        assert m'.rewards[..i + 1] == m'.rewards;
      }
    }
  }

  /** A training run: one log_episode call per step, in order. */
  function LogAll(m: Metrics, steps: seq<(int, real, real, real)>): Metrics
    decreases |steps|
  {
    if |steps| == 0 then m
    else LogAll(LogEpisode(m, steps[0].0, steps[0].1, steps[0].2, steps[0].3), steps[1..])
  }

  /** Over a whole run the logger stays consistent and gains one entry per
      step, whose episode number and reward are the step's. */
  lemma {:induction false} LogAllKeepsConsistent(m: Metrics, steps: seq<(int, real, real, real)>)
    requires Consistent(m)
    ensures var m' := LogAll(m, steps);
            && Consistent(m')
            && |m'.episodes| == |m.episodes| + |steps|
            && m'.rewards[..|m.rewards|] == m.rewards
            && forall i :: 0 <= i < |steps| ==> m'.episodes[|m.episodes| + i] == steps[i].0 && m'.rewards[|m.rewards| + i] == steps[i].1
    decreases |steps|
  {
    if |steps| > 0 {
      var m1 := LogEpisode(m, steps[0].0, steps[0].1, steps[0].2, steps[0].3);
      LogEpisodeKeepsConsistent(m, steps[0].0, steps[0].1, steps[0].2, steps[0].3);
      LogAllKeepsConsistent(m1, steps[1..]);
      var m' := LogAll(m, steps);
      assert m' == LogAll(m1, steps[1..]);
      assert m'.rewards[..|m1.rewards|][..|m.rewards|] == m'.rewards[..|m.rewards|];
      assert m'.episodes[..|m1.episodes|] == m1.episodes by {
        EpisodesPrefix(m1, steps[1..]);
      }
      forall i | 0 <= i < |steps|
        ensures m'.episodes[|m.episodes| + i] == steps[i].0 && m'.rewards[|m.rewards| + i] == steps[i].1
      {
        if i == 0 {
          assert m'.rewards[..|m1.rewards|] == m1.rewards;
        } else {
          assert steps[i] == steps[1..][i - 1];
        }
      }
    }
  }

  /** Later episodes keep the earlier episode numbers. */
  lemma {:induction false} EpisodesPrefix(m: Metrics, steps: seq<(int, real, real, real)>)
    ensures |LogAll(m, steps).episodes| == |m.episodes| + |steps|
    ensures LogAll(m, steps).episodes[..|m.episodes|] == m.episodes
    decreases |steps|
  {
    if |steps| > 0 {
      var m1 := LogEpisode(m, steps[0].0, steps[0].1, steps[0].2, steps[0].3);
      EpisodesPrefix(m1, steps[1..]);
      assert LogAll(m, steps).episodes[..|m1.episodes|][..|m.episodes|] == LogAll(m, steps).episodes[..|m.episodes|];
    }
  }

  /** In a consistent logger the cumulative list is the running total of
      the rewards: it starts at the first reward and each entry exceeds the
      one before by that episode's reward. */
  lemma CumulativeIsRunningTotal(m: Metrics)
    requires Consistent(m)
    ensures |m.cumulativeRewards| > 0 ==> m.cumulativeRewards[0] == m.rewards[0]
    ensures forall i :: 0 < i < |m.cumulativeRewards| ==>
              m.cumulativeRewards[i] == m.cumulativeRewards[i - 1] + m.rewards[i]
  {
    if |m.cumulativeRewards| > 0 {
      assert m.rewards[..1] == [] + [m.rewards[0]];
      RealSumAppend([], m.rewards[0]);
    }
    forall i | 0 < i < |m.cumulativeRewards|
      ensures m.cumulativeRewards[i] == m.cumulativeRewards[i - 1] + m.rewards[i]
    {
      assert m.rewards[..i + 1] == m.rewards[..i] + [m.rewards[i]];
      RealSumAppend(m.rewards[..i], m.rewards[i]);
    }
  }

  /** Whatever was logged before, the latest metrics are the ones just
      logged, with the sum of all rewards as the cumulative value. */
  lemma LatestIsLastLogged(m: Metrics, episode: int, reward: real, winRate: real, averageQValue: real)
    ensures DisplayLatestMetrics(LogEpisode(m, episode, reward, winRate, averageQValue))
              == Ok(Some(Latest(episode, reward, winRate, averageQValue, RealSum(m.rewards) + reward)))
  {
    RealSumAppend(m.rewards, reward);
  }

  /** The latest metrics are shown exactly when an episode has been
      logged, and a consistent logger never fails to show them. */
  lemma DisplayGuard(m: Metrics)
    ensures DisplayLatestMetrics(m) == Ok(None) <==> |m.episodes| == 0
    ensures Consistent(m) ==> DisplayLatestMetrics(m).Ok?
    ensures DisplayLatestMetrics(m).Err? ==>
              |m.episodes| > 0 && (|m.rewards| == 0 || |m.winRate| == 0 || |m.averageQValues| == 0 || |m.cumulativeRewards| == 0)
  {
  }

  /** Loading without a file keeps the metrics; a file replaces them. */
  lemma MissingFileKeepsMetrics(m: Metrics, s: Metrics)
    ensures LoadMetrics(m, None) == m
    ensures LoadMetrics(m, Some(s)) == s
  {
  }

  /** The example run: episode 10 with reward 100, win rate 0.75 and
      average Q-value 5.2, logged into a new logger, is displayed with a
      cumulative reward of 100. */
  lemma ExampleRun()
    ensures DisplayLatestMetrics(LogEpisode(NewLogger(), 10, 100.0, 0.75, 5.2))
              == Ok(Some(Latest(10, 100.0, 0.75, 5.2, 100.0)))
  {
    LatestIsLastLogged(NewLogger(), 10, 100.0, 0.75, 5.2);
  }
}
