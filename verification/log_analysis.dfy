/** The chat-log analysis: counting messages, bluffs and win or loss
    announcements, and how many messages fall in each minute; then adding
    up the statistics of every log file in a directory. Reading and parsing
    the files and the charts are not modelled: a log file arrives as its
    list of entries. */
module LogAnalysis {

  /** One parsed chat line: the message text and its timestamp rendered
      as "HH:MM". */
  datatype Entry = Entry(message: string, minute: string)

  /** The per-minute message counts: a dictionary, as (minute, count) pairs
      in insertion order. */
  type Frequency = seq<(string, nat)>

  /** The results dictionary. */
  datatype Stats = Stats(total: nat, bluffs: nat, wins: nat, losses: nat, frequency: Frequency)

  /** A log file in the directory: its name and its parsed entries. */
  datatype LogFile = LogFile(name: string, entries: seq<Entry>)

  // ---------------------------------------------------------------------
  // Matching

  function LowerChar(c: char): char {
    if 'A' <= c <= 'Z' then (c as int - 'A' as int + 'a' as int) as char else c
  }

  /** str.lower(), on ASCII letters. */
  function Lower(s: string): string {
    seq(|s|, i requires 0 <= i < |s| => LowerChar(s[i]))
  }

  /** A character \w matches. */
  predicate IsWordChar(c: char) {
    'a' <= c <= 'z' || 'A' <= c <= 'Z' || '0' <= c <= '9' || c == '_'
  }

  /** The word w occurs at position i of s with a word boundary on either
      side. */
  predicate WordAt(s: string, w: string, i: nat)
    requires i + |w| <= |s|
  {
    && s[i..i + |w|] == w
    && (i == 0 || !IsWordChar(s[i - 1]))
    && (i + |w| == |s| || !IsWordChar(s[i + |w|]))
  }

  /** re.search(r"\bw\b", s) from position i on: the first position
      where the word occurs on its own. */
  predicate SearchFrom(s: string, w: string, i: nat)
    decreases |s| - i
  {
    i + |w| <= |s| && (WordAt(s, w, i) || SearchFrom(s, w, i + 1))
  }

  /** re.search(r"\bw\b", s) finds a match. */
  predicate ContainsWord(s: string, w: string) {
    SearchFrom(s, w, 0)
  }

  // ---------------------------------------------------------------------
  // Frequency dictionaries

  /** The dictionary's keys. */
  function Keys(f: Frequency): set<string> {
    set p | p in f :: p.0
  }

  /** Each minute appears at most once. */
  predicate DistinctKeys(f: Frequency) {
    forall i, j :: 0 <= i < j < |f| ==> f[i].0 != f[j].0
  }

  /** The count recorded for key k (0 when it is absent). */
  function Count(f: Frequency, k: string): nat {
    if |f| == 0 then 0 else (if f[0].0 == k then f[0].1 else 0) + Count(f[1..], k)
  }

  /** The sum of all the counts. */
  function ValueSum(f: Frequency): nat {
    if |f| == 0 then 0 else f[0].1 + ValueSum(f[1..])
  }

  /** `d[k] = n` when k is new, `d[k] += n` otherwise: a new key goes at
      the end, as a dictionary keeps insertion order. */
  function Bump(f: Frequency, k: string, n: nat): Frequency {
    if |f| == 0 then [(k, n)]
    else if f[0].0 == k then [(k, f[0].1 + n)] + f[1..]
    else [f[0]] + Bump(f[1..], k, n)
  }

  /** The merge loop of analyze_logs_in_directory: every (minute, count)
      of a file's dictionary bumped into the running one, in order. */
  function MergeFrequency(acc: Frequency, f: Frequency): Frequency
    decreases |f|
  {
    if |f| == 0 then acc else MergeFrequency(Bump(acc, f[0].0, f[0].1), f[1..])
  }

  // ---------------------------------------------------------------------
  // analyze_chat_performance

  function EmptyStats(): Stats {
    Stats(0, 0, 0, 0, [])
  }

  /** One iteration of the loop over the entries. The message is lowered
      before matching; "win" is looked for before "lost", so a message with
      both is a win. */
  function AnalyzeEntry(st: Stats, e: Entry): Stats {
    var message := Lower(e.message);
    var isWin := ContainsWord(message, "win");
    Stats(st.total + 1,
          st.bluffs + (if ContainsWord(message, "bluff") then 1 else 0),
          st.wins + (if isWin then 1 else 0),
          st.losses + (if !isWin && ContainsWord(message, "lost") then 1 else 0),
          Bump(st.frequency, e.minute, 1))
  }

  /** analyze_chat_performance: the entries processed in order. */
  function Analyze(entries: seq<Entry>): Stats {
    if |entries| == 0 then EmptyStats()
    else AnalyzeEntry(Analyze(entries[..|entries| - 1]), entries[|entries| - 1])
  }

  /** The minutes of the entries, in order. */
  function Minutes(entries: seq<Entry>): seq<string> {
    seq(|entries|, i requires 0 <= i < |entries| => entries[i].minute)
  }

  // ---------------------------------------------------------------------
  // analyze_logs_in_directory

  predicate EndsWith(s: string, suffix: string) {
    |suffix| <= |s| && s[|s| - |suffix|..] == suffix
  }

  /** The aggregation of one file's statistics into the running ones. */
  function Aggregate(all: Stats, st: Stats): Stats {
    Stats(all.total + st.total, all.bluffs + st.bluffs, all.wins + st.wins, all.losses + st.losses,
          MergeFrequency(all.frequency, st.frequency))
  }

  /** The loop over the directory listing: only names ending in ".log"
      are analysed. */
  function AnalyzeLogs(files: seq<LogFile>): Stats {
    if |files| == 0 then EmptyStats()
    else
      var all := AnalyzeLogs(files[..|files| - 1]);
      var file := files[|files| - 1];
      if EndsWith(file.name, ".log") then Aggregate(all, Analyze(file.entries)) else all
  }

  /** Every entry of the directory's ".log" files, file after file. */
  function LogEntries(files: seq<LogFile>): seq<Entry> {
    if |files| == 0 then []
    else
      var file := files[|files| - 1];
      LogEntries(files[..|files| - 1]) + (if EndsWith(file.name, ".log") then file.entries else [])
  }

  // ---------------------------------------------------------------------
  // Properties of matching

  /** The pattern matches a whole word only: "bluff" is found in "i bluff
      now" but not in "bluffing". */
  lemma WordBoundaryExamples()
    ensures ContainsWord("i bluff now", "bluff")
    ensures !ContainsWord("bluffing", "bluff")
    ensures ContainsWord(Lower("I WIN"), "win")
  {
    assert WordAt("i bluff now", "bluff", 2);
    assert Lower("I WIN") == "i win";
    assert WordAt("i win", "win", 2);
    forall i: nat | i + 5 <= 8
      ensures !WordAt("bluffing", "bluff", i)
    {
      if i == 0 {
        assert "bluffing"[5] == 'i';
      } else {
        assert "bluffing"[i] != 'b';
      }
    }
  }

  /** The search finds the word exactly when it occurs on its own at some
      position at or after the start. */
  lemma {:induction false} SearchFromFindsAnyOccurrence(s: string, w: string, i: nat)
    ensures SearchFrom(s, w, i) <==> exists j: nat :: i <= j && j + |w| <= |s| && WordAt(s, w, j)
    decreases |s| - i
  {
    if i + |w| <= |s| {
      SearchFromFindsAnyOccurrence(s, w, i + 1);
      if exists j: nat :: i <= j && j + |w| <= |s| && WordAt(s, w, j) {
        var j: nat :| i <= j && j + |w| <= |s| && WordAt(s, w, j);
        if j > i {
          assert i + 1 <= j;
        }
      }
    }
  }

  /** Lowering keeps the length and lowers each letter. */
  lemma LowerIsPointwise(s: string)
    ensures |Lower(s)| == |s|
    ensures forall i :: 0 <= i < |s| && 'A' <= s[i] <= 'Z' ==> Lower(s)[i] == (s[i] as int + 32) as char
    ensures forall i :: 0 <= i < |s| && !('A' <= s[i] <= 'Z') ==> Lower(s)[i] == s[i]
    ensures forall i :: 0 <= i < |s| ==> !('A' <= Lower(s)[i] <= 'Z')
  {
  }

  // ---------------------------------------------------------------------
  // Properties of the dictionaries

  /** A list of pairs split at the front. */
  lemma KeysCons(f: Frequency)
    requires |f| > 0
    ensures Keys(f) == {f[0].0} + Keys(f[1..])
  {
    forall k | k in Keys(f)
      ensures k in {f[0].0} + Keys(f[1..])
    {
      var p :| p in f && p.0 == k;
      var i :| 0 <= i < |f| && f[i] == p;
      if i > 0 {
        assert f[1..][i - 1] == p;
      }
    }
    forall k | k in {f[0].0} + Keys(f[1..])
      ensures k in Keys(f)
    {
      if k != f[0].0 {
        var p :| p in f[1..] && p.0 == k;
        assert p in f;
      }
    }
  }

  /** Bumping adds n to key k and leaves every other count alone. */
  lemma {:induction false} BumpCounts(f: Frequency, k: string, n: nat)
    ensures Count(Bump(f, k, n), k) == Count(f, k) + n
    ensures forall j :: j != k ==> Count(Bump(f, k, n), j) == Count(f, j)
  {
    if |f| > 0 {
      var b := Bump(f, k, n);
      assert b[1..] == (if f[0].0 == k then f[1..] else Bump(f[1..], k, n));
      if f[0].0 != k {
        BumpCounts(f[1..], k, n);
      }
    }
  }

  /** Bumping grows the total by n. */
  lemma {:induction false} BumpSum(f: Frequency, k: string, n: nat)
    ensures ValueSum(Bump(f, k, n)) == ValueSum(f) + n
  {
    if |f| > 0 {
      var b := Bump(f, k, n);
      assert b[1..] == (if f[0].0 == k then f[1..] else Bump(f[1..], k, n));
      if f[0].0 != k {
        BumpSum(f[1..], k, n);
      }
    }
  }

  /** The key set gains k: a new key is appended at the end, an existing
      one keeps its place. */
  lemma {:induction false} BumpKeys(f: Frequency, k: string, n: nat)
    ensures Keys(Bump(f, k, n)) == Keys(f) + {k}
    ensures k !in Keys(f) ==> Bump(f, k, n) == f + [(k, n)]
    ensures k in Keys(f) ==> |Bump(f, k, n)| == |f|
  {
    var b := Bump(f, k, n);
    if |f| == 0 {
      KeysCons(b);
    } else {
      KeysCons(f);
      KeysCons(b);
      if f[0].0 != k {
        assert b[1..] == Bump(f[1..], k, n);
        BumpKeys(f[1..], k, n);
        if k !in Keys(f) {
          assert b == [f[0]] + (f[1..] + [(k, n)]);
          assert [f[0]] + (f[1..] + [(k, n)]) == f + [(k, n)];
        }
      } else {
        assert b[1..] == f[1..];
      }
    }
  }

  /** A key of the list is the key of one of its entries. */
  lemma KeyAt(f: Frequency, k: string) returns (i: nat)
    requires k in Keys(f)
    ensures i < |f| && f[i].0 == k
  {
    var p :| p in f && p.0 == k;
    i :| 0 <= i < |f| && f[i] == p;
  }

  /** Bumping keeps the keys distinct. */
  lemma {:induction false} BumpKeepsDistinct(f: Frequency, k: string, n: nat)
    requires DistinctKeys(f)
    ensures DistinctKeys(Bump(f, k, n))
  {
    if |f| > 0 {
      DistinctTail(f);
      if f[0].0 != k {
        BumpKeepsDistinct(f[1..], k, n);
        BumpKeys(f[1..], k, n);
        ConsKeepsDistinct(f[0], Bump(f[1..], k, n));
      } else {
        ConsKeepsDistinct((k, f[0].1 + n), f[1..]);
      }
    }
  }

  /** Past the first entry the keys are still distinct, and none of them
      is the first key. */
  lemma DistinctTail(f: Frequency)
    requires |f| > 0 && DistinctKeys(f)
    ensures DistinctKeys(f[1..]) && f[0].0 !in Keys(f[1..])
  {
    forall m | 0 <= m < |f[1..]|
      ensures f[1..][m].0 != f[0].0
    {
      assert f[1..][m] == f[m + 1];
    }
    forall i, j | 0 <= i < j < |f[1..]|
      ensures f[1..][i].0 != f[1..][j].0
    {
      assert f[1..][i] == f[i + 1] && f[1..][j] == f[j + 1];
    }
  }

  /** A new key in front of distinct keys keeps them distinct. */
  lemma ConsKeepsDistinct(p: (string, nat), g: Frequency)
    requires DistinctKeys(g) && p.0 !in Keys(g)
    ensures DistinctKeys([p] + g)
  {
    var b := [p] + g;
    forall i, j | 0 <= i < j < |b|
      ensures b[i].0 != b[j].0
    {
      assert b[j] == g[j - 1];
      if i == 0 {
        assert g[j - 1] in g;
      } else {
        assert b[i] == g[i - 1];
      }
    }
  }

  /** All the effects of one bump together. */
  lemma BumpEffect(f: Frequency, k: string, n: nat)
    ensures Count(Bump(f, k, n), k) == Count(f, k) + n
    ensures forall j :: j != k ==> Count(Bump(f, k, n), j) == Count(f, j)
    ensures Keys(Bump(f, k, n)) == Keys(f) + {k}
    ensures ValueSum(Bump(f, k, n)) == ValueSum(f) + n
    ensures DistinctKeys(f) ==> DistinctKeys(Bump(f, k, n))
  {
    BumpCounts(f, k, n);
    BumpSum(f, k, n);
    BumpKeys(f, k, n);
    if DistinctKeys(f) {
      BumpKeepsDistinct(f, k, n);
    }
  }

  /** Merging adds the counts key by key, takes the union of the keys,
      adds the totals, and keeps the keys distinct. */
  lemma {:induction false} MergeEffect(acc: Frequency, f: Frequency)
    ensures forall k :: Count(MergeFrequency(acc, f), k) == Count(acc, k) + Count(f, k)
    ensures Keys(MergeFrequency(acc, f)) == Keys(acc) + Keys(f)
    ensures ValueSum(MergeFrequency(acc, f)) == ValueSum(acc) + ValueSum(f)
    ensures DistinctKeys(acc) ==> DistinctKeys(MergeFrequency(acc, f))
    decreases |f|
  {
    if |f| > 0 {
      var acc1 := Bump(acc, f[0].0, f[0].1);
      BumpEffect(acc, f[0].0, f[0].1);
      MergeEffect(acc1, f[1..]);
      KeysCons(f);
    }
  }

  // ---------------------------------------------------------------------
  // Properties of the analysis

  /** One entry counts one message; a bluff, a win or a loss adds one to
      its counter, a message matching both "win" and "lost" is only a win,
      and its minute's count goes up by one. */
  lemma AnalyzeEntryEffect(st: Stats, e: Entry)
    ensures var st' := AnalyzeEntry(st, e);
            var message := Lower(e.message);
            && st'.total == st.total + 1
            && (st'.bluffs == st.bluffs + 1 <==> ContainsWord(message, "bluff"))
            && (st'.wins == st.wins + 1 <==> ContainsWord(message, "win"))
            && (st'.losses == st.losses + 1 <==> !ContainsWord(message, "win") && ContainsWord(message, "lost"))
            && st.bluffs <= st'.bluffs <= st.bluffs + 1
            && st'.wins + st'.losses <= st.wins + st.losses + 1
            && Count(st'.frequency, e.minute) == Count(st.frequency, e.minute) + 1
            && (forall k :: k != e.minute ==> Count(st'.frequency, k) == Count(st.frequency, k))
  {
    BumpEffect(st.frequency, e.minute, 1);
  }

  /** The analysis of a non-empty list is the analysis of all but the
      last entry, followed by the last entry. */
  lemma AnalyzeLast(entries: seq<Entry>)
    requires |entries| > 0
    ensures var st, e := Analyze(entries[..|entries| - 1]), entries[|entries| - 1];
            && Analyze(entries).frequency == Bump(st.frequency, e.minute, 1)
            && Analyze(entries).total == st.total + 1
            && st.bluffs <= Analyze(entries).bluffs <= st.bluffs + 1
            && Analyze(entries).wins + Analyze(entries).losses <= st.wins + st.losses + 1
  {
  }

  /** After analysing a list of entries: one message per entry, at most
      one bluff per message, and at most one win or loss per message. */
  lemma {:induction false} AnalyzeCounters(entries: seq<Entry>)
    ensures var st := Analyze(entries);
            && st.total == |entries|
            && st.bluffs <= st.total
            && st.wins + st.losses <= st.total
  {
    if |entries| > 0 {
      AnalyzeCounters(entries[..|entries| - 1]);
      AnalyzeLast(entries);
    }
  }

  /** The minute counts add up to the message count and each minute is
      a key once. */
  lemma {:induction false} AnalyzeFrequencyShape(entries: seq<Entry>)
    ensures ValueSum(Analyze(entries).frequency) == |entries|
    ensures DistinctKeys(Analyze(entries).frequency)
  {
    if |entries| > 0 {
      var prefix := entries[..|entries| - 1];
      var f0 := Analyze(prefix).frequency;
      var m := entries[|entries| - 1].minute;
      AnalyzeFrequencyShape(prefix);
      LastFrequency(entries);
      BumpSum(f0, m, 1);
      BumpKeepsDistinct(f0, m, 1);
    }
  }

  /** The dictionary's keys are exactly the minutes seen. */
  lemma {:induction false} AnalyzeFrequencyKeys(entries: seq<Entry>)
    ensures Keys(Analyze(entries).frequency) == set m | m in Minutes(entries)
  {
    if |entries| > 0 {
      var prefix := entries[..|entries| - 1];
      var f0 := Analyze(prefix).frequency;
      var m := entries[|entries| - 1].minute;
      AnalyzeFrequencyKeys(prefix);
      LastFrequency(entries);
      BumpKeys(f0, m, 1);
      LastMinute(entries);
    }
  }

  /** Each key's count is the number of entries in that minute. */
  lemma {:induction false} AnalyzeFrequencyCounts(entries: seq<Entry>)
    ensures forall k :: Count(Analyze(entries).frequency, k) == multiset(Minutes(entries))[k]
  {
    if |entries| > 0 {
      var prefix := entries[..|entries| - 1];
      var f0 := Analyze(prefix).frequency;
      var m := entries[|entries| - 1].minute;
      AnalyzeFrequencyCounts(prefix);
      LastFrequency(entries);
      BumpCounts(f0, m, 1);
      LastMinute(entries);
    }
  }

  /** The last entry bumps its minute in the dictionary of the others. */
  lemma LastFrequency(entries: seq<Entry>)
    requires |entries| > 0
    ensures Analyze(entries).frequency
         == Bump(Analyze(entries[..|entries| - 1]).frequency, entries[|entries| - 1].minute, 1)
  {
  }

  /** The last entry adds its minute to the others'. */
  lemma LastMinute(entries: seq<Entry>)
    requires |entries| > 0
    ensures var prefix, m := entries[..|entries| - 1], entries[|entries| - 1].minute;
            && (set x | x in Minutes(entries)) == (set x | x in Minutes(prefix)) + {m}
            && multiset(Minutes(entries)) == multiset(Minutes(prefix)) + multiset{m}
  {
    var prefix, m := entries[..|entries| - 1], entries[|entries| - 1].minute;
    assert Minutes(entries) == Minutes(prefix) + [m];
  }

  /** Two lists joined, split before the last entry of the second. */
  lemma ConcatLast(a: seq<Entry>, b: seq<Entry>)
    requires |b| > 0
    ensures (a + b)[..|a + b| - 1] == a + b[..|b| - 1]
    ensures (a + b)[|a + b| - 1] == b[|b| - 1]
  {
  }

  /** Analysing two lists one after the other adds every counter. */
  lemma {:induction false} AnalyzeConcatCounters(a: seq<Entry>, b: seq<Entry>)
    ensures var x, y, z := Analyze(a), Analyze(b), Analyze(a + b);
            && z.total == x.total + y.total && z.bluffs == x.bluffs + y.bluffs
            && z.wins == x.wins + y.wins && z.losses == x.losses + y.losses
    decreases |b|
  {
    if |b| == 0 {
      assert a + b == a;
    } else {
      AnalyzeConcatCounters(a, b[..|b| - 1]);
      ConcatLast(a, b);
    }
  }

  /** Analysing two lists one after the other adds every minute's
      count. */
  lemma {:induction false} AnalyzeConcatCounts(a: seq<Entry>, b: seq<Entry>)
    ensures forall k :: Count(Analyze(a + b).frequency, k) == Count(Analyze(a).frequency, k) + Count(Analyze(b).frequency, k)
    decreases |b|
  {
    if |b| == 0 {
      assert a + b == a;
    } else {
      var b' := b[..|b| - 1];
      var m := b[|b| - 1].minute;
      AnalyzeConcatCounts(a, b');
      ConcatLast(a, b);
      LastFrequency(a + b);
      LastFrequency(b);
      CountsStep(Analyze(a).frequency, Analyze(a + b').frequency, Analyze(b').frequency, m);
    }
  }

  /** A bump on both sides keeps one dictionary's counts the sums of two
      others'. */
  lemma CountsStep(fa: Frequency, fab: Frequency, fb: Frequency, m: string)
    requires forall k :: Count(fab, k) == Count(fa, k) + Count(fb, k)
    ensures forall k :: Count(Bump(fab, m, 1), k) == Count(fa, k) + Count(Bump(fb, m, 1), k)
  {
    BumpCounts(fab, m, 1);
    BumpCounts(fb, m, 1);
  }

  /** Analysing two lists one after the other takes the union of the
      minutes. */
  lemma {:induction false} AnalyzeConcatKeys(a: seq<Entry>, b: seq<Entry>)
    ensures Keys(Analyze(a + b).frequency) == Keys(Analyze(a).frequency) + Keys(Analyze(b).frequency)
    decreases |b|
  {
    if |b| == 0 {
      assert a + b == a;
    } else {
      var b' := b[..|b| - 1];
      var m := b[|b| - 1].minute;
      AnalyzeConcatKeys(a, b');
      ConcatLast(a, b);
      LastFrequency(a + b);
      LastFrequency(b);
      KeysStep(Analyze(a).frequency, Analyze(a + b').frequency, Analyze(b').frequency, m);
    }
  }

  /** A bump on both sides keeps one dictionary's keys the union of two
      others'. */
  lemma KeysStep(fa: Frequency, fab: Frequency, fb: Frequency, m: string)
    requires Keys(fab) == Keys(fa) + Keys(fb)
    ensures Keys(Bump(fab, m, 1)) == Keys(fa) + Keys(Bump(fb, m, 1))
  {
    BumpKeys(fab, m, 1);
    BumpKeys(fb, m, 1);
  }

  /** The directory totals are the sums of the per-file totals: the
      aggregated statistics are those of all the ".log" files' entries
      analysed together, counter by counter and minute by minute, and the
      merged dictionary keeps each minute once. */
  lemma {:induction false} AnalyzeLogsIsAnalysisOfAllEntries(files: seq<LogFile>)
    ensures var all, st := AnalyzeLogs(files), Analyze(LogEntries(files));
            && all.total == st.total && all.bluffs == st.bluffs
            && all.wins == st.wins && all.losses == st.losses
            && (forall k :: Count(all.frequency, k) == Count(st.frequency, k))
            && Keys(all.frequency) == Keys(st.frequency)
            && DistinctKeys(all.frequency)
  {
    if |files| > 0 {
      var prefix := files[..|files| - 1];
      var file := files[|files| - 1];
      AnalyzeLogsIsAnalysisOfAllEntries(prefix);
      if EndsWith(file.name, ".log") {
        AnalyzeConcatCounters(LogEntries(prefix), file.entries);
        AnalyzeConcatCounts(LogEntries(prefix), file.entries);
        AnalyzeConcatKeys(LogEntries(prefix), file.entries);
        assert LogEntries(files) == LogEntries(prefix) + file.entries;
        assert AnalyzeLogs(files) == Aggregate(AnalyzeLogs(prefix), Analyze(file.entries));
        AggregateMatches(AnalyzeLogs(prefix), Analyze(LogEntries(prefix)), Analyze(file.entries),
                         Analyze(LogEntries(files)));
      } else {
        assert LogEntries(files) == LogEntries(prefix);
        assert AnalyzeLogs(files) == AnalyzeLogs(prefix);
      }
    }
  }

  /** Aggregating a file's statistics into totals that match the earlier
      entries' analysis gives totals that match the analysis of those
      entries followed by the file's. */
  lemma AggregateMatches(all: Stats, st: Stats, y: Stats, z: Stats)
    requires all.total == st.total && all.bluffs == st.bluffs
    requires all.wins == st.wins && all.losses == st.losses
    requires forall k :: Count(all.frequency, k) == Count(st.frequency, k)
    requires Keys(all.frequency) == Keys(st.frequency) && DistinctKeys(all.frequency)
    requires z.total == st.total + y.total && z.bluffs == st.bluffs + y.bluffs
    requires z.wins == st.wins + y.wins && z.losses == st.losses + y.losses
    requires forall k :: Count(z.frequency, k) == Count(st.frequency, k) + Count(y.frequency, k)
    requires Keys(z.frequency) == Keys(st.frequency) + Keys(y.frequency)
    ensures var agg := Aggregate(all, y);
            && agg.total == z.total && agg.bluffs == z.bluffs
            && agg.wins == z.wins && agg.losses == z.losses
            && (forall k :: Count(agg.frequency, k) == Count(z.frequency, k))
            && Keys(agg.frequency) == Keys(z.frequency)
            && DistinctKeys(agg.frequency)
  {
    MergeEffect(all.frequency, y.frequency);
  }

  /** Files whose names do not end in ".log" are skipped. */
  lemma OtherFilesAreSkipped(files: seq<LogFile>, f: LogFile)
    requires !EndsWith(f.name, ".log")
    ensures AnalyzeLogs(files + [f]) == AnalyzeLogs(files)
  {
    assert (files + [f])[..|files|] == files;
  }
}
