/** `get_log_summary`: entry count, per-level counts and whether any entry
    carries a timestamp.

    Every entry the parser builds has a `level` key, so
    `entry.get('level', 'UNKNOWN')` returns the stored value, which is None
    for an entry without a level: unleveled entries are counted under the
    None key and the 'UNKNOWN' default is never used for them. The keys are
    therefore modelled as `Option<string>`. */
module Summary {
  import opened Optional
  import opened Classifier

  type LevelKey = Option<string>

  datatype LogSummary = LogSummary(totalLines: nat, levels: map<LevelKey, nat>, hasTimestamps: bool)

  /** The level keys of the entries, in order. */
  function LevelsOf(es: seq<LogEntry>): (ks: seq<LevelKey>)
    ensures |ks| == |es| && forall i :: 0 <= i < |es| ==> ks[i] == es[i].level
  {
    seq(|es|, i requires 0 <= i < |es| => es[i].level)
  }

  /** `levels[level] = levels.get(level, 0) + 1`. */
  function Bump(m: map<LevelKey, nat>, k: LevelKey): map<LevelKey, nat> {
    m[k := if k in m then m[k] + 1 else 1]
  }

  /** The counting loop over the entries: each key counts exactly the
      entries whose level it is, and only levels that occur are keys. */
  function Tally(es: seq<LogEntry>): (m: map<LevelKey, nat>)
    ensures forall k :: k in m <==> k in multiset(LevelsOf(es))
    ensures forall k :: k in m ==> m[k] == multiset(LevelsOf(es))[k]
    decreases |es|
  {
    if |es| == 0 then map[]
    else
      var n := |es|;
      assert LevelsOf(es) == LevelsOf(es[..n - 1]) + [es[n - 1].level];
      Bump(Tally(es[..n - 1]), es[n - 1].level)
  }

  /** Truthiness of `entry.get('timestamp')`: present and non-empty. */
  predicate HasTimestamp(e: LogEntry) {
    e.timestamp.Some? && e.timestamp.value != []
  }

  /** `any(entry.get('timestamp') for entry in log_entries)`. */
  function AnyTimestamp(es: seq<LogEntry>): (b: bool)
    ensures b <==> exists i :: 0 <= i < |es| && HasTimestamp(es[i])
    decreases |es|
  {
    if |es| == 0 then false
    else
      assert forall i :: 1 <= i < |es| ==> es[1..][i - 1] == es[i];
      HasTimestamp(es[0]) || AnyTimestamp(es[1..])
  }

  function GetLogSummary(es: seq<LogEntry>): (s: LogSummary)
    ensures s.totalLines == |es|
    ensures forall k :: k in s.levels <==> exists i :: 0 <= i < |es| && es[i].level == k
    ensures forall k :: k in s.levels ==> s.levels[k] == multiset(LevelsOf(es))[k]
    ensures s.hasTimestamps <==> exists i :: 0 <= i < |es| && HasTimestamp(es[i])
    ensures es == [] ==> s == LogSummary(0, map[], false)
  {
    var ks := LevelsOf(es);
    assert forall k :: k in multiset(ks) <==> k in ks;
    LogSummary(|es|, Tally(es), AnyTimestamp(es))
  }

  /** Sum of the counts of a map. */
  ghost function MapSum(m: map<LevelKey, nat>): nat
    decreases |m|
  {
    if m == map[] then 0
    else
      var k :| k in m;
      m[k] + MapSum(m - {k})
  }

  /** The sum does not depend on which key is taken out first. */
  lemma {:induction false} MapSumRemove(m: map<LevelKey, nat>, k: LevelKey)
    requires k in m
    ensures MapSum(m) == m[k] + MapSum(m - {k})
    decreases |m|
  {
    var j :| j in m && MapSum(m) == m[j] + MapSum(m - {j});
    if j != k {
      MapSumRemove(m - {j}, k);
      MapSumRemove(m - {k}, j);
      assert m - {j} - {k} == m - {k} - {j};
    }
  }

  /** Counting one more entry under a key raises the sum by one. */
  lemma MapSumBump(m: map<LevelKey, nat>, k: LevelKey)
    ensures MapSum(Bump(m, k)) == MapSum(m) + 1
  {
    var b := Bump(m, k);
    MapSumRemove(b, k);
    if k in m {
      MapSumRemove(m, k);
      assert b - {k} == m - {k};
    } else {
      assert b - {k} == m;
    }
  }

  /** The per-level counts add up to the number of entries. */
  lemma {:induction false} CountsSumToTotal(es: seq<LogEntry>)
    ensures MapSum(GetLogSummary(es).levels) == GetLogSummary(es).totalLines
    decreases |es|
  {
    if |es| > 0 {
      var n := |es|;
      CountsSumToTotal(es[..n - 1]);
      MapSumBump(Tally(es[..n - 1]), es[n - 1].level);
    } else {
      assert Tally(es) == map[];
    }
  }
}
