/** The loop breaker of a chat turn (src/agents/loop_breaker.rs, configured in src/api/loop_breaker.rs).

    Arguments and results are known only by their hashes, as in the source; two calls are "the same"
    when the hashes agree.
 */
module LoopBreaker {
  import opened Text

  datatype Config = Config(
    maxToolCalls: nat,
    windowSize: nat,
    exactRepeatThreshold: nat,
    pingPongRounds: nat,
    noProgressThreshold: nat,
    relaxedTools: seq<string>,
    rapidRepeatWindowSecs: nat)

  /** One tool invocation; `at` is a monotonic instant in nanoseconds. */
  datatype Call = Call(tool: string, args: nat, result: nat, timeout: bool, at: nat)

  datatype Reason =
    | ExactRepeat(tool: string, count: nat, threshold: nat)
    | PingPong(toolA: string, toolB: string, rounds: nat)
    | NoProgress(tool: string, count: nat)
    | MaxCalls(count: nat, limit: nat)

  const NANOS := 1_000_000_000

  // ---- The window -------------------------------------------------------------------------------

  function Max(a: nat, b: nat): nat { if a < b then b else a }

  function Min(a: nat, b: nat): nat { if a < b then a else b }

  function Last<T>(s: seq<T>, n: nat): seq<T>
    requires n <= |s|
  {
    s[|s| - n..]
  }

  /** The calls the detectors look at after `history`. */
  function Window(config: Config, history: seq<Call>): seq<Call> {
    Last(history, Min(|history|, Max(1, config.windowSize)))
  }

  /** Drop the oldest call when the window is full, then record the new one. */
  function Recorded(config: Config, window: seq<Call>, call: Call): seq<Call> {
    (if |window| >= config.windowSize && window != [] then window[1..] else window) + [call]
  }

  /** The window is always the last calls, at most `windowSize` of them but at least one. */
  lemma RecordedWindow(config: Config, history: seq<Call>, call: Call)
    ensures Recorded(config, Window(config, history), call) == Window(config, history + [call])
  {
  }

  // ---- Exact repeats ------------------------------------------------------------------------------

  predicate SameCall(a: Call, b: Call) {
    a.tool == b.tool && a.args == b.args && a.result == b.result
  }

  /** The last `k` calls are the longest run of completed calls like the last one. */
  ghost predicate Streak(w: seq<Call>, k: nat) {
    && w != [] && 1 <= k <= |w|
    && (forall i | |w| - k <= i < |w| :: SameCall(w[i], w[|w| - 1]) && !w[i].timeout)
    && (k < |w| ==> !SameCall(w[|w| - k - 1], w[|w| - 1]) || w[|w| - k - 1].timeout)
  }

  function SpanSecs(from: nat, to: nat): nat {
    (if to < from then 0 else to - from) / NANOS
  }

  /** A streak long enough, all of it within the rapid window. */
  ghost predicate RepeatsRapidly(config: Config, w: seq<Call>, k: nat) {
    && Streak(w, k) && k >= config.exactRepeatThreshold
    && SpanSecs(w[|w| - k].at, w[|w| - 1].at) < config.rapidRepeatWindowSecs
  }

  method CheckExactRepeat(config: Config, w: seq<Call>) returns (r: Option<Reason>)
    ensures r.Some? <==> exists k :: RepeatsRapidly(config, w, k)
    ensures r.Some? ==> exists k :: RepeatsRapidly(config, w, k)
                                 && r.value == ExactRepeat(w[|w| - 1].tool, k, config.exactRepeatThreshold)
  {
    if w == [] {
      return None;
    }
    var first := w[|w| - 1];
    if first.timeout {
      assert forall k :: !Streak(w, k);
      return None;
    }
    var count, streakStart := 1, first.at;
    while count < |w|
      invariant 1 <= count <= |w|
      invariant forall i | |w| - count <= i < |w| :: SameCall(w[i], first) && !w[i].timeout
      invariant streakStart == w[|w| - count].at
    {
      var call := w[|w| - count - 1];
      if call.tool == first.tool && call.args == first.args {
        if call.timeout {
          break;
        }
        if call.result != first.result {
          break;
        }
        streakStart := call.at;
        count := count + 1;
      } else {
        break;
      }
    }
    assert Streak(w, count);
    assert forall k | Streak(w, k) :: k == count;
    if count >= config.exactRepeatThreshold {
      var span := if first.at < streakStart then 0 else first.at - streakStart;
      if span / NANOS >= config.rapidRepeatWindowSecs {
        return None;
      }
      assert RepeatsRapidly(config, w, count);
      return Some(ExactRepeat(first.tool, count, config.exactRepeatThreshold));
    }
    return None;
  }

  // ---- Ping-pong ----------------------------------------------------------------------------------

  /** The call `i` steps before the last. */
  function Back(w: seq<Call>, i: nat): Call
    requires i < |w|
  {
    w[|w| - 1 - i]
  }

  /** The last `2 * n` calls alternate two tools. */
  ghost predicate Alternates(w: seq<Call>, n: nat) {
    && 2 <= n && 2 * n <= |w|
    && Back(w, 0).tool != Back(w, 1).tool
    && forall i | 0 <= i < 2 * n :: Back(w, i).tool == Back(w, i % 2).tool
  }

  /** Some call of the last `2 * n` repeats the arguments of another of the same tool. */
  ghost predicate RepeatsArgs(w: seq<Call>, n: nat)
    requires 2 * n <= |w|
  {
    exists i, j | 0 <= i < j < n :: Back(w, 2 * i).args == Back(w, 2 * j).args
      || Back(w, 2 * i + 1).args == Back(w, 2 * j + 1).args
  }

  ghost predicate Distinct(s: seq<nat>) {
    forall i, j | 0 <= i < j < |s| :: s[i] != s[j]
  }

  function Values(s: seq<nat>): set<nat> {
    set x | x in s
  }

  lemma ValuesOfLonger(s: seq<nat>, x: nat)
    ensures Values(s + [x]) == Values(s) + {x}
    ensures Distinct(s + [x]) <==> Distinct(s) && x !in s
  {
    assert forall i | 0 <= i < |s| :: (s + [x])[i] == s[i];
    assert (s + [x])[|s|] == x;
  }

  /** A hash set of the arguments is as large as their list exactly when they are all different. */
  lemma {:induction false} DistinctCounts(s: seq<nat>)
    ensures |Values(s)| <= |s|
    ensures |Values(s)| == |s| <==> Distinct(s)
  {
    hide Distinct, Values;
    if s == [] {
      NoValues();
    } else {
      var n := |s| - 1;
      assert s == s[..n] + [s[n]];
      DistinctCounts(s[..n]);
      ValuesOfLonger(s[..n], s[n]);
      ValuesHold(s[..n], s[n]);
      assert s[n] in s[..n] ==> Values(s[..n]) + {s[n]} == Values(s[..n]);
    }
  }

  lemma NoValues()
    ensures Values([]) == {} && Distinct([])
  {
  }

  lemma ValuesHold(s: seq<nat>, x: nat)
    ensures x in Values(s) <==> x in s
  {
  }

  lemma ArgsRepeat(w: seq<Call>, n: nat, a: seq<nat>, b: seq<nat>)
    requires 2 * n <= |w| && |a| == |b| == n
    requires forall k | 0 <= k < n :: a[k] == Back(w, 2 * k).args && b[k] == Back(w, 2 * k + 1).args
    ensures RepeatsArgs(w, n) <==> !(Distinct(a) && Distinct(b))
  {
    if !Distinct(a) {
      var i, j :| 0 <= i < j < n && a[i] == a[j];
      assert Back(w, 2 * i).args == Back(w, 2 * j).args;
    }
    if !Distinct(b) {
      var i, j :| 0 <= i < j < n && b[i] == b[j];
      assert Back(w, 2 * i + 1).args == Back(w, 2 * j + 1).args;
    }
    if RepeatsArgs(w, n) {
      var i, j :| 0 <= i < j < n
        && (Back(w, 2 * i).args == Back(w, 2 * j).args || Back(w, 2 * i + 1).args == Back(w, 2 * j + 1).args);
      assert a[i] == a[j] || b[i] == b[j];
    }
  }

  method CheckPingPong(config: Config, w: seq<Call>) returns (r: Option<Reason>)
    ensures var n := config.pingPongRounds;
            r == if Alternates(w, n) && RepeatsArgs(w, n)
                 then Some(PingPong(Back(w, 0).tool, Back(w, 1).tool, n)) else None
  {
    if |w| < 4 {
      return None;
    }
    var n := config.pingPongRounds;
    if n < 2 {
      return None;
    }
    if |w| < 2 * n {
      return None;
    }
    var toolA, toolB := Back(w, 0).tool, Back(w, 1).tool;
    if toolA == toolB {
      return None;
    }
    var i := 0;
    while i < 2 * n
      invariant 0 <= i <= 2 * n
      invariant forall j | 0 <= j < i :: Back(w, j).tool == Back(w, j % 2).tool
    {
      if Back(w, i).tool != (if i % 2 == 0 then toolA else toolB) {
        assert !Alternates(w, n);
        return None;
      }
      i := i + 1;
    }
    var argsA := seq(n, k requires 0 <= k < n => Back(w, 2 * k).args);
    var argsB := seq(n, k requires 0 <= k < n => Back(w, 2 * k + 1).args);
    DistinctCounts(argsA);
    DistinctCounts(argsB);
    ArgsRepeat(w, n, argsA, argsB);
    if |Values(argsA)| == |argsA| && |Values(argsB)| == |argsB| {
      return None;
    }
    return Some(PingPong(toolA, toolB, n));
  }

  // ---- No progress ----------------------------------------------------------------------------------

  /** The last `k` calls are the longest run of one tool returning one result. */
  ghost predicate SameResults(w: seq<Call>, k: nat) {
    && w != [] && 1 <= k <= |w|
    && (forall i | 0 <= i < k :: Back(w, i).tool == Back(w, 0).tool && Back(w, i).result == Back(w, 0).result)
    && (k < |w| ==> Back(w, k).tool != Back(w, 0).tool || Back(w, k).result != Back(w, 0).result)
  }

  /** How many of the last `k` calls have other arguments than the last one. */
  function OtherArgs(w: seq<Call>, k: nat): nat
    requires 1 <= k <= |w|
  {
    if k == 1 then 0 else OtherArgs(w, k - 1) + if Back(w, k - 1).args == Back(w, 0).args then 0 else 1
  }

  function NoProgressLimit(config: Config, tool: string): nat {
    if tool in config.relaxedTools then Max(2 * config.noProgressThreshold, 8) else config.noProgressThreshold
  }

  ghost predicate Stalls(config: Config, w: seq<Call>, k: nat) {
    SameResults(w, k) && 1 + OtherArgs(w, k) >= NoProgressLimit(config, Back(w, 0).tool)
  }

  /** How many stalled calls are too many: the threshold, and for a relaxed tool twice that and at least
      eight. */
  lemma StallsIff(config: Config, w: seq<Call>, k: nat)
    ensures Stalls(config, w, k)
            <==>
            && SameResults(w, k) && OtherArgs(w, k) + 1 >= config.noProgressThreshold
            && (Back(w, 0).tool in config.relaxedTools ==>
                  OtherArgs(w, k) + 1 >= 8 && OtherArgs(w, k) + 1 >= 2 * config.noProgressThreshold)
  {
  }

  method CheckNoProgress(config: Config, w: seq<Call>) returns (r: Option<Reason>)
    ensures r.Some? <==> exists k :: Stalls(config, w, k)
    ensures r.Some? ==> exists k :: Stalls(config, w, k) && r.value == NoProgress(Back(w, 0).tool, 1 + OtherArgs(w, k))
  {
    if w == [] {
      return None;
    }
    var target := Back(w, 0);
    var count, i := 1, 1;
    while i < |w|
      invariant 1 <= i <= |w|
      invariant forall j | 0 <= j < i :: Back(w, j).tool == target.tool && Back(w, j).result == target.result
      invariant count == 1 + OtherArgs(w, i)
    {
      var call := Back(w, i);
      if call.tool != target.tool || call.result != target.result {
        break;
      }
      if call.args != target.args {
        count := count + 1;
      }
      i := i + 1;
    }
    assert SameResults(w, i);
    forall k | SameResults(w, k) {
    }
    if count >= NoProgressLimit(config, target.tool) {
      assert Stalls(config, w, i);
      return Some(NoProgress(target.tool, count));
    }
    return None;
  }

  // ---- The counter ----------------------------------------------------------------------------------

  /** What one call's check says, given every call since the last reset. */
  ghost predicate Verdict(config: Config, history: seq<Call>, r: Option<Reason>)
    requires history != []
  {
    var w := Window(config, history);
    var capped := 0 < config.maxToolCalls < |history|;
    var repeats := exists k :: RepeatsRapidly(config, w, k);
    var pingPong := Alternates(w, config.pingPongRounds) && RepeatsArgs(w, config.pingPongRounds);
    var stalls := exists k :: Stalls(config, w, k);
    match r
    case None => !capped && !repeats && !pingPong && !stalls
    case Some(MaxCalls(count, limit)) => capped && count == |history| && limit == config.maxToolCalls
    case Some(ExactRepeat(tool, count, threshold)) =>
      !capped && RepeatsRapidly(config, w, count) && tool == Back(w, 0).tool && threshold == config.exactRepeatThreshold
    case Some(PingPong(toolA, toolB, rounds)) =>
      !capped && !repeats && pingPong
      && toolA == Back(w, 0).tool && toolB == Back(w, 1).tool && rounds == config.pingPongRounds
    case Some(NoProgress(tool, count)) =>
      !capped && !repeats && !pingPong && tool == Back(w, 0).tool
      && exists k :: Stalls(config, w, k) && count == 1 + OtherArgs(w, k)
  }

  class Counter {
    const config: Config
    var totalCalls: nat
    var window: seq<Call>
    /** Every call since the last reset. */
    ghost var history: seq<Call>

    ghost predicate Valid()
      reads this
    {
      totalCalls == |history| && window == Window(config, history)
    }

    constructor (config: Config)
      ensures Valid() && this.config == config && history == []
    {
      this.config, totalCalls, window, history := config, 0, [], [];
    }

    method Record(call: Call)
      requires Valid()
      modifies this
      ensures Valid() && history == old(history) + [call]
    {
      hide Window;
      totalCalls := totalCalls + 1;
      RecordedWindow(config, history, call);
      history := history + [call];
      if |window| >= config.windowSize && window != [] {
        window := window[1..];
      }
      window := window + [call];
    }

    method RecordAndCheck(call: Call) returns (r: Option<Reason>)
      requires Valid()
      modifies this
      ensures Valid() && history == old(history) + [call]
      ensures Verdict(config, history, r)
    {
      Record(call);
      hide Window, Streak, Alternates, RepeatsArgs, Stalls, RepeatsRapidly;
      if config.maxToolCalls > 0 && totalCalls > config.maxToolCalls {
        return Some(MaxCalls(totalCalls, config.maxToolCalls));
      }
      r := CheckExactRepeat(config, window);
      if r.Some? {
        return;
      }
      r := CheckPingPong(config, window);
      if r.Some? {
        return;
      }
      r := CheckNoProgress(config, window);
    }

    method Reset()
      requires Valid()
      modifies this
      ensures Valid() && history == []
    {
      totalCalls, window, history := 0, [], [];
    }
  }

  // ---- What the verdicts mean for whole histories -----------------------------------------------------

  /** A verdict is determined by the history. */
  lemma VerdictUnique(config: Config, history: seq<Call>, r: Option<Reason>, s: Option<Reason>)
    requires history != [] && Verdict(config, history, r) && Verdict(config, history, s)
    ensures r == s
  {
    var w := Window(config, history);
    assert forall j, k | RepeatsRapidly(config, w, j) && RepeatsRapidly(config, w, k) :: j == k;
    assert forall j, k | Stalls(config, w, j) && Stalls(config, w, k) :: j == k;
    hide Window, Streak, Alternates, RepeatsArgs, Stalls, RepeatsRapidly;
  }

  /** With a positive cap every call past it is refused, whatever came before. */
  lemma CapIsHard(config: Config, history: seq<Call>, r: Option<Reason>)
    requires 0 < config.maxToolCalls < |history| && Verdict(config, history, r)
    ensures r == Some(MaxCalls(|history|, config.maxToolCalls))
  {
  }

  /** Detectors that need more calls than the window keeps never fire. */
  lemma SmallWindowSilences(config: Config, history: seq<Call>, r: Option<Reason>)
    requires history != [] && Verdict(config, history, r)
    ensures Max(1, config.windowSize) < config.exactRepeatThreshold ==> !(r.Some? && r.value.ExactRepeat?)
    ensures Max(1, config.windowSize) < 2 * config.pingPongRounds ==> !(r.Some? && r.value.PingPong?)
    ensures Max(1, config.windowSize) < config.noProgressThreshold ==> !(r.Some? && r.value.NoProgress?)
  {
    var w := Window(config, history);
    if r.Some? && r.value.NoProgress? {
      var k :| Stalls(config, w, k);
      OtherArgsBound(w, k);
    }
  }

  lemma {:induction false} OtherArgsBound(w: seq<Call>, k: nat)
    requires 1 <= k <= |w|
    ensures OtherArgs(w, k) < k
  {
    if k > 1 {
      OtherArgsBound(w, k - 1);
    }
  }
}
