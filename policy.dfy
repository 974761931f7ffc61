/**
 * The depth middleware's rules as functions of its settings: which depth is
 * admitted, how much priority a depth costs, what an accepted request does to
 * the stats table, and what filtering a run of candidates yields. The class
 * in module Depth is specified by these functions.
 */
module DepthPolicy {
  import opened Wrappers
  import opened Stats
  import opened Http
  import Decimal

  /** The middleware's settings: `maxdepth` (0 means no limit), `verbose_stats`, `prio`. */
  datatype Config = Config(maxdepth: int, verboseStats: bool, prio: int)

  const MaxKey: string := "request_depth_max"
  const CountPrefix: string := "request_depth_count/"

  /** `f"request_depth_count/{depth}"`. */
  function CountKey(depth: int): (key: string) {
    CountPrefix + Decimal.IntToString(depth)
  }

  /** A request at `depth` is kept unless a limit is set and `depth` is beyond it. */
  predicate Admits(cfg: Config, depth: int) {
    !(cfg.maxdepth != 0 && depth > cfg.maxdepth)
  }

  /** What a request at `depth` loses from its priority. */
  function Penalty(cfg: Config, depth: int): (p: int) {
    if cfg.prio != 0 then depth * cfg.prio else 0
  }

  /** The stats table after a request at `depth` is accepted. */
  function Record(cfg: Config, s: StatsTable, depth: int): (t: StatsTable) {
    AfterMax(if cfg.verboseStats then AfterInc(s, CountKey(depth)) else s, MaxKey, depth)
  }

  /** The stats table after depth initialisation of a response whose depth was `depth`. */
  function InitStats(cfg: Config, s: StatsTable, depth: Option<int>): (t: StatsTable) {
    if depth.None? && cfg.verboseStats then AfterInc(s, CountKey(0)) else s
  }

  /** The depth a response has after initialisation. */
  function InitialisedDepth(depth: Option<int>): (d: int) {
    if depth.Some? then depth.value else 0
  }

  function Init<T>(xs: seq<T>): (prefix: seq<T>)
    requires |xs| > 0
  {
    xs[..|xs| - 1]
  }

  function Last<T>(xs: seq<T>): (x: T)
    requires |xs| > 0
  {
    xs[|xs| - 1]
  }

  /** Whether the filter keeps `c` when the batch's requests are admitted iff `admit`. */
  predicate Keeps(admit: bool, c: Candidate) {
    c.Item? || admit
  }

  /**
   * The candidates the filter keeps, in order. Every request of one response
   * gets the same depth, so one flag decides all of them.
   */
  function Survivors(admit: bool, xs: seq<Candidate>): (kept: seq<Candidate>) {
    if xs == [] then []
    else Survivors(admit, Init(xs)) + (if Keeps(admit, Last(xs)) then [Last(xs)] else [])
  }

  /** The positions in `xs` of the candidates `Survivors` keeps. */
  function KeptIndices(admit: bool, xs: seq<Candidate>): (idx: seq<nat>) {
    if xs == [] then []
    else KeptIndices(admit, Init(xs)) + (if Keeps(admit, Last(xs)) then [|xs| - 1] else [])
  }

  /** The non-request items of `xs`, in order. */
  function NonRequests(xs: seq<Candidate>): (items: seq<Candidate>) {
    if xs == [] then []
    else NonRequests(Init(xs)) + (if Last(xs).Item? then [Last(xs)] else [])
  }

  /** The number of requests in `xs`. */
  function NumRequests(xs: seq<Candidate>): (n: nat) {
    if xs == [] then 0 else NumRequests(Init(xs)) + (if Last(xs).Req? then 1 else 0)
  }

  /** How many times `r` occurs in `xs`. */
  function Occurrences(xs: seq<Candidate>, r: Request): (n: nat) {
    if xs == [] then 0 else Occurrences(Init(xs), r) + (if Last(xs) == Req(r) then 1 else 0)
  }

  /** The stats table after filtering one candidate at child depth `depth`. */
  function StepStats(cfg: Config, s: StatsTable, depth: int, c: Candidate): (t: StatsTable) {
    if c.Req? && Admits(cfg, depth) then Record(cfg, s, depth) else s
  }

  /** The stats table after filtering every candidate of `xs`, in order. */
  function FilterStats(cfg: Config, s: StatsTable, depth: int, xs: seq<Candidate>): (t: StatsTable) {
    if xs == [] then s else StepStats(cfg, FilterStats(cfg, s, depth, Init(xs)), depth, Last(xs))
  }

  /** `a` is `b` with some elements left out, the others in order, at positions `idx`. */
  ghost predicate Embeds<T>(a: seq<T>, b: seq<T>, idx: seq<nat>) {
    && |idx| == |a|
    && (forall k :: 0 <= k < |idx| ==> idx[k] < |b| && a[k] == b[idx[k]])
    && (forall i, j :: 0 <= i < j < |idx| ==> idx[i] < idx[j])
  }

  lemma MulAdd(a: int, b: int, p: int)
    ensures (a + b) * p == a * p + b * p
  {
  }

  lemma SliceConcat<T>(s: seq<T>, i: nat, j: nat, k: nat)
    requires i <= j <= k <= |s|
    ensures s[i..k] == s[i..j] + s[j..k]
  {
  }

  lemma InitOfConcat<T>(xs: seq<T>, ys: seq<T>)
    requires ys != []
    ensures Init(xs + ys) == xs + Init(ys) && Last(xs + ys) == Last(ys)
  {
  }

  // ---------------------------------------------------------------------
  // Filtering a stream: order, pass-through of items, the depth limit
  // ---------------------------------------------------------------------

  /** Filtering a concatenation is filtering each part: output up to a point depends only on input up to it. */
  lemma {:induction false} SurvivorsSplit(admit: bool, xs: seq<Candidate>, ys: seq<Candidate>)
    ensures Survivors(admit, xs + ys) == Survivors(admit, xs) + Survivors(admit, ys)
  {
    if ys == [] {
      assert xs + ys == xs;
    } else {
      InitOfConcat(xs, ys);
      SurvivorsSplit(admit, xs, Init(ys));
    }
  }

  /** The output for the first `k` candidates is a prefix of the whole output. */
  lemma SurvivorsPrefix(admit: bool, xs: seq<Candidate>, k: nat)
    requires k <= |xs|
    ensures Survivors(admit, xs[..k]) <= Survivors(admit, xs)
  {
    assert xs == xs[..k] + xs[k..];
    SurvivorsSplit(admit, xs[..k], xs[k..]);
  }

  /** The survivors are an order-preserving subsequence of the input. */
  lemma {:induction false} SurvivorsEmbed(admit: bool, xs: seq<Candidate>)
    ensures Embeds(Survivors(admit, xs), xs, KeptIndices(admit, xs))
  {
    if xs != [] {
      SurvivorsEmbed(admit, Init(xs));
    }
  }

  /** A candidate survives exactly when it is in the input and is an item or an admitted request. */
  lemma {:induction false} SurvivorsMembership(admit: bool, xs: seq<Candidate>, c: Candidate)
    ensures c in Survivors(admit, xs) <==> c in xs && Keeps(admit, c)
  {
    if xs != [] {
      SurvivorsMembership(admit, Init(xs), c);
      assert xs == Init(xs) + [Last(xs)];
    }
  }

  /** With the requests admitted nothing is dropped; otherwise exactly the items remain. */
  lemma {:induction false} SurvivorsExactly(admit: bool, xs: seq<Candidate>)
    ensures Survivors(admit, xs) == if admit then xs else NonRequests(xs)
  {
    if xs != [] {
      SurvivorsExactly(admit, Init(xs));
      assert xs == Init(xs) + [Last(xs)];
    }
  }

  /** Every non-request item of the input survives, in its order. */
  lemma {:induction false} SurvivorsKeepItems(admit: bool, xs: seq<Candidate>)
    ensures NonRequests(Survivors(admit, xs)) == NonRequests(xs)
  {
    if xs != [] {
      var pre, last := Survivors(admit, Init(xs)), Last(xs);
      SurvivorsKeepItems(admit, Init(xs));
      assert NonRequests(xs) == NonRequests(Init(xs)) + (if last.Item? then [last] else []);
      if Keeps(admit, last) {
        var post := pre + [last];
        assert Survivors(admit, xs) == post;
        assert Init(post) == pre && Last(post) == last;
      } else {
        assert Survivors(admit, xs) == pre + [];
        assert pre + [] == pre;
      }
    }
  }

  /** With a positive limit, every surviving request is within it. */
  lemma SurvivorsWithinLimit(cfg: Config, depth: int, xs: seq<Candidate>)
    ensures forall c :: c in Survivors(Admits(cfg, depth), xs) && c.Req? ==>
      cfg.maxdepth <= 0 || depth <= cfg.maxdepth
  {
    forall c | c in Survivors(Admits(cfg, depth), xs) && c.Req?
      ensures cfg.maxdepth <= 0 || depth <= cfg.maxdepth
    {
      SurvivorsMembership(Admits(cfg, depth), xs, c);
    }
  }

  // ---------------------------------------------------------------------
  // Counting over a stream
  // ---------------------------------------------------------------------

  lemma {:induction false} OccurrencesSplit(xs: seq<Candidate>, ys: seq<Candidate>, r: Request)
    ensures Occurrences(xs + ys, r) == Occurrences(xs, r) + Occurrences(ys, r)
  {
    if ys == [] {
      assert xs + ys == xs;
    } else {
      InitOfConcat(xs, ys);
      OccurrencesSplit(xs, Init(ys), r);
    }
  }

  /** A request occurs in `xs` exactly when it occurs a positive number of times. */
  lemma {:induction false} OccurrencesPositive(xs: seq<Candidate>, r: Request)
    ensures Occurrences(xs, r) > 0 <==> Req(r) in xs
  {
    if xs != [] {
      OccurrencesPositive(Init(xs), r);
      assert xs == Init(xs) + [Last(xs)];
    }
  }

  lemma {:induction false} FilterStatsSplit(cfg: Config, s: StatsTable, depth: int, xs: seq<Candidate>, ys: seq<Candidate>)
    ensures FilterStats(cfg, s, depth, xs + ys) == FilterStats(cfg, FilterStats(cfg, s, depth, xs), depth, ys)
  {
    if ys == [] {
      assert xs + ys == xs;
    } else {
      InitOfConcat(xs, ys);
      FilterStatsSplit(cfg, s, depth, xs, Init(ys));
    }
  }

  /**
   * Filtering a run of one candidate `c`.
   * A one-step unfolding of `Survivors` and `FilterStats`, kept as a lemma so
   * that `FilteredResult.Step` need not unfold them in its heap-heavy context.
   */
  lemma SingleSummaries(cfg: Config, s: StatsTable, depth: int, c: Candidate)
    ensures var admit := Admits(cfg, depth);
      Survivors(admit, [c]) == if Keeps(admit, c) then [c] else []
    ensures FilterStats(cfg, s, depth, [c]) == StepStats(cfg, s, depth, c)
  {
    assert Init([c]) == [] && Last([c]) == c;
  }

  /**
   * What filtering a run of one candidate `c` adds to request `r`'s penalty and membership.
   * A one-step unfolding of `Occurrences`, kept as a lemma for the same reason.
   */
  lemma SingleRequest(cfg: Config, depth: int, c: Candidate, r: Request)
    ensures Occurrences([c], r) * Penalty(cfg, depth) == if c.Req? && c.request == r then Penalty(cfg, depth) else 0
    ensures Occurrences([c], r) > 0 <==> c.Req? && c.request == r
  {
    assert Init([c]) == [] && Last([c]) == c;
  }

  /**
   * What filtering a further run `ys` adds to the output and the stats of a consumed prefix `xs`.
   * `SurvivorsSplit` and `FilterStatsSplit` together, so that `FilteredResult.Next`
   * and `Drain` compose two runs with one call.
   */
  lemma ConcatSummaries(cfg: Config, s: StatsTable, depth: int, xs: seq<Candidate>, ys: seq<Candidate>)
    ensures var admit := Admits(cfg, depth);
      Survivors(admit, xs + ys) == Survivors(admit, xs) + Survivors(admit, ys)
    ensures FilterStats(cfg, s, depth, xs + ys) == FilterStats(cfg, FilterStats(cfg, s, depth, xs), depth, ys)
  {
    SurvivorsSplit(Admits(cfg, depth), xs, ys);
    FilterStatsSplit(cfg, s, depth, xs, ys);
  }

  /**
   * What filtering a further run `ys` adds to request `r`'s penalty and membership.
   * `OccurrencesSplit` with the penalty multiplied out (`MulAdd`), so that the
   * callers keep nonlinear arithmetic out of their own proofs.
   */
  lemma ConcatRequest(cfg: Config, depth: int, xs: seq<Candidate>, ys: seq<Candidate>, r: Request)
    ensures Occurrences(xs + ys, r) * Penalty(cfg, depth)
         == Occurrences(xs, r) * Penalty(cfg, depth) + Occurrences(ys, r) * Penalty(cfg, depth)
    ensures Occurrences(xs + ys, r) == Occurrences(xs, r) + Occurrences(ys, r)
  {
    OccurrencesSplit(xs, ys, r);
    MulAdd(Occurrences(xs, r), Occurrences(ys, r), Penalty(cfg, depth));
  }

  // ---------------------------------------------------------------------
  // Stats keys and what one accepted request records
  // ---------------------------------------------------------------------

  /** The key the depth initialisation increments is the per-depth key of depth 0. */
  lemma CountKeyZero()
    ensures CountKey(0) == "request_depth_count/0"
  {
    assert Decimal.IntToString(0) == "0";
  }

  lemma CountKeyNotMaxKey(depth: int)
    ensures CountKey(depth) != MaxKey
  {
    assert CountKey(depth)[14] != MaxKey[14];
  }

  /** Different depths are counted under different keys. */
  lemma CountKeyInjective(d: int, e: int)
    requires CountKey(d) == CountKey(e)
    ensures d == e
  {
    assert Decimal.IntToString(d) == CountKey(d)[|CountPrefix|..] == Decimal.IntToString(e);
    Decimal.IntToStringInjective(d, e);
  }

  /**
   * Accepting a request at `depth` raises `request_depth_max` to at least
   * `depth`, counts one more request at `depth` when verbose, and leaves
   * every other counter as it was.
   */
  lemma RecordEffect(cfg: Config, s: StatsTable, depth: int)
    ensures var t := Record(cfg, s, depth);
      && Get(t, MaxKey) == Some(if MaxKey in s && s[MaxKey] > depth then s[MaxKey] else depth)
      && Get(t, CountKey(depth)) ==
           (if cfg.verboseStats then Some(GetOr(s, CountKey(depth), 0) + 1) else Get(s, CountKey(depth)))
      && forall k :: k != MaxKey && k != CountKey(depth) ==> Get(t, k) == Get(s, k)
  {
    CountKeyNotMaxKey(depth);
  }

  /** Accepting a request at one depth leaves the count of every other depth alone. */
  lemma RecordOtherDepth(cfg: Config, s: StatsTable, depth: int, other: int)
    requires other != depth
    ensures Get(Record(cfg, s, depth), CountKey(other)) == Get(s, CountKey(other))
  {
    CountKeyNotMaxKey(other);
    if CountKey(other) == CountKey(depth) {
      CountKeyInjective(other, depth);
    }
  }

  /** Initialising a response's depth counts depth 0 once, only when it had no depth and stats are verbose. */
  lemma InitStatsEffect(cfg: Config, s: StatsTable, depth: Option<int>)
    ensures var t := InitStats(cfg, s, depth);
      && Get(t, CountKey(0)) ==
           (if depth.None? && cfg.verboseStats then Some(GetOr(s, CountKey(0), 0) + 1) else Get(s, CountKey(0)))
      && forall k :: k != CountKey(0) ==> Get(t, k) == Get(s, k)
  {
  }

  /** The requests `FilterStats` records: all of them when admitted, none otherwise. */
  function Accepted(cfg: Config, depth: int, xs: seq<Candidate>): (n: nat) {
    if Admits(cfg, depth) then NumRequests(xs) else 0
  }

  /**
   * Filtering a batch at child depth `depth` that accepts `n` requests: with
   * none accepted the table is unchanged; otherwise `request_depth_max` is
   * the larger of its old value and `depth`, the count at `depth` grows by
   * `n` when verbose, and every other counter is as it was.
   */
  lemma {:induction false} FilterStatsEffect(cfg: Config, s: StatsTable, depth: int, xs: seq<Candidate>)
    ensures var t := FilterStats(cfg, s, depth, xs);
      var n := Accepted(cfg, depth, xs);
      && (n == 0 ==> t == s)
      && (n > 0 ==> Get(t, MaxKey) == Some(if MaxKey in s && s[MaxKey] > depth then s[MaxKey] else depth))
      && Get(t, CountKey(depth)) ==
           (if cfg.verboseStats && n > 0 then Some(GetOr(s, CountKey(depth), 0) + n) else Get(s, CountKey(depth)))
      && forall k :: k != MaxKey && k != CountKey(depth) ==> Get(t, k) == Get(s, k)
  {
    if xs != [] {
      var pre := FilterStats(cfg, s, depth, Init(xs));
      FilterStatsEffect(cfg, s, depth, Init(xs));
      if Last(xs).Req? && Admits(cfg, depth) {
        RecordEffect(cfg, pre, depth);
      }
    }
  }

  /** With a positive `prio`, a deeper request never loses less priority; with a negative one, never more. */
  lemma PenaltyMonotone(cfg: Config, d: int, e: int)
    requires d <= e
    ensures cfg.prio > 0 ==> Penalty(cfg, d) <= Penalty(cfg, e)
    ensures cfg.prio < 0 ==> Penalty(cfg, d) >= Penalty(cfg, e)
  {
    if cfg.prio != 0 {
      assert Penalty(cfg, e) - Penalty(cfg, d) == (e - d) * cfg.prio;
    }
  }
}
