/**
 * The depth-limiting spider middleware: it stamps depth 0 on an origin
 * response, gives every request a callback yields the depth of its response
 * plus one, lowers its priority by `depth * prio`, drops it when `maxdepth`
 * is set and exceeded, and records the depth distribution in the stats.
 */
module Depth {
  import opened Wrappers
  import opened Stats
  import opened Http
  import opened DepthPolicy

  /** What a stage is handed: a response, or any other pipeline packet. */
  datatype Packet = ResponsePacket(response: Response) | OtherPacket(id: nat)

  /** Errors raised inside `handle`: the output-contract violation, or any other error. */
  datatype Fault = InvalidOutput | RuntimeError(id: nat)

  /** How a call to `handle` ends: by returning a value (`None` for Python's `None`) or by raising. */
  datatype Outcome<V> = Returned(value: Option<V>) | Raised(fault: Fault)

  class DepthMiddleware {
    const maxdepth: int
    const stats: StatsCollector
    const verboseStats: bool
    const prio: int

    /** The settings as one value, for the policy functions. */
    function Policy(): Config {
      Config(maxdepth, verboseStats, prio)
    }

    /** Keeps its settings and the stats collector (the source defaults are `verbose_stats=False`, `prio=1`). */
    constructor (maxdepth: int, stats: StatsCollector, verboseStats: bool, prio: int)
      ensures this.maxdepth == maxdepth && this.stats == stats
      ensures this.verboseStats == verboseStats && this.prio == prio
      ensures Policy() == Config(maxdepth, verboseStats, prio)
    {
      this.maxdepth := maxdepth;
      this.stats := stats;
      this.verboseStats := verboseStats;
      this.prio := prio;
    }

    /** Gives a response without a depth the depth 0, counting it when stats are verbose. */
    method InitDepth(response: Response)
      modifies response, stats
      ensures old(response.depth).None? ==> response.depth == Some(0)
      ensures old(response.depth).Some? ==> response.depth == old(response.depth)
      ensures stats.values == InitStats(Policy(), old(stats.values), old(response.depth))
    {
      if response.depth.None? {
        response.depth := Some(0);
        if verboseStats {
          CountKeyZero();
          stats.IncValue("request_depth_count/0");
        }
      }
    }

    /**
     * Decides whether candidate `c` of `response` is kept. An item is kept
     * untouched. A request gets depth `d` (the response's plus one) and loses
     * `d * prio` priority whether or not it is kept; it is dropped exactly
     * when a limit is set and `d` exceeds it, and only a kept request is
     * recorded in the stats.
     */
    method Filter(c: Candidate, response: Response) returns (keep: bool)
      requires response.depth.Some?
      modifies stats, if c.Req? then {c.request} else {}
      ensures c.Item? ==> keep && stats.values == old(stats.values)
      ensures c.Req? ==> c.request.depth == Some(response.depth.value + 1)
      ensures c.Req? ==> c.request.priority == old(c.request.priority) - Penalty(Policy(), response.depth.value + 1)
      ensures c.Req? ==> (keep <==> Admits(Policy(), response.depth.value + 1))
      ensures c.Req? && keep ==> stats.values == Record(Policy(), old(stats.values), response.depth.value + 1)
      ensures c.Req? && !keep ==> stats.values == old(stats.values)
    {
      if c.Item? {
        return true;
      }
      var request := c.request;
      var depth := response.depth.value + 1;
      request.depth := Some(depth);
      if prio != 0 {
        request.priority := request.priority - depth * prio;
      }
      if maxdepth != 0 && depth > maxdepth {
        // Scrapy logs the dropped URL at debug level here
        return false;
      }
      if verboseStats {
        stats.IncValue(CountKey(depth));
      }
      stats.MaxValue(MaxKey, depth);
      return true;
    }

    /**
     * Initialises the response's depth and returns the lazy filtered stream
     * over `result or ()`. No candidate is looked at until the stream is pulled.
     */
    method ProcessSpiderOutput(response: Response, result: Option<seq<Candidate>>) returns (gen: FilteredResult)
      modifies response, stats
      ensures response.depth == Some(InitialisedDepth(old(response.depth)))
      ensures stats.values == InitStats(Policy(), old(stats.values), old(response.depth))
      ensures fresh(gen) && gen.Valid() && gen.pos == 0
      ensures gen.middleware == this && gen.response == response && gen.source == AsSequence(result)
    {
      InitDepth(response);
      gen := new FilteredResult(this, response, AsSequence(result));
    }

    /** Requests pass through `process_spider_input` unchanged. */
    function ProcessSpiderInput<T>(request: Request, result: T): (r: T)
      ensures r == result
    {
      result
    }

    /**
     * The stage's entry point. For a response it builds the filtered stream
     * and throws it away, then checks the ORIGINAL result; the contract
     * violation is re-raised, any other error goes to the recovery function
     * and never reaches the next handler; otherwise the next handler gets the
     * packet and the original, unfiltered result. `checkIntegrity`,
     * `scrapeFunc` and `nextHandler` are the inherited collaborators, given
     * by their outcomes.
     */
    method Handle<V>(packet: Packet, result: Option<seq<Candidate>>,
                     checkIntegrity: Option<seq<Candidate>> -> Option<Fault>,
                     scrapeFunc: (Fault, Packet) -> Outcome<V>,
                     nextHandler: Option<(Packet, Option<seq<Candidate>>) -> Outcome<V>>)
      returns (o: Outcome<V>)
      modifies (if packet.ResponsePacket? then {packet.response} else {}), stats
      ensures packet.ResponsePacket? ==>
        && packet.response.depth == Some(InitialisedDepth(old(packet.response.depth)))
        && stats.values == InitStats(Policy(), old(stats.values), old(packet.response.depth))
      ensures packet.OtherPacket? ==> stats.values == old(stats.values)
      ensures forall r :: r in RequestsOf(AsSequence(result)) ==> unchanged(r)
      ensures
        var fault := if packet.ResponsePacket? then checkIntegrity(result) else None;
        o == if fault == Some(InvalidOutput) then Raised(InvalidOutput)
             else if fault.Some? then scrapeFunc(fault.value, packet)
             else if nextHandler.Some? then nextHandler.value(packet, result)
             else Returned(None)
    {
      var fault: Option<Fault> := None;
      if packet.ResponsePacket? {
        var discarded := ProcessSpiderOutput(packet.response, result);
        fault := checkIntegrity(result);
      }
      if fault.Some? {
        if fault.value == InvalidOutput {
          return Raised(InvalidOutput);
        }
        return scrapeFunc(fault.value, packet);
      }
      if nextHandler.Some? {
        return nextHandler.value(packet, result);
      }
      return Returned(None);
    }
  }

  /**
   * The generator `process_spider_output` returns: a cursor `pos` into the
   * candidates. Each pull runs the filter on the next candidates until one is
   * kept, so filtering (and its effects on requests and stats) happens only
   * for the candidates consumed so far.
   */
  class FilteredResult {
    const middleware: DepthMiddleware
    const response: Response
    const source: seq<Candidate>
    var pos: nat

    ghost predicate Valid()
      reads this, response
    {
      pos <= |source| && response.depth.Some?
    }

    /** The depth every request of this response receives. */
    function ChildDepth(): int
      reads response
      requires response.depth.Some?
    {
      response.depth.value + 1
    }

    /** Whether the requests of this stream pass the depth limit. */
    function RequestsAdmitted(): bool
      reads response
      requires response.depth.Some?
    {
      Admits(middleware.Policy(), ChildDepth())
    }

    constructor (middleware: DepthMiddleware, response: Response, source: seq<Candidate>)
      requires response.depth.Some?
      ensures Valid() && pos == 0
      ensures this.middleware == middleware && this.response == response && this.source == source
    {
      this.middleware := middleware;
      this.response := response;
      this.source := source;
      pos := 0;
    }

    /**
     * One turn of the generator's loop: filters the candidate at the cursor and
     * moves past it. Its effect is stated on the one-candidate run it consumed,
     * as `Next`'s is on the run it consumes.
     */
    method Step() returns (keep: bool)
      requires Valid() && pos < |source|
      modifies this, middleware.stats, RequestsOf(source)
      ensures Valid() && pos == old(pos) + 1
      ensures keep == Keeps(RequestsAdmitted(), source[old(pos)])
      ensures Survivors(RequestsAdmitted(), source[old(pos)..pos]) == if keep then [source[old(pos)]] else []
      ensures middleware.stats.values ==
        FilterStats(middleware.Policy(), old(middleware.stats.values), ChildDepth(), source[old(pos)..pos])
      ensures forall i :: 0 <= i < |source| && source[i].Req? ==>
        source[i].request.priority == old(source[i].request.priority) - Occurrences(source[old(pos)..pos], source[i].request) * Penalty(middleware.Policy(), ChildDepth())
      ensures forall i :: 0 <= i < |source| && source[i].Req? ==>
        source[i].request.depth == if Occurrences(source[old(pos)..pos], source[i].request) > 0 then Some(ChildDepth()) else old(source[i].request.depth)
    {
      var c := source[pos];
      assert c.Req? ==> c.request in RequestsOf(source);
      ghost var stats0 := middleware.stats.values;
      keep := middleware.Filter(c, response);
      pos := pos + 1;
      assert source[old(pos)..pos] == [c];
      SingleSummaries(middleware.Policy(), stats0, ChildDepth(), c);
      forall i | 0 <= i < |source| && source[i].Req?
        ensures Occurrences([c], source[i].request) * Penalty(middleware.Policy(), ChildDepth())
          == if c.Req? && c.request == source[i].request then Penalty(middleware.Policy(), ChildDepth()) else 0
        ensures Occurrences([c], source[i].request) > 0 <==> c.Req? && c.request == source[i].request
      {
        SingleRequest(middleware.Policy(), ChildDepth(), c, source[i].request);
      }
    }

    /**
     * Pulls the next kept candidate, or `None` when the input is exhausted:
     * the generator's loop resumed until it yields, taken one `Step` at a time
     * (a tail call stands for the next turn of the loop). The candidates
     * consumed are exactly those from the old cursor to the new one; only those
     * are filtered.
     */
    method Next() returns (next: Option<Candidate>)
      requires Valid()
      modifies this, middleware.stats, RequestsOf(source)
      ensures Valid() && old(pos) <= pos
      ensures old(pos) < |source| ==> old(pos) < pos
      ensures next.None? ==> pos == |source|
      ensures next.Some? ==> old(pos) < pos && next.value == source[pos - 1]
      ensures next.None? ==> Survivors(RequestsAdmitted(), source[old(pos)..pos]) == []
      ensures next.Some? ==> Survivors(RequestsAdmitted(), source[old(pos)..pos]) == [next.value]
      ensures middleware.stats.values ==
        FilterStats(middleware.Policy(), old(middleware.stats.values), ChildDepth(), source[old(pos)..pos])
      ensures forall i :: 0 <= i < |source| && source[i].Req? ==>
        source[i].request.priority == old(source[i].request.priority) - Occurrences(source[old(pos)..pos], source[i].request) * Penalty(middleware.Policy(), ChildDepth())
      ensures forall i :: 0 <= i < |source| && source[i].Req? ==>
        source[i].request.depth == if Occurrences(source[old(pos)..pos], source[i].request) > 0 then Some(ChildDepth()) else old(source[i].request.depth)
      decreases |source| - pos
    {
      if pos == |source| {
        return None;
      }
      ghost var d, stats0 := ChildDepth(), middleware.stats.values;
      ghost var start := pos;
      var c := source[pos];
      var keep := Step();
      if keep {
        return Some(c);
      }
      ghost var mid := pos;
      next := Next();
      ghost var prev, rest := source[start..mid], source[mid..pos];
      SliceConcat(source, start, mid, pos);
      forall i | 0 <= i < |source| && source[i].Req?
        ensures Occurrences(source[start..pos], source[i].request) * Penalty(middleware.Policy(), d)
          == Occurrences(prev, source[i].request) * Penalty(middleware.Policy(), d) + Occurrences(rest, source[i].request) * Penalty(middleware.Policy(), d)
        ensures Occurrences(source[start..pos], source[i].request)
          == Occurrences(prev, source[i].request) + Occurrences(rest, source[i].request)
      {
        ConcatRequest(middleware.Policy(), d, prev, rest, source[i].request);
      }
      ConcatSummaries(middleware.Policy(), stats0, d, prev, rest);
    }

    /** Pulls the stream to its end (as `list(...)` does); the result is the whole filtered output. */
    method Drain() returns (out: seq<Candidate>)
      requires Valid()
      modifies this, middleware.stats, RequestsOf(source)
      ensures Valid() && pos == |source|
      ensures out == Survivors(RequestsAdmitted(), source[old(pos)..])
      ensures middleware.stats.values ==
        FilterStats(middleware.Policy(), old(middleware.stats.values), ChildDepth(), source[old(pos)..])
      ensures forall i :: 0 <= i < |source| && source[i].Req? ==>
        source[i].request.priority == old(source[i].request.priority) - Occurrences(source[old(pos)..], source[i].request) * Penalty(middleware.Policy(), ChildDepth())
      ensures forall i :: 0 <= i < |source| && source[i].Req? ==>
        source[i].request.depth == if Occurrences(source[old(pos)..], source[i].request) > 0 then Some(ChildDepth()) else old(source[i].request.depth)
    {
      ghost var start := pos;
      ghost var cfg, d, stats0 := middleware.Policy(), ChildDepth(), middleware.stats.values;
      ghost var consumed: seq<Candidate> := [];
      out := [];
      while pos < |source|
        invariant start <= pos <= |source| && Valid() && ChildDepth() == d
        invariant consumed == source[start..pos]
        invariant out == Survivors(Admits(cfg, d), consumed)
        invariant middleware.stats.values == FilterStats(cfg, stats0, d, consumed)
        invariant forall i :: 0 <= i < |source| && source[i].Req? ==>
          source[i].request.priority == old(source[i].request.priority) - Occurrences(consumed, source[i].request) * Penalty(cfg, d)
        invariant forall i :: 0 <= i < |source| && source[i].Req? ==>
          source[i].request.depth == if Occurrences(consumed, source[i].request) > 0 then Some(d) else old(source[i].request.depth)
        decreases |source| - pos
      {
        ghost var before := pos;
        var next := Next();
        ghost var prev, step := consumed, source[before..pos];
        SliceConcat(source, start, before, pos);
        consumed := prev + step;
        forall i | 0 <= i < |source| && source[i].Req?
          ensures var r := source[i].request;
            r.priority == old(r.priority) - Occurrences(consumed, r) * Penalty(cfg, d)
          ensures var r := source[i].request;
            r.depth == if Occurrences(consumed, r) > 0 then Some(d) else old(r.depth)
        {
          ConcatRequest(cfg, d, prev, step, source[i].request);
        }
        ConcatSummaries(cfg, stats0, d, prev, step);
        if next.Some? {
          out := out + [next.value];
        }
      }
      assert consumed == source[old(pos)..];
    }
  }
}
