/**
 * Concrete runs of the middleware, fixing the settings, the response and the
 * callback output, with the outcome each one must have.
 */
module Scenarios {
  import opened Wrappers
  import opened Stats
  import opened Http
  import opened DepthPolicy
  import opened Depth

  /**
   * An origin response (no depth yet), `DEPTH_LIMIT = 2`, `DEPTH_PRIORITY = 1`:
   * both requests get depth 1 and lose one point of priority, the item passes,
   * nothing is dropped and the maximum depth seen is 1.
   */
  method OriginResponse() returns (out: seq<Candidate>, a: Request, b: Request, stats: StatsCollector)
    ensures out == [Req(a), Item(7), Req(b)]
    ensures a.depth == Some(1) && a.priority == 9
    ensures b.depth == Some(1) && b.priority == 4
    ensures stats.values == map[MaxKey := 1]
  {
    stats := new StatsCollector();
    var middleware := new DepthMiddleware(2, stats, false, 1);
    var response := new Response("https://example.com/", None);
    a := new Request("https://example.com/a", 10, None);
    b := new Request("https://example.com/b", 5, None);
    var source := [Req(a), Item(7), Req(b)];
    var gen := middleware.ProcessSpiderOutput(response, Some(source));
    out := gen.Drain();
    assert source[0..] == source;
    OriginOutcome(middleware.Policy(), a, b);
    assert source[0].Req? && source[0].request == a;
    assert source[2].Req? && source[2].request == b;
  }

  /** What filtering `[a, item 7, b]` at depth 1 yields under the first scenario's settings. */
  lemma OriginOutcome(cfg: Config, a: Request, b: Request)
    requires cfg == Config(2, false, 1) && a != b
    ensures var source := [Req(a), Item(7), Req(b)];
      && Survivors(Admits(cfg, 1), source) == source
      && Occurrences(source, a) == 1 && Occurrences(source, b) == 1
      && Penalty(cfg, 1) == 1
      && FilterStats(cfg, map[], 1, source) == map[MaxKey := 1]
  {
    var source := [Req(a), Item(7), Req(b)];
    SurvivorsExactly(true, source);
    assert Init(source) == [Req(a), Item(7)] && Init([Req(a), Item(7)]) == [Req(a)] && Init([Req(a)]) == [];
    assert Occurrences([Req(a)], a) == 1 && Occurrences([Req(a)], b) == 0;
    assert Occurrences([Req(a), Item(7)], a) == 1 && Occurrences([Req(a), Item(7)], b) == 0;
    assert FilterStats(cfg, map[], 1, [Req(a)]) == map[MaxKey := 1];
    assert FilterStats(cfg, map[], 1, [Req(a), Item(7)]) == map[MaxKey := 1];
  }

  /**
   * A response at depth 2 with `DEPTH_LIMIT = 2` and verbose stats: its request
   * would be at depth 3, so it is dropped with nothing recorded, yet it has
   * been stamped with depth 3 and has lost three points of priority.
   */
  method BeyondTheLimit() returns (out: seq<Candidate>, c: Request, stats: StatsCollector)
    ensures out == []
    ensures c.depth == Some(3) && c.priority == -3
    ensures stats.values == map[]
  {
    stats := new StatsCollector();
    var middleware := new DepthMiddleware(2, stats, true, 1);
    var response := new Response("https://example.com/deep", Some(2));
    c := new Request("https://example.com/deeper", 0, None);
    var source := [Req(c)];
    var gen := middleware.ProcessSpiderOutput(response, Some(source));
    out := gen.Drain();
    assert source[0..] == source;
    SurvivorsExactly(false, source);
    assert Init(source) == [];
    assert Occurrences(source, c) == 1;
    assert source[0].Req? && source[0].request == c;
  }

  /**
   * `handle` on a response at depth 2 with `DEPTH_LIMIT = 2`, where filtering
   * would drop the request (see `BeyondTheLimit`): the filtered stream is
   * thrown away, so the request is not touched, nothing is recorded, and the
   * next handler receives the one-element, unfiltered output.
   */
  method HandleForwardsUnfiltered() returns (o: Outcome<int>, c: Request, response: Response, stats: StatsCollector)
    ensures o == Returned(Some(1))
    ensures c.depth == None && c.priority == 0
    ensures response.depth == Some(2)
    ensures stats.values == map[]
  {
    stats := new StatsCollector();
    var middleware := new DepthMiddleware(2, stats, true, 1);
    response := new Response("https://example.com/deep", Some(2));
    c := new Request("https://example.com/deeper", 0, None);
    var source := [Req(c)];
    o := middleware.Handle(ResponsePacket(response), Some(source),
                           result => None,
                           (fault, packet) => Raised(fault),
                           Some((packet, result) => Returned(Some(|AsSequence(result)|))));
    assert c in RequestsOf(AsSequence(Some(source)));
  }
}
