# Scrapy's depth middleware, modelled in Dafny

Scrapy's `DepthMiddleware` is a spider middleware. It watches the requests a
spider callback yields for each downloaded response, and it does three things:

- It stamps depth 0 on an origin response, that is, a response whose
  `meta["depth"]` is absent.
- It gives each request yielded for a response that response's depth plus one.
- It lowers each such request's `priority` by `depth * prio`.

A request is dropped when `DEPTH_LIMIT` (`maxdepth`) is non-zero and the
request's depth exceeds it. An accepted request records two stats:

- `request_depth_max`, the deepest depth seen;
- `request_depth_count/<depth>` counters, only with `DEPTH_STATS_VERBOSE`.

Items that are not requests always pass through.

The project is laid out in modules:

| module | what it holds |
|---|---|
| `Http` (`http.dfy`) | The mutable `Request` (depth and priority) and `Response` (depth) classes, and the `Candidate` sum type (`Req(request)` or `Item(id)`). |
| `Stats` (`stats.dfy`) | The stats collector, a class over a `map<string, int>`, with the `inc_value` and `max_value` semantics. |
| `Decimal` (`decimal.dfy`) | Python's `str(int)`, which builds the per-depth key. |
| `DepthPolicy` (`policy.dfy`) | The rules as pure functions of the settings: admission, penalty, what an accepted request records, and what filtering a run of candidates yields. Also the laws proved about them. |
| `Depth` (`depth.dfy`) | The middleware class with `_init_depth`, `_filter`, `process_spider_output`, `process_spider_input` and `handle`. Also the generator that `process_spider_output` returns. |
| `Scenarios` (`scenarios.dfy`) | Three concrete runs with their exact outcomes. |

The generator is modelled as the class `FilteredResult`. It holds a cursor
into `result or ()`:

- Nothing is filtered until the stream is pulled.
- `Next` runs the filter on exactly the candidates it consumes, up to and
  including the next kept one.
- `Drain` pulls the stream to its end, as `list(...)` would.

Each pull's contract states the following, each as a function of the
candidates consumed by that pull:

- the output, `Survivors`;
- the stats table, `FilterStats`;
- every request's new depth and priority.

A request object that occurs twice in the output is stamped with the same
depth at each occurrence and penalised once per occurrence (`Occurrences`),
as Scrapy does.

`handle` is modelled as Scrapy writes it. It builds the filtered
generator and throws it away (depth.py:34), then forwards the *unfiltered*
`result` to the next handler (depth.py:42). So `handle` only initialises the
response's depth, and the requests it forwards are untouched. The contract of
`Depth.DepthMiddleware.Handle` and the scenario
`Scenarios.HandleForwardsUnfiltered` state this. The model does not fix it.

## Model

| member | source | states |
|---|---|---|
| `Depth.DepthMiddleware.constructor` | scrapy/spidermiddlewares/depth.py:17-21 | The middleware keeps `maxdepth`, the stats collector, `verbose_stats` and `prio` exactly as given. |
| `Depth.DepthMiddleware.InitDepth` | scrapy/spidermiddlewares/depth.py:53-58 | A response without a depth gets depth 0. An existing depth is left as it was. The stats change only through `InitStats`: `request_depth_count/0` goes up by one, and only when the depth was absent and stats are verbose. |
| `DepthPolicy.InitStatsEffect` | scrapy/spidermiddlewares/depth.py:55-58 | Depth initialisation raises `request_depth_count/0` by exactly one (from 0 when absent), only when the depth was absent and stats are verbose. Every other counter is unchanged. |
| `DepthPolicy.CountKeyZero` | scrapy/spidermiddlewares/depth.py:58 | The literal key incremented at initialisation is the per-depth key of depth 0. |
| `Depth.DepthMiddleware.Filter` | scrapy/spidermiddlewares/depth.py:60-77 | A non-request is kept and nothing changes. A request gets depth (response depth + 1), kept or not. It loses `depth * prio` priority when `prio != 0`, unclamped. It is dropped exactly when `maxdepth != 0` and its depth exceeds `maxdepth`, with no stats change. When kept, the stats become `Record` of the depth. |
| `DepthPolicy.RecordEffect` | scrapy/spidermiddlewares/depth.py:74-76 | Accepting a request sets `request_depth_max` to the larger of its old value and the depth (to the depth when absent). With verbose stats it adds one to `request_depth_count/<depth>`, starting from 0. No other counter changes. |
| `DepthPolicy.RecordOtherDepth` | scrapy/spidermiddlewares/depth.py:75 | Accepting a request at one depth leaves the counter of every other depth unchanged. |
| `DepthPolicy.CountKeyNotMaxKey` | scrapy/spidermiddlewares/depth.py:75-76 | No per-depth key collides with `request_depth_max`. |
| `DepthPolicy.CountKeyInjective` | scrapy/spidermiddlewares/depth.py:75 | Different depths are counted under different `request_depth_count/<depth>` keys. |
| `Decimal.NatToStringInjective` | scrapy/spidermiddlewares/depth.py:75 | Different natural numbers have different decimal forms. |
| `Decimal.IntToStringInjective` | scrapy/spidermiddlewares/depth.py:75 | Different integers have different decimal forms. |
| `DepthPolicy.PenaltyMonotone` | scrapy/spidermiddlewares/depth.py:65-66 | With a positive `prio`, a deeper request never loses less priority. With a negative one, it never loses more. |
| `Stats.StatsCollector.IncValue` | scrapy/spidermiddlewares/depth.py:58 | `inc_value(key)` leaves the table as `AfterInc`: the counter, or 0 when absent, plus one. |
| `Stats.StatsCollector.MaxValue` | scrapy/spidermiddlewares/depth.py:76 | `max_value(key, value)` leaves the table as `AfterMax`: the larger of the counter and `value`, or `value` when absent. |
| `Stats.IncLaws` | scrapy/spidermiddlewares/depth.py:75 | `inc_value` adds exactly one to its own counter and touches no other. |
| `Stats.MaxLaws` | scrapy/spidermiddlewares/depth.py:76 | After `max_value` the counter is at least the offered value and at least its old value, and equals one of them. No other counter changes. Offering the same value again changes nothing. |
| `Depth.DepthMiddleware.ProcessSpiderOutput` | scrapy/spidermiddlewares/depth.py:46-48 | The response's depth is initialised at once. It returns a fresh stream over `result`, or over the empty sequence when `result` is `None`, with its cursor at the start, so no candidate has been filtered yet. |
| `Depth.FilteredResult.constructor` | scrapy/spidermiddlewares/depth.py:48 | A new stream is positioned before its first candidate. |
| `Depth.FilteredResult.Step` | scrapy/spidermiddlewares/depth.py:48 | One turn of the generator loop runs `_filter` on the candidate at the cursor and moves past it. It keeps the candidate exactly when `Keeps` says so. The stats, the output and every request's depth and priority are those of filtering that one candidate. |
| `Depth.FilteredResult.Next` | scrapy/spidermiddlewares/depth.py:48 | A pull consumes candidates up to and including the next kept one, or to the end, and returns it, or `None` at the end. Only the consumed candidates are filtered. The output is `Survivors` of the consumed run. The stats are `FilterStats` of that run. Each request's priority drops by its occurrences in the run times the penalty. Its depth becomes the child depth exactly when it occurs in the run; otherwise it is unchanged. |
| `Depth.FilteredResult.Drain` | scrapy/spidermiddlewares/depth.py:48 | Pulling to the end yields `Survivors` of the remaining candidates and leaves the stats at `FilterStats` of them. Every request's depth and priority are as filtering each remaining occurrence leaves them. |
| `DepthPolicy.SurvivorsEmbed` | scrapy/spidermiddlewares/depth.py:48 | The output is an order-preserving subsequence of the input, at strictly increasing positions. |
| `DepthPolicy.SurvivorsMembership` | scrapy/spidermiddlewares/depth.py:48 | A candidate is in the output exactly when it is in the input and is an item or an admitted request. |
| `DepthPolicy.SurvivorsExactly` | scrapy/spidermiddlewares/depth.py:48 | When the child depth is admitted, the output is the whole input. Otherwise it is exactly the non-request items. |
| `DepthPolicy.SurvivorsKeepItems` | scrapy/spidermiddlewares/depth.py:61-62 | Every non-request item survives, and in its order. |
| `DepthPolicy.SurvivorsWithinLimit` | scrapy/spidermiddlewares/depth.py:67-73 | When `maxdepth > 0`, every surviving request's depth is at most `maxdepth`. |
| `DepthPolicy.SurvivorsSplit` | scrapy/spidermiddlewares/depth.py:48 | Filtering a concatenation is filtering each part. The output for a prefix of the input depends only on that prefix. |
| `DepthPolicy.SurvivorsPrefix` | scrapy/spidermiddlewares/depth.py:48 | The output for the first `k` candidates is a prefix of the whole output. |
| `DepthPolicy.FilterStatsSplit` | scrapy/spidermiddlewares/depth.py:48 | The stats after a concatenation are the stats after the second part, starting from those after the first. |
| `DepthPolicy.FilterStatsEffect` | scrapy/spidermiddlewares/depth.py:63-77 | For a run of `n` accepted requests at one depth: with `n = 0` the table is untouched. Otherwise `request_depth_max` is the larger of its old value and the depth, and the verbose count at that depth grows by exactly `n`. No other counter changes. |
| `DepthPolicy.OccurrencesSplit` | scrapy/spidermiddlewares/depth.py:48 | A request's occurrences in a concatenation are the sum of its occurrences in the parts. |
| `DepthPolicy.OccurrencesPositive` | scrapy/spidermiddlewares/depth.py:48 | A request occurs a positive number of times exactly when it is in the run. |
| `Depth.DepthMiddleware.ProcessSpiderInput` | scrapy/spidermiddlewares/depth.py:50-51 | The input hook returns `result` unchanged. |
| `Depth.DepthMiddleware.Handle` | scrapy/spidermiddlewares/depth.py:31-44 | For a response, only the depth initialisation and its stats take effect; no request it was given changes. For any other packet, the stats are unchanged. The outcome is one of three. If the integrity check reports the output-contract error, it is re-raised. Any other error goes to the recovery function, and the next handler never sees it. Otherwise the result is the next handler's on the same packet and unfiltered `result`, or `None` without a next handler. |
| `Scenarios.OriginResponse` | scrapy/spidermiddlewares/depth.py:53-77 | Origin response, limit 2, `prio` 1, and `[a(10), item, b(5)]`. Everything passes. Both requests get depth 1 and priorities 9 and 4. The stats are exactly `{request_depth_max: 1}`. |
| `Scenarios.BeyondTheLimit` | scrapy/spidermiddlewares/depth.py:63-73 | A request at depth 3 under limit 2 is dropped and nothing is recorded. It is still stamped with depth 3, and its priority goes from 0 to -3. |
| `Scenarios.HandleForwardsUnfiltered` | scrapy/spidermiddlewares/depth.py:31-44 | Through `handle`, a request that filtering would drop (child depth 3, limit 2) reaches the next handler untouched: it keeps no depth and priority 0, the next handler sees one candidate, and no stats are recorded. |

## Left out

- Logging of dropped requests (depth.py:68-72) is left out. It is diagnostic output only, and the model marks its place with a comment.
- `Depth.DepthMiddleware.constructor` does not model the defaults `verbose_stats=False` and `prio=1` (depth.py:17): Dafny has no default arguments, so callers pass all four settings, as `from_crawler` does (depth.py:29).
- `from_crawler` (depth.py:23-29) is left out. It reads settings through a settings API that is not part of this model. The constructor takes the parsed values instead.
- `check_integrity`, `scrape_func` and the next handler are left out as code. They are inherited from `BaseSpiderMiddleware`, which is not part of this model. They appear as function parameters of `Handle`, described by the outcome each produces: a fault or none, and a returned or raised value.
- The Twisted `Failure` object passed to `scrape_func` is left out. The fault value stands for it.
- `Handle`: exceptions raised by `_init_depth` itself, and the `TypeError` from a non-iterable `result`, cannot arise in the model. The depth is a field and `result` is a sequence or `None`, so the only faults are those the integrity check reports.
- `Handle` abstracts the next handler's own side effects. The next handler's result is taken as a pure function of the packet and the result.
- `scrapy/statscollectors.py` is not part of this model. The semantics of `inc_value` (start at 0, add one) and `max_value` (start at the offered value, keep the larger) are those of Scrapy's in-memory collector. Per-spider stats and the `spider` argument are dropped.
- The `spider` argument is left out throughout. The middleware only passes it on, to logging and stats.
- Request and response objects are reduced to the fields the middleware touches: `meta["depth"]` and `priority`. Other `meta` keys, and a response whose `meta` is the very dict of a request in its own output, are not modelled.
- `Depth.FilteredResult.Step`, `Next` and `Drain` require that the response still has a depth when the stream is pulled. Scrapy would raise `KeyError` if another component removed it between creation and consumption; the model does not cover that.
- Exceptions raised while a consumer iterates the stream, and abandoning a stream half-way, are left out. A half-consumed stream is simply a cursor short of the end.
- Settings are integers and a boolean. Python's truthiness of other setting types (`if self.prio:`, `if self.maxdepth`) is covered only for integers, where it means "non-zero". Arbitrary-precision integers match Python's, so there is no overflow to model.
- Concurrency and the thread-safety of the stats backend are left out. Everything runs sequentially.
- `Depth.FilteredResult.Next` is written as a tail-recursive method over the cursor rather than a `while` loop. Each recursive call stands for one more turn of the generator's `for` loop between two yields. It has the same behaviour and is cheaper to verify. `Drain` keeps the consumer's loop as a `while` loop.
