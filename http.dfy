/**
 * The entities the middleware sees: requests and responses, reduced to the
 * fields it reads and writes (`meta["depth"]` and `priority`), and the
 * candidates a spider callback yields.
 */
module Http {
  import opened Wrappers

  /** A request; `depth` is its `meta["depth"]`, absent until some stage sets it. */
  class Request {
    const url: string
    var depth: Option<int>
    var priority: int

    constructor (url: string, priority: int, depth: Option<int>)
      ensures this.url == url && this.priority == priority && this.depth == depth
    {
      this.url := url;
      this.priority := priority;
      this.depth := depth;
    }
  }

  /** A response; `depth` is its `meta["depth"]`, absent only on the origin response. */
  class Response {
    const url: string
    var depth: Option<int>

    constructor (url: string, depth: Option<int>)
      ensures this.url == url && this.depth == depth
    {
      this.url := url;
      this.depth := depth;
    }
  }

  /** One element of a callback's output: a new request, or any other item (identified by `id`). */
  datatype Candidate = Req(request: Request) | Item(id: nat)

  /** `result or ()`: a missing output is an empty one. */
  function AsSequence(result: Option<seq<Candidate>>): (xs: seq<Candidate>) {
    if result.Some? then result.value else []
  }

  /** The request objects among `xs`. */
  function RequestsOf(xs: seq<Candidate>): (reqs: set<Request>) {
    set c | c in xs && c.Req? :: c.request
  }
}
