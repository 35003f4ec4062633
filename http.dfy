/** The shape of the replies the front end receives from its back end, as
    plain values: no request is ever sent by the model. */
module Http {
  import opened Wrappers

  /** The body of a response after `res.json()`: either it did not parse, or it
      is an object with the optional `success`, `data` and `message` members the
      front end reads (a missing `success` reads as false). */
  datatype Body<T> =
    | NotJson(parseError: string)
    | Json(success: bool, data: Option<T>, message: Option<string>)

  /** What awaiting `fetch` produced: a rejection (network failure), or a
      response with its status code and body. */
  datatype Reply<T> =
    | Threw(error: string)
    | Answered(status: int, body: Body<T>)

  /** `res.ok`. */
  predicate IsOk(status: int) {
    200 <= status <= 299
  }

  /** JavaScript `s || fallback` for an optional string: a missing or empty
      string falls back. */
  function OrElse(s: Option<string>, fallback: string): string {
    if s.Some? && s.value != "" then s.value else fallback
  }

  /** How one promise of a batch settled. */
  datatype Settled = Fulfilled | Rejected(reason: string)

  /** `Promise.all` over already settled promises: fulfilled when every one is,
      otherwise rejected with the first rejection. The outcomes are taken in the
      order in which they settled. */
  function JoinAll(outcomes: seq<Settled>): (r: Settled)
    ensures r.Fulfilled? <==> forall k :: 0 <= k < |outcomes| ==> outcomes[k].Fulfilled?
    ensures r.Rejected? ==>
              exists k :: 0 <= k < |outcomes| && outcomes[k] == r && forall j :: 0 <= j < k ==> outcomes[j].Fulfilled?
  {
    if outcomes == [] then Fulfilled
    else if outcomes[0].Rejected? then outcomes[0]
    else JoinAll(outcomes[1..])
  }

  /** How awaiting `fetch` settled: only a network failure rejects. */
  function Sent<T>(reply: Reply<T>): (s: Settled)
    ensures s.Fulfilled? <==> reply.Answered?
  {
    match reply
    case Threw(e) => Rejected(e)
    case Answered(_, _) => Fulfilled
  }

  /** How awaiting `res.json()` settled: only an unparsable body rejects. */
  function Parsed<T>(body: Body<T>): (s: Settled)
    ensures s.Fulfilled? <==> body.Json?
  {
    match body
    case NotJson(e) => Rejected(e)
    case Json(_, _, _) => Fulfilled
  }
}
