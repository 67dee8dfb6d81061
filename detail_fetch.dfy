/** The detail fetcher's retry control: one GET per attempt; a 404 ends the
    fetch at once with `None`; transport errors and other non-2xx statuses
    are retried after a wait of `attempt` units (linear backoff); when the
    attempts run out the result is `None`. The HTTP client is replaced by the
    reply each attempt receives. */
module DetailFetch {
  import opened Wrappers

  /** The fields of a detail payload the importer reads. */
  datatype Detail = Detail(
    id: int,
    name: string,
    height: Option<int>,
    weight: Option<int>,
    sprite: Option<string>,
    types: seq<string>,
    abilities: seq<string>,
    moves: seq<string>)

  /** A response body: not JSON, the empty object `{}`, or a detail payload. */
  datatype Body = Undecodable | EmptyObject | Payload(detail: Detail)

  /** What one GET yields: a transport error (`httpx.RequestError`) or a
      response with a status code and a body. */
  datatype HttpReply = TransportError | Reply(status: int, body: Body)

  /** The result of `fetch_pokemon_detail`: the decoded payload (possibly
      `{}`), `None`, or the JSON decode error, which the fetcher does not
      catch and so propagates to its caller. */
  datatype Fetched = Found(detail: Detail) | FoundEmpty | NoneReturned | DecodeRaised

  /** The default attempt ceiling (`MAX_RETRIES`), used for both fetching
      and inserting. */
  const MAX_RETRIES: int := 15

  /** A reply the fetcher retries: a transport error, or a status that is
      neither 404 nor 2xx (`raise_for_status` raises for every non-2xx). */
  predicate Retriable(reply: HttpReply) {
    reply.TransportError? || (reply.status != 404 && !(200 <= reply.status < 300))
  }

  /** What a reply that is not retried makes the fetcher return. */
  function Settle(reply: HttpReply): Fetched
    requires !Retriable(reply)
  {
    if reply.status == 404 then NoneReturned
    else match reply.body
      case Undecodable => DecodeRaised
      case EmptyObject => FoundEmpty
      case Payload(d) => Found(d)
  }

  /** The reply attempt `k + 1` receives; attempts past the given replies
      meet a transport error. */
  function ReplyAt(replies: seq<HttpReply>, k: nat): HttpReply {
    if k < |replies| then replies[k] else TransportError
  }

  /** `n` waits of linear backoff: 1, 2, ..., n units. */
  predicate LinearBackoff(waits: seq<nat>) {
    forall j :: 0 <= j < |waits| ==> waits[j] == j + 1
  }

  /** The fetch result from attempt `k + 1` on: the first reply among
      attempts `k + 1 .. retries` that is not retried settles it; when every
      one is retried, `None`. A payload is only ever one that some reply
      within the attempt budget carried with a 2xx status. */
  function FetchFrom(replies: seq<HttpReply>, k: nat, retries: int): (r: Fetched)
    ensures r.Found? ==> exists j :: (k <= j < retries && j < |replies| && replies[j].Reply?
                                      && 200 <= replies[j].status < 300 && replies[j].body == Payload(r.detail))
    decreases retries - k
  {
    if retries <= k then NoneReturned
    else
      var reply := ReplyAt(replies, k);
      if Retriable(reply) then FetchFrom(replies, k + 1, retries) else Settle(reply)
  }

  /** What `fetch_pokemon_detail` returns for these replies. */
  function FetchResult(replies: seq<HttpReply>, retries: int): Fetched {
    FetchFrom(replies, 0, retries)
  }

  /** A first GET that fails transiently and a second that succeeds: the
      payload is returned after one retry. */
  lemma ScenarioRetryOnce(d: Detail)
    ensures FetchResult([TransportError, Reply(200, Payload(d))], MAX_RETRIES) == Found(d)
    ensures FetchResult([Reply(503, Undecodable), Reply(200, Payload(d))], MAX_RETRIES) == Found(d)
  {
    assert FetchFrom([TransportError, Reply(200, Payload(d))], 1, MAX_RETRIES) == Found(d);
    assert FetchFrom([Reply(503, Undecodable), Reply(200, Payload(d))], 1, MAX_RETRIES) == Found(d);
  }

  /** `fetch_pokemon_detail(client, identifier, retries)`. Returns the
      result, the number of GETs made and the waits chosen after failed
      attempts (in seconds; the sleeping itself is left out). */
  method FetchPokemonDetail(replies: seq<HttpReply>, retries: int)
    returns (r: Fetched, attempts: nat, waits: seq<nat>)
    // never more than `retries` GETs; none at all when retries < 1
    ensures attempts <= (if retries < 0 then 0 else retries)
    // every attempt but a settling last one failed and was followed by a wait
    ensures attempts == |waits| || attempts == |waits| + 1
    ensures forall j :: 0 <= j < |waits| ==> Retriable(ReplyAt(replies, j))
    ensures LinearBackoff(waits)
    // the first reply that is not retried settles the result immediately
    ensures attempts == |waits| + 1 ==>
      !Retriable(ReplyAt(replies, attempts - 1)) && r == Settle(ReplyAt(replies, attempts - 1))
    // otherwise the attempts ran out: `None`, never an exception
    ensures attempts == |waits| ==> r == NoneReturned && attempts == (if retries < 0 then 0 else retries)
    // the result is the reference one
    ensures r == FetchResult(replies, retries)
  {
    attempts, waits := 0, [];
    var attempt := 1;
    while attempt <= retries
      invariant 1 <= attempt <= (if retries < 0 then 1 else retries + 1)
      invariant attempts == attempt - 1 == |waits|
      invariant forall j :: 0 <= j < |waits| ==> Retriable(ReplyAt(replies, j))
      invariant LinearBackoff(waits)
      invariant FetchResult(replies, retries) == FetchFrom(replies, attempt - 1, retries)
    {
      var reply := ReplyAt(replies, attempt - 1);
      attempts := attempt;
      if reply.Reply? && reply.status == 404 {
        return NoneReturned, attempts, waits;
      }
      if reply.Reply? && 200 <= reply.status < 300 {
        match reply.body
        case Undecodable =>
          return DecodeRaised, attempts, waits;
        case EmptyObject =>
          return FoundEmpty, attempts, waits;
        case Payload(d) =>
          return Found(d), attempts, waits;
      }
      waits := waits + [attempt];
      attempt := attempt + 1;
    }
    r := NoneReturned;
  }
}
