/** The cursor pagination the commit scripts share. The GraphQL endpoint is an
    oracle `respond` from the request variables to the page it answers with;
    a script starts with a null cursor and sends the previous page's
    `endCursor` while the page reports `hasNextPage`. */
module Pagination {
  import opened Results
  import opened GitHub

  /** `after: $cursor`; `None` is JSON null, which asks for the first page. */
  type Cursor = Option<string>

  /** `variables = {'owner': owner, 'name': name, 'cursor': cursor}`. */
  datatype Variables = Variables(owner: string, name: string, cursor: Cursor)

  /** One response: its HTTP status, the `history.edges` it carries and its
      `history.pageInfo`. */
  datatype Page<T> = Page(status: int, edges: seq<T>, hasNextPage: bool, endCursor: Cursor)

  /** The variables of request `k` of a run in which every earlier page
      reported a next page: the first has a null cursor, each later one the
      previous page's `endCursor`. */
  function RequestAt<T>(respond: Variables -> Page<T>, owner: string, name: string, k: nat): (v: Variables)
    ensures v.owner == owner && v.name == name
    ensures k == 0 ==> v.cursor == None
  {
    if k == 0 then Variables(owner, name, None)
    else Variables(owner, name, respond(RequestAt(respond, owner, name, k - 1)).endCursor)
  }

  /** The first `n` requests of the cursor chain. */
  function Requests<T>(respond: Variables -> Page<T>, owner: string, name: string, n: nat): (r: seq<Variables>)
    ensures |r| == n
  {
    if n == 0 then [] else Requests(respond, owner, name, n - 1) + [RequestAt(respond, owner, name, n - 1)]
  }

  /** The requests in `sent` follow the cursor chain from the first page. */
  ghost predicate FollowsCursors<T>(respond: Variables -> Page<T>, owner: string, name: string, sent: seq<Variables>)
  {
    sent == Requests(respond, owner, name, |sent|)
  }

  /** Request `k` of a run following the cursor chain: the first carries a null
      cursor and each later one the `endCursor` of the page before it. */
  lemma {:induction false} FollowsCursorsAt<T>(respond: Variables -> Page<T>, owner: string, name: string, sent: seq<Variables>, k: nat)
    requires FollowsCursors(respond, owner, name, sent)
    requires k < |sent|
    ensures sent[k] == RequestAt(respond, owner, name, k)
    ensures k == 0 ==> sent[k] == Variables(owner, name, None)
    ensures k > 0 ==> sent[k] == Variables(owner, name, respond(sent[k - 1]).endCursor)
  {
    RequestsAt(respond, owner, name, |sent|, k);
    if k > 0 {
      RequestsAt(respond, owner, name, |sent|, k - 1);
    }
  }

  /** Sending the next request of the chain keeps a run on the chain, and the
      request after it carries the `endCursor` of its page. */
  lemma FollowsCursorsSnoc<T>(respond: Variables -> Page<T>, owner: string, name: string, sent: seq<Variables>, v: Variables)
    requires FollowsCursors(respond, owner, name, sent)
    requires v == RequestAt(respond, owner, name, |sent|)
    ensures FollowsCursors(respond, owner, name, sent + [v])
    ensures RequestAt(respond, owner, name, |sent| + 1) == Variables(owner, name, respond(v).endCursor)
  {
  }

  lemma {:induction false} RequestsAt<T>(respond: Variables -> Page<T>, owner: string, name: string, n: nat, k: nat)
    requires k < n
    ensures Requests(respond, owner, name, n)[k] == RequestAt(respond, owner, name, k)
  {
    if k < n - 1 {
      RequestsAt(respond, owner, name, n - 1, k);
    }
  }

  /** Every page of `sent` but the last reported a next page, and the last did not. */
  ghost predicate StopsAtLastPage<T>(respond: Variables -> Page<T>, sent: seq<Variables>)
  {
    && |sent| > 0
    && (forall k :: 0 <= k < |sent| - 1 ==> respond(sent[k]).hasNextPage)
    && !respond(sent[|sent| - 1]).hasNextPage
  }

  /** Every page of `sent` but the last answered with status 200 and reported
      a next page; the last failed or reported none. */
  ghost predicate StopsAtLastPageOrFailure<T>(respond: Variables -> Page<T>, sent: seq<Variables>)
  {
    && |sent| > 0
    && (forall k :: 0 <= k < |sent| - 1 ==> respond(sent[k]).status == 200 && respond(sent[k]).hasNextPage)
    && EndsRun(respond(sent[|sent| - 1]))
  }

  /** A run that follows the cursor chain and stops at its last page sends
      exactly as many requests as the index of the first request in the chain
      whose page reports no next page, plus one. */
  lemma RequestCount<T>(respond: Variables -> Page<T>, owner: string, name: string, sent: seq<Variables>)
    requires FollowsCursors(respond, owner, name, sent)
    requires StopsAtLastPage(respond, sent)
    ensures !respond(RequestAt(respond, owner, name, |sent| - 1)).hasNextPage
    ensures forall n :: 0 <= n < |sent| - 1 ==> respond(RequestAt(respond, owner, name, n)).hasNextPage
  {
    forall n | 0 <= n < |sent|
      ensures sent[n] == RequestAt(respond, owner, name, n)
    {
      FollowsCursorsAt(respond, owner, name, sent, n);
    }
  }

  /** Hence two such runs against the same server send the same requests. */
  lemma RequestLogUnique<T>(respond: Variables -> Page<T>, owner: string, name: string, a: seq<Variables>, b: seq<Variables>)
    requires FollowsCursors(respond, owner, name, a) && StopsAtLastPage(respond, a)
    requires FollowsCursors(respond, owner, name, b) && StopsAtLastPage(respond, b)
    ensures a == b
  {
    RequestCount(respond, owner, name, a);
    RequestCount(respond, owner, name, b);
  }

  /** A page after which a status-checking run sends no further request. */
  predicate EndsRun<T>(page: Page<T>)
  {
    page.status != 200 || !page.hasNextPage
  }

  /** The server reports a last page somewhere along the cursor chain of
      `repository` (nothing to ask when the repository does not split). */
  ghost predicate EventuallyLast<T>(respond: Variables -> Page<T>, repository: string)
  {
    OwnerAndName(repository).Ok? ==>
      exists n: nat :: !respond(RequestAt(respond, OwnerAndName(repository).value.0, OwnerAndName(repository).value.1, n)).hasNextPage
  }

  /** As `EventuallyLast`, where a failed request also ends the run. */
  ghost predicate EventuallyLastOrFailure<T>(respond: Variables -> Page<T>, repository: string)
  {
    OwnerAndName(repository).Ok? ==>
      exists n: nat :: EndsRun(respond(RequestAt(respond, OwnerAndName(repository).value.0, OwnerAndName(repository).value.1, n)))
  }

  /** `commits.extend(page edges)` over the requests of `sent`: the edges of
      the pages answering them, concatenated in request order. */
  function Gathered<T>(respond: Variables -> Page<T>, sent: seq<Variables>): (r: seq<T>)
    ensures sent != [] ==> respond(sent[0]).edges <= r
  {
    if sent == [] then [] else Gathered(respond, sent[..|sent| - 1]) + respond(sent[|sent| - 1]).edges
  }

  /** Gathering one more request appends its page's edges. */
  lemma GatheredSnoc<T>(respond: Variables -> Page<T>, sent: seq<Variables>, v: Variables)
    ensures Gathered(respond, sent + [v]) == Gathered(respond, sent) + respond(v).edges
  {
    assert (sent + [v])[..|sent|] == sent;
  }
}
