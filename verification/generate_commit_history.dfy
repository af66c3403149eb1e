/** scripts/generate_commit_history.py: fetch the whole history of the default
    branch, page by page, and hand the edges to the template unchanged. */
module GenerateCommitHistory {
  import opened Results
  import opened GitHub
  import opened Pagination

  /** `get_commit_history`: splits the repository, then requests pages from a
      null cursor on, extending the list with each page's edges until a page
      reports no next page. Returns the edges and the requests sent. */
  method GetCommitHistory(repository: string, respond: Variables -> Page<Edge<Commit>>)
    returns (r: Result<seq<Edge<Commit>>, Error>, sent: seq<Variables>)
    requires EventuallyLast(respond, repository)
    ensures OwnerAndName(repository).Err? ==> r == Err(OwnerAndName(repository).error) && sent == []
    ensures OwnerAndName(repository).Ok? ==>
      var (owner, name) := OwnerAndName(repository).value;
      && FollowsCursors(respond, owner, name, sent)
      && StopsAtLastPage(respond, sent)
      && r == Ok(Gathered(respond, sent))
  {
    var split := OwnerAndName(repository);
    if split.Err? {
      return Err(split.error), [];
    }
    var history;
    history, sent := FetchHistory(split.value.0, split.value.1, respond);
    r := Ok(history);
  }

  /** The `while True` loop of `get_commit_history` for a given owner and name. */
  method FetchHistory(owner: string, name: string, respond: Variables -> Page<Edge<Commit>>)
    returns (history: seq<Edge<Commit>>, sent: seq<Variables>)
    requires exists n: nat :: !respond(RequestAt(respond, owner, name, n)).hasNextPage
    ensures FollowsCursors(respond, owner, name, sent)
    ensures StopsAtLastPage(respond, sent)
    ensures history == Gathered(respond, sent)
  {
    ghost var last: nat :| !respond(RequestAt(respond, owner, name, last)).hasNextPage;
    history := [];
    var cursor: Cursor := None;
    sent := [];
    while true
      invariant |sent| <= last
      invariant Variables(owner, name, cursor) == RequestAt(respond, owner, name, |sent|)
      invariant FollowsCursors(respond, owner, name, sent)
      invariant forall k :: 0 <= k < |sent| ==> respond(sent[k]).hasNextPage
      invariant history == Gathered(respond, sent)
      decreases last - |sent|
    {
      var variables := Variables(owner, name, cursor);
      var page := respond(variables);
      GatheredSnoc(respond, sent, variables);
      FollowsCursorsSnoc(respond, owner, name, sent, variables);
      sent := sent + [variables];
      history := history + page.edges;
      if !page.hasNextPage {
        break;
      }
      cursor := page.endCursor;
    }
  }
}
