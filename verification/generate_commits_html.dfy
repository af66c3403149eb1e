/** scripts/generate_commits_html.py: fetch every commit node of the default
    branch and sort the commits chronologically by author date before
    rendering. */
module GenerateCommitsHtml {
  import opened Results
  import opened Ordering
  import opened GitHub
  import opened Pagination

  /** `get_commits`: as the shared pagination loop, but appends each edge's
      `node`, one at a time, rather than the edges. */
  method GetCommits(repository: string, respond: Variables -> Page<Edge<Commit>>)
    returns (r: Result<seq<Commit>, Error>, sent: seq<Variables>)
    requires EventuallyLast(respond, repository)
    ensures OwnerAndName(repository).Err? ==> r == Err(OwnerAndName(repository).error) && sent == []
    ensures OwnerAndName(repository).Ok? ==>
      var (owner, name) := OwnerAndName(repository).value;
      && FollowsCursors(respond, owner, name, sent)
      && StopsAtLastPage(respond, sent)
      && r == Ok(Nodes(Gathered(respond, sent)))
  {
    var split := OwnerAndName(repository);
    if split.Err? {
      return Err(split.error), [];
    }
    var commits;
    commits, sent := FetchNodes(split.value.0, split.value.1, respond);
    r := Ok(commits);
  }

  /** The `while True` loop of `get_commits` for a given owner and name, with
      its inner loop over the page's edges. */
  method FetchNodes(owner: string, name: string, respond: Variables -> Page<Edge<Commit>>)
    returns (commits: seq<Commit>, sent: seq<Variables>)
    requires exists n: nat :: !respond(RequestAt(respond, owner, name, n)).hasNextPage
    ensures FollowsCursors(respond, owner, name, sent)
    ensures StopsAtLastPage(respond, sent)
    ensures commits == Nodes(Gathered(respond, sent))
  {
    ghost var last: nat :| !respond(RequestAt(respond, owner, name, last)).hasNextPage;
    commits := [];
    var cursor: Cursor := None;
    sent := [];
    while true
      invariant |sent| <= last
      invariant Variables(owner, name, cursor) == RequestAt(respond, owner, name, |sent|)
      invariant FollowsCursors(respond, owner, name, sent)
      invariant forall k :: 0 <= k < |sent| ==> respond(sent[k]).hasNextPage
      invariant commits == Nodes(Gathered(respond, sent))
      decreases last - |sent|
    {
      var variables := Variables(owner, name, cursor);
      var history := respond(variables);
      commits := AppendNodes(commits, history.edges);
      GatheredSnoc(respond, sent, variables);
      FollowsCursorsSnoc(respond, owner, name, sent, variables);
      NodesConcat(Gathered(respond, sent), history.edges);
      sent := sent + [variables];
      if !history.hasNextPage {
        break;
      }
      cursor := history.endCursor;
    }
  }

  /** The inner loop `for edge in history['edges']: commits.append(edge['node'])`. */
  method AppendNodes(commits: seq<Commit>, edges: seq<Edge<Commit>>) returns (r: seq<Commit>)
    ensures r == commits + Nodes(edges)
  {
    r := commits;
    var i := 0;
    while i < |edges|
      invariant i <= |edges|
      invariant r == commits + Nodes(edges[..i])
    {
      assert edges[..i + 1] == edges[..i] + [edges[i]];
      NodesConcat(edges[..i], [edges[i]]);
      r := r + [edges[i].node];
      i := i + 1;
    }
    assert edges[..i] == edges;
  }

  /** `commit['author']['date']`, the sort key. */
  function AuthorDate(c: Commit): string
  {
    c.author.date
  }

  /** `main` up to rendering: refuses to run without a token, fetches the
      commits and sorts them by author date with Python's stable sort. The
      commits handed to the template are in non-decreasing date order, are
      exactly the fetched commits, and commits of equal date keep the order in
      which they were fetched. */
  method CommitsForPage(token: Option<string>, repository: string, respond: Variables -> Page<Edge<Commit>>)
    returns (r: Result<seq<Commit>, Error>, sent: seq<Variables>)
    requires token != None && token != Some("") ==> EventuallyLast(respond, repository)
    ensures token == None || token == Some("") ==> r == Err(MissingToken) && sent == []
    ensures token != None && token != Some("") && OwnerAndName(repository).Err? ==>
      r == Err(OwnerAndName(repository).error) && sent == []
    ensures token != None && token != Some("") && OwnerAndName(repository).Ok? ==>
      var (owner, name) := OwnerAndName(repository).value;
      var fetched := Nodes(Gathered(respond, sent));
      && FollowsCursors(respond, owner, name, sent)
      && StopsAtLastPage(respond, sent)
      && r.Ok?
      && Sorted(r.value, AuthorDate)
      && multiset(r.value) == multiset(fetched)
      && StableFor(r.value, fetched, AuthorDate)
  {
    if token == None || token == Some("") {
      return Err(MissingToken), [];
    }
    var fetched;
    fetched, sent := GetCommits(repository, respond);
    if fetched.Err? {
      return fetched, sent;
    }
    var commits := fetched.value;
    SortBySorted(commits, AuthorDate);
    SortByPermutes(commits, AuthorDate);
    SortByStable(commits, AuthorDate);
    commits := SortBy(commits, AuthorDate);
    r := Ok(commits);
  }
}
