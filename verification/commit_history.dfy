/** scripts/commit_history.py: fetch the history of `main`, failing on any
    response whose status is not 200, and splice one HTML block per commit
    into a template. */
module CommitHistory {
  import opened Results
  import opened Strings
  import opened GitHub
  import opened Pagination

  /** `get_commits`: splits the repository, then runs the pagination loop,
      raising as soon as a response has a status other than 200; the edges
      gathered so far are then lost. */
  method GetCommits(repository: string, respond: Variables -> Page<Edge<Commit>>)
    returns (r: Result<seq<Edge<Commit>>, Error>, sent: seq<Variables>)
    requires EventuallyLastOrFailure(respond, repository)
    ensures OwnerAndName(repository).Err? ==> r == Err(OwnerAndName(repository).error) && sent == []
    ensures OwnerAndName(repository).Ok? ==>
      var (owner, name) := OwnerAndName(repository).value;
      && FollowsCursors(respond, owner, name, sent)
      && StopsAtLastPageOrFailure(respond, sent)
      && var status := respond(sent[|sent| - 1]).status;
         && (status != 200 ==> r == Err(QueryFailed(status)))
         && (status == 200 ==> r == Ok(Gathered(respond, sent)))
  {
    var split := OwnerAndName(repository);
    if split.Err? {
      return Err(split.error), [];
    }
    r, sent := FetchChecked(split.value.0, split.value.1, respond);
  }

  /** The `while True` loop of `get_commits` for a given owner and name. */
  method FetchChecked(owner: string, name: string, respond: Variables -> Page<Edge<Commit>>)
    returns (r: Result<seq<Edge<Commit>>, Error>, sent: seq<Variables>)
    requires exists n: nat :: EndsRun(respond(RequestAt(respond, owner, name, n)))
    ensures FollowsCursors(respond, owner, name, sent)
    ensures StopsAtLastPageOrFailure(respond, sent)
    ensures respond(sent[|sent| - 1]).status != 200 ==> r == Err(QueryFailed(respond(sent[|sent| - 1]).status))
    ensures respond(sent[|sent| - 1]).status == 200 ==> r == Ok(Gathered(respond, sent))
  {
    ghost var last: nat :| EndsRun(respond(RequestAt(respond, owner, name, last)));
    var commits: seq<Edge<Commit>> := [];
    var cursor: Cursor := None;
    sent := [];
    while true
      invariant |sent| <= last
      invariant Variables(owner, name, cursor) == RequestAt(respond, owner, name, |sent|)
      invariant FollowsCursors(respond, owner, name, sent)
      invariant forall k :: 0 <= k < |sent| ==> respond(sent[k]).status == 200 && respond(sent[k]).hasNextPage
      invariant commits == Gathered(respond, sent)
      decreases last - |sent|
    {
      var variables := Variables(owner, name, cursor);
      var response := respond(variables);
      GatheredSnoc(respond, sent, variables);
      FollowsCursorsSnoc(respond, owner, name, sent, variables);
      sent := sent + [variables];
      if response.status != 200 {
        return Err(QueryFailed(response.status)), sent;
      }
      commits := commits + response.edges;
      if !response.hasNextPage {
        break;
      }
      cursor := response.endCursor;
    }
    r := Ok(commits);
  }

  /** The text `generate_html` replaces with the commit entries. */
  const Placeholder := "<!-- commit_data_placeholder -->"

  /** The pieces of one commit's HTML entry, in the order they are written. */
  datatype Block =
    | CommitBlock(oid: string, message: string, authorName: string, authorEmail: string, date: string)
    | PullRequestBlock(url: string, number: int, title: string, login: string, merged: string, body: string)
    | IssueBlock(url: string, number: int, title: string, login: string, body: string)
    | CloseDiv

  /** Position of a block kind within an entry. */
  function Rank(b: Block): nat
  {
    match b
    case CommitBlock(_, _, _, _, _) => 0
    case PullRequestBlock(_, _, _, _, _, _) => 1
    case IssueBlock(_, _, _, _, _) => 2
    case CloseDiv => 3
  }

  /** `pr_data`: the node of the first associated pull request, if any. */
  function FirstPullRequest(c: Commit): (r: Option<PullRequest>)
    ensures r.Some? <==> |c.associatedPullRequests| > 0
    ensures r.Some? ==> r.value == c.associatedPullRequests[0].node
  {
    if |c.associatedPullRequests| > 0 then Some(c.associatedPullRequests[0].node) else None
  }

  /** `issue_data`: the node of the first issue the pull request closes, if
      there is a pull request and it closes any. */
  function FirstClosingIssue(pr: Option<PullRequest>): (r: Option<Issue>)
    ensures r.Some? <==> pr.Some? && |pr.value.closingIssuesReferences| > 0
    ensures r.Some? ==> r.value == pr.value.closingIssuesReferences[0].node
  {
    if pr.Some? && |pr.value.closingIssuesReferences| > 0 then Some(pr.value.closingIssuesReferences[0].node) else None
  }

  function CommitBlockOf(c: Commit): Block
  {
    CommitBlock(c.oid, c.message, c.author.name, c.author.email, c.author.date)
  }

  function PullRequestBlockOf(pr: PullRequest): Block
  {
    PullRequestBlock(pr.url, pr.number, pr.title, pr.author.login, if pr.merged then "Yes" else "No", pr.body)
  }

  function IssueBlockOf(issue: Issue): Block
  {
    IssueBlock(issue.url, issue.number, issue.title, issue.author.login, issue.body)
  }

  /** The blocks of one commit's entry: the commit itself, then a pull-request
      block exactly when the commit has an associated pull request (built from
      the first one, with "Yes" exactly when it is merged), then an issue block
      exactly when that pull request closes an issue (the first one), then the
      closing tag. Each kind appears at most once, in that order. */
  function EntryBlocks(c: Commit): (bs: seq<Block>)
    ensures 2 <= |bs| <= 4
    ensures bs[0] == CommitBlock(c.oid, c.message, c.author.name, c.author.email, c.author.date)
    ensures bs[|bs| - 1] == CloseDiv
    ensures forall i, j :: 0 <= i < j < |bs| ==> Rank(bs[i]) < Rank(bs[j])
    ensures (exists i :: 0 <= i < |bs| && bs[i].PullRequestBlock?) <==> |c.associatedPullRequests| > 0
    ensures forall i :: 0 <= i < |bs| && bs[i].PullRequestBlock? ==>
      var pr := c.associatedPullRequests[0].node;
      && bs[i] == PullRequestBlock(pr.url, pr.number, pr.title, pr.author.login, bs[i].merged, pr.body)
      && (bs[i].merged == "Yes" <==> pr.merged)
      && (bs[i].merged == "No" <==> !pr.merged)
    ensures (exists i :: 0 <= i < |bs| && bs[i].IssueBlock?) <==>
      |c.associatedPullRequests| > 0 && |c.associatedPullRequests[0].node.closingIssuesReferences| > 0
    ensures forall i :: 0 <= i < |bs| && bs[i].IssueBlock? ==>
      var issue := c.associatedPullRequests[0].node.closingIssuesReferences[0].node;
      bs[i] == IssueBlock(issue.url, issue.number, issue.title, issue.author.login, issue.body)
  {
    var prData := FirstPullRequest(c);
    var issueData := FirstClosingIssue(prData);
    var bs :=
      [CommitBlockOf(c)]
      + (if prData.Some? then [PullRequestBlockOf(prData.value)] else [])
      + (if issueData.Some? then [IssueBlockOf(issueData.value)] else [])
      + [CloseDiv];
    assert prData.Some? ==> bs[1].PullRequestBlock?;
    assert issueData.Some? ==> bs[|bs| - 2].IssueBlock?;
    bs
  }

  /** The HTML of one block, as the f-strings of `generate_html` write it. */
  function BlockText(b: Block): (r: string)
    ensures b.CloseDiv? <==> r == "</div>"
  {
    match b
    case CommitBlock(oid, message, name, email, date) =>
      CommitOpen + oid + MessageField + message + AuthorField + name + " (" + email
      + ")" + DateField + date + CommitBlockEnd
    case PullRequestBlock(url, number, title, login, merged, body) =>
      PullRequestOpen + url + LinkMiddle + DecimalString(number) + LinkEnd + title
      + InnerAuthorField + login + MergedField + merged + BodyField + body + InnerBlockEnd
    case IssueBlock(url, number, title, login, body) =>
      IssueOpen + url + LinkMiddle + DecimalString(number) + LinkEnd + title
      + InnerAuthorField + login + BodyField + body + InnerBlockEnd
    case CloseDiv => "</div>"
  }

  // The fixed text between the interpolated fields of the f-strings.
  const CommitOpen := "\n        <div class=\"commit\">\n            <p><strong>Commit:</strong> "
  const MessageField := "</p>\n            <p><strong>Message:</strong> "
  const AuthorField := "</p>\n            <p><strong>Author:</strong> "
  const DateField := "</p>\n            <p><strong>Date:</strong> "
  const CommitBlockEnd := "</p>\n        "
  const PullRequestOpen := "\n            <div class=\"pull-request\">\n                <p><strong>Pull Request:</strong> <a href=\""
  const IssueOpen := "\n            <div class=\"issue\">\n                <p><strong>Issue:</strong> <a href=\""
  const LinkMiddle := "\">#"
  const LinkEnd := "</a> - "
  const InnerAuthorField := "</p>\n                <p><strong>Author:</strong> "
  const MergedField := "</p>\n                <p><strong>Merged:</strong> "
  const BodyField := "</p>\n                <p><strong>Body:</strong> "
  const InnerBlockEnd := "</p>\n            </div>\n            "

  /** `commit_entry` for one commit. */
  function EntryText(c: Commit): (r: string)
    ensures |r| >= 6 && r[|r| - 6..] == "</div>"
  {
    Render(EntryBlocks(c), BlockText)
  }

  /** `commit_entries`: one entry per commit, in input order. */
  function EntryTexts(commits: seq<Edge<Commit>>): (entries: seq<string>)
    ensures |entries| == |commits|
    ensures forall k :: 0 <= k < |commits| ==> entries[k] == EntryText(commits[k].node)
  {
    seq(|commits|, k requires 0 <= k < |commits| => EntryText(commits[k].node))
  }

  /** An entry's text is the commit block's, then the pull-request block's
      and the issue block's when there are such, then the closing tag. */
  lemma EntryTextParts(c: Commit)
    ensures EntryText(c) ==
      BlockText(CommitBlockOf(c))
      + (if FirstPullRequest(c).Some? then BlockText(PullRequestBlockOf(FirstPullRequest(c).value)) else "")
      + (if FirstClosingIssue(FirstPullRequest(c)).Some? then BlockText(IssueBlockOf(FirstClosingIssue(FirstPullRequest(c)).value)) else "")
      + BlockText(CloseDiv)
  {
    var prData := FirstPullRequest(c);
    var issueData := FirstClosingIssue(prData);
    var pr := if prData.Some? then Some(PullRequestBlockOf(prData.value)) else None;
    var issue := if issueData.Some? then Some(IssueBlockOf(issueData.value)) else None;
    RenderAround(CommitBlockOf(c), pr, issue, CloseDiv, BlockText);
  }

  /** The body of `generate_html`'s loop: one commit's entry, built by
      appending the text of each block that applies. */
  method Entry(commitData: Commit) returns (entry: string)
    ensures entry == EntryText(commitData)
  {
    var prData := FirstPullRequest(commitData);
    var issueData := FirstClosingIssue(prData);
    entry := BlockText(CommitBlockOf(commitData));
    if prData.Some? {
      entry := entry + BlockText(PullRequestBlockOf(prData.value));
    }
    if issueData.Some? {
      entry := entry + BlockText(IssueBlockOf(issueData.value));
    }
    entry := entry + BlockText(CloseDiv);
    EntryTextParts(commitData);
  }

  /** `generate_html` without the file I/O: one entry per commit, in order,
      then every occurrence of the placeholder in the template replaced by the
      entries joined with newlines. */
  method GenerateHtml(commits: seq<Edge<Commit>>, template: string) returns (html: string)
    ensures html == Replace(template, Placeholder, Join(EntryTexts(commits), "\n"))
    ensures (forall i: nat :: !OccursAt(template, Placeholder, i)) ==> html == template
  {
    var entries: seq<string> := [];
    for k := 0 to |commits|
      invariant |entries| == k
      invariant forall j :: 0 <= j < k ==> entries[j] == EntryText(commits[j].node)
    {
      var entry := Entry(commits[k].node);
      entries := entries + [entry];
    }
    assert entries == EntryTexts(commits);
    html := Replace(template, Placeholder, Join(entries, "\n"));
    if forall i: nat :: !OccursAt(template, Placeholder, i) {
      ReplaceAbsent(template, Placeholder, Join(entries, "\n"));
    }
  }

  /** `main` without argument parsing and file I/O: refuses to run without a
      token, fetches the commits and renders them into the template. */
  method Run(token: Option<string>, repository: string, template: string, respond: Variables -> Page<Edge<Commit>>)
    returns (r: Result<string, Error>, sent: seq<Variables>)
    requires token != None && token != Some("") ==> EventuallyLastOrFailure(respond, repository)
    ensures token == None || token == Some("") ==> r == Err(MissingToken) && sent == []
    ensures token != None && token != Some("") && OwnerAndName(repository).Err? ==>
      r == Err(OwnerAndName(repository).error) && sent == []
    ensures token != None && token != Some("") && OwnerAndName(repository).Ok? ==>
      var (owner, name) := OwnerAndName(repository).value;
      && FollowsCursors(respond, owner, name, sent)
      && StopsAtLastPageOrFailure(respond, sent)
      && var status := respond(sent[|sent| - 1]).status;
         && (status != 200 ==> r == Err(QueryFailed(status)))
         && (status == 200 ==> r == Ok(Replace(template, Placeholder, Join(EntryTexts(Gathered(respond, sent)), "\n"))))
  {
    if token == None || token == Some("") {
      return Err(MissingToken), [];
    }
    var commits;
    commits, sent := GetCommits(repository, respond);
    if commits.Err? {
      return Err(commits.error), sent;
    }
    var html := GenerateHtml(commits.value, template);
    r := Ok(html);
  }
}
