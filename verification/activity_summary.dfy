/** scripts/activity_summary.py: one line of text per commit, naming its first
    associated pull request and, when that one is merged, its body and the
    associated pull requests that are not merged. */
module ActivitySummary {
  import opened Results
  import opened Lists
  import opened Strings
  import opened GitHub

  /** The pieces of one summary line, in the order they are appended. */
  datatype Segment =
    | CommitPart(message: string, name: string, date: string)
    | PullRequestPart(title: string, login: string, state: string)
    | IssuePart(body: string)
    | UnmergedPart(prs: seq<PullRequest>)

  /** Position of a segment kind within a line. */
  function Rank(s: Segment): nat
  {
    match s
    case CommitPart(_, _, _) => 0
    case PullRequestPart(_, _, _) => 1
    case IssuePart(_) => 2
    case UnmergedPart(_) => 3
  }

  predicate Unmerged(pr: PullRequest)
  {
    !pr.merged
  }

  /** `unmerged_prs`: the associated pull requests that are not merged, in
      edge order. */
  function UnmergedPullRequests(c: Commit): (r: seq<PullRequest>)
    ensures |r| <= |c.associatedPullRequests|
    ensures forall i :: 0 <= i < |r| ==> !r[i].merged
  {
    FilterMembers(Nodes(c.associatedPullRequests), Unmerged);
    Filter(Nodes(c.associatedPullRequests), Unmerged)
  }

  /** The unmerged list holds the associated pull requests whose `merged` is
      false, and no other. */
  lemma UnmergedExactly(c: Commit)
    ensures forall i :: 0 <= i < |UnmergedPullRequests(c)| ==>
      !UnmergedPullRequests(c)[i].merged && UnmergedPullRequests(c)[i] in Nodes(c.associatedPullRequests)
    ensures forall i :: 0 <= i < |c.associatedPullRequests| && !c.associatedPullRequests[i].node.merged ==>
      c.associatedPullRequests[i].node in UnmergedPullRequests(c)
  {
    var nodes := Nodes(c.associatedPullRequests);
    FilterMembers(nodes, Unmerged);
    assert forall i :: 0 <= i < |nodes| ==> nodes[i] == c.associatedPullRequests[i].node;
  }

  /** The segments of one commit's line, in the order `generate_summary`
      appends them. */
  function LineSegments(c: Commit): (ss: seq<Segment>)
    ensures 1 <= |ss| <= 4
    ensures ss[0] == CommitPart(c.message, c.author.name, c.author.date)
  {
    var head := [CommitPart(c.message, c.author.name, c.author.date)];
    if |c.associatedPullRequests| == 0 then head else
      var pr := c.associatedPullRequests[0].node;
      var withPr := head + [PullRequestPart(pr.title, pr.author.login, pr.state)];
      if !pr.merged then withPr else
        var unmerged := UnmergedPullRequests(c);
        var withIssue := withPr + [IssuePart(pr.body)];
        if |unmerged| == 0 then withIssue else withIssue + [UnmergedPart(unmerged)]
  }

  /** A line holds the commit; then the first associated pull request exactly
      when there is one; then, exactly when that pull request is merged, its
      body, followed by the unmerged list exactly when that list is not empty.
      Each kind appears at most once, in that order. */
  lemma LineSegmentsShape(c: Commit)
    ensures var ss := LineSegments(c);
      && (forall i, j :: 0 <= i < j < |ss| ==> Rank(ss[i]) < Rank(ss[j]))
      && ((exists i :: 0 <= i < |ss| && ss[i].PullRequestPart?) <==> |c.associatedPullRequests| > 0)
      && (forall i :: 0 <= i < |ss| && ss[i].PullRequestPart? ==>
            var pr := c.associatedPullRequests[0].node;
            ss[i] == PullRequestPart(pr.title, pr.author.login, pr.state))
      && ((exists i :: 0 <= i < |ss| && ss[i].IssuePart?) <==>
            |c.associatedPullRequests| > 0 && c.associatedPullRequests[0].node.merged)
      && (forall i :: 0 <= i < |ss| && ss[i].IssuePart? ==>
            ss[i] == IssuePart(c.associatedPullRequests[0].node.body))
      && ((exists i :: 0 <= i < |ss| && ss[i].UnmergedPart?) <==>
            |c.associatedPullRequests| > 0 && c.associatedPullRequests[0].node.merged && |UnmergedPullRequests(c)| > 0)
      && (forall i :: 0 <= i < |ss| && ss[i].UnmergedPart? ==> ss[i] == UnmergedPart(UnmergedPullRequests(c)))
  {
    var ss := LineSegments(c);
    if |c.associatedPullRequests| > 0 {
      assert ss[1].PullRequestPart?;
      if c.associatedPullRequests[0].node.merged {
        assert ss[2].IssuePart?;
        if |UnmergedPullRequests(c)| > 0 {
          assert ss[3].UnmergedPart?;
        }
      }
    }
  }

  /** `f"{pr['title']} by {pr['author']['login']}"` for each pull request. */
  function Labels(prs: seq<PullRequest>): (labels: seq<string>)
    ensures |labels| == |prs|
    ensures forall k :: 0 <= k < |prs| ==> labels[k] == prs[k].title + By + prs[k].author.login
  {
    seq(|prs|, k requires 0 <= k < |prs| => prs[k].title + By + prs[k].author.login)
  }

  /** The text of one segment, as the f-strings of `generate_summary` write it. */
  function SegmentText(s: Segment): (r: string)
    ensures s.CommitPart? ==> CommitField <= r
    ensures s.PullRequestPart? ==> PullRequestField <= r
    ensures s.IssuePart? ==> IssueField <= r
    ensures s.UnmergedPart? ==> UnmergedField <= r
  {
    match s
    case CommitPart(message, name, date) => CommitHead(message, name, date)
    case PullRequestPart(title, login, state) => PullRequestField + title + By + login + StateField + state
    case IssuePart(body) => IssueField + body
    case UnmergedPart(prs) => UnmergedField + Join(Labels(prs), ListSeparator)
  }

  /** `f"Commit: {message} by {name} on {date}"`, with which every line starts. */
  function CommitHead(message: string, name: string, date: string): string
  {
    CommitField + message + By + name + DateField + date
  }

  // The fixed text between the interpolated fields of the f-strings.
  const CommitField := "Commit: "
  const By := " by "
  const DateField := " on "
  const PullRequestField := " | PR: "
  const StateField := " - "
  const IssueField := " | Issue: "
  const UnmergedField := " | Unmerged PRs: "
  const ListSeparator := ", "

  /** `commit_summary` for one commit: every line begins with the commit's
      message, author name and date. */
  function LineText(c: Commit): (r: string)
    ensures CommitHead(c.message, c.author.name, c.author.date) <= r
  {
    var ss := LineSegments(c);
    RenderFirst(ss, SegmentText);
    Render(ss, SegmentText)
  }

  /** The body of `generate_summary`'s loop: one commit's line, built by
      appending each segment that applies. */
  method Line(commitNode: Commit) returns (commitSummary: string)
    ensures commitSummary == LineText(commitNode)
  {
    ghost var segments := [CommitPart(commitNode.message, commitNode.author.name, commitNode.author.date)];
    commitSummary := CommitHead(commitNode.message, commitNode.author.name, commitNode.author.date);
    RenderSnoc([], segments[0], SegmentText);
    assert [] + segments == segments;
    if |commitNode.associatedPullRequests| > 0 {
      var pr := commitNode.associatedPullRequests[0].node;
      commitSummary, segments := Append(commitSummary, segments, PullRequestPart(pr.title, pr.author.login, pr.state));
      if pr.merged {
        commitSummary, segments := Append(commitSummary, segments, IssuePart(pr.body));
        var unmergedPrs := UnmergedPullRequests(commitNode);
        if |unmergedPrs| > 0 {
          commitSummary, segments := Append(commitSummary, segments, UnmergedPart(unmergedPrs));
        }
      }
    }
    assert segments == LineSegments(commitNode);
  }

  /** `commit_summary += ...` for one segment. */
  method Append(line: string, ghost segments: seq<Segment>, segment: Segment)
    returns (line': string, ghost segments': seq<Segment>)
    requires line == Render(segments, SegmentText)
    ensures segments' == segments + [segment]
    ensures line' == Render(segments + [segment], SegmentText)
  {
    RenderSnoc(segments, segment, SegmentText);
    line' := line + SegmentText(segment);
    segments' := segments + [segment];
  }

  /** The summary lines of a list of commit edges: one per commit, in order. */
  function SummaryLines(commits: seq<Edge<Commit>>): (lines: seq<string>)
    ensures |lines| == |commits|
    ensures forall k :: 0 <= k < |commits| ==> lines[k] == LineText(commits[k].node)
  {
    seq(|commits|, k requires 0 <= k < |commits| => LineText(commits[k].node))
  }

  /** `generate_summary` on the history edges of the response: one line per
      commit, in input order. */
  method GenerateSummary(commits: seq<Edge<Commit>>) returns (summary: seq<string>)
    ensures summary == SummaryLines(commits)
  {
    summary := [];
    for k := 0 to |commits|
      invariant |summary| == k
      invariant forall j :: 0 <= j < k ==> summary[j] == LineText(commits[j].node)
    {
      var commitSummary := Line(commits[k].node);
      summary := summary + [commitSummary];
    }
  }

  /** `main` without argument parsing and file I/O: the query is formatted
      with the two sides of the repository's '/', which fails unless there are
      exactly two; `fetch` stands for the request, answering the history edges
      of the repository named by owner and name. */
  method Run(repository: string, fetch: (string, string) -> seq<Edge<Commit>>)
    returns (r: Result<seq<string>, Error>)
    ensures r.Err? <==> Count(repository, '/') != 1
    ensures r.Err? ==> r.error == MalformedRepository(Count(repository, '/') + 1)
    ensures r.Ok? ==>
      var (owner, name) := OwnerAndName(repository).value;
      && repository == owner + "/" + name
      && r.value == SummaryLines(fetch(owner, name))
  {
    var split := OwnerAndName(repository);
    if split.Err? {
      return Err(split.error);
    }
    var summary := GenerateSummary(fetch(split.value.0, split.value.1));
    r := Ok(summary);
  }
}
