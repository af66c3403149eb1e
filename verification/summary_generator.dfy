/** scripts/summary_generator.py: one record per issue and one per pull request
    that cross-references it, merged into a single list in chronological order. */
module SummaryGenerator {
  import opened Results
  import opened Lists
  import opened GitHub
  import opened Ordering
  import opened Strings

  /** The source of a cross-referenced event as a JSON object: the fragment
      of the query fills `title`, `createdAt` and `url` only when the source
      is a pull request. */
  type Source = map<string, string>

  /** A timeline item's node; `source` is `None` when the node has no such key. */
  datatype EventNode = EventNode(source: Option<Source>)

  datatype IssueNode = IssueNode(title: string, createdAt: string, url: string, timelineItems: seq<Edge<EventNode>>)

  /** `{'title': ..., 'createdAt': ..., 'url': ...}`: every record has
      exactly these three fields. */
  datatype Record = Record(title: string, createdAt: string, url: string)

  function CreatedAt(r: Record): string
  {
    r.createdAt
  }

  /** The record of an issue: its own title, creation time and url. */
  function IssueRecord(issue: IssueNode): (r: Record)
    ensures r.title == issue.title && CreatedAt(r) == issue.createdAt && r.url == issue.url
  {
    Record(issue.title, issue.createdAt, issue.url)
  }

  /** `'source' in event['node'] and 'title' in event['node']['source']`. */
  predicate Qualifies(ev: EventNode): (r: bool)
    ensures r ==> ev.source.Some? && "title" in ev.source.value
  {
    ev.source.Some? && "title" in ev.source.value
  }

  /** A qualifying event whose source also has the other two keys. */
  predicate Complete(ev: EventNode)
  {
    Qualifies(ev) ==> "createdAt" in ev.source.value && "url" in ev.source.value
  }

  /** The record of a complete, qualifying event. */
  function SourceRecord(ev: EventNode): (r: Record)
    requires Qualifies(ev) && Complete(ev)
    ensures var src := ev.source.value;
      r.title == src["title"] && CreatedAt(r) == src["createdAt"] && r.url == src["url"]
  {
    var src := ev.source.value;
    Record(src["title"], src["createdAt"], src["url"])
  }

  /** What the inner loop does with one event: nothing when it does not
      qualify, a `KeyError` for the first of `createdAt` and `url` its source
      lacks, and otherwise the record of its source. */
  function EventRecord(ev: EventNode): (r: Result<Option<Record>, Error>)
    ensures r.Ok? <==> Complete(ev)
    ensures r.Ok? ==> (r.value.Some? <==> Qualifies(ev))
    ensures r.Ok? && r.value.Some? ==> r.value.value == SourceRecord(ev)
  {
    if !Qualifies(ev) then Ok(None)
    else if "createdAt" !in ev.source.value then Err(KeyError("createdAt"))
    else if "url" !in ev.source.value then Err(KeyError("url"))
    else Ok(Some(SourceRecord(ev)))
  }

  /** The records the inner loop appends for a list of events, or the first
      `KeyError` it raises. */
  function EventRecords(events: seq<Edge<EventNode>>): (r: Result<seq<Record>, Error>)
    ensures r.Ok? ==> |r.value| <= |events|
    ensures r.Err? ==> exists j :: 0 <= j < |events| && !Complete(events[j].node)
  {
    if events == [] then Ok([]) else
      var front := EventRecords(events[..|events| - 1]);
      var last := EventRecord(events[|events| - 1].node);
      if front.Err? then front
      else if last.Err? then Err(last.error)
      else if last.value.Some? then Ok(front.value + [last.value.value])
      else front
  }

  /** The list `generate_summary` has built before it sorts: for each issue in
      turn, its own record followed by the records of its qualifying events;
      or the first `KeyError` raised. */
  function Emitted(issues: seq<Edge<IssueNode>>): (r: Result<seq<Record>, Error>)
    ensures r.Ok? ==> |issues| <= |r.value|
    ensures r.Ok? && issues != [] ==> r.value[0] == IssueRecord(issues[0].node)
  {
    if issues == [] then Ok([]) else
      var front := Emitted(issues[..|issues| - 1]);
      var issue := issues[|issues| - 1].node;
      var events := EventRecords(issue.timelineItems);
      if front.Err? then front
      else if events.Err? then Err(events.error)
      else Ok(front.value + [IssueRecord(issue)] + events.value)
  }

  /** Every qualifying event of every issue has a complete source. */
  predicate AllComplete(issues: seq<Edge<IssueNode>>)
  {
    forall k, j :: 0 <= k < |issues| && 0 <= j < |issues[k].node.timelineItems| ==>
      Complete(issues[k].node.timelineItems[j].node)
  }

  /** The number of qualifying events over all issues. */
  function QualifyingCount(issues: seq<Edge<IssueNode>>): nat
  {
    if issues == [] then 0 else
      QualifyingCount(issues[..|issues| - 1]) + |Filter(Nodes(issues[|issues| - 1].node.timelineItems), Qualifies)|
  }

  /** The events of an issue succeed exactly when each is complete, and then
      give, in order, the records of exactly the qualifying events. */
  lemma {:induction false} EventRecordsExactly(events: seq<Edge<EventNode>>)
    ensures EventRecords(events).Ok? <==> forall j :: 0 <= j < |events| ==> Complete(events[j].node)
    ensures EventRecords(events).Ok? ==>
      var qualifying := Filter(Nodes(events), Qualifies);
      && |EventRecords(events).value| == |qualifying|
      && forall i :: 0 <= i < |qualifying| ==>
           Qualifies(qualifying[i]) && Complete(qualifying[i]) && EventRecords(events).value[i] == SourceRecord(qualifying[i])
  {
    if events != [] {
      var front := events[..|events| - 1];
      var ev := events[|events| - 1].node;
      EventRecordsExactly(front);
      assert Nodes(front) == Nodes(events)[..|events| - 1];
      assert forall j :: 0 <= j < |front| ==> front[j] == events[j];
      var qualifying := Filter(Nodes(events), Qualifies);
      var before := Filter(Nodes(front), Qualifies);
      if EventRecords(events).Ok? {
        if Qualifies(ev) {
          assert qualifying == before + [ev];
        } else {
          assert qualifying == before;
        }
      }
    }
  }

  /** The pre-sort list exists exactly when no lookup fails. */
  lemma {:induction false} EmittedOk(issues: seq<Edge<IssueNode>>)
    ensures Emitted(issues).Ok? <==> AllComplete(issues)
  {
    if issues != [] {
      var front := issues[..|issues| - 1];
      var last := issues[|issues| - 1].node;
      EmittedOk(front);
      EventRecordsExactly(last.timelineItems);
      assert forall k :: 0 <= k < |front| ==> front[k] == issues[k];
      if AllComplete(front) && (forall j :: 0 <= j < |last.timelineItems| ==> Complete(last.timelineItems[j].node)) {
        assert AllComplete(issues);
      }
    }
  }

  /** The pre-sort list holds one record per issue and one per qualifying event. */
  lemma {:induction false} EmittedLength(issues: seq<Edge<IssueNode>>)
    requires Emitted(issues).Ok?
    ensures |Emitted(issues).value| == |issues| + QualifyingCount(issues)
  {
    if issues != [] {
      EmittedLength(issues[..|issues| - 1]);
      EventRecordsExactly(issues[|issues| - 1].node.timelineItems);
    }
  }

  /** Issue k's records come after those of the issues before it and start
      with the issue's own title, creation time and url. */
  lemma {:induction false} EmittedIssueRecord(issues: seq<Edge<IssueNode>>, k: nat)
    requires Emitted(issues).Ok?
    requires k < |issues|
    ensures Emitted(issues[..k]).Ok?
    ensures |Emitted(issues[..k]).value| < |Emitted(issues).value|
    ensures Emitted(issues).value[..|Emitted(issues[..k]).value|] == Emitted(issues[..k]).value
    ensures Emitted(issues).value[|Emitted(issues[..k]).value|] == IssueRecord(issues[k].node)
  {
    var front := issues[..|issues| - 1];
    if k == |issues| - 1 {
      assert issues[..k] == front;
    } else {
      assert front[..k] == issues[..k];
      EmittedIssueRecord(front, k);
    }
  }

  /** `generate_summary`: the nested loops append the records, then the list
      is sorted by `createdAt` with Python's stable sort, modelled by `SortBy`.
      A `KeyError` from the loops is the error result. */
  method GenerateSummary(issues: seq<Edge<IssueNode>>) returns (r: Result<seq<Record>, Error>)
    ensures r.Err? <==> Emitted(issues).Err?
    ensures r.Err? ==> r.error == Emitted(issues).error
    ensures r.Ok? ==>
      && Sorted(r.value, CreatedAt)
      && multiset(r.value) == multiset(Emitted(issues).value)
      && StableFor(r.value, Emitted(issues).value, CreatedAt)
  {
    var summary: seq<Record> := [];
    for k := 0 to |issues|
      invariant Emitted(issues[..k]) == Ok(summary)
    {
      var issue := issues[k].node;
      var records := AppendEvents(summary + [IssueRecord(issue)], issue.timelineItems);
      assert issues[..k + 1][..k] == issues[..k];
      if records.Err? {
        EmittedErr(issues, k + 1);
        return Err(records.error);
      }
      summary := records.value;
    }
    assert issues[..|issues|] == issues;
    SortBySorted(summary, CreatedAt);
    SortByPermutes(summary, CreatedAt);
    SortByStable(summary, CreatedAt);
    summary := SortBy(summary, CreatedAt);
    r := Ok(summary);
  }

  /** A failure among the first k issues is the failure of all of them. */
  lemma {:induction false} EmittedErr(issues: seq<Edge<IssueNode>>, k: nat)
    requires k <= |issues|
    requires Emitted(issues[..k]).Err?
    ensures Emitted(issues) == Emitted(issues[..k])
  {
    if k < |issues| {
      var front := issues[..|issues| - 1];
      assert front[..k] == issues[..k];
      EmittedErr(front, k);
    } else {
      assert issues[..k] == issues;
    }
  }

  /** The inner loop of `generate_summary` for one issue's events. */
  method AppendEvents(summary: seq<Record>, events: seq<Edge<EventNode>>) returns (r: Result<seq<Record>, Error>)
    ensures EventRecords(events).Err? ==> r == Err(EventRecords(events).error)
    ensures EventRecords(events).Ok? ==> r == Ok(summary + EventRecords(events).value)
  {
    var records := summary;
    for j := 0 to |events|
      invariant EventRecords(events[..j]).Ok?
      invariant records == summary + EventRecords(events[..j]).value
    {
      var node := events[j].node;
      assert events[..j + 1][..j] == events[..j];
      if node.source.Some? && "title" in node.source.value {
        var src := node.source.value;
        if "createdAt" !in src {
          EventRecordsErr(events, j + 1);
          return Err(KeyError("createdAt"));
        }
        if "url" !in src {
          EventRecordsErr(events, j + 1);
          return Err(KeyError("url"));
        }
        records := records + [Record(src["title"], src["createdAt"], src["url"])];
      }
    }
    assert events[..|events|] == events;
    r := Ok(records);
  }

  /** A failure among the first j events is the failure of all of them. */
  lemma {:induction false} EventRecordsErr(events: seq<Edge<EventNode>>, j: nat)
    requires j <= |events|
    requires EventRecords(events[..j]).Err?
    ensures EventRecords(events) == EventRecords(events[..j])
  {
    if j < |events| {
      var front := events[..|events| - 1];
      assert front[..j] == events[..j];
      EventRecordsErr(front, j);
    } else {
      assert events[..j] == events;
    }
  }

  /** `main` without argument parsing, rendering and file I/O:
      `get_issues_and_pull_requests` splits the repository into owner and name
      (failing unless there is exactly one '/'), and `fetch` stands for the
      request, answering the issue edges of that repository; the summary is
      then generated from them. */
  method Run(repository: string, fetch: (string, string) -> seq<Edge<IssueNode>>)
    returns (r: Result<seq<Record>, Error>)
    ensures Count(repository, '/') != 1 ==> r == Err(MalformedRepository(Count(repository, '/') + 1))
    ensures Count(repository, '/') == 1 ==>
      var (owner, name) := OwnerAndName(repository).value;
      var emitted := Emitted(fetch(owner, name));
      && repository == owner + "/" + name
      && (r.Err? <==> emitted.Err?)
      && (r.Err? ==> r.error == emitted.error)
      && (r.Ok? ==>
            && Sorted(r.value, CreatedAt)
            && multiset(r.value) == multiset(emitted.value)
            && StableFor(r.value, emitted.value, CreatedAt))
  {
    var split := OwnerAndName(repository);
    if split.Err? {
      return Err(split.error);
    }
    var issues := fetch(split.value.0, split.value.1);
    r := GenerateSummary(issues);
  }
}
