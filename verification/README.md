# nlstory2 scripts: a verified model of their core

The `scripts/` of nlstory2 query GitHub's GraphQL API for a repository's
commits, pull requests and issues. They turn the answers into an HTML page or
a text summary. This project models, in Dafny, the logic those scripts have
once the network, the JSON decoder and the template engine are set aside:

- **Cursor pagination.** `commit_history.py`, `generate_commits_html.py` and
  `generate_commit_history.py` each request pages from a null cursor on. They
  collect each page's edges and continue with the page's `endCursor` while the
  page reports `hasNextPage`. `commit_history.py` also raises on any status
  other than 200. The server is an oracle `respond` from the request variables
  to a `Page` (module `Pagination`). Each loop is a method that returns the
  request log `sent` it produced. Its contract says three things:
  - `sent` follows the cursor chain;
  - `sent` stops at the first last page (or failure);
  - the result is the concatenation of the pages' edges in request order.
- **Event normalisation and chronological order.** `summary_generator.py`
  flattens each issue and the pull requests that cross-reference it into
  uniform `{title, createdAt, url}` records, filtering on key presence. It then
  stable-sorts them by `createdAt`. `generate_commits_html.py` sorts commits by
  author date in the same way. Timestamps are strings under the code-point
  lexicographic order `Ordering.LexLe`, which is proved to be a total order.
  `list.sort` is modelled by `Ordering.SortBy`, an insertion sort that is
  proved sorted, a permutation and stable.
- **Per-commit composition.** `commit_history.py` builds one HTML entry per
  commit from the commit, its first associated pull request and that pull
  request's first closing issue. It splices the entries into a template
  placeholder. `activity_summary.py` builds one text line per commit. The
  line adds the merged first pull request's body and the unmerged pull
  requests only when that first pull request is merged. Both are modelled as
  a list of blocks or segments and the exact text the f-strings give for
  each.

Python's `str.split('/')`, `str.join`, `str.replace`, `str(n)` and list
comprehensions are modelled in `Strings` and `Lists`. Split and join come with
round-trip lemmas in both directions, and `str(n)` reads back as `n`.
Replacement is characterised by what it does to a string without the pattern
and to the first occurrence. The comprehension filter is characterised by the
elements it keeps and by how it distributes over concatenation. The request
loops and the summary loops are imperative methods with loop invariants. The
per-commit builders are methods that append text step by step. Each method is
proved against the functions that specify it.

Only `commit_history.py` checks the HTTP status; `generate_commit_history.py`
and `generate_commits_html.py` read every response as a page.

## Model

| member | source | states |
|---|---|---|
| GitHub.OwnerAndName | scripts/summary_generator.py:40 | unpacking `repository.split('/')` into owner and name succeeds exactly when there is one '/'. The two parts joined by '/' give the repository back, and neither part holds a '/'. Otherwise the error carries the number of parts |
| GitHub.Nodes | scripts/generate_commits_html.py:78-80 | the nodes of the edges, one per edge, in order |
| GitHub.NodesConcat | scripts/generate_commits_html.py:78-80 | taking nodes distributes over concatenation of edge lists |
| Strings.Split | scripts/summary_generator.py:40 | `str.split` with a one-character separator: the maximal runs between separators, at least one part (an empty string gives one empty part) |
| Strings.Join | scripts/activity_summary.py:119 | `sep.join(parts)`: the parts with the separator between neighbours; the result starts with the first part, followed by the separator when there is a second |
| Strings.Replace | scripts/commit_history.py:119 | `str.replace` for a non-empty pattern: every occurrence, scanned left to right without overlap, replaced; a replacement as long as the pattern keeps the length |
| Strings.DecimalString | scripts/commit_history.py:102 | `str(n)` in the `#{number}` field: a leading '-' exactly for negative numbers, then decimal digits that read back as the absolute value, with no leading zero unless the number is 0 |
| Strings.DigitChar | scripts/commit_history.py:102 | the character of one decimal digit, which reads back as that digit |
| Strings.DigitsValue | scripts/commit_history.py:102 | the digits of a natural number read back as that number and have no leading zero unless it is 0 |
| Strings.SplitParts | scripts/summary_generator.py:40 | `split` gives one more part than there are separators, and no part holds the separator |
| Strings.JoinSplit | scripts/summary_generator.py:40 | joining the parts of a split with the separator restores the string |
| Strings.SplitJoin | scripts/summary_generator.py:40 | splitting the join of separator-free parts restores the parts |
| Strings.ReplaceAbsent | scripts/commit_history.py:119 | `replace` leaves a string without the pattern unchanged |
| Strings.ReplaceFirst | scripts/commit_history.py:119 | the first occurrence of the pattern is replaced and the text before it is kept |
| Strings.ReplaceOnce | scripts/commit_history.py:119 | a template holding the placeholder exactly once becomes the text around it with the replacement in its place |
| Lists.Filter | scripts/activity_summary.py:117 | `[x for x in s if p(x)]`: the elements satisfying the condition, in their order, never more than the input |
| Lists.FilterMembers | scripts/activity_summary.py:117 | a comprehension with a condition keeps exactly the elements satisfying it |
| Lists.FilterConcat | scripts/activity_summary.py:117 | filtering distributes over concatenation |
| Ordering.LexLe | scripts/summary_generator.py:68 | Python's `<=` on strings: code point by code point, a prefix first; so a prefix is never greater, and a smaller first character decides |
| Ordering.LexLeReflexive | scripts/summary_generator.py:68 | the string order used as sort key is reflexive |
| Ordering.LexLeAntisymmetric | scripts/summary_generator.py:68 | the string order is antisymmetric |
| Ordering.LexLeTransitive | scripts/summary_generator.py:68 | the string order is transitive |
| Ordering.LexLeTotal | scripts/summary_generator.py:68 | the string order is total |
| Ordering.LexLt | scripts/summary_generator.py:68 | Python's `<` on strings, which decides where `list.sort` moves an element: `a < b` exactly when not `b <= a` |
| Ordering.SortBy | scripts/generate_commits_html.py:100 | the result of `list.sort(key=...)`: each element inserted after every earlier one whose key is not greater; same length as the input |
| Ordering.InsertPermutes | scripts/summary_generator.py:68 | one insertion step adds exactly the inserted element |
| Ordering.InsertSorted | scripts/summary_generator.py:68 | inserting into a sorted list keeps it sorted |
| Ordering.InsertFilter | scripts/summary_generator.py:68 | for a selection within one key class, inserting an element appends it after the selected elements already there |
| Ordering.SortBySorted | scripts/summary_generator.py:68 | the sorted list is in non-decreasing key order |
| Ordering.SortByPermutes | scripts/summary_generator.py:68 | sorting adds and loses nothing (multiset equality) |
| Ordering.SortByStable | scripts/summary_generator.py:68 | elements with equal keys keep their relative order, for every selection within one key class |
| Ordering.SortByFilter | scripts/generate_commits_html.py:100 | for one selection within a key class, its elements appear in the same order before and after sorting |
| Pagination.RequestAt | scripts/commit_history.py:65-78 | request k carries the owner and name; the first request has a null cursor |
| Pagination.FollowsCursorsAt | scripts/commit_history.py:65-78 | in a run, the first request has a null cursor and request k+1 carries the `endCursor` of page k |
| Pagination.FollowsCursorsSnoc | scripts/commit_history.py:69-78 | sending the chain's next request keeps the run on the chain; the request after it carries that page's `endCursor` |
| Pagination.RequestCount | scripts/commit_history.py:76-77 | a run that stops at its last page sends as many requests as the index of the first last page in the chain, plus one |
| Pagination.RequestLogUnique | scripts/generate_commit_history.py:77-78 | two runs against the same server send the same requests |
| Pagination.Gathered | scripts/commit_history.py:74 | the list `commits.extend` builds: the edges of the pages answering the sent requests, concatenated in request order, starting with the first page's edges |
| Pagination.GatheredSnoc | scripts/commit_history.py:74 | one more request extends the result by exactly its page's edges |
| GenerateCommitHistory.GetCommitHistory | scripts/generate_commit_history.py:66-81 | a malformed repository is an error with no request sent. Otherwise the requests follow the cursor chain and stop at the first last page, and the result is every page's edges in request order, not reordered |
| GenerateCommitHistory.FetchHistory | scripts/generate_commit_history.py:67-81 | the loop follows the cursor chain and stops at the first last page; its result is the pages' edges in request order |
| GenerateCommitsHtml.GetCommits | scripts/generate_commits_html.py:69-85 | as above, but the result is the nodes of the edges, in page order |
| GenerateCommitsHtml.FetchNodes | scripts/generate_commits_html.py:70-85 | the loop's result is the nodes of every fetched page's edges, in page order |
| GenerateCommitsHtml.AppendNodes | scripts/generate_commits_html.py:78-80 | the inner loop appends the nodes of the page's edges, in order |
| GenerateCommitsHtml.CommitsForPage | scripts/generate_commits_html.py:93-100 | a missing or empty token fails before any request. Otherwise the commits are in non-decreasing author-date order, are a permutation of the fetched ones, and commits with equal dates keep fetch order |
| CommitHistory.GetCommits | scripts/commit_history.py:64-80 | the requests follow the cursor chain. They stop at the first page that is not status 200 or has no next page. A non-200 status is an error carrying it, with the gathered edges discarded; otherwise the result is every page's edges in request order |
| CommitHistory.FetchChecked | scripts/commit_history.py:65-80 | the status-checking loop, with the same statement for a given owner and name |
| CommitHistory.FirstPullRequest | scripts/commit_history.py:89 | `pr_data`: present exactly when the commit has an associated pull request, and then the first one |
| CommitHistory.FirstClosingIssue | scripts/commit_history.py:90 | `issue_data`: present exactly when there is a pull request and it closes an issue, and then the first one |
| CommitHistory.EntryBlocks | scripts/commit_history.py:89-116 | an entry is the commit block, a pull-request block exactly when there is an associated pull request (first edge, "Yes" exactly when merged, else "No"), an issue block exactly when that pull request closes an issue (first edge), then the closing tag, in that order |
| CommitHistory.BlockText | scripts/commit_history.py:92-116 | the literal text of each f-string with the fields interpolated; "</div>" exactly for the closing tag |
| CommitHistory.EntryText | scripts/commit_history.py:92-116 | `commit_entry` for one commit, which always ends with the closing "</div>" |
| CommitHistory.EntryTexts | scripts/commit_history.py:86-117 | one entry per commit, in input order |
| CommitHistory.EntryTextParts | scripts/commit_history.py:92-116 | an entry's text is the text of each block present, one after another |
| CommitHistory.Entry | scripts/commit_history.py:88-117 | the `+=` construction of one entry gives that commit's entry text |
| CommitHistory.GenerateHtml | scripts/commit_history.py:86-119 | the page is the template with every occurrence of the placeholder replaced by the entries joined with newlines; a template without the placeholder is unchanged |
| CommitHistory.Run | scripts/commit_history.py:130-135 | no token fails before any request; a failed fetch is the error; otherwise the page is rendered from exactly the fetched commits |
| ActivitySummary.UnmergedPullRequests | scripts/activity_summary.py:117 | the unmerged list: none of its pull requests is merged, and it has at most as many as there are associated ones |
| ActivitySummary.UnmergedExactly | scripts/activity_summary.py:117 | the unmerged list holds exactly the associated pull requests with `merged` false |
| ActivitySummary.LineSegments | scripts/activity_summary.py:109-120 | a line has 1 to 4 segments and starts with the commit's message, author name and date |
| ActivitySummary.LineSegmentsShape | scripts/activity_summary.py:109-120 | segments are in a fixed order, each kind at most once. A PR segment appears exactly when there is an associated pull request, built from the first. An issue segment appears exactly when that one is merged. The unmerged segment appears exactly when it is merged and the unmerged list is non-empty |
| ActivitySummary.SegmentText | scripts/activity_summary.py:109-120 | the literal text of each f-string with the fields interpolated: a commit segment starts with "Commit: "; the others start with the separator bar and then "PR: ", "Issue: " or "Unmerged PRs: " |
| ActivitySummary.Labels | scripts/activity_summary.py:119 | one "title by login" label per pull request, in order |
| ActivitySummary.LineText | scripts/activity_summary.py:109-120 | `commit_summary` for one commit, which begins with "Commit: {message} by {name} on {date}" |
| ActivitySummary.Line | scripts/activity_summary.py:108-121 | the `+=` construction of one line gives that commit's line text |
| ActivitySummary.Append | scripts/activity_summary.py:113-120 | appending a segment's text extends the rendered line by that segment |
| ActivitySummary.SummaryLines | scripts/activity_summary.py:105-121 | one line per commit edge, in input order |
| ActivitySummary.GenerateSummary | scripts/activity_summary.py:104-122 | the loop produces exactly the lines of the commits, one per commit, in order |
| ActivitySummary.Run | scripts/activity_summary.py:100 | formatting the query fails exactly when the repository does not split into two parts; otherwise the summary is that of the fetched history |
| SummaryGenerator.IssueRecord | scripts/summary_generator.py:56-60 | an issue's record carries the issue's own title, creation time and url |
| SummaryGenerator.Qualifies | scripts/summary_generator.py:62 | an event qualifies only when its node has a source and that source has a title |
| SummaryGenerator.SourceRecord | scripts/summary_generator.py:63-67 | a qualifying event's record carries its source's title, creation time and url |
| SummaryGenerator.EventRecord | scripts/summary_generator.py:61-67 | an event succeeds exactly when its source is complete. It gives a record exactly when it has a source with a title, and that record is built from the source |
| SummaryGenerator.EventRecords | scripts/summary_generator.py:61-67 | the records the inner loop appends for one issue's events, in order, at most one per event, or a `KeyError` when some event is incomplete |
| SummaryGenerator.Emitted | scripts/summary_generator.py:54-67 | the list before sorting: for each issue its own record and then its events' records, starting with the first issue's record; or the first `KeyError` |
| SummaryGenerator.EventRecordsExactly | scripts/summary_generator.py:61-67 | an issue's events succeed exactly when each is complete. They then give, in order, the records of exactly the qualifying events |
| SummaryGenerator.EmittedOk | scripts/summary_generator.py:61-67 | the pre-sort list exists exactly when every qualifying event has `createdAt` and `url` |
| SummaryGenerator.EmittedLength | scripts/summary_generator.py:54-67 | the pre-sort list has one record per issue plus one per qualifying event |
| SummaryGenerator.EmittedIssueRecord | scripts/summary_generator.py:55-60 | each issue's records follow those of earlier issues and start with the issue's own title, creation time and url |
| SummaryGenerator.GenerateSummary | scripts/summary_generator.py:53-69 | a missing key is the error. Otherwise the summary is sorted by `createdAt`, is a permutation of the emitted records, and keeps emission order among equal timestamps |
| SummaryGenerator.AppendEvents | scripts/summary_generator.py:61-67 | the inner loop appends exactly the records of the issue's events, or fails with their first `KeyError` |
| SummaryGenerator.Run | scripts/summary_generator.py:40-49 | a repository that does not split into two parts is an error; otherwise the summary is generated from the fetched issues |

## Left out

- HTTP requests, `response.json()`, `os.getenv`, argparse and every file read and write are left out. The server is the `respond` (or `fetch`) parameter, the token an `Option<string>` and the template a string parameter.
- The `Authorization` header is not passed to the oracle, so the model does not say which token the server sees.
- Jinja2 rendering in `generate_commits_html.py`, `generate_commit_history.py` and `summary_generator.py` is not part of this model; the model stops at the list handed to the template.
- `scripts/generate_summary.py`, `scripts/github_query.py`, `scripts/query_github.py`, `src/query_github.py`, `src/queryGithub.ts`, `src/main.ts` and `vite.config.ts` are not part of this model: each is a single request plus output, UI or build configuration.
- A server that never reports a last page is excluded by the `requires` of the pagination methods; the Python loops would then not terminate.
- Malformed responses (missing keys outside the cross-referenced event source, JSON `null` values, non-string timestamps) are not modelled; each record's fields are always present.
- Truthiness of an empty JSON object in `if pr_data:` is not modelled: any associated pull request or closing issue node counts as present.
- Exception classes and message texts (the query text in the non-200 message) are reduced to the `Error` datatype.
- The GraphQL query text and the HTML escaping of interpolated values are not modelled; the strings are interpolated as they are.
- `scripts/generate_commits_html.py:99` calls its sort chronological, but the sort key `author.date` is a git timestamp that carries the author's own UTC offset. Code-point order is then chronological only when the offsets agree. The model states the code-point order the code uses.
- `list.sort` is modelled by its result, an insertion sort with the same sorted, permutation and stability properties, not by Timsort's steps.
- Ordering.SortByStable: stability is stated as order preservation within every selection of one key class, not by tracking positions. The special case "an issue precedes its linked pull requests on a tie" follows from it for distinct records and is not stated separately.
- ActivitySummary.UnmergedExactly: states membership in both directions; the edge order of the unmerged list comes from the definition of `Lists.Filter`, not from a separate lemma.
- GenerateCommitsHtml.CommitsForPage: states sortedness, permutation and stability of the result rather than equality with `Ordering.SortBy` of the fetched commits.
