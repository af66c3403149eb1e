/** The GraphQL records the scripts read (each a JSON object in the response,
    with the fields their queries ask for), the errors the scripts raise, and
    the `owner/name` split every script applies to its `--repository` flag. */
module GitHub {
  import opened Results
  import opened Strings

  /** `{"node": ...}`: one element of a GraphQL connection's `edges`. */
  datatype Edge<N> = Edge(node: N)

  datatype Author = Author(name: string, email: string, date: string)

  datatype Actor = Actor(login: string)

  datatype Issue = Issue(number: int, title: string, body: string, url: string, author: Actor)

  datatype PullRequest = PullRequest(
    number: int,
    title: string,
    body: string,
    merged: bool,
    url: string,
    state: string,
    author: Actor,
    closingIssuesReferences: seq<Edge<Issue>>)

  datatype Commit = Commit(
    oid: string,
    message: string,
    author: Author,
    associatedPullRequests: seq<Edge<PullRequest>>)

  /** The exceptions the scripts raise. */
  datatype Error =
    | MissingToken                     // GITHUB_TOKEN unset or empty
    | MalformedRepository(parts: nat)  // `owner, name = repository.split('/')` did not unpack
    | QueryFailed(status: int)         // the API answered with a status other than 200
    | KeyError(key: string)            // a dictionary lookup found no such key

  /** `owner, name = repository.split('/')`: succeeds exactly when the
      repository holds one '/', and then gives back the two sides of it. */
  function OwnerAndName(repository: string): (r: Result<(string, string), Error>)
    ensures r.Ok? <==> Count(repository, '/') == 1
    ensures r.Ok? ==> repository == r.value.0 + "/" + r.value.1
    ensures r.Ok? ==> '/' !in r.value.0 && '/' !in r.value.1
    ensures r.Err? ==> r.error == MalformedRepository(Count(repository, '/') + 1)
  {
    var parts := Split(repository, '/');
    SplitParts(repository, '/');
    JoinSplit(repository, '/');
    if |parts| == 2 then
      assert parts[1..] == [parts[1]];
      Ok((parts[0], parts[1]))
    else
      Err(MalformedRepository(|parts|))
  }

  /** The nodes of a list of edges, in order (`[edge['node'] for edge in edges]`). */
  function Nodes<N>(edges: seq<Edge<N>>): (r: seq<N>)
    ensures |r| == |edges|
    ensures forall i :: 0 <= i < |edges| ==> r[i] == edges[i].node
  {
    seq(|edges|, i requires 0 <= i < |edges| => edges[i].node)
  }

  lemma NodesConcat<N>(a: seq<Edge<N>>, b: seq<Edge<N>>)
    ensures Nodes(a + b) == Nodes(a) + Nodes(b)
  {
  }
}
