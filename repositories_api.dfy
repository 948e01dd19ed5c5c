/**
 * The repositories endpoint: it keeps the public, unarchived repositories
 * owned by the site's account from a GraphQL listing, in their listed order.
 */
module RepositoriesApi {
  import opened Wrappers

  /** One node of `user.repositories.nodes`. */
  datatype RepoNode = RepoNode(name: string, isPrivate: bool, isArchived: bool, ownerLogin: string)

  /** The account whose repositories are shown. */
  const Owner := "tmickleydoyle"

  /** What an API handler answers: a status with a JSON body, or a thrown error. */
  datatype ApiReply<T> = Replied(status: int, body: T) | Threw

  /** `!repo.isPrivate && !repo.isArchived && repo.owner.login === 'tmickleydoyle'`. */
  predicate Listed(r: RepoNode)
  {
    !r.isPrivate && !r.isArchived && r.ownerLogin == Owner
  }

  /** `nodes.filter(...)`. */
  function PublicRepos(nodes: seq<RepoNode>): (out: seq<RepoNode>)
    ensures |out| <= |nodes|
    ensures forall r :: r in out ==> Listed(r) && r in nodes
    ensures forall r :: r in nodes && Listed(r) ==> r in out
  {
    if nodes == [] then []
    else if Listed(nodes[0]) then [nodes[0]] + PublicRepos(nodes[1..])
    else PublicRepos(nodes[1..])
  }

  /** a can be obtained from b by deleting elements: b keeps a's elements in a's order. */
  predicate IsSubsequence<T(==)>(a: seq<T>, b: seq<T>)
    decreases |b|
  {
    if a == [] then true
    else if b == [] then false
    else if a[0] == b[0] then IsSubsequence(a[1..], b[1..])
    else IsSubsequence(a, b[1..])
  }

  /** The filter keeps the listed order: its output is a subsequence of its input. */
  lemma {:induction false} PublicReposIsSubsequence(nodes: seq<RepoNode>)
    ensures IsSubsequence(PublicRepos(nodes), nodes)
  {
    if nodes != [] {
      PublicReposIsSubsequence(nodes[1..]);
      if !Listed(nodes[0]) {
        SubsequenceOfTail(PublicRepos(nodes[1..]), nodes[0], nodes[1..]);
      }
    }
  }

  /** A subsequence of a tail is a subsequence of the whole. */
  lemma {:induction false} SubsequenceOfTail<T>(a: seq<T>, x: T, b: seq<T>)
    requires IsSubsequence(a, b)
    ensures IsSubsequence(a, [x] + b)
    decreases |b|, 1
  {
    if a != [] && a[0] == x {
      SubsequenceDropHead(a, b);
      assert ([x] + b)[1..] == b;
    } else if a != [] {
      assert ([x] + b)[1..] == b;
    }
  }

  /** Dropping the head of a subsequence leaves a subsequence. */
  lemma {:induction false} SubsequenceDropHead<T>(a: seq<T>, b: seq<T>)
    requires a != [] && IsSubsequence(a, b)
    ensures IsSubsequence(a[1..], b)
    decreases |b|, 0
  {
    if a[0] == b[0] {
      SubsequenceOfTail(a[1..], b[0], b[1..]);
      assert [b[0]] + b[1..] == b;
    } else {
      SubsequenceDropHead(a, b[1..]);
      SubsequenceOfTail(a[1..], b[0], b[1..]);
      assert [b[0]] + b[1..] == b;
    }
  }

  /** Filtering the output again changes nothing. */
  lemma {:induction false} PublicReposIdempotent(nodes: seq<RepoNode>)
    ensures PublicRepos(PublicRepos(nodes)) == PublicRepos(nodes)
  {
    if nodes != [] {
      PublicReposIdempotent(nodes[1..]);
      if Listed(nodes[0]) {
        assert ([nodes[0]] + PublicRepos(nodes[1..]))[1..] == PublicRepos(nodes[1..]);
      }
    }
  }

  /** Filtering a concatenation filters each part. */
  lemma {:induction false} PublicReposAppend(a: seq<RepoNode>, b: seq<RepoNode>)
    ensures PublicRepos(a + b) == PublicRepos(a) + PublicRepos(b)
  {
    if a != [] {
      assert (a + b)[1..] == a[1..] + b;
      PublicReposAppend(a[1..], b);
    } else {
      assert a + b == b;
    }
  }

  /**
   * `handler(req, res)` given the node list of the GraphQL answer, or `None`
   * when the answer has no `data.user.repositories.nodes` (reading it throws).
   * It always answers with status 200.
   */
  function Handler(nodes: Option<seq<RepoNode>>): (reply: ApiReply<seq<RepoNode>>)
    ensures nodes.None? <==> reply.Threw?
    ensures nodes.Some? ==> reply == Replied(200, PublicRepos(nodes.value))
  {
    match nodes
    case None => Threw
    case Some(ns) => Replied(200, PublicRepos(ns))
  }
}
