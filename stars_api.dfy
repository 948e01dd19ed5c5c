/**
 * The stars endpoint: for each repository returned by the repositories
 * endpoint, in order, it asks GitHub for the star count and keeps the
 * repositories that have at least one star.
 */
module StarsApi {
  import opened Wrappers
  import RepositoriesApi

  /** One entry of the answer: `{ name, stars }`. */
  datatype RepoStars = RepoStars(name: string, stars: int)

  /**
   * The answer for the repositories listed before position |repos|, computed
   * from the front as the loop does. `countFor` gives the
   * `repository.stargazers.totalCount` answered for a repository name, or
   * `None` when the answer has no such path (reading it throws).
   */
  function StarsOf(repos: seq<RepositoriesApi.RepoNode>, countFor: string -> Option<int>): Option<seq<RepoStars>>
  {
    if repos == [] then Some([])
    else
      match StarsOf(repos[..|repos| - 1], countFor)
      case None => None
      case Some(s) =>
        var last := repos[|repos| - 1];
        match countFor(last.name)
        case None => None
        case Some(c) => Some(if c > 0 then s + [RepoStars(last.name, c)] else s)
  }

  /** The positions of the repositories whose star count is positive, in increasing order. */
  function PositiveIndices(repos: seq<RepositoriesApi.RepoNode>, countFor: string -> Option<int>): (idx: seq<nat>)
    ensures forall k :: 0 <= k < |idx| ==> idx[k] < |repos|
    ensures forall k, l :: 0 <= k < l < |idx| ==> idx[k] < idx[l]
    ensures forall j :: 0 <= j < |repos| ==> (j in idx <==> countFor(repos[j].name).Some? && countFor(repos[j].name).value > 0)
    ensures |idx| <= |repos|
  {
    if repos == [] then []
    else
      var n := |repos| - 1;
      var prev := PositiveIndices(repos[..n], countFor);
      var c := countFor(repos[n].name);
      if c.Some? && c.value > 0 then prev + [n] else prev
  }

  /** A failed count anywhere fails the whole answer. */
  lemma {:induction false} StarsOfFails(repos: seq<RepositoriesApi.RepoNode>, countFor: string -> Option<int>)
    ensures StarsOf(repos, countFor).None? <==> exists j :: 0 <= j < |repos| && countFor(repos[j].name).None?
  {
    if repos != [] {
      var n := |repos| - 1;
      StarsOfFails(repos[..n], countFor);
      if exists j :: 0 <= j < n && countFor(repos[..n][j].name).None? {
        var j :| 0 <= j < n && countFor(repos[..n][j].name).None?;
        assert repos[j] == repos[..n][j];
      }
      if exists j :: 0 <= j < |repos| && countFor(repos[j].name).None? {
        var j :| 0 <= j < |repos| && countFor(repos[j].name).None?;
        if j < n {
          assert repos[..n][j] == repos[j];
        }
      }
    }
  }

  /**
   * When every count is answered, the result lists, in input order, exactly the
   * repositories with a positive count, each once, with its own name and count.
   */
  lemma {:induction false} StarsOfEntries(repos: seq<RepositoriesApi.RepoNode>, countFor: string -> Option<int>)
    requires StarsOf(repos, countFor).Some?
    ensures var s := StarsOf(repos, countFor).value;
            var idx := PositiveIndices(repos, countFor);
            && |s| == |idx|
            && forall k :: 0 <= k < |s| ==> s[k] == RepoStars(repos[idx[k]].name, countFor(repos[idx[k]].name).value)
  {
    if repos != [] {
      var n := |repos| - 1;
      var prefix := repos[..n];
      StarsOfEntries(prefix, countFor);
      var s := StarsOf(repos, countFor).value;
      var idx := PositiveIndices(repos, countFor);
      var ps := StarsOf(prefix, countFor).value;
      var pidx := PositiveIndices(prefix, countFor);
      forall k | 0 <= k < |pidx| ensures repos[pidx[k]] == prefix[pidx[k]] {
      }
    }
  }

  /** Every entry has at least one star, and there are no more entries than repositories. */
  lemma StarsOfPositive(repos: seq<RepositoriesApi.RepoNode>, countFor: string -> Option<int>)
    requires StarsOf(repos, countFor).Some?
    ensures forall e :: e in StarsOf(repos, countFor).value ==> e.stars > 0
    ensures |StarsOf(repos, countFor).value| <= |repos|
  {
    StarsOfEntries(repos, countFor);
    var s := StarsOf(repos, countFor).value;
    var idx := PositiveIndices(repos, countFor);
    forall e | e in s ensures e.stars > 0 {
      var k :| 0 <= k < |s| && s[k] == e;
      assert idx[k] in idx;
    }
  }

  /** The loop of `handler`: one star-count request per repository, in order, keeping the positive ones. */
  method CollectStars(repos: seq<RepositoriesApi.RepoNode>, countFor: string -> Option<int>)
    returns (result: Option<seq<RepoStars>>)
    ensures result == StarsOf(repos, countFor)
  {
    var repoStars: seq<RepoStars> := [];
    var i := 0;
    while i < |repos|
      invariant 0 <= i <= |repos|
      invariant StarsOf(repos[..i], countFor) == Some(repoStars)
    {
      assert repos[..i + 1][..i] == repos[..i];
      var count := countFor(repos[i].name);
      if count.None? {
        StarsOfFails(repos, countFor);
        return None;
      }
      if count.value > 0 {
        repoStars := repoStars + [RepoStars(repos[i].name, count.value)];
      }
      i := i + 1;
    }
    assert repos[..i] == repos;
    return Some(repoStars);
  }

  /** `handler(req, res)`: status 200 with the collected entries, or the thrown error. */
  method Handler(repos: seq<RepositoriesApi.RepoNode>, countFor: string -> Option<int>)
    returns (reply: RepositoriesApi.ApiReply<seq<RepoStars>>)
    ensures StarsOf(repos, countFor).Some? ==> reply == RepositoriesApi.Replied(200, StarsOf(repos, countFor).value)
    ensures StarsOf(repos, countFor).None? ==> reply == RepositoriesApi.Threw
  {
    var stars := CollectStars(repos, countFor);
    if stars.None? {
      return RepositoriesApi.Threw;
    }
    return RepositoriesApi.Replied(200, stars.value);
  }
}
