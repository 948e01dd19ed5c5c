/**
 * The stars chart: it copies the name and the star count of every entry of
 * the stars endpoint into two parallel arrays, then shows a bar chart of
 * reversed copies of the two arrays.
 */
module StarsChart {
  import opened Wrappers
  import StarsApi

  /** What the component renders. */
  datatype View = Loading | Bar(labels: seq<string>, values: seq<int>)

  /** `[...s].reverse()`: a reversed copy. */
  function Reverse<T>(s: seq<T>): (r: seq<T>)
    ensures |r| == |s|
    ensures forall k :: 0 <= k < |s| ==> r[k] == s[|s| - 1 - k]
  {
    if s == [] then [] else Reverse(s[1..]) + [s[0]]
  }

  /** Reversing twice gives back the original. */
  lemma ReverseInvolution<T>(s: seq<T>)
    ensures Reverse(Reverse(s)) == s
  {
    var r := Reverse(s);
    assert forall k :: 0 <= k < |s| ==> Reverse(r)[k] == r[|s| - 1 - k] == s[k];
  }

  /** The names of the entries, in order. */
  function Names(data: seq<StarsApi.RepoStars>): (ns: seq<string>)
    ensures |ns| == |data| && forall k :: 0 <= k < |data| ==> ns[k] == data[k].name
  {
    seq(|data|, k requires 0 <= k < |data| => data[k].name)
  }

  /** The star counts of the entries, in order. */
  function StarCounts(data: seq<StarsApi.RepoStars>): (cs: seq<int>)
    ensures |cs| == |data| && forall k :: 0 <= k < |data| ==> cs[k] == data[k].stars
  {
    seq(|data|, k requires 0 <= k < |data| => data[k].stars)
  }

  /** The component's state: the two parallel arrays and the chart flag. */
  class Stars {
    var labels: seq<string>
    var values: seq<int>
    var showStarsChart: bool

    /** The initial state: empty arrays, chart hidden. */
    constructor()
      ensures labels == [] && values == [] && !showStarsChart
    {
      labels := [];
      values := [];
      showStarsChart := false;
    }

    /**
     * `fetchStars()` given the endpoint's entries, or `None` when the fetch or
     * `res.json()` rejects (as it does on the error page of a failed endpoint):
     * the effect then throws before its first update, and the loading view
     * stays. Otherwise each entry's count and name are appended, then the
     * chart is shown.
     */
    method FetchStars(answer: Option<seq<StarsApi.RepoStars>>)
      modifies this
      ensures answer.None? ==> values == old(values) && labels == old(labels) && showStarsChart == old(showStarsChart)
      ensures answer.Some? ==> values == old(values) + StarCounts(answer.value)
      ensures answer.Some? ==> labels == old(labels) + Names(answer.value)
      ensures answer.Some? ==> showStarsChart
    {
      if answer.None? {
        return;
      }
      var data := answer.value;
      var i := 0;
      while i < |data|
        invariant 0 <= i <= |data|
        invariant values == old(values) + StarCounts(data[..i])
        invariant labels == old(labels) + Names(data[..i])
      {
        values := values + [data[i].stars];
        labels := labels + [data[i].name];
        assert StarCounts(data[..i + 1]) == StarCounts(data[..i]) + [data[i].stars];
        assert Names(data[..i + 1]) == Names(data[..i]) + [data[i].name];
        i := i + 1;
      }
      assert data[..i] == data;
      showStarsChart := true;
    }

    /** The loading view until the flag is set, then the chart of reversed copies (the state is only read). */
    function Render(): (v: View)
      reads this
      ensures !showStarsChart <==> v == Loading
      ensures showStarsChart ==> v == Bar(Reverse(labels), Reverse(values))
    {
      if !showStarsChart then Loading else Bar(Reverse(labels), Reverse(values))
    }
  }

  /**
   * After loading from the initial state, bar k of the chart is entry
   * |data| - 1 - k: its label and its value come from the same entry.
   */
  lemma ReversedBarsStayPaired(data: seq<StarsApi.RepoStars>, k: nat)
    requires k < |data|
    ensures Reverse(Names(data))[k] == data[|data| - 1 - k].name
    ensures Reverse(StarCounts(data))[k] == data[|data| - 1 - k].stars
    ensures |Reverse(Names(data))| == |Reverse(StarCounts(data))| == |data|
  {
  }
}
