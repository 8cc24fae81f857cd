/** The list shown to the user: recommendations when there are any, else
    the search results; one entry per (name, artist) pair, first occurrence
    kept; shuffled; at most fifteen. The shuffle is a caller-supplied
    permutation of positions. */
module Present {
  import opened Text
  import opened Catalog

  const ShownLimit := 15

  /** `if reco: results = reco`: recommendations win when non-empty. */
  function ChooseResults(search: seq<Track>, reco: seq<Track>): seq<Track>
  {
    if reco != [] then reco else search
  }

  /** A bijection of the positions 0 .. n-1. */
  ghost predicate IsPermutation(perm: seq<nat>, n: nat)
  {
    && |perm| == n
    && (forall i :: 0 <= i < n ==> perm[i] < n)
    && (forall i, j :: 0 <= i < j < n ==> perm[i] != perm[j])
    && (forall k :: 0 <= k < n ==> k in perm)
  }

  /** The element at position i of the result is the one at position perm[i]
      of the input. */
  function Permute<T>(s: seq<T>, perm: seq<nat>): seq<T>
    requires |perm| == |s| && forall i :: 0 <= i < |perm| ==> perm[i] < |s|
  {
    seq(|s|, i requires 0 <= i < |s| => s[perm[i]])
  }

  /** A shuffle rearranges: same length, the same elements in both
      directions, and distinct keys stay distinct. */
  lemma PermuteRearranges<T, K>(s: seq<T>, perm: seq<nat>, key: T -> K)
    requires IsPermutation(perm, |s|)
    ensures |Permute(s, perm)| == |s|
    ensures forall x :: x in Permute(s, perm) <==> x in s
    ensures DistinctBy(s, key) ==> DistinctBy(Permute(s, perm), key)
  {
    var r := Permute(s, perm);
    forall x | x in s ensures x in r {
      var k :| 0 <= k < |s| && s[k] == x;
      assert k in perm;
      var i :| 0 <= i < |s| && perm[i] == k;
      assert r[i] == x;
    }
    if DistinctBy(s, key) {
      forall i, j | 0 <= i < j < |r| ensures key(r[i]) != key(r[j]) {
        if perm[i] < perm[j] {
          assert key(s[perm[i]]) != key(s[perm[j]]);
        } else {
          assert key(s[perm[j]]) != key(s[perm[i]]);
        }
      }
    }
  }

  /** The specification of the shown list. */
  function ShownTracks(search: seq<Track>, reco: seq<Track>, perm: seq<nat>): seq<Track>
    requires IsPermutation(perm, |DedupBy(ChooseResults(search, reco), Key)|)
  {
    Take(Permute(DedupBy(ChooseResults(search, reco), Key), perm), ShownLimit)
  }

  /** Dedup over (name, artist) through a `seen_keys` set, shuffle, and the
      cut to fifteen. */
  method ShowList(search: seq<Track>, reco: seq<Track>, perm: seq<nat>) returns (shown: seq<Track>)
    requires IsPermutation(perm, |DedupBy(ChooseResults(search, reco), Key)|)
    ensures shown == ShownTracks(search, reco, perm)
    ensures |shown| <= ShownLimit && DistinctBy(shown, Key)
  {
    var results := search;
    if reco != [] {
      results := reco;
    }
    var uniq := DedupLoop(results, Key);
    PermuteRearranges(uniq, perm, Key);
    var shuffled := Permute(uniq, perm);
    shown := Take(shuffled, ShownLimit);
  }

  /** The dedup keeps the first track of each (name, artist) pair, in input
      order, and every pair of the input is represented. */
  lemma DedupKeepsFirstOfEachKey(results: seq<Track>)
    ensures DedupBy(results, Key) == KeepFirst(results, Key, {})
    ensures IsSubseq(DedupBy(results, Key), results)
    ensures KeysOf(DedupBy(results, Key), Key) == KeysOf(results, Key)
    ensures DistinctBy(DedupBy(results, Key), Key)
  {
    DedupByKeepsFirst(results, Key);
    KeepFirstIsSubseq(results, Key, {});
    DedupByFacts(results, Key);
  }

  /** What the user sees: at most fifteen tracks, no two with the same
      (name, artist) pair, each taken from the recommendations when there
      were any and from the search results otherwise; fifteen exactly when
      there are at least fifteen distinct pairs, and every pair when there
      are fewer. */
  lemma ShownTracksFacts(search: seq<Track>, reco: seq<Track>, perm: seq<nat>)
    requires IsPermutation(perm, |DedupBy(ChooseResults(search, reco), Key)|)
    ensures var shown := ShownTracks(search, reco, perm);
            var uniq := DedupBy(ChooseResults(search, reco), Key);
            && |shown| <= ShownLimit
            && DistinctBy(shown, Key)
            && (reco != [] ==> forall t :: t in shown ==> t in reco)
            && (reco == [] ==> forall t :: t in shown ==> t in search)
            && (|uniq| >= ShownLimit ==> |shown| == ShownLimit)
            && (|uniq| <= ShownLimit ==> KeysOf(shown, Key) == KeysOf(ChooseResults(search, reco), Key))
  {
    var results := ChooseResults(search, reco);
    var uniq := DedupBy(results, Key);
    var shuffled := Permute(uniq, perm);
    var shown := ShownTracks(search, reco, perm);
    DedupByFacts(results, Key);
    PermuteRearranges(uniq, perm, Key);
    forall t | t in shown ensures t in results {
      assert t in shuffled;
    }
    if |uniq| <= ShownLimit {
      assert shown == shuffled;
      assert KeysOf(shown, Key) == KeysOf(uniq, Key);
    }
  }
}
