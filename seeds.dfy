/** Seeds for the recommendation request: catalog ids cleaned by
    `_clean_ids`, and genre tokens derived from the search tags. */
module Seeds {
  import opened Text
  import opened Tags

  /** `x and len(x) == 22`: a non-empty, 22-character catalog id. A missing
      id (`None`) is modelled by the empty string, which the same test
      rejects. */
  predicate IsSeedId(x: string)
  {
    |x| > 0 && |x| == 22
  }

  /** What `_clean_ids(ids, k)` returns: the valid ids, first occurrences
      only, cut after `k`. The length test runs after each element, so for
      `k <= 0` the first element is still taken in when valid. */
  function CleanedIds(ids: seq<string>, k: int): seq<string>
  {
    if k <= 0 then Dedup(Filter(ids[..if |ids| == 0 then 0 else 1], IsSeedId))
    else Take(Dedup(Filter(ids, IsSeedId)), k)
  }

  /** Stopping once `k` ids are collected leaves the first `k` of the full
      deduplicated list. */
  lemma StopAtCap(ids: seq<string>, k: int, i: nat)
    requires k >= 1 && i <= |ids|
    requires |Dedup(Filter(ids[..i], IsSeedId))| == k
    ensures CleanedIds(ids, k) == Dedup(Filter(ids[..i], IsSeedId))
  {
    var f := Filter(ids, IsSeedId);
    var fi := Filter(ids[..i], IsSeedId);
    FilterPrefix(ids, i, IsSeedId);
    assert f[..|fi|] == fi;
    DedupByPrefix(f, |fi|, Same);
    DedupByFacts(f, Same);
  }

  /** `_clean_ids`: one pass with a `seen` set, stopping as soon as `k` ids
      have been kept. */
  method CleanIds(ids: seq<string>, k: int) returns (out: seq<string>)
    ensures out == CleanedIds(ids, k)
    ensures k >= 1 ==> |out| <= k
    ensures forall x :: x in out ==> |x| == 22
  {
    var seen: set<string> := {};
    out := [];
    var i := 0;
    while i < |ids|
      invariant 0 <= i <= |ids|
      invariant out == Dedup(Filter(ids[..i], IsSeedId))
      invariant seen == KeysOf(out, Same)
      invariant k >= 1 ==> |out| < k
      invariant k <= 0 ==> i == 0
    {
      var x := ids[i];
      ghost var before := out;
      CleanStep(ids, i);
      if |x| > 0 && |x| == 22 && x !in seen {
        KeysOfSnoc(out, x, Same);
        seen := seen + {x};
        out := out + [x];
      }
      i := i + 1;
      assert |out| <= |before| + 1;
      if |out| >= k {
        if k >= 1 {
          StopAtCap(ids, k, i);
        } else {
          assert i == 1;
        }
        assert out == CleanedIds(ids, k);
        break;
      }
    }
    if i == |ids| {
      assert ids[..i] == ids;
    }
    CleanedIdsBounded(ids, k);
  }

  /** One loop round of `_clean_ids`: the next id is kept exactly when it
      is valid and not yet kept. */
  lemma CleanStep(ids: seq<string>, i: nat)
    requires i < |ids|
    ensures var out := Dedup(Filter(ids[..i], IsSeedId));
            var x := ids[i];
            Dedup(Filter(ids[..i + 1], IsSeedId)) ==
              if IsSeedId(x) && x !in KeysOf(out, Same) then out + [x] else out
  {
    var x := ids[i];
    assert ids[..i + 1][..i] == ids[..i];
    var f := Filter(ids[..i], IsSeedId);
    assert Filter(ids[..i + 1], IsSeedId) == if IsSeedId(x) then f + [x] else f;
    DedupBySnoc(f, x, Same);
  }

  /** The ids `CleanedIds` draws from. */
  function CleanedSource(ids: seq<string>, k: int): seq<string>
  {
    if k <= 0 then ids[..if |ids| == 0 then 0 else 1] else ids
  }

  /** The promises of `_clean_ids` on its output: at most `k` ids (one
      when `k <= 0`), each a valid id of the input, none repeated. */
  lemma CleanedIdsBounded(ids: seq<string>, k: int)
    ensures var r := CleanedIds(ids, k);
            && (k >= 1 ==> |r| <= k)
            && (k <= 0 ==> |r| <= 1)
            && (forall x :: x in r ==> IsSeedId(x) && x in ids)
            && Distinct(r)
  {
    var src := CleanedSource(ids, k);
    var f := Filter(src, IsSeedId);
    var d := Dedup(f);
    FilterFacts(src, IsSeedId);
    DedupByFacts(f, Same);
    DistinctBySame(d);
    var r := CleanedIds(ids, k);
    assert r == Take(d, if k <= 0 then 1 else k);
    assert r <= d;
    forall x | x in r ensures IsSeedId(x) && x in ids {
      assert x in d;
      assert x in f;
      assert x in src;
    }
  }

  /** The result begins the deduplicated valid ids of its source. */
  lemma CleanedIdsPrefix(ids: seq<string>, k: int)
    ensures CleanedIds(ids, k) <= Dedup(Filter(CleanedSource(ids, k), IsSeedId))
  {
    var f := Filter(CleanedSource(ids, k), IsSeedId);
    if k <= 0 {
      assert CleanedIds(ids, k) == Dedup(f);
    }
  }

  /** The kept ids appear in the order of the input. */
  lemma CleanedIdsInOrder(ids: seq<string>, k: int)
    ensures IsSubseq(CleanedIds(ids, k), ids)
  {
    var src := CleanedSource(ids, k);
    var f := Filter(src, IsSeedId);
    var d := Dedup(f);
    var r := CleanedIds(ids, k);
    CleanedIdsPrefix(ids, k);
    DedupByKeepsFirst(f, Same);
    KeepFirstIsSubseq(f, Same, {});
    FilterIsSubseq(src, IsSeedId);
    PrefixIsSubseq(r, d);
    SubseqTrans(r, d, f);
    SubseqTrans(r, f, src);
    PrefixIsSubseq(src, ids);
    SubseqTrans(r, src, ids);
  }

  /** When fewer than `k` ids come back, no valid id of the input was left
      behind. */
  lemma CleanedIdsComplete(ids: seq<string>, k: int)
    requires k >= 1 && |CleanedIds(ids, k)| < k
    ensures forall x :: x in ids && IsSeedId(x) ==> x in CleanedIds(ids, k)
  {
    var f := Filter(ids, IsSeedId);
    var d := Dedup(f);
    FilterFacts(ids, IsSeedId);
    DedupByFacts(f, Same);
    assert CleanedIds(ids, k) == d;
    forall x | x in ids && IsSeedId(x) ensures x in d {
      assert x in f;
      assert x in KeysOf(f, Same);
      var y :| y in d && Same(y) == x;
    }
  }

  /** The genre names the recommendation service accepts here. */
  const GenreAllowList: set<string> :=
    {"chill", "ambient", "pop", "rock", "dance", "electronic", "hip-hop", "jazz", "classical", "piano"}

  /** The genres a tag can contribute. */
  const MatchableGenres: set<string> := {"chill", "ambient", "pop", "rock", "piano"}

  predicate InAllowList(g: string)
  {
    g in GenreAllowList
  }

  /** The genres one lower-cased tag contributes, in the order they are
      tested. */
  function GenreHits(tl: string): seq<string>
  {
    CueTag(Contains(tl, "chill"), "chill") + CueTag(Contains(tl, "ambient"), "ambient") +
    CueTag(Contains(tl, "pop") || Contains(tl, "j-pop"), "pop") +
    CueTag(Contains(tl, "rock"), "rock") + CueTag(Contains(tl, "piano"), "piano")
  }

  /** All genre hits over the tags, in tag order. */
  function GenreMatches(queries: seq<string>): seq<string>
    decreases |queries|
  {
    if |queries| == 0 then []
    else GenreMatches(queries[..|queries| - 1]) + GenreHits(Lower(queries[|queries| - 1]))
  }

  /** The genre seed list: first occurrences of the hits, kept if allowed,
      at most three. */
  function GenreSeedsOf(queries: seq<string>): seq<string>
  {
    Take(Filter(Dedup(GenreMatches(queries)), InAllowList), 3)
  }

  /** The five tests of one loop round of the genre block. */
  method AppendGenreHits(found: seq<string>, tl: string) returns (r: seq<string>)
    ensures r == found + GenreHits(tl)
  {
    ghost var h1 := CueTag(Contains(tl, "chill"), "chill");
    ghost var h2 := CueTag(Contains(tl, "ambient"), "ambient");
    ghost var h3 := CueTag(Contains(tl, "pop") || Contains(tl, "j-pop"), "pop");
    ghost var h4 := CueTag(Contains(tl, "rock"), "rock");
    ghost var h5 := CueTag(Contains(tl, "piano"), "piano");
    r := AppendWhen(found, Contains(tl, "chill"), "chill");
    r := AppendWhen(r, Contains(tl, "ambient"), "ambient");
    assert r == found + (h1 + h2);
    r := AppendWhen(r, Contains(tl, "pop") || Contains(tl, "j-pop"), "pop");
    assert r == found + (h1 + h2 + h3);
    r := AppendWhen(r, Contains(tl, "rock"), "rock");
    assert r == found + (h1 + h2 + h3 + h4);
    r := AppendWhen(r, Contains(tl, "piano"), "piano");
    assert r == found + (h1 + h2 + h3 + h4 + h5);
  }

  /** The genre block of the recommendation fallback: collect hits tag by
      tag, then `dict.fromkeys`, the allow-list filter and `[:3]`. */
  method DeriveGenreSeeds(queries: seq<string>) returns (genres: seq<string>)
    ensures genres == GenreSeedsOf(queries)
    ensures |genres| <= 3 && Distinct(genres)
    ensures forall g :: g in genres ==> g in GenreAllowList && g in MatchableGenres
  {
    var found: seq<string> := [];
    for i := 0 to |queries|
      invariant found == GenreMatches(queries[..i])
    {
      assert queries[..i + 1][..i] == queries[..i];
      found := AppendGenreHits(found, Lower(queries[i]));
    }
    assert queries[..|queries|] == queries;
    genres := Take(Filter(Dedup(found), InAllowList), 3);
    GenreSeedsFacts(queries);
  }

  lemma {:induction false} GenreMatchesVocabulary(queries: seq<string>)
    ensures forall g :: g in GenreMatches(queries) ==> g in MatchableGenres
    decreases |queries|
  {
    if |queries| > 0 {
      GenreMatchesVocabulary(queries[..|queries| - 1]);
    }
  }

  /** Every hit is allowed, so the filter keeps everything: the seeds are
      the first three distinct genres in order of first match. */
  lemma GenreFilterKeepsAll(queries: seq<string>)
    ensures GenreSeedsOf(queries) == Take(Dedup(GenreMatches(queries)), 3)
  {
    var m := GenreMatches(queries);
    var d := Dedup(m);
    GenreMatchesVocabulary(queries);
    DedupByFacts(m, Same);
    forall x | x in d ensures InAllowList(x) {
      assert x in m;
      assert x in MatchableGenres;
    }
    FilterAll(d, InAllowList);
  }

  /** The genre seeds: at most three, none repeated, each allowed and one of
      the five genres a tag can name, in order of first match. */
  lemma GenreSeedsFacts(queries: seq<string>)
    ensures var r := GenreSeedsOf(queries);
            && r == Take(Dedup(GenreMatches(queries)), 3)
            && |r| <= 3 && Distinct(r)
            && (forall g :: g in r ==> g in GenreAllowList && g in MatchableGenres)
  {
    var m := GenreMatches(queries);
    var d := Dedup(m);
    GenreFilterKeepsAll(queries);
    GenreMatchesVocabulary(queries);
    DedupByFacts(m, Same);
    DistinctBySame(d);
    var r := Take(d, 3);
    assert r <= d;
    forall g | g in r ensures g in GenreAllowList && g in MatchableGenres {
      assert g in d;
      assert g in m;
    }
  }

  /** A filter whose test every element passes keeps the list. */
  lemma {:induction false} FilterAll<T>(s: seq<T>, keep: T -> bool)
    requires forall x :: x in s ==> keep(x)
    ensures Filter(s, keep) == s
    decreases |s|
  {
    if |s| > 0 {
      var p := s[..|s| - 1];
      var x := s[|s| - 1];
      assert s == p + [x];
      assert forall y :: y in p ==> y in s;
      FilterAll(p, keep);
      assert keep(x);
    }
  }

  /** A tag that contributes a genre makes the hits of any tag list holding
      it non-empty. */
  lemma {:induction false} GenreMatchesHasHit(queries: seq<string>, i: nat)
    requires i < |queries| && GenreHits(Lower(queries[i])) != []
    ensures GenreMatches(queries) != []
    decreases |queries|
  {
    if i < |queries| - 1 {
      GenreMatchesHasHit(queries[..|queries| - 1], i);
    }
  }

  /** A tag naming a genre token in its own text contributes that genre. */
  lemma HitFromSlice(t: string, i: nat, j: nat)
    requires i <= j <= |t|
    requires t[i..j] in ["chill", "pop", "piano"]
    ensures GenreHits(Lower(t)) != []
  {
    var g := t[i..j];
    ContainsSlice(t, i, j);
    assert HasNoUpper(g);
    ContainsLower(t, g);
  }

  /** Every base tag list holds a tag that names a genre. */
  lemma BaseTagWithGenre(mood: string, text: string) returns (i: nat)
    ensures i < |BaseTags(mood, text)|
    ensures GenreHits(Lower(BaseTags(mood, text)[i])) != []
  {
    var base := BaseTags(mood, text);
    if IsPositiveLabel(mood) {
      i := 4;
      assert base[i][2..5] == "pop";
      HitFromSlice(base[i], 2, 5);
    } else if IsNegativeLabel(mood) && !FatigueCue(text) && SadCue(text) {
      i := 2;
      assert base[i][0..5] == "piano";
      HitFromSlice(base[i], 0, 5);
    } else if !IsNegativeLabel(mood) {
      i := 3;
      assert base[i][0..5] == "chill";
      HitFromSlice(base[i], 0, 5);
    } else {
      i := 1;
      assert base[i][0..5] == "chill";
      HitFromSlice(base[i], 0, 5);
    }
  }

  /** For the tags the app itself derives, the genre tier always has at
      least one seed: every base tag list holds a tag naming a genre. */
  lemma GenreSeedsOfQueryTags(mood: string, text: string)
    ensures GenreSeedsOf(QueryTags(mood, text)) != []
  {
    var q := QueryTags(mood, text);
    var base := BaseTags(mood, text);
    QueryTagsShape(mood, text);
    var rest := Take(ContextTags(text), 5 - |base|);
    assert q == base + rest;
    var i := BaseTagWithGenre(mood, text);
    assert q[i] == base[i];
    GenreMatchesHasHit(q, i);
    GenreSeedsFacts(q);
    DedupByFacts(GenreMatches(q), Same);
  }
}
