/** The recommendation fallback chain: seed by tracks, then artists, then
    genres; within a tier the user-scoped client first and the app-scoped
    client only when the user-scoped call came back as an empty dict. The
    catalog service is an oracle from request to outcome. */
module Recommend {
  import opened Text
  import opened Catalog
  import opened Tags
  import opened Seeds
  import Sentiment

  /** Target valence and energy in hundredths. */
  datatype Target = Target(valence: int, energy: int)

  const PositiveTarget := Target(75, 70)
  const NegativeTarget := Target(30, 35)
  const NeutralTarget := Target(50, 45)

  /** `_target_params`: the preset chosen by the label's prefix. */
  function TargetParams(mood: string): Target
  {
    if "pos" <= mood then PositiveTarget
    else if "neg" <= mood then NegativeTarget
    else NeutralTarget
  }

  /** The labels the sentiment stage produces get the preset that matches
      their tag branch; the classifier's katakana labels, which the tag
      deriver treats as positive and negative, fall to the neutral preset. */
  lemma TargetParamsByLabel()
    ensures TargetParams("positive") == PositiveTarget && IsPositiveLabel("positive")
    ensures TargetParams("negative") == NegativeTarget && IsNegativeLabel("negative")
    ensures TargetParams("neutral") == NeutralTarget
    ensures IsPositiveLabel("ポジティブ") && TargetParams("ポジティブ") == NeutralTarget
    ensures IsNegativeLabel("ネガティブ") && TargetParams("ネガティブ") == NeutralTarget
  {
    assert "positive"[..3] == "pos";
    assert "negative"[0] != "pos"[0] && "negative"[..3] == "neg";
    assert "neutral"[0] != "pos"[0] && "neutral"[2] != "neg"[2];
    assert "ポジティブ"[0] != "pos"[0] && "ポジティブ"[0] != "neg"[0];
    assert "ネガティブ"[0] != "pos"[0] && "ネガティブ"[0] != "neg"[0];
  }

  /** Whenever the label comes from the heuristic or from a keyword
      override, the preset agrees with the tag branch the label selects:
      positive labels get the positive preset, negative labels the negative
      one, and every other label the neutral one. */
  lemma PresetMatchesTagBranch(text: string, outcome: Sentiment.ClassifierOutcome)
    ensures var p := Sentiment.EstimateMood(text, outcome).polarity;
            !outcome.Predicted? || Sentiment.AnyIn(Sentiment.PositiveOverrides, text) ||
            Sentiment.AnyIn(Sentiment.NegativeOverrides, text) ==>
              && (IsPositiveLabel(p) <==> TargetParams(p) == PositiveTarget)
              && (IsNegativeLabel(p) <==> TargetParams(p) == NegativeTarget)
              && (!IsPositiveLabel(p) && !IsNegativeLabel(p) <==> TargetParams(p) == NeutralTarget)
  {
    Sentiment.HeuristicOrOverrideLabels(text, outcome);
    if !outcome.Predicted? || Sentiment.AnyIn(Sentiment.PositiveOverrides, text) ||
       Sentiment.AnyIn(Sentiment.NegativeOverrides, text) {
      PresetForEnglishLabels(Sentiment.EstimateMood(text, outcome).polarity);
    }
  }

  /** The three English labels get the preset of their own tag branch. */
  lemma PresetForEnglishLabels(p: string)
    requires p == "positive" || p == "negative" || p == "neutral"
    ensures IsPositiveLabel(p) <==> TargetParams(p) == PositiveTarget
    ensures IsNegativeLabel(p) <==> TargetParams(p) == NegativeTarget
    ensures !IsPositiveLabel(p) && !IsNegativeLabel(p) <==> TargetParams(p) == NeutralTarget
  {
    TargetParamsByLabel();
  }

  datatype Client = UserClient | AppClient

  /** What a request is seeded with (at most three ids, or the genres). */
  datatype Seed = SeedTracks(ids: seq<string>) | SeedArtists(ids: seq<string>) | SeedGenres(genres: seq<string>)

  /** The keyword arguments of one `recommendations` call and the client it
      goes to. */
  datatype Request = Request(client: Client, seed: Seed, limit: int, market: string, target: Target)

  /** What `_reco_with` returns: `Failed` is the empty dict (the call raised
      or answered with an empty dict); `Resp` is a non-empty dict, whose
      "tracks" may still be missing or empty (then `tracks` is empty). */
  datatype Outcome = Failed | Resp(tracks: seq<Track>)

  /** `rec.get("tracks")`, with a missing entry read as no tracks. */
  function TracksOf(o: Outcome): seq<Track>
  {
    if o.Resp? then o.tracks else []
  }

  function RequestFor(client: Client, seed: Seed, target: Target): Request
  {
    Request(client, seed, 30, "JP", target)
  }

  /** `_reco_with(sp, **kwargs) or _reco_with(sp_app, **kwargs)`: the
      outcome kept and the requests made. */
  function Attempt(seed: Seed, target: Target, oracle: Request -> Outcome): (Outcome, seq<Request>)
  {
    var user := RequestFor(UserClient, seed, target);
    var app := RequestFor(AppClient, seed, target);
    if oracle(user).Failed? then (oracle(app), [user, app]) else (oracle(user), [user])
  }

  /** One tier: ask the user-scoped client, and the app-scoped client only
      when that answer is falsy. */
  method CallTier(seed: Seed, target: Target, oracle: Request -> Outcome) returns (rec: Outcome, made: seq<Request>)
    ensures (rec, made) == Attempt(seed, target, oracle)
  {
    var user := RequestFor(UserClient, seed, target);
    rec := oracle(user);
    made := [user];
    if rec.Failed? {
      var app := RequestFor(AppClient, seed, target);
      rec := oracle(app);
      made := made + [app];
      assert made == [user, app];
    }
  }

  /** The tiers the chain may try, in order; a tier without seeds is not
      tried at all. */
  function PlannedTiers(seedTracks: seq<string>, seedArtists: seq<string>, queries: seq<string>): seq<Seed>
  {
    (if |seedTracks| > 0 then [SeedTracks(Take(seedTracks, 3))] else []) +
    (if |seedArtists| > 0 then [SeedArtists(Take(seedArtists, 3))] else []) +
    (if GenreSeedsOf(queries) != [] then [SeedGenres(GenreSeedsOf(queries))] else [])
  }

  /** Reference semantics of the chain: try the tiers in order and stop at
      the first whose outcome has tracks; the result is those tracks (or
      none) and every request made. */
  function RunTiers(tiers: seq<Seed>, target: Target, oracle: Request -> Outcome): (seq<Track>, seq<Request>)
    decreases |tiers|
  {
    if |tiers| == 0 then ([], [])
    else
      var (o, made) := Attempt(tiers[0], target, oracle);
      if TracksOf(o) != [] then (TracksOf(o), made)
      else
        var (tracks, more) := RunTiers(tiers[1..], target, oracle);
        (tracks, made + more)
  }

  /** A single tier: the outcome's tracks and the requests of that attempt. */
  lemma RunTiersSingle(seed: Seed, target: Target, oracle: Request -> Outcome)
    ensures var (o, made) := Attempt(seed, target, oracle);
            RunTiers([seed], target, oracle) == (TracksOf(o), made)
  {
    var (o, made) := Attempt(seed, target, oracle);
    assert [seed][1..] == [];
    assert made + [] == made;
  }

  /** Running two groups of tiers one after the other. */
  lemma {:induction false} RunTiersAppend(a: seq<Seed>, b: seq<Seed>, target: Target, oracle: Request -> Outcome)
    ensures var (ta, ca) := RunTiers(a, target, oracle);
            var (tb, cb) := RunTiers(b, target, oracle);
            RunTiers(a + b, target, oracle) == if ta != [] then (ta, ca) else (tb, ca + cb)
    decreases |a|
  {
    if |a| == 0 {
      assert a + b == b;
      var cb := RunTiers(b, target, oracle).1;
      assert [] + cb == cb;
    } else {
      assert (a + b)[0] == a[0] && (a + b)[1..] == a[1..] + b;
      RunTiersAppend(a[1..], b, target, oracle);
      var (o, made) := Attempt(a[0], target, oracle);
      if TracksOf(o) == [] {
        var (t1, c1) := RunTiers(a[1..], target, oracle);
        var (tb, cb) := RunTiers(b, target, oracle);
        assert made + (c1 + cb) == made + c1 + cb;
      }
    }
  }

  /** The try-block of the recommendation step: three tiers, each guarded
      by "no tracks yet" and by having seeds; without tracks at the end the
      recommendations stay empty. */
  method FetchRecommendations(mood: string, seedTracks: seq<string>, seedArtists: seq<string>,
                              queries: seq<string>, oracle: Request -> Outcome)
    returns (reco: seq<Track>, calls: seq<Request>)
    ensures (reco, calls) == RunTiers(PlannedTiers(seedTracks, seedArtists, queries), TargetParams(mood), oracle)
  {
    var target := TargetParams(mood);
    ghost var t1 := if |seedTracks| > 0 then [SeedTracks(Take(seedTracks, 3))] else [];
    ghost var t2 := if |seedArtists| > 0 then [SeedArtists(Take(seedArtists, 3))] else [];
    ghost var t3 := if GenreSeedsOf(queries) != [] then [SeedGenres(GenreSeedsOf(queries))] else [];
    var rec := Failed;
    calls := [];
    if |seedTracks| > 0 {
      var seed := SeedTracks(Take(seedTracks, 3));
      rec, calls := CallTier(seed, target, oracle);
      RunTiersSingle(seed, target, oracle);
    }
    assert (TracksOf(rec), calls) == RunTiers(t1, target, oracle);

    RunTiersAppend(t1, t2, target, oracle);
    if TracksOf(rec) == [] && |seedArtists| > 0 {
      var seed := SeedArtists(Take(seedArtists, 3));
      var made;
      rec, made := CallTier(seed, target, oracle);
      calls := calls + made;
      RunTiersSingle(seed, target, oracle);
    } else if TracksOf(rec) == [] {
      assert calls + [] == calls;
    }
    assert (TracksOf(rec), calls) == RunTiers(t1 + t2, target, oracle);

    RunTiersAppend(t1 + t2, t3, target, oracle);
    if TracksOf(rec) == [] {
      var genres := DeriveGenreSeeds(queries);
      if |genres| > 0 {
        var made;
        rec, made := CallTier(SeedGenres(genres), target, oracle);
        calls := calls + made;
        RunTiersSingle(SeedGenres(genres), target, oracle);
      } else {
        assert calls + [] == calls;
      }
    }
    assert (TracksOf(rec), calls) == RunTiers(t1 + t2 + t3, target, oracle);
    reco := TracksOf(rec);
  }

  /** The user-scoped requests, whose seeds name the tiers tried. */
  function UserSeeds(calls: seq<Request>): seq<Seed>
    decreases |calls|
  {
    if |calls| == 0 then []
    else (if calls[0].client == UserClient then [calls[0].seed] else []) + UserSeeds(calls[1..])
  }

  /** Every request carries the target preset, limit 30 and market JP; an
      app-scoped request only follows the user-scoped request for the same
      seed that came back empty; at most two requests per tier. */
  lemma {:induction false} ChainRequests(tiers: seq<Seed>, target: Target, oracle: Request -> Outcome)
    ensures var calls := RunTiers(tiers, target, oracle).1;
            && |calls| <= 2 * |tiers|
            && (forall r :: r in calls ==> r.target == target && r.limit == 30 && r.market == "JP")
            && (forall i :: 0 <= i < |calls| && calls[i].client == AppClient ==>
                  i > 0 && calls[i - 1] == calls[i].(client := UserClient) && oracle(calls[i - 1]).Failed?)
            && FailedUserRetried(calls, oracle)
    decreases |tiers|
  {
    ChainRetriesFailedUser(tiers, target, oracle);
    if |tiers| > 0 {
      ChainRequests(tiers[1..], target, oracle);
      var (o, made) := Attempt(tiers[0], target, oracle);
      var calls := RunTiers(tiers, target, oracle).1;
      var more := RunTiers(tiers[1..], target, oracle).1;
      if TracksOf(o) == [] {
        assert calls == made + more;
        forall i | 0 <= i < |calls| && calls[i].client == AppClient
          ensures i > 0 && calls[i - 1] == calls[i].(client := UserClient) && oracle(calls[i - 1]).Failed?
        {
          if i >= |made| {
            assert calls[i] == more[i - |made|];
            if i - |made| > 0 {
              assert calls[i - 1] == more[i - 1 - |made|];
            }
          }
        }
      }
    }
  }

  /** Every user-scoped request that came back as the empty dict is
      followed at once by the same request to the app-scoped client. */
  ghost predicate FailedUserRetried(calls: seq<Request>, oracle: Request -> Outcome)
  {
    forall i :: 0 <= i < |calls| && calls[i].client == UserClient && oracle(calls[i]).Failed? ==>
      i + 1 < |calls| && calls[i + 1] == calls[i].(client := AppClient)
  }

  /** No tier is abandoned on a failed user-scoped call: the app-scoped
      client is always tried next. */
  lemma {:induction false} ChainRetriesFailedUser(tiers: seq<Seed>, target: Target, oracle: Request -> Outcome)
    ensures FailedUserRetried(RunTiers(tiers, target, oracle).1, oracle)
    decreases |tiers|
  {
    if |tiers| > 0 {
      ChainRetriesFailedUser(tiers[1..], target, oracle);
      var (o, made) := Attempt(tiers[0], target, oracle);
      var calls := RunTiers(tiers, target, oracle).1;
      var more := RunTiers(tiers[1..], target, oracle).1;
      if TracksOf(o) == [] {
        assert calls == made + more;
        forall i | 0 <= i < |calls| && calls[i].client == UserClient && oracle(calls[i]).Failed?
          ensures i + 1 < |calls| && calls[i + 1] == calls[i].(client := AppClient)
        {
          if i >= |made| {
            assert calls[i] == more[i - |made|];
            assert i - |made| + 1 < |more|;
            assert calls[i + 1] == more[i + 1 - |made|];
          }
        }
      }
    }
  }

  /** The chain stops at the first answer with tracks: every earlier
      request came back without tracks, and the recommendations are the
      last answer's tracks; when none is found no request gave tracks. */
  lemma {:induction false} ChainStopsAtFirstTracks(tiers: seq<Seed>, target: Target, oracle: Request -> Outcome)
    ensures var (reco, calls) := RunTiers(tiers, target, oracle);
            && (forall i :: 0 <= i < |calls| - 1 ==> TracksOf(oracle(calls[i])) == [])
            && (reco != [] ==> |calls| > 0 && reco == TracksOf(oracle(calls[|calls| - 1])))
            && (reco == [] ==> forall r :: r in calls ==> TracksOf(oracle(r)) == [])
    decreases |tiers|
  {
    if |tiers| > 0 {
      ChainStopsAtFirstTracks(tiers[1..], target, oracle);
      var (o, made) := Attempt(tiers[0], target, oracle);
      var (reco, calls) := RunTiers(tiers, target, oracle);
      var (t2, more) := RunTiers(tiers[1..], target, oracle);
      if TracksOf(o) == [] {
        assert calls == made + more;
        forall i | 0 <= i < |calls| - 1 ensures TracksOf(oracle(calls[i])) == [] {
          if i >= |made| {
            assert calls[i] == more[i - |made|];
          }
        }
        if reco != [] {
          assert calls[|calls| - 1] == more[|more| - 1];
        }
      }
    }
  }

  /** The tiers are tried in order: the user-scoped requests name a prefix
      of the planned tiers, and all of them when no tracks were found. */
  lemma {:induction false} ChainTierOrder(tiers: seq<Seed>, target: Target, oracle: Request -> Outcome)
    ensures var (reco, calls) := RunTiers(tiers, target, oracle);
            && UserSeeds(calls) <= tiers
            && (reco == [] ==> UserSeeds(calls) == tiers)
    decreases |tiers|
  {
    if |tiers| > 0 {
      ChainTierOrder(tiers[1..], target, oracle);
      var (o, made) := Attempt(tiers[0], target, oracle);
      var (t2, more) := RunTiers(tiers[1..], target, oracle);
      AttemptUserSeeds(tiers[0], target, oracle);
      if TracksOf(o) == [] {
        UserSeedsAppend(made, more);
        assert tiers == [tiers[0]] + tiers[1..];
      }
    }
  }

  /** One attempt makes exactly one user-scoped request, for its seed. */
  lemma AttemptUserSeeds(seed: Seed, target: Target, oracle: Request -> Outcome)
    ensures UserSeeds(Attempt(seed, target, oracle).1) == [seed]
  {
    var made := Attempt(seed, target, oracle).1;
    if |made| == 2 {
      assert made[1..][1..] == [];
      assert UserSeeds(made[1..]) == [] + UserSeeds([]);
    } else {
      assert made[1..] == [];
    }
  }

  lemma {:induction false} UserSeedsAppend(a: seq<Request>, b: seq<Request>)
    ensures UserSeeds(a + b) == UserSeeds(a) + UserSeeds(b)
    decreases |a|
  {
    if |a| == 0 {
      assert a + b == b;
    } else {
      assert (a + b)[1..] == a[1..] + b;
      UserSeedsAppend(a[1..], b);
    }
  }

  /** Every request is seeded by one of the tiers. */
  lemma {:induction false} ChainSeedsFromTiers(tiers: seq<Seed>, target: Target, oracle: Request -> Outcome)
    ensures forall r :: r in RunTiers(tiers, target, oracle).1 ==> r.seed in tiers
    decreases |tiers|
  {
    if |tiers| > 0 {
      ChainSeedsFromTiers(tiers[1..], target, oracle);
      var (o, made) := Attempt(tiers[0], target, oracle);
      forall r | r in RunTiers(tiers[1..], target, oracle).1 ensures r.seed in tiers {
        assert r.seed in tiers[1..];
      }
    }
  }

  /** The chain's requests in terms of its inputs: a track or artist
      request carries the first three ids given, and only when ids were
      given; a genre request carries the genres derived from the tags, and
      only when some were derived. Without tracks from any tier, every tier
      with seeds was tried. */
  lemma PlannedRequests(mood: string, seedTracks: seq<string>, seedArtists: seq<string>, queries: seq<string>,
                        oracle: Request -> Outcome)
    ensures var (reco, calls) := RunTiers(PlannedTiers(seedTracks, seedArtists, queries), TargetParams(mood), oracle);
            && (forall r :: r in calls && r.seed.SeedTracks? ==> |seedTracks| > 0 && r.seed.ids == Take(seedTracks, 3))
            && (forall r :: r in calls && r.seed.SeedArtists? ==> |seedArtists| > 0 && r.seed.ids == Take(seedArtists, 3))
            && (forall r :: r in calls && r.seed.SeedGenres? ==> GenreSeedsOf(queries) != [] && r.seed.genres == GenreSeedsOf(queries))
            && (reco == [] ==> UserSeeds(calls) == PlannedTiers(seedTracks, seedArtists, queries))
  {
    var tiers := PlannedTiers(seedTracks, seedArtists, queries);
    var calls := RunTiers(tiers, TargetParams(mood), oracle).1;
    ChainSeedsFromTiers(tiers, TargetParams(mood), oracle);
    ChainTierOrder(tiers, TargetParams(mood), oracle);
    forall r | r in calls
      ensures r.seed.SeedTracks? ==> |seedTracks| > 0 && r.seed.ids == Take(seedTracks, 3)
      ensures r.seed.SeedArtists? ==> |seedArtists| > 0 && r.seed.ids == Take(seedArtists, 3)
      ensures r.seed.SeedGenres? ==> GenreSeedsOf(queries) != [] && r.seed.genres == GenreSeedsOf(queries)
    {
      PlannedSeed(r.seed, seedTracks, seedArtists, queries);
    }
  }

  lemma PlannedSeed(s: Seed, seedTracks: seq<string>, seedArtists: seq<string>, queries: seq<string>)
    requires s in PlannedTiers(seedTracks, seedArtists, queries)
    ensures s.SeedTracks? ==> |seedTracks| > 0 && s.ids == Take(seedTracks, 3)
    ensures s.SeedArtists? ==> |seedArtists| > 0 && s.ids == Take(seedArtists, 3)
    ensures s.SeedGenres? ==> GenreSeedsOf(queries) != [] && s.genres == GenreSeedsOf(queries)
  {
    var t1 := if |seedTracks| > 0 then [SeedTracks(Take(seedTracks, 3))] else [];
    var t2 := if |seedArtists| > 0 then [SeedArtists(Take(seedArtists, 3))] else [];
    var t3 := if GenreSeedsOf(queries) != [] then [SeedGenres(GenreSeedsOf(queries))] else [];
    assert s in t1 || s in t2 || s in t3;
  }

  /** Over the planned tiers: at most six requests, each with the mood's
      preset, limit 30 and market JP, the app-scoped client only after the
      user-scoped one failed for the same arguments. */
  lemma PlannedCallsBounded(mood: string, seedTracks: seq<string>, seedArtists: seq<string>, queries: seq<string>,
                            oracle: Request -> Outcome)
    ensures var calls := RunTiers(PlannedTiers(seedTracks, seedArtists, queries), TargetParams(mood), oracle).1;
            && |calls| <= 6
            && (forall r :: r in calls ==> r.target == TargetParams(mood) && r.limit == 30 && r.market == "JP")
            && (forall i :: 0 <= i < |calls| && calls[i].client == AppClient ==>
                  i > 0 && calls[i - 1] == calls[i].(client := UserClient) && oracle(calls[i - 1]).Failed?)
            && FailedUserRetried(calls, oracle)
  {
    ChainRequests(PlannedTiers(seedTracks, seedArtists, queries), TargetParams(mood), oracle);
  }
}
