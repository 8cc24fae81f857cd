# mood2music core, in Dafny

mood2music is a small web app. It reads a line of diary text, estimates its
mood, turns the mood and the text into music search tags, and asks a music
catalog for recommendations. It shows at most fifteen tracks. This project
models the deterministic rules inside `app.py` and proves what they promise:

- **Sentiment** (`sentiment.dfy`). The keyword-counting fallback heuristic
  `naive_sentiment`, the choice between the external classifier's answer and
  the heuristic, and the keyword override applied afterwards. Confidence
  scores are integer hundredths (0.9 is 90).
- **Tags** (`tags.dfy`). `mood_to_queries`: base tags by label and cue,
  contextual tags in a fixed order, first occurrences only, at most five.
- **Seeds** (`seeds.dfy`). `_clean_ids` (valid 22-character ids, no repeats,
  early stop at `k`) and the genre-seed block (tag substrings to genres,
  `dict.fromkeys`, allow-list, at most three).
- **Recommend** (`recommend.dfy`). `_target_params` and the three-tier
  fallback: track seeds, then artist seeds, then genre seeds. Within each
  tier the user-scoped client is asked first. The app-scoped client is asked
  only when that answer is falsy. The catalog service is an oracle from
  request to outcome, and the model records every request made.
- **Present** (`present.dfy`). Recommendations replace the search results
  when there are any. Then come the (name, artist) dedup, the shuffle and
  the cut to fifteen.
- `text.dfy` (module `Text`) holds the shared sequence vocabulary:
  - substring containment and ASCII lower-casing;
  - `Take` for slicing `[:n]`;
  - first-occurrence dedup by key, with its loop `DedupLoop` and its
    front-to-back reference `KeepFirst`;
  - filtering and subsequences.

  `catalog.dfy` holds the track record.

Each imperative step of the source is a method proved equal to a
specification function: the growing tag list (`Tags.MoodToQueries`,
`Tags.AppendContextTags`), the genre block and the tier chain
(`Recommend.FetchRecommendations`). The three loops of the source are
`while`/`for` loops with invariants: the `seen`/`uniq` dedup
(`Text.DedupLoop`), `_clean_ids` with its `break` (`Seeds.CleanIds`) and
the genre loop (`Seeds.DeriveGenreSeeds`). Lemmas then prove the promised
properties of the specification functions.

Points where the code behaves differently from what a reader might expect
are modelled as written:

- The app-scoped client is retried only when the user-scoped call returned
  an empty dict, which is what `_reco_with` returns on an exception.
  - A user-scoped response whose `"tracks"` is missing or empty is truthy,
    so it is kept.
  - The chain then moves on to the next tier without trying the app-scoped
    client.
- At most six recommendation requests are made: three tiers, two clients
  each.
- `_clean_ids` checks its cap after appending. With `k <= 0` it can still
  return one id (`CleanedIds`). The call sites use the default `k = 5`.
- `_target_params` chooses by the prefixes "pos" and "neg".
  - The classifier's katakana labels "ポジティブ"/"ネガティブ" therefore get
    the neutral preset.
  - `mood_to_queries` treats the same labels as positive or negative
    (`Recommend.TargetParamsByLabel`).

## Model

| member | source | states |
|---|---|---|
| Sentiment.CountPresent | app.py:40-41 | the count is at most the number of words, and it is zero exactly when no word of the list occurs in the text |
| Sentiment.CountIsDistinctMembersPresent | app.py:40-41 | over a list without repeats, the count is the number of distinct members present, not the number of occurrences |
| Sentiment.HeuristicCountsDistinctWords | app.py:38-41 | the two word sets of the heuristic are counted as distinct members present |
| Sentiment.NaiveSentiment | app.py:37-46 | the result is ("neutral", 50) exactly when no word of either set occurs; it is "positive" exactly when some positive word occurs and p >= n, so ties go to positive; it is "negative" exactly when p < n; the score always lies in 50..99 (its exact value is stated by `Sentiment.NaiveSentimentScore`) |
| Sentiment.NaiveSentimentScore | app.py:40-45 | outside the neutral case the score is 50 + min(49, 10·|p − n|), with p and n the numbers of distinct positive and negative words present |
| Sentiment.HeuristicOrOverrideLabels | app.py:42-46 | when the heuristic or an override word decides, the label is "positive", "negative" or "neutral" |
| Sentiment.Classify | app.py:113-122 | the classifier's label is lower-cased and its score kept; when the classifier is missing or raised, the heuristic on the text is used |
| Sentiment.EstimateMood | app.py:113-131 | a positive override word forces ("positive", 90) whatever the classifier said; otherwise a negative override word forces ("negative", 90); otherwise the classified estimate is unchanged |
| Sentiment.OverrideDominates | app.py:125-131 | with an override word present the result does not depend on the incoming estimate; overriding twice equals overriding once |
| Sentiment.NegativeWordTriggersOverride | app.py:126-130 | each of the heuristic's negative words 疲れた, 悲しい, 無理, だるい, しんどい and 落ち込 contains a negative override word, so the override fires whenever one of them occurs |
| Text.LowerNormalises | app.py:50 | lower-casing keeps the length, leaves no upper-case ASCII letter and is idempotent |
| Text.Take | app.py:77 | `[:n]` gives a prefix of at most n elements, the whole list when it is no longer than n |
| Text.DedupLoop | app.py:71-76 | the `seen`/`uniq` loop computes the first-occurrence dedup: keys are distinct, it is no longer than the input, and it is non-empty for a non-empty input |
| Text.DedupByFacts | app.py:71-76 | the dedup has distinct keys, takes its elements from the input, covers every key of the input, and is empty only for an empty input |
| Text.DedupByKeepsFirst | app.py:71-76 | the dedup equals the front-to-back scan that keeps an element exactly when its key has not been seen |
| Tags.AppendWhen | app.py:63-70 | one `if cue: tags.append(tag)` appends the tag exactly when the cue holds |
| Tags.AppendContextTags | app.py:63-70 | the four contextual appends add "rainy day", "study lofi", "morning" and "night chill", in that order, each exactly when its cue occurs |
| Tags.MoodToQueries | app.py:49-77 | the result is the first-occurrence dedup of base plus contextual tags, cut to five; it has one to five tags and none repeats |
| Tags.ContextTagsDistinct | app.py:63-70 | the contextual tags never repeat and come from the four fixed names |
| Tags.TagsNeverRepeat | app.py:52-70 | no base list repeats a tag and no contextual tag is a base tag |
| Tags.QueryTagsShape | app.py:52-77 | the result is the whole base list followed by the contextual tags in fixed order, as many as fit into five; it has 1..5 distinct tags |
| Tags.FullBaseListsCrowdOutContext | app.py:52-56 | a positive label gives exactly the five happy tags; a negative label with a fatigue cue gives exactly the five tired tags, even when a sadness cue is also present |
| Tags.FourTagBasesGainFirstContext | app.py:57-77 | a four-tag base list gains only the first contextual tag found; a negative text with a rain cue and neither a fatigue nor a sadness cue gives calm, chill, ambient, lofi, rainy day |
| Seeds.CleanIds | app.py:186-195 | the loop with `seen` and `break` returns the valid ids of the input, first occurrences only, cut after k (one id at most when k <= 0); every returned id has 22 characters |
| Seeds.CleanStep | app.py:189-192 | one loop round keeps the next id exactly when it is non-empty, 22 characters long and not yet kept |
| Seeds.StopAtCap | app.py:193-194 | breaking once k ids are kept gives the first k ids of the full deduplicated list |
| Seeds.CleanedIdsBounded | app.py:186-195 | at most k ids (at most one when k <= 0), each non-empty, 22 characters long and taken from the input, none repeated |
| Seeds.CleanedIdsPrefix | app.py:186-195 | the result is a prefix of the deduplicated valid ids of its source |
| Seeds.CleanedIdsInOrder | app.py:186-195 | the result is a subsequence of the input, so the input order is kept |
| Seeds.CleanedIdsComplete | app.py:186-195 | when fewer than k ids come back, every valid id of the input is among them |
| Seeds.AppendGenreHits | app.py:248-258 | one loop round appends chill, ambient, pop, rock and piano in that order, each exactly when the lower-cased tag contains its token ("pop" or "j-pop" for pop) |
| Seeds.DeriveGenreSeeds | app.py:246-259 | the genre block yields the first three distinct allowed genres in order of first match; at most three, none repeated, each in the allow-list and one of chill, ambient, pop, rock, piano |
| Seeds.GenreMatchesVocabulary | app.py:247-258 | every hit is one of the five genres a tag can name |
| Seeds.GenreFilterKeepsAll | app.py:259 | the allow-list filter never drops a hit, so the seeds are the first three distinct hits |
| Seeds.GenreSeedsFacts | app.py:246-259 | the genre seeds have at most three entries, no repeats, each allowed and matchable, in order of first match |
| Seeds.GenreMatchesHasHit | app.py:247-258 | one tag that names a genre makes the hits of the whole tag list non-empty |
| Seeds.HitFromSlice | app.py:250-258 | a tag containing "chill", "pop" or "piano" contributes a genre |
| Seeds.BaseTagWithGenre | app.py:52-62 | every base tag list holds a tag that names a genre |
| Seeds.GenreSeedsOfQueryTags | app.py:246-260 | for the tags `mood_to_queries` produces, the genre tier always has at least one seed |
| Recommend.TargetParamsByLabel | app.py:178-184 | "positive" gets (75, 70), "negative" gets (30, 35), "neutral" gets (50, 45); the katakana labels that the tag deriver reads as positive or negative get the neutral preset |
| Recommend.PresetForEnglishLabels | app.py:178-184 | for "positive", "negative" and "neutral", the preset is the positive one exactly for a positive tag label, the negative one exactly for a negative tag label, and the neutral one otherwise |
| Recommend.PresetMatchesTagBranch | app.py:120-131 | whenever the heuristic or an override decides the label, the target preset agrees with the tag branch that label selects in `mood_to_queries` |
| Recommend.CallTier | app.py:212-225 | one tier asks the user-scoped client, and asks the app-scoped client with the same arguments only when the first answer is the empty dict |
| Recommend.RunTiersSingle | app.py:222-225 | running a single tier gives that attempt's tracks and requests |
| Recommend.RunTiersAppend | app.py:222-263 | running two groups of tiers in sequence: the second group runs only when the first gave no tracks |
| Recommend.FetchRecommendations | app.py:218-265 | the tier chain as written (tracks, then artists, then genres, each guarded by "no tracks yet" and by having seeds) equals trying the planned tiers in order and stopping at the first answer with tracks |
| Recommend.ChainRequests | app.py:222-262 | every request carries the target preset, limit 30 and market JP; an app-scoped request comes right after the same request to the user-scoped client, and only when that answered with the empty dict; conversely every user-scoped request answered with the empty dict is followed at once by the same request to the app-scoped client; at most two requests per tier |
| Recommend.ChainRetriesFailedUser | app.py:225-262 | every user-scoped request answered with the empty dict is followed at once by the same request to the app-scoped client, so no tier is abandoned on a failed user-scoped call |
| Recommend.ChainStopsAtFirstTracks | app.py:228-265 | every request but the last came back without tracks; non-empty recommendations are the last answer's tracks; empty recommendations mean no request gave tracks |
| Recommend.ChainTierOrder | app.py:222-263 | the user-scoped requests name a prefix of the planned tiers, in order, and all of them when no tracks were found |
| Recommend.AttemptUserSeeds | app.py:225 | one tier makes exactly one user-scoped request, seeded with that tier |
| Recommend.UserSeedsAppend | app.py:222-263 | the user-scoped seeds of two request runs concatenate |
| Recommend.ChainSeedsFromTiers | app.py:222-263 | every request is seeded by one of the planned tiers |
| Recommend.PlannedSeed | app.py:222-263 | a planned track or artist tier holds the first three ids given, and exists only when ids were given; a planned genre tier holds the derived genres, and exists only when some were derived |
| Recommend.PlannedRequests | app.py:222-263 | the artist tier is asked only with artist seeds, using their first three; the genre tier only with derived genres; when no tier gave tracks, every tier with seeds was tried |
| Recommend.PlannedCallsBounded | app.py:218-263 | at most six requests, each with the mood's preset, limit 30 and market JP; the app-scoped client is asked only after the user-scoped one failed for the same arguments, and always right after such a failure |
| Present.PermuteRearranges | app.py:297 | the shuffle keeps the length and the elements, in both directions, and keeps keys distinct |
| Present.ShowList | app.py:283-301 | the shown list is the (name, artist) dedup of the chosen results, shuffled and cut to fifteen; it has at most fifteen entries and no two share a (name, artist) pair |
| Present.DedupKeepsFirstOfEachKey | app.py:289-295 | the dedup keeps the first track of each (name, artist) pair, in input order, and every pair of the input is represented |
| Present.ShownTracksFacts | app.py:283-301 | at most fifteen tracks and no repeated pair; they come from the recommendations when there were any, otherwise from the search results; exactly fifteen when there are at least fifteen distinct pairs; every pair is shown when there are at most fifteen |

## Left out

- The UI is not modelled: every `st.*` call, the sidebar, the text area, the button, and the `st.stop` control flow. These are presentation only.
- Loading and running the sentiment classifier is not modelled, and neither is its 200-character input cut. Its result is an input to `Classify`: a label and a score, or a failure.
- Authentication and HTTP are not modelled (`ensure_spotify`, `SpotifyOAuth`, `SpotifyClientCredentials`). The recommendation service is an oracle from request to outcome.
- The search loop is not modelled. It collects `results`, `track_ids` and `artist_ids` from `sp.search`, and the model takes these lists as inputs. The empty-results stop before the recommendation step is UI control flow.
- Mapping raw response JSON into track records is not modelled, for search results and recommendations alike. A response is a list of tracks.
  - A mapping error part-way through the recommendation loop would leave a partial `reco`; that case is not modelled.
  - A missing id (`None`) is the empty string, which the id test rejects in the same way.
- The comma-joining of seed lists into request parameters is not modelled. A request holds the list itself.
- `random.shuffle` is a caller-supplied permutation of positions.
  - Present.PermuteRearranges: states that the result has the same length and the same elements, and keeps keys distinct. For a list with distinct keys this amounts to a permutation. It is not stated as multiset equality.
- Floating-point scores and their formatting are not modelled. Scores are integer hundredths.
- Text.Lower: lowers only ASCII letters, which is exact for every English cue word used here. Python's Unicode lower-casing is not modelled.
- Caching of the classifier and the client is not modelled.
