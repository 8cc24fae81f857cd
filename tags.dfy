/** Tag derivation (`mood_to_queries`): a mood label and the diary text give
    an ordered list of at most five distinct catalog search tags. */
module Tags {
  import opened Text

  const HappyTags: seq<string> := ["happy", "energetic", "summer", "uplifting", "j-pop happy"]
  const TiredTags: seq<string> := ["lofi beats", "chill", "healing piano", "relax", "study"]
  const SadTags: seq<string> := ["sad lofi", "ballad", "piano sad", "j-pop ballad"]
  const CalmTags: seq<string> := ["calm", "chill", "ambient", "lofi"]
  const FocusTags: seq<string> := ["focus", "lofi", "coffeehouse", "chillhop"]

  /** The labels the tag deriver treats as positive or negative; any other
      label takes the neutral branch. */
  predicate IsPositiveLabel(mood: string)
  {
    mood == "positive" || mood == "POSITIVE" || mood == "ポジティブ"
  }

  predicate IsNegativeLabel(mood: string)
  {
    mood == "negative" || mood == "NEGATIVE" || mood == "ネガティブ"
  }

  /** Cues looked up in the raw text (Japanese) or its lower-cased form
      (English). */
  predicate FatigueCue(text: string)
  {
    Contains(text, "疲") || Contains(text, "だる") || Contains(text, "しんど")
  }

  predicate SadCue(text: string)
  {
    Contains(text, "悲") || Contains(text, "泣") || Contains(text, "失恋")
  }

  predicate RainCue(text: string) { Contains(text, "雨") || Contains(Lower(text), "rain") }
  predicate StudyCue(text: string) { Contains(text, "勉強") || Contains(Lower(text), "study") }
  predicate MorningCue(text: string) { Contains(text, "朝") || Contains(Lower(text), "morning") }
  predicate NightCue(text: string) { Contains(text, "夜") || Contains(Lower(text), "night") }

  /** The tags chosen by label; for a negative label a fatigue cue wins over
      a sadness cue. */
  function BaseTags(mood: string, text: string): seq<string>
  {
    if IsPositiveLabel(mood) then HappyTags
    else if IsNegativeLabel(mood) then
      (if FatigueCue(text) then TiredTags else if SadCue(text) then SadTags else CalmTags)
    else FocusTags
  }

  /** One contextual tag, present when its cue is. */
  function CueTag(cue: bool, tag: string): seq<string>
  {
    if cue then [tag] else []
  }

  /** `if cue: tags.append(tag)`. */
  method AppendWhen(tags: seq<string>, cue: bool, tag: string) returns (r: seq<string>)
    ensures r == tags + CueTag(cue, tag)
  {
    r := tags;
    if cue {
      r := r + [tag];
    }
  }

  /** The contextual tags, in their fixed order. */
  function ContextTags(text: string): seq<string>
  {
    CueTag(RainCue(text), "rainy day") + CueTag(StudyCue(text), "study lofi") +
    CueTag(MorningCue(text), "morning") + CueTag(NightCue(text), "night chill")
  }

  /** The specification of the result: base and contextual tags, first
      occurrences only, at most five. */
  function QueryTags(mood: string, text: string): seq<string>
  {
    Take(Dedup(BaseTags(mood, text) + ContextTags(text)), 5)
  }

  /** The four contextual `append`s of `mood_to_queries`. */
  method AppendContextTags(tags: seq<string>, text: string) returns (r: seq<string>)
    ensures r == tags + ContextTags(text)
  {
    var textL := Lower(text);
    r := AppendWhen(tags, Contains(text, "雨") || Contains(textL, "rain"), "rainy day");
    r := AppendWhen(r, Contains(text, "勉強") || Contains(textL, "study"), "study lofi");
    r := AppendWhen(r, Contains(text, "朝") || Contains(textL, "morning"), "morning");
    r := AppendWhen(r, Contains(text, "夜") || Contains(textL, "night"), "night chill");
  }

  /** `mood_to_queries`: grow the tag list, drop repeats through a `seen`
      set, keep the first five. */
  method MoodToQueries(mood: string, text: string) returns (queries: seq<string>)
    ensures queries == QueryTags(mood, text)
    ensures 1 <= |queries| <= 5 && Distinct(queries)
  {
    var tags: seq<string> := [];
    if mood == "positive" || mood == "POSITIVE" || mood == "ポジティブ" {
      tags := tags + ["happy", "energetic", "summer", "uplifting", "j-pop happy"];
    } else if mood == "negative" || mood == "NEGATIVE" || mood == "ネガティブ" {
      if Contains(text, "疲") || Contains(text, "だる") || Contains(text, "しんど") {
        tags := tags + ["lofi beats", "chill", "healing piano", "relax", "study"];
      } else if Contains(text, "悲") || Contains(text, "泣") || Contains(text, "失恋") {
        tags := tags + ["sad lofi", "ballad", "piano sad", "j-pop ballad"];
      } else {
        tags := tags + ["calm", "chill", "ambient", "lofi"];
      }
    } else {
      tags := tags + ["focus", "lofi", "coffeehouse", "chillhop"];
    }
    ghost var base := tags;
    assert base == BaseTags(mood, text);
    tags := AppendContextTags(tags, text);
    var uniq := DedupLoop(tags, Same);
    DistinctBySame(uniq);
    queries := Take(uniq, 5);
  }

  const ContextVocabulary: set<string> := {"rainy day", "study lofi", "morning", "night chill"}

  /** Each contextual tag appears at most once and comes from the fixed
      vocabulary. */
  lemma ContextTagsDistinct(text: string)
    ensures Distinct(ContextTags(text))
    ensures forall x :: x in ContextTags(text) ==> x in ContextVocabulary
  {
    var c1 := CueTag(RainCue(text), "rainy day");
    var c2 := CueTag(StudyCue(text), "study lofi");
    var c3 := CueTag(MorningCue(text), "morning");
    var c4 := CueTag(NightCue(text), "night chill");
    DistinctConcat(c1, c2);
    DistinctConcat(c1 + c2, c3);
    DistinctConcat(c1 + c2 + c3, c4);
  }

  /** No base tag is repeated and no contextual tag is a base tag, so the
      deduplication never drops anything. */
  lemma TagsNeverRepeat(mood: string, text: string)
    ensures Distinct(BaseTags(mood, text) + ContextTags(text))
  {
    var base := BaseTags(mood, text);
    assert Distinct(base);
    assert forall x :: x in base ==> x !in ContextVocabulary;
    ContextTagsDistinct(text);
    DistinctConcat(base, ContextTags(text));
  }

  /** The shape of the result: the base list comes first and whole, the
      contextual tags fill what is left of five slots in their fixed order. */
  lemma QueryTagsShape(mood: string, text: string)
    ensures var base := BaseTags(mood, text);
            QueryTags(mood, text) == base + Take(ContextTags(text), 5 - |base|)
    ensures 1 <= |QueryTags(mood, text)| <= 5 && Distinct(QueryTags(mood, text))
  {
    var base := BaseTags(mood, text);
    var ctx := ContextTags(text);
    var all := base + ctx;
    TagsNeverRepeat(mood, text);
    DistinctBySame(all);
    DedupByOfDistinct(all, Same);
    var r := Take(all, 5);
    assert QueryTags(mood, text) == r;
    assert 4 <= |base| <= 5;
    if |all| > 5 {
      assert all[..5] == base + ctx[..5 - |base|];
    }
    assert Distinct(r);
  }

  /** A positive label never gains a contextual tag; a negative label with a
      fatigue cue gives exactly the five tired tags, whatever else the text
      says. */
  lemma FullBaseListsCrowdOutContext(mood: string, text: string)
    ensures IsPositiveLabel(mood) ==> QueryTags(mood, text) == HappyTags
    ensures IsNegativeLabel(mood) && FatigueCue(text) ==> QueryTags(mood, text) == TiredTags
  {
    QueryTagsShape(mood, text);
  }

  /** A four-tag base list gains the first contextual tag found, if any: for
      a negative text with a rain cue and no fatigue or sadness cue the tags
      are calm, chill, ambient, lofi, rainy day. */
  lemma FourTagBasesGainFirstContext(mood: string, text: string)
    ensures !IsPositiveLabel(mood) && !(IsNegativeLabel(mood) && FatigueCue(text)) ==>
              QueryTags(mood, text) == BaseTags(mood, text) + Take(ContextTags(text), 1)
    ensures IsNegativeLabel(mood) && !FatigueCue(text) && !SadCue(text) && RainCue(text) ==>
              QueryTags(mood, text) == ["calm", "chill", "ambient", "lofi", "rainy day"]
  {
    QueryTagsShape(mood, text);
  }
}
