/**
  * The categorical classifier (`dominantEmotion`): the first emotion with the
  * highest score, lower-cased and matched by substring against six fixed
  * vocabularies tested in a fixed order.
  */
module Classification {
  import opened EmotionScores

  /** EMOTION_GROUPS, in the order they are tested. */
  const EmotionGroups: seq<(string, seq<string>)> := [
    ("happy", ["joy", "happiness", "amusement", "contentment", "excited"]),
    ("calm", ["calm", "relaxed", "content", "serenity"]),
    ("sad", ["sad", "sadness", "disappointment", "despair"]),
    ("angry", ["anger", "angry", "annoyance", "frustration"]),
    ("fear", ["fear", "anxiety", "nervousness", "panic"]),
    ("neutral", ["neutral", "boredom"])
  ]

  const GroupNames: set<string> := {"happy", "calm", "sad", "angry", "fear", "neutral"}

  /** The `label` (here `tag`, a reserved word in Dafny) and `confidence` returned by `dominantEmotion`. */
  datatype Dominance = Dominance(tag: string, confidence: real)

  function LowerChar(c: char): char
  {
    if 'A' <= c <= 'Z' then (c as int + 32) as char else c
  }

  /** `toLowerCase`, restricted to ASCII letters. */
  function AsciiLower(s: string): string
  {
    seq(|s|, i requires 0 <= i < |s| => LowerChar(s[i]))
  }

  /** `w` occurs in `s` starting at position `i`. */
  predicate OccursAt(s: string, w: string, i: nat)
  {
    i + |w| <= |s| && s[i..i + |w|] == w
  }

  /** `s.includes(w)`: `w` occurs in `s` as a contiguous substring. */
  predicate Contains(s: string, w: string)
  {
    exists i: nat :: i <= |s| && OccursAt(s, w, i)
  }

  /** `words.some((emotion) => key.includes(emotion))` */
  predicate Mentions(key: string, words: seq<string>)
  {
    exists j :: 0 <= j < |words| && Contains(key, words[j])
  }

  /** The first group whose vocabulary has a word occurring in `key`. */
  function FirstGroup(key: string, groups: seq<(string, seq<string>)>): (r: Option<string>)
    ensures r == None <==> forall j :: 0 <= j < |groups| ==> !Mentions(key, groups[j].1)
    ensures r.Some? ==> exists j :: 0 <= j < |groups| && r.value == groups[j].0
  {
    if groups == [] then None
    else if Mentions(key, groups[0].1) then Some(groups[0].0)
    else
      var r := FirstGroup(key, groups[1..]);
      assert forall j :: 1 <= j < |groups| ==> groups[j] == groups[1..][j - 1];
      r
  }

  /** A group that matches, after groups that do not, is the one chosen. */
  lemma {:induction false} FirstGroupIsFirstMatch(key: string, groups: seq<(string, seq<string>)>, j: nat)
    requires j < |groups|
    requires Mentions(key, groups[j].1)
    requires forall i :: 0 <= i < j ==> !Mentions(key, groups[i].1)
    ensures FirstGroup(key, groups) == Some(groups[j].0)
  {
    if j > 0 {
      assert !Mentions(key, groups[0].1);
      assert forall i :: 0 <= i < j - 1 ==> groups[1..][i] == groups[i + 1];
      FirstGroupIsFirstMatch(key, groups[1..], j - 1);
    }
  }

  /** The label of an emotion key; always one of the six group names. */
  function Classify(key: string): (tag: string)
    ensures tag in GroupNames
  {
    match FirstGroup(AsciiLower(key), EmotionGroups)
    case Some(g) => g
    case None => "neutral"
  }

  /**
    * The label is the first group, in the order happy, calm, sad, angry,
    * fear, neutral, with a word occurring in the lower-cased key, and
    * "neutral" when no group has one.
    */
  lemma ClassifySpec(key: string, j: nat)
    requires j < |EmotionGroups|
    ensures (Mentions(AsciiLower(key), EmotionGroups[j].1) &&
             forall i :: 0 <= i < j ==> !Mentions(AsciiLower(key), EmotionGroups[i].1))
            ==> Classify(key) == EmotionGroups[j].0
    ensures (forall i :: 0 <= i < |EmotionGroups| ==> !Mentions(AsciiLower(key), EmotionGroups[i].1))
            ==> Classify(key) == "neutral"
  {
    if Mentions(AsciiLower(key), EmotionGroups[j].1) &&
       forall i :: 0 <= i < j ==> !Mentions(AsciiLower(key), EmotionGroups[i].1)
    {
      FirstGroupIsFirstMatch(AsciiLower(key), EmotionGroups, j);
    }
  }

  /** Classification ignores ASCII case. */
  lemma ClassifyIgnoresCase(key: string)
    ensures Classify(AsciiLower(key)) == Classify(key)
  {
    assert AsciiLower(AsciiLower(key)) == AsciiLower(key);
  }

  /** The key the loop of `dominantEmotion` settles on: the first one with the largest score. */
  function BestIndex(scores: Scores): (b: nat)
    requires |scores| > 0
    ensures b < |scores|
    ensures forall j :: 0 <= j < |scores| ==> scores[j].1 <= scores[b].1
    ensures forall j :: 0 <= j < b ==> scores[j].1 < scores[b].1
  {
    if |scores| == 1 then 0
    else
      var b := BestIndex(scores[..|scores| - 1]);
      if scores[|scores| - 1].1 > scores[b].1 then |scores| - 1 else b
  }

  /** An index holding the largest score, with only smaller scores before it. */
  predicate IsFirstMax(scores: Scores, b: int)
  {
    && 0 <= b < |scores|
    && (forall j :: 0 <= j < |scores| ==> scores[j].1 <= scores[b].1)
    && (forall j :: 0 <= j < b ==> scores[j].1 < scores[b].1)
  }

  lemma FirstMaxUnique(scores: Scores, b: int)
    requires IsFirstMax(scores, b)
    ensures b == BestIndex(scores)
  {
  }

  /** `dominantEmotion` as a value. */
  function Dominant(scores: Scores): Dominance
  {
    if |scores| == 0 then Dominance("neutral", 0.0)
    else
      var b := BestIndex(scores);
      Dominance(Classify(scores[b].0), scores[b].1)
  }

  /**
    * `dominantEmotion`: no scores give ("neutral", 0); otherwise the
    * confidence is the largest score, and the label classifies the first key
    * reaching it.
    */
  method DominantEmotion(scores: Scores) returns (d: Dominance)
    ensures |scores| == 0 ==> d == Dominance("neutral", 0.0)
    ensures |scores| > 0 ==> exists b :: IsFirstMax(scores, b) && d == Dominance(Classify(scores[b].0), scores[b].1)
    ensures d.tag in GroupNames
    ensures d == Dominant(scores)
  {
    if |scores| == 0 {
      return Dominance("neutral", 0.0);
    }
    var bestKey := "neutral";
    var bestScore: Option<real> := None;  // -Infinity
    ghost var b := 0;
    for i := 0 to |scores|
      invariant bestScore.None? <==> i == 0
      invariant b < |scores|
      invariant i > 0 ==> b < i && bestKey == scores[b].0 && bestScore == Some(scores[b].1)
      invariant i > 0 ==> forall j :: 0 <= j < i ==> scores[j].1 <= scores[b].1
      invariant forall j :: 0 <= j < b ==> scores[j].1 < scores[b].1
    {
      var (key, value) := scores[i];
      if bestScore.None? || value > bestScore.value {
        bestScore := Some(value);
        bestKey := key;
        b := i;
      }
    }
    FirstMaxUnique(scores, b);
    d := Dominance(Classify(bestKey), bestScore.value);
  }

  /** The label is always one of the six groups, also when no group matches. */
  lemma DominantLabel(scores: Scores)
    ensures Dominant(scores).tag in GroupNames
    ensures |scores| > 0 ==> Dominant(scores).confidence == scores[BestIndex(scores)].1
  {
  }

  /** The key of the source's first test case. */
  lemma ClassifyJoy()
    ensures Classify("joy") == "happy"
  {
    assert AsciiLower("joy") == "joy";
    assert OccursAt("joy", "joy", 0);
    assert Mentions("joy", EmotionGroups[0].1) by { assert Contains("joy", EmotionGroups[0].1[0]); }
    FirstGroupIsFirstMatch("joy", EmotionGroups, 0);
  }

  /** The key of the source's second test case. */
  lemma ClassifySad()
    ensures Classify("sad") == "sad"
  {
    assert AsciiLower("sad") == "sad";
    assert OccursAt("sad", "sad", 0);
    assert Mentions("sad", EmotionGroups[2].1) by { assert Contains("sad", EmotionGroups[2].1[0]); }
    assert !Contains("sad", "joy") by {
      assert "sad"[0..3] == "sad";
      assert "sad"[0] != "joy"[0];
    }
    assert !Mentions("sad", EmotionGroups[0].1);
    assert !Mentions("sad", EmotionGroups[1].1);
    FirstGroupIsFirstMatch("sad", EmotionGroups, 2);
  }
}
