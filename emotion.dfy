/** Emotion selection (backend/app/emotion.py): a guard for blank input,
    then the highest-scoring label of an external text classifier, with a
    fallback when the classifier fails.

    The classifier itself is a parameter: for a text it either raises or
    returns a list of result lists, each a list of (label, score)
    candidates. */
module Emotion {
  import opened Text

  datatype Candidate = Candidate(name: string, score: real)

  /** What one call of the classifier does. */
  datatype Classification =
    | Classified(results: seq<seq<Candidate>>)
    | Raised

  /** The pair `detect_emotion` returns. */
  datatype Detection = Detection(emotion: string, confidence: real)

  const Neutral := Detection("neutral", 0.0)
  const Failed := Detection("error", 0.0)

  /** `i` is where Python's `max(scores, key=score)` lands: a candidate with
      the largest score, and the first such one. */
  ghost predicate IsFirstMax(scores: seq<Candidate>, i: int) {
    && 0 <= i < |scores|
    && (forall j :: 0 <= j < |scores| ==> scores[j].score <= scores[i].score)
    && (forall j :: 0 <= j < i ==> scores[j].score < scores[i].score)
  }

  /** The index `max` picks. It scans from the left and replaces the
      current best only on a strictly larger score, so ties keep the
      earliest candidate. */
  function FirstMax(scores: seq<Candidate>): (i: nat)
    requires |scores| > 0
    ensures IsFirstMax(scores, i)
  {
    if |scores| == 1 then 0
    else
      var k := FirstMax(scores[..|scores| - 1]);
      if scores[|scores| - 1].score > scores[k].score then |scores| - 1 else k
  }

  /** There is only one first maximum, so `FirstMax` is the answer. */
  lemma FirstMaxUnique(scores: seq<Candidate>, i: int, j: int)
    requires IsFirstMax(scores, i) && IsFirstMax(scores, j)
    ensures i == j
  {
    // A smaller index would have to score strictly less than the other
    // and at least as much as it.
    assert scores[i].score == scores[j].score;
    assert !(i < j) && !(j < i);
  }

  /** `detect_emotion(text)`. */
  function DetectEmotion(text: string, classify: string -> Classification): (d: Detection)
    ensures AllSpace(text) ==> d == Neutral
    ensures !AllSpace(text) && classify(text).Raised? ==> d == Failed
    ensures !AllSpace(text) && classify(text).Classified? ==>
              var results := classify(text).results;
              if |results| == 0 || |results[0]| == 0 then d == Failed
              else exists i :: IsFirstMax(results[0], i) &&
                     d == Detection(Lower(results[0][i].name), results[0][i].score)
  {
    StripEmptyIffAllSpace(text);
    if Strip(text) == [] then Neutral
    else
      match classify(text)
      case Raised => Failed
      case Classified(results) =>
        // `results[0]` on an empty list and `max` of an empty list both
        // raise, and the handler turns that into the error pair.
        if |results| == 0 || |results[0]| == 0 then Failed
        else
          var scores := results[0];
          var best := scores[FirstMax(scores)];
          Detection(Lower(best.name), best.score)
  }

  /** A non-blank text that the classifier scores gets a confidence at
      least as large as every candidate's score, and a label that is one
      of the candidates' labels, lower-cased. */
  lemma DetectionIsMaximal(text: string, classify: string -> Classification)
    requires !AllSpace(text) && classify(text).Classified?
    requires |classify(text).results| > 0 && |classify(text).results[0]| > 0
    ensures var d := DetectEmotion(text, classify);
            var scores := classify(text).results[0];
            && (forall j :: 0 <= j < |scores| ==> scores[j].score <= d.confidence)
            && (exists c :: c in scores && d == Detection(Lower(c.name), c.score))
  {
    var d := DetectEmotion(text, classify);
    var scores := classify(text).results[0];
    var i :| IsFirstMax(scores, i) && d == Detection(Lower(scores[i].name), scores[i].score);
    assert scores[i] in scores;
  }

  /** Blank text never reaches the classifier: the result does not depend
      on it. */
  lemma BlankSkipsClassifier(text: string, c1: string -> Classification, c2: string -> Classification)
    requires AllSpace(text)
    ensures DetectEmotion(text, c1) == DetectEmotion(text, c2) == Neutral
  {
  }
}
