/** The chat endpoint (backend/app/main.py): a crisis check on the message
    first, then a fixed reply chosen by the detected emotion.

    The HTTP layer, CORS and request validation are not modelled; the
    request body arrives as a value, and the emotion classifier behind
    `detect_emotion` is a parameter. */
module ReplyRouter {
  import opened Wrappers
  import opened Text
  import Emotion

  const CrisisKeywords: seq<string> := ["suicide", "kill myself", "end my life", "want to die"]

  const CrisisText: string :=
    "I'm very concerned about what you're feeling. " +
    "Please reach out for immediate help:\n" +
    "- \U{1F4DE} 988 (US)\n" +
    "- \U{260E}\U{FE0F} AASRA: +91-22-27546669 (India)\n" +
    "You are not alone; help is available right now."

  const SadnessReply: string :=
    "I sense sadness in your words. Remember, even in the darkest moments, " +
    "the light of your true self never fades. Take a slow breath. \U{1F33C}"
  const JoyReply: string :=
    "Your joy is beautiful. Cherish it, for joy shared with others grows manifold."
  const AngerReply: string :=
    "Anger clouds clarity. Pause for a moment and breathe deeply \U{2014} wisdom will return."
  const FearReply: string :=
    "Do not fear what lies ahead. You are guided and protected by purpose and strength within."
  const ListeningReply: string :=
    "I'm listening, my friend. Speak freely \U{2014} I am here to walk beside you."

  /** The request body. A missing message is `None`. */
  datatype ChatRequest = ChatRequest(userId: string, message: Option<string>)

  /** The JSON object the endpoint returns; the crisis reply has no
      "confidence" key. */
  datatype ChatResponse = ChatResponse(text: string, emotion: string, confidence: Option<real>, isCrisis: bool)

  /** Some keyword of `keys` occurs in `t`. */
  function AnyKeyword(keys: seq<string>, t: string): (r: bool)
    ensures r <==> exists k :: k in keys && Contains(t, k)
  {
    if keys == [] then false
    else if Contains(t, keys[0]) then
      assert keys[0] in keys;
      true
    else
      var r := AnyKeyword(keys[1..], t);
      assert forall k :: k in keys <==> k == keys[0] || k in keys[1..];
      r
  }

  /** `crisis_check(text)`: the lower-cased text contains one of the crisis
      keywords. */
  function CrisisCheck(text: string): (r: bool)
    ensures r <==> exists k :: k in CrisisKeywords && Contains(Lower(text), k)
  {
    AnyKeyword(CrisisKeywords, Lower(text))
  }

  /** The check ignores letter case. */
  lemma CrisisCheckIgnoresCase(text: string)
    ensures CrisisCheck(text) == CrisisCheck(Lower(text))
  {
    LowerIdempotent(text);
  }

  /** The empty message is never a crisis. */
  lemma EmptyIsNoCrisis()
    ensures !CrisisCheck("")
  {
    forall k | k in CrisisKeywords
      ensures !Contains("", k)
    {
      assert |k| > 0;
    }
  }

  /** The reply for a detected emotion label. */
  function ReplyFor(emotion: string): (reply: string)
    ensures reply == ListeningReply <==>
              emotion != "sadness" && emotion != "joy" && emotion != "anger" && emotion != "fear"
  {
    if emotion == "sadness" then SadnessReply
    else if emotion == "joy" then JoyReply
    else if emotion == "anger" then AngerReply
    else if emotion == "fear" then FearReply
    else ListeningReply
  }

  /** The four recognised labels get four different replies. */
  lemma RepliesDistinct(e1: string, e2: string)
    requires e1 in {"sadness", "joy", "anger", "fear"} && e2 in {"sadness", "joy", "anger", "fear"}
    ensures ReplyFor(e1) == ReplyFor(e2) <==> e1 == e2
  {
  }

  /** The crisis response. */
  const CrisisResponse := ChatResponse(CrisisText, "crisis", None, true)

  /** `chat(req)`: a crisis message gets the crisis response whatever the
      classifier would say; any other message gets the detector's label and
      score and the reply for that label. */
  function Chat(req: ChatRequest, classify: string -> Emotion.Classification): (r: ChatResponse)
    ensures var text := if req.message.Some? then req.message.value else "";
            && (r.isCrisis <==> CrisisCheck(text))
            && (r.isCrisis ==> r == CrisisResponse)
            && (!r.isCrisis ==>
                  var d := Emotion.DetectEmotion(text, classify);
                  r.emotion == d.emotion && r.confidence == Some(d.confidence) &&
                  r.text == ReplyFor(d.emotion))
  {
    var text := if req.message.Some? then req.message.value else "";
    if CrisisCheck(text) then CrisisResponse
    else
      var d := Emotion.DetectEmotion(text, classify);
      ChatResponse(ReplyFor(d.emotion), d.emotion, Some(d.confidence), false)
  }

  /** The classifier is never consulted on a crisis message: the response
      is the same whichever classifier is supplied. */
  lemma CrisisSkipsDetector(req: ChatRequest, c1: string -> Emotion.Classification, c2: string -> Emotion.Classification)
    requires CrisisCheck(if req.message.Some? then req.message.value else "")
    ensures Chat(req, c1) == Chat(req, c2) == CrisisResponse
  {
  }

  /** A missing message is treated as the empty message, which is never a
      crisis and is classified "neutral" with score 0. */
  lemma MissingMessageIsNeutral(userId: string, classify: string -> Emotion.Classification)
    ensures Chat(ChatRequest(userId, None), classify) ==
              ChatResponse(ListeningReply, "neutral", Some(0.0), false)
  {
    EmptyIsNoCrisis();
  }
}
