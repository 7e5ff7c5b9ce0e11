/** One exchange across both ends: the request the screen sends is
    answered by the chat endpoint, and the JSON it returns becomes the
    reply the screen reads. Transport is left out: the request and the
    response pass through unchanged. */
module Exchange {
  import opened Wrappers
  import ReplyRouter
  import ChatController
  import Emotion

  /** The endpoint's JSON object as the screen reads it: every key the
      endpoint writes is present, and "confidence" is absent from the
      crisis response. */
  function ToReply(r: ReplyRouter.ChatResponse): ChatController.Reply {
    ChatController.Reply(r.text, Some(r.emotion), r.confidence, Some(r.isCrisis))
  }

  /** The outcome of a request that the endpoint answers: the reply always
      carries an emotion and a crisis flag, and lacks a confidence exactly
      when it is flagged as a crisis. */
  function Serve(req: ChatController.Request, classify: string -> Emotion.Classification): (o: ChatController.Outcome)
    ensures o.Success?
    ensures o.reply.emotion.Some? && o.reply.isCrisis.Some?
    ensures o.reply.confidence.None? <==> o.reply.isCrisis == Some(true)
  {
    var response := ReplyRouter.Chat(ReplyRouter.ChatRequest(req.userId, Some(req.message)), classify);
    ChatController.Success(ToReply(response))
  }

  /** A crisis message comes back as an assistant message flagged as a
      crisis, labelled "crisis", without a confidence; the label has no
      icon or colour of its own, so it shows the defaults. */
  lemma CrisisTurnShown(req: ChatController.Request, classify: string -> Emotion.Classification)
    requires ReplyRouter.CrisisCheck(req.message)
    ensures var m := ChatController.AssistantMessage(Serve(req, classify));
            && m.role == ChatController.Assistant
            && m.content == ReplyRouter.CrisisText
            && m.isCrisis == Some(true)
            && m.emotion == Some("crisis")
            && m.confidence == None
            && ChatController.EmotionIcon(m.emotion) == ChatController.DefaultIcon
            && ChatController.EmotionColor(m.emotion) == ChatController.DefaultColor
  {
  }

  /** Any other message comes back unflagged, with the detector's label
      and score, and the reply chosen for that label. */
  lemma OrdinaryTurnShown(req: ChatController.Request, classify: string -> Emotion.Classification)
    requires !ReplyRouter.CrisisCheck(req.message)
    ensures var m := ChatController.AssistantMessage(Serve(req, classify));
            var d := Emotion.DetectEmotion(req.message, classify);
            && m.role == ChatController.Assistant
            && m.content == ReplyRouter.ReplyFor(d.emotion)
            && m.isCrisis == Some(false)
            && m.emotion == Some(d.emotion)
            && m.confidence == Some(d.confidence)
  {
  }
}
