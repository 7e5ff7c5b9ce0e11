/** The chat screen's state and its send action (frontend/src/App.tsx).

    The component's three pieces of state (the draft `text`, the message
    log `messages` and the `loading` flag) are the fields of `Chat`. The
    `send` handler runs in two steps around its `await`: `Press` is the
    part before it (the Send button, disabled while loading, and the
    synchronous start of `send`), `Resolve` the part after it, given the
    outcome of the POST as a value. `Send` runs both. Rendering is not
    modelled. */
module ChatController {
  import opened Wrappers
  import opened Text

  datatype Role = User | Assistant

  datatype Message = Message(
    role: Role,
    content: string,
    emotion: Option<string>,
    confidence: Option<real>,
    isCrisis: Option<bool>)

  /** The body of the POST to /api/chat. */
  datatype Request = Request(userId: string, message: string)

  /** The fields of the service's JSON reply that the screen reads; any
      of the annotations may be absent. */
  datatype Reply = Reply(
    text: string,
    emotion: Option<string>,
    confidence: Option<real>,
    isCrisis: Option<bool>)

  /** How the POST ended: a reply, or any network or server error. */
  datatype Outcome = Success(reply: Reply) | Failure

  const UserId := "user1"
  const ServerError := "Server error. Please try again."
  const DefaultIcon := "\U{1F549}\U{FE0F}"
  const DefaultColor := "#e0e0e0"

  /** The icon shown beside an assistant message. */
  function EmotionIcon(emotion: Option<string>): (icon: string)
    ensures icon == DefaultIcon <==>
              emotion !in {Some("joy"), Some("sadness"), Some("anger"), Some("fear"), Some("surprise")}
  {
    match emotion
    case Some("joy") => "\U{1F60A}"
    case Some("sadness") => "\U{1F614}"
    case Some("anger") => "\U{1F621}"
    case Some("fear") => "\U{1F628}"
    case Some("surprise") => "\U{1F632}"
    case _ => DefaultIcon
  }

  /** The background colour of an assistant message. There is no entry
      for "surprise". */
  function EmotionColor(emotion: Option<string>): (color: string)
    ensures color == DefaultColor <==>
              emotion !in {Some("joy"), Some("sadness"), Some("anger"), Some("fear")}
  {
    match emotion
    case Some("joy") => "#fff9c4"
    case Some("sadness") => "#bbdefb"
    case Some("anger") => "#ffcdd2"
    case Some("fear") => "#d1c4e9"
    case _ => DefaultColor
  }

  /** Each of the five labels with an icon has its own icon. */
  lemma IconsDistinct(e1: string, e2: string)
    requires e1 in {"joy", "sadness", "anger", "fear", "surprise"}
    requires e2 in {"joy", "sadness", "anger", "fear", "surprise"}
    ensures EmotionIcon(Some(e1)) == EmotionIcon(Some(e2)) <==> e1 == e2
  {
  }

  /** The message appended when the draft is sent: the draft as typed,
      untrimmed, with no annotations. */
  function UserMessage(draft: string): Message {
    Message(User, draft, None, None, None)
  }

  /** The message appended when the request ends: the reply's fields on
      success, the fixed apology without annotations on failure. */
  function AssistantMessage(outcome: Outcome): Message {
    match outcome
    case Success(reply) => Message(Assistant, reply.text, reply.emotion, reply.confidence, reply.isCrisis)
    case Failure => Message(Assistant, ServerError, None, None, None)
  }

  /** Users and assistants take turns, the user first. */
  ghost predicate Alternating(log: seq<Message>) {
    forall i :: 0 <= i < |log| ==> log[i].role == (if i % 2 == 0 then User else Assistant)
  }

  /** Appending the message whose turn it is keeps the turns alternating. */
  lemma AlternatingAppend(log: seq<Message>, m: Message)
    requires Alternating(log)
    requires m.role == (if |log| % 2 == 0 then User else Assistant)
    ensures Alternating(log + [m])
  {
    var log' := log + [m];
    forall i | 0 <= i < |log'|
      ensures log'[i].role == (if i % 2 == 0 then User else Assistant)
    {
      if i < |log| {
        assert log'[i] == log[i];
      }
    }
  }

  /** The number of messages in the log sent by `role`. */
  function CountRole(log: seq<Message>, role: Role): nat {
    if log == [] then 0
    else CountRole(log[..|log| - 1], role) + (if log[|log| - 1].role == role then 1 else 0)
  }

  /** Every message is the user's or the assistant's. */
  lemma {:induction false} CountRolesPartition(log: seq<Message>)
    ensures CountRole(log, User) + CountRole(log, Assistant) == |log|
  {
    if log != [] {
      CountRolesPartition(log[..|log| - 1]);
    }
  }

  /** In a log of turns taken in order, every user message has exactly one
      assistant message answering it, except the last one while its reply
      is pending. */
  lemma {:induction false} AlternatingCounts(log: seq<Message>)
    requires Alternating(log)
    ensures CountRole(log, User) == (|log| + 1) / 2
    ensures CountRole(log, Assistant) == |log| / 2
  {
    if log != [] {
      var prefix := log[..|log| - 1];
      assert Alternating(prefix) by {
        forall i | 0 <= i < |prefix| ensures prefix[i] == log[i] { }
      }
      AlternatingCounts(prefix);
    }
  }

  class Chat {
    var text: string
    var messages: seq<Message>
    var loading: bool

    /** Turns alternate, and a request is outstanding exactly when the last
        message is a user message still waiting for its answer. */
    ghost predicate Valid()
      reads this
    {
      Alternating(messages) && (loading <==> |messages| % 2 == 1)
    }

    /** The initial state: empty draft, empty log, not loading. */
    constructor ()
      ensures Valid()
      ensures text == "" && messages == [] && !loading
    {
      text := "";
      messages := [];
      loading := false;
    }

    /** Typing in the text area replaces the draft. */
    method Edit(value: string)
      requires Valid()
      modifies this`text
      ensures Valid()
      ensures text == value
    {
      text := value;
    }

    /** A click on Send. The button is disabled while a request is
        outstanding, and a blank draft is ignored; otherwise the draft is
        appended as a user message, cleared, and a request for it is
        issued. */
    method Press() returns (request: Option<Request>)
      requires Valid()
      modifies this`text, this`messages, this`loading
      ensures Valid()
      ensures request.Some? <==> !old(loading) && !AllSpace(old(text))
      ensures request.Some? ==>
                && request.value == Request(UserId, old(text))
                && messages == old(messages) + [UserMessage(old(text))]
                && text == ""
                && loading
      ensures request.None? ==>
                messages == old(messages) && text == old(text) && loading == old(loading)
    {
      if loading {
        return None;
      }
      // `!text.trim()`, which StripEmptyIffAllSpace shows is `AllSpace(text)`.
      if AllSpace(text) {
        return None;
      }
      var userMessage := UserMessage(text);
      AlternatingAppend(messages, userMessage);
      messages := messages + [userMessage];
      text := "";
      loading := true;
      request := Some(Request(UserId, userMessage.content));
    }

    /** The request ends: one assistant message is appended and loading
        stops. The draft, which may have been edited meanwhile, is left
        alone. */
    method Resolve(outcome: Outcome)
      requires Valid() && loading
      modifies this`messages, this`loading
      ensures Valid() && !loading
      ensures messages == old(messages) + [AssistantMessage(outcome)]
    {
      AlternatingAppend(messages, AssistantMessage(outcome));
      messages := messages + [AssistantMessage(outcome)];
      loading := false;
    }

    /** `send()` run to completion with the given outcome. */
    method Send(outcome: Outcome) returns (sent: bool)
      requires Valid()
      modifies this`text, this`messages, this`loading
      ensures Valid()
      ensures sent <==> !old(loading) && !AllSpace(old(text))
      ensures sent ==>
                && messages == old(messages) + [UserMessage(old(text)), AssistantMessage(outcome)]
                && text == ""
                && !loading
      ensures !sent ==> messages == old(messages) && text == old(text) && loading == old(loading)
    {
      var request := Press();
      sent := request.Some?;
      if sent {
        Resolve(outcome);
      }
    }
  }
}
