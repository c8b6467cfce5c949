/**
 * `handleEvent`: the per-event reply decision. A text message is escalated
 * when it mentions installation or sizing, handed to staff during working
 * hours, and otherwise answered with the language model's first completion.
 */
module Router {
  import opened Wrappers
  import opened JsText
  import opened Keywords
  import opened Schedule

  /** The `message` object of a messaging event: its `type` and, for text, its `text`. */
  datatype Message = Message(messageType: string, text: string)

  /** An inbound webhook event; `message` is absent on most non-message events. */
  datatype Event = Event(eventType: string, replyToken: string, message: Option<Message>)

  /** What is asked of the completion API: the trimmed user text (system prompt and sampling settings are fixed). */
  datatype CompletionRequest = CompletionRequest(userText: string)

  /** The completion API's answer: the list of choices, or a rejected call. */
  datatype Completion = Choices(contents: seq<string>) | ApiError

  /**
   * What an event's handling observes of the world: the local day and hour
   * read when the event is handled, and the completion API.
   */
  datatype Context = Context(day: Day, hour: Hour, complete: CompletionRequest -> Completion)

  datatype Strategy = Escalate | Handoff | ModelFallback

  /** One `replyMessage` call: the reply token and the texts of its messages. */
  datatype Reply = Reply(replyToken: string, texts: seq<string>)

  /** Why `handleEvent` rejects. */
  datatype HandlerError =
    | MissingMessage    // a `message` event without a `message` object
    | CompletionFailed  // the completion call was rejected
    | NoChoice          // the completion came back with no choices

  type Handled = Result<Option<Reply>, HandlerError>

  /** The two messages sent when an installation question is escalated. */
  const EscalationTexts: seq<string> := [
    "รายละเอียดการติดตั้งขึ้นอยู่กับพื้นที่จริง ทีมช่างจะติดต่อกลับภายใน 1 วันทำการค่ะ",
    "กรุณาพิมพ์ชื่อและเบอร์โทรไว้เพื่อให้เราติดต่อกลับได้เร็วที่สุด 🙏"
  ]

  /** The message sent when staff will answer in person. */
  const HandoffText: string :=
    "ตอนนี้เป็นเวลาทำการ พนักงาน Ascenda จะตอบกลับคุณโดยตรงในไม่ช้า ขอบคุณค่ะ"

  /** Only message events carrying a text message get a reply. */
  predicate IsActionable(e: Event) {
    e.eventType == "message" && e.message.Some? && e.message.value.messageType == "text"
  }

  /** The text the decision works on: the message text, trimmed. */
  function UserText(e: Event): string
    requires IsActionable(e)
  {
    Trim(e.message.value.text)
  }

  /** The three guarded branches of `handleEvent`, first match wins. */
  function ChooseStrategy(userText: string, day: Day, hour: Hour): (s: Strategy)
    ensures s == Escalate <==> ContainsTrigger(userText)
    ensures s == Handoff <==> !ContainsTrigger(userText) && IsWorkingHours(day, hour)
    ensures s == ModelFallback <==> !ContainsTrigger(userText) && !IsWorkingHours(day, hour)
  {
    if Matches(userText) then Escalate
    else if IsWorkingHours(day, hour) then Handoff
    else ModelFallback
  }

  /** `handleEvent(event)`: no reply, one reply, or the error it rejects with. */
  function HandleEvent(e: Event, ctx: Context): (r: Handled)
    ensures r.Success? && r.value.Some? ==> IsActionable(e) && r.value.value.replyToken == e.replyToken
    ensures r == Failure(MissingMessage) <==> e.eventType == "message" && e.message.None?
    ensures r == Success(None) <==> !IsActionable(e) && !(e.eventType == "message" && e.message.None?)
  {
    if e.eventType != "message" then Success(None)
    else if e.message.None? then Failure(MissingMessage)
    else if e.message.value.messageType != "text" then Success(None)
    else
      var userText := Trim(e.message.value.text);
      match ChooseStrategy(userText, ctx.day, ctx.hour)
      case Escalate => Success(Some(Reply(e.replyToken, EscalationTexts)))
      case Handoff => Success(Some(Reply(e.replyToken, [HandoffText])))
      case ModelFallback =>
        match ctx.complete(CompletionRequest(userText))
        case ApiError => Failure(CompletionFailed)
        case Choices(cs) =>
          if |cs| == 0 then Failure(NoChoice) else Success(Some(Reply(e.replyToken, [cs[0]])))
  }

  // ---------------------------------------------------------------------
  // Properties of the decision

  /** Events that are not text messages get no reply and raise no error. */
  lemma NonTextIgnored(e: Event, ctx: Context)
    requires e.eventType != "message" || (e.message.Some? && e.message.value.messageType != "text")
    ensures HandleEvent(e, ctx) == Success(None)
  {
  }

  /**
   * A text containing a trigger term anywhere, before or after trimming, is
   * escalated with the two fixed messages whatever the day and hour, and
   * without asking the completion API.
   */
  lemma EscalationIgnoresClock(e: Event, ctx: Context)
    requires IsActionable(e) && ContainsTrigger(e.message.value.text)
    ensures HandleEvent(e, ctx) == Success(Some(Reply(e.replyToken, EscalationTexts)))
    ensures |EscalationTexts| == 2
  {
    TrimKeepsTrigger(e.message.value.text);
  }

  /** A text without a trigger, during working hours, is handed to staff with one fixed message. */
  lemma HandoffInWorkingHours(e: Event, ctx: Context)
    requires IsActionable(e) && !ContainsTrigger(e.message.value.text)
    requires IsWorkingHours(ctx.day, ctx.hour)
    ensures HandleEvent(e, ctx) == Success(Some(Reply(e.replyToken, [HandoffText])))
  {
    TrimKeepsTrigger(e.message.value.text);
  }

  /**
   * A text without a trigger, outside working hours, is answered with the
   * first choice of the completion for the trimmed text; a rejected call or
   * an empty list of choices makes the event fail.
   */
  lemma FallbackOutsideWorkingHours(e: Event, ctx: Context)
    requires IsActionable(e) && !ContainsTrigger(e.message.value.text)
    requires !IsWorkingHours(ctx.day, ctx.hour)
    ensures var c := ctx.complete(CompletionRequest(Trim(e.message.value.text)));
            && (c.ApiError? ==> HandleEvent(e, ctx) == Failure(CompletionFailed))
            && (c.Choices? && |c.contents| == 0 ==> HandleEvent(e, ctx) == Failure(NoChoice))
            && (c.Choices? && |c.contents| > 0 ==>
                  HandleEvent(e, ctx) == Success(Some(Reply(e.replyToken, [c.contents[0]]))))
  {
    TrimKeepsTrigger(e.message.value.text);
  }

  /**
   * Unless the strategy is ModelFallback, the completion API is not asked:
   * the outcome is the same whatever it would answer.
   */
  lemma NoCompletionUnlessFallback(e: Event, day: Day, hour: Hour,
                                   c1: CompletionRequest -> Completion, c2: CompletionRequest -> Completion)
    requires !IsActionable(e) || ChooseStrategy(UserText(e), day, hour) != ModelFallback
    ensures HandleEvent(e, Context(day, hour, c1)) == HandleEvent(e, Context(day, hour, c2))
  {
  }

  /**
   * The completion API is asked at most once, and only about the trimmed
   * user text: two APIs that agree on that one request give the same outcome.
   */
  lemma CompletionSeesOnlyUserText(e: Event, day: Day, hour: Hour,
                                   c1: CompletionRequest -> Completion, c2: CompletionRequest -> Completion)
    requires IsActionable(e) ==> c1(CompletionRequest(UserText(e))) == c2(CompletionRequest(UserText(e)))
    ensures HandleEvent(e, Context(day, hour, c1)) == HandleEvent(e, Context(day, hour, c2))
  {
  }

  /** A reply holds two messages when escalated and one otherwise. */
  lemma ReplySize(e: Event, ctx: Context)
    requires HandleEvent(e, ctx).Success? && HandleEvent(e, ctx).value.Some?
    ensures var n := |HandleEvent(e, ctx).value.value.texts|;
            n == (if ChooseStrategy(UserText(e), ctx.day, ctx.hour) == Escalate then 2 else 1)
  {
  }

  /** Worked examples: trigger terms escalate at any hour, on any day. */
  lemma EscalationExamples()
    ensures ChooseStrategy("ติดตั้ง", 3, 3) == Escalate              // Wednesday 03:00
    ensures ChooseStrategy("GaTe", Sunday, 12) == Escalate
  {
    assert ContainsTrigger("ติดตั้ง") by { EveryTermTriggers(1); }
    assert ContainsTrigger("GaTe") by { MixedCaseExamples(); }
  }

  /** Worked examples: a greeting is handed off in working hours and answered by the model otherwise. */
  lemma GreetingExamples()
    ensures ChooseStrategy("สวัสดี", 3, 10) == Handoff                // Wednesday 10:00
    ensures ChooseStrategy("สวัสดี", Sunday, 12) == ModelFallback     // Sunday 12:00
    ensures ChooseStrategy("สวัสดี", 3, 20) == ModelFallback          // Wednesday 20:00
  {
    NonTriggerExamples();
  }

  /** Worked examples: a doubled separator between `cut` and `out` does not escalate. */
  lemma CutOutExamples()
    ensures ChooseStrategy("cut out", 2, 10) == Escalate
    ensures ChooseStrategy("cut--out", 1, 18) == ModelFallback        // Monday 18:00
  {
    CutOutVariantsTrigger(' ');
    assert "cut" + [' '] + "out" == "cut out";
    NonTriggerExamples();
  }
}
