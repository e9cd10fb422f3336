/** The chat session controller returned by `useChat`
    (src/composables/useChat.ts): reactive flags, the message input buffer,
    the contact details, and the transcript, changed by `toggleChat`,
    `submitUserInfo` and `sendMessage`.

    Each awaited webhook call is one atomic step: its result is the
    `Outcome` parameter of the operation, and a ghost log records every
    request body the controller would send. */
module Chat {
  import opened Wrappers
  import opened JsText
  import opened ChatValidation

  datatype Sender = User | Assistant

  /** One transcript entry, `{ text, sender }`. */
  datatype ChatMessage = ChatMessage(text: string, sender: Sender)

  /** The contact form, bound to `userInfo`. */
  datatype UserInfo = UserInfo(firstName: string, lastName: string, email: string)

  /** What one awaited webhook call delivered. `Ok` carries the `output`,
      `response` and `message` keys of a parsed reply object (`None` when a
      key is absent). `NullBody` is an `ok` response whose body parses to
      JSON `null`: reading `data.output` from it throws a TypeError. */
  datatype Outcome =
    | NetworkError   // `fetch` rejected
    | HttpNotOk      // `response.ok` was false
    | BadJson        // `response.json()` rejected
    | NullBody       // `response.json()` gave `null`
    | Ok(output: Option<string>, response: Option<string>, message: Option<string>)

  /** The JSON body of one POST to the webhook. Timestamps are the value
      `new Date().toISOString()` produced, passed in by the caller. */
  datatype Request =
    | SessionStart(firstName: string, lastName: string, email: string, sessionStart: string)
    | UserMessage(firstName: string, lastName: string, email: string, message: string, timestamp: string)

  /** The reply used when the webhook gives nothing usable
      (src/composables/useChat.ts:164 and :176). */
  const FallbackReply: string :=
    "Thank you for your message! Our team will get back to you soon. In the meantime, feel free to ask about our solar solutions."

  /** JavaScript truthiness of a string-valued key: present and non-empty. */
  predicate Truthy(v: Option<string>) {
    v.Some? && v.value != ""
  }

  /** `a || b` on string-valued keys: `a` when it is truthy, `b` otherwise. */
  function Or(a: Option<string>, b: Option<string>): (r: Option<string>)
    ensures Truthy(r) <==> Truthy(a) || Truthy(b)
    ensures Truthy(a) ==> r == a
    ensures !Truthy(a) ==> r == b
  {
    if Truthy(a) then a else b
  }

  /** The greeting used when the session-start reply has no truthy `output`. */
  function GreetingFallback(firstName: string): (r: string)
    ensures |r| > 6 + |firstName|
    ensures r[..6] == "Hello " && r[6..6 + |firstName|] == firstName
  {
    "Hello " + firstName + "! How can I help you with solar energy today?"
  }

  /** The welcome message: `data.output || greeting`. It is never empty, and
      it is the webhook's `output` exactly when that is truthy. */
  function WelcomeText(output: Option<string>, firstName: string): (r: string)
    ensures r != ""
    ensures Truthy(output) ==> r == output.value
    ensures !Truthy(output) ==> r == GreetingFallback(firstName)
  {
    Or(output, Some(GreetingFallback(firstName))).value
  }

  /** The first truthy candidate, or `default` when none is. */
  function FirstTruthy(candidates: seq<Option<string>>, default: string): (r: string)
    ensures (forall i :: 0 <= i < |candidates| ==> !Truthy(candidates[i])) ==> r == default
    ensures forall i :: 0 <= i < |candidates| && Truthy(candidates[i]) ==>
      (forall j :: 0 <= j < i ==> !Truthy(candidates[j])) ==> r == candidates[i].value
  {
    if candidates == [] then default
    else if Truthy(candidates[0]) then candidates[0].value
    else FirstTruthy(candidates[1..], default)
  }

  /** The assistant reply `sendMessage` appends for an outcome: the first
      truthy of `output`, `response`, `message`, and the fallback otherwise
      and on every failed call. It is never empty, and it is either the
      fallback or the text of one of the keys, never anything else. */
  function ReplyText(outcome: Outcome): (r: string)
    ensures r != ""
    ensures r == FallbackReply || (outcome.Ok? && (
      || (Truthy(outcome.output) && r == outcome.output.value)
      || (Truthy(outcome.response) && r == outcome.response.value)
      || (Truthy(outcome.message) && r == outcome.message.value)))
  {
    if outcome.Ok? then FirstTruthy([outcome.output, outcome.response, outcome.message], FallbackReply)
    else FallbackReply
  }

  /** The reply chosen the way the source writes it: `output` if truthy,
      else `response || message` if truthy, else the fallback; and on a
      failed call the fallback. This is the same as the first truthy of the
      three keys. */
  lemma ReplyInSourceOrder(outcome: Outcome)
    ensures ReplyText(outcome) ==
      match outcome
      case Ok(output, response, message) =>
        if Truthy(output) then output.value
        else if Truthy(Or(response, message)) then Or(response, message).value
        else FallbackReply
      case _ => FallbackReply
  {
    if outcome.Ok? {
      var c := [outcome.output, outcome.response, outcome.message];
      assert c[1..] == [outcome.response, outcome.message];
      assert c[1..][1..] == [outcome.message];
      assert c[1..][1..][1..] == [];
      assert FirstTruthy(c[1..][1..][1..], FallbackReply) == FallbackReply;
      assert FirstTruthy(c[1..][1..], FallbackReply)
        == if Truthy(outcome.message) then outcome.message.value else FallbackReply;
      assert FirstTruthy(c[1..], FallbackReply)
        == if Truthy(outcome.response) then outcome.response.value else FirstTruthy(c[1..][1..], FallbackReply);
      assert FirstTruthy(c, FallbackReply)
        == if Truthy(outcome.output) then outcome.output.value else FirstTruthy(c[1..], FallbackReply);
    }
  }

  /** The transcript invariant the operations keep: no message is empty, and
      every user message is immediately followed by an assistant message. */
  predicate WellFormedTranscript(t: seq<ChatMessage>) {
    && (forall i :: 0 <= i < |t| ==> t[i].text != "")
    && (forall i :: 0 <= i < |t| && t[i].sender == User ==> i + 1 < |t| && t[i + 1].sender == Assistant)
  }

  /** Appending a non-empty user message and a non-empty assistant reply
      keeps a transcript well formed. */
  lemma AppendExchange(t: seq<ChatMessage>, question: string, reply: string)
    requires WellFormedTranscript(t)
    requires question != "" && reply != ""
    ensures WellFormedTranscript(t + [ChatMessage(question, User), ChatMessage(reply, Assistant)])
  {
  }

  /** The validation `submitUserInfo` runs before any request: no field
      blank, and the untrimmed email matching the pattern. */
  predicate AcceptsUserInfo(info: UserInfo) {
    && !IsBlank(info.firstName) && !IsBlank(info.lastName) && !IsBlank(info.email)
    && EmailPatternTest(info.email)
  }

  const FillAllFields: string := "Please fill in all fields"
  const InvalidEmail: string := "Please enter a valid email address"
  const FailedToStart: string := "Failed to start chat. Please try again."

  /** The two checks of `submitUserInfo` in source order, giving the alert
      each failure shows: a blank field is reported before a bad email,
      and the email is tested untrimmed. */
  function ValidateUserInfo(info: UserInfo): (alert: Option<string>)
    ensures alert.None? <==> AcceptsUserInfo(info)
    ensures alert == Some(FillAllFields) <==> IsBlank(info.firstName) || IsBlank(info.lastName) || IsBlank(info.email)
    ensures alert == Some(InvalidEmail) <==>
      !IsBlank(info.firstName) && !IsBlank(info.lastName) && !IsBlank(info.email) && !EmailPatternTest(info.email)
  {
    if Trim(info.firstName) == "" || Trim(info.lastName) == "" || Trim(info.email) == "" then Some(FillAllFields)
    else if !EmailPatternTest(info.email) then Some(InvalidEmail)
    else None
  }

  class ChatSession {
    var isChatOpen: bool
    var chatMessage: string
    var showUserInfoForm: bool
    var userInfo: UserInfo
    var isUserInfoCollected: bool
    var isSubmittingForm: bool
    var isTyping: bool
    var chatMessages: seq<ChatMessage>
    /** Every request body sent to the webhook, oldest first. */
    ghost var requests: seq<Request>

    /** The state between two operations. The busy flags are only raised
        while an operation waits on the webhook; a collected session has its
        form hidden and opens with an assistant message. A valid transcript
        never ends on an unanswered user message. */
    ghost predicate Valid()
      reads this
      ensures Valid() ==> |chatMessages| == 0 || chatMessages[|chatMessages| - 1].sender == Assistant
    {
      && !isSubmittingForm && !isTyping
      && WellFormedTranscript(chatMessages)
      && (isUserInfoCollected ==> !showUserInfoForm && |chatMessages| > 0 && chatMessages[0].sender == Assistant)
    }

    /** The initial values of the refs (src/composables/useChat.ts:9-25). */
    constructor ()
      ensures Valid()
      ensures !isChatOpen && !showUserInfoForm && !isUserInfoCollected
      ensures chatMessage == "" && userInfo == UserInfo("", "", "")
      ensures chatMessages == [] && requests == []
    {
      isChatOpen := false;
      chatMessage := "";
      showUserInfoForm := false;
      userInfo := UserInfo("", "", "");
      isUserInfoCollected := false;
      isSubmittingForm := false;
      isTyping := false;
      chatMessages := [];
      requests := [];
    }

    /** `toggleChat`: before the contact details are collected it always
        opens the chat on the form; afterwards it flips `isChatOpen`. */
    method ToggleChat()
      requires Valid()
      modifies this
      ensures Valid()
      ensures !old(isUserInfoCollected) ==> isChatOpen && showUserInfoForm
      ensures old(isUserInfoCollected) ==> isChatOpen == !old(isChatOpen) && showUserInfoForm == old(showUserInfoForm)
      ensures isUserInfoCollected == old(isUserInfoCollected)
      ensures chatMessages == old(chatMessages) && chatMessage == old(chatMessage)
      ensures userInfo == old(userInfo) && requests == old(requests)
    {
      if !isUserInfoCollected {
        showUserInfoForm := true;
        isChatOpen := true;
      } else {
        isChatOpen := !isChatOpen;
      }
    }

    /** `submitUserInfo`, with the webhook's answer given as `outcome` and
        the ISO timestamp as `now`; `alert` is the text passed to `alert`,
        if any. Invalid details send nothing and change nothing. Valid ones
        send exactly one `session_start` request; only an `Ok` outcome then
        collects the session, hides the form and replaces the transcript by
        the single welcome message, and every other outcome leaves the
        session as it was and alerts. */
    method SubmitUserInfo(outcome: Outcome, now: string) returns (alert: Option<string>)
      requires Valid()
      modifies this
      ensures Valid()
      ensures ValidateUserInfo(old(userInfo)).Some? ==> alert == ValidateUserInfo(old(userInfo)) && requests == old(requests)
      ensures ValidateUserInfo(old(userInfo)).None? ==>
        && requests == old(requests) + [SessionStart(userInfo.firstName, userInfo.lastName, userInfo.email, now)]
        && alert == (if outcome.Ok? then None else Some(FailedToStart))
      ensures ValidateUserInfo(old(userInfo)).None? && outcome.Ok? ==>
        && isUserInfoCollected && !showUserInfoForm
        && chatMessages == [ChatMessage(WelcomeText(outcome.output, userInfo.firstName), Assistant)]
      ensures !(ValidateUserInfo(old(userInfo)).None? && outcome.Ok?) ==>
        && isUserInfoCollected == old(isUserInfoCollected)
        && showUserInfoForm == old(showUserInfoForm)
        && chatMessages == old(chatMessages)
      ensures userInfo == old(userInfo) && isChatOpen == old(isChatOpen) && chatMessage == old(chatMessage)
    {
      alert := ValidateUserInfo(userInfo);
      if alert.None? {
        alert := StartSession(outcome, now);
      }
    }

    /** The request half of `submitUserInfo`, run once the details pass
        validation: raise the busy flag, send one `session_start` request,
        and on an `Ok` outcome collect the session with the welcome message
        as its whole transcript; any failure alerts and changes nothing
        else. The busy flag is lowered again in every case. A `NullBody`
        reply counts as a failure here: the session is only marked
        collected once the welcome text is known (compare
        `StartSessionAsWritten`). */
    method StartSession(outcome: Outcome, now: string) returns (alert: Option<string>)
      requires Valid()
      modifies this
      ensures Valid()
      ensures requests == old(requests) + [SessionStart(userInfo.firstName, userInfo.lastName, userInfo.email, now)]
      ensures alert == (if outcome.Ok? then None else Some(FailedToStart))
      ensures outcome.Ok? ==>
        && isUserInfoCollected && !showUserInfoForm
        && chatMessages == [ChatMessage(WelcomeText(outcome.output, userInfo.firstName), Assistant)]
      ensures !outcome.Ok? ==>
        && isUserInfoCollected == old(isUserInfoCollected)
        && showUserInfoForm == old(showUserInfoForm)
        && chatMessages == old(chatMessages)
      ensures userInfo == old(userInfo) && isChatOpen == old(isChatOpen) && chatMessage == old(chatMessage)
    {
      alert := None;
      isSubmittingForm := true;
      requests := requests + [SessionStart(userInfo.firstName, userInfo.lastName, userInfo.email, now)];
      match outcome {
        case Ok(output, _, _) =>
          isUserInfoCollected := true;
          showUserInfoForm := false;
          chatMessages := [ChatMessage(Or(output, Some(GreetingFallback(userInfo.firstName))).value, Assistant)];
        case _ =>
          alert := Some(FailedToStart);
      }
      isSubmittingForm := false;
    }

    /** The request half of `submitUserInfo` in the order
        src/composables/useChat.ts:85-121 writes it: the session is marked
        collected and the form hidden (lines 104-105) before `data.output`
        is read (line 107). On a `NullBody` reply that read throws, so the
        catch block alerts the failure while the session stays collected
        with its form hidden and its transcript unchanged. */
    method StartSessionAsWritten(outcome: Outcome, now: string) returns (alert: Option<string>)
      modifies this
      ensures requests == old(requests) + [SessionStart(userInfo.firstName, userInfo.lastName, userInfo.email, now)]
      ensures alert == (if outcome.Ok? then None else Some(FailedToStart))
      ensures outcome.Ok? ==>
        && isUserInfoCollected && !showUserInfoForm
        && chatMessages == [ChatMessage(WelcomeText(outcome.output, userInfo.firstName), Assistant)]
      ensures outcome.NullBody? ==>
        && isUserInfoCollected && !showUserInfoForm
        && chatMessages == old(chatMessages)
      ensures !outcome.Ok? && !outcome.NullBody? ==>
        && isUserInfoCollected == old(isUserInfoCollected)
        && showUserInfoForm == old(showUserInfoForm)
        && chatMessages == old(chatMessages)
      ensures !isSubmittingForm && isTyping == old(isTyping)
      ensures userInfo == old(userInfo) && isChatOpen == old(isChatOpen) && chatMessage == old(chatMessage)
    {
      alert := None;
      isSubmittingForm := true;
      requests := requests + [SessionStart(userInfo.firstName, userInfo.lastName, userInfo.email, now)];
      match outcome {
        case Ok(output, _, _) =>
          isUserInfoCollected := true;
          showUserInfoForm := false;
          chatMessages := [ChatMessage(Or(output, Some(GreetingFallback(userInfo.firstName))).value, Assistant)];
        case NullBody =>
          isUserInfoCollected := true;
          showUserInfoForm := false;
          alert := Some(FailedToStart);
        case _ =>
          alert := Some(FailedToStart);
      }
      isSubmittingForm := false;
    }

    /** `sendMessage`, with the webhook's answer given as `outcome` and the
        ISO timestamp as `now`. A blank input changes nothing and sends
        nothing. Otherwise the trimmed text is appended as a user message,
        the input is cleared, exactly one `user_message` request is sent,
        and exactly one assistant reply follows. */
    method SendMessage(outcome: Outcome, now: string)
      requires Valid()
      modifies this
      ensures Valid()
      ensures IsBlank(old(chatMessage)) ==>
        chatMessages == old(chatMessages) && chatMessage == old(chatMessage) && requests == old(requests)
      ensures !IsBlank(old(chatMessage)) ==>
        && chatMessages == old(chatMessages) + [ChatMessage(Trim(old(chatMessage)), User), ChatMessage(ReplyText(outcome), Assistant)]
        && chatMessage == ""
        && requests == old(requests) + [UserMessage(userInfo.firstName, userInfo.lastName, userInfo.email, Trim(old(chatMessage)), now)]
      ensures isChatOpen == old(isChatOpen) && showUserInfoForm == old(showUserInfoForm)
      ensures isUserInfoCollected == old(isUserInfoCollected) && userInfo == old(userInfo)
    {
      if Trim(chatMessage) != "" {
        ghost var before := chatMessages;
        var userMessage := Trim(chatMessage);
        chatMessages := chatMessages + [ChatMessage(userMessage, User)];
        chatMessage := "";
        isTyping := true;
        requests := requests + [UserMessage(userInfo.firstName, userInfo.lastName, userInfo.email, userMessage, now)];
        var reply: string;
        match outcome {
          case Ok(output, response, message) =>
            if Truthy(output) {
              reply := output.value;
            } else if Truthy(Or(response, message)) {
              reply := Or(response, message).value;
            } else {
              reply := FallbackReply;
            }
          case _ =>
            isTyping := false;
            reply := FallbackReply;
        }
        chatMessages := chatMessages + [ChatMessage(reply, Assistant)];
        isTyping := false;
        ReplyInSourceOrder(outcome);
        assert chatMessages == before + [ChatMessage(userMessage, User), ChatMessage(ReplyText(outcome), Assistant)];
        AppendExchange(before, userMessage, ReplyText(outcome));
      }
    }
  }

  /** After the details are collected, opening and closing the chat returns
      it to where it was and touches nothing else. */
  method ToggleTwice(session: ChatSession)
    requires session.Valid() && session.isUserInfoCollected
    modifies session
    ensures session.Valid()
    ensures session.isChatOpen == old(session.isChatOpen)
    ensures session.chatMessages == old(session.chatMessages)
  {
    session.ToggleChat();
    session.ToggleChat();
  }

  /** The partial update of `StartSessionAsWritten`, exhibited: a new
      session given valid details and an `ok` reply whose body is `null`
      shows the failure alert, yet ends collected with its form hidden and
      an empty transcript, which breaks the session invariant. The corrected
      `StartSession` leaves such a session uncollected. */
  method NullBodyCollectsEmptySession(info: UserInfo, started: string)
    returns (session: ChatSession, alert: Option<string>)
    requires AcceptsUserInfo(info)
    ensures alert == Some(FailedToStart)
    ensures session.isUserInfoCollected && !session.showUserInfoForm && session.chatMessages == []
    ensures !session.Valid()
  {
    session := new ChatSession();
    session.ToggleChat();
    session.userInfo := info;
    alert := ValidateUserInfo(session.userInfo);
    if alert.None? {
      alert := session.StartSessionAsWritten(NullBody, started);
    }
  }

  /** One visit: the first open shows the form; any details that pass
      validation, answered with a non-empty webhook `output`, start the
      transcript with that text; a question typed with surrounding
      whitespace and sent while the webhook is unreachable is trimmed and
      answered with the fallback reply. Exactly one request is sent per
      step. */
  method FirstVisit(info: UserInfo, welcome: string, question: string, started: string, asked: string)
    returns (session: ChatSession)
    requires AcceptsUserInfo(info) && welcome != ""
    requires question != [] && !IsWhitespace(question[0]) && !IsWhitespace(question[|question| - 1])
    ensures session.Valid()
    ensures session.isChatOpen && session.isUserInfoCollected && !session.showUserInfoForm
    ensures session.chatMessages == [
      ChatMessage(welcome, Assistant),
      ChatMessage(question, User),
      ChatMessage(FallbackReply, Assistant)]
    ensures session.requests == [
      SessionStart(info.firstName, info.lastName, info.email, started),
      UserMessage(info.firstName, info.lastName, info.email, question, asked)]
  {
    session := StartVisit(info, welcome, started);
    TrimPadded("  ", question, " ");
    AskWhileOffline(session, "  " + question + " ", asked);
  }

  /** A new session opened once, given details that pass validation, and
      submitted with a non-empty webhook `output`: the chat is open on a
      collected session whose whole transcript is that welcome text, after
      one `session_start` request. */
  method StartVisit(info: UserInfo, welcome: string, started: string) returns (session: ChatSession)
    requires AcceptsUserInfo(info) && welcome != ""
    ensures fresh(session) && session.Valid()
    ensures session.isChatOpen && session.isUserInfoCollected && !session.showUserInfoForm
    ensures session.userInfo == info && session.chatMessages == [ChatMessage(welcome, Assistant)]
    ensures session.requests == [SessionStart(info.firstName, info.lastName, info.email, started)]
  {
    session := new ChatSession();
    session.ToggleChat();
    session.userInfo := info;
    var alert := session.SubmitUserInfo(Ok(Some(welcome), None, None), started);
  }

  /** Sending a non-blank input while the webhook is unreachable appends
      the trimmed input and the fallback reply, and sends one request. */
  method AskWhileOffline(session: ChatSession, typed: string, asked: string)
    requires session.Valid() && !IsBlank(typed)
    modifies session
    ensures session.Valid()
    ensures session.chatMessages == old(session.chatMessages) + [ChatMessage(Trim(typed), User), ChatMessage(FallbackReply, Assistant)]
    ensures session.requests == old(session.requests) + [UserMessage(session.userInfo.firstName, session.userInfo.lastName, session.userInfo.email, Trim(typed), asked)]
    ensures session.isChatOpen == old(session.isChatOpen) && session.showUserInfoForm == old(session.showUserInfoForm)
    ensures session.isUserInfoCollected == old(session.isUserInfoCollected) && session.userInfo == old(session.userInfo)
  {
    session.chatMessage := typed;
    session.SendMessage(NetworkError, asked);
  }
}
