/** The AI counselling routes of
    college-predictor-backend/routes/counselling.js over the session documents
    of college-predictor-backend/models/Counselling.js: the checks a chat
    passes, the history window it sends, the two entries a successful chat
    saves, the error message it reports, and the session preview, lookup,
    deletion and clearing. */
module Counselling {
  import opened Wrappers
  import opened Js
  import opened Text

  type UserId = string
  type SessionId = string

  datatype Role = User | Assistant

  /** One conversation entry; `timestamp` is in milliseconds. */
  datatype Conversation = Conversation(role: Role, content: string, timestamp: int)

  /** A stored session (Counselling.js:3-38). */
  datatype SessionDoc = SessionDoc(userId: UserId, conversations: seq<Conversation>, sessionTitle: string,
                                   createdAt: int, updatedAt: int)

  /** An entry of the `contents` posted to the model: a role and one text part. */
  datatype ModelEntry = ModelEntry(role: string, text: string)

  /** `s.substring(0, n)`. */
  function Head(s: string, n: nat): (r: string)
    ensures |r| == if |s| <= n then |s| else n
    ensures r == s[..|r|]
  {
    if |s| <= n then s else s[..n]
  }

  /** The title of a session a chat creates (counselling.js:99). */
  function Title(message: string): string {
    Head(message, 50) + (if |message| > 50 then "..." else "")
  }

  /** A title is the whole message when that has at most 50 characters, and
      otherwise its first 50 followed by "...": never more than 53. */
  lemma {:induction false} TitleShape(message: string)
    ensures |Title(message)| <= 53
    ensures |message| <= 50 ==> Title(message) == message
    ensures |message| > 50 ==> Title(message) == message[..50] + "..." && |Title(message)| == 53
  {
  }

  /** `conv.role === "assistant" ? "model" : "user"` with the text as its part. */
  function ToModel(c: Conversation): ModelEntry {
    ModelEntry(if c.role == Assistant then "model" else "user", c.content)
  }

  /** `conversations.slice(-10).map(...)` (counselling.js:112-117). */
  function History(conversations: seq<Conversation>): (r: seq<ModelEntry>)
    ensures |r| <= 10
  {
    var window := Slice(conversations, -10, |conversations|);
    seq(|window|, i requires 0 <= i < |window| => ToModel(window[i]))
  }

  /** The history is the last ten entries at most, in their order, with the
      assistant's entries sent as "model" and the user's as "user". */
  lemma {:induction false} HistoryWindow(conversations: seq<Conversation>)
    ensures var n := |conversations|;
      |History(conversations)| == (if n < 10 then n else 10) &&
      forall i :: 0 <= i < |History(conversations)| ==>
        var c := conversations[n - |History(conversations)| + i];
        History(conversations)[i].text == c.content &&
        (History(conversations)[i].role == "model" <==> c.role == Assistant) &&
        (History(conversations)[i].role == "user" <==> c.role == User)
  {
  }

  /** The `contents` posted: the system prompt as a "user" entry, then the
      history (counselling.js:120-126). `prompt` stands for the fixed
      instructions text. */
  function RequestContents(prompt: string, conversations: seq<Conversation>): seq<ModelEntry> {
    [ModelEntry("user", prompt)] + History(conversations)
  }

  /** After the user's message is pushed, the request has one entry more
      than the history window, and ends with that message. */
  lemma {:induction false} RequestEndsWithMessage(prompt: string, conversations: seq<Conversation>, message: string, now: int)
    ensures var sent := RequestContents(prompt, conversations + [Conversation(User, message, now)]);
      var n := |conversations| + 1;
      |sent| == (if n < 10 then n else 10) + 1 &&
      sent[0] == ModelEntry("user", prompt) &&
      sent[|sent| - 1] == ModelEntry("user", message)
  {
    HistoryWindow(conversations + [Conversation(User, message, now)]);
  }

  /** Entries in the order the model expects them: "user" at even
      positions, "model" at odd ones. */
  predicate Alternates(entries: seq<ModelEntry>) {
    forall i :: 0 <= i < |entries| ==> entries[i].role == (if i % 2 == 0 then "user" else "model")
  }

  /** A stored conversation as the handlers leave it: user and assistant
      entries in turn, starting with the user, in complete pairs. */
  predicate Exchanges(conversations: seq<Conversation>) {
    |conversations| % 2 == 0 &&
    forall i :: 0 <= i < |conversations| ==> conversations[i].role == (if i % 2 == 0 then User else Assistant)
  }

  /** The system prompt is sent as a "user" entry, so the request alternates
      exactly when the window starts with an assistant entry, that is when
      the session already held at least ten entries. */
  lemma {:induction false} AlternatesIffLong(prompt: string, conversations: seq<Conversation>, message: string, now: int)
    requires Exchanges(conversations)
    ensures Alternates(RequestContents(prompt, conversations + [Conversation(User, message, now)])) <==>
            |conversations| >= 10
  {
    var c := conversations + [Conversation(User, message, now)];
    var sent := RequestContents(prompt, c);
    var h := History(c);
    HistoryWindow(c);
    var start := |c| - |h|;
    assert forall i :: 0 <= i < |c| ==> c[i].role == (if i % 2 == 0 then User else Assistant);
    if |conversations| >= 10 {
      assert start % 2 == 1;
      forall i | 0 <= i < |sent| ensures sent[i].role == (if i % 2 == 0 then "user" else "model") {
        if i > 0 {
          assert sent[i] == h[i - 1];
          assert (start + i - 1) % 2 == i % 2;
        }
      }
    } else {
      assert start == 0;
      assert sent[1] == h[0];
      assert sent[1].role == "user";
    }
  }

  /** A failure of the call to the model: its `code`, its `message`, the
      HTTP status of the model's answer when there was one, and the `error`
      object of that answer's body, if any, with its `message` and `status`. */
  datatype ErrorBody = ErrorBody(message: Option<string>, status: Option<string>)
  datatype CallError = CallError(code: Option<string>, message: string, responseStatus: Option<int>,
                                 bodyError: Option<ErrorBody>)

  /** What the call to the model gave: an answer, whose first candidate's
      first part may hold no text, or a thrown error. */
  datatype Reply = Answer(text: Option<string>) | Threw(err: CallError)

  /** The error raised for an answer without text (counselling.js:175-179). */
  const MissingText := CallError(None, "Invalid response format from Gemini API", None, None)

  /** The error a reply leads to, if any. */
  function ReplyError(reply: Reply): (r: Option<CallError>)
    ensures r.None? <==> reply.Answer? && TruthyStr(reply.text)
  {
    match reply
    case Answer(text) => if TruthyStr(text) then None else Some(MissingText)
    case Threw(err) => Some(err)
  }

  const CannotConnect := "Cannot connect to AI service. Please check your internet connection."
  const TimedOut := "AI service timeout. Please try again."
  const BadRequest := "Invalid request to Gemini API. Please try again."
  const BadKey := "Gemini API key is invalid or doesn't have permission. Please check your API key."
  const RateLimited := "Gemini API rate limit exceeded. Please try again in a few moments."
  const ModelDown := "Gemini API is experiencing issues. Please try again later."
  const GenericModelError := "Gemini API error occurred"
  const Unexpected := "Received unexpected response from AI. Please try again."
  const ChatFailedMessage := "Failed to get counselling response"

  /** The message `chat` reports for an error (counselling.js:205-229): the
      connection and timeout cases first, then the status of the model's
      answer, then the answer's own error text, then a missing text. */
  function ErrorMessage(err: CallError): (r: string)
    ensures r != ""
  {
    if err.code == Some("ECONNREFUSED") then CannotConnect
    else if err.code == Some("ETIMEDOUT") || Contains(err.message, "timeout") then TimedOut
    else if err.responseStatus == Some(400) then BadRequest
    else if err.responseStatus == Some(403) then BadKey
    else if err.responseStatus == Some(429) then RateLimited
    else if err.responseStatus == Some(500) then ModelDown
    else if err.bodyError.Some? then
      var e := err.bodyError.value;
      if TruthyStr(e.message) then e.message.value
      else if TruthyStr(e.status) then e.status.value
      else GenericModelError
    else if Contains(err.message, "Invalid response format") then Unexpected
    else ChatFailedMessage
  }

  /** An answer without text is reported as an unexpected response: its
      message mentions no timeout. */
  lemma {:induction false} MissingTextIsUnexpected(text: Option<string>)
    requires !TruthyStr(text)
    ensures ReplyError(Answer(text)) == Some(MissingText)
    ensures ErrorMessage(MissingText) == Unexpected
  {
    MissingTextWords(MissingText.message);
  }

  /** The text of the missing-text error names the invalid format and no
      timeout: it has no 'u'. */
  lemma {:induction false} MissingTextWords(m: string)
    requires m == "Invalid response format from Gemini API"
    ensures !Contains(m, "timeout") && Contains(m, "Invalid response format")
  {
    if Contains(m, "timeout") {
      ContainsChars(m, "timeout", 'u');
      assert false;
    }
    ContainsSlice(m, "Invalid response format", 0);
  }

  /** The error details the model's own answer gives win over the generic
      text, unless its status is one of the four named ones. */
  lemma {:induction false} ModelErrorTextShown(err: CallError)
    requires err.code.None? && !Contains(err.message, "timeout")
    requires err.responseStatus !in {Some(400), Some(403), Some(429), Some(500)}
    requires err.bodyError.Some? && TruthyStr(err.bodyError.value.message)
    ensures ErrorMessage(err) == err.bodyError.value.message.value
  {
  }

  /** What `chat` answers: a refusal with its status and error text, or the
      model's reply with the session's id and its number of entries. */
  datatype ChatOutcome = Refused(status: int, error: string)
                       | Answered(response: string, sessionId: SessionId, conversationCount: nat)

  const EmptyMessage := Refused(400, "Message cannot be empty")
  const NotConfigured := Refused(500, "AI service not configured. Please contact administrator.")
  const SessionNotFound := Refused(404, "Session not found")

  /** `!message || message.trim() === ""`. */
  predicate BlankMessage(message: Option<string>) {
    message.None? || Trim(message.value) == ""
  }

  /** The caller owns the stored session `id`. */
  predicate Owns(sessions: map<SessionId, SessionDoc>, userId: UserId, id: SessionId) {
    id in sessions && sessions[id].userId == userId
  }

  /** The session a chat works on (counselling.js:88-101): with a session id,
      the caller's own session of that id, if any; without one, a new
      session under `freshId`, titled after the message. */
  function Target(sessions: map<SessionId, SessionDoc>, userId: UserId, message: string,
                  sessionId: Option<SessionId>, freshId: SessionId, now: int): (r: Option<(SessionId, SessionDoc)>)
    ensures r.Some? ==> r.value.1.userId == userId
    ensures TruthyStr(sessionId) ==> (r.Some? <==> Owns(sessions, userId, sessionId.value))
    ensures TruthyStr(sessionId) && r.Some? ==> r.value == (sessionId.value, sessions[sessionId.value])
    ensures !TruthyStr(sessionId) ==> r.Some? && r.value.0 == freshId && r.value.1.conversations == []
                                      && r.value.1.sessionTitle == Title(message)
  {
    if TruthyStr(sessionId) then
      if Owns(sessions, userId, sessionId.value) then Some((sessionId.value, sessions[sessionId.value])) else None
    else Some((freshId, SessionDoc(userId, [], Title(message), now, now)))
  }

  /** A session's entry in the list of sessions (counselling.js:247-257). */
  datatype SessionPreview = SessionPreview(id: SessionId, sessionTitle: string, createdAt: int, updatedAt: int,
                                           messageCount: nat, lastMessage: string)

  function Preview(id: SessionId, doc: SessionDoc): SessionPreview {
    var c := doc.conversations;
    SessionPreview(id, doc.sessionTitle, doc.createdAt, doc.updatedAt, |c|,
                   if |c| > 0 then Head(c[|c| - 1].content, 100) else "")
  }

  /** The preview counts the entries and shows the first hundred characters
      of the last one: all of it when shorter, nothing for an empty session. */
  lemma {:induction false} PreviewShape(id: SessionId, doc: SessionDoc)
    ensures var p, c := Preview(id, doc), doc.conversations;
      p.messageCount == |c| &&
      (c == [] ==> p.lastMessage == "") &&
      (c != [] ==> |p.lastMessage| <= 100 && c[|c| - 1].content[..|p.lastMessage|] == p.lastMessage &&
                   (|c[|c| - 1].content| <= 100 ==> p.lastMessage == c[|c| - 1].content))
  {
  }

  /** The stored sessions after `clear` on a session the caller owns. */
  function Cleared(sessions: map<SessionId, SessionDoc>, id: SessionId, now: int): map<SessionId, SessionDoc>
    requires id in sessions
  {
    sessions[id := sessions[id].(conversations := [], updatedAt := now)]
  }

  /** Clearing keeps the session, its owner and title, and its preview then
      shows no entries; every other session is untouched. */
  lemma {:induction false} ClearedShape(sessions: map<SessionId, SessionDoc>, id: SessionId, now: int)
    requires id in sessions
    ensures var s := Cleared(sessions, id, now);
      s.Keys == sessions.Keys &&
      s[id].userId == sessions[id].userId && s[id].sessionTitle == sessions[id].sessionTitle &&
      Preview(id, s[id]).messageCount == 0 && Preview(id, s[id]).lastMessage == "" &&
      forall other :: other in sessions && other != id ==> s[other] == sessions[other]
  {
  }

  /** A user's message and the assistant's answer complete an exchange. */
  lemma {:induction false} ExchangesExtend(c: seq<Conversation>, message: string, answer: string, now: int)
    requires Exchanges(c)
    ensures Exchanges(c + [Conversation(User, message, now)] + [Conversation(Assistant, answer, now)])
  {
  }

  /** The stored counselling sessions of all users. */
  class SessionStore {
    var sessions: map<SessionId, SessionDoc>

    ghost predicate Valid()
      reads this
    {
      forall id :: id in sessions ==> Exchanges(sessions[id].conversations)
    }

    constructor()
      ensures sessions == map[] && Valid()
    {
      sessions := map[];
    }

    /** `POST /chat` (counselling.js:69-236). A blank message is refused
        with 400 before anything else, a missing API key with 500, and an
        unknown or foreign session id with 404. Otherwise the user's message
        is pushed and the request built from it; when the model answers with
        text, the answer is pushed and the session saved, and any error
        gives 500 with nothing saved, not even a new session. `apiKeySet`
        stands for the configured key, `reply` for the model's response,
        `freshId` for the id a new session gets and `now` for the clock;
        `sent` is the request posted to the model, if one was. */
    method Chat(userId: UserId, message: Option<string>, sessionId: Option<SessionId>, apiKeySet: bool,
                prompt: string, reply: Reply, freshId: SessionId, now: int)
      returns (r: ChatOutcome, sent: Option<seq<ModelEntry>>)
      requires Valid() && freshId !in sessions
      modifies this
      ensures Valid()
      ensures BlankMessage(message) ==> r == EmptyMessage && sent.None? && sessions == old(sessions)
      ensures !BlankMessage(message) && !apiKeySet ==> r == NotConfigured && sent.None? && sessions == old(sessions)
      ensures !BlankMessage(message) && apiKeySet && Target(old(sessions), userId, message.value, sessionId, freshId, now).None? ==>
                r == SessionNotFound && sent.None? && sessions == old(sessions)
      ensures !BlankMessage(message) && apiKeySet && Target(old(sessions), userId, message.value, sessionId, freshId, now).Some? ==>
                var t := Target(old(sessions), userId, message.value, sessionId, freshId, now).value;
                var asked := t.1.conversations + [Conversation(User, message.value, now)];
                sent == Some(RequestContents(prompt, asked)) &&
                (ReplyError(reply).Some? ==>
                   r == Refused(500, ErrorMessage(ReplyError(reply).value)) && sessions == old(sessions)) &&
                (ReplyError(reply).None? ==>
                   r == Answered(reply.text.value, t.0, |t.1.conversations| + 2) &&
                   sessions == old(sessions)[t.0 := t.1.(conversations := asked + [Conversation(Assistant, reply.text.value, now)],
                                                         updatedAt := now)])
    {
      sent := None;
      if BlankMessage(message) {
        return EmptyMessage, sent;
      }
      if !apiKeySet {
        return NotConfigured, sent;
      }
      var target := Target(sessions, userId, message.value, sessionId, freshId, now);
      if target.None? {
        return SessionNotFound, sent;
      }
      var id, doc := target.value.0, target.value.1;
      var conversations := doc.conversations + [Conversation(User, message.value, now)];
      sent := Some(RequestContents(prompt, conversations));
      var failure := ReplyError(reply);
      if failure.Some? {
        return Refused(500, ErrorMessage(failure.value)), sent;
      }
      var answer := reply.text.value;
      ExchangesExtend(doc.conversations, message.value, answer, now);
      conversations := conversations + [Conversation(Assistant, answer, now)];
      sessions := sessions[id := doc.(conversations := conversations, updatedAt := now)];
      r := Answered(answer, id, |conversations|);
    }

    /** `GET /sessions` (counselling.js:239-267): a preview of every session
        of the caller. */
    function Previews(userId: UserId): (r: set<SessionPreview>)
      reads this
      ensures forall id :: Owns(sessions, userId, id) ==> Preview(id, sessions[id]) in r
      ensures forall p :: p in r ==> Owns(sessions, userId, p.id) && p == Preview(p.id, sessions[p.id])
    {
      set id | id in sessions && sessions[id].userId == userId :: Preview(id, sessions[id])
    }

    /** `GET /sessions/:sessionId` (counselling.js:270-289): found only when
        the caller owns it. */
    function GetSession(userId: UserId, id: SessionId): (r: Option<SessionDoc>)
      reads this
      ensures r.Some? <==> Owns(sessions, userId, id)
      ensures r.Some? ==> r.value == sessions[id]
    {
      if Owns(sessions, userId, id) then Some(sessions[id]) else None
    }

    /** `DELETE /sessions/:sessionId` (counselling.js:292-311): removes the
        caller's own session; anything else is 404 and changes nothing. */
    method Delete(userId: UserId, id: SessionId) returns (found: bool)
      requires Valid()
      modifies this
      ensures Valid()
      ensures found <==> Owns(old(sessions), userId, id)
      ensures found ==> sessions == old(sessions) - {id}
      ensures !found ==> sessions == old(sessions)
    {
      found := Owns(sessions, userId, id);
      if found {
        sessions := sessions - {id};
      }
    }

    /** `DELETE /sessions/:sessionId/clear` (counselling.js:314-333): empties
        the caller's own session and saves it; anything else is 404. */
    method Clear(userId: UserId, id: SessionId, now: int) returns (found: bool)
      requires Valid()
      modifies this
      ensures Valid()
      ensures found <==> Owns(old(sessions), userId, id)
      ensures found ==> sessions == Cleared(old(sessions), id, now)
      ensures !found ==> sessions == old(sessions)
    {
      found := Owns(sessions, userId, id);
      if found {
        sessions := Cleared(sessions, id, now);
      }
    }
  }
}
