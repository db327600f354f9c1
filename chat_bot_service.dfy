/**
 * The chat session of src/services/ChatBotService.js: a `ChatBotService`
 * object holding the chat history and the current lesson context, persisting
 * the history in localStorage, and sending questions to the AI agent.
 *
 * localStorage is a `LocalStore` object whose two keys hold values already
 * decoded from JSON; each reading of the clock (`new Date().toISOString()`)
 * is a parameter (`now`, or `userTime` and `botTime` in `sendMessage`, which
 * reads it before and after the request), and the agent's HTTP reply is the
 * `Reply` parameter.
 */
module ChatBot {
  import opened Wrappers

  datatype Role = UserRole | BotRole

  /** A chat message; `error` is set only on the bot's connection-failure message. */
  datatype Message = Message(role: Role, content: string, timestamp: string, error: bool)

  /** The lesson the user is viewing, as `setCurrentLesson` records it. */
  datatype LessonContext = LessonContext(lessonId: string, seriesId: string)

  /**
   * The `user` localStorage entry after `JSON.parse`: absent (or JSON
   * `null`), not parseable, or a record whose missing fields are "".
   */
  datatype StoredUser = Absent | Malformed | UserRecord(cognitoSub: string, underscoreId: string, id: string)

  /** The JSON body posted to the agent's `/query` endpoint. */
  datatype Payload = Payload(userQuestion: string, userId: string, topK: int, lessonId: string, isInLesson: bool)

  /**
   * How the agent's reply went: an answer (the `answer` field, "" when it is
   * missing), a response that is not `ok` (with its status text), or an
   * exception from `fetch` or from decoding the body.
   */
  datatype Reply = Answered(answer: string) | HttpError(statusText: string) | TransportError(error: string)

  const DefaultAgentUrl: string := "http://localhost:8015"
  const GuestUserId: string := "guest_user"
  const GeneralChat: string := "general_chat"
  const TopK: int := 5

  const WelcomeText: string :=
    "Xin chào! Tôi là trợ lý EduConnect 👋\nTôi có thể giúp bạn:\n- Tìm hiểu về các khóa học\n- Hướng dẫn sử dụng nền tảng\n- Trả lời các câu hỏi học tập\nHãy hỏi tôi bất cứ điều gì bạn cần!"
  const NoAnswerText: string := "Xin lỗi, tôi không tìm thấy câu trả lời."
  const ConnectionErrorText: string := "Xin lỗi, tôi đang gặp sự cố kết nối. Vui lòng thử lại sau."

  /** The browser's localStorage, as far as the chat uses it. */
  class LocalStore {
    /** The `chatHistory` key: None when the key is absent or empty. */
    var history: Option<seq<Message>>
    /** The `user` key, written by the sign-in code. */
    var user: StoredUser

    constructor (history: Option<seq<Message>>, user: StoredUser)
      ensures this.history == history && this.user == user
    {
      this.history := history;
      this.user := user;
    }
  }

  /** `loadChatHistoryFromLocalStorage`: the stored history, or [] when there is none. */
  function Loaded(stored: Option<seq<Message>>): (h: seq<Message>)
    ensures stored.Some? ==> h == stored.value
    ensures stored.None? ==> h == []
  {
    match stored
    case Some(h) => h
    case None => []
  }

  function Welcome(now: string): Message
  {
    Message(BotRole, WelcomeText, now, false)
  }

  /** The history a new service starts with: the stored one, or the welcome message alone. */
  function InitialHistory(stored: Option<seq<Message>>, now: string): (h: seq<Message>)
  {
    if |Loaded(stored)| == 0 then [Welcome(now)] else Loaded(stored)
  }

  /**
   * A new service never starts with an empty history: it continues a stored,
   * non-empty conversation as it is, and otherwise starts with exactly the
   * welcome message from the bot.
   */
  lemma InitialHistoryNonEmpty(stored: Option<seq<Message>>, now: string)
    ensures InitialHistory(stored, now) != []
    ensures Loaded(stored) != [] ==> InitialHistory(stored, now) == Loaded(stored)
    ensures Loaded(stored) == [] ==> InitialHistory(stored, now) == [Welcome(now)] && Welcome(now).role == BotRole
  {
  }

  /** The three `user` fields `getCurrentUserId` tries, in order. */
  function Candidates(user: StoredUser): seq<string>
    requires user.UserRecord?
  {
    [user.cognitoSub, user.underscoreId, user.id]
  }

  /**
   * `getCurrentUserId`: the first non-empty of `cognito_sub`, `_id` and `id`,
   * and "guest_user" when there is none, no user, or the entry does not parse.
   */
  function UserIdOf(user: StoredUser): (r: string)
    ensures r != ""
    ensures !user.UserRecord? ==> r == GuestUserId
    ensures user.UserRecord? && (forall i :: 0 <= i < 3 ==> Candidates(user)[i] == "") ==> r == GuestUserId
    ensures user.UserRecord? && (exists i :: 0 <= i < 3 && Candidates(user)[i] != "") ==>
              exists i :: 0 <= i < 3 && r == Candidates(user)[i] && r != "" &&
                forall j :: 0 <= j < i ==> Candidates(user)[j] == ""
  {
    match user
    case UserRecord(cognitoSub, underscoreId, id) =>
      if cognitoSub != "" then
        assert Candidates(user)[0] == cognitoSub;
        cognitoSub
      else if underscoreId != "" then
        assert Candidates(user)[1] == underscoreId;
        underscoreId
      else if id != "" then
        assert Candidates(user)[2] == id;
        id
      else
        GuestUserId
    case _ => GuestUserId
  }

  /**
   * The payload of `sendMessage`: the question, the user id, `top_k` 5, and
   * the lesson fields, which depend on whether a lesson context is set.
   */
  function BuildPayload(message: string, userId: string, context: Option<LessonContext>): (p: Payload)
    ensures p.userQuestion == message && p.userId == userId && p.topK == TopK
    ensures p.isInLesson <==> context.Some?
    ensures context.Some? ==> p.lessonId == context.value.lessonId
    ensures context.None? ==> p.lessonId == GeneralChat
  {
    match context
    case Some(c) => Payload(message, userId, TopK, c.lessonId, true)
    case None => Payload(message, userId, TopK, GeneralChat, false)
  }

  /** The bot message `sendMessage` appends for a reply. */
  function BotReply(reply: Reply, now: string): Message
  {
    match reply
    case Answered(answer) => Message(BotRole, if answer != "" then answer else NoAnswerText, now, false)
    case _ => Message(BotRole, ConnectionErrorText, now, true)
  }

  /** The error `sendMessage` raises again after a failed reply. */
  function RaisedError(reply: Reply): string
    requires !reply.Answered?
  {
    match reply
    case HttpError(statusText) => "API Error: " + statusText
    case TransportError(error) => error
  }

  /**
   * The messages one `sendMessage` call appends: the user's (unless skipped),
   * stamped when the call starts, then the bot's, stamped when the reply has
   * come back.
   */
  function Exchange(message: string, skipUserMessage: bool, reply: Reply, userTime: string, botTime: string): seq<Message>
  {
    (if skipUserMessage then [] else [Message(UserRole, message, userTime, false)]) + [BotReply(reply, botTime)]
  }

  /**
   * The bot's message: the answer when it is non-empty, the "no answer"
   * text when the answer is empty, and the connection-error text, marked as an
   * error, when the request failed.
   */
  lemma BotReplyContent(reply: Reply, now: string)
    ensures BotReply(reply, now).role == BotRole && BotReply(reply, now).timestamp == now
    ensures BotReply(reply, now).error <==> !reply.Answered?
    ensures reply.Answered? && reply.answer != "" ==> BotReply(reply, now).content == reply.answer
    ensures reply.Answered? && reply.answer == "" ==> BotReply(reply, now).content == NoAnswerText
    ensures !reply.Answered? ==> BotReply(reply, now).content == ConnectionErrorText
  {
  }

  /**
   * One call appends two messages, or one when the user's message is
   * skipped; the last is the bot's and every message before it is the user's
   * question.
   */
  lemma ExchangeShape(message: string, skipUserMessage: bool, reply: Reply, userTime: string, botTime: string)
    ensures var e := Exchange(message, skipUserMessage, reply, userTime, botTime);
      |e| == (if skipUserMessage then 1 else 2) &&
      e[|e| - 1] == BotReply(reply, botTime) &&
      forall k :: 0 <= k < |e| - 1 ==> e[k] == Message(UserRole, message, userTime, false)
  {
  }

  /** The number of messages with the given role. */
  function CountRole(h: seq<Message>, role: Role): nat
  {
    if h == [] then 0 else CountRole(h[..|h| - 1], role) + (if h[|h| - 1].role == role then 1 else 0)
  }

  lemma {:induction false} CountRoleAppend(a: seq<Message>, b: seq<Message>, role: Role)
    ensures CountRole(a + b, role) == CountRole(a, role) + CountRole(b, role)
    decreases |b|
  {
    if b != [] {
      CountRoleAppend(a, b[..|b| - 1], role);
      assert (a + b)[..|a + b| - 1] == a + b[..|b| - 1];
    } else {
      assert a + b == a;
    }
  }

  /**
   * Whatever the reply, a call adds exactly one bot message to the history,
   * and one user message unless it was skipped.
   */
  lemma OneBotMessagePerCall(history: seq<Message>, message: string, skipUserMessage: bool, reply: Reply,
                             userTime: string, botTime: string)
    ensures CountRole(history + Exchange(message, skipUserMessage, reply, userTime, botTime), BotRole)
         == CountRole(history, BotRole) + 1
    ensures CountRole(history + Exchange(message, skipUserMessage, reply, userTime, botTime), UserRole)
         == CountRole(history, UserRole) + (if skipUserMessage then 0 else 1)
  {
    var e := Exchange(message, skipUserMessage, reply, userTime, botTime);
    CountRoleAppend(history, e, BotRole);
    CountRoleAppend(history, e, UserRole);
    if !skipUserMessage {
      assert e[..1] == [Message(UserRole, message, userTime, false)];
      assert CountRole(e[..1], BotRole) == 0;
      assert CountRole(e[..1], UserRole) == 1;
    } else {
      assert e[..0] == [];
    }
  }

  class ChatBotService {
    const store: LocalStore
    const agentApiUrl: string
    var chatHistory: seq<Message>
    var currentLessonContext: Option<LessonContext>

    /**
     * Loads the stored history; when it is empty, appends the welcome
     * message and saves the history. `configuredUrl` is the agent URL from
     * the environment ("" when unset).
     */
    constructor (store: LocalStore, configuredUrl: string, now: string)
      modifies store`history
      ensures this.store == store && currentLessonContext == None
      ensures agentApiUrl == if configuredUrl != "" then configuredUrl else DefaultAgentUrl
      ensures chatHistory == InitialHistory(old(store.history), now)
      ensures Loaded(old(store.history)) == [] ==> store.history == Some(chatHistory)
      ensures Loaded(old(store.history)) != [] ==> store.history == old(store.history)
    {
      this.store := store;
      agentApiUrl := if configuredUrl != "" then configuredUrl else DefaultAgentUrl;
      chatHistory := Loaded(store.history);
      currentLessonContext := None;
      new;
      if |chatHistory| == 0 {
        chatHistory := chatHistory + [Welcome(now)];
        SaveChatHistory();
      }
    }

    /** `setCurrentLesson`: records the lesson; nothing else changes. */
    method SetCurrentLesson(lessonId: string, seriesId: string)
      modifies this`currentLessonContext
      ensures currentLessonContext == Some(LessonContext(lessonId, seriesId))
    {
      currentLessonContext := Some(LessonContext(lessonId, seriesId));
    }

    /** `clearCurrentLesson`: forgets the lesson; nothing else changes. */
    method ClearCurrentLesson()
      modifies this`currentLessonContext
      ensures currentLessonContext == None
    {
      currentLessonContext := None;
    }

    /** `saveChatHistoryToLocalStorage`: what is saved loads back as the current history. */
    method SaveChatHistory()
      modifies store`history
      ensures store.history == Some(chatHistory)
      ensures Loaded(store.history) == chatHistory
    {
      store.history := Some(chatHistory);
    }

    /** `clearChatHistory`: empties the history, removes the stored key, returns the empty history. */
    method ClearChatHistory() returns (h: seq<Message>)
      modifies this`chatHistory, store`history
      ensures chatHistory == [] && h == [] && store.history == None
      ensures Loaded(store.history) == chatHistory
    {
      chatHistory := [];
      store.history := None;
      h := chatHistory;
    }

    /** `getChatHistory`: the value of the history the service holds, which is what it saves. */
    function GetChatHistory(): (h: seq<Message>)
      reads this
      ensures h == chatHistory
    {
      chatHistory
    }

    /**
     * `sendMessage`: appends the user's message (unless skipped), posts the
     * payload to `<agentApiUrl>/query`, appends exactly one bot message,
     * saves the history, and returns the bot message or raises the error
     * again.
     */
    method SendMessage(message: string, skipUserMessage: bool, reply: Reply, userTime: string, botTime: string)
      returns (url: string, payload: Payload, result: Result<Message, string>)
      modifies this`chatHistory, store`history
      ensures url == agentApiUrl + "/query"
      ensures payload == BuildPayload(message, UserIdOf(store.user), currentLessonContext)
      ensures chatHistory == old(chatHistory) + Exchange(message, skipUserMessage, reply, userTime, botTime)
      ensures store.history == Some(chatHistory)
      ensures reply.Answered? ==> result == Ok(BotReply(reply, botTime))
      ensures !reply.Answered? ==> result == Err(RaisedError(reply))
    {
      if !skipUserMessage {
        chatHistory := chatHistory + [Message(UserRole, message, userTime, false)];
      }
      var userId := UserIdOf(store.user);
      if currentLessonContext.Some? {
        payload := Payload(message, userId, TopK, currentLessonContext.value.lessonId, true);
      } else {
        payload := Payload(message, userId, TopK, GeneralChat, false);
      }
      url := agentApiUrl + "/query";
      var bot: Message;
      match reply {
        case Answered(answer) =>
          bot := Message(BotRole, if answer != "" then answer else NoAnswerText, botTime, false);
          result := Ok(bot);
        case HttpError(statusText) =>
          bot := Message(BotRole, ConnectionErrorText, botTime, true);
          result := Err("API Error: " + statusText);
        case TransportError(error) =>
          bot := Message(BotRole, ConnectionErrorText, botTime, true);
          result := Err(error);
      }
      chatHistory := chatHistory + [bot];
      SaveChatHistory();
    }
  }
}
