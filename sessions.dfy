/**
 * The chat-session store of the application component: a list of sessions
 * and the id of the current one. The updaters handed to `setSessions` are
 * pure functions here; the handlers (`createNewChat`, `selectSession`,
 * `deleteSession`, `handleSend`) and the effect that reselects a session are
 * methods of `ChatApp`, each proved to move the state as a pure transition
 * function says.
 */
module Sessions {
  import opened Wrappers
  import opened Text
  import opened Chat
  import Rag

  datatype Session = Session(id: string, title: string, messages: seq<Message>, timestamp: int)

  /** The two fields of the store that the transitions below move. */
  datatype Store = Store(sessions: seq<Session>, current: Option<string>)

  /**
   * What a storage key yields: nothing (null or the empty string), text that
   * does not parse, or a parsed value.
   */
  datatype Stored<T> = Absent | Unparsable | Parsed(value: T)

  const NewChatTitle: string := "New Chat"
  const PreviousChatTitle: string := "Previous Chat"
  const FallbackReply: string := "Sorry, something went wrong."
  const TitleLength: nat := 30
  const Ellipsis: string := "..."

  function Min(a: int, b: int): int {
    if a <= b then a else b
  }

  /** A fresh session with no messages. */
  function EmptySession(id: string, now: int): Session {
    Session(id, NewChatTitle, [], now)
  }

  // ------------------------------------------------------------ start-up

  /**
   * The initial session list: saved sessions win whenever the key holds
   * something that parses; otherwise a non-empty legacy history becomes one
   * "Previous Chat" session; otherwise one empty "New Chat" session. A
   * parse failure of either key falls back to the empty session.
   */
  function InitialSessions(saved: Stored<seq<Session>>, legacy: Stored<seq<Message>>, freshId: string, now: int): (r: seq<Session>)
    ensures saved.Parsed? ==> r == saved.value
    ensures r == [] <==> saved == Parsed([])
    ensures !saved.Parsed? ==> |r| == 1 && r[0].id == freshId && r[0].timestamp == now
    ensures !saved.Parsed? ==>
      (r[0].messages != [] <==> saved.Absent? && legacy.Parsed? && legacy.value != [])
    ensures !saved.Parsed? && r[0].messages != [] ==> r[0].messages == legacy.value && r[0].title == PreviousChatTitle
    ensures !saved.Parsed? && r[0].messages == [] ==> r[0].title == NewChatTitle
  {
    match saved
    case Parsed(sessions) => sessions
    case Unparsable => [EmptySession(freshId, now)]
    case Absent =>
      if legacy.Parsed? && |legacy.value| > 0 then [Session(freshId, PreviousChatTitle, legacy.value, now)]
      else [EmptySession(freshId, now)]
  }

  // ------------------------------------------------------------ lookup

  /** `session.id === currentSessionId`: a null current id matches nothing. */
  predicate Matches(s: Session, current: Option<string>) {
    current.Some? && s.id == current.value
  }

  /** `sessions.find(s => s.id === currentSessionId)`: the first session with that id. */
  function Find(sessions: seq<Session>, current: Option<string>): (r: Option<Session>)
    ensures r.Some? <==> exists i :: 0 <= i < |sessions| && Matches(sessions[i], current)
    ensures r.Some? ==>
      exists i :: 0 <= i < |sessions| && sessions[i] == r.value && Matches(sessions[i], current) &&
                  (forall j :: 0 <= j < i ==> !Matches(sessions[j], current))
    decreases |sessions|
  {
    if sessions == [] then None
    else if Matches(sessions[0], current) then Some(sessions[0])
    else
      var r := Find(sessions[1..], current);
      assert forall i :: 1 <= i < |sessions| ==> sessions[i] == sessions[1..][i - 1];
      r
  }

  /** `currentMessages`: the current session's messages, else the first session's, else none. */
  function CurrentMessages(sessions: seq<Session>, current: Option<string>): (r: seq<Message>)
    ensures Find(sessions, current).Some? ==> r == Find(sessions, current).value.messages
    ensures Find(sessions, current).None? && |sessions| > 0 ==> r == sessions[0].messages
    ensures sessions == [] ==> r == []
  {
    match Find(sessions, current)
    case Some(s) => s.messages
    case None => if |sessions| > 0 then sessions[0].messages else []
  }

  // ------------------------------------------------------------ new chat

  /** The current session exists and has no messages yet. */
  predicate CurrentIsEmpty(st: Store) {
    Find(st.sessions, st.current).Some? && Find(st.sessions, st.current).value.messages == []
  }

  /**
   * `createNewChat`: a no-op while the current chat is still empty; otherwise
   * a fresh empty session goes in front and becomes current.
   */
  function NewChat(st: Store, freshId: string, now: int): (r: Store)
    ensures CurrentIsEmpty(st) ==> r == st
    ensures !CurrentIsEmpty(st) ==>
      r.sessions == [EmptySession(freshId, now)] + st.sessions && r.current == Some(freshId)
    ensures r == st <==> CurrentIsEmpty(st)
    ensures CurrentIsEmpty(r)
  {
    if CurrentIsEmpty(st) then st
    else
      var r := Store([EmptySession(freshId, now)] + st.sessions, Some(freshId));
      assert Matches(r.sessions[0], r.current);
      assert |r.sessions| != |st.sessions|;
      r
  }

  /** A second `createNewChat` right after the first changes nothing. */
  lemma NewChatIdempotent(st: Store, id1: string, now1: int, id2: string, now2: int)
    ensures NewChat(NewChat(st, id1, now1), id2, now2) == NewChat(st, id1, now1)
  {
  }

  // ------------------------------------------------------------ delete

  /** `sessions.filter(s => s.id !== id)`. */
  function RemoveSession(sessions: seq<Session>, id: string): (r: seq<Session>)
    ensures |r| <= |sessions|
    ensures forall s :: s in r <==> s in sessions && s.id != id
    ensures forall i :: 0 <= i < |r| ==> r[i].id != id
    decreases |sessions|
  {
    if sessions == [] then []
    else if sessions[0].id != id then [sessions[0]] + RemoveSession(sessions[1..], id)
    else RemoveSession(sessions[1..], id)
  }

  /** Filtering a list cut in two filters each part, so the kept sessions stay in order. */
  lemma {:induction false} RemoveSessionAppend(a: seq<Session>, b: seq<Session>, id: string)
    ensures RemoveSession(a + b, id) == RemoveSession(a, id) + RemoveSession(b, id)
    decreases |a|
  {
    if a == [] {
      assert a + b == b;
    } else {
      var ab := a + b;
      assert ab[1..] == a[1..] + b;
      assert ab[0] == a[0];
      RemoveSessionAppend(a[1..], b, id);
      var rest := RemoveSession(a[1..], id);
      var tail := RemoveSession(b, id);
      if a[0].id != id {
        calc {
          RemoveSession(ab, id);
          [a[0]] + RemoveSession(a[1..] + b, id);
          [a[0]] + (rest + tail);
          ([a[0]] + rest) + tail;
          RemoveSession(a, id) + tail;
        }
      } else {
        calc {
          RemoveSession(ab, id);
          RemoveSession(a[1..] + b, id);
          rest + tail;
          RemoveSession(a, id) + tail;
        }
      }
    }
  }

  /** Sessions with other ids are left exactly as they were. */
  lemma {:induction false} RemoveSessionAbsent(sessions: seq<Session>, id: string)
    requires forall i :: 0 <= i < |sessions| ==> sessions[i].id != id
    ensures RemoveSession(sessions, id) == sessions
    decreases |sessions|
  {
    if sessions != [] {
      RemoveSessionAbsent(sessions[1..], id);
    }
  }

  /** Deleting the same id twice is deleting it once. */
  lemma RemoveSessionIdempotent(sessions: seq<Session>, id: string)
    ensures RemoveSession(RemoveSession(sessions, id), id) == RemoveSession(sessions, id)
  {
    RemoveSessionAbsent(RemoveSession(sessions, id), id);
  }

  /** Deleting another session leaves the lookup of the current one unchanged. */
  lemma {:induction false} FindAfterRemove(sessions: seq<Session>, id: string, current: Option<string>)
    requires current != Some(id)
    ensures Find(RemoveSession(sessions, id), current) == Find(sessions, current)
    decreases |sessions|
  {
    if sessions != [] {
      FindAfterRemove(sessions[1..], id, current);
      if sessions[0].id != id {
        assert ([sessions[0]] + RemoveSession(sessions[1..], id))[1..] == RemoveSession(sessions[1..], id);
      } else {
        assert !Matches(sessions[0], current);
      }
    }
  }

  /** The `setSessions` updater of `deleteSession`: filter, and never leave the list empty. */
  function AfterDelete(sessions: seq<Session>, id: string, freshId: string, now: int): (r: seq<Session>)
    ensures |r| > 0
    ensures RemoveSession(sessions, id) != [] ==> r == RemoveSession(sessions, id)
    ensures RemoveSession(sessions, id) == [] ==> r == [EmptySession(freshId, now)]
  {
    var remaining := RemoveSession(sessions, id);
    if |remaining| == 0 then [EmptySession(freshId, now)] else remaining
  }

  /** `deleteSession(id)`: the updater above, and the current id cleared when it was the one deleted. */
  function Delete(st: Store, id: string, freshId: string, now: int): Store
  {
    Store(AfterDelete(st.sessions, id, freshId, now), if st.current == Some(id) then None else st.current)
  }

  /** The effect: with no truthy current id and some session, the first session becomes current. */
  function Reselected(st: Store): (r: Store)
    ensures r.sessions == st.sessions
    ensures !Truthy(st.current) && |st.sessions| > 0 ==> r.current == Some(st.sessions[0].id)
    ensures Truthy(st.current) || |st.sessions| == 0 ==> r.current == st.current
  {
    if !Truthy(st.current) && |st.sessions| > 0 then Store(st.sessions, Some(st.sessions[0].id)) else st
  }

  /**
   * Deleting the current session and letting the effect run leaves a
   * non-empty list whose first session is current.
   */
  lemma DeleteCurrentThenReselect(st: Store, id: string, freshId: string, now: int)
    requires st.current == Some(id)
    ensures var r := Reselected(Delete(st, id, freshId, now));
      |r.sessions| > 0 && r.current == Some(r.sessions[0].id) && Find(r.sessions, r.current) == Some(r.sessions[0]) &&
      (RemoveSession(st.sessions, id) != [] ==> r.current != Some(id))
  {
    var r := Reselected(Delete(st, id, freshId, now));
    assert Matches(r.sessions[0], r.current);
  }

  /**
   * Deleting any other session keeps the current id, and the current session
   * is still found as it was unless the list had to be recreated.
   */
  lemma DeleteOther(st: Store, id: string, freshId: string, now: int)
    requires st.current != Some(id)
    ensures var r := Delete(st, id, freshId, now);
      r.current == st.current &&
      (RemoveSession(st.sessions, id) != [] ==> Find(r.sessions, r.current) == Find(st.sessions, st.current)) &&
      r.sessions == RemoveSession(st.sessions, id) + (if RemoveSession(st.sessions, id) == [] then [EmptySession(freshId, now)] else [])
  {
    FindAfterRemove(st.sessions, id, st.current);
  }

  // ------------------------------------------------------------ send

  /**
   * `userText.slice(0, 30) + (userText.length > 30 ? "..." : "")`: the title
   * a session takes from its first message.
   */
  function Title(text: string): (r: string)
    ensures |r| == if |text| <= TitleLength then |text| else TitleLength + |Ellipsis|
    ensures r[..Min(|text|, TitleLength)] == text[..Min(|text|, TitleLength)]
    ensures |text| > TitleLength ==> r[TitleLength..] == Ellipsis
  {
    if |text| > TitleLength then text[..TitleLength] + Ellipsis else text[..]
  }

  /** A text of at most 30 characters is its own title. */
  lemma TitleOfShortText(text: string)
    requires |text| <= TitleLength
    ensures Title(text) == text
  {
    assert Title(text)[..|text|] == text[..|text|];
  }

  /** The optimistic update of one session: the user's turn, the title on a first message, the time. */
  function WithUserMessage(s: Session, text: string, now: int): Session {
    s.(title := if |s.messages| == 0 then Title(text) else s.title,
       messages := s.messages + [Message("user", text)],
       timestamp := now)
  }

  /** The optimistic `setSessions` updater: only the current session changes. */
  function Optimistic(sessions: seq<Session>, current: Option<string>, text: string, now: int): (r: seq<Session>)
    ensures |r| == |sessions|
  {
    seq(|sessions|, i requires 0 <= i < |sessions| =>
      if Matches(sessions[i], current) then WithUserMessage(sessions[i], text, now) else sessions[i])
  }

  /** The message that follows the user's turn: the reply, or the fallback text when the call failed. */
  function ReplyMessage(result: Result<string, ChatError>): (m: Message)
    ensures m.role == "model"
    ensures result.Success? ==> m.text == result.value
    ensures result.Failure? ==> m.text == FallbackReply
  {
    match result
    case Success(text) => Message("model", text)
    case Failure(_) => Message("model", FallbackReply)
  }

  /** The second `setSessions` updater: the model's message goes after the current session's turns. */
  function Settle(sessions: seq<Session>, current: Option<string>, m: Message): (r: seq<Session>)
    ensures |r| == |sessions|
  {
    seq(|sessions|, i requires 0 <= i < |sessions| =>
      if Matches(sessions[i], current) then sessions[i].(messages := sessions[i].messages + [m]) else sessions[i])
  }

  /**
   * One whole turn of `handleSend`: every session with the current id gains
   * the user's message and then exactly one model message (the reply or the
   * fallback), takes its title from the text if it had no messages, and takes
   * the new time; every other session is unchanged.
   */
  lemma SendTurn(sessions: seq<Session>, current: Option<string>, text: string, now: int, result: Result<string, ChatError>)
    ensures var r := Settle(Optimistic(sessions, current, text, now), current, ReplyMessage(result));
      |r| == |sessions| &&
      forall i :: 0 <= i < |sessions| ==>
        r[i].id == sessions[i].id &&
        (!Matches(sessions[i], current) ==> r[i] == sessions[i]) &&
        (Matches(sessions[i], current) ==>
          r[i].messages == sessions[i].messages + [Message("user", text), ReplyMessage(result)] &&
          r[i].title == (if sessions[i].messages == [] then Title(text) else sessions[i].title) &&
          r[i].timestamp == now)
  {
    var mid := Optimistic(sessions, current, text, now);
    var r := Settle(mid, current, ReplyMessage(result));
    forall i | 0 <= i < |sessions|
      ensures Matches(mid[i], current) == Matches(sessions[i], current)
      ensures Matches(sessions[i], current) ==>
        r[i].messages == sessions[i].messages + [Message("user", text), ReplyMessage(result)]
    {
      if Matches(sessions[i], current) {
        assert mid[i].messages == sessions[i].messages + [Message("user", text)];
        assert r[i].messages == mid[i].messages + [ReplyMessage(result)];
      }
    }
  }

  /** A second message to a session that already has one keeps its title. */
  lemma TitleSetOnce(sessions: seq<Session>, current: Option<string>, text1: string, text2: string, now1: int, now2: int,
                     m: Message)
    ensures var once := Settle(Optimistic(sessions, current, text1, now1), current, m);
      forall i :: 0 <= i < |sessions| ==> Optimistic(once, current, text2, now2)[i].title == once[i].title
  {
    var once := Settle(Optimistic(sessions, current, text1, now1), current, m);
    SendTurn(sessions, current, text1, now1, Success(m.text));
    forall i | 0 <= i < |sessions|
      ensures Optimistic(once, current, text2, now2)[i].title == once[i].title
    {
      if Matches(once[i], current) {
        assert once[i].messages != [];
      }
    }
  }

  /**
   * The model's message for one turn: the context retrieved for the text, the
   * request with the history as it stood before the turn, and the reply or
   * the fallback.
   */
  function TurnReply(apiKey: Option<string>, text: string, history: seq<Message>, language: string,
                     transport: seq<ApiMessage> -> HttpResponse): Message
  {
    ReplyMessage(SendMessage(apiKey, text, history, Rag.Retrieve(text), language, transport))
  }

  /** Steps 1 and 2 of `handleSend`: retrieve the context, then ask the model. */
  method AskModel(apiKey: Option<string>, text: string, history: seq<Message>, language: string,
                  transport: seq<ApiMessage> -> HttpResponse) returns (m: Message)
    ensures m == TurnReply(apiKey, text, history, language, transport)
  {
    var context := Rag.RetrieveContext(text);
    var result := SendMessage(apiKey, text, history, context, language, transport);
    m := ReplyMessage(result);
  }

  // ------------------------------------------------------------ the component

  /** The component's state and its handlers. */
  class ChatApp {
    var sessions: seq<Session>
    var currentSessionId: Option<string>
    var input: string
    var isLoading: bool

    function State(): Store
      reads this
    {
      Store(sessions, currentSessionId)
    }

    /** The list is non-empty; `createNewChat` and `deleteSession` establish it. */
    predicate Valid()
      reads this
    {
      |sessions| > 0
    }

    /** The initial state: sessions from storage, no current id yet, empty input, not loading. */
    constructor(saved: Stored<seq<Session>>, legacy: Stored<seq<Message>>, freshId: string, now: int)
      ensures sessions == InitialSessions(saved, legacy, freshId, now)
      ensures currentSessionId == None && input == "" && !isLoading
    {
      sessions := InitialSessions(saved, legacy, freshId, now);
      currentSessionId := None;
      input := "";
      isLoading := false;
    }

    /** The effect that runs whenever `sessions` or `currentSessionId` changes. */
    method Reselect()
      modifies this
      ensures State() == Reselected(old(State()))
      ensures input == old(input) && isLoading == old(isLoading)
      ensures Valid() ==> Find(sessions, currentSessionId).Some? || Truthy(currentSessionId)
    {
      if !Truthy(currentSessionId) && |sessions| > 0 {
        currentSessionId := Some(sessions[0].id);
        assert Matches(sessions[0], currentSessionId);
      }
    }

    method CreateNewChat(freshId: string, now: int)
      modifies this
      ensures State() == NewChat(old(State()), freshId, now)
      ensures input == old(input) && isLoading == old(isLoading)
      ensures Valid()
    {
      var current := Find(sessions, currentSessionId);
      if current.Some? && |current.value.messages| == 0 {
        return;
      }
      var newSession := EmptySession(freshId, now);
      sessions := [newSession] + sessions;
      currentSessionId := Some(newSession.id);
    }

    /** `selectSession(id)`: the id is taken as given, without checking that a session has it. */
    method SelectSession(id: string)
      modifies this
      ensures currentSessionId == Some(id)
      ensures sessions == old(sessions) && input == old(input) && isLoading == old(isLoading)
    {
      currentSessionId := Some(id);
    }

    method DeleteSession(id: string, freshId: string, now: int)
      modifies this
      ensures State() == Delete(old(State()), id, freshId, now)
      ensures input == old(input) && isLoading == old(isLoading)
      ensures Valid()
    {
      var newSessions := RemoveSession(sessions, id);
      if |newSessions| == 0 {
        newSessions := [EmptySession(freshId, now)];
      }
      sessions := newSessions;
      if currentSessionId == Some(id) {
        currentSessionId := None;
      }
    }

    /** The text box's `onChange`. */
    method SetInput(text: string)
      modifies this
      ensures input == text
      ensures State() == old(State()) && isLoading == old(isLoading)
    {
      input := text;
    }

    /**
     * `handleSend`, as one atomic step: nothing happens for blank input;
     * otherwise the input is cleared, the user's turn is added, the context is
     * retrieved, the model is asked with the history as it was before the
     * turn, and its reply or the fallback is added.
     */
    method HandleSend(apiKey: Option<string>, language: string, now: int, transport: seq<ApiMessage> -> HttpResponse)
      modifies this
      ensures Trim(old(input)) == "" ==>
        State() == old(State()) && input == old(input) && isLoading == old(isLoading)
      ensures Trim(old(input)) != "" ==>
        sessions == Settle(Optimistic(old(sessions), old(currentSessionId), old(input), now), old(currentSessionId),
          TurnReply(apiKey, old(input), CurrentMessages(old(sessions), old(currentSessionId)), language, transport))
      ensures Trim(old(input)) != "" ==> currentSessionId == old(currentSessionId) && input == "" && !isLoading
      ensures |sessions| == |old(sessions)|
    {
      if Trim(input) == "" {
        return;
      }
      var userText := input;
      var history := CurrentMessages(sessions, currentSessionId);
      input := "";
      isLoading := true;
      sessions := Optimistic(sessions, currentSessionId, userText, now);
      var reply := AskModel(apiKey, userText, history, language, transport);
      sessions := Settle(sessions, currentSessionId, reply);
      isLoading := false;
    }
  }
}
