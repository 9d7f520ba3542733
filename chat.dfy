/**
 * The pure part of the chat client `sendMessageToOpenRouter`: the API-key
 * check, the system prompt with the optional retrieved context, and the
 * message list sent to the model. The HTTP exchange itself is a parameter
 * (`transport`), and its response is reduced to ok, status and the texts of
 * the returned choices.
 */
module Chat {
  import opened Wrappers
  import opened Text

  /** A chat turn as the application stores it: role "user" or "model". */
  datatype Message = Message(role: string, text: string)

  /** A turn in the request body: role "system", "user" or "assistant". */
  datatype ApiMessage = ApiMessage(role: string, content: string)

  /** What came back from the HTTP exchange, as far as the client looks at it. */
  datatype HttpResponse = HttpResponse(ok: bool, status: int, choices: seq<string>)

  /** Why `sendMessageToOpenRouter` throws. */
  datatype ChatError =
    | MissingApiKey
    | ApiError(status: int)
    | MalformedResponse

  const DefaultLanguage: string := "English"
  const ContextHeader: string := "\n\nContext:\n"

  /** JavaScript truthiness of a value that is a string or null/undefined. */
  predicate Truthy(s: Option<string>) {
    s.Some? && s.value != ""
  }

  /** The role a stored turn takes in the request. */
  function ApiRole(role: string): (r: string)
    ensures r == "assistant" <==> role == "model"
    ensures r == "assistant" || r == "user"
  {
    if role == "model" then "assistant" else "user"
  }

  /** `history.map(...)`: each stored turn becomes one request turn. */
  function MapHistory(history: seq<Message>): (r: seq<ApiMessage>)
    ensures |r| == |history|
    ensures forall i :: 0 <= i < |history| ==>
      r[i].content == history[i].text && r[i].role == ApiRole(history[i].role)
  {
    if history == [] then []
    else [ApiMessage(ApiRole(history[0].role), history[0].text)] + MapHistory(history[1..])
  }

  /** Mapping a history split in two maps each part in turn. */
  lemma {:induction false} MapHistoryAppend(a: seq<Message>, b: seq<Message>)
    ensures MapHistory(a + b) == MapHistory(a) + MapHistory(b)
    decreases |a|
  {
    if a != [] {
      assert (a + b)[1..] == a[1..] + b;
      MapHistoryAppend(a[1..], b);
    }
  }

  /** The fixed text of the prompt template, between the places where the language is substituted. */
  function PromptPiece(i: nat): string
    requires i < 4
  {
    if i == 0 then
      "You are a helpful university " +
      "assistant. \n    \n    " +
      "IMPORTANT INSTRUCTIONS:\n    " +
      "1. **Language Support**: The " +
      "user has selected **"
    else if i == 1 then "**.\n       - If "
    else if i == 2 then
      " is \"Hindi\", reply strictly " +
      "in Hindi (Devanagari script)." +
      "\n       - If "
    else
      " is \"English\", reply in " +
      "English.\n       - If they mix " +
      "English and Hindi (Hinglish), " +
      "and the selected language is " +
      "Hindi, favor Hindi but you " +
      "can be natural.\n    2. " +
      "**Thinking Process**: Before " +
      "answering complex queries, " +
      "briefly \"think\" about the " +
      "answer. (You don't need to " +
      "output the thinking process " +
      "unless asked, but ensure your " +
      "answer is well-reasoned).\n    " +
      "3. **Context**: Answer the " +
      "user's questions based on the " +
      "provided context if available."
  }

  /** The template's fixed pieces, in order (`strings` of the tagged template). */
  function PromptPieces(): (r: seq<string>)
    ensures |r| == 4
  {
    seq(4, i requires 0 <= i < 4 => PromptPiece(i))
  }

  /**
   * The system prompt before any context is appended: the template's fixed
   * pieces with the selected language substituted between them.
   */
  function SystemPreamble(language: string): string
  {
    Join(PromptPieces(), language)
  }

  /** The language is substituted three times, so the prompt grows by three characters per character of the language. */
  lemma PreambleGrowth(a: string, b: string)
    ensures |SystemPreamble(a)| - |SystemPreamble(b)| == 3 * (|a| - |b|)
  {
    JoinLength(PromptPieces(), a);
    JoinLength(PromptPieces(), b);
  }

  /** Different selected languages give different system prompts: the language is recoverable. */
  lemma PreambleInjective(a: string, b: string)
    requires SystemPreamble(a) == SystemPreamble(b)
    ensures a == b
  {
    JoinSeparatorInjective(PromptPieces(), a, b);
  }

  /** `systemContent += "\n\nContext:\n" + context` when the context is truthy, over any prompt. */
  function WithContext(preamble: string, context: Option<string>): string
  {
    if Truthy(context) then preamble + ContextHeader + context.value
    else preamble
  }

  /** The system content: the prompt for `language`, then the Context block when the context is truthy. */
  function SystemContent(language: string, context: Option<string>): string
  {
    WithContext(SystemPreamble(language), context)
  }

  /**
   * Reads the context back out of a system content built on `preamble`:
   * the inverse of `WithContext` on its second argument.
   */
  function ExtractContext(content: string, preamble: string): (r: Option<string>)
    ensures r.Some? ==> |r.value| > 0
  {
    var n := |preamble| + |ContextHeader|;
    if |content| > n && content[..n] == preamble + ContextHeader
    then Some(content[n..])
    else None
  }

  /** The Context block is present exactly when the context is truthy, and it holds that context. */
  lemma ContextRoundTrip(preamble: string, context: Option<string>)
    ensures ExtractContext(WithContext(preamble, context), preamble) ==
      if Truthy(context) then context else None
  {
    var n := |preamble| + |ContextHeader|;
    if Truthy(context) {
      var content := WithContext(preamble, context);
      assert content[..n] == preamble + ContextHeader;
      assert content[n..] == context.value;
    }
  }

  /** Without a truthy context the system content is the prompt alone, whatever the falsy value. */
  lemma NoContextBlock(preamble: string, context: Option<string>)
    requires !Truthy(context)
    ensures WithContext(preamble, context) == WithContext(preamble, None) == preamble
    ensures ExtractContext(WithContext(preamble, context), preamble) == None
  {
    ContextRoundTrip(preamble, context);
  }

  /** `messages`: the system turn, the mapped history, then the user's text as the last turn. */
  function BuildMessages(userText: string, history: seq<Message>, context: Option<string>, language: string): (r: seq<ApiMessage>)
    ensures |r| == |history| + 2
    ensures r[0] == ApiMessage("system", SystemContent(language, context))
    ensures r[|r| - 1] == ApiMessage("user", userText)
    ensures r[1..|r| - 1] == MapHistory(history)
  {
    var r := [ApiMessage("system", SystemContent(language, context))] + MapHistory(history) + [ApiMessage("user", userText)];
    assert r[1..|r| - 1] == MapHistory(history);
    r
  }

  /** Each history turn sits one place after its index, with its text and its mapped role. */
  lemma BuildMessagesHistory(userText: string, history: seq<Message>, context: Option<string>, language: string)
    ensures var r := BuildMessages(userText, history, context, language);
      forall i :: 0 <= i < |history| ==>
        r[i + 1].content == history[i].text &&
        (r[i + 1].role == "assistant" <==> history[i].role == "model")
  {
    var r := BuildMessages(userText, history, context, language);
    forall i | 0 <= i < |history|
      ensures r[i + 1] == MapHistory(history)[i]
    {
      assert r[1..|r| - 1][i] == r[i + 1];
    }
  }

  /** With no history and no context (the defaults) the request is the bare prompt and the user turn. */
  lemma BareRequest(userText: string, language: string)
    ensures var r := BuildMessages(userText, [], None, language);
      r == [ApiMessage("system", SystemPreamble(language)), ApiMessage("user", userText)]
  {
    var r := BuildMessages(userText, [], None, language);
    assert r[1..|r| - 1] == [];
  }

  /** How a response turns into the returned text or the thrown error. */
  function Reply(response: HttpResponse): (r: Result<string, ChatError>)
    ensures r.Success? <==> response.ok && |response.choices| > 0
    ensures r.Success? ==> r.value == response.choices[0]
    ensures !response.ok ==> r == Failure(ApiError(response.status))
  {
    if !response.ok then Failure(ApiError(response.status))
    else if |response.choices| == 0 then Failure(MalformedResponse)
    else Success(response.choices[0])
  }

  /**
   * `sendMessageToOpenRouter(userText, history, context, language)`. The
   * request is whatever `transport` answers to the built message list; a
   * missing key fails before any request is built.
   */
  function SendMessage(apiKey: Option<string>, userText: string, history: seq<Message>, context: Option<string>,
                       language: string, transport: seq<ApiMessage> -> HttpResponse): (r: Result<string, ChatError>)
    ensures !Truthy(apiKey) ==> r == Failure(MissingApiKey)
    ensures Truthy(apiKey) ==> r == Reply(transport(BuildMessages(userText, history, context, language)))
  {
    if !Truthy(apiKey) then Failure(MissingApiKey)
    else Reply(transport(BuildMessages(userText, history, context, language)))
  }

  /** `sendMessageToOpenRouter(userText)`: no history, no context, English. */
  function SendWithDefaults(apiKey: Option<string>, userText: string,
                            transport: seq<ApiMessage> -> HttpResponse): Result<string, ChatError>
  {
    SendMessage(apiKey, userText, [], None, DefaultLanguage, transport)
  }

  /** With the defaults the request is the bare English prompt followed by the user's turn. */
  lemma DefaultsRequest(apiKey: Option<string>, userText: string, transport: seq<ApiMessage> -> HttpResponse)
    requires Truthy(apiKey)
    ensures SendWithDefaults(apiKey, userText, transport) ==
      Reply(transport([ApiMessage("system", SystemPreamble("English")), ApiMessage("user", userText)]))
  {
    BareRequest(userText, DefaultLanguage);
  }

  /** With a missing key the outcome does not depend on the transport: no request is made. */
  lemma MissingKeyMakesNoRequest(apiKey: Option<string>, userText: string, history: seq<Message>,
                                 context: Option<string>, language: string,
                                 t1: seq<ApiMessage> -> HttpResponse, t2: seq<ApiMessage> -> HttpResponse)
    requires !Truthy(apiKey)
    ensures SendMessage(apiKey, userText, history, context, language, t1) ==
            SendMessage(apiKey, userText, history, context, language, t2)
    ensures SendMessage(apiKey, userText, history, context, language, t1).Failure?
  {
  }

  /** With a key, a reply text comes back exactly when the response is ok and has a choice. */
  lemma SendSucceedsIff(apiKey: Option<string>, userText: string, history: seq<Message>, context: Option<string>,
                        language: string, transport: seq<ApiMessage> -> HttpResponse)
    ensures var response := transport(BuildMessages(userText, history, context, language));
      SendMessage(apiKey, userText, history, context, language, transport).Success? <==>
        Truthy(apiKey) && response.ok && |response.choices| > 0
  {
  }
}
