# University chatbot core, modelled in Dafny

The chatbot answers questions about a university. Three parts of it are
modelled here:

- **The keyword retriever** (`retrieveContext` over `universityData`). Every
  one of seven fixed records is scored by the number of its keywords that
  occur in the lower-cased query. Records that score nothing are dropped. The
  rest are sorted by descending score; the sort is stable, so ties keep list
  order. The best three are rendered as `[category]: content` and joined by a
  blank line, and the result is `null` when nothing matches.
- **The request assembly of the chat client** (`sendMessageToOpenRouter`).
  It covers the API-key check and the system prompt, which takes the selected
  language and an optional `Context:` block. After the system turn come the
  history, with `model` mapped to `assistant`, and then the user's turn. The
  HTTP exchange is a function parameter (`transport`). Its response is
  reduced to ok, status and the texts of the returned choices.
- **The session store of the application component.** This is the list of
  chat sessions and the current session id, and the handlers that move them:
  - the start-up choice between saved sessions, a migrated legacy history and
    a fresh chat;
  - `createNewChat`, `selectSession` and `deleteSession`;
  - the effect that reselects the first session;
  - `handleSend`, which adds the user's turn, retrieves the context, asks the
    model and adds the reply or a fallback message.

Files:

| file | module | contents |
|---|---|---|
| `wrappers.dfy` | `Wrappers` | `Option` (JavaScript `null`) and `Result` (a value or a thrown error) |
| `text.dfy` | `Text` | `toLowerCase` (ASCII letters), `includes`, `join`, `trim` |
| `rag.dfy` | `Rag` | the knowledge base and the retriever: the scoring loop as a method, the pipeline as functions, and its properties |
| `rag_example.dfy` | `RagExample` | the worked query "What are the library timings?" |
| `chat.dfy` | `Chat` | the system prompt, the message list, the key check and the response outcome |
| `sessions.dfy` | `Sessions` | the pure `setSessions` updaters and transitions, and the class `ChatApp` whose methods are the handlers |

The handlers change component state step by step, so they are methods of
the class `ChatApp`. Its fields are `sessions`, `currentSessionId`, `input`
and `isLoading`. The selected `language` is also component state, but no
modelled handler changes it, so `HandleSend` takes it as a parameter. Each
handler's `ensures` gives the whole new state, mostly through a pure
transition function; `SelectSession` and `SetInput` give the changed field
directly. The updaters passed to `setSessions` are pure
`map`/`filter`/spread expressions and are functions. The per-record keyword
count is a `forEach` that increments a local counter, so it is a method with
a loop. It is proved equal to the function `Hits`.

The core definitions and the code they model:
`Rag.SortByScore` is the stable sort at src/services/rag.js:56;
`Rag.RetrieveFrom` is `retrieveContext` (src/services/rag.js:39-62) over a
given knowledge base; `Text.Includes`, `Text.Join` and `Text.Trim` are
`includes`, `join` and `trim`; `Chat.WithContext` is the context append at
src/services/openrouter.js:22-24; `Sessions.Delete` is `deleteSession`
(src/App.jsx:118-137); `Sessions.WithUserMessage` is the per-session update
at src/App.jsx:154-163. Each is stated through the lemmas in the table below.

A few behaviours of the code are easy to misread, and the model follows the
code in each case:

- `selectSession` takes any id without checking that a session has it.
- The session timestamp is updated on every send, but nothing ever sorts
  sessions by it.
- A saved value of `"[]"` is a non-empty string. It is taken as it is, so the
  app starts with no sessions. The reselect effect does nothing on an empty
  list; only `createNewChat` adds a session, and it makes that session
  current itself. Until then `handleSend` clears the input but drops both
  the user's turn and the reply, because no session has the current id
  (`Sessions.SendTurn` with no matching session leaves the list unchanged).
- A saved value that fails to parse falls through to the catch block and
  yields the fresh "New Chat" session. The legacy key is not consulted.

## Model

| member | source | states |
|---|---|---|
| Text.LowerChar | src/services/rag.js:40 | each ASCII capital becomes its own lower-case letter (code point + 32) and every other character is left alone |
| Text.ToLowerIdempotent | src/services/rag.js:40 | lower-casing an already lower-cased query changes nothing |
| Text.ToLowerOfLower | src/services/rag.js:40 | a text without capitals is its own lower-case form |
| Text.IncludesIff | src/services/rag.js:46 | `includes` holds exactly when the keyword occurs at some position of the query |
| Text.JoinStartsWith | src/services/rag.js:61 | a join of one entry or more starts with the first entry |
| Text.JoinSnoc | src/services/rag.js:61 | joining one more entry appends the separator and that entry; a single entry is returned as it is |
| Text.JoinLength | src/services/openrouter.js:12-20 | a template with n fixed pieces adds n-1 copies of the substituted text |
| Text.JoinSeparatorInjective | src/services/openrouter.js:12-20 | with two pieces or more, the substituted text can be read back from the result |
| Text.TrimEmptyIff | src/App.jsx:143 | `!input.trim()` holds exactly when the input is empty or all whitespace |
| Rag.Hits | src/services/rag.js:43-50 | a record's score is between 0 and its number of keywords, and it is 0 exactly when no keyword occurs in the query |
| Rag.HitsCountsMatches | src/services/rag.js:45-49 | the score is the number of keyword positions whose keyword is a substring of the lower-cased query |
| Rag.ScoreKeywords | src/services/rag.js:44-49 | the `forEach` loop that increments `score` computes exactly that count |
| Rag.ScoreAll | src/services/rag.js:43-51 | every record is copied unchanged, in order, and paired with its score, so `universityData` is never altered |
| Rag.Relevant | src/services/rag.js:55 | the filter keeps exactly the entries with a positive score |
| Rag.RelevantByScore | src/services/rag.js:55 | for each positive score, the filter keeps the entries with that score in their original order |
| Rag.InsertPermutes | src/services/rag.js:56 | inserting an entry into the sorted prefix adds exactly that entry |
| Rag.InsertSorted | src/services/rag.js:56 | inserting into a list sorted by descending score keeps it sorted |
| Rag.InsertStable | src/services/rag.js:56 | an inserted entry goes ahead of the equal-score entries that follow it in the input |
| Rag.SortByScoreCorrect | src/services/rag.js:56 | the comparator `b.score - a.score` with a stable sort yields a permutation in non-increasing score order that keeps equal scores in input order |
| Rag.Take | src/services/rag.js:57 | `slice(0, 3)` returns the first min(3, length) entries |
| Rag.Renders | src/services/rag.js:61 | each kept entry becomes `[category]: content`, in order |
| Rag.RetrieveContextFrom | src/services/rag.js:39-62 | the imperative retriever (scoring loop, then the pipeline) returns what the functional specification `RetrieveFrom` returns |
| Rag.RetrieveContext | src/services/rag.js:39-62 | `retrieveContext(query)` over the fixed knowledge base equals `Retrieve(query)` |
| Rag.RetrieveIgnoresCase | src/services/rag.js:40 | the query is lower-cased first, so lower-casing it beforehand changes nothing |
| Rag.TopEntriesRanked | src/services/rag.js:54-57 | at most 3 entries are kept, exactly min(3, number of scoring records) of them, each a scored record with a positive score, in non-increasing score order |
| Rag.TopEntriesOutscore | src/services/rag.js:54-57 | no record that was left out scores more than a record that was kept |
| Rag.TopEntriesStable | src/services/rag.js:56-57 | among records with equal score, the kept ones are the first in knowledge-base order, in that order |
| Rag.RetrieveNoneIff | src/services/rag.js:54-59 | the result is `null` exactly when every record scores 0 |
| Rag.RetrieveRenders | src/services/rag.js:59-61 | a non-null result holds 1 to 3 entries and opens with the best entry rendered, so it is never empty (the context it hands on is truthy) |
| Rag.RetrieveCaseInsensitive | src/services/rag.js:40 | two queries that differ only in the case of ASCII letters retrieve the same context |
| RagExample.UniversityDataLayout | src/services/rag.js:1-37 | the knowledge base holds the seven records in declaration order |
| RagExample.LibraryQueryScores | src/services/rag.js:2-36 | on "what are the library timings?" Library scores 2 and the six other records score 0 |
| RagExample.RetrieveSingle | src/services/rag.js:54-61 | when exactly one record scores, the context is that record alone, rendered |
| RagExample.LibraryQueryRetrieves | src/services/rag.js:39-61 | on any knowledge base with these keywords, the library query yields only the third record |
| RagExample.LibraryQueryExample | src/services/rag.js:12-16 | "What are the library timings?" yields exactly `[Library]: ` followed by the Library content |
| Chat.ApiRole | src/services/openrouter.js:30 | the role is `assistant` exactly when the stored role is `model`, and `user` otherwise |
| Chat.MapHistory | src/services/openrouter.js:29-32 | each history turn becomes one request turn, in order, with its text and its mapped role |
| Chat.MapHistoryAppend | src/services/openrouter.js:29-32 | mapping a history split in two maps each part in turn |
| Chat.PromptPieces | src/services/openrouter.js:12-20 | the prompt template has four fixed pieces, so the language is substituted three times |
| Chat.PreambleGrowth | src/services/openrouter.js:12-20 | the language is substituted three times, so the prompt grows by three characters per character of the language |
| Chat.PreambleInjective | src/services/openrouter.js:12-20 | different selected languages give different system prompts |
| Chat.ExtractContext | src/services/openrouter.js:22-24 | the inverse of the context append: any context read back is non-empty |
| Chat.ContextRoundTrip | src/services/openrouter.js:22-24 | the `Context:` block is present exactly when the context is truthy, and it holds that context |
| Chat.NoContextBlock | src/services/openrouter.js:22-24 | with a falsy context the system content is the bare prompt, and no block can be read back |
| Chat.BuildMessages | src/services/openrouter.js:27-34 | the list has length history+2: the system turn first, the mapped history in order, the user's text last |
| Chat.BuildMessagesHistory | src/services/openrouter.js:27-34 | history turn i sits at position i+1 with its text and its mapped role |
| Chat.BareRequest | src/services/openrouter.js:27-34 | with no history and no context the list is exactly the bare prompt and the user's turn |
| Chat.DefaultsRequest | src/services/openrouter.js:5 | with the default arguments the request is the English prompt and the user's turn |
| Chat.Reply | src/services/openrouter.js:52-58 | a text comes back exactly when the response is ok and has a choice, and it is the first choice; a non-ok response fails with its status |
| Chat.SendMessage | src/services/openrouter.js:5-63 | a missing key fails with `MissingApiKey`; otherwise the outcome is the reply to the built message list |
| Chat.MissingKeyMakesNoRequest | src/services/openrouter.js:6-9 | with a missing key the outcome is a failure that does not depend on the transport, so no request is made |
| Chat.SendSucceedsIff | src/services/openrouter.js:52-58 | a reply text comes back exactly when the key is set, the response is ok and it has a choice |
| Sessions.InitialSessions | src/App.jsx:10-40 | parsed saved sessions win; otherwise a non-empty legacy history becomes one "Previous Chat" session; otherwise one empty "New Chat" session |
| Sessions.Find | src/App.jsx:95 | `find` succeeds exactly when some session has the current id, and returns the first such session; a null id matches nothing |
| Sessions.CurrentMessages | src/App.jsx:90-91 | the current session's messages, else the first session's, else none |
| Sessions.NewChat | src/App.jsx:93-111 | a no-op exactly when the current session exists and is empty; otherwise one empty "New Chat" session is prepended, the others are kept in order, and it becomes current |
| Sessions.NewChatIdempotent | src/App.jsx:95-100 | a second `createNewChat` right after the first changes nothing |
| Sessions.RemoveSession | src/App.jsx:121 | the filter keeps exactly the sessions with another id |
| Sessions.RemoveSessionAppend | src/App.jsx:121 | the filter works part by part, so the kept sessions stay in order |
| Sessions.RemoveSessionAbsent | src/App.jsx:121 | deleting an id that no session has changes nothing |
| Sessions.RemoveSessionIdempotent | src/App.jsx:121 | deleting the same id twice is deleting it once |
| Sessions.FindAfterRemove | src/App.jsx:121 | deleting another session does not change which session is current |
| Sessions.AfterDelete | src/App.jsx:120-132 | the list is never empty: the filtered list, or one fresh "New Chat" session when nothing remains |
| Sessions.Reselected | src/App.jsx:49-53 | with a falsy current id and some session, the first session becomes current; otherwise nothing changes |
| Sessions.DeleteCurrentThenReselect | src/App.jsx:118-137 | deleting the current session and then running the effect leaves a non-empty list whose first session is current and found |
| Sessions.DeleteOther | src/App.jsx:118-137 | deleting any other session keeps the current id, and also the found current session unless the list had to be recreated |
| Sessions.Title | src/App.jsx:154-156 | the title is the first 30 characters of the text, followed by "..." exactly when the text is longer |
| Sessions.TitleOfShortText | src/App.jsx:155 | a text of at most 30 characters is its own title |
| Sessions.Optimistic | src/App.jsx:151-166 | the optimistic update keeps the number of sessions |
| Sessions.ReplyMessage | src/App.jsx:176-198 | the message after the user's turn has role `model`, with the reply text on success and "Sorry, something went wrong." on failure |
| Sessions.Settle | src/App.jsx:178-198 | the second update keeps the number of sessions |
| Sessions.SendTurn | src/App.jsx:151-198 | a turn appends exactly the user's message and then one model message to the current session, sets its title on a first message and sets its time; every other session is unchanged |
| Sessions.TitleSetOnce | src/App.jsx:154-156 | a later message keeps the title set by the first |
| Sessions.AskModel | src/App.jsx:168-176 | the context is retrieved for the user's text, and the model is asked with that context and the given history; the reply or the fallback becomes the model message |
| Sessions.ChatApp.constructor | src/App.jsx:10-56 | the start-up sessions, no current id, empty input, not loading |
| Sessions.ChatApp.Reselect | src/App.jsx:49-53 | the effect moves the state as `Reselected` says; when the list is non-empty, afterwards a current session is found or the id is truthy |
| Sessions.ChatApp.CreateNewChat | src/App.jsx:93-111 | the handler moves the state as `NewChat` says, and the list is non-empty afterwards |
| Sessions.ChatApp.SelectSession | src/App.jsx:113-116 | the given id becomes current and nothing else changes |
| Sessions.ChatApp.DeleteSession | src/App.jsx:118-137 | the handler moves the state as `Delete` says, and the list is non-empty afterwards |
| Sessions.ChatApp.SetInput | src/App.jsx:55 | only the input changes |
| Sessions.ChatApp.HandleSend | src/App.jsx:142-202 | blank input changes nothing; otherwise the sessions become the two updates with the retrieved-context reply to the current session's history as it stood before the turn, the input is cleared, loading ends, and the current id and the number of sessions are kept |

## Left out

- Rendering and platform calls are not modelled: the sidebar and chat-area components, the theme, sidebar toggling driven by `window.innerWidth`, speech recognition and synthesis, and `console` logging.
- `localStorage` and `JSON.parse` are not modelled. The start-up functions take what each key yields (absent, unparsable or parsed) as a parameter, and the effect that saves sessions back is left out.
- Parsed storage values are assumed to be well-shaped session or message lists. A legacy value that parses to something else is outside the model. If it has no positive `length` (null, a number, a plain object), the code falls through to the fresh session, as for an unparsable value. If it does have one (a JSON string, or an object with a positive numeric `length`), the code makes a "Previous Chat" session whose `messages` is that value.
- `Date.now()` is not called; new ids and timestamps are parameters. Ids are not assumed unique, and sessions are never ordered by timestamp, because the code never sorts them.
- The network layer is not modelled: `fetch`, the headers, the model name, `JSON.stringify`, `response.json()` and `window.location`. The transport is a function from the message list to an abstract response.
- test-models.js is not modelled; it is a network probe script for a third-party SDK.
- Text.ToLower: lower-cases only the ASCII letters A-Z, not the full Unicode case mapping of `toLowerCase`.
- Sessions.Title: counts characters, whereas `slice` and `length` count UTF-16 code units.
- Chat.Reply: the response is reduced to ok, status and the choice texts. A choice without `message.content`, and an error body that is not JSON, are not modelled (the latter throws a different error, which the app also turns into the fallback message).
- Sessions.ChatApp.HandleSend: treated as one atomic step, so `isLoading` is true only inside it. The asynchronous interleavings are not modelled: another handler running while the reply is pending, or a reply arriving after its session was deleted. The stale-closure reading of the current id and history is modelled; both are taken as they were when the send started.
- Sessions.Optimistic and Sessions.Settle: their own contracts state only the length. What they do to each session is stated by `Sessions.SendTurn`.
