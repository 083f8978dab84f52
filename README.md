# akeno chat client: a Dafny model

akeno is a small browser chat client. It offers four topics (cars, anime,
manga, bikes), keeps a list of conversations, and streams each reply from a
hosted language model into the open conversation. This project models the
client's core and proves properties of it:

- **App** (`app.dfy`): the conversation state machine of `App.tsx`. A class
  `App` holds the component's four pieces of state: `conversations`,
  `currentConversationId`, `isLoading` and `isHistoryPanelOpen`. It has one
  method per handler: start-up load, new chat, domain switch, select, delete
  and the open/close buttons.
  - A send is split into events: `SendStart`, then one `Chunk` per streamed
    fragment, then `End` or `Fail`. Other handlers may run between these
    events, as they can in the browser.
  - `RunSend` is the same sequence with nothing interleaved.
  - Each state change is stated as a pure list function from **Store**.
- **Store** (`store.dfy`): the list expressions the handlers pass to
  `setConversations`, and lemmas about them. These are:
  - the `find`/`map`/`filter` by conversation id. Every conversation that
    carries the id is affected, and `find` takes the first.
  - the outgoing-history filter that drops greetings.
  - the fold of stream fragments into the placeholder message.
  - the error replacement.
  - the fallback selection after a delete.
  - the start-up list and the save effect.
- **Recency** (`recency.dfy`): the stable sort by timestamp, newest first.
  Both the delete fallback and the history panel use it. Its stability
  matches ECMAScript's `Array.prototype.sort`.
- **Constants** (`constants.dfy`): the domain registry, the per-domain system
  instructions and the per-domain quick replies, verbatim.
- **InputBar** (`inputbar.dfy`): a class holding the text box's
  `inputValue`, with the send and quick-reply gates and the send button's
  disabled flag.
- **HistoryPanel** (`historypanel.dfy`): the listing, newest first. Each row
  has a label, a preview line and the ids its callbacks pass on. An empty
  list shows a notice instead.
- **Text** (`text.dfy`) and **Types** (`types.dfy`):
  - ECMAScript `String.prototype.trim`, using ECMAScript's whitespace set.
  - `startsWith`.
  - the decimal rendering of `Date.now()` that serves as a conversation id.
  - the record types.

Properties proved include:

- Once a current conversation exists, every handler keeps one, except
  selecting an id that is not in the list. Deleting the current chat selects
  the first most recent survivor, or starts a fresh CARS chat.
- Fragments streamed into a conversation concatenate, in arrival order, into
  the placeholder message and nowhere else. A failure replaces all of them
  with the error text. A stream whose target was deleted changes nothing.
- The submitted history keeps every user message and drops the client's own
  greetings, in order. It already ends with the new user message, which is
  then sent once more as the new message, so the service receives that user
  turn twice in a row (`App.SentTurnsRepeatUserMessage`).
- The typed text goes out trimmed and only when it is not blank. The send
  button is disabled exactly when a send would be rejected. No quick reply is
  blank, so each passes the trim test of the App's send guard.
- The history listing is a permutation of the conversations, sorted newest
  first and stable on ties.
- The decimal id round-trips to its timestamp, and distinct instants give
  distinct ids.

The timestamp `now`, the saved history, the stream's fragments and whether
the stream fails are all parameters.

## Model

| member | source | states |
|---|---|---|
| Text.TrimStart | components/InputBar.tsx:14-15 | the leading half of `trim()`: the result is a suffix of the input, what it drops is blank, and it does not start with whitespace |
| Text.TrimEnd | components/InputBar.tsx:14-15 | the trailing half of `trim()`: the result is a prefix of the input, what it drops is blank, and it does not end with whitespace |
| Text.Trim | App.tsx:100 | `String.prototype.trim`, the trailing cut after the leading one; TrimStart and TrimEnd state what each cut drops; TrimEmptyIffBlank, TrimEnds and TrimIdempotent state what the whole trim gives |
| Text.TrimEmptyIffBlank | App.tsx:100 | `s.trim()` is empty (falsy) exactly when every character of s is ECMAScript whitespace |
| Text.TrimEnds | components/InputBar.tsx:15 | the trimmed text is no longer than the input and starts and ends with non-whitespace |
| Text.TrimIdempotent | components/InputBar.tsx:15 | trimming the text InputBar sends changes nothing more |
| Text.TrimKeepsTightString | components/InputBar.tsx:14-15 | a string that starts and ends with non-whitespace is its own trim |
| Text.StartsWith | App.tsx:129 | `startsWith`: the string begins with the prefix; the greeting texts are shown to begin with their prefixes (GreetingText, RegreetingText) |
| Text.NatToString | App.tsx:45 | the id rendering of an instant is a non-empty string of decimal digits |
| Text.DecimalValueOfNatToString | App.tsx:45 | reading the id back as a decimal number gives the instant it was made from |
| Text.NatToStringInjective | App.tsx:45 | chats started at different instants get different ids |
| Constants.FindDomain | App.tsx:43 | `DOMAINS.find` by id gives a registry entry with that id, and fails exactly when no entry has it |
| Constants.FindDomainIsFirst | App.tsx:43 | the entry `find` returns is the first one with that id: every earlier entry carries another id |
| Constants.DomainsOnePerId | constants.ts:4-9 | the registry has four entries, one per domain id, so every lookup succeeds |
| Constants.DomainNames | constants.ts:4-9 | each domain's registry entry has the names Cars, Anime, Manga, Bikes and its icon |
| Constants.SystemInstruction | constants.ts:11-16 | every domain has a non-empty persona instruction |
| Constants.QuickReplies | constants.ts:18-43 | every domain offers exactly four quick replies |
| Constants.QuickRepliesAreNotBlank | constants.ts:18-43 | no quick reply is blank, so each one passes the send guard's trim test |
| Recency.Insert | components/HistoryPanel.tsx:72 | inserting into a newest-first list keeps it sorted and adds exactly that element |
| Recency.SortByRecency | components/HistoryPanel.tsx:72 | the sort with comparator `b.timestamp - a.timestamp` yields a newest-first permutation of its input |
| Recency.SortIsStable | components/HistoryPanel.tsx:72 | conversations with equal timestamps keep their relative order in the sorted list |
| Recency.FirstMostRecent | App.tsx:89-90 | the position of the earliest conversation among those with the greatest timestamp |
| Recency.SortHeadIsFirstMostRecent | App.tsx:89-90 | the head of the sorted list is the earliest of the most recent conversations |
| Store.TopicName | App.tsx:43 | the greeting's topic is the fallback when the lookup fails, and otherwise either the looked-up name or the fallback (for an empty name) |
| Store.TopicNameNeverFallsBack | App.tsx:43 | with the registry, the topic is always the domain's own name, never the fallback |
| Store.GreetingText | App.tsx:49 | the greeting of a new chat begins with "Hey there!", the prefix by which the history filter drops it |
| Store.RegreetingText | App.tsx:68 | the greeting after a domain switch begins with "Alright, let's talk", the other prefix the filter drops |
| Store.NewConversation | App.tsx:43-52 | the record startNewChat builds; NewConversationIsGreeted states its id, timestamp, domain and single greeting |
| Store.IsGreeting | App.tsx:129 | the message the filter drops: a model message starting with either greeting prefix; both client greetings qualify (OutgoingHistoryKeepsUsersDropsGreetings) |
| Store.NewConversationIsGreeted | App.tsx:44-52 | a new chat has the decimal-instant id and that instant as timestamp; it holds one greeting, which the history filter drops |
| Store.OutgoingHistory | App.tsx:129 | the history filter never lengthens the log |
| Store.OutgoingHistoryMembers | App.tsx:129 | the submitted history holds exactly the log's non-greeting messages |
| Store.OutgoingHistoryAppend | App.tsx:129 | the filter keeps order, so it distributes over concatenation |
| Store.OutgoingHistoryKeepsUsersDropsGreetings | App.tsx:129 | every user message is submitted; both greetings the client writes are recognised and dropped |
| Store.SubmittedHistoryEndsWithUserMessage | App.tsx:126-129 | the history is built after the user message is appended, so it ends with that message |
| Store.IndexOf | App.tsx:60 | `find` by id: the first position carrying the id, or none exactly when no conversation has it |
| Store.FindById | App.tsx:126 | `find` by id returns the first conversation of the list carrying the id (the one at IndexOf), and nothing exactly when no conversation carries it |
| Store.UpdateWhere | App.tsx:105-114 | `map` by id keeps the list's length |
| Store.UpdateWhereAt | App.tsx:105-114 | `map` by id: every conversation with the id is rewritten by the edit, every other one is kept |
| Store.UpdateWhereMissing | App.tsx:140-147 | an update by an id that nothing carries leaves the list as it is |
| Store.Regreeted | App.tsx:61-70 | a domain switch keeps the chat's id and timestamp, takes the new domain and resets the log to one model message |
| Store.UpdateWhereKeepsIds | App.tsx:71 | an id-preserving rewrite keeps every id in place and every findable id findable |
| Store.UserTurnInTwoSteps | App.tsx:105-126 | the user-message update followed by the placeholder update is one user turn; the target keeps its position; the request is built from the first match plus the user message |
| Store.WithUserMessage | App.tsx:105-114 | the first update of a send: the user message appended and the send instant as timestamp; UserTurnInTwoSteps uses it for the request's conversation |
| Store.WithPlaceholder | App.tsx:119-124 | the second update of a send: the empty model message appended; PlaceholderCollectsChunks shows the stream fills it |
| Store.WithUserTurn | App.tsx:105-124 | both updates in program order; UserTurnInTwoSteps shows it equals the two list updates applied one after the other |
| Store.AfterUserTurn | App.tsx:105-124 | the list after a send's two updates; UserTurnInTwoSteps keeps the target at its position, SendThenStream gives the final target |
| Store.WithLastContent | App.tsx:142-144 | replacing the last message's content keeps the id, domain, timestamp, earlier messages and the last message's role |
| Store.WithChunk | App.tsx:142-144 | one fragment appended to the last message keeps the chat's id and timestamp; ChunksCompose shows fragments concatenate |
| Store.AfterChunk | App.tsx:140-147 | the list after one fragment; ApplyChunksSnoc shows the stream fold is a run of these |
| Store.WithError | App.tsx:151-157 | the last message becomes the error text; ErrorDiscardsChunks shows earlier fragments do not matter |
| Store.ChunksCompose | App.tsx:140-147 | two fragments applied in turn act as their concatenation |
| Store.ErrorDiscardsChunks | App.tsx:151-158 | a failure after fragments leaves the same message as a failure before them |
| Store.PlaceholderCollectsChunks | App.tsx:119-124 | after a send, fragments fill the empty placeholder and the user message before it stays intact |
| Store.ApplyChunks | App.tsx:138-148 | folding the stream over the list keeps its length |
| Store.ApplyChunksAt | App.tsx:138-148 | after the stream, each target conversation's last message has the fragments' concatenation appended; others are untouched |
| Store.ApplyChunksSnoc | App.tsx:138-148 | one more fragment is one more chunk update of the list |
| Store.ApplyChunksMissing | App.tsx:140-147 | a stream whose target was deleted meanwhile changes nothing |
| Store.DeleteWhere | App.tsx:84 | `filter` by id never lengthens the list |
| Store.DeleteWhereMembers | App.tsx:84 | no survivor carries the id, every survivor comes from the list, and every conversation with another id survives |
| Store.DeleteWhereAppend | App.tsx:84 | the filter keeps the survivors' order |
| Store.DeleteWhereMissing | App.tsx:84 | deleting an id nothing carries changes nothing |
| Store.DeleteWhereKeepsOthers | App.tsx:84 | deleting one id keeps every other id findable |
| Store.MostRecentId | App.tsx:89-90 | the fallback selection is the id of the earliest most recent survivor, and it is findable |
| Store.StartupList | App.tsx:18-33 | after start-up the list is the saved list (or nothing) followed by one new CARS chat |
| Store.SaveEffect | App.tsx:35-40 | the stored snapshot is replaced by a non-empty list and left alone when the list is empty |
| Store.ReloadRestoresSaved | App.tsx:18-40 | a reload after a save starts with exactly the saved list |
| Store.SendThenStream | App.tsx:99-161 | a whole send appends the user message and one model message with all fragments in order, or with the error text; it stamps the send instant |
| App.PassesSendGuard | App.tsx:100 | passing the early-return test at that line, the blank-text or missing-id check; SendGuardMeaning states it as non-blank text and a non-empty current id |
| App.Request.Turns | services/geminiService.ts:12-23 | the chat's history followed by the new message as a user turn; SentTurnsRepeatUserMessage states what the service then sees |
| App.SendGuardMeaning | App.tsx:100 | a send goes ahead exactly when the text is not blank and a non-empty current id is set |
| App.SentTurnsRepeatUserMessage | services/geminiService.ts:12-23 | the turns the service sees are the filtered prior log, then the user message twice |
| App.App.constructor | App.tsx:12-15 | no conversations, no current id, not loading, panel closed |
| App.App.CurrentConversation | App.tsx:164 | the displayed conversation is the first one in the list whose id is the current id; it is absent exactly when no id is set or nothing matches |
| App.App.ActiveDomain | App.tsx:165 | the active tab is the current conversation's domain, CARS when there is none |
| App.App.Messages | App.tsx:166 | the displayed log is the current conversation's, empty when there is none |
| App.App.StartNewChat | App.tsx:42-56 | appends the greeted chat to the given list, selects it, closes the panel, leaves the busy flag |
| App.App.Load | App.tsx:18-33 | the list becomes the start-up list and its new CARS chat is current |
| App.App.NewChat | App.tsx:176 | a new chat in the active domain is appended and selected |
| App.App.OpenHistory | App.tsx:185 | opens the panel and changes nothing else |
| App.App.CloseHistory | App.tsx:174 | closes the panel and changes nothing else |
| App.App.HandleDomainChange | App.tsx:58-76 | an unused current chat is re-greeted in the new domain in place; otherwise a new chat is started; a current chat always exists afterwards |
| App.App.HandleSelectConversation | App.tsx:78-81 | selects the id and closes the panel; a current chat exists exactly when the id is in the list |
| App.App.HandleDeleteConversation | App.tsx:83-96 | removes the id; if it was current, selects the most recent survivor or a fresh CARS chat; a current chat, once present, stays present |
| App.App.SendStart | App.tsx:99-136 | the send is ignored exactly when the guard rejects; otherwise the user turn on the list; the busy flag; the early return exactly when no conversation matches; the request's text, filtered history and persona |
| App.App.AddUserTurn | App.tsx:102-124 | the list becomes the user turn (user message with the send instant, then the empty placeholder), the busy flag is set, and the target is returned as it stood after the first update |
| App.App.Chunk | App.tsx:138-148 | one fragment is appended to the captured target's last message |
| App.App.Stream | App.tsx:138-148 | the loop applies every fragment in arrival order, which equals the stream fold, and a current conversation that exists stays there |
| App.App.Fail | App.tsx:149-161 | the target's last message becomes the error text and the busy flag clears |
| App.App.End | App.tsx:159-161 | the busy flag clears and nothing else changes |
| App.App.RunSend | App.tsx:99-162 | the send is ignored exactly when the guard rejects, and stops at the early return exactly when a guarded send finds no target; otherwise the send starts and leaves the list as the user turn, then the stream fold, then the error replacement on failure, and clears the busy flag; a send whose target is missing leaves the list unchanged and the flag stuck on; a current conversation that exists stays there |
| InputBar.AcceptsSend | components/InputBar.tsx:14 | the gate of handleSend: non-blank text while not loading (SendDisabledIffRejected) |
| InputBar.SendDisabled | components/InputBar.tsx:52 | the send button's disabled flag; SendDisabledIffRejected shows it is exactly the rejection of AcceptsSend |
| InputBar.SendDisabledIffRejected | components/InputBar.tsx:52 | the send button is disabled exactly when the handler would reject, that is while loading or on blank text |
| InputBar.InputBar.constructor | components/InputBar.tsx:11 | the text box starts empty |
| InputBar.InputBar.OnChange | components/InputBar.tsx:44-47 | the text box takes the typed value, except while a reply is loading, when the disabled box keeps its text |
| InputBar.InputBar.HandleSend | components/InputBar.tsx:13-18 | non-blank text while idle is sent trimmed and the box cleared; otherwise nothing is sent and the box is kept; sent text is non-empty and already trimmed |
| InputBar.InputBar.HandleQuickReplyClick | components/InputBar.tsx:20-24 | the reply goes out verbatim unless loading, and the text box is untouched |
| HistoryPanel.FirstUserIndex | components/HistoryPanel.tsx:22 | `find(m => m.role === 'user')`: the first user message, or none exactly when there is no user message |
| HistoryPanel.FirstUserContent | components/HistoryPanel.tsx:22 | `find(m => m.role === 'user')?.content`, the content at FirstUserIndex; Preview states what is shown from it |
| HistoryPanel.Preview | components/HistoryPanel.tsx:22-23 | 'New Chat' exactly when there is no user message or the first one is empty; otherwise a quote, at most 30 leading characters of it, then `..."` |
| HistoryPanel.Label | components/HistoryPanel.tsx:31 | the label is the name of the first registry entry for the domain, or 'Chat' when the domain is unknown or that name is empty |
| HistoryPanel.LabelsFromRegistry | App.tsx:173 | with the App's registry every row is labelled with its domain's name, never 'Chat' |
| HistoryPanel.ItemOf | components/HistoryPanel.tsx:73-79 | one row: the conversation, its label and preview, and its id for both callbacks; ListingIsRecencyOrder states the callbacks' ids |
| HistoryPanel.ItemsOf | components/HistoryPanel.tsx:72-79 | one row per conversation, in the given order |
| HistoryPanel.ListingOf | components/HistoryPanel.tsx:71-83 | the notice "No chat history found." exactly when the list is empty; otherwise one row per conversation |
| HistoryPanel.ListingIsRecencyOrder | components/HistoryPanel.tsx:72-78 | rows are a newest-first, tie-stable permutation of the conversations; each row's select and delete callbacks receive its own id |

## Left out

- The model service (services/geminiService.ts) is represented only by what it returns: a sequence of text fragments and whether the stream ends in failure. The `@google/genai` client, the model name and the API key are not modelled.
- localStorage and JSON are a value: `Load` takes the parsed list, or None when the key is missing, empty or unparsable. Serialisation itself and saved data of the wrong shape are not modelled.
- `Date.now()` is the parameter `now`. Its two reads in startNewChat (App.tsx:45 and :51) are taken as the same instant. Two chats started in the same millisecond share an id. The model allows this, and its by-id functions then affect both, as the source does.
- React scheduling is not modelled. State updates apply at once, in program order. Event interleaving between renders, and handlers reading a stale `conversations` snapshot, are not captured beyond the event split of a send.
- Rendering, styling and the display-only components (components/Message.tsx, components/ChatWindow.tsx, components/DomainSelector.tsx, components/icons/DomainIcons.tsx) are not part of this model. Icons are plain symbolic tokens.
- The Enter-key handler (components/InputBar.tsx:45) calls the same `HandleSend`. The disabled attribute of the quick-reply buttons and of the send button (components/InputBar.tsx:33, 52) does not gate either handler: `HandleQuickReplyClick` and `HandleSend` already reject every click the attribute would block (while loading, and for the send button also on blank text), so it only affects display. The send button's flag itself is `SendDisabled`.
- Store.WithLastContent: leaves a conversation with no messages unchanged. The source throws on a chunk there and builds a role-less message on failure. After a send the target always has the placeholder, so this case cannot follow a send.
- App.Request: keeps the persona as a DomainID, not as the instruction text. The text actually sent is `Constants.SystemInstruction(persona)`.
- Text.Trim: works on characters, not UTF-16 code units. Likewise `substring(0, 30)` in HistoryPanel.Preview counts characters, so a preview can differ where a surrogate pair sits at position 30.
- A `chunk.text` that is undefined, which JavaScript would append as the text "undefined", is not modelled: fragments are strings.
- `console.error` logging is not modelled.
