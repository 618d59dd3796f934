# AdseroAssist chat store, session search and mock SharePoint route in Dafny

This project models the logic of the AdseroAssist chat frontend. It has three parts:

- **The chat-session store** of `ChatInterface` (`components/chat-interface.tsx`). The component keeps three pieces of state:
  - a most-recent-first list of chat sessions;
  - the id of the active session;
  - the live message buffer of the chat hook.

  Its handlers create, select, delete and submit. Its two effects are the startup effect, which makes sure a session exists and one is active, and the save effect, which copies the buffer into the active session. The store is the class `ChatInterface.ChatStore`. The list transformations it performs (`map`, `filter`, `find`) are pure functions over `seq<Session>` with lemmas of their own.
- **The sidebar search** (`components/sidebar.tsx`). It is a case-insensitive substring filter over session titles and summaries.
- **The mock SharePoint route** (`app/api/sharepoint/route.ts`). `GET /api/sharepoint?type=...&query=...` filters a fixed catalogue of five documents or three reports by case-insensitive substring. Any other type is answered with a 400 error.

Modules:

- `Wrappers` holds `Option`.
- `Strings` holds the JavaScript string operations used: ASCII `toLowerCase`, `includes` and `trim`.
- `Seqs` holds `Array.prototype.filter` and the subsequence relation that describes it.
- `ChatInterface`, `Sidebar` and `SharePoint` model the three source files.

The class invariant `ChatStore.Valid()` says:

- session ids are distinct and non-empty;
- some session is active;
- the active session's stored history equals the buffer.

Every handler (`LoadChat`, `DeleteChat`, `Submit`, `HandleSubmit`, `ReceiveMessages`) requires and keeps `Valid()`. `Startup` and `CreateNewChat` need only the weaker `WellFormed()` and list invariant, because they also run before any session exists, and they establish `Valid()`. `SaveActiveSession` is the internal save step. The handlers that change the buffer or the active id end with it, and it re-establishes the history clause. React re-runs the save effect only when `messages` or `activeChatId` changed. So a deletion of a non-active session and a blank submit do not call it. Each method's `ensures` give the new list, active id and buffer in terms of the old ones.

The "Find documents" quick-start button puts "Show me the latest legal documents" into the input (components/chat-interface.tsx:147). Submitted as a first message, this 34-character text becomes the title "Show me the latest legal docum..." (line 101, `LongFirstMessageTitle`).

## Model

| member | source | states |
|---|---|---|
| Strings.LowerChar | components/sidebar.tsx:33-34 | ASCII `toLowerCase` of one character: never an upper-case letter; letters move to lower case; every other character is kept |
| Strings.LowerIdempotent | components/sidebar.tsx:33-34 | lower-casing an already lower-cased string changes nothing |
| Strings.ContainsEmpty | components/sidebar.tsx:33-34 | `includes("")` holds for every string |
| Strings.TrimStart | components/chat-interface.tsx:94 | the result is a suffix of the input that does not start with whitespace, and everything dropped is whitespace |
| Strings.TrimEnd | components/chat-interface.tsx:94 | the result is a prefix of the input that does not end with whitespace, and everything dropped is whitespace |
| Strings.TrimEmptyIffBlank | components/chat-interface.tsx:94 | `input.trim() === ""` holds exactly when every character of the input is whitespace |
| Strings.Lower | components/sidebar.tsx:33-34 | `toLowerCase` on ASCII: the length is kept, each upper-case letter becomes its lower-case partner, every other character is kept, so no upper-case letter remains; see also `LowerIdempotent` |
| Strings.Contains | components/sidebar.tsx:33-34 | `includes`: the needle occurs at some start index (the definition); a contained needle is never longer than the text, and a prefix is always contained; see also `ContainsEmpty` |
| Strings.Trim | components/chat-interface.tsx:94 | `trim`: the input is whitespace, then the result, then whitespace (so only leading and trailing whitespace is removed), and the result neither starts nor ends with whitespace; `TrimEmptyIffBlank` says when it is empty |
| Strings.TrimSplit | components/chat-interface.tsx:94 | the trimmed text sits in the input right after the leading whitespace that `TrimStart` drops, with only whitespace before and after it |
| Seqs.Filter | components/sidebar.tsx:31-35 | `filter` never lengthens the list, and every kept element is an element of the input that passes the predicate |
| Seqs.FilterMembership | components/sidebar.tsx:31-35 | an element is kept if and only if it is in the input and passes the predicate |
| Seqs.FilterSubsequence | components/sidebar.tsx:31-35 | the kept elements appear in their original order |
| Seqs.FilterMultiplicity | components/sidebar.tsx:31-35 | every passing element is kept as many times as it occurs in the input, every other element never |
| Seqs.FilterKeepsAll | components/sidebar.tsx:31-35 | when every element passes, the list comes back unchanged |
| Seqs.FilterCongruent | components/sidebar.tsx:31-35 | predicates that agree on the elements give the same result |
| ChatInterface.NewSession | components/chat-interface.tsx:58-64 | definition of the record `createNewChat` builds; its use is stated by `ChatStore.CreateNewChat` |
| ChatInterface.FreshId | components/chat-interface.tsx:57 | the new id is non-empty and not the id of any session in the list |
| ChatInterface.Find | components/chat-interface.tsx:72 | finds a session exactly when the id is present, and the session found is in the list and has that id |
| ChatInterface.FindUnique | components/chat-interface.tsx:72 | with distinct ids, looking up a session's id yields that session |
| ChatInterface.UpdateWhere | components/chat-interface.tsx:45-47 | the `map` keeps the length and applies the update exactly at positions with the given id |
| ChatInterface.WithMessages | components/chat-interface.tsx:44-48 | the save writes the buffer into the sessions with the active id; ids, titles, summaries and all other histories are unchanged |
| ChatInterface.WithTitle | components/chat-interface.tsx:98-104 | the title update changes only the title of the sessions with the active id |
| ChatInterface.SaveIdempotent | components/chat-interface.tsx:42-49 | running the save twice with the same buffer equals running it once |
| ChatInterface.SaveSynced | components/chat-interface.tsx:42-49 | saving a history that the session already holds leaves the list unchanged |
| ChatInterface.SavedIsStored | components/chat-interface.tsx:42-49 | after the save the list stays well formed, and looking up the id gives the old session with the buffer as its history |
| ChatInterface.TitleIsStored | components/chat-interface.tsx:97-105 | after the title update the list stays well formed, and looking up the id gives the old session with the new title |
| ChatInterface.ConsInvariant | components/chat-interface.tsx:66 | prepending a session with a new non-empty id keeps the ids distinct and adds exactly that id |
| ChatInterface.RemoveSession | components/chat-interface.tsx:80 | definition of the `filter` by id (also line 83); see `RemoveSessionKeepsOthers` and `RemoveSessionIds` |
| ChatInterface.RemoveSessionKeepsOthers | components/chat-interface.tsx:80 | deletion keeps exactly the sessions with another id, unchanged and in their original order |
| ChatInterface.RemoveSessionIds | components/chat-interface.tsx:80 | deletion keeps the list well formed, removes exactly that id from the id set, and shortens the list by one exactly when the id was present |
| ChatInterface.FindAfterRemove | components/chat-interface.tsx:79-90 | deleting one session does not change the lookup of any other id, so a non-active deletion leaves the active session in place |
| ChatInterface.DeriveTitle | components/chat-interface.tsx:101 | the title is at most 33 characters; a short input is the title itself; a longer one gives its first 30 characters followed by "..." |
| ChatInterface.LongFirstMessageTitle | components/chat-interface.tsx:101 | "Show me the latest legal documents" (34 characters) becomes "Show me the latest legal docum..." |
| ChatInterface.Submitted | components/chat-interface.tsx:97-107 | definition of the list after a non-blank submit; see `SubmittedSpec` |
| ChatInterface.SubmittedSpec | components/chat-interface.tsx:92-108 | after a submit, the active session gets the derived title only when the buffer was empty and otherwise keeps its title; its history is the buffer plus the user message; the list keeps its length and invariant |
| ChatInterface.ChatStore.constructor | components/chat-interface.tsx:24-40 | the first render plus the startup effect gives exactly one fresh empty session, which is active, with an empty buffer |
| ChatInterface.ChatStore.SaveActiveSession | components/chat-interface.tsx:42-49 | with an active id, the list becomes the save of the buffer under that id; without one, nothing changes |
| ChatInterface.ChatStore.Startup | components/chat-interface.tsx:33-40 | an empty list gets one fresh active session; otherwise, with no active id, the first session becomes active and the buffer is saved into it; otherwise nothing changes; the invariant holds afterwards |
| ChatInterface.ChatStore.CreateNewChat | components/chat-interface.tsx:56-69 | exactly one session is prepended, with a fresh id, "New Chat", "New conversation" and no messages; the old sessions follow unchanged and in order; the new id is active and the buffer is empty |
| ChatInterface.ChatStore.LoadChat | components/chat-interface.tsx:71-77 | a known id becomes active and its stored history is loaded; an unknown id changes nothing; the list never changes |
| ChatInterface.ChatStore.DeleteChat | components/chat-interface.tsx:79-90 | the list loses exactly the sessions with that id; a non-active deletion keeps the active id and buffer; deleting the active one of several activates the first remaining session and loads its history; deleting the only one leaves exactly one fresh empty active session |
| ChatInterface.ChatStore.Submit | components/chat-interface.tsx:92-108 | input that is empty or only whitespace changes nothing and sends nothing; other input is sent: the buffer gains the user message and the list becomes the title update (only while the buffer was empty) followed by the save |
| ChatInterface.ChatStore.HandleSubmit | components/chat-interface.tsx:107 | the user message is appended to the buffer and saved into the active session |
| ChatInterface.ChatStore.ReceiveMessages | components/chat-interface.tsx:42-49 | a buffer change from the chat hook is saved into the active session and nothing else changes |
| Sidebar.Matches | components/sidebar.tsx:32-34 | definition of the search predicate; see `FilterSessionsSpec` |
| Sidebar.FilterSessions | components/sidebar.tsx:31-35 | definition of `filteredSessions`; see `FilterSessionsSpec`, `EmptyTermKeepsAll` and `CaseInsensitive` |
| Sidebar.FilterSessionsSpec | components/sidebar.tsx:31-35 | the listed sessions keep their order and are unchanged; a session is listed exactly when its lower-cased title or summary contains the lower-cased term |
| Sidebar.EmptyTermKeepsAll | components/sidebar.tsx:29-35 | the initial empty search term lists every session |
| Sidebar.CaseInsensitive | components/sidebar.tsx:33-34 | terms that differ only in ASCII case list the same sessions |
| Sidebar.LowerTermSameResult | components/sidebar.tsx:33-34 | lower-casing the search term first does not change the result |
| SharePoint.QueryText | app/api/sharepoint/route.ts:7 | definition: a missing query reads as ""; see `DocumentsRequest` and `ReportsRequest` |
| SharePoint.ListDocuments | app/api/sharepoint/route.ts:50-53 | definition of the documents filter; see `ListDocumentsSpec` |
| SharePoint.ListReports | app/api/sharepoint/route.ts:78-81 | definition of the reports filter; see `ListReportsSpec` |
| SharePoint.Respond | app/api/sharepoint/route.ts:12-85 | the answer is an error exactly when the type is neither "documents" nor "reports"; the error has status 400 and "Invalid request type"; a list is never longer than its catalogue |
| SharePoint.Get | app/api/sharepoint/route.ts:4-86 | definition of the handler on the two query parameters; see `GetBounded`, `InvalidTypeRejected`, `DocumentsRequest`, `ReportsRequest` and `LegalDocuments` |
| SharePoint.GetBounded | app/api/sharepoint/route.ts:12-83 | at most 5 documents or 3 reports are returned |
| SharePoint.InvalidTypeRejected | app/api/sharepoint/route.ts:85 | any other type, a missing one included, is answered with `{error: "Invalid request type"}` and status 400 |
| SharePoint.ListDocumentsSpec | app/api/sharepoint/route.ts:50-53 | the documents listed are exactly the catalogue documents whose lower-cased name or path contains the lower-cased query, unchanged and in catalogue order |
| SharePoint.ListReportsSpec | app/api/sharepoint/route.ts:78-81 | the reports listed are exactly the catalogue reports whose lower-cased name or type contains the lower-cased query, unchanged and in catalogue order |
| SharePoint.EmptyQueryListsAll | app/api/sharepoint/route.ts:7 | the empty query lists the whole catalogue |
| SharePoint.DocumentsRequest | app/api/sharepoint/route.ts:7-54 | `type=documents` answers with the filtered document catalogue; without a query it answers with all five documents |
| SharePoint.ReportsRequest | app/api/sharepoint/route.ts:57-83 | `type=reports` answers with the filtered report catalogue; without a query it answers with all three reports |
| SharePoint.LegalFirstAndLast | app/api/sharepoint/route.ts:15-49 | doc1 and doc5 match "legal" |
| SharePoint.LegalNotDoc2 | app/api/sharepoint/route.ts:22-28 | doc2 does not match "legal" |
| SharePoint.LegalNotDoc3 | app/api/sharepoint/route.ts:29-35 | doc3 does not match "legal" |
| SharePoint.LegalNotDoc4 | app/api/sharepoint/route.ts:36-42 | doc4 does not match "legal" |
| SharePoint.LegalDocuments | app/api/sharepoint/route.ts:12-54 | `type=documents&query=legal` answers with exactly doc1 and doc5, in that order |

## Left out

- `nanoid` randomness: `FreshId` picks a deterministic id that no session in the current list has. A deleted id may therefore be issued again, which random ids make only unlikely.
- `createdAt` and `new Date()`: sessions carry no timestamp.
- Message contents are a role and a text. The chat hook's other message fields are not modelled.
- The chat hook's request to `/api/chat`, the streamed reply and `isLoading` are not modelled. `HandleSubmit` appends the user message. `ReceiveMessages` stands for any later change of the buffer by the hook. A reply that arrives after the user switched sessions is concurrency, and it is not modelled.
- React's scheduling is reduced to one rule: each handler's state updates are applied in order. Then, when the buffer or the active id changed, the save effect runs. The startup effect runs in the constructor. Under `Valid()` it changes nothing after any other operation, as its third postcondition states.
- The scroll effect, the input field, the sidebar toggle and all rendering are UI only.
- ChatInterface.Find: the contract does not say that the session found is the first one with the id. Ids are distinct under the invariant, and `FindUnique` pins the result.
- Strings.Lower: `toLowerCase` is modelled on ASCII letters only. Unicode case mappings are not modelled.
- ChatInterface.DeriveTitle: `slice` and `length` count UTF-16 code units in JavaScript. The model counts Dafny characters. The two agree for text without surrogate pairs.
- The route's simulated one-second delay, URL parsing and JSON encoding are left out. The two query parameters are `Option<string>` arguments, and the response is a datatype with its status. The lists are answered with status 200.
- `server.js` (Microsoft Graph over the network), `app/api/chat/route.ts` (the language-model call), `components/chat-message.tsx` and `components/quick-replies.tsx` are not part of this model.
