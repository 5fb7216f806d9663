# Session, upload and chat state of a document-question client

This project models, in Dafny, the state logic of a small browser client that sits
in front of a document-ingestion and question-answering backend. Three pieces of
sequential state are modelled:

- **Login service** (`LoginService`): the fixed-pair credential check
  `authenticate`, and the session kept in `localStorage` under the keys
  `"authenticated"` and `"username"`. The store is a class `LocalStorage`
  over a `map<string, string>` with `SetItem`/`RemoveItem`. `Login` and `Logout`
  update it in place, and the pure functions `LoggedIn` and `LoggedOut` specify them.
  `IsAuthenticated` reads a snapshot of the store.
- **Upload screen** (`UploadScreen`): the class `Screen` with the state fields `files`,
  `loading` and `uploadResults`.
  - The picker and drop handlers keep only the `application/pdf` files of a batch
    and append them to the selection (`AddPdfs`). A batch with no PDF raises the
    "Invalid files" dialog and leaves the selection alone.
  - `HandleUpload` walks the selection in order with the source's `for` loop and
    builds one result per file. Each backend call's outcome is an input.
  - It then replaces `uploadResults`, clears `loading` and raises either "Upload
    Complete" or the list of failures.
- **Chat screen** (`ChatAssistant`): the class `Chat` with `inputValue`, `messages`
  and `isLoading`. The `await` inside `sendMessage` splits it into two atomic steps.
  `Submit` is the part before the await and `Resolve` is the part after it.
  `SendMessage` is the two run back to back.

Two helper modules model the JavaScript built-ins the screens rely on:
`JsArrays.Filter` models `Array.prototype.filter` and `JsStrings.Trim` models
`String.prototype.trim`, with ECMAScript's set of whitespace and line-terminator
characters. `Wrappers.Option` stands for `null`/`undefined`.

The upload screen accepts PDF only, has no maximum file count and filters a mixed
batch instead of rejecting it. It keeps no upload history and no progress map, and
it does not clear the selection after an upload.

## Model

| member | source | states |
|---|---|---|
| `LoginService.Authenticate` | src/services/LoginService.jsx:3-8 | the check succeeds exactly when both username and password are "wemanity" |
| `LoginService.AuthenticateAcceptsOnePair` | src/services/LoginService.jsx:3-8 | exactly one credential pair is accepted |
| `LoginService.GetItem` | src/services/LoginService.jsx:11 | reading a key gives its value when present and nothing (`null`) when absent |
| `LoginService.IsAuthenticated` | src/services/LoginService.jsx:10-12 | signed in exactly when "authenticated" is present and holds the string "true"; absent or any other value means signed out |
| `LoginService.LocalStorage.SetItem` | src/services/LoginService.jsx:15-16 | binds one key and leaves the rest of the store as it was |
| `LoginService.LocalStorage.RemoveItem` | src/services/LoginService.jsx:20-21 | drops one key, missing or not, and leaves the rest as it was |
| `LoginService.LoggedIn` | src/services/LoginService.jsx:14-17 | after login the store is signed in and "username" holds the given name; no other key changes |
| `LoginService.LoggedOut` | src/services/LoginService.jsx:19-22 | after logout both session keys are absent, so the store is signed out; no other key changes |
| `LoginService.Login` | src/services/LoginService.jsx:14-17 | the in-place store becomes `LoggedIn` of its old contents and is signed in |
| `LoginService.Logout` | src/services/LoginService.jsx:19-22 | the in-place store becomes `LoggedOut` of its old contents and is signed out |
| `LoginService.LoginIgnoresCredentials` | src/services/LoginService.jsx:14-17 | login opens a session even for a username that no password authenticates |
| `LoginService.LoginIdempotent` | src/services/LoginService.jsx:14-17 | logging in twice equals logging in once; a second login only replaces the username |
| `LoginService.LogoutIdempotent` | src/services/LoginService.jsx:19-22 | logging out twice equals logging out once |
| `LoginService.LoginLogoutRoundTrip` | src/services/LoginService.jsx:14-22 | login then logout leaves the store as a plain logout would |
| `JsArrays.Filter` | src/screens/UploadScreen.jsx:13 | the kept elements all satisfy the predicate and come from the input; every satisfying element is kept; empty exactly when none satisfies; unchanged when all satisfy |
| `JsArrays.FilterAppend` | src/screens/UploadScreen.jsx:25 | filtering distributes over concatenation, so kept elements keep their relative order |
| `UploadScreen.PdfsOf` | src/screens/UploadScreen.jsx:13 | exactly the batch's `application/pdf` files are kept; empty exactly when the batch has no PDF |
| `UploadScreen.AddPdfs` | src/screens/UploadScreen.jsx:12-19 | no PDF in the batch leaves the selection unchanged with an error; otherwise the new selection is the old one, untouched, followed by exactly the batch's PDFs in batch order |
| `UploadScreen.AddPdfsTwice` | src/screens/UploadScreen.jsx:16-17 | two accepted batches in a row append the same files, in the same order, as one batch holding both |
| `UploadScreen.AddPdfsAllPdf` | src/screens/UploadScreen.jsx:13-17 | a batch of PDFs only is appended whole and in order |
| `UploadScreen.Screen.constructor` | src/screens/UploadScreen.jsx:8-10 | the screen starts with an empty selection, not loading and no results, so only PDFs are selected |
| `UploadScreen.Screen.HandleFileChange` | src/screens/UploadScreen.jsx:12-19 | the selection becomes what `AddPdfs` gives, or stays and "Invalid files" is raised; it still holds only PDFs; loading and results are untouched |
| `UploadScreen.Screen.HandleDrop` | src/screens/UploadScreen.jsx:21-31 | exactly the picker's filter-and-append behaviour, keeping the selection PDF-only |
| `UploadScreen.ErrorMessage` | src/screens/UploadScreen.jsx:49 | the backend detail if non-empty, else the error message if non-empty, else "Unknown error"; never empty |
| `UploadScreen.ResultFor` | src/screens/UploadScreen.jsx:38-55 | a file's entry carries its name and is a success (with chunks and validation) exactly when its call succeeded, else an error with the fallback message |
| `UploadScreen.ResultsFor` | src/screens/UploadScreen.jsx:35-56 | one entry per selected file, in selection order, names matching, status matching that file's outcome |
| `UploadScreen.ResultsForAppend` | src/screens/UploadScreen.jsx:37-56 | uploading a selection in two parts yields the concatenated results, so each entry depends only on its own file and outcome |
| `UploadScreen.FailedFiles` | src/screens/UploadScreen.jsx:61 | the failure list holds the error entries only, all of them; empty exactly when every entry succeeded |
| `UploadScreen.FailedFilesOfResults` | src/screens/UploadScreen.jsx:37-64 | no failure exactly when every call succeeded; each failure names a selected file whose call threw, with its fallback message |
| `UploadScreen.CompletionAlert` | src/screens/UploadScreen.jsx:61-73 | "Upload Complete" exactly when every entry succeeded, otherwise "Upload Failed" with the non-empty list of failures |
| `UploadScreen.Screen.HandleUpload` | src/screens/UploadScreen.jsx:33-74 | `uploadResults` is replaced by the in-order results, `loading` ends false, the selection is kept (still PDF-only), and the closing dialog matches the failures |
| `JsStrings.TrimStart` | src/screens/ChatAssistant.jsx:15 | the result is a suffix of the input, only whitespace was dropped, and it does not start with whitespace |
| `JsStrings.TrimEnd` | src/screens/ChatAssistant.jsx:15 | the result is a prefix of the input, only whitespace was dropped, and it does not end with whitespace |
| `JsStrings.Trim` | src/screens/ChatAssistant.jsx:15 | the trimmed input is empty exactly when every character is whitespace; otherwise it neither starts nor ends with whitespace |
| `ChatAssistant.BotReply` | src/screens/ChatAssistant.jsx:23-26 | the bot entry holds the answer on success and "❌ Error retrieving answer." on failure |
| `ChatAssistant.Exchange` | src/screens/ChatAssistant.jsx:17-26 | a completed send adds exactly two entries: the question as typed, then one bot entry |
| `ChatAssistant.Conversation` | src/screens/ChatAssistant.jsx:14-30 | repeated uninterrupted sends skip blank inputs and otherwise add a question and a reply, so user entries sit exactly at even positions and the transcript has even length |
| `ChatAssistant.ConversationAlternates` | src/screens/ChatAssistant.jsx:14-30 | when no input is blank, the transcript has twice as many entries as sends and holds each question, as typed, followed by its own reply |
| `ChatAssistant.Converse` | src/screens/ChatAssistant.jsx:12-30 | typing then sending each input on a fresh screen yields exactly `Conversation` of those inputs, with loading cleared |
| `ChatAssistant.Chat.constructor` | src/screens/ChatAssistant.jsx:7-10 | the screen starts with an empty input, an empty transcript and not loading |
| `ChatAssistant.Chat.HandleChange` | src/screens/ChatAssistant.jsx:12 | typing sets the input and touches nothing else |
| `ChatAssistant.Chat.Submit` | src/screens/ChatAssistant.jsx:15-20 | blank input changes nothing and sends nothing; otherwise the untrimmed input is appended as a user entry and sent, the input is cleared and loading is set |
| `ChatAssistant.Chat.Resolve` | src/screens/ChatAssistant.jsx:22-29 | one bot entry is appended to the current transcript and loading is cleared |
| `ChatAssistant.Chat.SendMessage` | src/screens/ChatAssistant.jsx:14-30 | blank input changes nothing; otherwise the transcript gains question then reply, the input is empty and loading is false; the old transcript is always a prefix |

## Left out

- Network calls (`uploadFileToQdrant`, `queryDocuments`, the repository-ingestion client) are not modelled. Their results are inputs: one `Outcome` per selected file, and an `Option<string>` reply per question.
- `UploadScreen.Screen.HandleUpload` requires one outcome per selected file. It models each `await` as an atomic step with a given result and does not model time between calls.
- Interleavings across `await`s are only partly covered. `Submit` and `Resolve` can be called in any order, which models the transcript effects of a second send typed during a pending one (the send button is disabled then, but the Enter key is not). `SendMessage` states only the uninterrupted case.
- React's batching of `setState` calls is not modelled; each state update takes effect immediately.
- Rendering, the SweetAlert/toast dialogs' presentation, `preventDefault`/`stopPropagation` on drop, the scroll-into-view effect, the header's DOM class toggle, routing, the sidebar, the protected route and the login page are not modelled. The login page and the protected route are one-line branches on `Authenticate` and `IsAuthenticated`.
- File handles are reduced to name and MIME type; size and content play no part in the screen's logic.
- `res.chunks`, `res.validation` and `res.answer` are taken as present; an `undefined` field in a backend response is not modelled.
- The repository-ingestion screen, the upload history, progress percentages and file-count limits are not part of this model, because the code has none of them.
