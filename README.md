# myinboxreport: the Gmail sync engine, modelled in Dafny

myinboxreport is a browser application that reads a user's Gmail and stores the messages in a
local IndexedDB database (Dexie) for analysis. This project models the core of that engine:

- **Auth** (`GmailAuth`, auth.dfy): the Google Identity Services implicit-grant token life
  cycle. It covers the in-memory token and its expiry, the copy in sessionStorage, sign-in and
  sign-out, and validity with a one-minute buffer.
- **Client** (`Client`, client.dfy): the REST client for the Gmail API.
  - `gmailFetch` retries throttled calls with exponential backoff and maps errors.
  - `listMessages`, `getMessage`, `listHistory` and `batchGetMessages` build on it;
    `batchGetMessages` fetches in chunks of ten and drops failures.
- **Parser** (`Parser`, parser.dfy): turns a raw Gmail message into the stored record.
  - Headers are looked up regardless of case.
  - Message bodies are found by a depth-first search of the MIME tree.
  - base64url text is decoded as UTF-8, falling back to Latin-1 and then to `""`.
  - Address lists are parsed.
- **Sync** (`Sync`, sync.dfy): the browser's own sync.
  - The initial sync, the incremental sync (through the history API) and loading older
    30-day windows.
  - The sync state persisted in localStorage, and the `emails` table written in batches of 20.
- **DbOperations** (`DbOperations`, dboperations.dfy): the database helpers over the
  `syncMetadata`, `emails` and `transactions` tables.
  - The merging upsert `saveSyncMetadata` and the status, history-id and counter updates built
    on it.
  - The batched e-mail upsert, and the transaction queries the sync and dashboard use.
- **FetchEmails** (`FetchEmails`, fetchemails.dfy): the server-side `GmailSyncService`.
  - A full sync: list ids, fetch them in batches, record a completed sync.
  - A partial sync: history since the stored marker, skipping stored mail, falling back to a
    full sync on 404.
  - The choice between the two in `syncEmails`.

Supporting modules:

- `Email` and `Db` hold the records.
- `Tables` models Dexie's `bulkPut` as a sequence of map updates.
- `Text` models the string built-ins:
  - `trim`, `toLowerCase` and `split`;
  - `String(n)` and `Number(s)` on integers;
  - `padStart(2, "0")`.
- `Base64` models `atob`, and `Utf8` models the strict UTF-8 decoding behind
  `decodeURIComponent`.
- `Dates` is the Gregorian calendar behind `formatGmailDate` and `setMonth`.
- `Wrappers` holds `Option` and `Result`.

Remote services are oracles, passed in as values:

- In `Client` and `Sync`, each request has a sequence of responses; attempt `k` gets the
  `k`-th one.
- In `FetchEmails`, a `GmailApi` value holds:
  - the `messages.list` pages and the `history.list` pages;
  - the outcome of `messages.get` for each id;
  - the outcome of `getProfile`.
- The clock is explicit: instants `now` in milliseconds and local day numbers `today`.

Each operation that changes state is a method on a class with the source's fields:

- `GoogleAuth` holds the auth module's variables.
- `EmailTable` and `SyncStorage` are what `Sync` writes.
- `EmailsTable`, `TransactionsTable` and `MetadataTable` are the Dexie tables.
- `GmailSyncService` is the server-side service.

Each such method is proved equal to a function on values, for example `FullSync`,
`PartialSync`, `AfterCallback` or `MessageListing`. The properties are then proved about those
functions.

## Model

| member | source | states |
|---|---|---|
| GmailAuth.GetAccessToken | lib/gmail/auth.ts:149-162 | a token is returned exactly when one is held, it is non-empty and `now` is more than 60 s before its expiry; it is the held token |
| GmailAuth.IsTokenValid | lib/gmail/auth.ts:160-162 | `isTokenValid()`: a non-empty token is held and `now` is more than 60 s before its expiry; `GetAccessToken`, `PersistedValidity` and the sign-in lemmas are stated through it |
| GmailAuth.Persisted | lib/gmail/auth.ts:39-46 | memory always holds the new token and expiry; usable storage holds both under their keys, the expiry as its decimal text; a throwing storage is left exactly as it was; the token client, pending handlers and GIS flag are kept |
| GmailAuth.Cleared | lib/gmail/auth.ts:48-55 | the token becomes null and its expiry 0, so no instant finds it valid; usable storage loses both keys and keeps every other item; a throwing storage is left exactly as it was; the token client, pending handlers and GIS flag are kept |
| GmailAuth.Restored | lib/gmail/auth.ts:57-72 | restoring keeps the token client, the pending handlers, the GIS flag and whether storage is usable; which token it leaves is stated by `RestoreOutcomes` |
| GmailAuth.Adopted | lib/gmail/auth.ts:61-68 | a stored token whose parsed expiry is more than a minute away is adopted with that expiry, storage untouched; otherwise no token is valid at any instant; the client and handlers are kept |
| GmailAuth.AfterInit | lib/gmail/auth.ts:80-117 | initialisation fails exactly when the client id is missing or empty, or when the GIS script is not yet loaded and fails to load; a failure changes nothing; on success the script is loaded and the token client exists, and nothing else changes |
| GmailAuth.AfterCallback | lib/gmail/auth.ts:102-115 | both handlers are cleared. An error response keeps the token and storage and rejects with `error_description ?? error`. A success persists the token with expiry `now + expires_in·1000` exactly as `persistToken` does, memory and usable storage, and resolves with the response. Nothing else changes: the token client, the GIS flag and whether storage is usable are kept. |
| GmailAuth.AfterSignIn | lib/gmail/auth.ts:122-132 | without a token client the sign-in rejects with the "not initialized" message and changes nothing; otherwise its handlers become the pending ones |
| GmailAuth.AfterSignOut | lib/gmail/auth.ts:137-144 | with a non-empty token and no GIS script loaded, `revoke` throws and the state is unchanged; otherwise no access token is returned afterwards at any instant, and a revoke is issued exactly when the old token was non-empty, for that token |
| GmailAuth.PersistedValidity | lib/gmail/auth.ts:39-46 | a persisted token is valid iff it is non-empty and `now` is earlier than a minute before its expiry |
| GmailAuth.RestoreOutcomes | lib/gmail/auth.ts:57-72 | with both keys stored non-empty in usable storage: an expiry that parses to a number more than a minute after `now` is adopted with its token and the storage kept, and any other expiry (including text `Number` cannot read) clears the token from memory and storage; without such a pair nothing changes |
| GmailAuth.RestoreNeedsBothValues | lib/gmail/auth.ts:59-60 | if either stored value is missing or empty, restoring changes nothing |
| GmailAuth.PersistThenReload | lib/gmail/auth.ts:39-75 | a token persisted to working storage comes back on a module reload while it is valid, and is removed from storage once it is not |
| GmailAuth.SignInThenGranted | lib/gmail/auth.ts:102-132 | sign-in then a successful callback resolves that sign-in with the response; the new token is valid exactly until a minute before `now + expires_in·1000` |
| GmailAuth.SignInThenDenied | lib/gmail/auth.ts:104-108 | sign-in then an error callback rejects with the error text, and token validity is what it was before |
| GmailAuth.SignOutBeforeInitKeepsSession | lib/gmail/auth.ts:57-75 | a session restored at load survives a sign-out before `initGoogleAuth()`: the revoke throws and the token is still returned, with storage untouched |
| GmailAuth.SignOutAfterInitClears | lib/gmail/auth.ts:80-144 | after a successful `initGoogleAuth()` a sign-out never throws and leaves no access token |
| GmailAuth.GoogleAuth.constructor | lib/gmail/auth.ts:30-37 | the variables start empty and `restoreToken()` runs at load, so the state is `Loaded` of the storage |
| GmailAuth.GoogleAuth.PersistToken | lib/gmail/auth.ts:39-46 | the new state is `Persisted` of the old |
| GmailAuth.GoogleAuth.ClearPersistedToken | lib/gmail/auth.ts:48-55 | the new state is `Cleared` of the old |
| GmailAuth.GoogleAuth.RestoreToken | lib/gmail/auth.ts:57-72 | the new state is `Restored` of the old |
| GmailAuth.GoogleAuth.AdoptToken | lib/gmail/auth.ts:61-68 | the new state is `Adopted` of the old |
| GmailAuth.GoogleAuth.InitGoogleAuth | lib/gmail/auth.ts:80-117 | new state and error as `AfterInit` |
| GmailAuth.GoogleAuth.Callback | lib/gmail/auth.ts:102-115 | new state and settlement as `AfterCallback` |
| GmailAuth.GoogleAuth.SignIn | lib/gmail/auth.ts:122-132 | new state and rejection as `AfterSignIn` |
| GmailAuth.GoogleAuth.SignOut | lib/gmail/auth.ts:137-144 | new state, revoked token and whether `revoke` threw, as `AfterSignOut` |
| Client.FetchFromShape | lib/gmail/client.ts:31-61 | `gmailFetch` makes at most `MAX_RETRIES+1` attempts and sleeps `1000·2^k` after the k-th 429. Every attempt before the last was a 429. The last settles the call: OK returns the data, 401 throws `AuthExpired`, any other status throws `GmailApiError(status)`, and a 429 throws only once the retries are used up. |
| Client.BackoffDoubles | lib/gmail/client.ts:49-52 | the first wait is 1000 ms and each later one doubles the one before |
| Client.GmailFetch | lib/gmail/client.ts:31-61 | the retry loop's result, sleeps and attempt count are those of `FetchFrom` on the responses |
| Client.TwoThrottlesThenOk | lib/gmail/client.ts:49-53 | two 429s then an OK: sleeps of 1000 and 2000 ms, three attempts, the third response's data |
| Client.ThrottledOut | lib/gmail/client.ts:49-56 | four 429s throw `GmailApiError(429)` after sleeps of 1000, 2000 and 4000 ms |
| Client.PageTokenParam | lib/gmail/client.ts:91 | reading `pageToken` back from the parameters gives the token exactly when it is a non-empty string, and `pageToken` is the only name set |
| Client.ListMessagesRequest | lib/gmail/client.ts:81-94 | the path is `/messages`; a `pageToken` parameter is present iff a non-empty token is given |
| Client.ListMessagesRequestParams | lib/gmail/client.ts:87-91 | the request's `q`, `maxResults` and `pageToken` parameters read back as the query, the decimal page size and the non-empty page token |
| Client.MessagePageOf | lib/gmail/client.ts:96-99 | an absent `messages` list becomes `[]`; the page token is kept |
| Client.ListMessages | lib/gmail/client.ts:81-100 | the request is `ListMessagesRequest`, and the page is the fetch outcome mapped through `MessagePageOf` |
| Client.GetMessageRequestIdentifies | lib/gmail/client.ts:110-111 | two `getMessage` requests are equal iff they are for the same id and format, and `format` reads back as the format's name |
| Client.GetMessage | lib/gmail/client.ts:105-113 | the result is the fetch outcome of that request |
| Client.ChunkArray | lib/gmail/client.ts:195-201 | the chunks concatenate back to the input; each is non-empty and at most `size` long; all but the last have exactly `size` elements |
| Client.ChunksOf | lib/gmail/client.ts:195-201 | the reference chunking the loop is proved equal to; `ChunksOfShape` and `ChunkCount` state its shape and count |
| Client.ChunksOfShape | lib/gmail/client.ts:195-201 | the reference chunking has the same shape, so the loop and the function agree |
| Client.ChunkCount | lib/gmail/client.ts:195-201 | no chunks for `[]`; otherwise `(chunks-1)·size < n <= chunks·size`, i.e. `ceil(n/size)` chunks |
| Client.FailureRemovesOnlyItself | lib/gmail/client.ts:130-137 | a failed fetch removes exactly its own message from the result, and the rest keep their order |
| Client.SuccessesOfAllOk | lib/gmail/client.ts:128-138 | when every fetch succeeds, every message is in the result, in request order |
| Client.SuccessesAreOutcomes | lib/gmail/client.ts:128-138 | each returned message is the successful outcome of a requested id |
| Client.OutcomeIsResponse | lib/gmail/client.ts:105-113 | a successful `getMessage` returns one of the server's responses for that id |
| Client.FetchedAreAsked | lib/gmail/client.ts:119-141 | from a server that answers with the requested message, every fetched message has a requested id |
| Client.FetchChunk | lib/gmail/client.ts:128-137 | one chunk yields the successes among its outcomes, with requests for its ids in order |
| Client.FetchNextChunk | lib/gmail/client.ts:126-138 | one round of the chunk loop extends the results and requests by the next chunk's |
| Client.BatchGetMessages | lib/gmail/client.ts:119-141 | all messages successfully fetched, in id order, with one request per id in order |
| Client.AddedIdsMembers | lib/gmail/client.ts:177-182 | an id is collected iff some history record lists it among its `messagesAdded` |
| Client.AddedIdsAppend | lib/gmail/client.ts:177-182 | collecting over two record lists is collecting over each in turn |
| Client.AddedIdsOfNothingAdded | lib/gmail/client.ts:177-182 | records without added messages give no ids |
| Client.ListHistoryRequest | lib/gmail/client.ts:162-175 | the path is `/history`; it carries `startHistoryId`, and `pageToken` iff a non-empty token is given |
| Client.ListHistoryRequestParams | lib/gmail/client.ts:167-172 | the request's `startHistoryId`, `historyTypes` and `pageToken` parameters read back as the marker, `messageAdded` and the non-empty page token |
| Client.CollectAddedIds | lib/gmail/client.ts:177-182 | the loop collects exactly `AddedIds` of the history records |
| Client.ListHistory | lib/gmail/client.ts:162-189 | the request is `ListHistoryRequest`; the page is the fetch outcome with the added ids collected and the token kept |
| Parser.ExtractHeader | lib/gmail/parser.ts:28-34 | `None` iff no header name equals the wanted one up to case; otherwise the value of the first that does |
| Parser.ExtractBody | lib/gmail/parser.ts:40-55 | `extractBody` over the MIME tree; `ExtractBodyIsFirstCandidate` proves it is the first non-empty candidate in pre-order, and `MixedAlternativeExample` works a nested message through |
| Parser.DecodeBase64Url | lib/gmail/parser.ts:61-80 | the URL-safe alphabet mapped to the standard one, `atob`, then UTF-8 with the Latin-1 and `""` fallbacks; its three outcomes are the `DecodeBase64Url…` lemmas |
| Parser.DecodeBase64UrlOfUtf8 | lib/gmail/parser.ts:61-71 | the base64url encoding (padded or not) of the UTF-8 bytes of any string decodes back to that string |
| Parser.DecodeBase64UrlNotUtf8 | lib/gmail/parser.ts:72-76 | valid base64 whose bytes are not UTF-8 decodes to those bytes read as Latin-1 |
| Parser.DecodeBase64UrlInvalid | lib/gmail/parser.ts:77-79 | text that `atob` rejects decodes to `""` |
| Parser.FirstNonEmpty | lib/gmail/parser.ts:47-52 | the result is `""` iff every candidate is; otherwise it is one of the candidates |
| Parser.FirstNonEmptyAppend | lib/gmail/parser.ts:47-52 | searching two candidate lists is searching the first, then the second if the first gives nothing |
| Parser.ExtractBodyIsFirstCandidate | lib/gmail/parser.ts:40-55 | `extractBody` is the first non-empty of the pre-order candidates: the node's own decoded data if its type matches, then each child's |
| Parser.PartsFirstCandidate | lib/gmail/parser.ts:47-52 | the same over a node's children |
| Parser.MixedAlternativeExample | lib/gmail/parser.ts:40-55 | in multipart/mixed → multipart/alternative → [text/plain, text/html], `text/plain` finds the plain part's text and `text/html` the html part's |
| Parser.TrimAll | lib/gmail/parser.ts:87 | each entry is the part at the same position with surrounding whitespace removed, so no entry has whitespace at either end |
| Parser.TrimAllAppend | lib/gmail/parser.ts:87 | trimming the pieces of a concatenation trims each list in turn |
| Parser.TrimAllIdempotent | lib/gmail/parser.ts:87 | trimming the pieces twice is trimming them once |
| Parser.NonEmpty | lib/gmail/parser.ts:87 | `filter(Boolean)`: every entry is a non-empty part of the input, every non-empty part is kept, never longer than the input |
| Parser.NonEmptyCounts | lib/gmail/parser.ts:87 | every non-empty part occurs in the result exactly as often as in the input, and no empty string is kept |
| Parser.NonEmptyAppend | lib/gmail/parser.ts:87 | filtering a concatenation is filtering each part, in that order, so the kept parts keep their relative order |
| Parser.NonEmptyOfOne | lib/gmail/parser.ts:87 | a single part is kept iff it is non-empty |
| Parser.ParseAddressList | lib/gmail/parser.ts:85-88 | blank input gives `[]`; every entry is non-empty, trimmed and comma-free |
| Parser.ParseAddressListShortcut | lib/gmail/parser.ts:86 | the blank-input shortcut agrees with the general split/trim/filter path |
| Parser.ParseAddressListOfJoin | lib/gmail/parser.ts:85-88 | non-empty, trimmed, comma-free addresses joined with commas parse back exactly |
| Parser.ParseGmailMessage | lib/gmail/parser.ts:6-23 | ids, history id and snippet are copied; the record is unparsed with no category. `from` is the first From header ignoring case, else `""`; `subject` the Subject header, else `(no subject)`; `to` the address list of the To header, else `[]`, every entry an address; the two bodies are `ExtractBody` for text/plain and text/html; labels are `labelIds`, else `[]` |
| Parser.ParseGmailMessageDate | lib/gmail/parser.ts:16 | a decimal `internalDate` within the `Date` range becomes that instant |
| Base64.UrlToStdOfEncodeUrl | lib/gmail/parser.ts:63 | replacing `-` by `+` and `_` by `/` turns the url-safe alphabet into the standard one |
| Base64.EncodeStd | lib/gmail/parser.ts:63-67 | the standard base64 encoding, padded or not: the reference that `atob` and the URL-safe mapping are proved to invert |
| Base64.ForgivingDecode | lib/gmail/parser.ts:67 | `atob`: whitespace and padding are dropped, and text of length 1 mod 4 or with a character outside the alphabet is rejected; `ForgivingDecodeOfEncodeStd` and `ForgivingDecodeRejects` are its properties |
| Base64.ForgivingDecodeOfEncodeStd | lib/gmail/parser.ts:66-67 | `atob` decodes a standard base64 encoding, padded or not, back to its bytes |
| Base64.ForgivingDecodeRejects | lib/gmail/parser.ts:72-79 | `atob` rejects text with a character outside the alphabet |
| Utf8.DecodeEncode | lib/gmail/parser.ts:66-71 | strict UTF-8 decoding inverts encoding |
| Utf8.EncodeDecode | lib/gmail/parser.ts:66-71 | bytes that decode strictly are the encoding of what they decode to |
| Utf8.Decode | lib/gmail/parser.ts:66-71 | strict UTF-8 decoding, failing on any malformed sequence; `DecodeEncode` and `EncodeDecode` prove it inverse to encoding |
| Text.Trim | lib/gmail/parser.ts:86-87 | `trim()`: no whitespace at either end, empty iff the text is all whitespace, never longer |
| Text.TrimPadded | lib/gmail/parser.ts:87 | `trim()` removes exactly the surrounding whitespace of a trimmed, non-empty text |
| Text.Split | lib/gmail/parser.ts:87 | `split(',')`: at least one piece, and no piece holds the separator |
| Text.JoinSplit | lib/gmail/parser.ts:87 | joining the pieces with the separator gives the text back |
| Text.SplitJoin | lib/gmail/parser.ts:87 | splitting a join of separator-free pieces gives the pieces back |
| Text.IntToString | lib/gmail/auth.ts:44 | `String(n)` on an integer; `StringToNumberOfIntToString` and `IntToStringIsTrimmed` are its properties |
| Text.StringToNumber | lib/gmail/auth.ts:62 | `Number(s)` on integer text: only non-blank text can fail, and `StringToNumberOfBlank` proves that blank text is 0 |
| Text.StringToNumberOfIntToString | lib/gmail/auth.ts:44-62 | `Number(String(n))` is `n`, so an expiry written to storage reads back |
| Dates.CivilFromDayNumber | lib/gmail/sync.ts:29-41 | converting a valid calendar date to its day number and back gives the date |
| Dates.FormatCivilShape | lib/gmail/sync.ts:36-41 | `YYYY/MM/DD`: the year's numeral, then month and day in two digits each, split by `/` |
| Dates.FormatGmailDate | lib/gmail/sync.ts:36-41 | `formatGmailDate` on a local day number; its shape is `FormatCivilShape` and it is injective by `FormatGmailDateInjective` |
| Dates.FormatGmailDateInjective | lib/gmail/sync.ts:36-41 | different days give different query dates |
| Tables.PutAllLookup | lib/gmail/sync.ts:72 | after `bulkPut` a key is present iff it was present before or a written record has it; it holds the last such record, otherwise its old value |
| Tables.PutAllAppend | lib/gmail/sync.ts:64-73 | writing two batches in turn is writing their concatenation |
| Tables.PutAllKeyedBy | lib/db-operations.ts:346 | `bulkPut` keeps every record under its own key |
| Sync.LoadSyncState | lib/gmail/sync.ts:103-109 | a stored state is returned as stored; a missing or unreadable one gives the default, with total 0 |
| Sync.HasSyncedBefore | lib/gmail/sync.ts:255-258 | true iff a state is stored and it has a non-empty `latestHistoryId` |
| Sync.FilterNewIds | lib/gmail/sync.ts:46-50 | each result id is one of the ids and not stored; each id is stored or in the result |
| Sync.FilterNewIdsAppend | lib/gmail/sync.ts:46-50 | filtering a concatenation is filtering each part |
| Sync.FilterNewIdsOfNew | lib/gmail/sync.ts:46-50 | ids none of which is stored pass unchanged |
| Sync.MessageListing | lib/gmail/sync.ts:134-139 | the message paging loop as a function of the pages: `ListMessageIds` is proved equal to it and `MessageListingRequests` states its requests |
| Sync.HistoryListing | lib/gmail/sync.ts:179-185 | the history paging loop as a function of the pages: `ListHistoryIds` is proved equal to it and `HistoryListingRequests` states its requests |
| Sync.EmailTable.BulkPut | lib/gmail/sync.ts:72 | the table becomes `PutAll` of the old one with the records |
| Sync.SyncStorage.Save | lib/gmail/sync.ts:111-113 | the slot holds the saved state |
| Sync.StoreBatch | lib/gmail/sync.ts:64-76 | one batch: the table gains its fetched and parsed messages; the count is their number |
| Sync.FetchAndStore | lib/gmail/sync.ts:56-78 | the table is the old one with every fetched and parsed message put, in order. The count returned is the number fetched. The progress events are a fetching and a storing event per batch of 20. |
| Sync.BatchStep | lib/gmail/sync.ts:64-76 | writing the batches in turn equals writing all fetched messages at once |
| Sync.MessageListingRequests | lib/gmail/sync.ts:134-139 | the first request carries the start token; every request carries the query; ids found so far are a prefix of the result |
| Sync.ListMessageIds | lib/gmail/sync.ts:134-139 | the paging loop returns `MessageListing` of the pages, with its requests |
| Sync.HistoryListingRequests | lib/gmail/sync.ts:179-185 | every history request carries the stored `startHistoryId` |
| Sync.ListHistoryIds | lib/gmail/sync.ts:179-185 | the history loop returns `HistoryListing` of the pages, with its requests |
| Sync.Dedupe | lib/gmail/sync.ts:188-189 | no id appears twice, and the result holds exactly the ids of the input |
| Sync.DedupeKeepsFirstOrder | lib/gmail/sync.ts:188-189 | `[...new Set]` order: of two result ids, the earlier is the one that first occurs earlier in the input |
| Sync.DedupeOfDistinct | lib/gmail/sync.ts:188-189 | an already distinct list is unchanged |
| Sync.FetchLatestHistoryId | lib/gmail/sync.ts:83-88 | one listing request for a single message, then a minimal `getMessage` of that message if there is one; the result is its history id |
| Sync.LatestHistoryId | lib/gmail/sync.ts:83-88 | the newest message's history id, none for an empty mailbox, or the listing's or fetch's error; `FetchLatestHistoryId` is proved equal to it |
| Sync.AfterInitial | lib/gmail/sync.ts:150-156 | the saved state: the new history id, the 30-day window's start as oldest date, the stored count added, now |
| Sync.InitialSync | lib/gmail/sync.ts:123-157 | `InitialSyncOutcome`: a failed listing throws and changes nothing. Otherwise mail is stored as `FetchAndStore` with its progress events; a failed history-id call then throws and keeps the state, else the state is saved as `AfterInitial`. |
| Sync.AfterIncremental | lib/gmail/sync.ts:191-208 | the saved state: the new history id and time; the total grows by the number stored |
| Sync.IncrementalSync | lib/gmail/sync.ts:163-209 | without a marker it is the initial sync, with the same rows, slot, error and progress (`InitialSyncOutcome`). Otherwise the history pages' added ids are deduplicated and filtered. With none new only the marker and time are saved; else they are stored and the total grows. |
| Sync.OlderWindow | lib/gmail/sync.ts:220-228 | the window ends at the oldest fetched day (default 30 days ago) and starts 30 days before that |
| Sync.AfterOlder | lib/gmail/sync.ts:244-249 | the saved state moves the oldest date to the window's start and keeps the history id |
| Sync.LoadOlderEmails | lib/gmail/sync.ts:215-250 | lists the window's ids, keeps the new ones, stores them and saves `AfterOlder` |
| Sync.FetchNewKeepsStored | lib/gmail/sync.ts:46-78 | writing only new ids never replaces a stored email, and the table stays keyed by id |
| Sync.WrittenIsNew | lib/gmail/sync.ts:46-78 | every record written was not stored before |
| Sync.InitialSyncMarksSynced | lib/gmail/sync.ts:150-156 | after an initial sync that got a history id, `hasSyncedBefore()` is true |
| Sync.OlderWindowsAdjoin | lib/gmail/sync.ts:215-250 | two successive older loads fetch adjoining windows |
| DbOperations.MergeSettings | lib/db-operations.ts:412-426 | a field in the patch wins even when falsy; otherwise a truthy stored value, otherwise the default (6, 100, 1000) |
| DbOperations.MergeSyncMetadata | lib/db-operations.ts:400-429 | each field is the patch's if truthy, else the stored value, else the default. The id is `gmail_sync`; `createdAt` is kept (now if new); `updatedAt` is now. |
| DbOperations.GetSyncMetadata | lib/db-operations.ts:384-391 | a row is returned iff the table works and holds the key |
| DbOperations.SaveSyncMetadata | lib/db-operations.ts:393-436 | the row becomes the merge; a failing table throws "Failed to save sync metadata" and changes nothing |
| DbOperations.UpdateSyncStatus | lib/db-operations.ts:438-451 | saves the status and error message, or throws "Failed to update sync status" |
| DbOperations.GetLastHistoryId | lib/db-operations.ts:453-461 | a marker is returned iff the row exists with a non-empty `lastHistoryId` |
| DbOperations.UpdateLastHistoryId | lib/db-operations.ts:463-473 | saves the history id and partial-sync date, or throws "Failed to update last history ID" |
| DbOperations.IncrementTotalEmailsSynced | lib/db-operations.ts:475-489 | saves the total plus the count, or throws "Failed to increment total emails synced" |
| DbOperations.MarkFullSyncComplete | lib/db-operations.ts:491-509 | saves the full-sync date, total, history id and success status, or throws "Failed to mark full sync complete" |
| DbOperations.FullSyncZeroKeepsTotal | lib/db-operations.ts:491-509 | via `||`, a full sync that counted 0 leaves the stored total |
| DbOperations.FullSyncRecords | lib/db-operations.ts:491-509 | a full sync records the status, date and a non-empty history id |
| DbOperations.IncrementAdds | lib/db-operations.ts:475-489 | an increment adds the count to the stored total |
| DbOperations.IncrementToZeroKeeps | lib/db-operations.ts:475-489 | an increment that sums to 0 is lost to `||`, so the stored total stays |
| DbOperations.SettingsPatchWins | lib/db-operations.ts:412-426 | a settings patch sets every field it names |
| DbOperations.UpdateLastHistoryIdChangesOnly | lib/db-operations.ts:463-473 | updating the marker changes only the marker, the partial-sync date and `updatedAt` |
| DbOperations.FalsySettingReset | lib/db-operations.ts:412-426 | a stored setting of 0 is replaced by the default when the patch omits it |
| DbOperations.SavedHistoryIdReadsBack | lib/db-operations.ts:453-473 | a saved non-empty history id is what `getLastHistoryId` reads back |
| DbOperations.SaveEmailsBatch | lib/db-operations.ts:341-351 | an empty batch changes nothing; otherwise the table is the old one with the emails put; a failing table throws "Failed to save emails in batch" |
| DbOperations.EmailExists | lib/db-operations.ts:373-381 | true iff the table works and holds the id |
| DbOperations.SavedEmailsExist | lib/db-operations.ts:341-381 | after a batch save every email of the batch is stored, holding the last record with its id |
| DbOperations.SaveKeepsOthers | lib/db-operations.ts:341-351 | a batch save leaves every other email as it was |
| DbOperations.FindProbableDuplicateTransaction | lib/db-operations.ts:105-130 | no non-blank identifier gives `[]`; a failing table gives an error. Otherwise a transaction is in the result iff it shares a non-blank identifier. |
| DbOperations.SharesValidIdentifier | lib/db-operations.ts:109-125 | a transaction that carries a non-blank identifier that was asked for is found |
| DbOperations.ParsePaymentMethod | lib/db-operations.ts:161-166 | only the four stored spellings are methods |
| DbOperations.ParseMethodName | lib/db-operations.ts:161-166 | parsing inverts the stored spelling |
| DbOperations.GetTransactionsByPaymentMethod | lib/db-operations.ts:153-185 | succeeds iff the table works and the trimmed, lowercased name is a method. It returns exactly the transactions with that method, in table order. Otherwise it gives the source's error message. |
| DbOperations.PaymentMethodIgnoresPadding | lib/db-operations.ts:157-161 | surrounding whitespace does not change the answer |
| DbOperations.NormalizePaymentMethod | lib/db-operations.ts:161 | `trim().toLowerCase()`; `PaymentMethodIgnoresPadding` proves surrounding whitespace does not matter, and `ParseMethodName` that stored spellings come back |
| DbOperations.InsertByDate | lib/db-operations.ts:68-72 | insertion adds exactly the new transaction to the multiset, which lands at the front or behind the old head |
| DbOperations.InsertByDateOrdered | lib/db-operations.ts:68-72 | inserting into an ordered list keeps it ordered |
| DbOperations.SortLatestFirst | lib/db-operations.ts:68-72 | the result is ordered latest first and is a permutation of the input |
| DbOperations.Reverse | lib/db-operations.ts:70 | `reverse()`: the same length, entry `k` is entry `n-1-k` of the input, and so the same transactions |
| DbOperations.GetLastXTransactions | lib/db-operations.ts:60-77 | fails iff `x <= 0` or the table fails, with the source's message. Otherwise it returns `min(x, n)` transactions, latest first, a sub-multiset of the table. |
| DbOperations.TakeLatest | lib/db-operations.ts:68-72 | a prefix of a latest-first list is latest first and drawn from it |
| DbOperations.LastXAreLatest | lib/db-operations.ts:60-77 | no transaction left out of the result is later than one in it |
| DbOperations.LaterOutside | lib/db-operations.ts:60-77 | in a latest-first permutation, anything outside the first `n` is no later than any of them |
| DbOperations.GetTransactionsByDateRange | lib/db-operations.ts:222-239 | fails iff start > end or the table fails; otherwise a transaction is returned iff it is in the table and its date is in the range |
| FetchEmails.MonthsBackKeepsDay | lib/fetch-emails.ts:88-90 | `setMonth(getMonth() - months)` keeps a day of 28 or less and moves the month back exactly `months` |
| FetchEmails.MonthsBack | lib/fetch-emails.ts:88-90 | `setMonth(getMonth() - months)` on a local day, with day overflow as `Date` does; `MonthsBackKeepsDay` states it for days up to 28 |
| FetchEmails.FullSyncQuery | lib/fetch-emails.ts:92-94 | `after:` then the `YYYY/MM/DD` of that day, of the shape `FormatCivilShape` states |
| FetchEmails.ConvertGmailMessageToEmail | lib/fetch-emails.ts:383-409 | from, to and date are found by case-insensitive header lookup, `""` if absent. The received date is the header text if any, else now. The record is pending, with empty arrays and both timestamps now. |
| FetchEmails.ConvertTakesFirstFrom | lib/fetch-emails.ts:385-386 | the sender is the value of the first header named `From` in any case |
| FetchEmails.Fetched | lib/fetch-emails.ts:339-378 | never more emails than ids: a failed fetch is dropped, a successful one converted |
| FetchEmails.FetchedAppend | lib/fetch-emails.ts:345-371 | fetching in sub-batches fetches the concatenation |
| FetchEmails.FetchedAreAsked | lib/fetch-emails.ts:339-378 | from a faithful API every fetched email has a requested id |
| FetchEmails.FetchedAll | lib/fetch-emails.ts:339-378 | when every message comes back, there is one email per id |
| FetchEmails.SliceTo | lib/fetch-emails.ts:119 | `slice(0, max)`: a prefix, of length `max` clamped to the list, counting from the back when negative |
| FetchEmails.ListingIsCappedPrefix | lib/fetch-emails.ts:104-125 | a successful listing has at most `maxMessages` ids (when that is non-negative) and is a prefix of all listed ids |
| FetchEmails.ListingRequests | lib/fetch-emails.ts:104-125 | every request asks for `min(500, maxMessages)` results with the query; the first carries the starting token (none from the start) |
| FetchEmails.HistoryPagingRequests | lib/fetch-emails.ts:218-244 | every history request starts from the marker; records found so far stay in front |
| FetchEmails.Caught | lib/fetch-emails.ts:171-179 | the error is rethrown after recording status failed with the prefixed message; when that write throws, its error escapes instead; the emails are untouched |
| FetchEmails.SaveBatch | lib/fetch-emails.ts:137-156 | one batch adds exactly one error or one delay; the counts only grow; when nothing is counted the database is unchanged |
| FetchEmails.FullBatches | lib/fetch-emails.ts:133-158 | each batch adds one error or one delay; the current batch ends at the number of batches; the total and completion are untouched |
| FetchEmails.PartialBatch | lib/fetch-emails.ts:273-310 | one partial batch: the counter is its number; one error or one delay; counts only grow |
| FetchEmails.PartialBatches | lib/fetch-emails.ts:273-310 | the partial batch loop, with the same accounting as the full one |
| FetchEmails.Marker | lib/fetch-emails.ts:202-203 | a given `startHistoryId` wins; the marker is never empty |
| FetchEmails.Finish | lib/fetch-emails.ts:313-322 | the partial sync succeeds iff the profile call does; the emails and delays are untouched |
| FetchEmails.ShouldPerformFullSync | lib/fetch-emails.ts:428-459 | a partial sync is chosen iff a marker is stored, the last full sync is at most a week old and a parsed email exists; any failing read means a full sync |
| FetchEmails.HasParsedEmail | lib/fetch-emails.ts:448-452 | `getMostRecentAndOldestParsedEmail()` finds a latest email iff some stored email is parsed |
| FetchEmails.FullSync | lib/fetch-emails.ts:67-180 | `performFullSync` as a function of the database state, the API and the clock; `PerformFullSync` is proved equal to it, and `FullSyncStoresListed`, `FullSyncSetsTotal` and `FullSyncDefersNextFullSync` are proved about it |
| FetchEmails.AfterListing | lib/fetch-emails.ts:128-170 | the full sync after its listing; `AfterListingStores` and `AfterListingSetsTotal` are proved about it |
| FetchEmails.PartialSync | lib/fetch-emails.ts:186-333 | `performPartialSync` as a function, with its 404 and no-marker fallbacks; `PerformPartialSync` is proved equal to it, and `PartialSyncStoresAdded`, `PartialSyncNothingAdded` and `PartialSyncHistoryFails` are proved about it |
| FetchEmails.AfterHistory | lib/fetch-emails.ts:247-322 | the partial sync after its history listing; `AfterHistoryStoresAdded` is proved about it |
| FetchEmails.FetchedOfChunks | lib/fetch-emails.ts:133-158 | fetching the batches in turn fetches exactly the listed ids |
| FetchEmails.FullBatchesSaveFetched | lib/fetch-emails.ts:133-158 | on working tables every fetched email is saved and counted, with one delay and no error per batch |
| FetchEmails.AfterListingStores | lib/fetch-emails.ts:133-170 | on working tables a full sync ends stored, counted and complete: the emails are the old ones with the fetched put, the metadata holds success and the profile's history id |
| FetchEmails.FullSyncStoresListed | lib/fetch-emails.ts:67-170 | a whole full sync whose listing succeeds is its status write followed by `AfterListing` on the listed ids |
| FetchEmails.AfterListingSetsTotal | lib/fetch-emails.ts:161-162 | the stored total is the processed count when non-zero, else the total before |
| FetchEmails.FullSyncSetsTotal | lib/fetch-emails.ts:67-170 | over a whole full sync, the same total rule |
| FetchEmails.FullSyncDefersNextFullSync | lib/fetch-emails.ts:428-459 | after a successful full sync that read a history id, a sync within a week is partial while a parsed email is stored |
| FetchEmails.PartialBatchAllStored | lib/fetch-emails.ts:280-297 | a batch whose ids are all stored counts the whole batch and changes nothing |
| FetchEmails.FetchedHas | lib/fetch-emails.ts:339-378 | every requested id whose message comes back is among the fetched emails |
| FetchEmails.PartialBatchStores | lib/fetch-emails.ts:273-310 | stored ids stay stored; each id of the batch whose message comes back is stored |
| FetchEmails.PartialBatchesStore | lib/fetch-emails.ts:273-310 | the same over all batches |
| FetchEmails.InSomeChunk | lib/fetch-emails.ts:464-470 | every element of a list lies in one of its chunks |
| FetchEmails.AfterHistoryStoresAdded | lib/fetch-emails.ts:247-310 | on a working emails table and a faithful API, every added message from the history that comes back is stored |
| FetchEmails.PartialSyncStoresAdded | lib/fetch-emails.ts:186-333 | over a whole partial sync with a marker, the same |
| FetchEmails.PartialSyncNothingAdded | lib/fetch-emails.ts:263-270 | history with no added messages: success, marker updated, nothing fetched or waited |
| FetchEmails.PartialSyncHistoryFails | lib/fetch-emails.ts:237-243 | a 404 from the history falls back to a full sync; any other error is rethrown and recorded |
| FetchEmails.GmailSyncService.constructor | lib/fetch-emails.ts:48-62 | the service holds the given API |
| FetchEmails.GmailSyncService.FetchSubBatch | lib/fetch-emails.ts:349-371 | one sub-batch returns `Fetched` of its ids |
| FetchEmails.GmailSyncService.FetchMessagesBatch | lib/fetch-emails.ts:339-378 | the sub-batch loop returns `Fetched` of all ids |
| FetchEmails.GmailSyncService.ListAllMessageIds | lib/fetch-emails.ts:104-125 | the paging loop returns `MessageIdListing` |
| FetchEmails.GmailSyncService.ListHistoryRecords | lib/fetch-emails.ts:218-244 | the do-while loop returns `HistoryPaging` |
| FetchEmails.GmailSyncService.Catch | lib/fetch-emails.ts:171-179 | the tables become `Caught`'s, and its error is returned |
| FetchEmails.GmailSyncService.StoreBatch | lib/fetch-emails.ts:137-156 | the tables, progress and delays become `SaveBatch`'s |
| FetchEmails.GmailSyncService.RunFullBatches | lib/fetch-emails.ts:133-158 | the batch loop leaves `FullBatches`' tables, progress and delays |
| FetchEmails.GmailSyncService.NewMessageIds | lib/fetch-emails.ts:280-292 | the ids that `emailExists` does not find, in order |
| FetchEmails.GmailSyncService.RunPartialBatches | lib/fetch-emails.ts:273-310 | the batch loop leaves `PartialBatches`' tables, progress and delays |
| FetchEmails.GmailSyncService.PartialBatchStep | lib/fetch-emails.ts:276-309 | one iteration leaves `PartialBatch`'s state |
| FetchEmails.GmailSyncService.PerformFullSync | lib/fetch-emails.ts:67-180 | the tables, result, requests and delays are those of `FullSync` |
| FetchEmails.GmailSyncService.CompleteFullSync | lib/fetch-emails.ts:128-170 | the rest of a full sync leaves `AfterListing`'s state |
| FetchEmails.GmailSyncService.FallBackToFullSync | lib/fetch-emails.ts:204-207 | the delegated full sync, passed through the partial sync's `catch` (`ViaFull`) |
| FetchEmails.GmailSyncService.PerformPartialSync | lib/fetch-emails.ts:186-333 | the tables, result, requests and delays are those of `PartialSync` |
| FetchEmails.GmailSyncService.ProcessHistory | lib/fetch-emails.ts:247-322 | the rest of a partial sync leaves `AfterHistory`'s state |
| FetchEmails.GmailSyncService.FinishPartialSync | lib/fetch-emails.ts:313-322 | the end of a partial sync leaves `Finish`'s state |
| FetchEmails.SyncEmails | lib/fetch-emails.ts:492-507 | a full sync when `ShouldPerformFullSync` holds, otherwise a partial sync |

## Left out

- Network, scripts and browser globals.
  - The Gmail REST calls, the googleapis client and Google Identity Services are response
    oracles passed in as values.
  - Whether the GIS script loads is the parameter `scriptLoads` of `initGoogleAuth()`. The
    global `google` is the flag `gisLoaded`, set only by a successful `initGoogleAuth()`: no
    other code in the application loads the script. The revoke call is the returned token to
    revoke, and a call made while `google` is undefined is the returned flag that it threw.
  - `fetch` headers, the base URL and the OAuth scopes are not modelled.
- Storage and logging.
  - sessionStorage in `GmailAuth` is a value; a storage that throws is one whose `usable` is
    false. localStorage in `Sync` is a slot that a read may find unreadable; a write to it
    cannot fail (see `Sync.SyncStorage.Save` below).
  - JSON serialisation of the sync state is left out; the slot holds the value or is
    unreadable.
  - `console` logging is left out.
- Concurrency: `Promise.all` / `Promise.allSettled` in `batchGetMessages` and
  `fetchMessagesBatch` are modelled one request after another.
  - The outcomes do not depend on the order, and the result order is the request order, as
    in the source.
- Time.
  - Each operation reads one clock value `now` (ms) and, where a calendar is needed, one local
    day number `today`.
  - `sleep` and `delay` are recorded as the list of their durations.
  - `Client.FetchChunk` and `Client.BatchGetMessages` do not report the retry sleeps of each
    `getMessage`: only `gmailFetch`, `listMessages`, `getMessage` and `listHistory` return
    them.
  - Time zones and DST are left out: `setMonth`, `setDate` and `setHours(0,0,0,0)` work on
    whole local days.
  - `daysAgo(n)` is `today - n`.
  - `new Date(dateHeader)` keeps the header text: RFC 2822 date parsing is not modelled.
- Numbers and text.
  - `Number` on text is modelled on integers only (decimal digits with an optional sign).
  - `amount` is a `real`.
  - `toLowerCase` is ASCII-only.
  - Strings are sequences of Unicode scalar values (Dafny's `char`), not of UTF-16 code
    units. A character above U+FFFF is one `char` here but two code units in JavaScript, so
    `length` and `slice` positions differ for such text. Lone surrogates, which JavaScript
    strings can hold, cannot be represented.
- Errors: values thrown that are not `Error`s (the source's "Unknown error" messages) are not
  modelled; every failure carries a message.
- Database.
  - In `DbOperations` and `FetchEmails` each table either works or fails every request
    (`available`, `emailsOk`, `metaOk`); one request failing while another on the same table
    succeeds is not modelled. The `Sync` e-mail table cannot fail (see `Sync.EmailTable.BulkPut`
    below).
  - Dexie's index order on equal dates is not modelled: `GetLastXTransactions` sorts by date
    only.
  - `GetTransactionsByDateRange` returns matches in table order, not index order.
- `DbOperations.FindProbableDuplicateTransaction`: the contract states membership only. The
  source's `anyOf` on the multi-entry `transactionIds` index returns the matches in index-key
  order, and returns a transaction once for each asked identifier it carries. Neither that
  order nor that repetition is modelled: the model lists each matching transaction once, in
  its own order.
- Two e-mail stores: the browser sync (`Sync`) writes `StoredEmail` records, the server
  service (`FetchEmails`) writes `ParsedEmail` records. They are different tables in the
  model, as they are different record types in the source.
- Other queries: of the remaining db-operations queries only `getMostRecentAndOldestParsedEmail`
  is used by the core, and only as "some stored email is parsed" (`HasParsedEmail`).
  The other queries are outside this model: `getTransactionsThisMonth`,
  `getTransactionsBetweenDates`, `getTransactionsByCategory`, `getTransactionsByTags`,
  `getActiveSubscriptions`, `getTransactionsByType`, the email/subscription listings and
  `saveEmail`.
- `GmailSyncService`:
  - the unused `lastHistoryId` field, the `onProgress` callbacks and the OAuth client set up
    in the constructor are not modelled;
  - `getCurrentHistoryId` is the `profile` outcome of the API value;
  - `historyTypes` is not modelled in `FetchEmails`' history requests;
  - `createGmailSyncService` is the constructor.
- `fetch-emails.ts` `chunkArray`: it has the same definition as `client.ts`'s, and both are
  modelled by `Client.ChunksOf`.
- `Sync.IncrementalSync`: the incremental sync has no 404 fallback in the source, and none in
  the model; a history error is thrown like any other.
- `sync.ts` `getSyncState` is `LoadSyncState`.
- `Sync.EmailTable.BulkPut` always succeeds: a rejecting `db.emails.bulkPut` (sync.ts:72) is not
  modelled. In the source that rejection ends `fetchAndStore` with the batches before it
  stored, propagates out of the sync, and the sync state is never saved; the model's
  `FetchAndStore`, `InitialSync`, `IncrementalSync` and `LoadOlderEmails` do not cover that run.
- `Sync.SyncStorage.Save` always succeeds: a throwing `localStorage.setItem` (sync.ts:112) is not
  modelled. In the source the sync then fails after the emails are stored, with the old state
  left in place; the model's syncs always end with the new state saved on that path.
- Unreachable code.
  - `Client.GmailFetch`: the throw after the retry loop (client.ts:60) is unreachable; the
    model has an `assert false` in its place.
  - `FetchEmails.GmailSyncService.FetchMessagesBatch`: the "Batch request failed" rethrow
    (fetch-emails.ts:371-373) is unreachable, because every message fetch catches its own
    error and so `Promise.all` never rejects; the model has no branch for it.
- Batch size.
  - `FetchEmails.GmailSyncService.PerformFullSync`, `FetchEmails.GmailSyncService.PerformPartialSync`
    and `FetchEmails.SyncEmails` require a positive `batchSize`. With 0 or a negative size the
    source's chunking loop never ends once there is an id to chunk. With nothing to chunk the
    source still finishes: a full sync whose listing is empty or fails, or a partial sync with
    no added ids. The model does not cover those runs with a non-positive `batchSize`.
- `FetchEmails.MonthsBackKeepsDay`: stated only for days of the month up to 28; later days
  overflow into the next month, as `setMonth` does, and that case is computed but not
  characterised.
