/**
 * The class version of the sync engine (lib/fetch-emails.ts): `GmailSyncService` lists
 * message ids through the googleapis client, fetches and converts messages in batches,
 * and keeps the Dexie `emails` and `syncMetadata` tables up to date through the
 * operations of lib/db-operations.ts.
 *
 * The googleapis client is an oracle: the pages `messages.list` and `history.list` return to
 * successive calls (a call beyond them throws), what `messages.get` returns for each id, and
 * what `getProfile` returns. Every operation is specified by a function on a value of the
 * database (`DbState`), and the service's methods are proved to act as that function says.
 */
module FetchEmails {
  import opened Wrappers
  import opened Text
  import opened Email
  import opened Tables
  import opened Db
  import opened DbOperations
  import Client
  import Parser
  import Dates
  import Sync

  // ---- The googleapis client ---------------------------------------------------------------

  /** An error the client or the database throws: its HTTP status, if any, and its message. */
  datatype Thrown = Thrown(code: Option<int>, message: string)

  /** What a call beyond the recorded responses throws. */
  const NoResponse: Thrown := Thrown(None, "No response")

  datatype ListRequest = ListRequest(query: string, maxResults: int, pageToken: Option<string>)

  /** `messages.list` data: the ids of `messages`, if present, and `nextPageToken`. */
  datatype ListResponse = ListResponse(messageIds: Option<seq<string>>, nextPageToken: Option<string>)

  datatype HistoryRequest = HistoryRequest(startHistoryId: string, pageToken: Option<string>)

  datatype HistoryResponse = HistoryResponse(history: Option<seq<Client.HistoryRecord>>, nextPageToken: Option<string>)

  /** `messages.get` data as the conversion reads it: `id` and `payload?.headers`. */
  datatype ApiMessage = ApiMessage(id: string, headers: Option<seq<Header>>)

  datatype GmailApi = GmailApi(
    listPages: seq<Result<ListResponse, Thrown>>,
    historyPages: seq<Result<HistoryResponse, Thrown>>,
    message: string -> Result<ApiMessage, Thrown>,
    profile: Result<string, Thrown>)

  /** The API returns the message that was asked for. */
  ghost predicate Faithful(api: GmailApi) {
    forall id :: api.message(id).Success? ==> api.message(id).value.id == id
  }

  datatype SyncOptions = SyncOptions(maxMessages: Option<int>, batchSize: Option<int>, monthsToSync: Option<int>)

  /** The destructuring defaults of `performFullSync`: they apply only to absent options. */
  function MaxMessagesOf(o: SyncOptions): int { o.maxMessages.GetOr(1000) }
  function BatchSizeOf(o: SyncOptions): int { o.batchSize.GetOr(100) }
  function MonthsOf(o: SyncOptions): int { o.monthsToSync.GetOr(6) }

  datatype SyncProgress = SyncProgress(
    totalMessages: int,
    processedMessages: int,
    currentBatch: int,
    isComplete: bool,
    errors: seq<string>)

  const Started: SyncProgress := SyncProgress(0, 0, 0, false, [])

  /** `this.delay(100)` between batches. */
  const BatchDelay: int := 100

  /** Gmail allows at most 500 results per `messages.list` page. */
  const PageLimit: int := 500

  /** Sub-batch size of `fetchMessagesBatch`. */
  const SubBatchSize: nat := 100

  // ---- The date range of a full sync ---------------------------------------------------

  /**
   * `fromDate.setMonth(now.getMonth() - months)` on today's local day number: the month moves
   * back by `months`, the day of the month is kept, and a day the target month lacks
   * overflows into the next month.
   */
  function MonthsBack(today: int, months: int): int {
    var c := Dates.CivilFromDays(today);
    var total := c.year * 12 + (c.month - 1) - months;
    Dates.DayNumber(Dates.Civil(total / 12, total % 12 + 1, 1)) + c.day - 1
  }

  /** A day of the month that every month has is kept, and the month is exactly `months` earlier. */
  lemma MonthsBackKeepsDay(today: int, months: int)
    requires Dates.CivilFromDays(today).day <= 28
    ensures var c, f := Dates.CivilFromDays(today), Dates.CivilFromDays(MonthsBack(today, months));
      f.day == c.day && f.year * 12 + (f.month - 1) == c.year * 12 + (c.month - 1) - months
  {
    var c := Dates.CivilFromDays(today);
    var total := c.year * 12 + (c.month - 1) - months;
    var f := Dates.Civil(total / 12, total % 12 + 1, c.day);
    assert Dates.IsValid(f);
    assert Dates.DayNumber(f) == MonthsBack(today, months);
    Dates.CivilFromDayNumber(f);
  }

  /** The query of `performFullSync`: `after:YYYY/MM/DD` of the start date. */
  function FullSyncQuery(today: int, months: int): string {
    "after:" + Dates.FormatGmailDate(MonthsBack(today, months))
  }

  // ---- convertGmailMessageToEmail ----------------------------------------------------------

  /** A header's value looked up as the conversion does: first match up to case, `""` if none. */
  function HeaderOr(m: ApiMessage, name: string): string {
    Parser.ExtractHeader(m.headers.GetOr([]), name).GetOr("")
  }

  /** The stored record of a fetched message, at instant `now`. */
  function ConvertGmailMessageToEmail(m: ApiMessage, now: int): (e: ParsedEmail)
    ensures e.id == m.id
    ensures e.from == HeaderOr(m, "from") && e.to == HeaderOr(m, "to")
    ensures HeaderOr(m, "date") == "" ==> e.emailReceivedAt == At(now)
    ensures HeaderOr(m, "date") != "" ==> e.emailReceivedAt == FromHeader(HeaderOr(m, "date"))
    ensures !e.isParsed && e.processingStatus == Pending && !e.requiresUserAction && e.errorMessage == None
    ensures e.relatedTransactionIds == [] && e.relatedSubscriptions == [] && e.tags == []
    ensures e.createdAt == now && e.updatedAt == now
  {
    var date := HeaderOr(m, "date");
    ParsedEmail(
      id := m.id,
      from := HeaderOr(m, "from"),
      to := HeaderOr(m, "to"),
      isParsed := false,
      processingStatus := Pending,
      errorMessage := None,
      requiresUserAction := false,
      relatedTransactionIds := [],
      relatedSubscriptions := [],
      tags := [],
      createdAt := now,
      updatedAt := now,
      emailReceivedAt := if date != "" then FromHeader(date) else At(now))
  }

  /** The sender is the value of the first header named `From` in any case; headers without a payload count as none. */
  lemma ConvertTakesFirstFrom(m: ApiMessage, now: int, k: nat)
    requires m.headers.Some? && k < |m.headers.value|
    requires ToLowerAscii(m.headers.value[k].name) == "from"
    requires forall j :: 0 <= j < k ==> ToLowerAscii(m.headers.value[j].name) != "from"
    ensures ConvertGmailMessageToEmail(m, now).from == m.headers.value[k].value
  {
    var hs := m.headers.value;
    assert Parser.NameIs(hs[k], "from");
    var r := Parser.ExtractHeader(hs, "from");
    var i :| 0 <= i < |hs| && Parser.NameIs(hs[i], "from") && r.value == hs[i].value
      && forall j :: 0 <= j < i ==> !Parser.NameIs(hs[j], "from");
    assert i == k;
  }

  // ---- fetchMessagesBatch ------------------------------------------------------------------

  /** The converted messages among `ids` that `messages.get` returned, in order; failures are dropped. */
  function Fetched(api: GmailApi, ids: seq<string>, now: int): (r: seq<ParsedEmail>)
    ensures |r| <= |ids|
    decreases |ids|
  {
    if ids == [] then []
    else
      var last := ids[|ids| - 1];
      Fetched(api, ids[..|ids| - 1], now)
        + match api.message(last) { case Success(m) => [ConvertGmailMessageToEmail(m, now)] case Failure(_) => [] }
  }

  lemma {:induction false} FetchedAppend(api: GmailApi, a: seq<string>, b: seq<string>, now: int)
    ensures Fetched(api, a + b, now) == Fetched(api, a, now) + Fetched(api, b, now)
    decreases |b|
  {
    if b == [] {
      assert a + b == a;
    } else {
      assert (a + b)[..|a + b| - 1] == a + b[..|b| - 1];
      FetchedAppend(api, a, b[..|b| - 1], now);
    }
  }

  /** From a faithful API every fetched email is one of the ids asked for. */
  lemma {:induction false} FetchedAreAsked(api: GmailApi, ids: seq<string>, now: int, k: nat)
    requires Faithful(api) && k < |Fetched(api, ids, now)|
    ensures Fetched(api, ids, now)[k].id in ids
    decreases |ids|
  {
    var init := ids[..|ids| - 1];
    if k < |Fetched(api, init, now)| {
      FetchedAreAsked(api, init, now, k);
    }
  }

  /** When every message comes back, every id yields exactly one email. */
  lemma {:induction false} FetchedAll(api: GmailApi, ids: seq<string>, now: int)
    requires forall k :: 0 <= k < |ids| ==> api.message(ids[k]).Success?
    ensures |Fetched(api, ids, now)| == |ids|
    decreases |ids|
  {
    if ids != [] {
      FetchedAll(api, ids[..|ids| - 1], now);
    }
  }

  // ---- Listing message ids -----------------------------------------------------------------

  /** The result of a paged listing and the requests it made. */
  datatype Listed<R, Q> = Listed(result: Result<R, Thrown>, requests: seq<Q>)

  function Prepend<R, Q>(requests: seq<Q>, l: Listed<R, Q>): Listed<R, Q> {
    Listed(l.result, requests + l.requests)
  }

  /** `allMessageIds.slice(0, max)`: a negative end counts from the back. */
  function SliceTo<T>(s: seq<T>, end: int): (r: seq<T>)
    ensures |r| <= |s| && r == s[..|r|]
    ensures end >= 0 ==> |r| == Client.Min(end, |s|)
  {
    if end >= 0 then s[..Client.Min(end, |s|)]
    else if |s| + end >= 0 then s[..|s| + end]
    else []
  }

  /**
   * The do-while loop of `performFullSync` from call `k` on, with token `pageToken` and the ids
   * `found` so far: it stops at the first failure, once `max` ids are in hand (cutting the
   * list to `max`), or when a page has no next page token.
   */
  function MessageIdListing(query: string, max: int, pages: seq<Result<ListResponse, Thrown>>, k: nat,
                            pageToken: Option<string>, found: seq<string>): Listed<seq<string>, ListRequest>
    decreases |pages| - k
  {
    var req := ListRequest(query, Client.Min(PageLimit, max), pageToken);
    if k >= |pages| then Listed(Failure(NoResponse), [req])
    else match pages[k]
      case Failure(e) => Listed(Failure(e), [req])
      case Success(p) =>
        var all := found + p.messageIds.GetOr([]);
        if p.messageIds.Some? && |all| >= max then Listed(Success(SliceTo(all, max)), [req])
        else if Client.Given(p.nextPageToken) && |all| < max then
          Prepend([req], MessageIdListing(query, max, pages, k + 1, p.nextPageToken, all))
        else Listed(Success(all), [req])
  }

  /** Every id of every page from `k` on, in page order. */
  function PageIds(pages: seq<Result<ListResponse, Thrown>>, k: nat): seq<string>
    decreases |pages| - k
  {
    if k >= |pages| then []
    else
      (match pages[k] { case Success(p) => p.messageIds.GetOr([]) case Failure(_) => [] }) + PageIds(pages, k + 1)
  }

  predicate IsPrefix<T(==)>(a: seq<T>, b: seq<T>) {
    |a| <= |b| && b[..|a|] == a
  }

  /**
   * A full-sync listing ends with at most `max` ids (for a non-negative `max`), and they are a
   * prefix of the listed ids in page order.
   */
  lemma {:induction false} ListingIsCappedPrefix(query: string, max: int, pages: seq<Result<ListResponse, Thrown>>, k: nat,
                                                 pageToken: Option<string>, found: seq<string>)
    requires 0 <= max ==> |found| <= max
    ensures var l := MessageIdListing(query, max, pages, k, pageToken, found);
      l.result.Success? ==> IsPrefix(l.result.value, found + PageIds(pages, k)) && (0 <= max ==> |l.result.value| <= max)
    decreases |pages| - k
  {
    if k < |pages| && pages[k].Success? {
      var p := pages[k].value;
      var all := found + p.messageIds.GetOr([]);
      assert found + PageIds(pages, k) == all + PageIds(pages, k + 1);
      assert IsPrefix(all, found + PageIds(pages, k));
      if !(p.messageIds.Some? && |all| >= max) && Client.Given(p.nextPageToken) && |all| < max {
        ListingIsCappedPrefix(query, max, pages, k + 1, p.nextPageToken, all);
      }
    }
  }

  /** Every listing request asks for `min(500, max)` results with the sync's query; the first has no token. */
  lemma {:induction false} ListingRequests(query: string, max: int, pages: seq<Result<ListResponse, Thrown>>, k: nat,
                                           pageToken: Option<string>, found: seq<string>)
    ensures var l := MessageIdListing(query, max, pages, k, pageToken, found);
      |l.requests| >= 1 && l.requests[0].pageToken == pageToken
      && forall j :: 0 <= j < |l.requests| ==> l.requests[j].query == query && l.requests[j].maxResults == Client.Min(PageLimit, max)
    decreases |pages| - k
  {
    if k < |pages| && pages[k].Success? {
      var p := pages[k].value;
      var all := found + p.messageIds.GetOr([]);
      if !(p.messageIds.Some? && |all| >= max) && Client.Given(p.nextPageToken) && |all| < max {
        ListingRequests(query, max, pages, k + 1, p.nextPageToken, all);
      }
    }
  }

  // ---- Listing history records -------------------------------------------------------------

  /** The do-while loop of `performPartialSync` over `history.list` from call `k` on. */
  function HistoryPaging(start: string, pages: seq<Result<HistoryResponse, Thrown>>, k: nat,
                         pageToken: Option<string>, found: seq<Client.HistoryRecord>): Listed<seq<Client.HistoryRecord>, HistoryRequest>
    decreases |pages| - k
  {
    var req := HistoryRequest(start, pageToken);
    if k >= |pages| then Listed(Failure(NoResponse), [req])
    else match pages[k]
      case Failure(e) => Listed(Failure(e), [req])
      case Success(p) =>
        var all := found + p.history.GetOr([]);
        if Client.Given(p.nextPageToken) then Prepend([req], HistoryPaging(start, pages, k + 1, p.nextPageToken, all))
        else Listed(Success(all), [req])
  }

  /** Every history request starts from the marker; the records found so far stay in front. */
  lemma {:induction false} HistoryPagingRequests(start: string, pages: seq<Result<HistoryResponse, Thrown>>, k: nat,
                                                 pageToken: Option<string>, found: seq<Client.HistoryRecord>)
    ensures var l := HistoryPaging(start, pages, k, pageToken, found);
      |l.requests| >= 1 && l.requests[0].pageToken == pageToken
      && (forall j :: 0 <= j < |l.requests| ==> l.requests[j].startHistoryId == start)
      && (l.result.Success? ==> IsPrefix(found, l.result.value))
    decreases |pages| - k
  {
    if k < |pages| && pages[k].Success? {
      var p := pages[k].value;
      var all := found + p.history.GetOr([]);
      if Client.Given(p.nextPageToken) {
        HistoryPagingRequests(start, pages, k + 1, p.nextPageToken, all);
        assert all[..|found|] == found;
      }
    }
  }

  // ---- The database as a value -----------------------------------------------------------

  /** What a sync reads and writes: the `emails` and `syncMetadata` tables and whether each works. */
  datatype DbState = DbState(emails: map<string, ParsedEmail>, emailsOk: bool, meta: map<string, SyncMetadata>, metaOk: bool)

  function StateOf(db: Database): DbState
    reads db.emails, db.syncMetadata
  {
    DbState(db.emails.rows, db.emails.available, db.syncMetadata.rows, db.syncMetadata.available)
  }

  /** `getSyncMetadata()`: the row, or nothing when it is missing or the table fails. */
  function Existing(s: DbState): Option<SyncMetadata> {
    if s.metaOk && SyncKey in s.meta then Some(s.meta[SyncKey]) else None
  }

  /** A `saveSyncMetadata(patch)` that succeeds. */
  function Saved(s: DbState, patch: MetadataPatch, now: int): DbState
    requires s.metaOk
  {
    s.(meta := s.meta[SyncKey := MergeSyncMetadata(patch, Existing(s), now)])
  }

  /** The thrown error of a failed `updateSyncStatus`. */
  const StatusError: Thrown := Thrown(None, "Failed to update sync status")

  /**
   * The outer `catch` of both syncs: `updateSyncStatus("failed", prefix + message)`, then the
   * error is rethrown, unless that write throws too, and then its error escapes instead.
   */
  function Caught(s: DbState, prefix: string, e: Thrown, now: int): (r: (DbState, Thrown))
    ensures r.0.emails == s.emails && r.0.emailsOk == s.emailsOk && r.0.metaOk == s.metaOk
    ensures s.metaOk ==> r.1 == e && Existing(r.0).Some? && Existing(r.0).value.lastSyncStatus == SyncFailed
    ensures s.metaOk && prefix != "" ==> Existing(r.0).value.lastErrorMessage == Some(prefix + e.message)
    ensures !s.metaOk ==> r == (s, StatusError)
  {
    if s.metaOk then (Saved(s, StatusPatch(SyncFailed, Some(prefix + e.message)), now), e)
    else (s, StatusError)
  }

  // ---- The batch loops ---------------------------------------------------------------------

  /** The database, the progress object and the delays waited so far, during a batch loop. */
  datatype Run = Run(state: DbState, progress: SyncProgress, delays: seq<int>)

  function AtBatch(run: Run, k: int): Run {
    run.(progress := run.progress.(currentBatch := k + 1))
  }

  function Delayed(run: Run): Run {
    run.(delays := run.delays + [BatchDelay])
  }

  /** The batch's `catch`: one message in `progress.errors`. */
  function BatchFailed(run: Run, prefix: string, k: int, message: string): Run {
    run.(progress := run.progress.(errors := run.progress.errors + [prefix + IntToString(k + 1) + " failed: " + message]))
  }

  /**
   * The body of a batch's `try` on the ids to fetch: fetch them; if any came back, save them,
   * count them and increment the stored total; then wait. A throw ends the body with an error.
   */
  function SaveBatch(api: GmailApi, run: Run, k: int, ids: seq<string>, now: int, prefix: string): (r: Run)
    ensures r.state.emailsOk == run.state.emailsOk && r.state.metaOk == run.state.metaOk
    ensures r.progress.(processedMessages := 0, errors := []) == run.progress.(processedMessages := 0, errors := [])
    ensures |r.progress.errors| + |r.delays| == |run.progress.errors| + |run.delays| + 1
    ensures IsPrefix(run.progress.errors, r.progress.errors) && IsPrefix(run.delays, r.delays)
    ensures r.progress.processedMessages >= run.progress.processedMessages
    ensures r.progress.processedMessages == run.progress.processedMessages ==> r.state == run.state
  {
    var emails := Fetched(api, ids, now);
    var s := run.state;
    if emails == [] then Delayed(run)
    else if !s.emailsOk then BatchFailed(run, prefix, k, "Failed to save emails in batch")
    else
      var stored := s.(emails := PutAll(s.emails, emails, ParsedEmailId));
      var counted := run.progress.(processedMessages := run.progress.processedMessages + |emails|);
      if !s.metaOk then BatchFailed(Run(stored, counted, run.delays), prefix, k, "Failed to increment total emails synced")
      else Delayed(Run(Saved(stored, IncrementPatch(Existing(stored), |emails|), now), counted, run.delays))
  }

  /** The batch loop of `performFullSync` from batch `k` on. */
  function FullBatches(api: GmailApi, chunks: seq<seq<string>>, k: nat, run: Run, now: int): (r: Run)
    ensures r.state.emailsOk == run.state.emailsOk && r.state.metaOk == run.state.metaOk
    ensures r.progress.totalMessages == run.progress.totalMessages && r.progress.isComplete == run.progress.isComplete
    ensures k < |chunks| ==> r.progress.currentBatch == |chunks|
    ensures k >= |chunks| ==> r == run
    ensures |r.progress.errors| + |r.delays| == |run.progress.errors| + |run.delays| + (if k < |chunks| then |chunks| - k else 0)
    ensures IsPrefix(run.progress.errors, r.progress.errors) && IsPrefix(run.delays, r.delays)
    ensures r.progress.processedMessages >= run.progress.processedMessages
    ensures r.progress.processedMessages == run.progress.processedMessages ==> r.state == run.state
    decreases |chunks| - k
  {
    if k >= |chunks| then run
    else FullBatches(api, chunks, k + 1, SaveBatch(api, AtBatch(run, k), k, chunks[k], now, "Batch "), now)
  }

  /** Whether an id is not yet stored, as `emailExists` answers it (a failing read answers `false`). */
  function Unstored(s: DbState): string -> bool {
    (id: string) => !(s.emailsOk && id in s.emails)
  }

  /**
   * One batch of `performPartialSync`: the ids already stored are dropped; if none is left the
   * batch counts as processed in full, otherwise the rest is fetched and saved.
   */
  function PartialBatch(api: GmailApi, run: Run, k: int, chunk: seq<string>, now: int): (r: Run)
    ensures r.state.emailsOk == run.state.emailsOk && r.state.metaOk == run.state.metaOk
    ensures r.progress.totalMessages == run.progress.totalMessages && r.progress.isComplete == run.progress.isComplete
    ensures r.progress.currentBatch == k + 1
    ensures |r.progress.errors| + |r.delays| == |run.progress.errors| + |run.delays| + 1
    ensures IsPrefix(run.progress.errors, r.progress.errors) && IsPrefix(run.delays, r.delays)
    ensures r.progress.processedMessages >= run.progress.processedMessages
  {
    var r := AtBatch(run, k);
    var unseen := Filter(Unstored(run.state), chunk);
    if unseen == [] then Delayed(r.(progress := r.progress.(processedMessages := r.progress.processedMessages + |chunk|)))
    else SaveBatch(api, r, k, unseen, now, "Partial sync batch ")
  }

  /** The batch loop of `performPartialSync` from batch `k` on. */
  function PartialBatches(api: GmailApi, chunks: seq<seq<string>>, k: nat, run: Run, now: int): (r: Run)
    ensures r.state.emailsOk == run.state.emailsOk && r.state.metaOk == run.state.metaOk
    ensures r.progress.totalMessages == run.progress.totalMessages && r.progress.isComplete == run.progress.isComplete
    ensures k < |chunks| ==> r.progress.currentBatch == |chunks|
    ensures k >= |chunks| ==> r == run
    ensures |r.progress.errors| + |r.delays| == |run.progress.errors| + |run.delays| + (if k < |chunks| then |chunks| - k else 0)
    ensures IsPrefix(run.progress.errors, r.progress.errors) && IsPrefix(run.delays, r.delays)
    ensures r.progress.processedMessages >= run.progress.processedMessages
    decreases |chunks| - k
  {
    if k >= |chunks| then run
    else PartialBatches(api, chunks, k + 1, PartialBatch(api, run, k, chunks[k], now), now)
  }

  // ---- performFullSync and performPartialSync ----------------------------------------------

  /** A whole sync: the database after it, its result, and the requests and delays it made. */
  datatype SyncRun = SyncRun(
    state: DbState,
    result: Result<SyncProgress, Thrown>,
    historyRequests: seq<HistoryRequest>,
    listRequests: seq<ListRequest>,
    delays: seq<int>)

  function Abort(s: DbState, prefix: string, e: Thrown, historyRequests: seq<HistoryRequest>,
                 listRequests: seq<ListRequest>, delays: seq<int>, now: int): SyncRun {
    var c := Caught(s, prefix, e, now);
    SyncRun(c.0, Failure(c.1), historyRequests, listRequests, delays)
  }

  const FullPrefix: string := "Full sync failed: "
  const PartialPrefix: string := "Partial sync failed: "

  /**
   * `performFullSync(options)` on database `s`, on local day `today` at instant `now`: mark the
   * sync in progress, list the ids, run the batches, then record the current history id,
   * the processed count and status success; a throw on the way goes through `Caught`.
   */
  function FullSync(api: GmailApi, s: DbState, options: SyncOptions, today: int, now: int): SyncRun
    requires BatchSizeOf(options) > 0
  {
    if !s.metaOk then Abort(s, FullPrefix, StatusError, [], [], [], now)
    else
      var s1 := InProgress(s, now);
      var l := FullSyncListing(api, options, today);
      if l.result.Failure? then Abort(s1, FullPrefix, l.result.error, [], l.requests, [], now)
      else AfterListing(api, s1, l.result.value, BatchSizeOf(options), l.requests, now)
  }

  /** The full sync once the ids are listed: the batches, then the record of a complete sync. */
  function AfterListing(api: GmailApi, s: DbState, ids: seq<string>, batchSize: int, listRequests: seq<ListRequest>, now: int): SyncRun
    requires s.metaOk && batchSize > 0
  {
    var run := FullBatches(api, Client.ChunksOf(ids, batchSize), 0, Run(s, Started.(totalMessages := |ids|), []), now);
    match api.profile
    case Failure(e) => Abort(run.state, FullPrefix, e, [], listRequests, run.delays, now)
    case Success(h) =>
      SyncRun(Saved(run.state, FullSyncPatch(h, run.progress.processedMessages, now), now),
              Success(run.progress.(isComplete := true)), [], listRequests, run.delays)
  }

  /** The id listing of `performFullSync`. */
  function FullSyncListing(api: GmailApi, options: SyncOptions, today: int): Listed<seq<string>, ListRequest> {
    MessageIdListing(FullSyncQuery(today, MonthsOf(options)), MaxMessagesOf(options), api.listPages, 0, None, [])
  }

  /** The history listing of `performPartialSync` from its marker. */
  function PartialSyncHistory(api: GmailApi, s: DbState, start: Option<string>): Listed<seq<Client.HistoryRecord>, HistoryRequest>
    requires Marker(s, start).Some?
  {
    HistoryPaging(Marker(s, start).value, api.historyPages, 0, None, [])
  }

  /** `updateSyncStatus("in_progress")` on a working metadata table. */
  function InProgress(s: DbState, now: int): DbState
    requires s.metaOk
  {
    Saved(s, StatusPatch(SyncInProgress, None), now)
  }

  /** `startHistoryId || await getLastHistoryId()`. */
  function Marker(s: DbState, start: Option<string>): (m: Option<string>)
    ensures m.Some? ==> m.value != ""
    ensures Client.Given(start) ==> m == start
  {
    if Client.Given(start) then start
    else if Existing(s).Some? && Existing(s).value.lastHistoryId != "" then Some(Existing(s).value.lastHistoryId)
    else None
  }

  /** `return await this.performFullSync(options)` inside the partial sync's `try`: a failure passes its `catch` too. */
  function ViaFull(f: SyncRun, historyRequests: seq<HistoryRequest>, now: int): SyncRun {
    if f.result.Success? then f.(historyRequests := historyRequests)
    else Abort(f.state, PartialPrefix, f.result.error, historyRequests, f.listRequests, f.delays, now)
  }

  /** The end of a partial sync: record the current history id, then status success. */
  function Finish(api: GmailApi, run: Run, historyRequests: seq<HistoryRequest>, now: int): (r: SyncRun)
    requires run.state.metaOk
    ensures r.state.emails == run.state.emails && r.state.emailsOk == run.state.emailsOk
    ensures r.delays == run.delays && r.listRequests == [] && r.historyRequests == historyRequests
    ensures r.result.Success? <==> api.profile.Success?
  {
    match api.profile
    case Failure(e) => Abort(run.state, PartialPrefix, e, historyRequests, [], run.delays, now)
    case Success(h) =>
      var s2 := Saved(run.state, HistoryIdPatch(h, now), now);
      SyncRun(Saved(s2, StatusPatch(SyncSucceeded, None), now), Success(run.progress.(isComplete := true)), historyRequests, [], run.delays)
  }

  /**
   * `performPartialSync(startHistoryId, options)`: without a marker, a full sync; otherwise mark
   * the sync in progress, page through the history (a 404 falls back to a full sync), and
   * fetch the distinct added messages that are not stored yet.
   */
  function PartialSync(api: GmailApi, s: DbState, start: Option<string>, options: SyncOptions, today: int, now: int): SyncRun
    requires BatchSizeOf(options) > 0
  {
    var marker := Marker(s, start);
    if marker.None? then ViaFull(FullSync(api, s, options, today, now), [], now)
    else if !s.metaOk then Abort(s, PartialPrefix, StatusError, [], [], [], now)
    else
      var s1 := InProgress(s, now);
      var h := PartialSyncHistory(api, s, start);
      if h.result.Failure? then
        if h.result.error.code == Some(404) then ViaFull(FullSync(api, s1, options, today, now), h.requests, now)
        else Abort(s1, PartialPrefix, h.result.error, h.requests, [], [], now)
      else AfterHistory(api, s1, h.result.value, BatchSizeOf(options), h.requests, now)
  }

  /** The partial sync once the history is listed: the distinct added ids, their batches, and the end. */
  function AfterHistory(api: GmailApi, s: DbState, records: seq<Client.HistoryRecord>, batchSize: int,
                        historyRequests: seq<HistoryRequest>, now: int): SyncRun
    requires s.metaOk && batchSize > 0
  {
    var ids := Sync.Dedupe(Client.AddedIds(records));
    var run := Run(s, Started.(totalMessages := |ids|), []);
    if ids == [] then Finish(api, run, historyRequests, now)
    else Finish(api, PartialBatches(api, Client.ChunksOf(ids, batchSize), 0, run, now), historyRequests, now)
  }

  // ---- shouldPerformFullSync ---------------------------------------------------------------

  const OneWeek: int := 7 * Dates.MsPerDay

  /** `getMostRecentAndOldestParsedEmail()` finds a latest parsed email. */
  predicate HasParsedEmail(s: DbState) {
    exists id | id in s.emails :: s.emails[id].isParsed
  }

  /**
   * `shouldPerformFullSync()` at instant `now`: a full sync unless there is a marker, the last
   * full sync is at most a week old, and a parsed email is stored; any failing read means a
   * full sync.
   */
  function ShouldPerformFullSync(s: DbState, now: int): (b: bool)
    ensures !b ==> Marker(s, None).Some?
    ensures !s.metaOk || !s.emailsOk ==> b
    ensures !b ==> Existing(s).value.lastFullSyncDate >= now - OneWeek && HasParsedEmail(s)
    ensures s.emailsOk && Marker(s, None).Some? && Existing(s).value.lastFullSyncDate >= now - OneWeek && HasParsedEmail(s) ==> !b
  {
    var m := Existing(s);
    if m.None? || m.value.lastHistoryId == "" then true
    else if m.value.lastFullSyncDate < now - OneWeek then true
    else if !s.emailsOk then true
    else !HasParsedEmail(s)
  }

  // ---- What the syncs do -------------------------------------------------------------------

  /** The emails each batch fetches, batch after batch. */
  function FetchedEach(api: GmailApi, chunks: seq<seq<string>>, now: int): seq<ParsedEmail>
    decreases |chunks|
  {
    if chunks == [] then [] else Fetched(api, chunks[0], now) + FetchedEach(api, chunks[1..], now)
  }

  /** Fetching the batches of a list one after the other fetches the list. */
  lemma {:induction false} FetchedOfChunks(api: GmailApi, ids: seq<string>, size: nat, now: int)
    requires size > 0
    ensures FetchedEach(api, Client.ChunksOf(ids, size), now) == Fetched(api, ids, now)
    decreases |ids|
  {
    if ids != [] {
      var n := Client.Min(size, |ids|);
      var cs := Client.ChunksOf(ids, size);
      assert cs[0] == ids[..n] && cs[1..] == Client.ChunksOf(ids[n..], size);
      FetchedOfChunks(api, ids[n..], size, now);
      FetchedAppend(api, ids[..n], ids[n..], now);
      assert ids[..n] + ids[n..] == ids;
    }
  }

  /**
   * The full-sync batches on a working emails table save everything they fetch and count it
   * in `processedMessages`; on a working metadata table too, no batch fails. On a failing
   * emails table nothing is saved or counted.
   */
  lemma {:induction false} FullBatchesSaveFetched(api: GmailApi, chunks: seq<seq<string>>, k: nat, run: Run, now: int)
    requires k <= |chunks|
    ensures var r, f := FullBatches(api, chunks, k, run, now), FetchedEach(api, chunks[k..], now);
      (run.state.emailsOk ==>
        r.state.emails == PutAll(run.state.emails, f, ParsedEmailId)
        && r.progress.processedMessages == run.progress.processedMessages + |f|)
      && (run.state.emailsOk && run.state.metaOk ==> r.progress.errors == run.progress.errors && |r.delays| == |run.delays| + |chunks| - k)
      && (!run.state.emailsOk ==> r.state == run.state && r.progress.processedMessages == run.progress.processedMessages)
    decreases |chunks| - k
  {
    if k < |chunks| {
      var next := SaveBatch(api, AtBatch(run, k), k, chunks[k], now, "Batch ");
      FullBatchesSaveFetched(api, chunks, k + 1, next, now);
      assert chunks[k..][0] == chunks[k] && chunks[k..][1..] == chunks[k + 1..];
      PutAllAppend(run.state.emails, Fetched(api, chunks[k], now), FetchedEach(api, chunks[k + 1..], now), ParsedEmailId);
    } else {
      assert chunks[k..] == [];
    }
  }

  /**
   * The end of a full sync that reads the history id, on working tables: every listed message
   * that comes back is stored and counted, and no batch fails; the metadata records success,
   * the sync dates, the history id and the count.
   */
  lemma AfterListingStores(api: GmailApi, s: DbState, ids: seq<string>, batchSize: int, listRequests: seq<ListRequest>, now: int)
    requires s.emailsOk && s.metaOk && batchSize > 0 && api.profile.Success?
    ensures var f, r := Fetched(api, ids, now), AfterListing(api, s, ids, batchSize, listRequests, now);
      r.result == Success(SyncProgress(|ids|, |f|, |Client.ChunksOf(ids, batchSize)|, true, []))
      && r.state.emails == PutAll(s.emails, f, ParsedEmailId)
      && |r.delays| == |Client.ChunksOf(ids, batchSize)| && r.listRequests == listRequests
      && Existing(r.state).Some?
      && Existing(r.state).value.lastSyncStatus == SyncSucceeded
      && Existing(r.state).value.lastFullSyncDate == now && Existing(r.state).value.lastPartialSyncDate == now
      && (api.profile.value != "" ==> Existing(r.state).value.lastHistoryId == api.profile.value)
      && (f != [] ==> Existing(r.state).value.totalEmailsSynced == |f|)
  {
    var chunks := Client.ChunksOf(ids, batchSize);
    var run := Run(s, Started.(totalMessages := |ids|), []);
    FullBatchesSaveFetched(api, chunks, 0, run, now);
    FetchedOfChunks(api, ids, batchSize, now);
    assert chunks[0..] == chunks;
  }

  /** A full sync that lists its ids and reads the history id on working tables, from its start. */
  lemma FullSyncStoresListed(api: GmailApi, s: DbState, options: SyncOptions, today: int, now: int)
    requires BatchSizeOf(options) > 0 && s.emailsOk && s.metaOk
    requires FullSyncListing(api, options, today).result.Success? && api.profile.Success?
    ensures var l := FullSyncListing(api, options, today);
      FullSync(api, s, options, today, now) == AfterListing(api, InProgress(s, now), l.result.value, BatchSizeOf(options), l.requests, now)
      && FullSync(api, s, options, today, now).state.emailsOk
  {
  }

  /**
   * `markFullSyncComplete` replaces the total with `processedMessages`, except that a count of
   * 0 is falsy and leaves the total the batches started from.
   */
  lemma AfterListingSetsTotal(api: GmailApi, s: DbState, ids: seq<string>, batchSize: int, listRequests: seq<ListRequest>, now: int)
    requires s.metaOk && batchSize > 0 && api.profile.Success?
    ensures var r := AfterListing(api, s, ids, batchSize, listRequests, now);
      r.result.Success? && Existing(r.state).Some? &&
      Existing(r.state).value.totalEmailsSynced
        == if r.result.value.processedMessages != 0 then r.result.value.processedMessages else CurrentTotal(Existing(s))
  {
    var run := FullBatches(api, Client.ChunksOf(ids, batchSize), 0, Run(s, Started.(totalMessages := |ids|), []), now);
    if run.progress.processedMessages == 0 {
      assert run.state == s;
    }
  }

  /** Over a whole full sync: the in-progress write keeps the total, so a count of 0 leaves the total the sync found. */
  lemma FullSyncSetsTotal(api: GmailApi, s: DbState, options: SyncOptions, today: int, now: int)
    requires BatchSizeOf(options) > 0
    requires FullSync(api, s, options, today, now).result.Success?
    ensures var r := FullSync(api, s, options, today, now);
      Existing(r.state).Some? &&
      Existing(r.state).value.totalEmailsSynced
        == if r.result.value.processedMessages != 0 then r.result.value.processedMessages else CurrentTotal(Existing(s))
  {
    var l := FullSyncListing(api, options, today);
    AfterListingSetsTotal(api, InProgress(s, now), l.result.value, BatchSizeOf(options), l.requests, now);
    assert CurrentTotal(Existing(InProgress(s, now))) == CurrentTotal(Existing(s));
  }

  /** After a successful full sync that read a history id, the next sync within a week is partial while a parsed email is stored. */
  lemma FullSyncDefersNextFullSync(api: GmailApi, s: DbState, options: SyncOptions, today: int, now: int, later: int)
    requires BatchSizeOf(options) > 0 && s.emailsOk
    requires FullSync(api, s, options, today, now).result.Success?
    requires api.profile.Success? && api.profile.value != ""
    requires HasParsedEmail(FullSync(api, s, options, today, now).state)
    requires later <= now + OneWeek
    ensures !ShouldPerformFullSync(FullSync(api, s, options, today, now).state, later)
  {
  }

  /** A partial batch whose ids are all stored already leaves the database alone and counts the whole batch. */
  lemma PartialBatchAllStored(api: GmailApi, run: Run, k: int, chunk: seq<string>, now: int)
    requires run.state.emailsOk
    requires forall j :: 0 <= j < |chunk| ==> chunk[j] in run.state.emails
    ensures var r := PartialBatch(api, run, k, chunk, now);
      r.state == run.state && r.progress.processedMessages == run.progress.processedMessages + |chunk|
      && r.progress.errors == run.progress.errors && r.delays == run.delays + [BatchDelay]
  {
  }

  /** Every id asked for whose message comes back from a faithful API is among the fetched emails. */
  lemma {:induction false} FetchedHas(api: GmailApi, ids: seq<string>, now: int, id: string)
    requires Faithful(api) && id in ids && api.message(id).Success?
    ensures HasKey(Fetched(api, ids, now), ParsedEmailId, id)
    decreases |ids|
  {
    var init := ids[..|ids| - 1];
    var f := Fetched(api, ids, now);
    if ids[|ids| - 1] == id {
      assert f[|f| - 1] == ConvertGmailMessageToEmail(api.message(id).value, now);
      assert ParsedEmailId(f[|f| - 1]) == id;
    } else {
      assert id in init by {
        var j :| 0 <= j < |ids| && ids[j] == id;
        assert init[j] == id;
      }
      FetchedHas(api, init, now, id);
      var j :| 0 <= j < |Fetched(api, init, now)| && ParsedEmailId(Fetched(api, init, now)[j]) == id;
      assert f[j] == Fetched(api, init, now)[j];
    }
  }

  /** Ids stored before a partial batch stay stored, and each of its ids whose message comes back is stored after it. */
  lemma PartialBatchStores(api: GmailApi, run: Run, k: int, chunk: seq<string>, now: int)
    requires Faithful(api) && run.state.emailsOk
    ensures var r := PartialBatch(api, run, k, chunk, now);
      (forall id :: id in run.state.emails ==> id in r.state.emails)
      && forall i :: 0 <= i < |chunk| && api.message(chunk[i]).Success? ==> chunk[i] in r.state.emails
  {
    var s := run.state;
    var unseen := Filter(Unstored(s), chunk);
    var emails := Fetched(api, unseen, now);
    forall id | id in s.emails
      ensures id in PutAll(s.emails, emails, ParsedEmailId)
    {
      PutAllLookup(s.emails, emails, ParsedEmailId, id);
    }
    forall i | 0 <= i < |chunk| && api.message(chunk[i]).Success? && chunk[i] !in s.emails
      ensures chunk[i] in PutAll(s.emails, emails, ParsedEmailId) && emails != []
    {
      assert Unstored(s)(chunk[i]);
      FetchedHas(api, unseen, now, chunk[i]);
      PutAllLookup(s.emails, emails, ParsedEmailId, chunk[i]);
    }
  }

  /** Over all partial batches: stored ids stay stored, and every id of a batch whose message comes back ends up stored. */
  lemma {:induction false} PartialBatchesStore(api: GmailApi, chunks: seq<seq<string>>, k: nat, run: Run, now: int)
    requires Faithful(api) && run.state.emailsOk
    ensures var r := PartialBatches(api, chunks, k, run, now);
      (forall id :: id in run.state.emails ==> id in r.state.emails)
      && forall j, i :: k <= j < |chunks| && 0 <= i < |chunks[j]| && api.message(chunks[j][i]).Success? ==> chunks[j][i] in r.state.emails
    decreases |chunks| - k
  {
    if k < |chunks| {
      var next := PartialBatch(api, run, k, chunks[k], now);
      PartialBatchStores(api, run, k, chunks[k], now);
      PartialBatchesStore(api, chunks, k + 1, next, now);
    }
  }

  /** Each element of a list lies in one of its batches. */
  lemma {:induction false} InSomeChunk(ids: seq<string>, size: nat, i: nat) returns (j: nat, t: nat)
    requires size > 0 && i < |ids|
    ensures j < |Client.ChunksOf(ids, size)| && t < |Client.ChunksOf(ids, size)[j]|
    ensures Client.ChunksOf(ids, size)[j][t] == ids[i]
    decreases |ids|
  {
    var n := Client.Min(size, |ids|);
    var cs := Client.ChunksOf(ids, size);
    assert cs[0] == ids[..n] && cs[1..] == Client.ChunksOf(ids[n..], size);
    if i < n {
      j, t := 0, i;
    } else {
      var j', t' := InSomeChunk(ids[n..], size, i - n);
      j, t := j' + 1, t';
      assert cs[j] == cs[1..][j'];
    }
  }

  /** After the history is listed, on a working emails table and from a faithful API, every added message that comes back is stored. */
  lemma AfterHistoryStoresAdded(api: GmailApi, s: DbState, records: seq<Client.HistoryRecord>, batchSize: int,
                                historyRequests: seq<HistoryRequest>, now: int, id: string)
    requires s.metaOk && batchSize > 0 && Faithful(api) && s.emailsOk
    requires id in Client.AddedIds(records) && api.message(id).Success?
    ensures id in AfterHistory(api, s, records, batchSize, historyRequests, now).state.emails
  {
    var added := Client.AddedIds(records);
    var ids := Sync.Dedupe(added);
    var i :| 0 <= i < |added| && added[i] == id;
    assert id in ids;
    var p :| 0 <= p < |ids| && ids[p] == id;
    var chunks := Client.ChunksOf(ids, batchSize);
    var j, t := InSomeChunk(ids, batchSize, p);
    var run := Run(s, Started.(totalMessages := |ids|), []);
    PartialBatchesStore(api, chunks, 0, run, now);
  }

  /**
   * A partial sync that lists the history, on a working emails table, from a faithful API:
   * every added message that comes back is stored afterwards, whatever happens after the
   * batches.
   */
  lemma PartialSyncStoresAdded(api: GmailApi, s: DbState, start: Option<string>, options: SyncOptions, today: int, now: int, id: string)
    requires BatchSizeOf(options) > 0 && Faithful(api) && s.emailsOk && s.metaOk
    requires Marker(s, start).Some? && PartialSyncHistory(api, s, start).result.Success?
    requires id in Client.AddedIds(PartialSyncHistory(api, s, start).result.value) && api.message(id).Success?
    ensures id in PartialSync(api, s, start, options, today, now).state.emails
  {
    var h := PartialSyncHistory(api, s, start);
    AfterHistoryStoresAdded(api, InProgress(s, now), h.result.value, BatchSizeOf(options), h.requests, now, id);
  }

  /** With no added message, a partial sync fetches nothing, records the history id and succeeds. */
  lemma PartialSyncNothingAdded(api: GmailApi, s: DbState, start: Option<string>, options: SyncOptions, today: int, now: int)
    requires BatchSizeOf(options) > 0 && s.metaOk
    requires Marker(s, start).Some? && PartialSyncHistory(api, s, start).result.Success?
    requires Client.AddedIds(PartialSyncHistory(api, s, start).result.value) == []
    requires api.profile.Success?
    ensures var r := PartialSync(api, s, start, options, today, now);
      r.result == Success(SyncProgress(0, 0, 0, true, [])) && r.state.emails == s.emails
      && r.listRequests == [] && r.delays == []
      && Existing(r.state).Some? && Existing(r.state).value.lastSyncStatus == SyncSucceeded
      && Existing(r.state).value.lastPartialSyncDate == now
      && (api.profile.value != "" ==> Existing(r.state).value.lastHistoryId == api.profile.value)
  {
    var ids := Sync.Dedupe(Client.AddedIds(PartialSyncHistory(api, s, start).result.value));
    assert ids == [];
  }

  /**
   * A history listing that throws: code 404 falls back to a full sync from the in-progress
   * state, whose result a success keeps; any other error is rethrown after recording it.
   */
  lemma PartialSyncHistoryFails(api: GmailApi, s: DbState, start: Option<string>, options: SyncOptions, today: int, now: int)
    requires BatchSizeOf(options) > 0 && s.metaOk
    requires Marker(s, start).Some? && PartialSyncHistory(api, s, start).result.Failure?
    ensures var r, e := PartialSync(api, s, start, options, today, now), PartialSyncHistory(api, s, start).result.error;
      var full := FullSync(api, InProgress(s, now), options, today, now);
      r.historyRequests == PartialSyncHistory(api, s, start).requests
      && (e.code == Some(404) ==>
           r.listRequests == full.listRequests && r.delays == full.delays
           && (full.result.Success? ==> r.result == full.result && r.state == full.state)
           && (full.result.Failure? ==> r.result.Failure?))
      && (e.code != Some(404) ==>
           r.result == Failure(e) && r.listRequests == [] && r.delays == [] && r.state.emails == s.emails
           && Existing(r.state).Some? && Existing(r.state).value.lastSyncStatus == SyncFailed
           && Existing(r.state).value.lastErrorMessage == Some(PartialPrefix + e.message))
  {
  }

  // ---- GmailSyncService --------------------------------------------------------------------

  class GmailSyncService {
    /** The authorised googleapis client. */
    const api: GmailApi

    constructor (api: GmailApi)
      ensures this.api == api
    {
      this.api := api;
    }

    /** The `subBatch.map(...)` of `fetchMessagesBatch`, filtered: each message fetched and converted, failures dropped. */
    method FetchSubBatch(ids: seq<string>, now: int) returns (emails: seq<ParsedEmail>)
      ensures emails == Fetched(api, ids, now)
    {
      emails := [];
      var j := 0;
      while j < |ids|
        invariant 0 <= j <= |ids|
        invariant emails == Fetched(api, ids[..j], now)
      {
        assert ids[..j + 1][..j] == ids[..j];
        match api.message(ids[j]) {
          case Success(m) => emails := emails + [ConvertGmailMessageToEmail(m, now)];
          case Failure(_) =>
        }
        j := j + 1;
      }
      assert ids[..j] == ids;
    }

    /** `fetchMessagesBatch(messageIds)`: sub-batches of 100, each fetched in turn. */
    method FetchMessagesBatch(ids: seq<string>, now: int) returns (emails: seq<ParsedEmail>)
      ensures emails == Fetched(api, ids, now)
    {
      var subBatches := Client.ChunkArray(ids, SubBatchSize);
      emails := [];
      var done := 0;
      var c := 0;
      while c < |subBatches|
        invariant 0 <= c <= |subBatches|
        invariant done == |Client.Flatten(subBatches[..c])| <= |ids|
        invariant ids[..done] == Client.Flatten(subBatches[..c])
        invariant emails == Fetched(api, ids[..done], now)
      {
        Client.ChunkStep(ids, subBatches, c, done);
        var got := FetchSubBatch(subBatches[c], now);
        FetchedAppend(api, ids[..done], subBatches[c], now);
        emails := emails + got;
        done := done + |subBatches[c]|;
        c := c + 1;
      }
      assert subBatches[..c] == subBatches;
      assert ids[..done] == ids;
    }

    /** The do-while listing loop of `performFullSync`. */
    method ListAllMessageIds(query: string, maxMessages: int) returns (result: Result<seq<string>, Thrown>, requests: seq<ListRequest>)
      ensures Listed(result, requests) == MessageIdListing(query, maxMessages, api.listPages, 0, None, [])
    {
      var allMessageIds: seq<string> := [];
      var nextPageToken: Option<string> := None;
      var k: nat := 0;
      requests := [];
      while true
        invariant MessageIdListing(query, maxMessages, api.listPages, 0, None, [])
          == Prepend(requests, MessageIdListing(query, maxMessages, api.listPages, k, nextPageToken, allMessageIds))
        decreases |api.listPages| - k
      {
        var request := ListRequest(query, Client.Min(PageLimit, maxMessages), nextPageToken);
        requests := requests + [request];
        if k >= |api.listPages| {
          return Failure(NoResponse), requests;
        }
        match api.listPages[k] {
          case Failure(e) =>
            return Failure(e), requests;
          case Success(page) =>
            assert allMessageIds + page.messageIds.GetOr([])
              == if page.messageIds.Some? then allMessageIds + page.messageIds.value else allMessageIds;
            if page.messageIds.Some? {
              allMessageIds := allMessageIds + page.messageIds.value;
              if |allMessageIds| >= maxMessages {
                return Success(SliceTo(allMessageIds, maxMessages)), requests;
              }
            }
            nextPageToken := page.nextPageToken;
            if !(Client.Given(nextPageToken) && |allMessageIds| < maxMessages) {
              return Success(allMessageIds), requests;
            }
            k := k + 1;
        }
      }
    }

    /** The do-while history loop of `performPartialSync`. */
    method ListHistoryRecords(startHistoryId: string) returns (result: Result<seq<Client.HistoryRecord>, Thrown>, requests: seq<HistoryRequest>)
      ensures Listed(result, requests) == HistoryPaging(startHistoryId, api.historyPages, 0, None, [])
    {
      var historyRecords: seq<Client.HistoryRecord> := [];
      var nextPageToken: Option<string> := None;
      var k: nat := 0;
      requests := [];
      while true
        invariant HistoryPaging(startHistoryId, api.historyPages, 0, None, [])
          == Prepend(requests, HistoryPaging(startHistoryId, api.historyPages, k, nextPageToken, historyRecords))
        decreases |api.historyPages| - k
      {
        requests := requests + [HistoryRequest(startHistoryId, nextPageToken)];
        if k >= |api.historyPages| {
          return Failure(NoResponse), requests;
        }
        match api.historyPages[k] {
          case Failure(e) =>
            return Failure(e), requests;
          case Success(page) =>
            historyRecords := historyRecords + page.history.GetOr([]);
            nextPageToken := page.nextPageToken;
            if !Client.Given(nextPageToken) {
              return Success(historyRecords), requests;
            }
            k := k + 1;
        }
      }
    }

    /** The outer `catch`: record the failure, and return the error that escapes. */
    method Catch(db: Database, prefix: string, e: Thrown, now: int) returns (escaped: Thrown)
      modifies db.syncMetadata
      ensures (StateOf(db), escaped) == Caught(old(StateOf(db)), prefix, e, now)
    {
      var err := UpdateSyncStatus(db, SyncFailed, Some(prefix + e.message), now);
      escaped := if err.Some? then Thrown(None, err.value) else e;
    }

    /** The `try` body of one batch on the ids to fetch. */
    method StoreBatch(db: Database, progress: SyncProgress, delays: seq<int>, k: int, ids: seq<string>, now: int, prefix: string)
      returns (p: SyncProgress, d: seq<int>)
      modifies db.emails, db.syncMetadata
      ensures Run(StateOf(db), p, d) == SaveBatch(api, Run(old(StateOf(db)), progress, delays), k, ids, now, prefix)
    {
      p, d := progress, delays;
      var emails := FetchMessagesBatch(ids, now);
      if emails != [] {
        var err := SaveEmailsBatch(db, emails);
        if err.Some? {
          p := p.(errors := p.errors + [prefix + IntToString(k + 1) + " failed: " + err.value]);
          return;
        }
        p := p.(processedMessages := p.processedMessages + |emails|);
        err := IncrementTotalEmailsSynced(db, |emails|, now);
        if err.Some? {
          p := p.(errors := p.errors + [prefix + IntToString(k + 1) + " failed: " + err.value]);
          return;
        }
      }
      d := d + [BatchDelay];
    }

    /** The batch loop of `performFullSync`. */
    method RunFullBatches(db: Database, chunks: seq<seq<string>>, progress: SyncProgress, now: int)
      returns (p: SyncProgress, d: seq<int>)
      modifies db.emails, db.syncMetadata
      ensures Run(StateOf(db), p, d) == FullBatches(api, chunks, 0, Run(old(StateOf(db)), progress, []), now)
    {
      ghost var s0 := StateOf(db);
      p, d := progress, [];
      var k := 0;
      while k < |chunks|
        invariant 0 <= k <= |chunks|
        invariant FullBatches(api, chunks, 0, Run(s0, progress, []), now) == FullBatches(api, chunks, k, Run(StateOf(db), p, d), now)
      {
        p := p.(currentBatch := k + 1);
        p, d := StoreBatch(db, p, d, k, chunks[k], now, "Batch ");
        k := k + 1;
      }
    }

    /** The `emailExists` loop of a partial batch: the ids of `chunk` not stored yet. */
    method NewMessageIds(db: Database, chunk: seq<string>) returns (newIds: seq<string>)
      ensures newIds == Filter(Unstored(StateOf(db)), chunk)
    {
      newIds := [];
      var j := 0;
      while j < |chunk|
        invariant 0 <= j <= |chunk|
        invariant newIds == Filter(Unstored(StateOf(db)), chunk[..j])
      {
        assert chunk[..j + 1][..j] == chunk[..j];
        if !EmailExists(db, chunk[j]) {
          newIds := newIds + [chunk[j]];
        }
        j := j + 1;
      }
      assert chunk[..j] == chunk;
    }

    /** The batch loop of `performPartialSync`. */
    method RunPartialBatches(db: Database, chunks: seq<seq<string>>, progress: SyncProgress, now: int)
      returns (p: SyncProgress, d: seq<int>)
      modifies db.emails, db.syncMetadata
      ensures Run(StateOf(db), p, d) == PartialBatches(api, chunks, 0, Run(old(StateOf(db)), progress, []), now)
    {
      ghost var s0 := StateOf(db);
      p, d := progress, [];
      var k := 0;
      while k < |chunks|
        invariant 0 <= k <= |chunks|
        invariant PartialBatches(api, chunks, 0, Run(s0, progress, []), now) == PartialBatches(api, chunks, k, Run(StateOf(db), p, d), now)
      {
        p, d := PartialBatchStep(db, p, d, k, chunks[k], now);
        k := k + 1;
      }
    }

    /** One batch of `performPartialSync`. */
    method PartialBatchStep(db: Database, progress: SyncProgress, delays: seq<int>, k: int, chunk: seq<string>, now: int)
      returns (p: SyncProgress, d: seq<int>)
      modifies db.emails, db.syncMetadata
      ensures Run(StateOf(db), p, d) == PartialBatch(api, Run(old(StateOf(db)), progress, delays), k, chunk, now)
    {
      p, d := progress.(currentBatch := k + 1), delays;
      var newIds := NewMessageIds(db, chunk);
      if newIds != [] {
        p, d := StoreBatch(db, p, d, k, newIds, now, "Partial sync batch ");
      } else {
        p := p.(processedMessages := p.processedMessages + |chunk|);
        d := d + [BatchDelay];
      }
    }

    /** `performFullSync(options)` on local day `today` at instant `now`. */
    method PerformFullSync(db: Database, options: SyncOptions, today: int, now: int)
      returns (result: Result<SyncProgress, Thrown>, listRequests: seq<ListRequest>, delays: seq<int>)
      requires BatchSizeOf(options) > 0
      modifies db.emails, db.syncMetadata
      ensures SyncRun(StateOf(db), result, [], listRequests, delays) == FullSync(api, old(StateOf(db)), options, today, now)
    {
      listRequests, delays := [], [];
      var err := UpdateSyncStatus(db, SyncInProgress, None, now);
      if err.Some? {
        var escaped := Catch(db, FullPrefix, Thrown(None, err.value), now);
        return Failure(escaped), listRequests, delays;
      }
      var listed;
      listed, listRequests := ListAllMessageIds(FullSyncQuery(today, MonthsOf(options)), MaxMessagesOf(options));
      if listed.Failure? {
        var escaped := Catch(db, FullPrefix, listed.error, now);
        return Failure(escaped), listRequests, delays;
      }
      result, delays := CompleteFullSync(db, listed.value, BatchSizeOf(options), listRequests, now);
    }

    /** `performFullSync` once the ids are listed: the batches, then `markFullSyncComplete`. */
    method CompleteFullSync(db: Database, allMessageIds: seq<string>, batchSize: int, listRequests: seq<ListRequest>, now: int)
      returns (result: Result<SyncProgress, Thrown>, delays: seq<int>)
      requires db.syncMetadata.available && batchSize > 0
      modifies db.emails, db.syncMetadata
      ensures SyncRun(StateOf(db), result, [], listRequests, delays) == AfterListing(api, old(StateOf(db)), allMessageIds, batchSize, listRequests, now)
    {
      var batches := Client.ChunkArray(allMessageIds, batchSize);
      var progress;
      progress, delays := RunFullBatches(db, batches, Started.(totalMessages := |allMessageIds|), now);
      match api.profile {
        case Failure(e) =>
          var escaped := Catch(db, FullPrefix, e, now);
          result := Failure(escaped);
        case Success(currentHistoryId) =>
          var _ := MarkFullSyncComplete(db, currentHistoryId, progress.processedMessages, now);
          result := Success(progress.(isComplete := true));
      }
    }

    /** `return await this.performFullSync(options)` from inside the partial sync's `try`. */
    method FallBackToFullSync(db: Database, options: SyncOptions, today: int, now: int)
      returns (result: Result<SyncProgress, Thrown>, listRequests: seq<ListRequest>, delays: seq<int>)
      requires BatchSizeOf(options) > 0
      modifies db.emails, db.syncMetadata
      ensures SyncRun(StateOf(db), result, [], listRequests, delays) == ViaFull(FullSync(api, old(StateOf(db)), options, today, now), [], now)
    {
      result, listRequests, delays := PerformFullSync(db, options, today, now);
      if result.Failure? {
        var escaped := Catch(db, PartialPrefix, result.error, now);
        result := Failure(escaped);
      }
    }

    /** `performPartialSync(startHistoryId, options)` on local day `today` at instant `now`. */
    method PerformPartialSync(db: Database, startHistoryId: Option<string>, options: SyncOptions, today: int, now: int)
      returns (result: Result<SyncProgress, Thrown>, historyRequests: seq<HistoryRequest>, listRequests: seq<ListRequest>, delays: seq<int>)
      requires BatchSizeOf(options) > 0
      modifies db.emails, db.syncMetadata
      ensures SyncRun(StateOf(db), result, historyRequests, listRequests, delays)
        == PartialSync(api, old(StateOf(db)), startHistoryId, options, today, now)
    {
      historyRequests, listRequests, delays := [], [], [];
      var historyId := if Client.Given(startHistoryId) then startHistoryId else GetLastHistoryId(db);
      if historyId.None? {
        result, listRequests, delays := FallBackToFullSync(db, options, today, now);
        return;
      }
      var err := UpdateSyncStatus(db, SyncInProgress, None, now);
      if err.Some? {
        var escaped := Catch(db, PartialPrefix, Thrown(None, err.value), now);
        return Failure(escaped), historyRequests, listRequests, delays;
      }
      var records;
      records, historyRequests := ListHistoryRecords(historyId.value);
      if records.Failure? {
        if records.error.code == Some(404) {
          result, listRequests, delays := FallBackToFullSync(db, options, today, now);
        } else {
          var escaped := Catch(db, PartialPrefix, records.error, now);
          result := Failure(escaped);
        }
        return;
      }
      result, delays := ProcessHistory(db, records.value, BatchSizeOf(options), historyRequests, now);
    }

    /** The partial sync once the history is listed. */
    method ProcessHistory(db: Database, records: seq<Client.HistoryRecord>, batchSize: int, historyRequests: seq<HistoryRequest>, now: int)
      returns (result: Result<SyncProgress, Thrown>, delays: seq<int>)
      requires db.syncMetadata.available && batchSize > 0
      modifies db.emails, db.syncMetadata
      ensures SyncRun(StateOf(db), result, historyRequests, [], delays) == AfterHistory(api, old(StateOf(db)), records, batchSize, historyRequests, now)
    {
      var added := Client.CollectAddedIds(records);
      var uniqueMessageIds := Sync.Dedupe(added);
      var progress := Started.(totalMessages := |uniqueMessageIds|);
      delays := [];
      if uniqueMessageIds != [] {
        var batches := Client.ChunkArray(uniqueMessageIds, batchSize);
        progress, delays := RunPartialBatches(db, batches, progress, now);
      }
      result := FinishPartialSync(db, progress, delays, historyRequests, now);
    }

    /** The end of `performPartialSync`: record the current history id, then status success. */
    method FinishPartialSync(db: Database, progress: SyncProgress, delays: seq<int>, historyRequests: seq<HistoryRequest>, now: int)
      returns (result: Result<SyncProgress, Thrown>)
      requires db.syncMetadata.available
      modifies db.syncMetadata
      ensures SyncRun(StateOf(db), result, historyRequests, [], delays) == Finish(api, Run(old(StateOf(db)), progress, delays), historyRequests, now)
    {
      match api.profile {
        case Failure(e) =>
          var escaped := Catch(db, PartialPrefix, e, now);
          result := Failure(escaped);
        case Success(currentHistoryId) =>
          var _ := UpdateLastHistoryId(db, currentHistoryId, now);
          var _ := UpdateSyncStatus(db, SyncSucceeded, None, now);
          result := Success(progress.(isComplete := true));
      }
    }
  }

  /** `syncEmails(authConfig, options)`: a full sync when `shouldPerformFullSync` says so, otherwise a partial one. */
  method SyncEmails(api: GmailApi, db: Database, options: SyncOptions, today: int, now: int)
    returns (result: Result<SyncProgress, Thrown>, historyRequests: seq<HistoryRequest>, listRequests: seq<ListRequest>, delays: seq<int>)
    requires BatchSizeOf(options) > 0
    modifies db.emails, db.syncMetadata
    ensures var s := old(StateOf(db));
      SyncRun(StateOf(db), result, historyRequests, listRequests, delays)
        == if ShouldPerformFullSync(s, now) then FullSync(api, s, options, today, now) else PartialSync(api, s, None, options, today, now)
  {
    var service := new GmailSyncService(api);
    if ShouldPerformFullSync(StateOf(db), now) {
      historyRequests := [];
      result, listRequests, delays := service.PerformFullSync(db, options, today, now);
    } else {
      result, historyRequests, listRequests, delays := service.PerformPartialSync(db, None, options, today, now);
    }
  }
}
