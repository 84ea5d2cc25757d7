/**
 * The function-pipeline sync orchestrator (lib/gmail/sync.ts). The email table is a map
 * from message id to stored record; the persisted cursor is a value of the local-storage
 * slot that `loadSyncState` reads and `saveSyncState` writes. Each operation takes both and
 * returns their new values, together with the error it throws, if any, and the progress
 * it reports. The Gmail server is an oracle (`Remote`); "today" is a local day number and
 * "now" an instant in milliseconds.
 */
module Sync {
  import opened Wrappers
  import opened Text
  import opened Email
  import opened Client
  import opened Tables
  import Parser
  import Dates

  const BatchSize: nat := 20
  const DaysPerWindow: nat := 30

  type Store = map<string, StoredEmail>

  datatype Phase = Listing | Fetching | Storing

  datatype SyncProgress = SyncProgress(phase: Phase, current: int, total: int)

  /**
   * What the server answers: the responses to successive `listMessages` calls of a listing,
   * to successive `listHistory` calls, to `getMessage` of each id, and to the two calls that
   * fetch the newest history id.
   */
  datatype Remote = Remote(
    listPages: seq<seq<Response<ListMessagesResponse>>>,
    historyPages: seq<seq<Response<ListHistoryResponse>>>,
    messages: string -> seq<Response<GmailMessage>>,
    latestList: seq<Response<ListMessagesResponse>>,
    latestMessage: seq<Response<GmailMessage>>)

  /** The responses to call number `k`: none at all once the oracle has run out. */
  function PageResponses<T>(pages: seq<seq<Response<T>>>, k: nat): seq<Response<T>> {
    if k < |pages| then pages[k] else []
  }

  // ---- The persisted cursor ---------------------------------------------------------------

  /**
   * PersistedSyncState. `oldestFetchedDate` is the local day whose midnight was stored;
   * `lastSyncedAt` an instant.
   */
  datatype SyncState = SyncState(
    latestHistoryId: Option<string>,
    oldestFetchedDate: Option<int>,
    totalFetched: Option<int>,
    lastSyncedAt: Option<int>)

  /** The local-storage slot: nothing stored, a value that cannot be read or parsed, or a state. */
  datatype Slot = Empty | Unreadable | Holds(state: SyncState)

  const DefaultState: SyncState := SyncState(None, None, Some(0), None)

  /** `loadSyncState`: the stored state, or `{totalFetched: 0}` when there is none or it is unreadable. */
  function LoadSyncState(slot: Slot): (s: SyncState)
    ensures slot.Holds? ==> s == slot.state
    ensures !slot.Holds? ==> s.latestHistoryId.None? && s.oldestFetchedDate.None? && s.totalFetched == Some(0)
  {
    if slot.Holds? then slot.state else DefaultState
  }

  /** `state.totalFetched || 0`. */
  function TotalOf(s: SyncState): int {
    s.totalFetched.GetOr(0)
  }

  /** `hasSyncedBefore`: the stored state has a non-empty history id. */
  function HasSyncedBefore(slot: Slot): (b: bool)
    ensures b <==> slot.Holds? && Given(slot.state.latestHistoryId)
  {
    Given(LoadSyncState(slot).latestHistoryId)
  }

  // ---- filterNewIds -----------------------------------------------------------------------

  /** The ids not yet in the store, in their order and with their repetitions. */
  function FilterNewIds(ids: seq<string>, store: Store): (r: seq<string>)
    ensures |r| <= |ids|
    ensures forall k :: 0 <= k < |r| ==> r[k] !in store && r[k] in ids
    ensures forall k :: 0 <= k < |ids| ==> ids[k] in store || ids[k] in r
    decreases |ids|
  {
    if ids == [] then []
    else
      var init := FilterNewIds(ids[..|ids| - 1], store);
      var last := ids[|ids| - 1];
      assert forall k :: 0 <= k < |ids| - 1 ==> ids[..|ids| - 1][k] == ids[k];
      if last in store then init else init + [last]
  }

  lemma {:induction false} FilterNewIdsAppend(a: seq<string>, b: seq<string>, store: Store)
    ensures FilterNewIds(a + b, store) == FilterNewIds(a, store) + FilterNewIds(b, store)
    decreases |b|
  {
    if b == [] {
      assert a + b == a;
    } else {
      assert (a + b)[..|a + b| - 1] == a + b[..|b| - 1];
      FilterNewIdsAppend(a, b[..|b| - 1], store);
    }
  }

  /** Ids none of which is stored pass unchanged, repetitions included. */
  lemma {:induction false} FilterNewIdsOfNew(ids: seq<string>, store: Store)
    requires forall k :: 0 <= k < |ids| ==> ids[k] !in store
    ensures FilterNewIds(ids, store) == ids
    decreases |ids|
  {
    if ids != [] {
      FilterNewIdsOfNew(ids[..|ids| - 1], store);
    }
  }

  // ---- The email table ----------------------------------------------------------------------

  function EmailId(e: StoredEmail): string { e.id }

  /** The Dexie `emails` table as the sync pipeline writes it. */
  class EmailTable {
    var rows: Store

    constructor (rows: Store)
      ensures this.rows == rows
    {
      this.rows := rows;
    }

    /** `bulkPut`: each record is written under its id, a later one replacing an earlier one. */
    method BulkPut(emails: seq<StoredEmail>)
      modifies this
      ensures rows == PutAll(old(rows), emails, EmailId)
    {
      rows := PutAll(rows, emails, EmailId);
    }
  }

  /** The local-storage entry holding the cursor. */
  class SyncStorage {
    var slot: Slot

    constructor (slot: Slot)
      ensures this.slot == slot
    {
      this.slot := slot;
    }

    /** `saveSyncState`. */
    method Save(s: SyncState)
      modifies this
      ensures slot == Holds(s)
    {
      slot := Holds(s);
    }
  }

  /** The stored records of a batch of messages, in order. */
  function ParseAll(msgs: seq<GmailMessage>): (r: seq<StoredEmail>)
    ensures |r| == |msgs|
  {
    Tables.Map(Parser.ParseGmailMessage, msgs)
  }

  /** The records `fetchAndStore` writes for `ids`: the messages that came back, parsed. */
  function FetchedEmails(ids: seq<string>, server: string -> seq<Response<GmailMessage>>): seq<StoredEmail> {
    ParseAll(Successes(MessageOutcomes(ids, server)))
  }

  lemma FetchedEmailsAppend(a: seq<string>, b: seq<string>, server: string -> seq<Response<GmailMessage>>)
    ensures FetchedEmails(a + b, server) == FetchedEmails(a, server) + FetchedEmails(b, server)
  {
    MessageOutcomesAppend(a, b, server);
    SuccessesAppend(MessageOutcomes(a, server), MessageOutcomes(b, server));
    Tables.MapAppend(Parser.ParseGmailMessage, Successes(MessageOutcomes(a, server)), Successes(MessageOutcomes(b, server)));
  }

  /** Writing the batches one after another writes what writing all the ids at once does. */
  lemma BatchStep(store: Store, ids: seq<string>, i: nat, end: nat, server: string -> seq<Response<GmailMessage>>)
    requires i <= end <= |ids|
    ensures PutAll(PutAll(store, FetchedEmails(ids[..i], server), EmailId), FetchedEmails(ids[i..end], server), EmailId)
      == PutAll(store, FetchedEmails(ids[..end], server), EmailId)
    ensures |FetchedEmails(ids[..end], server)| == |FetchedEmails(ids[..i], server)| + |FetchedEmails(ids[i..end], server)|
  {
    assert ids[..end] == ids[..i] + ids[i..end];
    FetchedEmailsAppend(ids[..i], ids[i..end], server);
    PutAllAppend(store, FetchedEmails(ids[..i], server), FetchedEmails(ids[i..end], server), EmailId);
  }

  // ---- fetchAndStore ------------------------------------------------------------------------

  /** The progress reports of the batches starting at `i`: fetching, then storing. */
  function BatchEvents(i: nat, total: nat): seq<SyncProgress>
    decreases total - i
  {
    if i >= total then []
    else [SyncProgress(Fetching, i, total), SyncProgress(Storing, i, total)] + BatchEvents(i + BatchSize, total)
  }

  lemma Associative<T>(a: seq<T>, b: seq<T>, c: seq<T>)
    ensures (a + b) + c == a + (b + c)
  {
  }

  lemma BatchEventsStep(i: nat, end: nat, total: nat)
    requires i < total && end == Min(i + BatchSize, total)
    ensures BatchEvents(i, total) == [SyncProgress(Fetching, i, total), SyncProgress(Storing, i, total)] + BatchEvents(end, total)
  {
  }

  /** One batch of `fetchAndStore`: fetch the messages, parse them and write them. */
  method StoreBatch(table: EmailTable, batchIds: seq<string>, server: string -> seq<Response<GmailMessage>>)
    returns (n: nat)
    modifies table
    ensures table.rows == PutAll(old(table.rows), FetchedEmails(batchIds, server), EmailId)
    ensures n == |FetchedEmails(batchIds, server)|
  {
    var messages, _ := BatchGetMessages(batchIds, server);
    var parsed := ParseAll(messages);
    table.BulkPut(parsed);
    n := |parsed|;
  }

  /**
   * `fetchAndStore`: the ids in batches of 20, each batch fetched and its messages parsed and
   * written; the number written is returned. A batch reports "fetching" before its fetch and
   * "storing" after it; both reports are recorded together.
   */
  method FetchAndStore(table: EmailTable, ids: seq<string>, server: string -> seq<Response<GmailMessage>>)
    returns (stored: nat, progress: seq<SyncProgress>)
    modifies table
    ensures table.rows == PutAll(old(table.rows), FetchedEmails(ids, server), EmailId)
    ensures stored == |FetchedEmails(ids, server)|
    ensures progress == StoreProgress(|ids|)
  {
    ghost var start := table.rows;
    stored := 0;
    progress := [];
    var total := |ids|;
    var i := 0;
    while i < total
      invariant i <= total
      invariant table.rows == PutAll(start, FetchedEmails(ids[..i], server), EmailId)
      invariant stored == |FetchedEmails(ids[..i], server)|
      invariant progress + BatchEvents(i, total) == BatchEvents(0, total)
      decreases total - i
    {
      var end := Min(i + BatchSize, total);
      var batchIds := ids[i..end];
      var n := StoreBatch(table, batchIds, server);
      BatchStep(start, ids, i, end, server);
      stored := stored + n;
      BatchEventsStep(i, end, total);
      var events := [SyncProgress(Fetching, i, total), SyncProgress(Storing, i, total)];
      Associative(progress, events, BatchEvents(end, total));
      progress := progress + events;
      i := end;
    }
    assert ids[..i] == ids;
    progress := progress + [SyncProgress(Storing, total, total)];
  }

  /** The progress `fetchAndStore` reports for `n` ids. */
  function StoreProgress(n: nat): seq<SyncProgress> {
    BatchEvents(0, n) + [SyncProgress(Storing, n, n)]
  }

  // ---- Listing ------------------------------------------------------------------------------

  function IdsOf(refs: seq<MessageRef>): (ids: seq<string>)
    ensures |ids| == |refs|
  {
    seq(|refs|, k requires 0 <= k < |refs| => refs[k].id)
  }

  /** A listing, or its failure, with the requests it sent and the progress it reported. */
  datatype Paged<R> = Paged(result: Result<R, ApiError>, requests: seq<Request>, progress: seq<SyncProgress>)

  /** A listing preceded by calls that sent `requests` and reported `progress`. */
  function After<R>(requests: seq<Request>, progress: seq<SyncProgress>, l: Paged<R>): Paged<R> {
    Paged(l.result, requests + l.requests, progress + l.progress)
  }

  /**
   * The `listMessages` loop from call `k` on, holding `pageToken`, with `found` ids collected
   * so far: it pages until a page has no next-page token, or a call fails.
   */
  function MessageListing(query: string, pages: seq<seq<Response<ListMessagesResponse>>>, k: nat,
                          pageToken: Option<string>, found: seq<string>): Paged<seq<string>>
    decreases |pages| - k
  {
    var req := ListMessagesRequest(query, pageToken, 100);
    var ev := SyncProgress(Listing, |found|, 0);
    match Outcome(PageResponses(pages, k), MessagePageOf)
    case Failure(e) => Paged(Failure(e), [req], [ev])
    case Success(page) =>
      var found' := found + IdsOf(page.messages);
      if !Given(page.nextPageToken) || k >= |pages| then Paged(Success(found'), [req], [ev])
      else
        var rest := MessageListing(query, pages, k + 1, page.nextPageToken, found');
        Paged(rest.result, [req] + rest.requests, [ev] + rest.progress)
  }

  /** With no responses left a call fails, so the listing cannot run past the oracle. */
  lemma NoResponsesFail<T, U>(f: T -> U)
    ensures Outcome([], f) == Failure(FetchRejected)
  {
  }

  /** A `messages.list` request for `query`. */
  predicate IsListingRequest(req: Request, query: string) {
    req.path == "/messages" && |req.params| >= 1 && req.params[0] == ("q", query)
  }

  /**
   * The requests of a listing: the first carries the page token it started from, every one
   * carries the query, and the ids found before are a prefix of the ids returned.
   */
  lemma {:induction false} MessageListingRequests(query: string, pages: seq<seq<Response<ListMessagesResponse>>>, k: nat,
                                                  pageToken: Option<string>, found: seq<string>)
    ensures var l := MessageListing(query, pages, k, pageToken, found);
      |l.requests| >= 1 && l.requests[0] == ListMessagesRequest(query, pageToken, 100)
      && (forall j :: 0 <= j < |l.requests| ==> IsListingRequest(l.requests[j], query))
      && (l.result.Success? ==> found <= l.result.value)
    decreases |pages| - k
  {
    match Outcome(PageResponses(pages, k), MessagePageOf)
    case Failure(e) =>
    case Success(page) =>
      var found' := found + IdsOf(page.messages);
      if Given(page.nextPageToken) && k < |pages| {
        MessageListingRequests(query, pages, k + 1, page.nextPageToken, found');
      }
  }

  /**
   * One call of the listing loop, seen from a loop that has already made `requests` and
   * reported `progress`: the call adds its request and event, and either ends the listing or
   * hands over to the next call.
   */
  lemma {:induction false} MessageListingCall(query: string, pages: seq<seq<Response<ListMessagesResponse>>>, k: nat,
                                              pageToken: Option<string>, found: seq<string>,
                                              requests: seq<Request>, progress: seq<SyncProgress>,
                                              outcome: Result<MessagePage, ApiError>)
    requires outcome == Outcome(PageResponses(pages, k), MessagePageOf)
    ensures var l := After(requests, progress, MessageListing(query, pages, k, pageToken, found));
      var requests' := requests + [ListMessagesRequest(query, pageToken, 100)];
      var progress' := progress + [SyncProgress(Listing, |found|, 0)];
      match outcome
      case Failure(e) => l == Paged(Failure(e), requests', progress')
      case Success(page) =>
        var found' := found + IdsOf(page.messages);
        if Given(page.nextPageToken) then
          l == After(requests', progress', MessageListing(query, pages, k + 1, page.nextPageToken, found'))
        else l == Paged(Success(found'), requests', progress')
  {
    var req, ev := ListMessagesRequest(query, pageToken, 100), SyncProgress(Listing, |found|, 0);
    if outcome.Success? && Given(outcome.value.nextPageToken) {
      assert k < |pages|;
      var next := MessageListing(query, pages, k + 1, outcome.value.nextPageToken, found + IdsOf(outcome.value.messages));
      assert requests + ([req] + next.requests) == (requests + [req]) + next.requests;
      assert progress + ([ev] + next.progress) == (progress + [ev]) + next.progress;
    }
  }

  /** The listing loop of `initialSync` and `loadOlderEmails`. */
  method ListMessageIds(query: string, pages: seq<seq<Response<ListMessagesResponse>>>)
    returns (r: Result<seq<string>, ApiError>, requests: seq<Request>, progress: seq<SyncProgress>)
    ensures Paged(r, requests, progress) == MessageListing(query, pages, 0, None, [])
  {
    var allIds: seq<string> := [];
    var pageToken: Option<string> := None;
    var k: nat := 0;
    requests, progress := [], [];
    while true
      invariant MessageListing(query, pages, 0, None, []) == After(requests, progress, MessageListing(query, pages, k, pageToken, allIds))
      decreases |pages| - k
    {
      var req, page, _ := ListMessages(query, pageToken, 100, PageResponses(pages, k));
      MessageListingCall(query, pages, k, pageToken, allIds, requests, progress, page);
      requests, progress := requests + [req], progress + [SyncProgress(Listing, |allIds|, 0)];
      if page.Failure? {
        return Failure(page.error), requests, progress;
      }
      var found := allIds + IdsOf(page.value.messages);
      if !Given(page.value.nextPageToken) {
        return Success(found), requests, progress;
      }
      NoResponsesFail(MessagePageOf);
      allIds, pageToken, k := found, page.value.nextPageToken, k + 1;
    }
  }

  /**
   * The `listHistory` loop of `incrementalSync` from call `k` on: the added ids of every page
   * in order, and the history id of the last page.
   */
  function HistoryListing(start: string, pages: seq<seq<Response<ListHistoryResponse>>>, k: nat,
                          pageToken: Option<string>, found: seq<string>): Paged<(seq<string>, string)>
    decreases |pages| - k
  {
    var req := ListHistoryRequest(start, pageToken);
    var ev := SyncProgress(Listing, |found|, 0);
    match Outcome(PageResponses(pages, k), HistoryPageOf)
    case Failure(e) => Paged(Failure(e), [req], [ev])
    case Success(page) =>
      var found' := found + page.messageIds;
      if !Given(page.nextPageToken) || k >= |pages| then Paged(Success((found', page.historyId)), [req], [ev])
      else
        var rest := HistoryListing(start, pages, k + 1, page.nextPageToken, found');
        Paged(rest.result, [req] + rest.requests, [ev] + rest.progress)
  }

  /** Every request of the history loop starts from the same history id. */
  lemma {:induction false} HistoryListingRequests(start: string, pages: seq<seq<Response<ListHistoryResponse>>>, k: nat,
                                                  pageToken: Option<string>, found: seq<string>)
    ensures var l := HistoryListing(start, pages, k, pageToken, found);
      |l.requests| >= 1 && l.requests[0] == ListHistoryRequest(start, pageToken)
      && (forall j :: 0 <= j < |l.requests| ==> ("startHistoryId", start) in l.requests[j].params)
      && (l.result.Success? ==> found <= l.result.value.0)
    decreases |pages| - k
  {
    match Outcome(PageResponses(pages, k), HistoryPageOf)
    case Failure(e) =>
    case Success(page) =>
      if Given(page.nextPageToken) && k < |pages| {
        HistoryListingRequests(start, pages, k + 1, page.nextPageToken, found + page.messageIds);
      }
  }

  /** One call of the history loop, as `MessageListingCall` states it for the listing loop. */
  lemma {:induction false} HistoryListingCall(start: string, pages: seq<seq<Response<ListHistoryResponse>>>, k: nat,
                                              pageToken: Option<string>, found: seq<string>,
                                              requests: seq<Request>, progress: seq<SyncProgress>,
                                              outcome: Result<HistoryPage, ApiError>)
    requires outcome == Outcome(PageResponses(pages, k), HistoryPageOf)
    ensures var l := After(requests, progress, HistoryListing(start, pages, k, pageToken, found));
      var requests' := requests + [ListHistoryRequest(start, pageToken)];
      var progress' := progress + [SyncProgress(Listing, |found|, 0)];
      match outcome
      case Failure(e) => l == Paged(Failure(e), requests', progress')
      case Success(page) =>
        var found' := found + page.messageIds;
        if Given(page.nextPageToken) then
          l == After(requests', progress', HistoryListing(start, pages, k + 1, page.nextPageToken, found'))
        else l == Paged(Success((found', page.historyId)), requests', progress')
  {
    var req, ev := ListHistoryRequest(start, pageToken), SyncProgress(Listing, |found|, 0);
    if outcome.Success? && Given(outcome.value.nextPageToken) {
      assert k < |pages|;
      var next := HistoryListing(start, pages, k + 1, outcome.value.nextPageToken, found + outcome.value.messageIds);
      assert requests + ([req] + next.requests) == (requests + [req]) + next.requests;
      assert progress + ([ev] + next.progress) == (progress + [ev]) + next.progress;
    }
  }

  method ListHistoryIds(start: string, pages: seq<seq<Response<ListHistoryResponse>>>)
    returns (r: Result<(seq<string>, string), ApiError>, requests: seq<Request>, progress: seq<SyncProgress>)
    ensures Paged(r, requests, progress) == HistoryListing(start, pages, 0, None, [])
  {
    var allIds: seq<string> := [];
    var pageToken: Option<string> := None;
    var k: nat := 0;
    requests, progress := [], [];
    while true
      invariant HistoryListing(start, pages, 0, None, []) == After(requests, progress, HistoryListing(start, pages, k, pageToken, allIds))
      decreases |pages| - k
    {
      var req, page, _ := ListHistory(start, pageToken, PageResponses(pages, k));
      HistoryListingCall(start, pages, k, pageToken, allIds, requests, progress, page);
      requests, progress := requests + [req], progress + [SyncProgress(Listing, |allIds|, 0)];
      if page.Failure? {
        return Failure(page.error), requests, progress;
      }
      var found := allIds + page.value.messageIds;
      if !Given(page.value.nextPageToken) {
        return Success((found, page.value.historyId)), requests, progress;
      }
      NoResponsesFail(HistoryPageOf);
      allIds, pageToken, k := found, page.value.nextPageToken, k + 1;
    }
  }

  /** `[...new Set(ids)]`: every id once, in the order of first occurrence. */
  function Dedupe(ids: seq<string>): (r: seq<string>)
    ensures |r| <= |ids|
    ensures forall k :: 0 <= k < |r| ==> r[k] in ids
    ensures forall k :: 0 <= k < |ids| ==> ids[k] in r
    ensures Distinct(r)
    decreases |ids|
  {
    if ids == [] then []
    else
      var init := Dedupe(ids[..|ids| - 1]);
      var last := ids[|ids| - 1];
      assert forall k :: 0 <= k < |ids| - 1 ==> ids[..|ids| - 1][k] == ids[k];
      if last in init then init else init + [last]
  }

  predicate Distinct(s: seq<string>) {
    forall i, j :: 0 <= i < j < |s| ==> s[i] != s[j]
  }

  /** The position of the first occurrence of `x` in `ids`. */
  function FirstIndex(ids: seq<string>, x: string): (k: nat)
    requires x in ids
    ensures k < |ids| && ids[k] == x
    decreases |ids|
  {
    if ids[0] == x then 0 else 1 + FirstIndex(ids[1..], x)
  }

  /** No earlier position holds `x`. */
  lemma {:induction false} FirstIndexIsFirst(ids: seq<string>, x: string, j: nat)
    requires x in ids && j < FirstIndex(ids, x)
    ensures ids[j] != x
    decreases |ids|
  {
    if j > 0 {
      FirstIndexIsFirst(ids[1..], x, j - 1);
    }
  }

  /** An id occurring in a prefix occurs first where it first occurs in that prefix. */
  lemma FirstIndexOfPrefix(ids: seq<string>, n: nat, x: string)
    requires n <= |ids| && x in ids[..n]
    ensures FirstIndex(ids, x) == FirstIndex(ids[..n], x)
  {
    var a, b := FirstIndex(ids, x), FirstIndex(ids[..n], x);
    assert ids[b] == x;
    if b < a {
      FirstIndexIsFirst(ids, x, b);
    }
    assert ids[..n][a] == x;
    if a < b {
      FirstIndexIsFirst(ids[..n], x, a);
    }
  }

  /** `[...new Set(ids)]` lists the ids in the order of their first occurrences. */
  lemma {:induction false} DedupeKeepsFirstOrder(ids: seq<string>)
    ensures forall i, j :: 0 <= i < j < |Dedupe(ids)| ==> FirstIndex(ids, Dedupe(ids)[i]) < FirstIndex(ids, Dedupe(ids)[j])
    decreases |ids|
  {
    if ids != [] {
      var n := |ids| - 1;
      var d := Dedupe(ids[..n]);
      DedupeKeepsFirstOrder(ids[..n]);
      assert forall k :: 0 <= k < n ==> ids[..n][k] == ids[k];
      PrefixOrderKept(ids, n, d);
      if ids[n] !in d {
        NewLastComesLast(ids, n, d);
        AppendLast(ids, d, n);
      }
    }
  }

  /** Ids of a prefix, listed in the order of their first occurrences there, are in that order in the whole list. */
  lemma PrefixOrderKept(ids: seq<string>, n: nat, d: seq<string>)
    requires n <= |ids|
    requires forall k :: 0 <= k < |d| ==> d[k] in ids[..n]
    requires forall i, j :: 0 <= i < j < |d| ==> FirstIndex(ids[..n], d[i]) < FirstIndex(ids[..n], d[j])
    ensures forall k :: 0 <= k < |d| ==> d[k] in ids && FirstIndex(ids, d[k]) < n
    ensures forall i, j :: 0 <= i < j < |d| ==> FirstIndex(ids, d[i]) < FirstIndex(ids, d[j])
  {
    PrefixFirstIndices(ids, n, d);
  }

  /** A list in first-occurrence order, followed by an id that first occurs after all of them. */
  lemma AppendLast(ids: seq<string>, d: seq<string>, n: nat)
    requires n < |ids| && ids[n] in ids && FirstIndex(ids, ids[n]) == n
    requires forall k :: 0 <= k < |d| ==> d[k] in ids && FirstIndex(ids, d[k]) < n
    requires forall i, j :: 0 <= i < j < |d| ==> FirstIndex(ids, d[i]) < FirstIndex(ids, d[j])
    ensures forall i, j :: 0 <= i < j < |d| + 1 ==> FirstIndex(ids, (d + [ids[n]])[i]) < FirstIndex(ids, (d + [ids[n]])[j])
  {
    var r := d + [ids[n]];
    forall i, j | 0 <= i < j < |r| ensures FirstIndex(ids, r[i]) < FirstIndex(ids, r[j]) {
      assert r[i] == d[i];
      if j < |d| {
        assert r[j] == d[j];
      } else {
        assert r[j] == ids[n];
      }
    }
  }

  /** Ids of a prefix keep their first positions in the whole list. */
  lemma PrefixFirstIndices(ids: seq<string>, n: nat, d: seq<string>)
    requires n <= |ids|
    requires forall k :: 0 <= k < |d| ==> d[k] in ids[..n]
    ensures forall k :: 0 <= k < |d| ==> d[k] in ids && FirstIndex(ids, d[k]) == FirstIndex(ids[..n], d[k]) < n
  {
    forall k | 0 <= k < |d| ensures d[k] in ids && FirstIndex(ids, d[k]) == FirstIndex(ids[..n], d[k]) < n {
      var m := FirstIndex(ids[..n], d[k]);
      assert ids[m] == d[k];
      FirstIndexOfPrefix(ids, n, d[k]);
    }
  }

  /** An id not met before its last position first occurs there. */
  lemma NewLastComesLast(ids: seq<string>, n: nat, d: seq<string>)
    requires n + 1 == |ids|
    requires forall k :: 0 <= k < n ==> ids[k] in d
    requires ids[n] !in d
    ensures FirstIndex(ids, ids[n]) == n
  {
    assert forall k :: 0 <= k < n ==> ids[k] != ids[n];
  }

  /** Ids without repetitions keep their order. */
  lemma {:induction false} DedupeOfDistinct(ids: seq<string>)
    requires Distinct(ids)
    ensures Dedupe(ids) == ids
    decreases |ids|
  {
    if ids != [] {
      var init := ids[..|ids| - 1];
      assert Distinct(init);
      DedupeOfDistinct(init);
      assert ids[|ids| - 1] !in init;
    }
  }

  // ---- fetchLatestHistoryId -----------------------------------------------------------------

  /** The newest message's history id, `None` for an empty mailbox. */
  function LatestHistoryId(remote: Remote): Result<Option<string>, ApiError> {
    match Outcome(remote.latestList, MessagePageOf)
    case Failure(e) => Failure(e)
    case Success(page) =>
      if page.messages == [] then Success(None)
      else
        match Outcome(remote.latestMessage, Identity)
        case Failure(e) => Failure(e)
        case Success(msg) => Success(Some(msg.historyId))
  }

  /**
   * `fetchLatestHistoryId`: list one message of the whole mailbox and fetch it in the minimal
   * format.
   */
  method FetchLatestHistoryId(remote: Remote) returns (r: Result<Option<string>, ApiError>, requests: seq<Request>)
    ensures r == LatestHistoryId(remote)
    ensures |requests| >= 1 && requests[0] == ListMessagesRequest("", None, 1)
    ensures var l := Outcome(remote.latestList, MessagePageOf);
      if l.Success? && l.value.messages != [] then requests == [requests[0], GetMessageRequest(l.value.messages[0].id, Minimal)]
      else requests == [requests[0]]
  {
    var req, page, _ := ListMessages("", None, 1, remote.latestList);
    requests := [req];
    if page.Failure? {
      return Failure(page.error), requests;
    }
    if page.value.messages == [] {
      return Success(None), requests;
    }
    var req2, msg, _ := GetMessage(page.value.messages[0].id, Minimal, remote.latestMessage);
    requests := requests + [req2];
    if msg.Failure? {
      return Failure(msg.error), requests;
    }
    return Success(Some(msg.value.historyId)), requests;
  }

  // ---- The three sync operations ---------------------------------------------------------------

  /** The search query of the first window: mail after the day 30 days before `today`. */
  function InitialQuery(today: int): string {
    "after:" + Dates.FormatGmailDate(today - DaysPerWindow)
  }

  /** The cursor `initialSync` saves. */
  function AfterInitial(s: SyncState, historyId: Option<string>, since: int, stored: nat, now: int): (t: SyncState)
    ensures historyId.Some? ==> t.latestHistoryId == historyId
    ensures historyId.None? ==> t.latestHistoryId == s.latestHistoryId
    ensures t.oldestFetchedDate == Some(since) && t.lastSyncedAt == Some(now)
    ensures t.totalFetched == Some(TotalOf(s) + stored)
  {
    s.(latestHistoryId := if historyId.Some? then historyId else s.latestHistoryId,
       oldestFetchedDate := Some(since),
       totalFetched := Some(TotalOf(s) + stored),
       lastSyncedAt := Some(now))
  }

  /**
   * What `initialSync` leaves behind, from the rows and slot before it: the rows, the slot,
   * the error and the progress events, for each way the listing and the profile call end.
   */
  predicate InitialSyncOutcome(rows0: Store, slot0: Slot, today: int, now: int, remote: Remote,
                               rows: Store, slot: Slot, error: Option<ApiError>, progress: seq<SyncProgress>)
  {
    var l := MessageListing(InitialQuery(today), remote.listPages, 0, None, []);
    if l.result.Failure? then
      rows == rows0 && slot == slot0 && error == Some(l.result.error) && progress == l.progress
    else
      var newIds := FilterNewIds(l.result.value, rows0);
      var written := FetchedEmails(newIds, remote.messages);
      rows == PutAll(rows0, written, EmailId)
      && progress == l.progress + StoreProgress(|newIds|)
      && match LatestHistoryId(remote)
         case Failure(e) => error == Some(e) && slot == slot0
         case Success(h) =>
           error.None? && slot == Holds(AfterInitial(LoadSyncState(slot0), h, today - DaysPerWindow, |written|, now))
  }

  /**
   * `initialSync`: list the ids of the last 30 days, fetch and store those not yet stored,
   * then record the newest history id, the window start, the new total and the time. A
   * failure of the listing changes nothing; a failure after the fetch keeps the stored mail
   * but leaves the cursor as it was.
   */
  method InitialSync(table: EmailTable, storage: SyncStorage, today: int, now: int, remote: Remote)
    returns (error: Option<ApiError>, progress: seq<SyncProgress>)
    modifies table, storage
    ensures InitialSyncOutcome(old(table.rows), old(storage.slot), today, now, remote, table.rows, storage.slot, error, progress)
  {
    var since := today - DaysPerWindow;
    var query := "after:" + Dates.FormatGmailDate(since);
    var listed, _, listing := ListMessageIds(query, remote.listPages);
    if listed.Failure? {
      return Some(listed.error), listing;
    }
    var newIds := FilterNewIds(listed.value, table.rows);
    var stored, fetching := FetchAndStore(table, newIds, remote.messages);
    progress := listing + fetching;
    var historyId, _ := FetchLatestHistoryId(remote);
    if historyId.Failure? {
      return Some(historyId.error), progress;
    }
    var state := LoadSyncState(storage.slot);
    storage.Save(AfterInitial(state, historyId.value, since, stored, now));
    error := None;
  }

  /** The cursor `incrementalSync` saves. */
  function AfterIncremental(s: SyncState, historyId: string, stored: nat, now: int): (t: SyncState)
    ensures t.latestHistoryId == Some(historyId) && t.lastSyncedAt == Some(now)
    ensures t.oldestFetchedDate == s.oldestFetchedDate
    ensures t.totalFetched == Some(TotalOf(s) + stored)
  {
    s.(latestHistoryId := Some(historyId), totalFetched := Some(TotalOf(s) + stored), lastSyncedAt := Some(now))
  }

  /**
   * `incrementalSync`: without a stored history id it is `initialSync`. Otherwise it pages the
   * history from that id, drops repeated and stored ids, fetches and stores the rest and
   * records the last page's history id. When nothing is new only the history id and the time
   * are recorded. A failure of the history listing, a 404 for an expired history id included,
   * changes nothing and is passed on.
   */
  method IncrementalSync(table: EmailTable, storage: SyncStorage, today: int, now: int, remote: Remote)
    returns (error: Option<ApiError>, progress: seq<SyncProgress>)
    modifies table, storage
    ensures !Given(LoadSyncState(old(storage.slot)).latestHistoryId) ==>
      InitialSyncOutcome(old(table.rows), old(storage.slot), today, now, remote, table.rows, storage.slot, error, progress)
    ensures Given(LoadSyncState(old(storage.slot)).latestHistoryId) ==>
      var state := LoadSyncState(old(storage.slot));
      var h := HistoryListing(state.latestHistoryId.value, remote.historyPages, 0, None, []);
      if h.result.Failure? then
        table.rows == old(table.rows) && storage.slot == old(storage.slot)
        && error == Some(h.result.error) && progress == h.progress
      else
        var newIds := FilterNewIds(Dedupe(h.result.value.0), old(table.rows));
        var written := FetchedEmails(newIds, remote.messages);
        error.None?
        && table.rows == PutAll(old(table.rows), written, EmailId)
        && (newIds == [] ==>
              storage.slot == Holds(state.(latestHistoryId := Some(h.result.value.1), lastSyncedAt := Some(now)))
              && progress == h.progress + [SyncProgress(Storing, 0, 0)])
        && (newIds != [] ==>
              storage.slot == Holds(AfterIncremental(state, h.result.value.1, |written|, now))
              && progress == h.progress + StoreProgress(|newIds|))
  {
    var state := LoadSyncState(storage.slot);
    if !Given(state.latestHistoryId) {
      error, progress := InitialSync(table, storage, today, now, remote);
      return;
    }
    var listed, _, listing := ListHistoryIds(state.latestHistoryId.value, remote.historyPages);
    if listed.Failure? {
      return Some(listed.error), listing;
    }
    var (allIds, newHistoryId) := listed.value;
    var uniqueIds := Dedupe(allIds);
    var newIds := FilterNewIds(uniqueIds, table.rows);
    if newIds == [] {
      assert FetchedEmails(newIds, remote.messages) == [];
      storage.Save(state.(latestHistoryId := Some(newHistoryId), lastSyncedAt := Some(now)));
      return None, listing + [SyncProgress(Storing, 0, 0)];
    }
    var stored, fetching := FetchAndStore(table, newIds, remote.messages);
    storage.Save(AfterIncremental(state, newHistoryId, stored, now));
    return None, listing + fetching;
  }

  /** The window before the oldest fetched day (or before the first window when there is none). */
  function OlderWindow(s: SyncState, today: int): (w: (int, int))
    ensures w.1 - w.0 == DaysPerWindow
    ensures s.oldestFetchedDate.Some? ==> w.1 == s.oldestFetchedDate.value
    ensures s.oldestFetchedDate.None? ==> w.1 == today - DaysPerWindow
  {
    var windowEnd := s.oldestFetchedDate.GetOr(today - DaysPerWindow);
    (windowEnd - DaysPerWindow, windowEnd)
  }

  /** The search query of a window: mail after its first day and before its last. */
  function WindowQuery(w: (int, int)): string {
    "after:" + Dates.FormatGmailDate(w.0) + " before:" + Dates.FormatGmailDate(w.1)
  }

  /** The cursor `loadOlderEmails` saves: the history id is kept. */
  function AfterOlder(s: SyncState, windowStart: int, stored: nat, now: int): (t: SyncState)
    ensures t.latestHistoryId == s.latestHistoryId && t.lastSyncedAt == Some(now)
    ensures t.oldestFetchedDate == Some(windowStart)
    ensures t.totalFetched == Some(TotalOf(s) + stored)
  {
    s.(oldestFetchedDate := Some(windowStart), totalFetched := Some(TotalOf(s) + stored), lastSyncedAt := Some(now))
  }

  /**
   * `loadOlderEmails`: list the 30 days before the oldest fetched day, fetch and store what is
   * new, and move the oldest fetched day back to the window's start.
   */
  method LoadOlderEmails(table: EmailTable, storage: SyncStorage, today: int, now: int, remote: Remote)
    returns (error: Option<ApiError>, progress: seq<SyncProgress>)
    modifies table, storage
    ensures var state := LoadSyncState(old(storage.slot));
      var w := OlderWindow(state, today);
      var l := MessageListing(WindowQuery(w), remote.listPages, 0, None, []);
      if l.result.Failure? then
        table.rows == old(table.rows) && storage.slot == old(storage.slot)
        && error == Some(l.result.error) && progress == l.progress
      else
        var newIds := FilterNewIds(l.result.value, old(table.rows));
        var written := FetchedEmails(newIds, remote.messages);
        error.None?
        && table.rows == PutAll(old(table.rows), written, EmailId)
        && storage.slot == Holds(AfterOlder(state, w.0, |written|, now))
        && progress == l.progress + StoreProgress(|newIds|)
  {
    var state := LoadSyncState(storage.slot);
    var oldestDate := if state.oldestFetchedDate.Some? then state.oldestFetchedDate.value else today - DaysPerWindow;
    var windowEnd := oldestDate;
    var windowStart := oldestDate - DaysPerWindow;
    var query := "after:" + Dates.FormatGmailDate(windowStart) + " before:" + Dates.FormatGmailDate(windowEnd);
    assert query == WindowQuery(OlderWindow(state, today));
    var listed, _, listing := ListMessageIds(query, remote.listPages);
    if listed.Failure? {
      return Some(listed.error), listing;
    }
    var newIds := FilterNewIds(listed.value, table.rows);
    var stored, fetching := FetchAndStore(table, newIds, remote.messages);
    storage.Save(AfterOlder(state, windowStart, stored, now));
    return None, listing + fetching;
  }

  // ---- What the sync operations keep ---------------------------------------------------------

  /**
   * Fetching only the ids not yet stored, from a faithful server, never replaces a stored
   * email, and keeps every email filed under its own id.
   */
  lemma FetchNewKeepsStored(store: Store, ids: seq<string>, server: string -> seq<Response<GmailMessage>>)
    requires Faithful(server) && KeyedBy(store, EmailId)
    ensures var store' := PutAll(store, FetchedEmails(FilterNewIds(ids, store), server), EmailId);
      KeyedBy(store', EmailId) && (forall id :: id in store ==> id in store' && store'[id] == store[id])
  {
    var newIds := FilterNewIds(ids, store);
    var written := FetchedEmails(newIds, server);
    PutAllKeyedBy(store, written, EmailId);
    forall id | id in store
      ensures id in PutAll(store, written, EmailId) && PutAll(store, written, EmailId)[id] == store[id]
    {
      PutAllLookup(store, written, EmailId, id);
      forall k | 0 <= k < |written| ensures EmailId(written[k]) != id {
        WrittenIsNew(store, ids, server, k);
      }
    }
  }

  /** Every email fetched for the new ids has an id the store does not hold. */
  lemma WrittenIsNew(store: Store, ids: seq<string>, server: string -> seq<Response<GmailMessage>>, k: nat)
    requires Faithful(server)
    requires k < |FetchedEmails(FilterNewIds(ids, store), server)|
    ensures EmailId(FetchedEmails(FilterNewIds(ids, store), server)[k]) !in store
  {
    var newIds := FilterNewIds(ids, store);
    var m := MapMember(Parser.ParseGmailMessage, Successes(MessageOutcomes(newIds, server)), k);
    FetchedAreAsked(newIds, server, m);
  }

  /** After an initial sync that found a history id, the cursor says mail was synced. */
  lemma InitialSyncMarksSynced(s: SyncState, h: string, since: int, stored: nat, now: int)
    requires h != ""
    ensures HasSyncedBefore(Holds(AfterInitial(s, Some(h), since, stored, now)))
  {
  }

  /** Loading older mail twice lists two adjacent windows, each 30 days before the last. */
  lemma OlderWindowsAdjoin(s: SyncState, today: int, stored: nat, now: int)
    ensures var w := OlderWindow(s, today);
      var w' := OlderWindow(AfterOlder(s, w.0, stored, now), today);
      w'.1 == w.0 && w'.0 == w.0 - DaysPerWindow
  {
  }
}
