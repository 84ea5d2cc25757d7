/**
 * The database operations of lib/db-operations.ts that the sync pipeline and the
 * transaction views use: the read-modify-write merge of the singleton sync-metadata row,
 * the helpers built on it, the email upsert and existence check, and the transaction
 * queries with their input checks. A rejected promise is a `Failure` carrying the message
 * of the error the operation's `catch` throws.
 */
module DbOperations {
  import opened Wrappers
  import opened Text
  import opened Tables
  import opened Db

  /** The primary key of the one sync-metadata row. */
  const SyncKey: string := "gmail_sync"

  const DefaultMonthsToSync: int := 6
  const DefaultBatchSize: int := 100
  const DefaultMaxMessages: int := 1000

  // ---- JavaScript `||` on the metadata's field types ----------------------------------------

  /** `a || b || d` on optional strings: an absent or empty string is falsy. */
  function StringOr(a: Option<string>, b: Option<string>, d: string): string {
    if a.Some? && a.value != "" then a.value
    else if b.Some? && b.value != "" then b.value
    else d
  }

  /** `a || b || d` on optional numbers: an absent number or zero is falsy. */
  function NumberOr(a: Option<int>, b: Option<int>, d: int): int {
    if a.Some? && a.value != 0 then a.value
    else if b.Some? && b.value != 0 then b.value
    else d
  }

  /** `a || b || d` on optional dates or statuses: only an absent value is falsy. */
  function GivenOr<T>(a: Option<T>, b: Option<T>, d: T): T {
    if a.Some? then a.value else if b.Some? then b.value else d
  }

  /** `existing?.field`. */
  function Prior<T>(existing: Option<SyncMetadata>, field: SyncMetadata -> T): Option<T> {
    if existing.Some? then Some(field(existing.value)) else None
  }

  // ---- saveSyncMetadata ----------------------------------------------------------------------

  /**
   * The settings `saveSyncMetadata` writes: the `||` fallbacks from the patch, the earlier
   * settings and the defaults, then the patch's own fields spread over them.
   */
  function MergeSettings(patch: Option<SettingsPatch>, existing: Option<SyncSettings>): (s: SyncSettings)
    ensures patch.Some? && patch.value.monthsToSync.Some? ==> s.monthsToSync == patch.value.monthsToSync.value
    ensures patch.Some? && patch.value.batchSize.Some? ==> s.batchSize == patch.value.batchSize.value
    ensures patch.Some? && patch.value.maxMessages.Some? ==> s.maxMessages == patch.value.maxMessages.value
    ensures (patch.None? || patch.value.monthsToSync.None?) ==>
      s.monthsToSync == (if existing.Some? && existing.value.monthsToSync != 0 then existing.value.monthsToSync else DefaultMonthsToSync)
    ensures (patch.None? || patch.value.batchSize.None?) ==>
      s.batchSize == (if existing.Some? && existing.value.batchSize != 0 then existing.value.batchSize else DefaultBatchSize)
    ensures (patch.None? || patch.value.maxMessages.None?) ==>
      s.maxMessages == (if existing.Some? && existing.value.maxMessages != 0 then existing.value.maxMessages else DefaultMaxMessages)
  {
    var p := patch.GetOr(SettingsPatch(None, None, None));
    var e := if existing.Some? then SettingsPatch(Some(existing.value.monthsToSync), Some(existing.value.batchSize), Some(existing.value.maxMessages))
             else SettingsPatch(None, None, None);
    var fallback := SyncSettings(
      NumberOr(p.monthsToSync, e.monthsToSync, DefaultMonthsToSync),
      NumberOr(p.batchSize, e.batchSize, DefaultBatchSize),
      NumberOr(p.maxMessages, e.maxMessages, DefaultMaxMessages));
    SyncSettings(
      p.monthsToSync.GetOr(fallback.monthsToSync),
      p.batchSize.GetOr(fallback.batchSize),
      p.maxMessages.GetOr(fallback.maxMessages))
  }

  /**
   * The row `saveSyncMetadata(patch)` writes when the row read before is `existing` and the
   * clock reads `now`: each field is the patch's value if truthy, else the earlier value if
   * truthy, else the default.
   */
  function MergeSyncMetadata(patch: MetadataPatch, existing: Option<SyncMetadata>, now: int): (m: SyncMetadata)
    ensures m.id == SyncKey && m.updatedAt == now
    ensures m.createdAt == (if existing.Some? then existing.value.createdAt else now)
    // a truthy patch value wins
    ensures patch.lastHistoryId.Some? && patch.lastHistoryId.value != "" ==> m.lastHistoryId == patch.lastHistoryId.value
    ensures patch.totalEmailsSynced.Some? && patch.totalEmailsSynced.value != 0 ==> m.totalEmailsSynced == patch.totalEmailsSynced.value
    ensures patch.lastFullSyncDate.Some? ==> m.lastFullSyncDate == patch.lastFullSyncDate.value
    ensures patch.lastPartialSyncDate.Some? ==> m.lastPartialSyncDate == patch.lastPartialSyncDate.value
    ensures patch.lastSyncStatus.Some? ==> m.lastSyncStatus == patch.lastSyncStatus.value
    ensures patch.lastErrorMessage.Some? && patch.lastErrorMessage.value != "" ==> m.lastErrorMessage == patch.lastErrorMessage
    // otherwise the earlier value stays when it is truthy
    ensures !(patch.lastHistoryId.Some? && patch.lastHistoryId.value != "") && existing.Some? && existing.value.lastHistoryId != "" ==>
      m.lastHistoryId == existing.value.lastHistoryId
    ensures !(patch.totalEmailsSynced.Some? && patch.totalEmailsSynced.value != 0) && existing.Some? && existing.value.totalEmailsSynced != 0 ==>
      m.totalEmailsSynced == existing.value.totalEmailsSynced
    ensures patch.lastFullSyncDate.None? && existing.Some? ==> m.lastFullSyncDate == existing.value.lastFullSyncDate
    ensures patch.lastPartialSyncDate.None? && existing.Some? ==> m.lastPartialSyncDate == existing.value.lastPartialSyncDate
    ensures patch.lastSyncStatus.None? && existing.Some? ==> m.lastSyncStatus == existing.value.lastSyncStatus
    ensures !(patch.lastErrorMessage.Some? && patch.lastErrorMessage.value != "") ==> m.lastErrorMessage == Prior(existing, (r: SyncMetadata) => r.lastErrorMessage).GetOr(None)
    // and if neither is, the default
    ensures !(patch.lastHistoryId.Some? && patch.lastHistoryId.value != "") && !(existing.Some? && existing.value.lastHistoryId != "") ==>
      m.lastHistoryId == ""
    ensures !(patch.totalEmailsSynced.Some? && patch.totalEmailsSynced.value != 0) && !(existing.Some? && existing.value.totalEmailsSynced != 0) ==>
      m.totalEmailsSynced == 0
    ensures patch.lastFullSyncDate.None? && existing.None? ==> m.lastFullSyncDate == now
    ensures patch.lastPartialSyncDate.None? && existing.None? ==> m.lastPartialSyncDate == now
    ensures patch.lastSyncStatus.None? && existing.None? ==> m.lastSyncStatus == SyncSucceeded
    ensures m.syncSettings == MergeSettings(patch.syncSettings, Prior(existing, (r: SyncMetadata) => r.syncSettings))
  {
    SyncMetadata(
      SyncKey,
      StringOr(patch.lastHistoryId, Prior(existing, (r: SyncMetadata) => r.lastHistoryId), ""),
      GivenOr(patch.lastFullSyncDate, Prior(existing, (r: SyncMetadata) => r.lastFullSyncDate), now),
      GivenOr(patch.lastPartialSyncDate, Prior(existing, (r: SyncMetadata) => r.lastPartialSyncDate), now),
      NumberOr(patch.totalEmailsSynced, Prior(existing, (r: SyncMetadata) => r.totalEmailsSynced), 0),
      GivenOr(patch.lastSyncStatus, Prior(existing, (r: SyncMetadata) => r.lastSyncStatus), SyncSucceeded),
      if patch.lastErrorMessage.Some? && patch.lastErrorMessage.value != "" then patch.lastErrorMessage
      else Prior(existing, (r: SyncMetadata) => r.lastErrorMessage).GetOr(None),
      MergeSettings(patch.syncSettings, Prior(existing, (r: SyncMetadata) => r.syncSettings)),
      GivenOr(None, Prior(existing, (r: SyncMetadata) => r.createdAt), now),
      now)
  }

  /** `getSyncMetadata()`: the row, or `undefined` when it is missing or the table fails. */
  function GetSyncMetadata(db: Database): (r: Option<SyncMetadata>)
    reads db.syncMetadata
    ensures r.Some? <==> db.syncMetadata.available && SyncKey in db.syncMetadata.rows
    ensures r.Some? ==> r.value == db.syncMetadata.rows[SyncKey]
  {
    if db.syncMetadata.available && SyncKey in db.syncMetadata.rows then Some(db.syncMetadata.rows[SyncKey]) else None
  }

  /** `saveSyncMetadata(patch)` at instant `now`. */
  method SaveSyncMetadata(db: Database, patch: MetadataPatch, now: int) returns (err: Option<string>)
    modifies db.syncMetadata
    ensures db.syncMetadata.available == old(db.syncMetadata.available)
    ensures old(db.syncMetadata.available) ==>
      err.None? && db.syncMetadata.rows == old(db.syncMetadata.rows)[SyncKey := MergeSyncMetadata(patch, old(GetSyncMetadata(db)), now)]
    ensures !old(db.syncMetadata.available) ==>
      err == Some("Failed to save sync metadata") && db.syncMetadata.rows == old(db.syncMetadata.rows)
  {
    var existing := GetSyncMetadata(db);
    var row := MergeSyncMetadata(patch, existing, now);
    if !db.syncMetadata.available {
      return Some("Failed to save sync metadata");
    }
    db.syncMetadata.rows := db.syncMetadata.rows[SyncKey := row];
    err := None;
  }

  /** The error a helper throws when the save underneath it fails. */
  function Rewrap(err: Option<string>, message: string): (r: Option<string>)
    ensures r.Some? <==> err.Some?
    ensures r.Some? ==> r.value == message
  {
    if err.Some? then Some(message) else None
  }

  // ---- The helpers built on saveSyncMetadata -------------------------------------------------

  function StatusPatch(status: SyncStatus, errorMessage: Option<string>): MetadataPatch {
    NoChange.(lastSyncStatus := Some(status), lastErrorMessage := errorMessage)
  }

  /** `updateSyncStatus(status, errorMessage)`. */
  method UpdateSyncStatus(db: Database, status: SyncStatus, errorMessage: Option<string>, now: int) returns (err: Option<string>)
    modifies db.syncMetadata
    ensures db.syncMetadata.available == old(db.syncMetadata.available)
    ensures old(db.syncMetadata.available) ==>
      err.None? && db.syncMetadata.rows == old(db.syncMetadata.rows)[SyncKey := MergeSyncMetadata(StatusPatch(status, errorMessage), old(GetSyncMetadata(db)), now)]
    ensures !old(db.syncMetadata.available) ==>
      err == Some("Failed to update sync status") && db.syncMetadata.rows == old(db.syncMetadata.rows)
  {
    var e := SaveSyncMetadata(db, StatusPatch(status, errorMessage), now);
    err := Rewrap(e, "Failed to update sync status");
  }

  /** `getLastHistoryId()`: the marker, or `null` when there is none, it is empty, or the read fails. */
  function GetLastHistoryId(db: Database): (r: Option<string>)
    reads db.syncMetadata
    ensures r.Some? <==> GetSyncMetadata(db).Some? && GetSyncMetadata(db).value.lastHistoryId != ""
    ensures r.Some? ==> r.value == db.syncMetadata.rows[SyncKey].lastHistoryId
  {
    var m := GetSyncMetadata(db);
    if m.Some? && m.value.lastHistoryId != "" then Some(m.value.lastHistoryId) else None
  }

  function HistoryIdPatch(historyId: string, now: int): MetadataPatch {
    NoChange.(lastHistoryId := Some(historyId), lastPartialSyncDate := Some(now))
  }

  /** `updateLastHistoryId(historyId)` at instant `now`. */
  method UpdateLastHistoryId(db: Database, historyId: string, now: int) returns (err: Option<string>)
    modifies db.syncMetadata
    ensures db.syncMetadata.available == old(db.syncMetadata.available)
    ensures old(db.syncMetadata.available) ==>
      err.None? && db.syncMetadata.rows == old(db.syncMetadata.rows)[SyncKey := MergeSyncMetadata(HistoryIdPatch(historyId, now), old(GetSyncMetadata(db)), now)]
    ensures !old(db.syncMetadata.available) ==>
      err == Some("Failed to update last history ID") && db.syncMetadata.rows == old(db.syncMetadata.rows)
  {
    var e := SaveSyncMetadata(db, HistoryIdPatch(historyId, now), now);
    err := Rewrap(e, "Failed to update last history ID");
  }

  /** The total `incrementTotalEmailsSynced` starts from: the stored total, or 0. */
  function CurrentTotal(existing: Option<SyncMetadata>): int {
    if existing.Some? then existing.value.totalEmailsSynced else 0
  }

  function IncrementPatch(existing: Option<SyncMetadata>, count: int): MetadataPatch {
    NoChange.(totalEmailsSynced := Some(CurrentTotal(existing) + count))
  }

  /** `incrementTotalEmailsSynced(count)` at instant `now`. */
  method IncrementTotalEmailsSynced(db: Database, count: int, now: int) returns (err: Option<string>)
    modifies db.syncMetadata
    ensures db.syncMetadata.available == old(db.syncMetadata.available)
    ensures old(db.syncMetadata.available) ==>
      var existing := old(GetSyncMetadata(db));
      err.None? && db.syncMetadata.rows == old(db.syncMetadata.rows)[SyncKey := MergeSyncMetadata(IncrementPatch(existing, count), existing, now)]
    ensures !old(db.syncMetadata.available) ==>
      err == Some("Failed to increment total emails synced") && db.syncMetadata.rows == old(db.syncMetadata.rows)
  {
    var existing := GetSyncMetadata(db);
    var e := SaveSyncMetadata(db, IncrementPatch(existing, count), now);
    err := Rewrap(e, "Failed to increment total emails synced");
  }

  function FullSyncPatch(historyId: string, emailCount: int, now: int): MetadataPatch {
    MetadataPatch(Some(historyId), Some(now), Some(now), Some(emailCount), Some(SyncSucceeded), None, None)
  }

  /** `markFullSyncComplete(historyId, emailCount)` at instant `now`. */
  method MarkFullSyncComplete(db: Database, historyId: string, emailCount: int, now: int) returns (err: Option<string>)
    modifies db.syncMetadata
    ensures db.syncMetadata.available == old(db.syncMetadata.available)
    ensures old(db.syncMetadata.available) ==>
      err.None? && db.syncMetadata.rows == old(db.syncMetadata.rows)[SyncKey := MergeSyncMetadata(FullSyncPatch(historyId, emailCount, now), old(GetSyncMetadata(db)), now)]
    ensures !old(db.syncMetadata.available) ==>
      err == Some("Failed to mark full sync complete") && db.syncMetadata.rows == old(db.syncMetadata.rows)
  {
    var e := SaveSyncMetadata(db, FullSyncPatch(historyId, emailCount, now), now);
    err := Rewrap(e, "Failed to mark full sync complete");
  }

  // ---- What the merge means for the helpers -------------------------------------------------

  /** `markFullSyncComplete(h, 0)` cannot reset a non-zero total: 0 is falsy. */
  lemma FullSyncZeroKeepsTotal(existing: SyncMetadata, historyId: string, now: int)
    requires existing.totalEmailsSynced != 0
    ensures MergeSyncMetadata(FullSyncPatch(historyId, 0, now), Some(existing), now).totalEmailsSynced == existing.totalEmailsSynced
  {
  }

  /**
   * A full sync records its marker, both sync dates and status `success`, and a non-zero count
   * replaces the total; but `lastErrorMessage: undefined` leaves an earlier error in place.
   */
  lemma FullSyncRecords(existing: Option<SyncMetadata>, historyId: string, emailCount: int, now: int)
    requires historyId != "" && emailCount != 0
    ensures var m := MergeSyncMetadata(FullSyncPatch(historyId, emailCount, now), existing, now);
      && m.lastHistoryId == historyId && m.totalEmailsSynced == emailCount
      && m.lastFullSyncDate == now && m.lastPartialSyncDate == now && m.lastSyncStatus == SyncSucceeded
      && m.lastErrorMessage == (if existing.Some? then existing.value.lastErrorMessage else None)
  {
  }

  /** `incrementTotalEmailsSynced(c)` stores the old total plus `c` whenever that sum is non-zero. */
  lemma IncrementAdds(existing: Option<SyncMetadata>, count: int, now: int)
    requires CurrentTotal(existing) + count != 0
    ensures MergeSyncMetadata(IncrementPatch(existing, count), existing, now).totalEmailsSynced == CurrentTotal(existing) + count
  {
  }

  /** When the sum is zero it is falsy, and the old total stays. */
  lemma IncrementToZeroKeeps(existing: SyncMetadata, count: int, now: int)
    requires existing.totalEmailsSynced + count == 0
    ensures MergeSyncMetadata(IncrementPatch(Some(existing), count), Some(existing), now).totalEmailsSynced == existing.totalEmailsSynced
  {
  }

  /** Every settings field given in the patch is written as given, even a falsy 0. */
  lemma SettingsPatchWins(patch: MetadataPatch, existing: Option<SyncMetadata>, now: int, s: SettingsPatch)
    requires patch.syncSettings == Some(s) && s.monthsToSync.Some? && s.batchSize.Some? && s.maxMessages.Some?
    ensures MergeSyncMetadata(patch, existing, now).syncSettings == SyncSettings(s.monthsToSync.value, s.batchSize.value, s.maxMessages.value)
  {
  }

  predicate SettingsTruthy(s: SyncSettings) {
    s.monthsToSync != 0 && s.batchSize != 0 && s.maxMessages != 0
  }

  /**
   * `updateLastHistoryId(h)` on a row with truthy settings changes only the marker (when `h` is
   * non-empty), `lastPartialSyncDate` and `updatedAt`.
   */
  lemma UpdateLastHistoryIdChangesOnly(existing: SyncMetadata, historyId: string, now: int)
    requires existing.id == SyncKey && SettingsTruthy(existing.syncSettings)
    ensures MergeSyncMetadata(HistoryIdPatch(historyId, now), Some(existing), now)
      == existing.(lastHistoryId := if historyId != "" then historyId else existing.lastHistoryId,
                   lastPartialSyncDate := now, updatedAt := now)
  {
    var m := MergeSyncMetadata(HistoryIdPatch(historyId, now), Some(existing), now);
    assert m.syncSettings == existing.syncSettings;
    assert m.lastErrorMessage == existing.lastErrorMessage;
    if existing.totalEmailsSynced == 0 {
      assert m.totalEmailsSynced == 0;
    }
    if historyId == "" && existing.lastHistoryId == "" {
      assert m.lastHistoryId == "";
    }
  }

  /** The settings are the only fields a save can rewrite silently: falsy settings become the defaults. */
  lemma FalsySettingReset(existing: SyncMetadata, now: int)
    requires existing.syncSettings.batchSize == 0
    ensures MergeSyncMetadata(NoChange, Some(existing), now).syncSettings.batchSize == DefaultBatchSize
  {
  }

  /** After a marker is saved, `getLastHistoryId` reads it back. */
  lemma SavedHistoryIdReadsBack(existing: Option<SyncMetadata>, historyId: string, now: int)
    requires historyId != ""
    ensures MergeSyncMetadata(HistoryIdPatch(historyId, now), existing, now).lastHistoryId == historyId
  {
  }

  // ---- Emails -------------------------------------------------------------------------------

  /** `saveEmailsBatch(emails)`: nothing for an empty batch, otherwise `bulkPut` keyed by id. */
  method SaveEmailsBatch(db: Database, emails: seq<ParsedEmail>) returns (err: Option<string>)
    modifies db.emails
    ensures db.emails.available == old(db.emails.available)
    ensures emails == [] ==> err.None? && db.emails.rows == old(db.emails.rows)
    ensures emails != [] && old(db.emails.available) ==>
      err.None? && db.emails.rows == PutAll(old(db.emails.rows), emails, ParsedEmailId)
    ensures emails != [] && !old(db.emails.available) ==>
      err == Some("Failed to save emails in batch") && db.emails.rows == old(db.emails.rows)
  {
    if emails == [] {
      return None;
    }
    if !db.emails.available {
      return Some("Failed to save emails in batch");
    }
    db.emails.rows := PutAll(db.emails.rows, emails, ParsedEmailId);
    err := None;
  }

  /** `emailExists(id)`: whether the id is stored; a failing read answers `false`. */
  function EmailExists(db: Database, id: string): (b: bool)
    reads db.emails
    ensures b <==> db.emails.available && id in db.emails.rows
  {
    db.emails.available && id in db.emails.rows
  }

  /** After a batch is saved, each of its emails exists, holding the last record with its id. */
  lemma {:induction false} SavedEmailsExist(table: map<string, ParsedEmail>, emails: seq<ParsedEmail>, k: nat)
    requires k < |emails|
    ensures emails[k].id in PutAll(table, emails, ParsedEmailId)
    ensures PutAll(table, emails, ParsedEmailId)[emails[k].id] == LastWithKey(emails, ParsedEmailId, emails[k].id)
  {
    assert ParsedEmailId(emails[k]) == emails[k].id;
    assert HasKey(emails, ParsedEmailId, emails[k].id);
    PutAllLookup(table, emails, ParsedEmailId, emails[k].id);
  }

  /** Saving a batch leaves every other stored email as it was. */
  lemma {:induction false} SaveKeepsOthers(table: map<string, ParsedEmail>, emails: seq<ParsedEmail>, id: string)
    requires id in table && forall k :: 0 <= k < |emails| ==> emails[k].id != id
    ensures id in PutAll(table, emails, ParsedEmailId) && PutAll(table, emails, ParsedEmailId)[id] == table[id]
  {
    PutAllLookup(table, emails, ParsedEmailId, id);
  }

  // ---- Transaction queries ------------------------------------------------------------------

  /** `id && id.trim()`: the identifier is not blank. */
  predicate NotBlank(id: string) {
    Trim(id) != ""
  }

  predicate SharesIdentifier(t: Transaction, identifiers: seq<string>) {
    exists id :: id in t.transactionIds && id in identifiers
  }

  /** `findProbableDuplicateTransaction(identifiers)`. */
  function FindProbableDuplicateTransaction(db: Database, identifiers: seq<string>): (r: Result<seq<Transaction>, string>)
    reads db.transactions
    ensures (forall id :: id in identifiers ==> !NotBlank(id)) ==> r == Success([])
    ensures (exists id :: id in identifiers && NotBlank(id)) && !db.transactions.available ==>
      r == Failure("Failed to find probable duplicate transactions")
    ensures (exists id :: id in identifiers && NotBlank(id)) && db.transactions.available ==>
      r.Success? && forall t :: t in r.value <==> t in db.transactions.rows && SharesIdentifier(t, Filter(NotBlank, identifiers))
  {
    if |identifiers| == 0 then Success([])
    else
      var valid := Filter(NotBlank, identifiers);
      if |valid| == 0 then Success([])
      else
        assert valid[0] in identifiers && NotBlank(valid[0]);
        if !db.transactions.available then Failure("Failed to find probable duplicate transactions")
      else Success(Filter((t: Transaction) => SharesIdentifier(t, valid), db.transactions.rows))
  }

  /** A transaction shares a non-blank identifier exactly when it carries one of the given identifiers that is not blank. */
  lemma SharesValidIdentifier(t: Transaction, identifiers: seq<string>)
    ensures SharesIdentifier(t, Filter(NotBlank, identifiers)) <==>
      exists id :: id in t.transactionIds && id in identifiers && NotBlank(id)
  {
  }

  /** The payment method a normalised name denotes, if it is one of the four. */
  function ParsePaymentMethod(s: string): (r: Option<PaymentMethod>)
    ensures r.Some? <==> s in {"card", "bank", "cash", "other"}
    ensures r.Some? ==> MethodName(r.value) == s
  {
    if s == "card" then Some(Card)
    else if s == "bank" then Some(Bank)
    else if s == "cash" then Some(Cash)
    else if s == "other" then Some(OtherMethod)
    else None
  }

  lemma ParseMethodName(m: PaymentMethod)
    ensures ParsePaymentMethod(MethodName(m)) == Some(m)
  {
  }

  /** `paymentMethod.trim().toLowerCase()`. */
  function NormalizePaymentMethod(s: string): string {
    ToLowerAscii(Trim(s))
  }

  function PaymentMethodError(paymentMethod: string): string {
    "Failed to fetch transactions by payment method '" + paymentMethod + "'"
  }

  /** `getTransactionsByPaymentMethod(paymentMethod)`. */
  function GetTransactionsByPaymentMethod(db: Database, paymentMethod: string): (r: Result<seq<Transaction>, string>)
    reads db.transactions
    ensures r.Success? <==> db.transactions.available && NormalizePaymentMethod(paymentMethod) in {"card", "bank", "cash", "other"}
    ensures r.Failure? ==> r.error == PaymentMethodError(paymentMethod)
    ensures r.Success? ==> forall t :: t in r.value <==>
      t in db.transactions.rows && MethodName(t.paymentMethod) == NormalizePaymentMethod(paymentMethod)
  {
    if Trim(paymentMethod) == "" then Failure(PaymentMethodError(paymentMethod))
    else
      var m := ParsePaymentMethod(NormalizePaymentMethod(paymentMethod));
      if m.None? || !db.transactions.available then Failure(PaymentMethodError(paymentMethod))
      else
        assert forall t: Transaction :: MethodName(t.paymentMethod) == MethodName(m.value) <==> t.paymentMethod == m.value by {
          forall t: Transaction ensures MethodName(t.paymentMethod) == MethodName(m.value) ==> t.paymentMethod == m.value {
            if MethodName(t.paymentMethod) == MethodName(m.value) {
              ParseMethodName(t.paymentMethod);
              ParseMethodName(m.value);
            }
          }
        }
        Success(Filter((t: Transaction) => t.paymentMethod == m.value, db.transactions.rows))
  }

  /** Whitespace around a payment method does not change what is asked for. */
  lemma PaymentMethodIgnoresPadding(w1: string, m: string, w2: string)
    requires AllWhitespace(w1) && AllWhitespace(w2) && IsTrimmed(m) && m != []
    ensures NormalizePaymentMethod(w1 + m + w2) == NormalizePaymentMethod(m) == ToLowerAscii(m)
  {
    TrimPadded(w1, m, w2);
    TrimPadded([], m, []);
    assert [] + m + [] == m;
  }

  // `getLastXTransactions`: the index on `transactionDate` read backwards.

  predicate LatestFirstOrder(s: seq<Transaction>) {
    forall i, j :: 0 <= i < j < |s| ==> s[j].transactionDate <= s[i].transactionDate
  }

  /** `t` placed before the first element that is no later than it. */
  function InsertByDate(t: Transaction, s: seq<Transaction>): (r: seq<Transaction>)
    ensures multiset(r) == multiset(s) + multiset{t}
    ensures |r| == |s| + 1 && (r[0] == t || (s != [] && r[0] == s[0]))
    decreases |s|
  {
    if s == [] || s[0].transactionDate <= t.transactionDate then
      [t] + s
    else
      assert s == [s[0]] + s[1..];
      [s[0]] + InsertByDate(t, s[1..])
  }

  lemma {:induction false} InsertByDateOrdered(t: Transaction, s: seq<Transaction>)
    requires LatestFirstOrder(s)
    ensures LatestFirstOrder(InsertByDate(t, s))
    decreases |s|
  {
    if s == [] || s[0].transactionDate <= t.transactionDate {
      var r := [t] + s;
      forall i, j | 0 <= i < j < |r| ensures r[j].transactionDate <= r[i].transactionDate {
        if i == 0 {
          assert r[j] == s[j - 1];
          assert s[j - 1].transactionDate <= s[0].transactionDate;
        } else {
          assert r[i] == s[i - 1] && r[j] == s[j - 1];
        }
      }
    } else {
      var rest := InsertByDate(t, s[1..]);
      InsertByDateOrdered(t, s[1..]);
      assert rest[0].transactionDate <= s[0].transactionDate by {
        if rest[0] != t {
          assert rest[0] == s[1];
        }
      }
      var r := [s[0]] + rest;
      forall i, j | 0 <= i < j < |r| ensures r[j].transactionDate <= r[i].transactionDate {
        if i == 0 {
          assert r[j] == rest[j - 1];
          if j > 1 {
            assert rest[j - 1].transactionDate <= rest[0].transactionDate;
          }
        } else {
          assert r[i] == rest[i - 1] && r[j] == rest[j - 1];
        }
      }
    }
  }

  /** The transactions from latest to earliest. */
  function SortLatestFirst(s: seq<Transaction>): (r: seq<Transaction>)
    ensures multiset(r) == multiset(s)
    ensures LatestFirstOrder(r)
    decreases |s|
  {
    if s == [] then []
    else
      assert s == [s[0]] + s[1..];
      InsertByDateOrdered(s[0], SortLatestFirst(s[1..]));
      InsertByDate(s[0], SortLatestFirst(s[1..]))
  }

  /** `reverse()`: the last element comes first. */
  function Reverse<T>(s: seq<T>): (r: seq<T>)
    ensures |r| == |s|
    ensures forall k :: 0 <= k < |s| ==> r[k] == s[|s| - 1 - k]
    ensures multiset(r) == multiset(s)
    decreases |s|
  {
    if s == [] then []
    else
      assert s == [s[0]] + s[1..];
      Reverse(s[1..]) + [s[0]]
  }

  /** `limit(x)` on the latest-first order; transactions on the same date come in reverse key order. */
  function GetLastXTransactions(db: Database, x: int): (r: Result<seq<Transaction>, string>)
    reads db.transactions
    ensures r.Failure? <==> x <= 0 || !db.transactions.available
    ensures r.Failure? ==> r.error == "Failed to fetch last " + IntToString(x) + " transactions"
    ensures r.Success? ==> |r.value| == (if x < |db.transactions.rows| then x else |db.transactions.rows|)
    ensures r.Success? ==> LatestFirstOrder(r.value) && multiset(r.value) <= multiset(db.transactions.rows)
  {
    if x <= 0 || !db.transactions.available then
      Failure("Failed to fetch last " + IntToString(x) + " transactions")
    else
      var sorted := SortLatestFirst(Reverse(db.transactions.rows));
      var n := if x < |sorted| then x else |sorted|;
      TakeLatest(sorted, n);
      Success(sorted[..n])
  }

  /** The first `n` of a latest-first list are latest-first, and drawn from it. */
  lemma TakeLatest(sorted: seq<Transaction>, n: nat)
    requires LatestFirstOrder(sorted) && n <= |sorted|
    ensures LatestFirstOrder(sorted[..n])
    ensures multiset(sorted[..n]) <= multiset(sorted)
  {
    assert sorted == sorted[..n] + sorted[n..];
  }

  /**
   * No transaction left out of `getLastXTransactions` is later than one it returns: the result
   * is the latest `x` transactions.
   */
  lemma {:induction false} LastXAreLatest(rows: seq<Transaction>, x: int, t: Transaction, k: nat)
    requires x > 0
    requires var sorted := SortLatestFirst(Reverse(rows));
      var n := if x < |sorted| then x else |sorted|;
      t in rows && t !in sorted[..n] && k < n
    ensures t.transactionDate <= SortLatestFirst(Reverse(rows))[k].transactionDate
  {
    var sorted := SortLatestFirst(Reverse(rows));
    var n := if x < |sorted| then x else |sorted|;
    LaterOutside(rows, sorted, n, t, k);
  }

  /** In a latest-first arrangement of `rows`, a row outside the first `n` is no later than any of them. */
  lemma LaterOutside(rows: seq<Transaction>, sorted: seq<Transaction>, n: nat, t: Transaction, k: nat)
    requires multiset(sorted) == multiset(rows) && LatestFirstOrder(sorted) && n <= |sorted|
    requires t in rows && t !in sorted[..n] && k < n
    ensures t.transactionDate <= sorted[k].transactionDate
  {
    assert t in multiset(rows);
    assert t in multiset(sorted);
    var j :| 0 <= j < |sorted| && sorted[j] == t;
    assert j >= n;
  }

  /** `getTransactionsByDateRange(startDate, endDate)`, both ends included. */
  function GetTransactionsByDateRange(db: Database, startDate: int, endDate: int): (r: Result<seq<Transaction>, string>)
    reads db.transactions
    ensures r.Failure? <==> startDate > endDate || !db.transactions.available
    ensures r.Failure? ==> r.error == "Failed to fetch transactions by date range"
    ensures r.Success? ==> forall t :: t in r.value <==>
      t in db.transactions.rows && startDate <= t.transactionDate <= endDate
  {
    if startDate > endDate || !db.transactions.available then Failure("Failed to fetch transactions by date range")
    else Success(Filter((t: Transaction) => startDate <= t.transactionDate <= endDate, db.transactions.rows))
  }
}
