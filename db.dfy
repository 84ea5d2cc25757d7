/**
 * The records of the Dexie database `gmail-analytics` (lib/db.ts) and the database itself.
 * Dates are instants in milliseconds. Each table is a map from primary key to record,
 * except `transactions`, which is kept in primary-key order because the queries on it
 * return sequences. Each table also carries whether its reads and writes succeed, so that
 * the callers' error paths can be modelled (a table that fails, fails every request).
 */
module Db {
  import opened Wrappers

  datatype ProcessingStatus = Pending | Completed | Failed | Skipped

  /**
   * `emailReceivedAt`: either an instant, or the `Date` header text that `new Date` was given
   * (parsing it is not modelled).
   */
  datatype ReceivedAt = At(instant: int) | FromHeader(text: string)

  datatype ParsedEmail = ParsedEmail(
    id: string,
    from: string,
    to: string,
    isParsed: bool,
    processingStatus: ProcessingStatus,
    errorMessage: Option<string>,
    requiresUserAction: bool,
    relatedTransactionIds: seq<string>,
    relatedSubscriptions: seq<string>,
    tags: seq<string>,
    createdAt: int,
    updatedAt: int,
    emailReceivedAt: ReceivedAt)

  datatype PaymentMethod = Card | Bank | Cash | OtherMethod

  /** The stored spelling of a payment method. */
  function MethodName(m: PaymentMethod): string {
    match m
    case Card => "card"
    case Bank => "bank"
    case Cash => "cash"
    case OtherMethod => "other"
  }

  datatype TransactionType = Debit | Credit | Refund | SelfTransfer | Investment | Loan | OtherType

  datatype Transaction = Transaction(
    id: string,
    sourceEmails: seq<string>,
    transactionIds: seq<string>,
    paymentMethod: PaymentMethod,
    tags: seq<string>,
    amount: real,
    currency: string,
    transactionDate: int,
    transactionType: TransactionType,
    category: string,
    isManuallyVerified: bool,
    isProbableDuplicate: bool)

  datatype SyncStatus = SyncSucceeded | SyncFailed | SyncInProgress

  datatype SyncSettings = SyncSettings(monthsToSync: int, batchSize: int, maxMessages: int)

  datatype SyncMetadata = SyncMetadata(
    id: string,
    lastHistoryId: string,
    lastFullSyncDate: int,
    lastPartialSyncDate: int,
    totalEmailsSynced: int,
    lastSyncStatus: SyncStatus,
    lastErrorMessage: Option<string>,
    syncSettings: SyncSettings,
    createdAt: int,
    updatedAt: int)

  /** `Partial<SyncMetadata>['syncSettings']`: `None` for a field that is absent. */
  datatype SettingsPatch = SettingsPatch(monthsToSync: Option<int>, batchSize: Option<int>, maxMessages: Option<int>)

  /** `Partial<SyncMetadata>` as the callers build it: `None` for a field that is absent. */
  datatype MetadataPatch = MetadataPatch(
    lastHistoryId: Option<string>,
    lastFullSyncDate: Option<int>,
    lastPartialSyncDate: Option<int>,
    totalEmailsSynced: Option<int>,
    lastSyncStatus: Option<SyncStatus>,
    lastErrorMessage: Option<string>,
    syncSettings: Option<SettingsPatch>)

  const NoChange: MetadataPatch := MetadataPatch(None, None, None, None, None, None, None)

  function ParsedEmailId(e: ParsedEmail): string { e.id }

  /** `db.emails`, keyed by message id. */
  class EmailsTable {
    var rows: map<string, ParsedEmail>
    var available: bool

    constructor (rows: map<string, ParsedEmail>, available: bool)
      ensures this.rows == rows && this.available == available
    {
      this.rows := rows;
      this.available := available;
    }
  }

  /** `db.transactions`, in primary-key order. */
  class TransactionsTable {
    var rows: seq<Transaction>
    var available: bool

    constructor (rows: seq<Transaction>, available: bool)
      ensures this.rows == rows && this.available == available
    {
      this.rows := rows;
      this.available := available;
    }
  }

  /** `db.syncMetadata`, keyed by `id`; the application only uses the key `gmail_sync`. */
  class MetadataTable {
    var rows: map<string, SyncMetadata>
    var available: bool

    constructor (rows: map<string, SyncMetadata>, available: bool)
      ensures this.rows == rows && this.available == available
    {
      this.rows := rows;
      this.available := available;
    }
  }

  /** The Dexie database: its tables are distinct objects, each changed on its own. */
  class Database {
    const emails: EmailsTable
    const transactions: TransactionsTable
    const syncMetadata: MetadataTable

    constructor (emails: EmailsTable, transactions: TransactionsTable, syncMetadata: MetadataTable)
      ensures this.emails == emails && this.transactions == transactions && this.syncMetadata == syncMetadata
    {
      this.emails := emails;
      this.transactions := transactions;
      this.syncMetadata := syncMetadata;
    }
  }
}
