/**
 * The Gmail wire message and the record the sync engine stores for it
 * (lib/types/email.ts). Optional wire fields are `Option`s; a `Date` is an instant in
 * milliseconds since the epoch, with `None` standing for an Invalid Date.
 */
module Email {
  import opened Wrappers

  datatype Header = Header(name: string, value: string)

  /** A part's body: the base64url `data` may be absent. */
  datatype Body = Body(data: Option<string>, size: int)

  /**
   * One node of the MIME tree: the message payload or one of its (nested) parts. An absent
   * `parts` list is the empty one: every reader of the tree treats the two alike.
   */
  datatype Payload = Payload(
    mimeType: string,
    headers: seq<Header>,
    body: Option<Body>,
    parts: seq<Payload>)

  datatype GmailMessage = GmailMessage(
    id: string,
    threadId: string,
    historyId: string,
    internalDate: string,
    labelIds: Option<seq<string>>,
    snippet: string,
    payload: Payload)

  datatype EmailCategory = Subscription | Transaction | Income | Newsletter | Other

  datatype StoredEmail = StoredEmail(
    id: string,
    threadId: string,
    historyId: string,
    from: string,
    to: seq<string>,
    subject: string,
    date: Option<int>,
    snippet: string,
    bodyText: string,
    bodyHtml: string,
    labels: seq<string>,
    parsed: bool,
    parsedAt: Option<int>,
    category: Option<EmailCategory>)
}
