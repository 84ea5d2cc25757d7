/**
 * The message normaliser (lib/gmail/parser.ts): turns a Gmail wire message into the record
 * the sync engine stores. It takes the headers it needs by case-insensitive lookup, searches
 * the MIME tree depth-first for the plain-text and HTML bodies, decodes base64url bodies as
 * UTF-8 with a fallback that never fails, and splits the To header into addresses.
 */
module Parser {
  import opened Wrappers
  import opened Text
  import opened Email
  import Utf8
  import Base64
  import Dates

  // ---- extractHeader ----------------------------------------------------------------------

  predicate NameIs(h: Header, name: string) {
    ToLowerAscii(h.name) == ToLowerAscii(name)
  }

  /** The value of the first header whose name equals `name` up to case, if any. */
  function ExtractHeader(headers: seq<Header>, name: string): (r: Option<string>)
    ensures r.None? <==> forall k :: 0 <= k < |headers| ==> !NameIs(headers[k], name)
    ensures r.Some? ==> exists k :: (0 <= k < |headers| && NameIs(headers[k], name)
      && r.value == headers[k].value && forall j :: 0 <= j < k ==> !NameIs(headers[j], name))
    decreases |headers|
  {
    if headers == [] then None
    else if NameIs(headers[0], name) then Some(headers[0].value)
    else
      var r := ExtractHeader(headers[1..], name);
      assert forall k :: 1 <= k < |headers| ==> headers[1..][k - 1] == headers[k];
      r
  }

  // ---- decodeBase64Url --------------------------------------------------------------------

  /**
   * Base64url to text: the URL-safe alphabet is mapped back to the standard one, `atob`
   * decodes, and the bytes are read as UTF-8. When they are not UTF-8 the bytes themselves
   * are the characters; when `atob` fails the result is empty.
   */
  function DecodeBase64Url(encoded: string): string {
    var base64 := Base64.UrlToStd(encoded);
    match Base64.ForgivingDecode(base64)
    case None => ""
    case Some(bytes) =>
      match Utf8.Decode(bytes)
      case Some(text) => text
      case None => Utf8.Latin1(bytes)
  }

  /** A base64url encoding, padded or not, of the UTF-8 form of `s` decodes to exactly `s`. */
  lemma DecodeBase64UrlOfUtf8(s: string, padded: bool)
    ensures DecodeBase64Url(Base64.EncodeUrl(Utf8.Encode(s), padded)) == s
  {
    var bytes := Utf8.Encode(s);
    Base64.UrlToStdOfEncodeUrl(bytes, padded);
    Base64.ForgivingDecodeOfEncodeStd(bytes, padded);
    Utf8.DecodeEncode(s);
  }

  /** Bytes that are not UTF-8 come back one character per byte. */
  lemma DecodeBase64UrlNotUtf8(bytes: seq<Utf8.Byte>, padded: bool)
    requires Utf8.Decode(bytes).None?
    ensures DecodeBase64Url(Base64.EncodeUrl(bytes, padded)) == Utf8.Latin1(bytes)
  {
    Base64.UrlToStdOfEncodeUrl(bytes, padded);
    Base64.ForgivingDecodeOfEncodeStd(bytes, padded);
  }

  /** A character outside both alphabets, whitespace and `=` makes the result empty. */
  lemma DecodeBase64UrlInvalid(encoded: string, k: nat)
    requires k < |encoded|
    requires var c := encoded[k];
      Base64.SextetOf(c).None? && c != '-' && c != '_' && !Base64.IsAsciiWhitespace(c) && c != '='
    ensures DecodeBase64Url(encoded) == ""
  {
    Base64.ForgivingDecodeRejects(Base64.UrlToStd(encoded), k);
  }

  // ---- extractBody ------------------------------------------------------------------------

  /** The part has the wanted type and a non-empty `body.data`. */
  predicate MatchesWithData(p: Payload, mimeType: string) {
    p.mimeType == mimeType && p.body.Some? && p.body.value.data.Some? && p.body.value.data.value != ""
  }

  /**
   * The decoded body of the first part of type `mimeType` in depth-first order: a matching
   * part with data is decoded without looking at its children; otherwise the children are
   * searched in order and the first non-empty result wins.
   */
  function ExtractBody(p: Payload, mimeType: string): string
    decreases p, 1
  {
    if MatchesWithData(p, mimeType) then DecodeBase64Url(p.body.value.data.value)
    else FirstInParts(p, p.parts, mimeType)
  }

  function FirstInParts(parent: Payload, ps: seq<Payload>, mimeType: string): string
    requires forall k :: 0 <= k < |ps| ==> ps[k] < parent
    decreases parent, 0, |ps|
  {
    if ps == [] then ""
    else
      var r := ExtractBody(ps[0], mimeType);
      if r != "" then r else FirstInParts(parent, ps[1..], mimeType)
  }

  /**
   * Independent description of the search: every decoded body `ExtractBody` may look at,
   * in the order it looks at them.
   */
  function Candidates(p: Payload, mimeType: string): seq<string>
    decreases p, 1
  {
    if MatchesWithData(p, mimeType) then [DecodeBase64Url(p.body.value.data.value)]
    else PartsCandidates(p, p.parts, mimeType)
  }

  function PartsCandidates(parent: Payload, ps: seq<Payload>, mimeType: string): seq<string>
    requires forall k :: 0 <= k < |ps| ==> ps[k] < parent
    decreases parent, 0, |ps|
  {
    if ps == [] then [] else Candidates(ps[0], mimeType) + PartsCandidates(parent, ps[1..], mimeType)
  }

  /** The first non-empty string of `cs`, or `""` when there is none. */
  function FirstNonEmpty(cs: seq<string>): (r: string)
    ensures r != "" ==> r in cs
    ensures r == "" <==> forall k :: 0 <= k < |cs| ==> cs[k] == ""
  {
    if cs == [] then "" else if cs[0] != "" then cs[0] else FirstNonEmpty(cs[1..])
  }

  lemma {:induction false} FirstNonEmptyAppend(a: seq<string>, b: seq<string>)
    ensures FirstNonEmpty(a + b) == if FirstNonEmpty(a) != "" then FirstNonEmpty(a) else FirstNonEmpty(b)
    decreases |a|
  {
    if a == [] {
      assert a + b == b;
    } else {
      assert (a + b)[1..] == a[1..] + b;
      FirstNonEmptyAppend(a[1..], b);
    }
  }

  /**
   * `ExtractBody` returns the first non-empty candidate, or `""` when all are empty; parts are
   * never merged, and the result is one of the decoded bodies.
   */
  lemma {:induction false} ExtractBodyIsFirstCandidate(p: Payload, mimeType: string)
    ensures ExtractBody(p, mimeType) == FirstNonEmpty(Candidates(p, mimeType))
    decreases p, 1
  {
    if !MatchesWithData(p, mimeType) {
      PartsFirstCandidate(p, p.parts, mimeType);
    }
  }

  lemma {:induction false} PartsFirstCandidate(parent: Payload, ps: seq<Payload>, mimeType: string)
    requires forall k :: 0 <= k < |ps| ==> ps[k] < parent
    ensures FirstInParts(parent, ps, mimeType) == FirstNonEmpty(PartsCandidates(parent, ps, mimeType))
    decreases parent, 0, |ps|
  {
    if ps != [] {
      ExtractBodyIsFirstCandidate(ps[0], mimeType);
      PartsFirstCandidate(parent, ps[1..], mimeType);
      FirstNonEmptyAppend(Candidates(ps[0], mimeType), PartsCandidates(parent, ps[1..], mimeType));
    }
  }

  function Leaf(mimeType: string, data: string): Payload {
    Payload(mimeType, [], Some(Body(Some(data), |data|)), [])
  }

  function Multipart(mimeType: string, parts: seq<Payload>): Payload {
    Payload(mimeType, [], None, parts)
  }

  lemma CandidatesOfLeaf(mimeType: string, data: string, wanted: string)
    requires data != ""
    ensures Candidates(Leaf(mimeType, data), wanted) == if mimeType == wanted then [DecodeBase64Url(data)] else []
  {
  }

  lemma CandidatesOfOne(mimeType: string, a: Payload, wanted: string)
    ensures Candidates(Multipart(mimeType, [a]), wanted) == Candidates(a, wanted)
  {
    var p := Multipart(mimeType, [a]);
    assert p.parts[0] == a;
    assert PartsCandidates(p, [a], wanted) == Candidates(a, wanted) + PartsCandidates(p, [], wanted);
  }

  lemma CandidatesOfTwo(mimeType: string, a: Payload, b: Payload, wanted: string)
    ensures Candidates(Multipart(mimeType, [a, b]), wanted) == Candidates(a, wanted) + Candidates(b, wanted)
  {
    var p := Multipart(mimeType, [a, b]);
    assert p.parts[0] == a && p.parts[1] == b;
    assert [a, b][1..] == [b];
    assert PartsCandidates(p, [b], wanted) == Candidates(b, wanted) + PartsCandidates(p, [], wanted);
  }

  /** multipart/mixed holding multipart/alternative of a plain and an HTML part. */
  lemma MixedAlternativeExample(plain: string, html: string)
    requires plain != "" && html != "" && DecodeBase64Url(plain) != ""
    ensures var alt := Multipart("multipart/alternative", [Leaf("text/plain", plain), Leaf("text/html", html)]);
      var msg := Multipart("multipart/mixed", [alt]);
      ExtractBody(msg, "text/plain") == DecodeBase64Url(plain)
      && ExtractBody(msg, "text/html") == DecodeBase64Url(html)
  {
    var pl, ht := Leaf("text/plain", plain), Leaf("text/html", html);
    var alt := Multipart("multipart/alternative", [pl, ht]);
    var msg := Multipart("multipart/mixed", [alt]);
    ExtractBodyIsFirstCandidate(msg, "text/plain");
    ExtractBodyIsFirstCandidate(msg, "text/html");
    CandidatesOfOne("multipart/mixed", alt, "text/plain");
    CandidatesOfOne("multipart/mixed", alt, "text/html");
    CandidatesOfTwo("multipart/alternative", pl, ht, "text/plain");
    CandidatesOfTwo("multipart/alternative", pl, ht, "text/html");
    CandidatesOfLeaf("text/plain", plain, "text/plain");
    CandidatesOfLeaf("text/plain", plain, "text/html");
    CandidatesOfLeaf("text/html", html, "text/plain");
    CandidatesOfLeaf("text/html", html, "text/html");
    assert Candidates(msg, "text/plain") == [DecodeBase64Url(plain)] + [];
    assert Candidates(msg, "text/html") == [] + [DecodeBase64Url(html)];
  }

  // ---- parseAddressList -------------------------------------------------------------------

  /** `map((s) => s.trim())`: each piece trimmed, in place. */
  function TrimAll(parts: seq<string>): (r: seq<string>)
    ensures |r| == |parts|
    ensures forall k :: 0 <= k < |r| ==> r[k] == Trim(parts[k])
    ensures forall k :: 0 <= k < |r| ==> IsTrimmed(r[k])
  {
    seq(|parts|, k requires 0 <= k < |parts| => Trim(parts[k]))
  }

  /** Trimming the pieces of a concatenation trims each list of pieces. */
  lemma TrimAllAppend(a: seq<string>, b: seq<string>)
    ensures TrimAll(a + b) == TrimAll(a) + TrimAll(b)
  {
  }

  /** Trimming twice is trimming once. */
  lemma TrimAllIdempotent(parts: seq<string>)
    ensures TrimAll(TrimAll(parts)) == TrimAll(parts)
  {
    TrimAllOfTrimmed(TrimAll(parts));
  }

  /** `filter(Boolean)` on strings: drops the empty ones and keeps the order. */
  function NonEmpty(parts: seq<string>): (r: seq<string>)
    ensures |r| <= |parts|
    ensures forall k :: 0 <= k < |r| ==> r[k] != [] && r[k] in parts
    ensures forall k :: 0 <= k < |parts| && parts[k] != [] ==> parts[k] in r
    decreases |parts|
  {
    if parts == [] then []
    else if parts[0] == [] then NonEmpty(parts[1..])
    else [parts[0]] + NonEmpty(parts[1..])
  }

  /** Every non-empty piece is kept as often as it occurs, and no empty piece is kept. */
  lemma {:induction false} NonEmptyCounts(parts: seq<string>)
    ensures forall x :: x != [] ==> multiset(NonEmpty(parts))[x] == multiset(parts)[x]
    ensures multiset(NonEmpty(parts))[[]] == 0
    decreases |parts|
  {
    if parts != [] {
      NonEmptyCounts(parts[1..]);
      assert parts == [parts[0]] + parts[1..];
    }
  }

  /**
   * Filtering a concatenation filters each part and keeps them in that order, so the kept
   * pieces keep their relative order.
   */
  lemma {:induction false} NonEmptyAppend(a: seq<string>, b: seq<string>)
    ensures NonEmpty(a + b) == NonEmpty(a) + NonEmpty(b)
    decreases |a|
  {
    if a == [] {
      assert a + b == b;
    } else {
      assert (a + b)[1..] == a[1..] + b;
      NonEmptyAppend(a[1..], b);
    }
  }

  /** A single piece is kept exactly when it is non-empty. */
  lemma NonEmptyOfOne(x: string)
    ensures NonEmpty([x]) == if x == [] then [] else [x]
  {
    assert [x][1..] == [];
  }

  predicate IsAddress(a: string) {
    a != [] && IsTrimmed(a) && ',' !in a
  }

  /**
   * A To or Cc header split into its addresses: nothing for a blank header, otherwise the
   * comma-separated pieces, trimmed, without the empty ones.
   */
  function ParseAddressList(raw: string): (r: seq<string>)
    ensures forall k :: 0 <= k < |r| ==> IsAddress(r[k])
    ensures AllWhitespace(raw) ==> r == []
  {
    if Trim(raw) == [] then []
    else
      var r := NonEmpty(TrimAll(Split(raw, ',')));
      assert forall k :: 0 <= k < |r| ==> IsAddress(r[k]) by {
        forall k | 0 <= k < |r| ensures IsAddress(r[k]) {
          var parts := Split(raw, ',');
          var j :| 0 <= j < |parts| && TrimAll(parts)[j] == r[k];
          assert ',' !in parts[j];
        }
      }
      r
  }

  lemma {:induction false} NonEmptyOfAll(parts: seq<string>)
    requires forall k :: 0 <= k < |parts| ==> parts[k] != []
    ensures NonEmpty(parts) == parts
    decreases |parts|
  {
    if parts != [] {
      NonEmptyOfAll(parts[1..]);
      assert [parts[0]] + parts[1..] == parts;
    }
  }

  /** The blank-input shortcut agrees with splitting, trimming and filtering. */
  lemma {:induction false} ParseAddressListShortcut(raw: string)
    ensures ParseAddressList(raw) == NonEmpty(TrimAll(Split(raw, ',')))
  {
    if Trim(raw) == [] {
      BlankHasNoAddress(raw);
    }
  }

  /** A blank header is one piece, which trims to nothing. */
  lemma BlankHasNoAddress(raw: string)
    requires AllWhitespace(raw)
    ensures NonEmpty(TrimAll(Split(raw, ','))) == []
  {
    NoCommaInWhitespace(raw);
    SplitWithoutSeparator(raw, ',');
    assert TrimAll([raw]) == [[]];
  }

  lemma NoCommaInWhitespace(raw: string)
    requires AllWhitespace(raw)
    ensures ',' !in raw
  {
    assert !IsJsWhitespace(',');
  }

  lemma TrimAllOfTrimmed(parts: seq<string>)
    requires forall k :: 0 <= k < |parts| ==> IsTrimmed(parts[k])
    ensures TrimAll(parts) == parts
  {
    forall k | 0 <= k < |parts| ensures Trim(parts[k]) == parts[k] {
      TrimOfTrimmed(parts[k]);
    }
  }

  /** Addresses joined with commas are split back into exactly those addresses. */
  lemma ParseAddressListOfJoin(addrs: seq<string>)
    requires forall k :: 0 <= k < |addrs| ==> IsAddress(addrs[k])
    ensures ParseAddressList(Join(addrs, ',')) == addrs
  {
    ParseAddressListShortcut(Join(addrs, ','));
    if addrs == [] {
      EmptyJoinHasNoAddress();
    } else {
      JoinedAddressesPipeline(addrs);
    }
  }

  lemma EmptyJoinHasNoAddress()
    ensures NonEmpty(TrimAll(Split(Join([], ','), ','))) == []
  {
    assert Split([], ',') == [[]];
    assert TrimAll([[]]) == [[]];
  }

  lemma JoinedAddressesPipeline(addrs: seq<string>)
    requires addrs != []
    requires forall k :: 0 <= k < |addrs| ==> IsAddress(addrs[k])
    ensures NonEmpty(TrimAll(Split(Join(addrs, ','), ','))) == addrs
  {
    SplitJoin(addrs, ',');
    TrimAllOfTrimmed(addrs);
    NonEmptyOfAll(addrs);
  }

  // ---- parseGmailMessage ------------------------------------------------------------------

  /**
   * The stored record for a wire message: identifiers, snippet and labels copied, the From,
   * To and Subject headers looked up with their defaults, the date from `internalDate`, the
   * two bodies extracted, and not yet classified.
   */
  function ParseGmailMessage(msg: GmailMessage): (e: StoredEmail)
    ensures e.id == msg.id && e.threadId == msg.threadId && e.historyId == msg.historyId
    ensures e.snippet == msg.snippet
    ensures !e.parsed && e.parsedAt.None? && e.category.None?
    ensures msg.labelIds.None? ==> e.labels == []
    ensures ExtractHeader(msg.payload.headers, "From").None? ==> e.from == ""
    ensures ExtractHeader(msg.payload.headers, "Subject").None? ==> e.subject == "(no subject)"
    ensures ExtractHeader(msg.payload.headers, "To").None? ==> e.to == []
    ensures forall k :: 0 <= k < |e.to| ==> IsAddress(e.to[k])
    ensures e.from == ExtractHeader(msg.payload.headers, "From").GetOr("")
    ensures e.subject == ExtractHeader(msg.payload.headers, "Subject").GetOr("(no subject)")
    ensures e.to == ParseAddressList(ExtractHeader(msg.payload.headers, "To").GetOr(""))
    ensures e.bodyText == ExtractBody(msg.payload, "text/plain")
    ensures e.bodyHtml == ExtractBody(msg.payload, "text/html")
    ensures e.labels == msg.labelIds.GetOr([])
  {
    var headers := msg.payload.headers;
    StoredEmail(
      id := msg.id,
      threadId := msg.threadId,
      historyId := msg.historyId,
      from := ExtractHeader(headers, "From").GetOr(""),
      to := ParseAddressList(ExtractHeader(headers, "To").GetOr("")),
      subject := ExtractHeader(headers, "Subject").GetOr("(no subject)"),
      date := Dates.TimeClip(StringToNumber(msg.internalDate)),
      snippet := msg.snippet,
      bodyText := ExtractBody(msg.payload, "text/plain"),
      bodyHtml := ExtractBody(msg.payload, "text/html"),
      labels := msg.labelIds.GetOr([]),
      parsed := false,
      parsedAt := None,
      category := None)
  }

  /** An `internalDate` written as the decimal numeral of an instant in range becomes that instant. */
  lemma ParseGmailMessageDate(msg: GmailMessage, t: int)
    requires msg.internalDate == IntToString(t) && -Dates.MaxTime <= t <= Dates.MaxTime
    ensures ParseGmailMessage(msg).date == Some(t)
  {
    StringToNumberOfIntToString(t);
  }
}
