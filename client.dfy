/**
 * The Gmail REST client (lib/gmail/client.ts): an authenticated fetch with retries, and the
 * four calls the sync engine makes on top of it. The network is an oracle: the responses
 * the server gives to successive attempts of one call, in order; an attempt beyond the
 * last of them is a `fetch` that rejects. Sleeps are recorded as their durations.
 */
module Client {
  import opened Wrappers
  import opened Text
  import opened Email

  const MaxRetries: nat := 3
  const ConcurrencyLimit: nat := 10

  /** `AuthExpiredError`, `GmailApiError`, and the rejection of `fetch` itself. */
  datatype ApiError =
    | AuthExpired
    | GmailApiError(status: int, message: string)
    | FetchRejected

  const AuthExpiredMessage: string := "Gmail access token has expired. Please sign in again."

  /** One HTTP response: its status, its text (`None` where reading it fails), and its JSON. */
  datatype Response<T> = Response(status: int, text: Option<string>, json: T)

  predicate IsOk(status: int) { 200 <= status <= 299 }

  /** The message of the error thrown for a failed status; an unreadable body reads as empty. */
  function ApiErrorMessage(status: int, text: Option<string>): string {
    "Gmail API " + IntToString(status) + ": " + text.GetOr("")
  }

  function Pow2(n: nat): (r: nat)
    ensures r >= 1
  {
    if n == 0 then 1 else 2 * Pow2(n - 1)
  }

  /** The wait after a 429 on attempt `attempt` (counted from 0). */
  function Backoff(attempt: nat): nat {
    1000 * Pow2(attempt)
  }

  /** The first wait is a second, and each later one doubles the one before. */
  lemma BackoffDoubles(attempt: nat)
    ensures Backoff(0) == 1000
    ensures Backoff(attempt + 1) == 2 * Backoff(attempt)
  {
  }

  // ---- gmailFetch -------------------------------------------------------------------------

  /** What one call comes to: the response or error, the sleeps it made, and how many fetches. */
  datatype FetchOutcome<T> = FetchOutcome(result: Result<Response<T>, ApiError>, sleeps: seq<nat>, attempts: nat)

  /** The attempts from `attempt` on, as a specification of the retry loop. */
  function FetchFrom<T>(responses: seq<Response<T>>, retries: nat, attempt: nat): FetchOutcome<T>
    requires attempt <= retries
    decreases retries - attempt
  {
    if attempt >= |responses| then FetchOutcome(Failure(FetchRejected), [], attempt + 1)
    else
      var res := responses[attempt];
      if IsOk(res.status) then FetchOutcome(Success(res), [], attempt + 1)
      else if res.status == 401 then FetchOutcome(Failure(AuthExpired), [], attempt + 1)
      else if res.status == 429 && attempt < retries then
        var rest := FetchFrom(responses, retries, attempt + 1);
        FetchOutcome(rest.result, [Backoff(attempt)] + rest.sleeps, rest.attempts)
      else FetchOutcome(Failure(GmailApiError(res.status, ApiErrorMessage(res.status, res.text))), [], attempt + 1)
  }

  /** How the last attempt, number `last`, decides the outcome. */
  ghost predicate SettledBy<T>(responses: seq<Response<T>>, retries: nat, last: nat, result: Result<Response<T>, ApiError>) {
    if last >= |responses| then result == Failure(FetchRejected)
    else
      var res := responses[last];
      (IsOk(res.status) ==> result == Success(res))
      && (!IsOk(res.status) && res.status == 401 ==> result == Failure(AuthExpired))
      && (!IsOk(res.status) && res.status != 401 ==>
            result == Failure(GmailApiError(res.status, ApiErrorMessage(res.status, res.text)))
            && (res.status == 429 ==> last == retries))
  }

  /** Attempts `from` up to (not including) `to` were all answered 429. */
  ghost predicate Throttled<T>(responses: seq<Response<T>>, from: nat, to: int) {
    (from < to ==> to <= |responses|) && forall k :: from <= k < to ==> responses[k].status == 429
  }

  /** A 429 in front of a throttled run extends it by one attempt. */
  lemma ThrottledExtend<T>(responses: seq<Response<T>>, from: nat, to: int)
    requires from < |responses| && responses[from].status == 429
    requires Throttled(responses, from + 1, to)
    ensures Throttled(responses, from, to)
  {
    forall k | from <= k < to
      ensures responses[k].status == 429
    {
      if k > from {
        assert from + 1 <= k < to;
      }
    }
  }

  /**
   * The shape of a fetch that started at attempt `attempt`: at most `retries + 1` attempts;
   * every attempt but the last was answered 429 and was followed by a sleep of 1000 * 2^k ms;
   * the last attempt decides: an OK response is returned, 401 is an expired token, anything
   * else (429 only on the final attempt) an API error.
   */
  ghost predicate Shaped<T>(responses: seq<Response<T>>, retries: nat, attempt: nat, o: FetchOutcome<T>) {
    attempt < o.attempts <= retries + 1
    && |o.sleeps| == o.attempts - 1 - attempt
    && (forall k :: 0 <= k < |o.sleeps| ==> o.sleeps[k] == Backoff(attempt + k))
    && Throttled(responses, attempt, o.attempts - 1)
    && SettledBy(responses, retries, o.attempts - 1, o.result)
  }

  lemma {:induction false} FetchFromShape<T>(responses: seq<Response<T>>, retries: nat, attempt: nat)
    requires attempt <= retries
    ensures Shaped(responses, retries, attempt, FetchFrom(responses, retries, attempt))
    decreases retries - attempt
  {
    if attempt < |responses| {
      var res := responses[attempt];
      if !IsOk(res.status) && res.status == 429 && attempt < retries {
        FetchFromShape(responses, retries, attempt + 1);
        var rest := FetchFrom(responses, retries, attempt + 1);
        RetryShape(responses, retries, attempt, rest);
      } else {
        assert FetchFrom(responses, retries, attempt).attempts == attempt + 1;
      }
    }
  }

  /** A 429 followed by a sleep and a shaped rest of the fetch is a shaped fetch. */
  lemma RetryShape<T>(responses: seq<Response<T>>, retries: nat, attempt: nat, rest: FetchOutcome<T>)
    requires attempt < retries && attempt < |responses| && responses[attempt].status == 429
    requires Shaped(responses, retries, attempt + 1, rest)
    ensures Shaped(responses, retries, attempt,
                   FetchOutcome(rest.result, [Backoff(attempt)] + rest.sleeps, rest.attempts))
  {
    var o := FetchOutcome(rest.result, [Backoff(attempt)] + rest.sleeps, rest.attempts);
    assert forall k :: 1 <= k < |o.sleeps| ==> o.sleeps[k] == rest.sleeps[k - 1];
    ThrottledExtend(responses, attempt, rest.attempts - 1);
  }

  /** `gmailFetch`: fetch until a response is OK, the token has expired, or retries run out. */
  method GmailFetch<T>(responses: seq<Response<T>>, retries: nat)
    returns (result: Result<Response<T>, ApiError>, sleeps: seq<nat>, attempts: nat)
    ensures FetchOutcome(result, sleeps, attempts) == FetchFrom(responses, retries, 0)
  {
    var attempt: nat := 0;
    sleeps := [];
    while attempt <= retries
      invariant attempt <= retries
      invariant var rest := FetchFrom(responses, retries, attempt);
        FetchFrom(responses, retries, 0) == FetchOutcome(rest.result, sleeps + rest.sleeps, rest.attempts)
      decreases retries - attempt
    {
      assert sleeps + [] == sleeps;
      if attempt >= |responses| {
        return Failure(FetchRejected), sleeps, attempt + 1;
      }
      var res := responses[attempt];
      if IsOk(res.status) {
        return Success(res), sleeps, attempt + 1;
      }
      if res.status == 401 {
        return Failure(AuthExpired), sleeps, attempt + 1;
      }
      if res.status == 429 && attempt < retries {
        ghost var rest := FetchFrom(responses, retries, attempt + 1);
        assert FetchFrom(responses, retries, attempt) == FetchOutcome(rest.result, [Backoff(attempt)] + rest.sleeps, rest.attempts);
        assert sleeps + ([Backoff(attempt)] + rest.sleeps) == (sleeps + [Backoff(attempt)]) + rest.sleeps;
        sleeps := sleeps + [Backoff(attempt)];
        attempt := attempt + 1;
        continue;
      }
      return Failure(GmailApiError(res.status, ApiErrorMessage(res.status, res.text))), sleeps, attempt + 1;
    }
    assert false;
    return Failure(GmailApiError(500, "Max retries exceeded")), sleeps, attempt;
  }

  /** Two 429 answers and then an OK one: sleeps of 1 s and 2 s, and the third response. */
  lemma TwoThrottlesThenOk<T>(responses: seq<Response<T>>)
    requires |responses| >= 3
    requires responses[0].status == 429 && responses[1].status == 429 && IsOk(responses[2].status)
    ensures FetchFrom(responses, MaxRetries, 0) == FetchOutcome(Success(responses[2]), [1000, 2000], 3)
  {
    assert FetchFrom(responses, MaxRetries, 2) == FetchOutcome(Success(responses[2]), [], 3);
    assert FetchFrom(responses, MaxRetries, 1) == FetchOutcome(Success(responses[2]), [2000], 3);
  }

  /** Four 429 answers: three sleeps, then the fourth 429 is thrown as an API error. */
  lemma ThrottledOut<T>(responses: seq<Response<T>>)
    requires |responses| >= 4
    requires forall k :: 0 <= k < 4 ==> responses[k].status == 429
    ensures FetchFrom(responses, MaxRetries, 0) == FetchOutcome(
      Failure(GmailApiError(429, ApiErrorMessage(429, responses[3].text))), [1000, 2000, 4000], 4)
  {
    var last := FetchFrom(responses, MaxRetries, 3);
    assert last == FetchOutcome(Failure(GmailApiError(429, ApiErrorMessage(429, responses[3].text))), [], 4);
    assert FetchFrom(responses, MaxRetries, 2) == FetchOutcome(last.result, [4000], 4);
    assert FetchFrom(responses, MaxRetries, 1) == FetchOutcome(last.result, [2000, 4000], 4);
  }

  /** The result of one call mapped through `f`, as its caller sees it. */
  function Outcome<T, U>(responses: seq<Response<T>>, f: T -> U): Result<U, ApiError> {
    match FetchFrom(responses, MaxRetries, 0).result
    case Success(res) => Success(f(res.json))
    case Failure(e) => Failure(e)
  }

  // ---- Requests ---------------------------------------------------------------------------

  /** A request: the path under the user's endpoint and its query parameters, in order. */
  datatype Request = Request(path: string, params: seq<(string, string)>)

  /** A parameter given as `string | undefined` is set when it is a non-empty string. */
  predicate Given(s: Option<string>) { s.Some? && s.value != "" }

  /** `URLSearchParams.get(key)`: the value of the first parameter with that name. */
  function ParamValue(params: seq<(string, string)>, key: string): Option<string>
    decreases |params|
  {
    if params == [] then None
    else if params[0].0 == key then Some(params[0].1)
    else ParamValue(params[1..], key)
  }

  /** Looking a name up in two parameter lists in turn finds it in the first when it is there. */
  lemma {:induction false} ParamValueAppend(a: seq<(string, string)>, b: seq<(string, string)>, key: string)
    ensures ParamValue(a + b, key) == if ParamValue(a, key).Some? then ParamValue(a, key) else ParamValue(b, key)
    decreases |a|
  {
    if a == [] {
      assert a + b == b;
    } else {
      assert (a + b)[1..] == a[1..] + b;
      ParamValueAppend(a[1..], b, key);
    }
  }

  /**
   * `if (pageToken) params.set('pageToken', pageToken)`: reading `pageToken` back gives the
   * token exactly when it is a non-empty string, and no other name is set.
   */
  function PageTokenParam(pageToken: Option<string>): (ps: seq<(string, string)>)
    ensures Given(pageToken) ==> ps == [("pageToken", pageToken.value)]
    ensures !Given(pageToken) ==> ps == []
    ensures ParamValue(ps, "pageToken") == if Given(pageToken) then pageToken else None
    ensures forall k :: 0 <= k < |ps| ==> ps[k].0 == "pageToken"
  {
    if Given(pageToken) then [("pageToken", pageToken.value)] else []
  }

  // ---- listMessages -----------------------------------------------------------------------

  datatype MessageRef = MessageRef(id: string, threadId: string)

  datatype ListMessagesResponse = ListMessagesResponse(messages: Option<seq<MessageRef>>, nextPageToken: Option<string>)

  datatype MessagePage = MessagePage(messages: seq<MessageRef>, nextPageToken: Option<string>)

  function ListMessagesRequest(query: string, pageToken: Option<string>, maxResults: int): (req: Request)
    ensures req.path == "/messages"
    ensures ("pageToken", pageToken.GetOr("")) in req.params <==> Given(pageToken)
  {
    Request("/messages", [("q", query), ("maxResults", IntToString(maxResults))] + PageTokenParam(pageToken))
  }

  /** The query, the page size and the page token read back from a `listMessages` request. */
  lemma ListMessagesRequestParams(query: string, pageToken: Option<string>, maxResults: int)
    ensures var ps := ListMessagesRequest(query, pageToken, maxResults).params;
      ParamValue(ps, "q") == Some(query)
      && ParamValue(ps, "maxResults") == Some(IntToString(maxResults))
      && ParamValue(ps, "pageToken") == if Given(pageToken) then pageToken else None
  {
    var fixed := [("q", query), ("maxResults", IntToString(maxResults))];
    ParamValueAppend(fixed, PageTokenParam(pageToken), "q");
    ParamValueAppend(fixed, PageTokenParam(pageToken), "maxResults");
    ParamValueAppend(fixed, PageTokenParam(pageToken), "pageToken");
  }

  /** The page: its messages (none when the field is absent) and the token of the next page. */
  function MessagePageOf(data: ListMessagesResponse): (p: MessagePage)
    ensures data.messages.None? ==> p.messages == []
    ensures data.messages.Some? ==> p.messages == data.messages.value
    ensures p.nextPageToken == data.nextPageToken
  {
    MessagePage(data.messages.GetOr([]), data.nextPageToken)
  }

  method ListMessages(query: string, pageToken: Option<string>, maxResults: int, responses: seq<Response<ListMessagesResponse>>)
    returns (req: Request, r: Result<MessagePage, ApiError>, sleeps: seq<nat>)
    ensures req == ListMessagesRequest(query, pageToken, maxResults)
    ensures r == Outcome(responses, MessagePageOf)
    ensures sleeps == FetchFrom(responses, MaxRetries, 0).sleeps
  {
    req := ListMessagesRequest(query, pageToken, maxResults);
    var res, s, _ := GmailFetch(responses, MaxRetries);
    sleeps := s;
    match res
    case Success(resp) => r := Success(MessagePageOf(resp.json));
    case Failure(e) => r := Failure(e);
  }

  // ---- getMessage -------------------------------------------------------------------------

  datatype Format = Full | Metadata | Minimal

  function FormatName(f: Format): string {
    match f
    case Full => "full"
    case Metadata => "metadata"
    case Minimal => "minimal"
  }

  function GetMessageRequest(messageId: string, format: Format): (req: Request)
    ensures req.params == [("format", FormatName(format))]
    ensures req.path == "/messages/" + messageId
  {
    Request("/messages/" + messageId, [("format", FormatName(format))])
  }

  /**
   * A `getMessage` request names its message and format: two requests are equal only for the
   * same id and format, and the `format` parameter reads back as the format's name.
   */
  lemma GetMessageRequestIdentifies(id1: string, f1: Format, id2: string, f2: Format)
    ensures GetMessageRequest(id1, f1) == GetMessageRequest(id2, f2) <==> id1 == id2 && f1 == f2
    ensures ParamValue(GetMessageRequest(id1, f1).params, "format") == Some(FormatName(f1))
  {
    var p1, p2 := GetMessageRequest(id1, f1).path, GetMessageRequest(id2, f2).path;
    if p1 == p2 {
      assert id1 == p1[10..] && id2 == p2[10..];
    }
  }

  function Identity<T>(x: T): T { x }

  method GetMessage(messageId: string, format: Format, responses: seq<Response<GmailMessage>>)
    returns (req: Request, r: Result<GmailMessage, ApiError>, sleeps: seq<nat>)
    ensures req == GetMessageRequest(messageId, format)
    ensures r == Outcome(responses, Identity)
    ensures sleeps == FetchFrom(responses, MaxRetries, 0).sleeps
  {
    req := GetMessageRequest(messageId, format);
    var res, s, _ := GmailFetch(responses, MaxRetries);
    sleeps := s;
    match res
    case Success(resp) => r := Success(resp.json);
    case Failure(e) => r := Failure(e);
  }

  // ---- chunkArray -------------------------------------------------------------------------

  function Flatten<T>(chunks: seq<seq<T>>): seq<T>
    decreases |chunks|
  {
    if chunks == [] then [] else Flatten(chunks[..|chunks| - 1]) + chunks[|chunks| - 1]
  }

  lemma FlattenAppend<T>(chunks: seq<seq<T>>, c: seq<T>)
    ensures Flatten(chunks + [c]) == Flatten(chunks) + c
  {
    assert (chunks + [c])[..|chunks|] == chunks;
  }

  function Min(a: int, b: int): int { if a <= b then a else b }

  /**
   * Cuts `arr` into consecutive slices of `size`; only the last may be shorter. A size of
   * zero would never advance, so it is allowed only on an empty array.
   */
  method ChunkArray<T>(arr: seq<T>, size: nat) returns (chunks: seq<seq<T>>)
    requires size > 0 || arr == []
    ensures Flatten(chunks) == arr
    ensures forall k :: 0 <= k < |chunks| ==> 0 < |chunks[k]| <= size
    ensures forall k :: 0 <= k < |chunks| - 1 ==> |chunks[k]| == size
    ensures chunks == ChunksOf(arr, size)
  {
    chunks := [];
    var i := 0;
    while i < |arr|
      invariant chunks + ChunksOf(arr[Min(i, |arr|)..], size) == ChunksOf(arr, size)
      decreases |arr| - i
    {
      ChunksOfStep(arr, size, i);
      assert (chunks + [arr[i..Min(i + size, |arr|)]]) + ChunksOf(arr[Min(i + size, |arr|)..], size)
        == chunks + ChunksOf(arr[i..], size);
      chunks := chunks + [arr[i..Min(i + size, |arr|)]];
      i := i + size;
    }
    assert arr[Min(i, |arr|)..] == [];
    assert chunks + [] == chunks;
    ChunksOfShape(arr, size);
  }

  /** The chunks cover the array in order; each has `size` elements except a shorter last one. */
  lemma {:induction false} ChunksOfShape<T>(arr: seq<T>, size: nat)
    requires size > 0 || arr == []
    ensures Flatten(ChunksOf(arr, size)) == arr
    ensures forall k :: 0 <= k < |ChunksOf(arr, size)| ==> 0 < |ChunksOf(arr, size)[k]| <= size
    ensures forall k :: 0 <= k < |ChunksOf(arr, size)| - 1 ==> |ChunksOf(arr, size)[k]| == size
    decreases |arr|
  {
    if arr != [] {
      var n := Min(size, |arr|);
      var rest := ChunksOf(arr[n..], size);
      ChunksOfShape(arr[n..], size);
      FlattenSplit([arr[..n]], rest);
      assert Flatten([arr[..n]]) == arr[..n] by {
        assert [arr[..n]][..0] == [];
      }
      assert arr[..n] + arr[n..] == arr;
      assert forall k :: 0 < k < |ChunksOf(arr, size)| ==> ChunksOf(arr, size)[k] == rest[k - 1];
    }
  }

  /** The chunks `chunkArray(arr, size)` returns, by recursion on the array. */
  function ChunksOf<T>(arr: seq<T>, size: nat): seq<seq<T>>
    requires size > 0 || arr == []
    decreases |arr|
  {
    if arr == [] then []
    else
      var n := Min(size, |arr|);
      [arr[..n]] + ChunksOf(arr[n..], size)
  }

  lemma ChunksOfStep<T>(arr: seq<T>, size: nat, i: nat)
    requires size > 0 && i < |arr|
    ensures ChunksOf(arr[i..], size) == [arr[i..Min(i + size, |arr|)]] + ChunksOf(arr[Min(i + size, |arr|)..], size)
  {
    var n := Min(size, |arr| - i);
    assert arr[i..][..n] == arr[i..Min(i + size, |arr|)];
    assert arr[i..][n..] == arr[Min(i + size, |arr|)..];
  }

  /** The number of chunks is |arr| / size rounded up. */
  lemma {:induction false} ChunkCount<T>(arr: seq<T>, size: nat)
    requires size > 0
    ensures arr == [] ==> ChunksOf(arr, size) == []
    ensures arr != [] ==> (|ChunksOf(arr, size)| - 1) * size < |arr| <= |ChunksOf(arr, size)| * size
    decreases |arr|
  {
    if |arr| > size {
      ChunkCount(arr[size..], size);
      var c := |ChunksOf(arr[size..], size)|;
      assert |ChunksOf(arr, size)| == c + 1;
      assert (c + 1) * size == c * size + size;
    }
  }

  // ---- batchGetMessages -------------------------------------------------------------------

  /** The successful values among `outcomes`, in order. */
  function Successes<T, E>(outcomes: seq<Result<T, E>>): (r: seq<T>)
    ensures |r| <= |outcomes|
    decreases |outcomes|
  {
    if outcomes == [] then []
    else
      var init := Successes(outcomes[..|outcomes| - 1]);
      var last := outcomes[|outcomes| - 1];
      if last.Success? then init + [last.value] else init
  }

  lemma {:induction false} SuccessesAppend<T, E>(a: seq<Result<T, E>>, b: seq<Result<T, E>>)
    ensures Successes(a + b) == Successes(a) + Successes(b)
    decreases |b|
  {
    if b == [] {
      assert a + b == a;
    } else {
      assert (a + b)[..|a + b| - 1] == a + b[..|b| - 1];
      SuccessesAppend(a, b[..|b| - 1]);
    }
  }

  /** A failure among the outcomes removes only itself: the results around it all remain. */
  lemma FailureRemovesOnlyItself<T, E>(a: seq<Result<T, E>>, e: E, b: seq<Result<T, E>>)
    ensures Successes(a + [Failure(e)] + b) == Successes(a) + Successes(b)
  {
    SuccessesAppend(a + [Failure(e)], b);
    assert (a + [Failure(e)])[..|a|] == a;
  }

  /** When every outcome succeeds, every value is returned. */
  lemma {:induction false} SuccessesOfAllOk<T, E>(outcomes: seq<Result<T, E>>)
    requires forall k :: 0 <= k < |outcomes| ==> outcomes[k].Success?
    ensures |Successes(outcomes)| == |outcomes|
    ensures forall k :: 0 <= k < |outcomes| ==> Successes(outcomes)[k] == outcomes[k].value
    decreases |outcomes|
  {
    if outcomes != [] {
      SuccessesOfAllOk(outcomes[..|outcomes| - 1]);
    }
  }

  /** What `getMessage(id)` comes to for each id, given the responses the server gives for an id. */
  function MessageOutcomes(ids: seq<string>, server: string -> seq<Response<GmailMessage>>)
    : (r: seq<Result<GmailMessage, ApiError>>)
    ensures |r| == |ids|
  {
    seq(|ids|, k requires 0 <= k < |ids| => Outcome(server(ids[k]), Identity))
  }

  lemma MessageOutcomesAppend(a: seq<string>, b: seq<string>, server: string -> seq<Response<GmailMessage>>)
    ensures MessageOutcomes(a + b, server) == MessageOutcomes(a, server) + MessageOutcomes(b, server)
  {
  }

  /** Every success is the value of one of the outcomes. */
  lemma {:induction false} SuccessesAreOutcomes<T, E>(outcomes: seq<Result<T, E>>, x: T)
    requires x in Successes(outcomes)
    ensures exists j :: 0 <= j < |outcomes| && outcomes[j] == Success(x)
    decreases |outcomes|
  {
    var init := outcomes[..|outcomes| - 1];
    var last := outcomes[|outcomes| - 1];
    if last.Success? && last.value == x {
      assert outcomes[|outcomes| - 1] == Success(x);
    } else {
      SuccessesAreOutcomes(init, x);
      var j :| 0 <= j < |init| && init[j] == Success(x);
      assert outcomes[j] == init[j];
    }
  }

  /** A successful call returns the body of one of the responses. */
  lemma OutcomeIsResponse<T, U>(responses: seq<Response<T>>, f: T -> U)
    requires Outcome(responses, f).Success?
    ensures exists k :: 0 <= k < |responses| && Outcome(responses, f).value == f(responses[k].json)
  {
    FetchFromShape(responses, MaxRetries, 0);
    var o := FetchFrom(responses, MaxRetries, 0);
    var last := o.attempts - 1;
    assert last < |responses| && o.result == Success(responses[last]);
  }

  /** A server that answers every `getMessage` of an id with that message. */
  ghost predicate Faithful(server: string -> seq<Response<GmailMessage>>) {
    forall id, k :: 0 <= k < |server(id)| ==> server(id)[k].json.id == id
  }

  /** From a faithful server, every message fetched was asked for. */
  lemma FetchedAreAsked(ids: seq<string>, server: string -> seq<Response<GmailMessage>>, m: GmailMessage)
    requires Faithful(server)
    requires m in Successes(MessageOutcomes(ids, server))
    ensures m.id in ids
  {
    var outcomes := MessageOutcomes(ids, server);
    SuccessesAreOutcomes(outcomes, m);
    var j :| 0 <= j < |outcomes| && outcomes[j] == Success(m);
    OutcomeIsResponse(server(ids[j]), Identity);
  }

  /** The `getMessage` requests for `ids`, in order. */
  function RequestsFor(ids: seq<string>): (reqs: seq<Request>)
    ensures |reqs| == |ids|
  {
    seq(|ids|, k requires 0 <= k < |ids| => GetMessageRequest(ids[k], Full))
  }

  lemma RequestsForAppend(a: seq<string>, b: seq<string>)
    ensures RequestsFor(a + b) == RequestsFor(a) + RequestsFor(b)
  {
  }

  /** The messages of one chunk, fetched in order. */
  method FetchChunk(chunk: seq<string>, server: string -> seq<Response<GmailMessage>>)
    returns (results: seq<GmailMessage>, requests: seq<Request>)
    ensures results == Successes(MessageOutcomes(chunk, server))
    ensures requests == RequestsFor(chunk)
  {
    ghost var outcomes := MessageOutcomes(chunk, server);
    results := [];
    requests := [];
    var j := 0;
    while j < |chunk|
      invariant 0 <= j <= |chunk|
      invariant results == Successes(outcomes[..j])
      invariant |requests| == j
      invariant forall k :: 0 <= k < j ==> requests[k] == GetMessageRequest(chunk[k], Full)
    {
      var req, r, _ := GetMessage(chunk[j], Full, server(chunk[j]));
      requests := requests + [req];
      assert outcomes[j] == r;
      SuccessesStep(outcomes, j);
      results := results + (if r.Success? then [r.value] else []);
      j := j + 1;
    }
    assert outcomes[..j] == outcomes;
  }

  /** One more outcome adds its value, if it is a success, to the successes so far. */
  lemma SuccessesStep<T, E>(outcomes: seq<Result<T, E>>, j: nat)
    requires j < |outcomes|
    ensures Successes(outcomes[..j + 1])
         == Successes(outcomes[..j]) + (if outcomes[j].Success? then [outcomes[j].value] else [])
  {
    assert outcomes[..j + 1][..j] == outcomes[..j];
  }

  lemma {:induction false} FlattenSplit<T>(a: seq<seq<T>>, b: seq<seq<T>>)
    ensures Flatten(a + b) == Flatten(a) + Flatten(b)
    decreases |b|
  {
    if b == [] {
      assert a + b == a;
    } else {
      var init, last := b[..|b| - 1], b[|b| - 1];
      assert (a + b)[..|a + b| - 1] == a + init;
      assert (a + b)[|a + b| - 1] == last;
      assert Flatten(a + b) == Flatten(a + init) + last;
      FlattenSplit(a, init);
      assert Flatten(b) == Flatten(init) + last;
      assert Flatten(a) + Flatten(init) + last == Flatten(a) + (Flatten(init) + last);
    }
  }

  /** The ids of chunk `c` follow those of the chunks before it. */
  lemma ChunkStep<T>(ids: seq<T>, chunks: seq<seq<T>>, c: nat, done: nat)
    requires Flatten(chunks) == ids && c < |chunks|
    requires done <= |ids| && ids[..done] == Flatten(chunks[..c])
    ensures done + |chunks[c]| <= |ids|
    ensures ids[..done + |chunks[c]|] == ids[..done] + chunks[c]
    ensures ids[..done + |chunks[c]|] == Flatten(chunks[..c + 1])
  {
    FlattenPrefix(chunks, c);
  }

  lemma FlattenPrefix<T>(chunks: seq<seq<T>>, c: nat)
    requires c < |chunks|
    ensures Flatten(chunks[..c + 1]) == Flatten(chunks[..c]) + chunks[c]
    ensures |Flatten(chunks[..c + 1])| <= |Flatten(chunks)|
    ensures Flatten(chunks)[..|Flatten(chunks[..c + 1])|] == Flatten(chunks[..c + 1])
  {
    assert chunks[..c + 1] == chunks[..c] + [chunks[c]];
    FlattenAppend(chunks[..c], chunks[c]);
    assert chunks[..c + 1] + chunks[c + 1..] == chunks;
    FlattenSplit(chunks[..c + 1], chunks[c + 1..]);
  }

  /** One chunk of `batchGetMessages`, fetched after the ids before it. */
  method FetchNextChunk(ids: seq<string>, done: nat, chunk: seq<string>, server: string -> seq<Response<GmailMessage>>,
                        results: seq<GmailMessage>, requests: seq<Request>)
    returns (results': seq<GmailMessage>, requests': seq<Request>)
    requires done + |chunk| <= |ids| && ids[..done + |chunk|] == ids[..done] + chunk
    requires results == Successes(MessageOutcomes(ids[..done], server)) && requests == RequestsFor(ids[..done])
    ensures results' == Successes(MessageOutcomes(ids[..done + |chunk|], server))
    ensures requests' == RequestsFor(ids[..done + |chunk|])
  {
    var rs, reqs := FetchChunk(chunk, server);
    MessageOutcomesAppend(ids[..done], chunk, server);
    SuccessesAppend(MessageOutcomes(ids[..done], server), MessageOutcomes(chunk, server));
    RequestsForAppend(ids[..done], chunk);
    results' := results + rs;
    requests' := requests + reqs;
  }

  /**
   * `batchGetMessages`: every id is fetched once, in order, ten at a time; the messages that
   * came back are returned in input order and failures are skipped.
   */
  method BatchGetMessages(ids: seq<string>, server: string -> seq<Response<GmailMessage>>)
    returns (results: seq<GmailMessage>, requests: seq<Request>)
    ensures results == Successes(MessageOutcomes(ids, server))
    ensures requests == RequestsFor(ids)
  {
    var chunks := ChunkArray(ids, ConcurrencyLimit);
    results := [];
    requests := [];
    var done := 0;
    var c := 0;
    while c < |chunks|
      invariant 0 <= c <= |chunks|
      invariant 0 <= done <= |ids| && ids[..done] == Flatten(chunks[..c])
      invariant results == Successes(MessageOutcomes(ids[..done], server))
      invariant requests == RequestsFor(ids[..done])
    {
      ChunkStep(ids, chunks, c, done);
      results, requests := FetchNextChunk(ids, done, chunks[c], server, results, requests);
      done := done + |chunks[c]|;
      c := c + 1;
    }
    assert chunks[..c] == chunks;
    assert ids[..done] == ids;
  }

  // ---- listHistory ------------------------------------------------------------------------

  datatype MessageAdded = MessageAdded(message: MessageRef)

  datatype HistoryRecord = HistoryRecord(id: string, messagesAdded: Option<seq<MessageAdded>>)

  datatype ListHistoryResponse = ListHistoryResponse(
    history: Option<seq<HistoryRecord>>,
    nextPageToken: Option<string>,
    historyId: string)

  datatype HistoryPage = HistoryPage(messageIds: seq<string>, nextPageToken: Option<string>, historyId: string)

  /** The ids of one record's added messages, in order. */
  function AddedIdsOf(added: seq<MessageAdded>): (ids: seq<string>)
    ensures |ids| == |added|
    ensures forall k :: 0 <= k < |added| ==> ids[k] == added[k].message.id
  {
    seq(|added|, k requires 0 <= k < |added| => added[k].message.id)
  }

  /** The ids of the added messages, record after record; an absent list counts as empty. */
  function AddedIds(history: seq<HistoryRecord>): seq<string>
    decreases |history|
  {
    if history == [] then []
    else AddedIds(history[..|history| - 1]) + AddedIdsOf(history[|history| - 1].messagesAdded.GetOr([]))
  }

  lemma {:induction false} AddedIdsAppend(a: seq<HistoryRecord>, b: seq<HistoryRecord>)
    ensures AddedIds(a + b) == AddedIds(a) + AddedIds(b)
    decreases |b|
  {
    if b == [] {
      assert a + b == a;
    } else {
      assert (a + b)[..|a + b| - 1] == a + b[..|b| - 1];
      AddedIdsAppend(a, b[..|b| - 1]);
    }
  }

  /** The record lists `id` among its `messagesAdded`. */
  predicate Adds(record: HistoryRecord, id: string) {
    exists a :: a in record.messagesAdded.GetOr([]) && a.message.id == id
  }

  /** The collected ids are exactly those some record lists as added. */
  lemma {:induction false} AddedIdsMembers(history: seq<HistoryRecord>, id: string)
    ensures id in AddedIds(history) <==> exists k :: 0 <= k < |history| && Adds(history[k], id)
    decreases |history|
  {
    if history != [] {
      var init, last := history[..|history| - 1], history[|history| - 1];
      AddedIdsMembers(init, id);
      var added := last.messagesAdded.GetOr([]);
      assert id in AddedIdsOf(added) <==> Adds(last, id) by {
        if Adds(last, id) {
          var a :| a in added && a.message.id == id;
          var j :| 0 <= j < |added| && added[j] == a;
          assert AddedIdsOf(added)[j] == id;
        }
      }
      assert forall k :: 0 <= k < |init| ==> init[k] == history[k];
    }
  }

  /** Records without added messages contribute nothing. */
  lemma AddedIdsOfNothingAdded(history: seq<HistoryRecord>)
    requires forall k :: 0 <= k < |history| ==> history[k].messagesAdded.None?
    ensures AddedIds(history) == []
  {
    if history != [] {
      AddedIdsOfNothingAdded(history[..|history| - 1]);
    }
  }

  /** The starting history id, the history type and the page token read back from a `listHistory` request. */
  lemma ListHistoryRequestParams(startHistoryId: string, pageToken: Option<string>)
    ensures var ps := ListHistoryRequest(startHistoryId, pageToken).params;
      ParamValue(ps, "startHistoryId") == Some(startHistoryId)
      && ParamValue(ps, "historyTypes") == Some("messageAdded")
      && ParamValue(ps, "pageToken") == if Given(pageToken) then pageToken else None
  {
    var fixed := [("startHistoryId", startHistoryId), ("historyTypes", "messageAdded"), ("maxResults", "500")];
    ParamValueAppend(fixed, PageTokenParam(pageToken), "startHistoryId");
    ParamValueAppend(fixed, PageTokenParam(pageToken), "historyTypes");
    ParamValueAppend(fixed, PageTokenParam(pageToken), "pageToken");
    assert ParamValue(fixed[2..], "pageToken") == None by {
      assert fixed[2..][1..] == [];
    }
  }

  function ListHistoryRequest(startHistoryId: string, pageToken: Option<string>): (req: Request)
    ensures req.path == "/history"
    ensures ("startHistoryId", startHistoryId) in req.params
    ensures ("pageToken", pageToken.GetOr("")) in req.params <==> Given(pageToken)
  {
    Request("/history", [("startHistoryId", startHistoryId), ("historyTypes", "messageAdded"), ("maxResults", "500")]
      + PageTokenParam(pageToken))
  }

  function HistoryPageOf(data: ListHistoryResponse): HistoryPage {
    HistoryPage(AddedIds(data.history.GetOr([])), data.nextPageToken, data.historyId)
  }

  /** Collects the added message ids of the history records, as the nested loops do. */
  method CollectAddedIds(history: seq<HistoryRecord>) returns (messageIds: seq<string>)
    ensures messageIds == AddedIds(history)
  {
    messageIds := [];
    var i := 0;
    while i < |history|
      invariant 0 <= i <= |history|
      invariant messageIds == AddedIds(history[..i])
    {
      var added := history[i].messagesAdded.GetOr([]);
      var j := 0;
      ghost var before := messageIds;
      while j < |added|
        invariant 0 <= j <= |added|
        invariant messageIds == before + AddedIdsOf(added)[..j]
      {
        assert AddedIdsOf(added)[..j + 1] == AddedIdsOf(added)[..j] + [added[j].message.id];
        messageIds := messageIds + [added[j].message.id];
        j := j + 1;
      }
      assert AddedIdsOf(added)[..j] == AddedIdsOf(added);
      assert history[..i + 1][..i] == history[..i];
      i := i + 1;
    }
    assert history[..i] == history;
  }

  method ListHistory(startHistoryId: string, pageToken: Option<string>, responses: seq<Response<ListHistoryResponse>>)
    returns (req: Request, r: Result<HistoryPage, ApiError>, sleeps: seq<nat>)
    ensures req == ListHistoryRequest(startHistoryId, pageToken)
    ensures r == Outcome(responses, HistoryPageOf)
    ensures sleeps == FetchFrom(responses, MaxRetries, 0).sleeps
  {
    req := ListHistoryRequest(startHistoryId, pageToken);
    var res, s, _ := GmailFetch(responses, MaxRetries);
    sleeps := s;
    match res
    case Failure(e) => r := Failure(e);
    case Success(resp) =>
      var ids := CollectAddedIds(resp.json.history.GetOr([]));
      r := Success(HistoryPage(ids, resp.json.nextPageToken, resp.json.historyId));
  }
}
