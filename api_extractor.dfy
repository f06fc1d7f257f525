/**
 * The API extractor: the endpoint-to-table map, the order the endpoints are
 * extracted in, the cached access token, and the paginated fetch of one
 * endpoint. The HTTP session is replaced by two oracles: the reply to the
 * password grant and the server's answer to a page request.
 */
module ApiExtractor {
  import opened Wrappers
  import opened Frames
  import opened Schema
  import opened PyText

  // ---------------------------------------------------------------------------
  // Endpoints and the extraction order

  /** The nine REST endpoints. */
  datatype Endpoint =
    | AriesDailyCapacities | ProcountCompletionDailyTb | WellviewJob | WellviewJobReport
    | WellviewSurveyPoint | WellviewWellHeader | WiserockNote | WiserockUser | EiaOilPrice

  /** The endpoint's name, the last segment of its URL. */
  function EndpointName(e: Endpoint): string
  {
    match e
    case AriesDailyCapacities => "aries_daily_capacities"
    case ProcountCompletionDailyTb => "procount_completiondailytb"
    case WellviewJob => "wellview_job"
    case WellviewJobReport => "wellview_jobreport"
    case WellviewSurveyPoint => "wellview_surveypoint"
    case WellviewWellHeader => "wellview_wellheader"
    case WiserockNote => "wiserock_note"
    case WiserockUser => "wiserock_user"
    case EiaOilPrice => "eia_oil_price"
  }

  /** `ENDPOINT_TO_TABLE_MAP`: the staging table that receives each endpoint's records. */
  function EndpointTable(e: Endpoint): Table
  {
    match e
    case AriesDailyCapacities => DailyCapacities
    case ProcountCompletionDailyTb => CompletionDailyTb
    case WellviewJob => Job
    case WellviewJobReport => JobReport
    case WellviewSurveyPoint => SurveyPoint
    case WellviewWellHeader => WellHeader
    case WiserockNote => Note
    case WiserockUser => User
    case EiaOilPrice => OilPrice
  }

  /**
   * `{v: k for k, v in ENDPOINT_TO_TABLE_MAP.items()}`, written out;
   * InvertedMapUndoes and InvertedMapKeys show it is that inversion.
   */
  const TableToEndpoint: map<Table, Endpoint> := map[
    DailyCapacities := AriesDailyCapacities, CompletionDailyTb := ProcountCompletionDailyTb,
    Job := WellviewJob, JobReport := WellviewJobReport, SurveyPoint := WellviewSurveyPoint,
    WellHeader := WellviewWellHeader, Note := WiserockNote, User := WiserockUser, OilPrice := EiaOilPrice]

  /** `API_LOAD_ORDER`. */
  const ApiLoadOrder: seq<Table> := [WellHeader, User, Job, JobReport, SurveyPoint, Note, DailyCapacities, CompletionDailyTb, OilPrice]

  /** No two endpoints feed the same table, so inverting the map loses no entry. */
  lemma EndpointTableInjective(a: Endpoint, b: Endpoint)
    requires EndpointTable(a) == EndpointTable(b)
    ensures a == b
  {
  }

  /** The inverted map undoes the forward one. */
  lemma InvertedMapUndoes(e: Endpoint)
    ensures EndpointTable(e) in TableToEndpoint && TableToEndpoint[EndpointTable(e)] == e
  {
  }

  /** The inverted map's keys are exactly the forward map's values. */
  lemma InvertedMapKeys(t: Table)
    ensures t in TableToEndpoint <==> exists e :: EndpointTable(e) == t
  {
    if t in TableToEndpoint {
      InvertedMapUndoes(TableToEndpoint[t]);
      assert EndpointTable(TableToEndpoint[t]) == t;
    }
  }

  /** The lookup `endpoint_map[table_name]` never fails: the load order names exactly the tables the endpoints feed. */
  lemma LoadOrderIsMapped(t: Table)
    ensures t in ApiLoadOrder <==> t in TableToEndpoint
  {
  }

  /** Every table of the load order comes after the tables it references. */
  lemma ApiLoadOrderParentsFirst()
    ensures ParentsFirst(ApiLoadOrder)
  {
    var roots := [WellHeader, User];
    RootsParentsFirst(roots);
    ParentsFirstSnoc(roots, Job);
    ParentsFirstSnoc(roots + [Job], JobReport);
    ParentsFirstSnoc(roots + [Job] + [JobReport], SurveyPoint);
    var leaves := [Note, DailyCapacities, CompletionDailyTb, OilPrice];
    RootsParentsFirst(leaves);
    ParentsFirstAppend(roots + [Job] + [JobReport] + [SurveyPoint], leaves);
    assert roots + [Job] + [JobReport] + [SurveyPoint] + leaves == ApiLoadOrder;
  }

  /**
   * The one dependency the load order's comments name without a foreign key
   * behind it, note on user, is honoured too: user is loaded before note.
   */
  lemma ApiLoadOrderUserBeforeNote()
    ensures User in ApiLoadOrder && Note in ApiLoadOrder
    ensures forall i, j :: 0 <= i < |ApiLoadOrder| && 0 <= j < |ApiLoadOrder| && ApiLoadOrder[i] == User && ApiLoadOrder[j] == Note ==> i < j
    ensures !References(Note, User) && !References(User, Note)
  {
    forall i, j | 0 <= i < |ApiLoadOrder| && 0 <= j < |ApiLoadOrder| && ApiLoadOrder[i] == User && ApiLoadOrder[j] == Note
      ensures i < j
    {
      assert LoadRank(ApiLoadOrder[i]) == i && LoadRank(ApiLoadOrder[j]) == j;
    }
  }

  /** A table's position in the load order. */
  function LoadRank(t: Table): nat
  {
    match t
    case WellHeader => 0 case User => 1 case Job => 2 case JobReport => 3 case SurveyPoint => 4
    case Note => 5 case DailyCapacities => 6 case CompletionDailyTb => 7 case OilPrice => 8
    case _ => 9
  }

  /** The load order lists each table once. */
  lemma ApiLoadOrderNoDuplicates()
    ensures NoDuplicates(ApiLoadOrder)
  {
    forall i | 0 <= i < |ApiLoadOrder|
      ensures LoadRank(ApiLoadOrder[i]) == i
    {
    }
  }

  // ---------------------------------------------------------------------------
  // The access token

  /** The reply to the password-grant request. */
  datatype AuthReply =
    | AuthRefused                               // a RequestException: no connection, or an error status
    | AuthGranted(accessToken: Option<string>)  // a JSON body, with or without an "access_token" field

  /**
   * A request the extractor sends, in order: the token request, or a page
   * request for the rows `first` to `last` of an endpoint, whose `Range`
   * header is `RangeHeader(first, last)`.
   */
  datatype Request = TokenRequest | PageRequest(endpoint: Endpoint, first: nat, last: nat)

  /** What an operation of the extractor returns, the token cache it leaves, and the requests it sent. */
  datatype Call<T> = Call(result: Result<T>, cache: Option<string>, sent: seq<Request>)

  /** `if self.access_token:` is Python truthiness: the cache counts only when it holds a non-empty string. */
  predicate Cached(cache: Option<string>)
  {
    cache.Some? && cache.value != ""
  }

  /**
   * `_get_access_token`: the cached token when there is one; otherwise one
   * grant request, whose failure is re-raised and whose token is cached.
   */
  function GetToken(cache: Option<string>, reply: AuthReply): Call<string>
  {
    if Cached(cache) then Call(Ok(cache.value), cache, [])
    else match reply
      case AuthRefused => Call(Raised(AuthenticationError), cache, [TokenRequest])
      case AuthGranted(None) => Call(Raised(MissingTokenError), cache, [TokenRequest])
      case AuthGranted(Some(token)) => Call(Ok(token), Some(token), [TokenRequest])
  }

  /**
   * The cache is memoisation: a request is sent exactly when nothing usable is
   * cached, a failed request leaves the cache as it was, and once a usable
   * token is cached every later call returns it without a request.
   */
  lemma GetTokenCaches(cache: Option<string>, reply: AuthReply, later: AuthReply)
    ensures GetToken(cache, reply).sent == (if Cached(cache) then [] else [TokenRequest])
    ensures GetToken(cache, reply).result.Raised? ==> GetToken(cache, reply).cache == cache
    ensures GetToken(cache, reply).result.Ok? ==> GetToken(cache, reply).cache == Some(GetToken(cache, reply).result.value)
    ensures Cached(GetToken(cache, reply).cache) ==>
      GetToken(GetToken(cache, reply).cache, later) == Call(GetToken(cache, reply).result, GetToken(cache, reply).cache, [])
  {
  }

  // ---------------------------------------------------------------------------
  // Pagination

  const PageSize: nat := 1000

  /** The `Range` header for the rows `first` to `last`: `f"{offset}-{offset + page_size - 1}"` at `offset`. */
  function RangeHeader(first: nat, last: nat): string
  {
    NatToString(first) + "-" + NatToString(last)
  }

  /** The header reads back as the first and the last row it asks for. */
  lemma RangeHeaderReadsBack(first: nat, last: nat)
    ensures '-' in RangeHeader(first, last)
    ensures ParseInt(RangeHeader(first, last)[..Find(RangeHeader(first, last), '-')]) == Some(first)
    ensures ParseInt(SecondField(RangeHeader(first, last), '-')) == Some(last)
  {
    var a, b := NatToString(first), NatToString(last);
    assert '-' !in a && '-' !in b;
    SecondFieldOf(a, '-', b);
    assert RangeHeader(first, last)[..Find(RangeHeader(first, last), '-')] == a;
    ParseNatToString(first);
    ParseNatToString(last);
  }

  /** The server's answer to one page request. */
  datatype Response =
    | NetworkError                                      // a RequestException: no connection, or an error status
    | Page(data: seq<Row>, contentRange: Option<string>)

  /** What the `Content-Range` header says about the total. */
  datatype Total = NoTotal | BadTotal | Total(n: int)

  /** `if content_range and "/" in content_range: total = int(content_range.split("/")[1])`. */
  function TotalOf(contentRange: Option<string>): Total
  {
    match contentRange
    case None => NoTotal
    case Some(s) =>
      if '/' !in s then NoTotal
      else match ParseInt(SecondField(s, '/'))
        case None => BadTotal
        case Some(n) => Total(n)
  }

  /** The answer ends the loop whatever else it says. */
  predicate Ends(response: Response)
  {
    response.NetworkError? || |response.data| == 0
  }

  /**
   * The answer stops the loop whatever came before it: a network error, an
   * empty page, or a page without a numeric total.
   */
  predicate Final(response: Response)
  {
    Ends(response) || !TotalOf(response.contentRange).Total?
  }

  /** The offset of the `k`-th request (counting from 0) of a loop that starts at `offset`. */
  function PageOffset(offset: nat, k: nat): nat
  {
    offset + k * PageSize
  }

  /**
   * After this answer, with `before` records received ahead of it, the loop
   * goes on: the page does not stop it and its total is not yet reached.
   */
  predicate GoesOn(response: Response, before: nat)
  {
    !Final(response) && before + |response.data| < TotalOf(response.contentRange).n
  }

  /**
   * The loop from `offset` on, with `count` records received before it, goes
   * on after each of its first `k` answers.
   */
  ghost predicate GoesOnFor(respond: (Endpoint, nat) -> Response, e: Endpoint, offset: nat, count: nat, k: nat)
    decreases k
  {
    k == 0 ||
    (GoesOn(respond(e, offset), count) && GoesOnFor(respond, e, offset + PageSize, count + |respond(e, offset).data|, k - 1))
  }

  /** A loop that goes on after each of its first `k` answers goes on after each of its first `i <= k`. */
  lemma {:induction false} GoesOnForPrefix(respond: (Endpoint, nat) -> Response, e: Endpoint, offset: nat, count: nat, i: nat, k: nat)
    requires i <= k && GoesOnFor(respond, e, offset, count, k)
    ensures GoesOnFor(respond, e, offset, count, i)
    decreases i
  {
    if i > 0 {
      GoesOnForPrefix(respond, e, offset + PageSize, count + |respond(e, offset).data|, i - 1, k - 1);
    }
  }

  /**
   * Every answer after which the loop from `offset` on (with `count` records
   * before it) goes on reports a total of at most `limit`. Only answers the
   * loop asks for count, so this holds for some `limit` exactly when the loop
   * stops: a loop that stops goes on after finitely many answers, and a loop
   * that goes on forever reaches totals above every bound.
   */
  ghost predicate TotalsBounded(respond: (Endpoint, nat) -> Response, e: Endpoint, offset: nat, count: nat, limit: nat)
  {
    forall k: nat {:trigger PageOffset(offset, k)} ::
      GoesOnFor(respond, e, offset, count, k) &&
      GoesOn(respond(e, PageOffset(offset, k)), count + |Received(respond, e, offset, k)|) ==>
        TotalOf(respond(e, PageOffset(offset, k)).contentRange).n <= limit
  }

  /**
   * The `j`-th answer of the loop from the next offset is the `j+1`-th of
   * the loop from `offset`, with the same records before it.
   */
  lemma ShiftedAnswer(respond: (Endpoint, nat) -> Response, e: Endpoint, offset: nat, count: nat, j: nat)
    requires respond(e, offset).Page?
    ensures PageOffset(offset + PageSize, j) == PageOffset(offset, j + 1)
    ensures count + |respond(e, offset).data| + |Received(respond, e, offset + PageSize, j)| == count + |Received(respond, e, offset, j + 1)|
  {
    ReceivedStep(respond, e, offset, j);
  }

  /** The first answer that goes on has its total within `limit`, and the loop from the next offset keeps the bound. */
  lemma {:induction false} TotalsBoundedStep(respond: (Endpoint, nat) -> Response, e: Endpoint, offset: nat, count: nat, limit: nat)
    requires TotalsBounded(respond, e, offset, count, limit) && GoesOn(respond(e, offset), count)
    ensures TotalOf(respond(e, offset).contentRange).n <= limit
    ensures TotalsBounded(respond, e, offset + PageSize, count + |respond(e, offset).data|, limit)
  {
    assert PageOffset(offset, 0) == offset && Received(respond, e, offset, 0) == [];
    var next, after := offset + PageSize, count + |respond(e, offset).data|;
    forall k: nat | GoesOnFor(respond, e, next, after, k) && GoesOn(respond(e, PageOffset(next, k)), after + |Received(respond, e, next, k)|)
      ensures TotalOf(respond(e, PageOffset(next, k)).contentRange).n <= limit
    {
      assert GoesOnFor(respond, e, offset, count, k + 1);
      ShiftedAnswer(respond, e, offset, count, k);
    }
  }

  /** The total an answer reports, when the loop could go on after it (0 otherwise). */
  function Reported(response: Response): nat
  {
    if !Final(response) && TotalOf(response.contentRange).n > 0 then TotalOf(response.contentRange).n else 0
  }

  /** The total the `j`-th answer from `offset` reports, for each `j`. */
  ghost function ReportedFrom(respond: (Endpoint, nat) -> Response, e: Endpoint, offset: nat): nat -> nat
  {
    j => Reported(respond(e, PageOffset(offset, j)))
  }

  /** The largest of `f(0)`, ..., `f(k - 1)` (0 when `k` is 0). */
  ghost function MaxUpTo(f: nat -> nat, k: nat): nat
    decreases k
  {
    if k == 0 then 0
    else if f(k - 1) > MaxUpTo(f, k - 1) then f(k - 1) else MaxUpTo(f, k - 1)
  }

  lemma {:induction false} MaxUpToBounds(f: nat -> nat, k: nat, j: nat)
    requires j < k
    ensures f(j) <= MaxUpTo(f, k)
    decreases k
  {
    if j < k - 1 {
      MaxUpToBounds(f, k - 1, j);
    }
  }

  /** The largest total the first `k` answers from `offset` report (0 when none does). */
  ghost function TotalsUpTo(respond: (Endpoint, nat) -> Response, e: Endpoint, offset: nat, k: nat): nat
  {
    MaxUpTo(ReportedFrom(respond, e, offset), k)
  }

  /**
   * A loop that stops within `k` requests (it does not go on after each of
   * its first `k` answers) meets the premise, with the largest total those
   * answers report as `limit`. So the premise excludes only servers on which
   * the loop never stops.
   */
  lemma StoppingLoopIsBounded(respond: (Endpoint, nat) -> Response, e: Endpoint, offset: nat, count: nat, k: nat)
    requires !GoesOnFor(respond, e, offset, count, k)
    ensures TotalsBounded(respond, e, offset, count, TotalsUpTo(respond, e, offset, k))
  {
    forall j: nat | GoesOnFor(respond, e, offset, count, j) && GoesOn(respond(e, PageOffset(offset, j)), count + |Received(respond, e, offset, j)|)
      ensures TotalOf(respond(e, PageOffset(offset, j)).contentRange).n <= TotalsUpTo(respond, e, offset, k)
    {
      if j >= k {
        GoesOnForPrefix(respond, e, offset, count, k, j);
        assert false;
      }
      MaxUpToBounds(ReportedFrom(respond, e, offset), k, j);
    }
  }

  /** The outcome of the fetch loop and the number of page requests it sent. */
  datatype Fetched = Fetched(result: Result<seq<Row>>, requests: nat)

  /** What the loop does after one answer: stop with a result, or go on with the records so far. */
  datatype Next = Stop(result: Result<seq<Row>>) | Continue(all: seq<Row>)

  /**
   * One round of the fetch loop, with `acc` received before it: stop on a
   * network error, on an empty page, on a page without a total, or once the
   * total is reached; a total that is not a number raises.
   */
  function PageStep(response: Response, acc: seq<Row>): Next
  {
    if Ends(response) then Stop(Ok(acc))
    else
      var all := acc + response.data;
      match TotalOf(response.contentRange)
      case NoTotal => Stop(Ok(all))
      case BadTotal => Stop(Raised(TotalNotNumeric))
      case Total(n) => if |all| >= n then Stop(Ok(all)) else Continue(all)
  }

  /** The records an answer carries. */
  function Carried(response: Response): seq<Row>
  {
    if response.Page? then response.data else []
  }

  /**
   * A round that hands on exactly the records of its answer: it goes on only
   * after a non-empty page whose total is not yet reached, and what it goes on
   * with or stops with (unless it raises) is what came before plus what the
   * answer carries.
   */
  ghost predicate Carries(round: (Response, seq<Row>) -> Next)
  {
    forall response, acc ::
      && (round(response, acc).Continue? ==>
            && !Final(response) && round(response, acc).all == acc + Carried(response)
            && |round(response, acc).all| < TotalOf(response.contentRange).n)
      && (round(response, acc).Stop? && round(response, acc).result.Ok? ==> round(response, acc).result.value == acc + Carried(response))
  }

  /** The fetch loop's round is one that carries. */
  lemma PageStepCarries()
    ensures Carries(PageStep)
  {
  }

  /**
   * The loop of `_fetch_all_from_endpoint` from the request at `offset` on,
   * with `acc` received before it and `round` deciding after each answer;
   * `requests` counts the requests sent from `offset` on.
   */
  function Loop(round: (Response, seq<Row>) -> Next, respond: (Endpoint, nat) -> Response, e: Endpoint, offset: nat, acc: seq<Row>, limit: nat): (f: Fetched)
    requires Carries(round) && TotalsBounded(respond, e, offset, |acc|, limit)
    ensures f.requests >= 1
    decreases limit - |acc|
  {
    match round(respond(e, offset), acc)
    case Stop(result) => Fetched(result, 1)
    case Continue(all) =>
      RoundGoesOn(round, respond, e, offset, acc, limit);
      Later(Loop(round, respond, e, offset + PageSize, all, limit))
  }

  /** A fetch that sent one request before the loop `rest`. */
  function Later(rest: Fetched): (f: Fetched)
    ensures f.result == rest.result && f.requests == rest.requests + 1
  {
    Fetched(rest.result, rest.requests + 1)
  }

  /** The fetch loop with its own round. */
  function FetchFrom(respond: (Endpoint, nat) -> Response, e: Endpoint, offset: nat, acc: seq<Row>, limit: nat): Fetched
    requires TotalsBounded(respond, e, offset, |acc|, limit)
  {
    PageStepCarries();
    Loop(PageStep, respond, e, offset, acc, limit)
  }

  /** The page requests for `count` pages from `offset` on. */
  function PageRequests(e: Endpoint, offset: nat, count: nat): seq<Request>
    decreases count
  {
    if count == 0 then [] else [PageRequest(e, offset, offset + PageSize - 1)] + PageRequests(e, offset + PageSize, count - 1)
  }

  /** The records carried by the answers to `count` requests from `offset` on, in order. */
  function Received(respond: (Endpoint, nat) -> Response, e: Endpoint, offset: nat, count: nat): seq<Row>
    decreases count
  {
    if count == 0 then [] else Carried(respond(e, offset)) + Received(respond, e, offset + PageSize, count - 1)
  }

  /** The first of `rest + 1` answers, then the others. */
  lemma ReceivedStep(respond: (Endpoint, nat) -> Response, e: Endpoint, offset: nat, rest: nat)
    ensures Received(respond, e, offset, rest + 1) == Carried(respond(e, offset)) + Received(respond, e, offset + PageSize, rest)
  {
  }

  /** A round that carries goes on only after an answer the loop goes on after, and only with more records, within `limit`. */
  lemma RoundGoesOn(round: (Response, seq<Row>) -> Next, respond: (Endpoint, nat) -> Response, e: Endpoint, offset: nat, acc: seq<Row>, limit: nat)
    requires Carries(round) && TotalsBounded(respond, e, offset, |acc|, limit)
    requires round(respond(e, offset), acc).Continue?
    ensures round(respond(e, offset), acc).all == acc + Carried(respond(e, offset))
    ensures |acc| < |round(respond(e, offset), acc).all| < limit
    ensures TotalsBounded(respond, e, offset + PageSize, |round(respond(e, offset), acc).all|, limit)
  {
    var response := respond(e, offset);
    assert GoesOn(response, |acc|);
    TotalsBoundedStep(respond, e, offset, |acc|, limit);
  }

  /** The records before an answer and its own, then those of the `rest` answers after it. */
  lemma ReceivedAfter(respond: (Endpoint, nat) -> Response, e: Endpoint, offset: nat, acc: seq<Row>, rest: nat)
    ensures acc + Carried(respond(e, offset)) + Received(respond, e, offset + PageSize, rest) == acc + Received(respond, e, offset, rest + 1)
  {
    ReceivedStep(respond, e, offset, rest);
  }

  /** One round of a loop whose round carries, unfolded: it stops with the round's result, or goes on from the next offset. */
  lemma LoopRound(round: (Response, seq<Row>) -> Next, respond: (Endpoint, nat) -> Response, e: Endpoint, offset: nat, acc: seq<Row>, limit: nat)
    requires Carries(round) && TotalsBounded(respond, e, offset, |acc|, limit)
    ensures round(respond(e, offset), acc).Stop? ==>
      Loop(round, respond, e, offset, acc, limit) == Fetched(round(respond(e, offset), acc).result, 1)
    ensures round(respond(e, offset), acc).Continue? ==>
      && round(respond(e, offset), acc).all == acc + Carried(respond(e, offset))
      && |acc| < |round(respond(e, offset), acc).all| < limit
      && TotalsBounded(respond, e, offset + PageSize, |round(respond(e, offset), acc).all|, limit)
      && Loop(round, respond, e, offset, acc, limit) == Later(Loop(round, respond, e, offset + PageSize, round(respond(e, offset), acc).all, limit))
  {
    if round(respond(e, offset), acc).Continue? {
      RoundGoesOn(round, respond, e, offset, acc, limit);
    }
  }

  /** A loop whose round carries returns exactly the records of the answers it received, in order. */
  lemma {:induction false} LoopIsReceived(round: (Response, seq<Row>) -> Next, respond: (Endpoint, nat) -> Response, e: Endpoint, offset: nat, acc: seq<Row>, limit: nat)
    requires Carries(round) && TotalsBounded(respond, e, offset, |acc|, limit)
    ensures Loop(round, respond, e, offset, acc, limit).result.Ok? ==>
      Loop(round, respond, e, offset, acc, limit).result.value == acc + Received(respond, e, offset, Loop(round, respond, e, offset, acc, limit).requests)
    decreases limit - |acc|
  {
    var step := round(respond(e, offset), acc);
    LoopRound(round, respond, e, offset, acc, limit);
    if step.Stop? {
      ReceivedStep(respond, e, offset, 0);
    } else {
      var rest := Loop(round, respond, e, offset + PageSize, step.all, limit);
      LoopIsReceived(round, respond, e, offset + PageSize, step.all, limit);
      ReceivedAfter(respond, e, offset, acc, rest.requests);
    }
  }

  /**
   * What the fetch loop returns is exactly the records of the pages it
   * received, in order: nothing is lost on a network error and nothing is
   * fetched twice.
   */
  lemma FetchIsReceived(respond: (Endpoint, nat) -> Response, e: Endpoint, offset: nat, acc: seq<Row>, limit: nat)
    requires TotalsBounded(respond, e, offset, |acc|, limit)
    ensures FetchFrom(respond, e, offset, acc, limit).result.Ok? ==>
      FetchFrom(respond, e, offset, acc, limit).result.value == acc + Received(respond, e, offset, FetchFrom(respond, e, offset, acc, limit).requests)
  {
    PageStepCarries();
    LoopIsReceived(PageStep, respond, e, offset, acc, limit);
  }

  // ---------------------------------------------------------------------------
  // A server that answers correctly

  /** The end of the page that starts at `offset`. */
  function PageEnd(n: nat, offset: nat): (end: nat)
    ensures offset < n ==> offset < end <= n
  {
    if offset + PageSize < n then offset + PageSize else n
  }

  /**
   * A correct answer at `offset` for `records`: inside the records, the
   * slice that starts there with a `Content-Range` whose total reads back as
   * the number of records; past them, an answer that ends the loop (an
   * empty page, or the error status of an unsatisfiable range).
   */
  predicate ServedAt(response: Response, records: seq<Row>, offset: nat)
  {
    if offset < |records| then
      && response.Page? && response.data == records[offset..PageEnd(|records|, offset)]
      && TotalOf(response.contentRange) == Total(|records|)
    else Ends(response)
  }

  /** The server holds `records` for endpoint `e` and answers every request correctly. */
  ghost predicate Serves(respond: (Endpoint, nat) -> Response, e: Endpoint, records: seq<Row>)
  {
    forall offset: nat {:trigger ServedAt(respond(e, offset), records, offset)} :: ServedAt(respond(e, offset), records, offset)
  }

  /**
   * What PostgREST, asked for an exact count, answers at `offset`: the
   * slice with the header `first-last/total`, or, past the end, no records
   * and a range of `*` before the total.
   */
  function PostgrestAnswer(records: seq<Row>, offset: nat): Response
  {
    var n := |records|;
    if offset < n then
      var end := PageEnd(n, offset);
      Page(records[offset..end], Some(NatToString(offset) + "-" + NatToString(end - 1) + "/" + NatToString(n)))
    else Page([], Some("*/" + NatToString(n)))
  }

  /** The number of requests needed for `n` records: one per started page, and one when there is none. */
  function Pages(n: nat): (r: nat)
    ensures r >= 1
    ensures n == 0 ==> r == 1
    ensures n > 0 ==> (r - 1) * PageSize < n <= r * PageSize
    decreases n
  {
    if n <= PageSize then 1 else 1 + Pages(n - PageSize)
  }

  /** The total after the last `/` of the header is read back. */
  lemma ContentRangeTotal(prefix: string, n: nat)
    requires '/' !in prefix
    ensures TotalOf(Some(prefix + "/" + NatToString(n))) == Total(n)
  {
    NotInNumeral(n, '/');
    SecondFieldOf(prefix, '/', NatToString(n));
    ParseNatToString(n);
  }

  /** PostgREST's answers are correct ones: its header's total reads back. */
  lemma PostgrestServes(records: seq<Row>, offset: nat)
    ensures ServedAt(PostgrestAnswer(records, offset), records, offset)
  {
    var n := |records|;
    if offset < n {
      var end := PageEnd(n, offset);
      var prefix := NatToString(offset) + "-" + NatToString(end - 1);
      NotInNumeral(offset, '/');
      NotInNumeral(end - 1, '/');
      ContentRangeTotal(prefix, n);
    }
  }

  /** One round against a correct answer: the next slice is added, and the loop stops exactly at the end of the records. */
  lemma ServerPageStep(response: Response, records: seq<Row>, offset: nat)
    requires offset < |records| && ServedAt(response, records, offset)
    ensures PageStep(response, records[..offset]) ==
      if offset + PageSize < |records| then Continue(records[..offset + PageSize]) else Stop(Ok(records))
  {
    var end := PageEnd(|records|, offset);
    assert records[..offset] + records[offset..end] == records[..end];
    assert records[..|records|] == records;
  }

  /** A correct server reports the number of its records as the total, and past them its answers end the loop. */
  lemma ServerTotalsBounded(respond: (Endpoint, nat) -> Response, e: Endpoint, records: seq<Row>, offset: nat, count: nat)
    requires Serves(respond, e, records)
    ensures TotalsBounded(respond, e, offset, count, |records|)
  {
    forall k: nat | GoesOn(respond(e, PageOffset(offset, k)), count + |Received(respond, e, offset, k)|)
      ensures TotalOf(respond(e, PageOffset(offset, k)).contentRange).n <= |records|
    {
      assert ServedAt(respond(e, PageOffset(offset, k)), records, PageOffset(offset, k));
    }
  }

  /**
   * When the first answer stops the loop (a network error, an empty page, a
   * page without a numeric total, or a total already reached), the loop's
   * premise holds with `limit` 0 whatever the server answers later, and the
   * fetch is that one request and its outcome.
   */
  lemma FirstAnswerStops(respond: (Endpoint, nat) -> Response, e: Endpoint)
    requires PageStep(respond(e, 0), []).Stop?
    ensures TotalsBounded(respond, e, 0, 0, 0)
    ensures FetchFrom(respond, e, 0, [], 0) == Fetched(PageStep(respond(e, 0), []).result, 1)
  {
    assert PageOffset(0, 0) == 0 && Received(respond, e, 0, 0) == [];
    assert !GoesOn(respond(e, 0), 0) by {
      if !Final(respond(e, 0)) {
        assert [] + respond(e, 0).data == respond(e, 0).data;
      }
    }
    forall k: nat
      ensures !(GoesOnFor(respond, e, 0, 0, k) && GoesOn(respond(e, PageOffset(0, k)), |Received(respond, e, 0, k)|))
    {
    }
    PageStepCarries();
  }

  /**
   * An endpoint that does not paginate (its first answer is a page without a
   * numeric total) meets the loop's premise whatever it answers later, and
   * its fetch sends one request and returns the records of that answer.
   */
  lemma UnpaginatedFetch(respond: (Endpoint, nat) -> Response, e: Endpoint)
    requires respond(e, 0).Page? && TotalOf(respond(e, 0).contentRange) == NoTotal
    ensures TotalsBounded(respond, e, 0, 0, 0)
    ensures FetchFrom(respond, e, 0, [], 0) == Fetched(Ok(respond(e, 0).data), 1)
  {
    var first := respond(e, 0);
    assert PageStep(first, []) == Stop(Ok(first.data)) by {
      if |first.data| == 0 {
        assert first.data == [];
      } else {
        assert [] + first.data == first.data;
      }
    }
    FirstAnswerStops(respond, e);
  }

  /** The page count of `left` records, one page at a time. */
  lemma PagesStep(left: nat, rest: nat)
    requires left > PageSize && rest == left - PageSize
    ensures Pages(left) == 1 + Pages(rest)
  {
  }

  lemma {:induction false} FetchFromServerAt(respond: (Endpoint, nat) -> Response, e: Endpoint, records: seq<Row>, offset: nat)
    requires Serves(respond, e, records) && offset < |records|
    ensures TotalsBounded(respond, e, offset, offset, |records|)
    ensures FetchFrom(respond, e, offset, records[..offset], |records|) == Fetched(Ok(records), Pages(|records| - offset))
    decreases |records| - offset
  {
    var n := |records|;
    ServerTotalsBounded(respond, e, records, offset, offset);
    assert ServedAt(respond(e, offset), records, offset);
    ServerPageStep(respond(e, offset), records, offset);
    FetchRound(respond, e, offset, records[..offset], n);
    if offset + PageSize < n {
      var next := offset + PageSize;
      FetchFromServerAt(respond, e, records, next);
      PagesStep(n - offset, n - next);
    }
  }

  /**
   * Against a server that answers correctly, the loop returns every record
   * in order, with `Pages(n)` requests: one per page of 1000.
   */
  lemma FetchFromServer(respond: (Endpoint, nat) -> Response, e: Endpoint, records: seq<Row>)
    requires Serves(respond, e, records)
    ensures TotalsBounded(respond, e, 0, 0, |records|) &&
      FetchFrom(respond, e, 0, [], |records|) == Fetched(Ok(records), Pages(|records|))
  {
    ServerTotalsBounded(respond, e, records, 0, 0);
    if |records| == 0 {
      assert ServedAt(respond(e, 0), records, 0);
    } else {
      FetchFromServerAt(respond, e, records, 0);
    }
  }

  /** 2500 records take three requests. */
  lemma PagesExample()
    ensures Pages(2500) == 3 && Pages(2000) == 2 && Pages(0) == 1
  {
    assert Pages(1500) == 2;
  }

  // ---------------------------------------------------------------------------
  // Fetching an endpoint and extracting them all

  /** One round of the loop, unfolded: the answer at `offset` decides whether the loop stops or goes on. */
  lemma FetchRound(respond: (Endpoint, nat) -> Response, e: Endpoint, offset: nat, acc: seq<Row>, limit: nat)
    requires TotalsBounded(respond, e, offset, |acc|, limit)
    ensures PageStep(respond(e, offset), acc).Stop? ==>
      FetchFrom(respond, e, offset, acc, limit) == Fetched(PageStep(respond(e, offset), acc).result, 1)
    ensures PageStep(respond(e, offset), acc).Continue? ==>
      |acc| < |PageStep(respond(e, offset), acc).all| < limit &&
      TotalsBounded(respond, e, offset + PageSize, |PageStep(respond(e, offset), acc).all|, limit) &&
      var rest := FetchFrom(respond, e, offset + PageSize, PageStep(respond(e, offset), acc).all, limit);
      FetchFrom(respond, e, offset, acc, limit) == Fetched(rest.result, rest.requests + 1)
  {
    PageStepCarries();
    LoopRound(PageStep, respond, e, offset, acc, limit);
  }

  /**
   * The `k`-th of `count` page requests from `offset` (counting from 0) asks
   * for the rows `offset + 1000k` to `offset + 1000k + 999`: the offsets step
   * by the page size.
   */
  lemma {:induction false} PageRequestsAt(e: Endpoint, offset: nat, count: nat, k: nat)
    requires k < count
    ensures |PageRequests(e, offset, count)| == count
    ensures PageRequests(e, offset, count)[k] == PageRequest(e, offset + k * PageSize, offset + k * PageSize + PageSize - 1)
    decreases count
  {
    if count > 1 {
      PageRequestsAt(e, offset + PageSize, count - 1, if k > 0 then k - 1 else 0);
    }
    if k > 0 {
      assert offset + PageSize + (k - 1) * PageSize == offset + k * PageSize;
    }
  }

  /** The request at `offset`, then the rest. */
  lemma PageRequestsStep(e: Endpoint, offset: nat, rest: nat)
    ensures PageRequests(e, offset, rest + 1) == [PageRequest(e, offset, offset + PageSize - 1)] + PageRequests(e, offset + PageSize, rest)
  {
  }

  /**
   * `fetched` is what the fetch loop at `e` does from each offset, with each
   * list of records before it, wherever the loop's premise holds; it holds
   * from offset 0.
   */
  ghost predicate Follows(fetched: (nat, seq<Row>) -> Fetched, respond: (Endpoint, nat) -> Response, e: Endpoint, limit: nat)
  {
    && TotalsBounded(respond, e, 0, 0, limit)
    && forall offset, acc {:trigger FetchFrom(respond, e, offset, acc, limit)} ::
         TotalsBounded(respond, e, offset, |acc|, limit) ==> fetched(offset, acc) == FetchFrom(respond, e, offset, acc, limit)
  }

  /** The fetch loop at `e`, from each offset where its premise holds (elsewhere a value no caller uses). */
  ghost function FetchesAt(respond: (Endpoint, nat) -> Response, e: Endpoint, limit: nat): (fetched: (nat, seq<Row>) -> Fetched)
    requires TotalsBounded(respond, e, 0, 0, limit)
    ensures Follows(fetched, respond, e, limit)
  {
    (offset: nat, acc: seq<Row>) =>
      if TotalsBounded(respond, e, offset, |acc|, limit) then FetchFrom(respond, e, offset, acc, limit) else Fetched(Ok(acc), 1)
  }

  /** `round` is the fetch loop's decision after each answer. */
  ghost predicate Decides(round: (Response, seq<Row>) -> Next)
  {
    forall response, acc {:trigger PageStep(response, acc)} :: round(response, acc) == PageStep(response, acc)
  }

  /** `FetchRound`, about functions that follow the fetch loop and its decision. */
  lemma FetchRoundOf(fetched: (nat, seq<Row>) -> Fetched, round: (Response, seq<Row>) -> Next,
                     respond: (Endpoint, nat) -> Response, e: Endpoint, offset: nat, acc: seq<Row>, limit: nat)
    requires Follows(fetched, respond, e, limit) && Decides(round) && TotalsBounded(respond, e, offset, |acc|, limit)
    ensures round(respond(e, offset), acc).Stop? ==>
      fetched(offset, acc) == Fetched(round(respond(e, offset), acc).result, 1)
    ensures round(respond(e, offset), acc).Continue? ==>
      |acc| < |round(respond(e, offset), acc).all| < limit &&
      TotalsBounded(respond, e, offset + PageSize, |round(respond(e, offset), acc).all|, limit) &&
      var rest := fetched(offset + PageSize, round(respond(e, offset), acc).all);
      fetched(offset, acc) == Fetched(rest.result, rest.requests + 1)
  {
    FetchRound(respond, e, offset, acc, limit);
    if PageStep(respond(e, offset), acc).Continue? {
      assert fetched(offset + PageSize, PageStep(respond(e, offset), acc).all)
          == FetchFrom(respond, e, offset + PageSize, PageStep(respond(e, offset), acc).all, limit);
    }
  }

  /**
   * `_fetch_all_from_endpoint`, given what its loop does at endpoint `e`:
   * the token first (its failure propagates), then the loop's requests and
   * outcome.
   */
  function FetchAll(cache: Option<string>, reply: AuthReply, e: Endpoint, f: Fetched): Call<seq<Row>>
  {
    var token := GetToken(cache, reply);
    match token.result
    case Raised(exc) => Call(Raised(exc), token.cache, token.sent)
    case Ok(_) => Call(f.result, token.cache, token.sent + PageRequests(e, 0, f.requests))
  }

  /** The server's totals are bounded at every endpoint. */
  ghost predicate AllTotalsBounded(respond: (Endpoint, nat) -> Response, limit: nat)
  {
    forall e :: TotalsBounded(respond, e, 0, 0, limit)
  }

  /** Every endpoint, once. */
  const AllEndpoints: seq<Endpoint> := [
    AriesDailyCapacities, ProcountCompletionDailyTb, WellviewJob, WellviewJobReport,
    WellviewSurveyPoint, WellviewWellHeader, WiserockNote, WiserockUser, EiaOilPrice]

  /** The largest total the first `k` answers of any endpoint in `es` report. */
  ghost function MaxTotalsUpTo(respond: (Endpoint, nat) -> Response, es: seq<Endpoint>, k: nat): nat
    decreases |es|
  {
    if es == [] then 0
    else
      var here, rest := TotalsUpTo(respond, es[0], 0, k), MaxTotalsUpTo(respond, es[1..], k);
      if here > rest then here else rest
  }

  lemma {:induction false} MaxTotalsUpToBounds(respond: (Endpoint, nat) -> Response, es: seq<Endpoint>, k: nat, e: Endpoint)
    requires e in es
    ensures TotalsUpTo(respond, e, 0, k) <= MaxTotalsUpTo(respond, es, k)
    decreases |es|
  {
    if es[0] != e {
      MaxTotalsUpToBounds(respond, es[1..], k, e);
    }
  }

  /** A larger bound is a bound too. */
  lemma TotalsBoundedWeakens(respond: (Endpoint, nat) -> Response, e: Endpoint, offset: nat, count: nat, limit: nat, larger: nat)
    requires TotalsBounded(respond, e, offset, count, limit) && limit <= larger
    ensures TotalsBounded(respond, e, offset, count, larger)
  {
  }

  /**
   * When the loop at every endpoint stops within `k` requests, one bound
   * serves them all: `extract_all`'s premise excludes only servers on which
   * some endpoint's loop never stops.
   */
  lemma EveryLoopStops(respond: (Endpoint, nat) -> Response, k: nat)
    requires forall e :: !GoesOnFor(respond, e, 0, 0, k)
    ensures AllTotalsBounded(respond, MaxTotalsUpTo(respond, AllEndpoints, k))
  {
    forall e
      ensures TotalsBounded(respond, e, 0, 0, MaxTotalsUpTo(respond, AllEndpoints, k))
    {
      StoppingLoopIsBounded(respond, e, 0, 0, k);
      assert e in AllEndpoints by {
        match e
        case AriesDailyCapacities =>
        case ProcountCompletionDailyTb =>
        case WellviewJob =>
        case WellviewJobReport =>
        case WellviewSurveyPoint =>
        case WellviewWellHeader =>
        case WiserockNote =>
        case WiserockUser =>
        case EiaOilPrice =>
      }
      MaxTotalsUpToBounds(respond, AllEndpoints, k, e);
      TotalsBoundedWeakens(respond, e, 0, 0, TotalsUpTo(respond, e, 0, k), MaxTotalsUpTo(respond, AllEndpoints, k));
    }
  }

  /** `fetch` is what the fetch loop does at each endpoint, from offset 0. */
  ghost predicate Produces(fetch: Endpoint -> Fetched, respond: (Endpoint, nat) -> Response, limit: nat)
  {
    && AllTotalsBounded(respond, limit)
    && forall e {:trigger FetchFrom(respond, e, 0, [], limit)} :: fetch(e) == FetchFrom(respond, e, 0, [], limit)
  }

  /** The outcomes of the fetch loop at each endpoint. */
  function Fetches(respond: (Endpoint, nat) -> Response, limit: nat): (fetch: Endpoint -> Fetched)
    requires AllTotalsBounded(respond, limit)
    ensures Produces(fetch, respond, limit)
  {
    e => FetchFrom(respond, e, 0, [], limit)
  }

  /** The fetch loop's outcome from `offset` on, with `prefix` sent before it and its page requests after. */
  function Sending(prefix: seq<Request>, e: Endpoint, offset: nat, f: Fetched): (Result<seq<Row>>, seq<Request>)
  {
    (f.result, prefix + PageRequests(e, offset, f.requests))
  }

  /** A call's outcome with `prefix` sent before it. */
  function Resumed<T>(prefix: seq<Request>, c: Call<T>): Call<T>
  {
    Call(c.result, c.cache, prefix + c.sent)
  }

  /**
   * The loop of `extract_all` over the tables of `order`, with `data`
   * collected so far, `endpoints` the inverted map and `fetch` what the
   * fetch loop does at each endpoint: each table's endpoint is fetched, a
   * non-empty result becomes that table's frame, an empty one is skipped,
   * and a raise propagates at once. `columns` gives the keys of an
   * endpoint's records, which become the frame's columns.
   */
  function ExtractOver(order: seq<Table>, endpoints: map<Table, Endpoint>, cache: Option<string>, reply: AuthReply,
                       fetch: Endpoint -> Fetched, columns: Endpoint -> seq<string>, data: map<Table, Frame>): Call<map<Table, Frame>>
    requires forall t :: t in order ==> t in endpoints
    decreases |order|
  {
    if order == [] then Call(Ok(data), cache, [])
    else
      var t := order[0];
      var e := endpoints[t];
      var c := FetchAll(cache, reply, e, fetch(e));
      match c.result
      case Raised(exc) => Call(Raised(exc), c.cache, c.sent)
      case Ok(records) =>
        var rest := ExtractOver(order[1..], endpoints, c.cache, reply, fetch, columns,
                                if |records| > 0 then data[t := Frame(columns(e), records)] else data);
        Call(rest.result, rest.cache, c.sent + rest.sent)
  }

  /**
   * One table of the loop, with `prefix` sent before it: a raise ends the
   * loop with that table's call; otherwise the rest of the loop follows,
   * from the cache and the data that table leaves.
   */
  lemma ExtractOverStep(prefix: seq<Request>, order: seq<Table>, i: nat, endpoints: map<Table, Endpoint>, cache: Option<string>,
                        reply: AuthReply, fetch: Endpoint -> Fetched, columns: Endpoint -> seq<string>, data: map<Table, Frame>)
    requires i < |order| && forall t :: t in order ==> t in endpoints
    ensures var e := endpoints[order[i]];
      var c := FetchAll(cache, reply, e, fetch(e));
      var all := Resumed(prefix, ExtractOver(order[i..], endpoints, cache, reply, fetch, columns, data));
      && (c.result.Raised? ==> all == Call(Raised(c.result.exc), c.cache, prefix + c.sent))
      && (c.result.Ok? ==>
            var next := if |c.result.value| > 0 then data[order[i] := Frame(columns(e), c.result.value)] else data;
            all == Resumed(prefix + c.sent, ExtractOver(order[i + 1..], endpoints, c.cache, reply, fetch, columns, next)))
  {
    assert order[i..][1..] == order[i + 1..];
    var e := endpoints[order[i]];
    var c := FetchAll(cache, reply, e, fetch(e));
    if c.result.Ok? {
      var next := if |c.result.value| > 0 then data[order[i] := Frame(columns(e), c.result.value)] else data;
      var rest := ExtractOver(order[i + 1..], endpoints, c.cache, reply, fetch, columns, next);
      assert prefix + (c.sent + rest.sent) == (prefix + c.sent) + rest.sent;
    }
  }

  /** Every table of the load order has an endpoint. */
  lemma LoadOrderAllMapped()
    ensures forall t :: t in ApiLoadOrder ==> t in TableToEndpoint
  {
    forall t | t in ApiLoadOrder
      ensures t in TableToEndpoint
    {
      LoadOrderIsMapped(t);
    }
  }

  /** `extract_all`, starting from the token cache `cache`. */
  function Extract(cache: Option<string>, reply: AuthReply, fetch: Endpoint -> Fetched, columns: Endpoint -> seq<string>): Call<map<Table, Frame>>
  {
    LoadOrderAllMapped();
    ExtractOver(ApiLoadOrder, TableToEndpoint, cache, reply, fetch, columns, map[])
  }

  /**
   * When the loop succeeds: a table of `order` was fetched without a raise,
   * and is in the map exactly when its fetch returned records, with a frame
   * of them; any other table is in the map exactly when it was collected
   * before, unchanged.
   */
  lemma {:induction false} ExtractOverTable(order: seq<Table>, endpoints: map<Table, Endpoint>, cache: Option<string>, reply: AuthReply,
                                           fetch: Endpoint -> Fetched, columns: Endpoint -> seq<string>, data: map<Table, Frame>, t: Table)
    requires (forall u :: u in order ==> u in endpoints) && NoDuplicates(order)
    requires t in order ==> t !in data
    ensures var r := ExtractOver(order, endpoints, cache, reply, fetch, columns, data).result;
      r.Ok? && t in order ==>
        && fetch(endpoints[t]).result.Ok?
        && (t in r.value <==> |fetch(endpoints[t]).result.value| > 0)
        && (t in r.value ==> r.value[t] == Frame(columns(endpoints[t]), fetch(endpoints[t]).result.value))
    ensures var r := ExtractOver(order, endpoints, cache, reply, fetch, columns, data).result;
      r.Ok? && t !in order ==> (t in r.value <==> t in data) && (t in data ==> r.value[t] == data[t])
    decreases |order|
  {
    if order != [] {
      var u := order[0];
      var e := endpoints[u];
      var c := FetchAll(cache, reply, e, fetch(e));
      NoDuplicatesTail(order);
      assert forall v :: v in order <==> v == u || v in order[1..] by {
        assert order == [u] + order[1..];
      }
      if c.result.Ok? {
        var records := c.result.value;
        var next := if |records| > 0 then data[u := Frame(columns(e), records)] else data;
        ExtractOverTable(order[1..], endpoints, c.cache, reply, fetch, columns, next, t);
      }
    }
  }

  /**
   * `extract_all` succeeds with the map that holds exactly the tables of the
   * load order whose endpoint returned records, each as a frame of them.
   */
  lemma ExtractCollects(cache: Option<string>, reply: AuthReply, fetch: Endpoint -> Fetched, columns: Endpoint -> seq<string>)
    ensures var r := Extract(cache, reply, fetch, columns).result;
      r.Ok? ==> forall t ::
        && (t in r.value <==> t in ApiLoadOrder && fetch(TableToEndpoint[t]).result.Ok? && |fetch(TableToEndpoint[t]).result.value| > 0)
        && (t in r.value ==> r.value[t] == Frame(columns(TableToEndpoint[t]), fetch(TableToEndpoint[t]).result.value))
  {
    var r := Extract(cache, reply, fetch, columns).result;
    LoadOrderAllMapped();
    ApiLoadOrderNoDuplicates();
    forall t
      ensures r.Ok? ==>
        && (t in r.value <==> t in ApiLoadOrder && fetch(TableToEndpoint[t]).result.Ok? && |fetch(TableToEndpoint[t]).result.value| > 0)
        && (t in r.value ==> r.value[t] == Frame(columns(TableToEndpoint[t]), fetch(TableToEndpoint[t]).result.value))
    {
      ExtractOverTable(ApiLoadOrder, TableToEndpoint, cache, reply, fetch, columns, map[], t);
    }
  }

  /** The extractor: the cached token, and (as a ghost) every request it has sent. */
  class ApiExtractor {
    var accessToken: Option<string>
    ghost var sent: seq<Request>

    constructor ()
      ensures accessToken == None && sent == []
    {
      accessToken := None;
      sent := [];
    }

    /** `_get_access_token`. */
    method GetAccessToken(reply: AuthReply) returns (r: Result<string>)
      modifies this
      ensures r == GetToken(old(accessToken), reply).result
      ensures accessToken == GetToken(old(accessToken), reply).cache
      ensures sent == old(sent) + GetToken(old(accessToken), reply).sent
    {
      if accessToken.Some? && accessToken.value != "" {
        return Ok(accessToken.value);
      }
      sent := sent + [TokenRequest];
      match reply
      case AuthRefused =>
        r := Raised(AuthenticationError);
      case AuthGranted(None) =>
        r := Raised(MissingTokenError);
      case AuthGranted(Some(token)) =>
        accessToken := Some(token);
        r := Ok(token);
    }

    /**
     * `_fetch_all_from_endpoint`: the token, then pages of 1000 until the
     * loop stops; `fetched` is the fetch loop's outcome from each offset.
     */
    method FetchAllFromEndpoint(reply: AuthReply, respond: (Endpoint, nat) -> Response, e: Endpoint,
                                ghost limit: nat, ghost fetched: (nat, seq<Row>) -> Fetched)
      returns (r: Result<seq<Row>>)
      requires Follows(fetched, respond, e, limit)
      modifies this
      ensures Call(r, accessToken, sent) == Resumed(old(sent), FetchAll(old(accessToken), reply, e, fetched(0, [])))
    {
      var token := GetAccessToken(reply);
      if token.Raised? {
        return Raised(token.exc);
      }
      r := FetchPages(respond, e, limit, fetched, PageStep);
      assert old(sent) + (GetToken(old(accessToken), reply).sent + PageRequests(e, 0, fetched(0, []).requests)) == sent;
    }

    /**
     * The page loop of `_fetch_all_from_endpoint`, from offset 0; `fetched`
     * is the fetch loop's outcome from each offset.
     */
    method FetchPages(respond: (Endpoint, nat) -> Response, e: Endpoint,
                      ghost limit: nat, ghost fetched: (nat, seq<Row>) -> Fetched, ghost round: (Response, seq<Row>) -> Next)
      returns (r: Result<seq<Row>>)
      requires Follows(fetched, respond, e, limit) && Decides(round)
      modifies this
      ensures r == fetched(0, []).result
      ensures sent == old(sent) + PageRequests(e, 0, fetched(0, []).requests)
      ensures accessToken == old(accessToken)
    {
      var allRecords: seq<Row> := [];
      var offset: nat := 0;
      while true
        invariant accessToken == old(accessToken)
        invariant TotalsBounded(respond, e, offset, |allRecords|, limit)
        invariant Sending(sent, e, offset, fetched(offset, allRecords)) == Sending(old(sent), e, 0, fetched(0, []))
        decreases limit - |allRecords|
      {
        ghost var before := sent;
        FetchRoundOf(fetched, round, respond, e, offset, allRecords, limit);
        PageRequestsStep(e, offset, fetched(offset, allRecords).requests - 1);
        var next := FetchPage(respond, e, offset, allRecords, round);
        if next.Stop? {
          return next.result;
        }
        ghost var rest := fetched(offset + PageSize, next.all);
        assert before + ([PageRequest(e, offset, offset + PageSize - 1)] + PageRequests(e, offset + PageSize, rest.requests))
            == sent + PageRequests(e, offset + PageSize, rest.requests);
        allRecords := next.all;
        offset := offset + PageSize;
      }
    }

    /**
     * One round of the page loop: request the page at `offset`, then stop or
     * go on, with `acc` received before it.
     */
    method FetchPage(respond: (Endpoint, nat) -> Response, e: Endpoint, offset: nat, acc: seq<Row>,
                     ghost round: (Response, seq<Row>) -> Next)
      returns (next: Next)
      requires Decides(round)
      modifies this
      ensures next == round(respond(e, offset), acc)
      ensures sent == old(sent) + [PageRequest(e, offset, offset + PageSize - 1)]
      ensures accessToken == old(accessToken)
    {
      sent := sent + [PageRequest(e, offset, offset + PageSize - 1)];
      var response := respond(e, offset);
      assert round(response, acc) == PageStep(response, acc);
      if response.NetworkError? {
        return Stop(Ok(acc));
      }
      var data := response.data;
      if |data| == 0 {
        return Stop(Ok(acc));
      }
      var allRecords := acc + data;
      var contentRange := response.contentRange;
      if contentRange.Some? && '/' in contentRange.value {
        var total := ParseInt(SecondField(contentRange.value, '/'));
        if total.None? {
          return Stop(Raised(TotalNotNumeric));
        }
        if |allRecords| >= total.value {
          return Stop(Ok(allRecords));
        }
      } else {
        return Stop(Ok(allRecords));
      }
      return Continue(allRecords);
    }

    /** `extract_all`: fetch every endpoint in the load order and keep the non-empty results. */
    method ExtractAll(reply: AuthReply, respond: (Endpoint, nat) -> Response, columns: Endpoint -> seq<string>,
                      ghost limit: nat, ghost fetch: Endpoint -> Fetched)
      returns (r: Result<map<Table, Frame>>)
      requires Produces(fetch, respond, limit)
      modifies this
      ensures Call(r, accessToken, sent) == Resumed(old(sent), Extract(old(accessToken), reply, fetch, columns))
    {
      LoadOrderAllMapped();
      r := ExtractTables(ApiLoadOrder, TableToEndpoint, reply, respond, columns, limit, fetch);
    }

    /** The loop of `extract_all` over the tables of `order`, each fetched at its endpoint in `endpointMap`. */
    method ExtractTables(order: seq<Table>, endpointMap: map<Table, Endpoint>, reply: AuthReply, respond: (Endpoint, nat) -> Response,
                         columns: Endpoint -> seq<string>, ghost limit: nat, ghost fetch: Endpoint -> Fetched)
      returns (r: Result<map<Table, Frame>>)
      requires Produces(fetch, respond, limit) && forall t :: t in order ==> t in endpointMap
      modifies this
      ensures Call(r, accessToken, sent) == Resumed(old(sent), ExtractOver(order, endpointMap, old(accessToken), reply, fetch, columns, map[]))
    {
      ghost var final := ExtractOver(order, endpointMap, accessToken, reply, fetch, columns, map[]);
      var dataMap: map<Table, Frame> := map[];
      var i := 0;
      while i < |order|
        invariant i <= |order|
        invariant Resumed(sent, ExtractOver(order[i..], endpointMap, accessToken, reply, fetch, columns, dataMap)) == Resumed(old(sent), final)
      {
        ExtractOverStep(sent, order, i, endpointMap, accessToken, reply, fetch, columns, dataMap);
        var raised;
        raised, dataMap := ExtractTable(order[i], endpointMap, dataMap, reply, respond, columns, limit, fetch);
        if raised.Some? {
          return Raised(raised.value);
        }
        i := i + 1;
      }
      return Ok(dataMap);
    }

    /** One round of `extract_all`'s loop: fetch `table`'s endpoint and keep a non-empty result. */
    method ExtractTable(table: Table, endpointMap: map<Table, Endpoint>, dataMap: map<Table, Frame>, reply: AuthReply,
                        respond: (Endpoint, nat) -> Response, columns: Endpoint -> seq<string>, ghost limit: nat, ghost fetch: Endpoint -> Fetched)
      returns (raised: Option<Exception>, next: map<Table, Frame>)
      requires Produces(fetch, respond, limit) && table in endpointMap
      modifies this
      ensures var c := FetchAll(old(accessToken), reply, endpointMap[table], fetch(endpointMap[table]));
        && accessToken == c.cache && sent == old(sent) + c.sent
        && (c.result.Raised? ==> raised == Some(c.result.exc))
        && (c.result.Ok? ==> raised == None && next == if |c.result.value| > 0 then dataMap[table := Frame(columns(endpointMap[table]), c.result.value)] else dataMap)
    {
      var endpoint := endpointMap[table];
      ghost var fetched := FetchesAt(respond, endpoint, limit);
      assert fetched(0, []) == fetch(endpoint);
      var records := FetchAllFromEndpoint(reply, respond, endpoint, limit, fetched);
      next := dataMap;
      if records.Raised? {
        return Some(records.exc), next;
      }
      if |records.value| > 0 {
        next := dataMap[table := Frame(columns(endpoint), records.value)];
      }
      raised := None;
    }
  }
}
