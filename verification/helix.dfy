/**
 * How the bot reads the answers of Twitch's OAuth token endpoint and of the
 * Helix streams endpoint (`retrieve_access_token`, `retrieve_streaming_status`,
 * `get_alive_streamers`). The HTTP exchanges themselves are not modelled: a
 * response is its status code and its parsed JSON body.
 */
module Helix {
  import opened Wrappers
  import opened Python

  /** An HTTP response: the status code and the body as parsed by `response.json()`. */
  datatype Response = Response(status: int, body: Value)

  /** Why no access token was obtained. */
  datatype TokenError =
    | ServerError       // status 500: "Failed to fetch access token."
    | TokenBodyNotDict  // `response_data.get` on a body that is not a JSON object
    | MissingToken      // `access_token` absent or null: KeyError("access_token")

  /** The outcome of a token request: whether the status warning was logged, and the token or error. */
  datatype TokenReply = TokenReply(warned: bool, token: Result<Value, TokenError>)

  /** Why a stream status could not be read. */
  datatype StatusError =
    | StatusBodyNotDict  // `response_data.get` on a body that is not a JSON object
    | DataNotList        // `data` absent or not a list: KeyError("data")
    | BearerNotString    // `"Bearer " + access_token` on a token that is not a string: TypeError

  /** Why a poll of the live streamers failed. */
  datatype FetchError =
    | TokenFailed(reason: TokenError)
    | StatusFailed(streamer: string, why: StatusError)

  /** `str(status).startswith("2")`, the test the token request uses for success. */
  predicate StatusStartsWithTwo(status: int)
  {
    StartsWith(IntToStr(status), "2")
  }

  /** Over three-digit codes the textual test is exactly the 2xx range. */
  lemma StatusStartsWithTwoIsTwoHundreds(status: int)
    ensures 100 <= status < 1000 ==> (StatusStartsWithTwo(status) <==> 200 <= status < 300)
    ensures StatusStartsWithTwo(status) <==> status >= 0 && LeadingDigit(status) == 2
  {
    assert "2" == [DigitChar(2)];
    IntToStrStartsWithDigit(status, 2);
    if 100 <= status < 1000 {
      assert LeadingDigit(status) == LeadingDigit(status / 100);
    }
  }

  /**
   * The decision `retrieve_access_token` makes on the token endpoint's answer:
   * status 500 fails whatever the body; any other status whose text does not
   * start with "2" only logs a warning; then a body without a non-null
   * `access_token` fails, and otherwise the token is returned as sent.
   */
  function InterpretToken(resp: Response): (reply: TokenReply)
    ensures resp.status == 500 ==> reply == TokenReply(false, Failure(ServerError))
    ensures 100 <= resp.status < 1000 ==>
              (reply.warned <==> resp.status != 500 && !(200 <= resp.status < 300))
    ensures reply.token.Success? <==>
              resp.status != 500 && resp.body.Dict? && DictGet(resp.body.fields, "access_token") != Null
    ensures reply.token.Success? ==>
              "access_token" in resp.body.fields && reply.token.value == resp.body.fields["access_token"]
  {
    StatusStartsWithTwoIsTwoHundreds(resp.status);
    if resp.status == 500 then TokenReply(false, Failure(ServerError))
    else
      var warned := !StatusStartsWithTwo(resp.status);
      match resp.body
      case Dict(fields) =>
        var token := DictGet(fields, "access_token");
        if token == Null then TokenReply(warned, Failure(MissingToken))
        else TokenReply(warned, Success(token))
      case _ => TokenReply(warned, Failure(TokenBodyNotDict))
  }

  /**
   * Only status 500 is treated as a failure: any other server error (502, 503,
   * ...) is logged as a warning and the token in its body is still used.
   */
  lemma OtherServerErrorsOnlyWarn(status: int, token: Value)
    requires 500 < status < 600 && token != Null
    ensures InterpretToken(Response(status, Dict(map["access_token" := token]))) == TokenReply(true, Success(token))
  {
  }

  /**
   * The decision `retrieve_streaming_status` makes on the streams endpoint's
   * answer. Its status code is not consulted. A streamer is live when `data` is
   * a list with exactly one entry: an empty list and a longer list both mean
   * not live.
   */
  function InterpretStatus(body: Value): (live: Result<bool, StatusError>)
    ensures live.Failure? <==> !(body.Dict? && DictGet(body.fields, "data").List?)
    ensures live == Success(true) <==>
              body.Dict? && "data" in body.fields && body.fields["data"].List? && |body.fields["data"].items| == 1
  {
    match body
    case Dict(fields) =>
      var data := DictGet(fields, "data");
      if data.List? then Success(|data.items| == 1) else Failure(DataNotList)
    case _ => Failure(StatusBodyNotDict)
  }

  /** A well-formed answer means live for one entry and not live for none or several. */
  lemma LiveIffExactlyOneEntry(items: seq<Value>, others: map<string, Value>)
    ensures InterpretStatus(Dict(others["data" := List(items)])) == Success(|items| == 1)
    ensures InterpretStatus(Dict(others["data" := List([])])) == Success(false)
    ensures |items| >= 2 ==> InterpretStatus(Dict(others["data" := List(items)])) == Success(false)
  {
  }

  /**
   * The per-streamer results `asyncio.gather` collects, in request order. The
   * model queries one streamer after the other; when several queries fail it
   * reports the first failing one in request order.
   */
  function Gather(streamers: seq<string>, bodies: seq<Value>): (r: Result<seq<(string, bool)>, FetchError>)
    requires |bodies| == |streamers|
    ensures r.Success? <==> forall i | 0 <= i < |bodies| :: InterpretStatus(bodies[i]).Success?
    ensures r.Success? ==> |r.value| == |streamers|
    ensures r.Success? ==>
              forall i | 0 <= i < |streamers| :: r.value[i] == (streamers[i], InterpretStatus(bodies[i]) == Success(true))
  {
    if streamers == [] then Success([])
    else
      match InterpretStatus(bodies[0])
      case Failure(why) => Failure(StatusFailed(streamers[0], why))
      case Success(live) =>
        var rest := Gather(streamers[1..], bodies[1..]);
        assert forall i | 1 <= i < |bodies| :: bodies[i] == bodies[1..][i - 1];
        match rest
        case Failure(e) => Failure(e)
        case Success(results) => Success([(streamers[0], live)] + results)
  }

  /** The value `ChainMap(*results)[name]` finds: that of the first result for name. */
  function FirstStatus(results: seq<(string, bool)>, name: string): Option<bool>
  {
    if results == [] then None
    else if results[0].0 == name then Some(results[0].1)
    else FirstStatus(results[1..], name)
  }

  /**
   * `[k for k, v in dict(ChainMap(*results)).items() if v is True]`, as a set:
   * the names whose first result says live.
   */
  function LiveNames(results: seq<(string, bool)>): (names: set<string>)
    ensures forall n :: n in names <==> FirstStatus(results, n) == Some(true)
  {
    if results == [] then {}
    else
      var rest := LiveNames(results[1..]) - {results[0].0};
      if results[0].1 then rest + {results[0].0} else rest
  }

  /**
   * `get_alive_streamers`: one token request, then one status request per
   * streamer. Each status request first builds its `Authorization` header from
   * the token, which raises for a token that is not a string; the first
   * request raises first, before any answer is read.
   */
  function AliveStreamers(token: Response, streamers: seq<string>, bodies: seq<Value>): (r: Result<set<string>, FetchError>)
    requires |bodies| == |streamers|
    ensures InterpretToken(token).token.Failure? ==> r == Failure(TokenFailed(InterpretToken(token).token.error))
    ensures InterpretToken(token).token.Success? && !InterpretToken(token).token.value.Str? && streamers != [] ==>
              r == Failure(StatusFailed(streamers[0], BearerNotString))
    ensures r.Success? <==>
              && InterpretToken(token).token.Success?
              && (streamers == [] || InterpretToken(token).token.value.Str?)
              && forall i | 0 <= i < |bodies| :: InterpretStatus(bodies[i]).Success?
  {
    match InterpretToken(token).token
    case Failure(e) => Failure(TokenFailed(e))
    case Success(accessToken) =>
      if !accessToken.Str? && streamers != [] then Failure(StatusFailed(streamers[0], BearerNotString))
      else
        match Gather(streamers, bodies)
        case Failure(e) => Failure(e)
        case Success(results) => Success(LiveNames(results))
  }

  /** Index of the first request for name, or |streamers| when there is none. */
  function FirstIndex(streamers: seq<string>, name: string): (k: nat)
    ensures k <= |streamers|
    ensures forall i | 0 <= i < k :: streamers[i] != name
    ensures k < |streamers| ==> streamers[k] == name
  {
    if streamers == [] then 0
    else if streamers[0] == name then 0
    else 1 + FirstIndex(streamers[1..], name)
  }

  /** The first result for a name is the answer to its first request. */
  lemma {:induction false} FirstStatusIsFirstRequest(streamers: seq<string>, bodies: seq<Value>, name: string)
    requires |bodies| == |streamers|
    requires Gather(streamers, bodies).Success?
    ensures var k := FirstIndex(streamers, name);
            FirstStatus(Gather(streamers, bodies).value, name) ==
              if k < |streamers| then Some(InterpretStatus(bodies[k]) == Success(true)) else None
  {
    if streamers != [] && streamers[0] != name {
      var results := Gather(streamers, bodies).value;
      assert results[1..] == Gather(streamers[1..], bodies[1..]).value;
      FirstStatusIsFirstRequest(streamers[1..], bodies[1..], name);
    }
  }

  /**
   * A successful poll returns exactly the requested names whose FIRST status
   * answer says live; a name asked for several times counts once.
   */
  lemma AliveStreamersExactly(token: Response, streamers: seq<string>, bodies: seq<Value>, name: string)
    requires |bodies| == |streamers|
    requires AliveStreamers(token, streamers, bodies).Success?
    ensures var k := FirstIndex(streamers, name);
            name in AliveStreamers(token, streamers, bodies).value <==>
              k < |streamers| && InterpretStatus(bodies[k]) == Success(true)
  {
    FirstStatusIsFirstRequest(streamers, bodies, name);
  }

  /** Only requested names are ever reported live. */
  lemma AliveStreamersRequested(token: Response, streamers: seq<string>, bodies: seq<Value>)
    requires |bodies| == |streamers|
    requires AliveStreamers(token, streamers, bodies).Success?
    ensures AliveStreamers(token, streamers, bodies).value <= set n | n in streamers
  {
    forall n | n in AliveStreamers(token, streamers, bodies).value
      ensures n in streamers
    {
      AliveStreamersExactly(token, streamers, bodies, n);
    }
  }

  /**
   * When every request for the same streamer gets the same answer (the API is
   * consistent within one poll), the result is the set of requested names whose
   * answer says live.
   */
  lemma AliveStreamersConsistent(token: Response, streamers: seq<string>, bodies: seq<Value>, name: string)
    requires |bodies| == |streamers|
    requires AliveStreamers(token, streamers, bodies).Success?
    requires forall i, j | 0 <= i < |streamers| && 0 <= j < |streamers| && streamers[i] == streamers[j] ::
               InterpretStatus(bodies[i]) == InterpretStatus(bodies[j])
    ensures name in AliveStreamers(token, streamers, bodies).value <==>
              exists i | 0 <= i < |streamers| :: streamers[i] == name && InterpretStatus(bodies[i]) == Success(true)
  {
    AliveStreamersExactly(token, streamers, bodies, name);
  }
}
