/** `fetchImage`: obtain a JPEG data URL for one image by trying, strictly in
    order, a direct CORS fetch, the wsrv.nl image cache and the corsproxy.io
    relay, stopping at the first OK response whose body can be read. The
    network and the canvas re-encoding (`convertBlobToJpeg`) are oracles passed
    in as functions. */
module Fetch {
  import opened Wrappers
  import Proxy

  type Bytes = seq<bv8>

  /** What `canvas.toDataURL` yields; never empty (at least `"data:,"`). */
  type DataUrl = s: string | |s| > 0 witness "data:,"

  datatype Strategy = Direct | Wsrv | CorsProxy

  /** The strategies in the order they are tried. */
  const Chain: seq<Strategy> := [Direct, Wsrv, CorsProxy]

  /** The outcome of reading the body of a response: `response.blob()`. */
  datatype Body = Unreadable | Blob(bytes: Bytes)

  /** The outcome of `fetch(endpoint)`: a rejection (network or CORS failure),
      or a response with its `ok` flag and its body. */
  datatype Response = NetworkError | Http(ok: bool, body: Body)

  /** The outcome of `convertBlobToJpeg`: a JPEG data URL, or a rejection
      (the image did not decode, or the canvas refused to export). */
  datatype Conversion = Converted(dataUrl: DataUrl) | ConversionFailed

  datatype FetchError =
    | AllStrategiesFailed(url: string)   // the error thrown after the third attempt
    | DecodeFailed(at: Strategy)         // a conversion rejection that escapes the chain

  /** Where a strategy sends its request. */
  function Endpoint(s: Strategy, url: string, encode: string -> string): string
  {
    match s
    case Direct => url
    case Wsrv => Proxy.WsrvPrefix + encode(url) + "&output=jpg"
    case CorsProxy => "https://corsproxy.io/?" + encode(url)
  }

  /** How one `try` block ends: it falls through to the next strategy (the fetch
      or the body read rejected, or the response was not OK), or it settles the
      whole call with the promise of the conversion. */
  datatype Step = FellThrough | Settled(result: Result<DataUrl, FetchError>)

  function Attempt(s: Strategy, url: string, encode: string -> string,
                   net: string -> Response, convert: Bytes -> Conversion): Step
  {
    match net(Endpoint(s, url, encode))
    case NetworkError => FellThrough
    case Http(ok, body) =>
      if !ok then FellThrough
      else match body
        case Unreadable => FellThrough
        case Blob(bytes) =>
          match convert(bytes)
          case Converted(d) => Settled(Ok(d))
          case ConversionFailed => Settled(Err(DecodeFailed(s)))
  }

  /** Reference definition following `fetchImage`'s three consecutive `try`
      blocks: the result of `fetchImage(url)`. */
  function FetchImageSpec(url: string, encode: string -> string,
                          net: string -> Response, convert: Bytes -> Conversion): Result<DataUrl, FetchError>
  {
    match Attempt(Direct, url, encode, net, convert)
    case Settled(r) => r
    case FellThrough =>
      match Attempt(Wsrv, url, encode, net, convert)
      case Settled(r) => r
      case FellThrough =>
        match Attempt(CorsProxy, url, encode, net, convert)
        case Settled(r) => r
        case FellThrough => Err(AllStrategiesFailed(url))
  }

  /** Reference definition of the strategies `fetchImage(url)` tries. */
  function AttemptsSpec(url: string, encode: string -> string,
                        net: string -> Response, convert: Bytes -> Conversion): seq<Strategy>
  {
    if Attempt(Direct, url, encode, net, convert).Settled? then [Direct]
    else if Attempt(Wsrv, url, encode, net, convert).Settled? then [Direct, Wsrv]
    else [Direct, Wsrv, CorsProxy]
  }

  /** The chain as a loop over `Chain` with an early return at the first attempt
      that settles; `attempted` records the strategies in the order tried. */
  method FetchImage(url: string, encode: string -> string,
                    net: string -> Response, convert: Bytes -> Conversion)
    returns (r: Result<DataUrl, FetchError>, attempted: seq<Strategy>)
    ensures 1 <= |attempted| <= |Chain| && attempted == Chain[..|attempted|]
    ensures forall k :: 0 <= k < |attempted| - 1 ==>
              Attempt(attempted[k], url, encode, net, convert) == FellThrough
    ensures Attempt(attempted[|attempted| - 1], url, encode, net, convert).Settled? ==>
              r == Attempt(attempted[|attempted| - 1], url, encode, net, convert).result
    ensures r == Err(AllStrategiesFailed(url)) <==>
              |attempted| == |Chain| && Attempt(CorsProxy, url, encode, net, convert) == FellThrough
    ensures r == FetchImageSpec(url, encode, net, convert)
    ensures attempted == AttemptsSpec(url, encode, net, convert)
  {
    attempted := [];
    var i := 0;
    while i < |Chain|
      invariant 0 <= i <= |Chain|
      invariant attempted == Chain[..i]
      invariant forall k :: 0 <= k < i ==> Attempt(Chain[k], url, encode, net, convert) == FellThrough
    {
      var strategy := Chain[i];
      attempted := attempted + [strategy];
      var step := Attempt(strategy, url, encode, net, convert);
      if step.Settled? {
        r := step.result;
        assert i > 0 ==> Attempt(Chain[0], url, encode, net, convert) == FellThrough;
        assert i > 1 ==> Attempt(Chain[1], url, encode, net, convert) == FellThrough;
        return;
      }
      i := i + 1;
    }
    assert Attempt(Chain[0], url, encode, net, convert) == FellThrough;
    assert Attempt(Chain[1], url, encode, net, convert) == FellThrough;
    assert Attempt(Chain[2], url, encode, net, convert) == FellThrough;
    r := Err(AllStrategiesFailed(url));
  }

  /** The exhaustion error is raised exactly when all three strategies fall
      through; otherwise the result is that of the first strategy that settles. */
  lemma ExhaustedIffAllFail(url: string, encode: string -> string,
                            net: string -> Response, convert: Bytes -> Conversion)
    ensures FetchImageSpec(url, encode, net, convert) == Err(AllStrategiesFailed(url)) <==>
              forall s :: s in Chain ==> Attempt(s, url, encode, net, convert) == FellThrough
  {
  }

  /** An OK response whose bytes convert settles the chain with those bytes and
      stops it there: when the direct fetch falls through and the wsrv.nl
      request returns a readable OK response whose bytes convert to `d`, the
      result is `d` and corsproxy.io is never asked. */
  lemma SecondStrategyWins(url: string, encode: string -> string,
                           net: string -> Response, convert: Bytes -> Conversion,
                           bytes: Bytes, d: DataUrl)
    requires Attempt(Direct, url, encode, net, convert) == FellThrough
    requires net(Endpoint(Wsrv, url, encode)) == Http(true, Blob(bytes))
    requires convert(bytes) == Converted(d)
    ensures FetchImageSpec(url, encode, net, convert) == Ok(d)
    ensures AttemptsSpec(url, encode, net, convert) == [Direct, Wsrv]
    ensures CorsProxy !in AttemptsSpec(url, encode, net, convert)
  {
  }

  /** A conversion rejection after an OK response is not caught by the `try`
      around it (its promise is returned, not awaited), so the item fails with
      that error and no later strategy is tried. */
  lemma DecodeFailureEndsChain(i: nat, url: string, encode: string -> string,
                               net: string -> Response, convert: Bytes -> Conversion, bytes: Bytes)
    requires i < |Chain|
    requires forall k :: 0 <= k < i ==> Attempt(Chain[k], url, encode, net, convert) == FellThrough
    requires net(Endpoint(Chain[i], url, encode)) == Http(true, Blob(bytes))
    requires convert(bytes) == ConversionFailed
    ensures FetchImageSpec(url, encode, net, convert) == Err(DecodeFailed(Chain[i]))
    ensures AttemptsSpec(url, encode, net, convert) == Chain[..i + 1]
  {
    if i > 0 {
      assert Attempt(Chain[0], url, encode, net, convert) == FellThrough;
    }
    if i > 1 {
      assert Attempt(Chain[1], url, encode, net, convert) == FellThrough;
    }
  }

  /** Every result is the converted bytes of an OK response from the last
      strategy tried, a conversion failure of that strategy, or exhaustion after
      all three: no other outcome exists. */
  lemma ResultOrigin(url: string, encode: string -> string,
                     net: string -> Response, convert: Bytes -> Conversion)
    ensures var r := FetchImageSpec(url, encode, net, convert);
            var last := AttemptsSpec(url, encode, net, convert)[|AttemptsSpec(url, encode, net, convert)| - 1];
            match r
            case Ok(d) =>
              exists bytes :: net(Endpoint(last, url, encode)) == Http(true, Blob(bytes))
                              && convert(bytes) == Converted(d)
            case Err(DecodeFailed(s)) =>
              s == last && exists bytes :: net(Endpoint(last, url, encode)) == Http(true, Blob(bytes))
                                          && convert(bytes) == ConversionFailed
            case Err(AllStrategiesFailed(u)) => u == url && last == CorsProxy
  {
  }

  /** The chain's wsrv.nl request is the display URL without `&bg=white`: for
      the same image the two ask the cache for differently flattened JPEGs. */
  lemma ChainWsrvOmitsBackground(url: string, encode: string -> string)
    requires Proxy.MentionsProxiedHost(url)
    ensures Proxy.GetProxiedUrl(url, encode) == Endpoint(Wsrv, url, encode) + "&bg=white"
    ensures Proxy.GetProxiedUrl(url, encode) != Endpoint(Wsrv, url, encode)
  {
  }
}
