/**
 * Fetching the GeoJSON document (`fetchJson` and the try/catch/validate sequence of `load`
 * in js/app.js). The network is the parameter `net`, which answers a requested URL, and
 * `Date.now()` is a stamp passed in for each request.
 */
module Fetch {
  import opened JsValues

  const PrimaryUrl: string :=
    "https://cdn.jsdelivr.net/gh/simasaadi/gis-spatial-data-engineering@main/data/outputs/web/ne_10m_populated_places_canada.geojson"
  const FallbackUrl: string :=
    "https://raw.githubusercontent.com/simasaadi/gis-spatial-data-engineering/main/data/outputs/web/ne_10m_populated_places_canada.geojson"
  const InvalidGeoJson: string := "Invalid GeoJSON: missing features[]"

  // ---------------------------------------------------------------- decimal stamps

  predicate IsDigit(c: char) { '0' <= c <= '9' }

  function DigitChar(d: nat): (c: char)
    requires d < 10
    ensures IsDigit(c) && DigitValue(c) == d
  {
    (('0' as int) + d) as char
  }

  function DigitValue(c: char): nat
    requires IsDigit(c)
  {
    (c as int) - ('0' as int)
  }

  /**
   * `"" + n` for a whole number n (below 10^21, where JavaScript switches to exponent form):
   * digits only, and no leading zero except in "0" itself.
   */
  function Decimal(n: nat): (s: string)
    ensures |s| > 0
    ensures forall i | 0 <= i < |s| :: IsDigit(s[i])
    ensures s[0] == '0' <==> n == 0
  {
    if n < 10 then [DigitChar(n)] else Decimal(n / 10) + [DigitChar(n % 10)]
  }

  /** Reads a non-empty run of decimal digits. */
  function ParseDecimal(s: string): Option<nat> {
    if s == [] || !IsDigit(s[|s| - 1]) then None
    else if |s| == 1 then Some(DigitValue(s[0]))
    else match ParseDecimal(s[..|s| - 1])
      case None => None
      case Some(v) => Some(v * 10 + DigitValue(s[|s| - 1]))
  }

  /** The stamp written into a URL can be read back. */
  lemma {:induction false} DecimalRoundTrip(n: nat)
    ensures ParseDecimal(Decimal(n)) == Some(n)
  {
    var s := Decimal(n);
    if n >= 10 {
      DecimalRoundTrip(n / 10);
      assert s[..|s| - 1] == Decimal(n / 10);
    }
  }

  // ---------------------------------------------------------------- cache-busting URL

  function Separator(url: string): char {
    if '?' in url then '&' else '?'
  }

  /**
   * The URL actually requested: `url + (url.includes("?") ? "&" : "?") + "v=" + stamp`.
   * It extends `url`, adds `&` when `url` already has a query and `?` otherwise, and the
   * stamp can be read back from what follows `v=`.
   */
  function CacheBust(url: string, stamp: nat): (u: string)
    ensures |u| > |url| + 3 && u[..|url|] == url
    ensures u[|url|] == '&' <==> '?' in url
    ensures u[|url|] == '?' <==> '?' !in url
    ensures u[|url| + 1..|url| + 3] == "v="
    ensures ParseDecimal(u[|url| + 3..]) == Some(stamp)
    ensures u[|url| + 3] != '0' || u[|url| + 3..] == "0"
    ensures '?' in u
  {
    DecimalRoundTrip(stamp);
    var u := url + [Separator(url)] + "v=" + Decimal(stamp);
    assert u[|url| + 3..] == Decimal(stamp);
    assert u[|url|] in u;
    u
  }

  // ---------------------------------------------------------------- one request

  /** What `res.json()` gives: the parsed document, or the reason it rejected. */
  datatype Body = Json(value: JsValue) | Malformed(reason: string)

  datatype Response = Response(ok: bool, status: nat, statusText: string, body: Body)

  /**
   * The settlement of `fetch(u, ...)`: a response, or a rejection (network error, or the
   * abort after 25 s). An abort while the body is still being read shows as a `Malformed` body.
   */
  datatype NetResult = Received(res: Response) | Rejected(reason: string)

  /** A settled promise: its value, or the message of the error it rejected with. */
  datatype Result<T> = Ok(value: T) | Err(message: string)

  /**
   * The message of the error a non-ok response throws: `Fetch failed: `, the status code,
   * a space, and the status text. The code can be read back from the message.
   */
  function HttpFailure(res: Response): (m: string)
    ensures var k := |m| - |res.statusText|;
      && 15 < k <= |m|
      && m[..14] == "Fetch failed: " && m[k - 1] == ' ' && m[k..] == res.statusText
      && ParseDecimal(m[14..k - 1]) == Some(res.status)
  {
    DecimalRoundTrip(res.status);
    var m := "Fetch failed: " + Decimal(res.status) + " " + res.statusText;
    assert m[14..|m| - |res.statusText| - 1] == Decimal(res.status);
    m
  }

  /**
   * `fetchJson(url, 25000)` when `Date.now()` is `stamp`: it resolves with the parsed body
   * exactly when the response to the cache-busted URL is ok and parses, and otherwise
   * rejects with the network's reason, the HTTP status line, or the parser's reason.
   */
  function FetchJson(url: string, stamp: nat, net: string -> NetResult): (r: Result<JsValue>)
    ensures var reply := net(CacheBust(url, stamp));
      && (r.Ok? <==> reply.Received? && reply.res.ok && reply.res.body.Json?)
      && (r.Ok? ==> r.value == reply.res.body.value)
      && (reply.Rejected? ==> r == Err(reply.reason))
      && (reply.Received? && !reply.res.ok ==> r == Err(HttpFailure(reply.res)))
      && (reply.Received? && reply.res.ok && reply.res.body.Malformed? ==> r == Err(reply.res.body.reason))
  {
    match net(CacheBust(url, stamp))
    case Rejected(reason) => Err(reason)
    case Received(res) =>
      if !res.ok then Err(HttpFailure(res))
      else match res.body
        case Malformed(reason) => Err(reason)
        case Json(v) => Ok(v)
  }

  // ---------------------------------------------------------------- the load sequence

  /**
   * `gj.features` when `gj` is truthy and that is an array: a falsy document, a document
   * that is not an object, and a `features` that is missing or not an array all give None.
   */
  function Features(gj: JsValue): (r: Option<seq<JsValue>>)
    ensures !Truthy(gj) ==> r.None?
    ensures r.Some? <==> gj.Obj? && Get(gj.fields, "features").Arr?
    ensures r.Some? ==> Get(gj.fields, "features") == Arr(r.value)
  {
    if gj.Obj? && "features" in gj.fields && gj.fields["features"].Arr?
    then Some(gj.fields["features"].elems)
    else None
  }

  /** How one call of `load` ends: the features and the URL they came from, or an error message. */
  datatype LoadResult = Loaded(features: seq<JsValue>, source: string) | Failed(message: string)

  /** The requests `load` makes: the primary URL, then the fallback only if that one rejected. */
  function Requests(net: string -> NetResult, now1: nat, now2: nat): seq<string> {
    [CacheBust(PrimaryUrl, now1)]
      + if FetchJson(PrimaryUrl, now1, net).Err? then [CacheBust(FallbackUrl, now2)] else []
  }

  /**
   * The document and its source after the try/catch: the primary's if it resolved,
   * otherwise whatever the single fallback request gives.
   */
  function Fetched(net: string -> NetResult, now1: nat, now2: nat): Result<(JsValue, string)> {
    match FetchJson(PrimaryUrl, now1, net)
    case Ok(gj) => Ok((gj, PrimaryUrl))
    case Err(_) =>
      match FetchJson(FallbackUrl, now2, net)
      case Ok(gj) => Ok((gj, FallbackUrl))
      case Err(m) => Err(m)
  }

  /** `load()` up to the status line: fetch with fallback, then check `features`. */
  function LoadOutcome(net: string -> NetResult, now1: nat, now2: nat): LoadResult {
    match Fetched(net, now1, now2)
    case Err(m) => Failed(m)
    case Ok((gj, source)) =>
      match Features(gj)
      case None => Failed(InvalidGeoJson)
      case Some(fs) => Loaded(fs, source)
  }

  /** The primary URL is always tried first; the fallback is tried once, and only after the primary rejected. */
  lemma FallbackAtMostOnce(net: string -> NetResult, now1: nat, now2: nat)
    ensures var rs := Requests(net, now1, now2);
      && 1 <= |rs| <= 2
      && rs[0][..|PrimaryUrl|] == PrimaryUrl
      && (|rs| == 2 <==> FetchJson(PrimaryUrl, now1, net).Err?)
      && (|rs| == 2 ==> rs[1][..|FallbackUrl|] == FallbackUrl)
  {
  }

  /** A load that succeeds names the URL whose fetch resolved, and reports that document's features. */
  lemma LoadedFromSource(net: string -> NetResult, now1: nat, now2: nat)
    ensures var out := LoadOutcome(net, now1, now2);
      var primary := FetchJson(PrimaryUrl, now1, net);
      var fallback := FetchJson(FallbackUrl, now2, net);
      out.Loaded? ==>
        || (out.source == PrimaryUrl && primary.Ok? && Features(primary.value) == Some(out.features))
        || (out.source == FallbackUrl && primary.Err? && fallback.Ok?
            && Features(fallback.value) == Some(out.features))
  {
  }

  /** When both requests reject, the load fails with the fallback's message. */
  lemma BothFailed(net: string -> NetResult, now1: nat, now2: nat)
    requires FetchJson(PrimaryUrl, now1, net).Err? && FetchJson(FallbackUrl, now2, net).Err?
    ensures LoadOutcome(net, now1, now2) == Failed(FetchJson(FallbackUrl, now2, net).message)
    ensures |Requests(net, now1, now2)| == 2
  {
  }

  /** A document that arrives without a `features` array fails the load and is not retried. */
  lemma InvalidDocumentNotRetried(net: string -> NetResult, now1: nat, now2: nat)
    requires FetchJson(PrimaryUrl, now1, net).Ok?
    requires Features(FetchJson(PrimaryUrl, now1, net).value).None?
    ensures LoadOutcome(net, now1, now2) == Failed(InvalidGeoJson)
    ensures Requests(net, now1, now2) == [CacheBust(PrimaryUrl, now1)]
  {
  }

  /** A load fails exactly when neither request gives a document with a `features` array. */
  lemma LoadFailsIff(net: string -> NetResult, now1: nat, now2: nat)
    ensures var primary := FetchJson(PrimaryUrl, now1, net);
      var fallback := FetchJson(FallbackUrl, now2, net);
      LoadOutcome(net, now1, now2).Failed? <==>
        if primary.Ok? then Features(primary.value).None?
        else fallback.Err? || Features(fallback.value).None?
  {
  }

  /** `{ "type": "FeatureCollection" }` and a bare `null` have no features, an empty collection does. */
  lemma FeaturesExamples()
    ensures Features(Obj(map["type" := Str("FeatureCollection")])) == None
    ensures Features(Null) == None
    ensures Features(Obj(map["type" := Str("FeatureCollection"), "features" := Arr([])])) == Some([])
  {
  }
}
