/**
 The free helpers the client and the fleet share (scs-helpers.js): status
 classification, scheme test, URL splitting and command-line argument
 validation. Only the validation verdict of the argument helpers is modelled;
 `process.exit` becomes a `Failure`.
 */
module ScsHelpers {
  import opened Common

  // -----------------------------------------------------------------------
  // Status codes and schemes

  /** The redirect statuses the load generator follows by ending the session: Moved
      Permanently, Found, Temporary Redirect and Permanent Redirect (section 15.4 of
      RFC 9110). See Other (303) is deliberately not among them. */
  const RedirectCodes: set<int> := {301, 302, 307, 308}

  function IsRedirect(status: int): (r: bool)
    ensures r ==> 300 <= status <= 399
    ensures r <==> status == 301 || status == 302 || status == 307 || status == 308
  {
    status in RedirectCodes
  }

  lemma SeeOtherIsNotARedirect()
    ensures !IsRedirect(303) && !IsRedirect(304) && !IsRedirect(200)
  {
  }

  /** The URL uses TLS: its first five characters are `https`. */
  function IsHttps(url: string): (r: bool)
    ensures r <==> StartsWith(url, "https")
  {
    url[..Min(5, |url|)] == "https"
  }

  lemma SchemeExamples(rest: string)
    ensures IsHttps("https://" + rest)
    ensures !IsHttps("http://" + rest)
    ensures !IsHttps("http")
  {
    assert ("https://" + rest)[..5] == "https";
    assert ("http://" + rest)[..5] == "http:";
  }

  // -----------------------------------------------------------------------
  // URL splitting

  datatype UrlParts = UrlParts(proto: string, hostname: string, port: Option<string>, path: string)

  datatype UrlError = NoSchemeSeparator

  const SchemeSep: string := "://"

  /** The second piece of `url.split("://")`: the text between the first separator and the
      next one (or the end). */
  function AfterScheme(url: string, i: nat): (rest: string)
    requires OccursAt(url, SchemeSep, i)
    ensures |rest| <= |url| - i - 3
    ensures rest <= url[i + 3..]
  {
    var tail := url[i + 3..];
    match FindSub(tail, SchemeSep)
    case None => tail
    case Some(j) => tail[..j]
  }

  /** The authority and the path of what follows `://`: split at the first `/`; without a
      `/` the authority is empty and everything is path, as `substring(0, -1)` and
      `substring(-1)` behave. */
  function SplitAtSlash(rest: string): (r: (string, string))
    ensures '/' in rest ==> r.0 + r.1 == rest && '/' !in r.0 && |r.1| > 0 && r.1[0] == '/'
    ensures '/' !in rest ==> r == ("", rest)
  {
    match IndexOf(rest, '/')
    case None => ("", rest)
    case Some(s) =>
      assert rest == rest[..s] + rest[s..];
      (rest[..s], rest[s..])
  }

  /** Host name and optional port of an authority, split at its first `:`. */
  function SplitPort(authority: string): (r: (string, Option<string>))
    ensures ':' !in r.0
    ensures r.1.None? <==> ':' !in authority
    ensures r.1.None? ==> r.0 == authority
    ensures r.1.Some? ==> r.0 + ":" + r.1.value == authority
  {
    match IndexOf(authority, ':')
    case None => (authority, None)
    case Some(p) =>
      assert authority == authority[..p] + ":" + authority[p + 1..];
      (authority[..p], Some(authority[p + 1..]))
  }

  /** `parseUrl`: protocol before the first `://`, host (and optional `:port`) up to the first
      `/` after it, path from that `/` on. A URL without `://` makes the source dereference
      an undefined piece, a failure here. */
  function ParseUrl(url: string): (r: Result<UrlParts, UrlError>)
    ensures r.Failure? <==> FindSub(url, SchemeSep).None?
    ensures r.Success? ==> r.value.proto == url[..FindSub(url, SchemeSep).value]
    ensures r.Success? ==> ':' !in r.value.hostname && '/' !in r.value.hostname
    ensures r.Success? && r.value.hostname != "" ==> |r.value.path| > 0 && r.value.path[0] == '/'
  {
    match FindSub(url, SchemeSep)
    case None => Failure(NoSchemeSeparator)
    case Some(i) =>
      var (authority, path) := SplitAtSlash(AfterScheme(url, i));
      var (host, port) := SplitPort(authority);
      Success(UrlParts(url[..i], host, port, path))
  }

  /** The URL the parts describe. */
  function Reassemble(u: UrlParts): string {
    u.proto + SchemeSep + u.hostname
    + (match u.port case None => "" case Some(p) => ":" + p)
    + u.path
  }

  /** `url` has exactly one `://` and a `/` somewhere after it. */
  predicate WellFormedUrl(url: string) {
    && FindSub(url, SchemeSep).Some?
    && var i := FindSub(url, SchemeSep).value;
    && i + 3 <= |url|
    && FindSub(url[i + 3..], SchemeSep).None?
    && '/' in url[i + 3..]
  }

  /** Splitting a well-formed URL loses nothing: reassembling the parts gives it back. */
  lemma ParseUrlRoundTrip(url: string)
    requires WellFormedUrl(url)
    ensures ParseUrl(url).Success?
    ensures Reassemble(ParseUrl(url).value) == url
  {
    var i := FindSub(url, SchemeSep).value;
    var rest := url[i + 3..];
    var u := ParsedParts(url, i, rest);
    ReassembleParts(u, SplitAtSlash(rest).0, rest);
    SchemeSplit(url, i, rest);
  }

  lemma ParsedParts(url: string, i: nat, rest: string) returns (u: UrlParts)
    requires WellFormedUrl(url) && i == FindSub(url, SchemeSep).value && rest == url[i + 3..]
    ensures ParseUrl(url) == Success(u)
    ensures u.proto == url[..i] && u.path == SplitAtSlash(rest).1
    ensures u.hostname + (match u.port case None => "" case Some(p) => ":" + p)
      == SplitAtSlash(rest).0
    ensures SplitAtSlash(rest).0 + u.path == rest
  {
    assert AfterScheme(url, i) == rest;
    var parts := SplitAtSlash(rest);
    u := UrlParts(url[..i], SplitPort(parts.0).0, SplitPort(parts.0).1, parts.1);
    PortRejoins(parts.0);
  }

  lemma PortRejoins(authority: string)
    ensures var hp := SplitPort(authority);
      hp.0 + (match hp.1 case None => "" case Some(p) => ":" + p) == authority
  {
  }

  lemma SchemeSplit(url: string, i: nat, rest: string)
    requires OccursAt(url, SchemeSep, i) && rest == url[i + 3..]
    ensures url == url[..i] + SchemeSep + rest
  {
  }

  lemma ReassembleParts(u: UrlParts, authority: string, rest: string)
    requires u.hostname + (match u.port case None => "" case Some(p) => ":" + p) == authority
    requires authority + u.path == rest
    ensures Reassemble(u) == u.proto + SchemeSep + rest
  {
    var port := match u.port case None => "" case Some(p) => ":" + p;
    calc {
      Reassemble(u);
      u.proto + SchemeSep + u.hostname + port + u.path;
      { assert u.proto + SchemeSep + u.hostname + port + u.path
          == u.proto + SchemeSep + (u.hostname + port + u.path); }
      u.proto + SchemeSep + rest;
    }
  }

  // -----------------------------------------------------------------------
  // Random integers

  /** The resolution of `Math.random()`: it returns `k / RandomScale` for some
      `0 <= k < RandomScale`. */
  const RandomScale: nat := 0x20_0000_0000_0000

  /** `getRandomInt(lo, hi)`, `floor(random() * (hi - lo + 1)) + lo`, for the draw
      `k / RandomScale`. An empty range (`hi < lo`) still yields a number, between `hi + 1`
      and `lo`. */
  function GetRandomInt(lo: int, hi: int, k: nat): (r: int)
    requires k < RandomScale
    ensures hi >= lo ==> lo <= r <= hi
    ensures hi < lo ==> hi + 1 <= r <= lo
  {
    var n := hi - lo + 1;
    RandomBounds(n, k);
    k * n / RandomScale + lo
  }

  lemma RandomBounds(n: int, k: nat)
    requires k < RandomScale
    ensures n > 0 ==> 0 <= k * n / RandomScale < n
    ensures n <= 0 ==> n <= k * n / RandomScale <= 0
  {
    if n > 0 {
      assert k * n < RandomScale * n;
    } else {
      assert k * n >= RandomScale * n;
      assert k * n <= 0;
    }
  }

  /** Every value of a non-empty range is drawn by some `k`: the draw `k` taken as
      `ceil((v - lo) * RandomScale / n)` lands on `v`. */
  lemma RandomCoversRange(lo: int, hi: int, v: int)
    requires lo <= v <= hi
    requires hi - lo + 1 <= RandomScale
    ensures exists k: nat :: k < RandomScale && GetRandomInt(lo, hi, k) == v
  {
    var n := hi - lo + 1;
    var d := v - lo;
    var a := d * RandomScale + n - 1;
    var k := a / n;
    var t := n - 1 - a % n;
    DivMod(a, n);
    assert k * n == d * RandomScale + t;
    assert 0 <= t < RandomScale;
    DivUnique(k * n, RandomScale, d, t);
    assert k < RandomScale by {
      LessTimes(d, n - 1, RandomScale);
      assert k * n < n * RandomScale;
      MulLess(k, RandomScale, n);
    }
    assert GetRandomInt(lo, hi, k) == v;
  }

  lemma DivMod(a: int, n: int)
    requires n > 0
    ensures a == (a / n) * n + a % n && 0 <= a % n < n
  {
  }

  lemma DivUnique(a: int, b: int, q: int, r: int)
    requires b > 0 && a == q * b + r && 0 <= r < b
    ensures a / b == q
  {
    var q' := a / b;
    assert (q' - q) * b == r - a % b;
    MulMono(q' - q, b);
  }

  lemma MulMono(x: int, b: int)
    requires b > 0
    ensures x >= 1 ==> x * b >= b
    ensures x <= -1 ==> x * b <= -b
  {
  }

  lemma LessTimes(x: int, y: int, m: int)
    requires 0 <= x <= y && m > 0
    ensures x * m <= y * m
  {
  }

  lemma MulLess(k: int, s: int, n: int)
    requires n > 0 && k * n < n * s
    ensures k < s
  {
    assert (k - s) * n < 0;
    MulMono(k - s + 1, n);
  }

  // -----------------------------------------------------------------------
  // Command-line argument validation

  datatype ArgError = MissingArgument | NotANumber | OutOfRange

  /** `parseIntArg`: the argument must be present and `parseInt` must find a number in it. */
  function ParseIntArg(arg: Option<string>): (r: Result<int, ArgError>)
    ensures arg.None? ==> r == Failure(MissingArgument)
    ensures arg.Some? && JsParseInt(arg.value).None? ==> r == Failure(NotANumber)
    ensures r.Success? ==> arg.Some? && JsParseInt(arg.value) == Some(r.value)
  {
    match arg
    case None => Failure(MissingArgument)
    case Some(s) =>
      match JsParseInt(s)
      case None => Failure(NotANumber)
      case Some(v) => Success(v)
  }

  /** `parsePctArg`: like `parseIntArg`, and the number must lie in [0, 100]. */
  function ParsePctArg(arg: Option<string>): (r: Result<int, ArgError>)
    ensures r.Success? ==> 0 <= r.value <= 100
    ensures r.Success? <==>
      arg.Some? && JsParseInt(arg.value).Some? && 0 <= JsParseInt(arg.value).value <= 100
    ensures r.Success? ==> JsParseInt(arg.value) == Some(r.value)
  {
    match ParseIntArg(arg)
    case Failure(e) => Failure(e)
    case Success(v) => if v > 100 || v < 0 then Failure(OutOfRange) else Success(v)
  }

  /** Every percentage written in decimal is accepted with its value. */
  lemma PctArgAcceptsPercentages(n: nat)
    requires n <= 100
    ensures ParsePctArg(Some(DecimalString(n))) == Success(n)
  {
    ParseIntOfDecimal(n);
  }

  /** Numbers outside [0, 100] are rejected as out of range, not as malformed. */
  lemma PctArgRejectsOutOfRange(n: nat)
    requires n > 0
    ensures ParsePctArg(Some(DecimalString(n + 100))) == Failure(OutOfRange)
    ensures ParsePctArg(Some("-" + DecimalString(n))) == Failure(OutOfRange)
  {
    ParseIntOfDecimal(n + 100);
    ParseIntOfNegative(n);
  }

  /** `parseInt` reads only the leading number, so a fractional or suffixed value passes
      with its integer prefix, while text without a leading number does not. */
  lemma PctArgReadsLeadingNumber()
    ensures ParsePctArg(Some("12.5")) == Success(12)
    ensures ParsePctArg(Some(" 7%")) == Success(7)
    ensures ParsePctArg(Some("abc")) == Failure(NotANumber)
    ensures ParsePctArg(None) == Failure(MissingArgument)
  {
    assert DigitRun("12.5") == 2;
    assert "12.5"[..2] == "12";
    assert DigitsValue("12") == 12 by {
      assert "12"[..1] == "1";
    }
    assert " 7%"[1..] == "7%";
    assert DigitRun("7%") == 1;
    assert "7%"[..1] == "7";
  }
}
