/** Classification of remote failures: `get_url_contents` for recipe and
    source downloads, `verify_gh_api_req` for GitHub API responses. */
module Fetch {
  import opened Base

  /** What `get_url_contents` hands back: the body, Python's `None` for a
      server-side error, or an exception. */
  datatype Fetched = Got(data: Bytes) | Unavailable | Failed(fault: Fault)

  function Pow10(k: nat): (p: nat)
    ensures p >= 1
  {
    if k == 0 then 1 else 10 * Pow10(k - 1)
  }

  /** `int(str(code)[:1])`: the first decimal digit of a status code. */
  function LeadingDigit(n: nat): (d: nat)
    ensures d < 10
    ensures n > 0 ==> d > 0
    ensures n < 10 ==> d == n
  {
    if n < 10 then n else LeadingDigit(n / 10)
  }

  /** Dropping the last decimal digit keeps a number between the bounds it had, scaled down. */
  lemma DropLastDigit(n: nat, lo: nat, hi: nat)
    requires 10 * lo <= n < 10 * hi
    ensures lo <= n / 10 < hi
  {
  }

  /** A number between d·10^k and (d+1)·10^k has leading digit d. */
  lemma {:induction false} LeadingDigitOfMagnitude(n: nat, d: nat, k: nat)
    requires 1 <= d <= 9
    requires d * Pow10(k) <= n < (d + 1) * Pow10(k)
    ensures LeadingDigit(n) == d
  {
    if k > 0 {
      var p := Pow10(k - 1);
      var lo := d * p;
      assert Pow10(k) == 10 * p;
      assert d * Pow10(k) == 10 * lo;
      assert (d + 1) * Pow10(k) == 10 * (lo + p);
      assert (d + 1) * p == lo + p;
      assert n >= 10;
      DropLastDigit(n, lo, lo + p);
      LeadingDigitOfMagnitude(n / 10, d, k - 1);
    }
  }

  /** Every three-digit status code is classified by its hundreds digit. */
  lemma ThreeDigitLeadingDigit(code: nat)
    requires 100 <= code < 1000
    ensures LeadingDigit(code) == code / 100
  {
    var d := code / 100;
    assert d * 100 <= code < (d + 1) * 100;
    LeadingDigitOfMagnitude(code, d, 2);
  }

  predicate IsHttps(url: string)
  {
    "https://" <= url
  }

  /** `get_url_contents` given the response `urlopen` produced for `url`. */
  function GetUrlContents(url: string, response: HttpResponse): (r: Fetched)
    ensures !IsHttps(url) ==> r == Failed(InsecureUrl(url))
    ensures IsHttps(url) && response.Body? ==> r == Got(response.data)
    ensures IsHttps(url) && response.HttpError? ==>
              (r.Unavailable? <==> LeadingDigit(response.code) == 5)
    ensures IsHttps(url) && response.HttpError? && LeadingDigit(response.code) != 5 ==>
              r == Failed(HttpFailure(response.code))
    ensures r.Got? ==> IsHttps(url)
  {
    if !IsHttps(url) then Failed(InsecureUrl(url))
    else match response
      case Body(data) => Got(data)
      case HttpError(code) =>
        if LeadingDigit(code) == 5 then Unavailable else Failed(HttpFailure(code))
  }

  /** A 5xx answer is transient: the caller receives `None`. */
  lemma ServerErrorIsTransient(url: string, code: nat)
    requires IsHttps(url) && 500 <= code < 600
    ensures GetUrlContents(url, HttpError(code)) == Unavailable
  {
    ThreeDigitLeadingDigit(code);
  }

  /** Any other three-digit error propagates out of the script. */
  lemma OtherErrorIsFatal(url: string, code: nat)
    requires IsHttps(url) && 100 <= code < 1000 && !(500 <= code < 600)
    ensures GetUrlContents(url, HttpError(code)) == Failed(HttpFailure(code))
  {
    ThreeDigitLeadingDigit(code);
  }

  /** The four `X-RateLimit-*` headers, `None` when absent. */
  datatype RateLimit = RateLimit(
    limit: Option<int>, remaining: Option<int>, used: Option<int>, reset: Option<int>)

  datatype ApiResponse = ApiResponse(status: nat, rateLimit: RateLimit)

  /** `requests.Response.raise_for_status` raises for 4xx and 5xx. */
  predicate RaisesForStatus(status: nat)
  {
    400 <= status < 600
  }

  /** The quota is known to be used up: all four headers are present and none remain. */
  predicate QuotaExhausted(h: RateLimit)
  {
    && h.limit.Some? && h.remaining.Some? && h.used.Some? && h.reset.Some?
    && h.remaining.value <= 0
  }

  /** `verify_gh_api_req`: `Ok(true)` to proceed, `Ok(false)` to give up
      quietly, `Err` when the HTTP error is re-raised. */
  function VerifyGhApiReq(resp: ApiResponse): (r: Outcome<bool>)
    ensures r.Err? <==> 400 <= resp.status < 500
    ensures r.Err? ==> r.fault == HttpFailure(resp.status)
    ensures r == Ok(false) <==>
              (500 <= resp.status < 600) ||
              (!RaisesForStatus(resp.status) && QuotaExhausted(resp.rateLimit))
    ensures r == Ok(true) <==>
              !RaisesForStatus(resp.status) && !QuotaExhausted(resp.rateLimit)
  {
    if RaisesForStatus(resp.status) then
      ThreeDigitLeadingDigit(resp.status);
      if LeadingDigit(resp.status) == 5 then Ok(false) else Err(HttpFailure(resp.status))
    else if QuotaExhausted(resp.rateLimit) then Ok(false)
    else Ok(true)
  }
}
