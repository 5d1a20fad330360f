/**
 * The request handlers of the service (src/handlers.rs): allocating a short
 * code (POST /shorten), resolving it to a redirect and logging the visit
 * (GET /{code}), reporting its statistics (GET /stats/{code}), and the
 * lookup guard of GET /qr/{code}. Each handler is a method over the
 * backend's tables; beside it stands the function that specifies it, and
 * the lemmas state what those functions promise.
 */
module Handlers {

  import opened Wrappers
  import opened Errors
  import opened Models
  import opened ClientInfo
  import opened Stats
  import opened Store

  /** The origin every short URL is built on. */
  const BaseUrl := "http://localhost:3000/"

  /** The length of a generated code. */
  const GeneratedLength: nat := 6

  /** Collisions tolerated before giving up (`attempts > 10`). */
  const MaxRetries: nat := 10

  /** Candidates examined at most: the first one and `MaxRetries` more. */
  const MaxAttempts: nat := MaxRetries + 1

  const GenerationFailed := "Failed to generate unique code"

  /** Bounds on a custom code's length, in characters. */
  const MinCustomLength: nat := 3
  const MaxCustomLength: nat := 20

  /** The number of visits GET /stats/{code} lists. */
  const StatsLimit: nat := 100

  /** The 62 symbols of a generated code. */
  predicate IsCodeChar(c: char)
  {
    ('0' <= c <= '9') || ('a' <= c <= 'z') || ('A' <= c <= 'Z')
  }

  /** What the generator yields: six alphanumeric symbols. */
  predicate IsGeneratedCode(s: string)
  {
    |s| == GeneratedLength && forall i :: 0 <= i < |s| ==> IsCodeChar(s[i])
  }

  /** `payload.validate()`: the URL passes the URL check `isUrl`, and a custom
      code, when given, has 3 to 20 characters. */
  predicate Validates(payload: CreateUrlRequest, isUrl: string -> bool)
  {
    && isUrl(payload.url)
    && (payload.customCode.Some? ==> MinCustomLength <= |payload.customCode.value| <= MaxCustomLength)
  }

  /** `format!("http://localhost:3000/{}", code)`. */
  function ShortUrl(code: string): (r: string)
    ensures |r| == |BaseUrl| + |code|
    ensures r[..|BaseUrl|] == BaseUrl && r[|BaseUrl|..] == code
  {
    BaseUrl + code
  }

  /** The code a short URL routes to (the `/{code}` path segment). */
  function CodeOf(url: string): (r: Option<string>)
    ensures r.Some? <==> |BaseUrl| <= |url| && url[..|BaseUrl|] == BaseUrl
  {
    if |BaseUrl| <= |url| && url[..|BaseUrl|] == BaseUrl then Some(url[|BaseUrl|..]) else None
  }

  /** A short URL leads back to its code, so distinct codes get distinct URLs. */
  lemma ShortUrlRoundTrip(code: string)
    ensures CodeOf(ShortUrl(code)) == Some(code)
  {
  }

  // ---------------------------------------------------------------- allocation

  /** The index of the first of the candidates `from` .. `MaxAttempts - 1`
      that is not already a code, if any. */
  function FirstFree(urls: map<string, UrlRecord>, candidates: seq<string>, from: nat): (r: Option<nat>)
    requires |candidates| >= MaxAttempts && from <= MaxAttempts
    ensures r.Some? ==> from <= r.value < MaxAttempts && candidates[r.value] !in urls
    ensures r.Some? ==> forall k :: from <= k < r.value ==> candidates[k] in urls
    ensures r.None? <==> forall k :: from <= k < MaxAttempts ==> candidates[k] in urls
    decreases MaxAttempts - from
  {
    if from == MaxAttempts then None
    else if candidates[from] !in urls then Some(from)
    else FirstFree(urls, candidates, from + 1)
  }

  /** The code `shorten_url` settles on, or the error it returns, when the
      backend answers. */
  function Allocate(urls: map<string, UrlRecord>, payload: CreateUrlRequest,
                    candidates: seq<string>, isUrl: string -> bool): (r: Result<string>)
    requires |candidates| >= MaxAttempts
    ensures !Validates(payload, isUrl) ==> r == Failure(InvalidUrl)
    ensures r.Success? ==> r.value !in urls
    ensures r.Failure? ==> r.error in {InvalidUrl, CodeAlreadyExists, InternalServerError(GenerationFailed)}
    ensures Validates(payload, isUrl) && payload.customCode.Some? ==>
              if payload.customCode.value in urls then r == Failure(CodeAlreadyExists)
              else r == Success(payload.customCode.value)
    ensures Validates(payload, isUrl) && payload.customCode.None? ==>
              (r.Failure? <==> forall k :: 0 <= k < MaxAttempts ==> candidates[k] in urls)
    ensures Validates(payload, isUrl) && payload.customCode.None? && r.Failure? ==>
              r.error == InternalServerError(GenerationFailed)
    ensures Validates(payload, isUrl) && payload.customCode.None? && r.Success? ==>
              r.value in candidates[..MaxAttempts]
    ensures Validates(payload, isUrl) && payload.customCode.None? && r.Success? ==>
              exists k :: 0 <= k < MaxAttempts && r.value == candidates[k] &&
                          forall j :: 0 <= j < k ==> candidates[j] in urls
  {
    if !Validates(payload, isUrl) then Failure(InvalidUrl)
    else match payload.customCode
      case Some(custom) =>
        if custom in urls then Failure(CodeAlreadyExists) else Success(custom)
      case None =>
        match FirstFree(urls, candidates, 0)
        case Some(k) => assert candidates[k] == candidates[..MaxAttempts][k]; Success(candidates[k])
        case None => Failure(InternalServerError(GenerationFailed))
  }

  /** `shorten_url`. The generator is the sequence `candidates`, drawn from the
      front; `now` is the creation time; `isUrl` is the URL syntax check. */
  method ShortenUrl(db: Database, payload: CreateUrlRequest, candidates: seq<string>,
                    now: Timestamp, isUrl: string -> bool) returns (r: Result<UrlResponse>)
    requires db.Valid()
    requires |candidates| >= MaxAttempts
    modifies db`urls, db`existenceChecks
    ensures db.Valid()
    ensures db.visits == old(db.visits)
    ensures db.existenceChecks <= old(db.existenceChecks) + MaxAttempts
    ensures !Validates(payload, isUrl) ==> r == Failure(InvalidUrl) && db.urls == old(db.urls)
    ensures Validates(payload, isUrl) && db.outage.Some? ==>
              r == Failure(FromDbError(db.outage.value)) && db.urls == old(db.urls)
    ensures Validates(payload, isUrl) && db.outage.None? ==>
              var a := Allocate(old(db.urls), payload, candidates, isUrl);
              && (a.Failure? ==> r == Failure(a.error) && db.urls == old(db.urls))
              && (a.Success? ==>
                    && r == Success(UrlResponse(a.value, payload.url, ShortUrl(a.value), payload.expiresAt))
                    && db.urls == old(db.urls)[a.value := UrlRecord(a.value, payload.url, now, payload.expiresAt)])
  {
    if !Validates(payload, isUrl) {
      return Failure(InvalidUrl);
    }
    var code: string;
    match payload.customCode {
      case Some(custom) =>
        var taken := db.Exists(custom);
        if taken.Err? {
          return Failure(FromDbError(taken.error));
        }
        if taken.value {
          return Failure(CodeAlreadyExists);
        }
        code := custom;
      case None =>
        var attempts: nat := 0;
        while true
          invariant attempts <= MaxRetries
          invariant db.urls == old(db.urls)
          invariant db.existenceChecks == old(db.existenceChecks) + attempts
          invariant forall k :: 0 <= k < attempts ==> candidates[k] in db.urls
          decreases MaxRetries - attempts
        {
          var candidate := candidates[attempts];
          var taken := db.Exists(candidate);
          if taken.Err? {
            return Failure(FromDbError(taken.error));
          }
          if !taken.value {
            code := candidate;
            assert FirstFree(db.urls, candidates, 0) == Some(attempts);
            break;
          }
          attempts := attempts + 1;
          if attempts > MaxRetries {
            return Failure(InternalServerError(GenerationFailed));
          }
        }
    }
    var inserted := db.InsertUrl(UrlRecord(code, payload.url, now, payload.expiresAt));
    match inserted {
      case Err(e) => return Failure(FromDbError(e));
      case Ok(_) =>
    }
    r := Success(UrlResponse(code, payload.url, ShortUrl(code), payload.expiresAt));
  }

  /** Only the first `MaxAttempts` candidates are ever looked at. */
  lemma {:induction false} FirstFreeIgnoresLaterCandidates(urls: map<string, UrlRecord>, candidates: seq<string>, from: nat)
    requires |candidates| >= MaxAttempts && from <= MaxAttempts
    ensures FirstFree(urls, candidates, from) == FirstFree(urls, candidates[..MaxAttempts], from)
    decreases MaxAttempts - from
  {
    if from < MaxAttempts {
      FirstFreeIgnoresLaterCandidates(urls, candidates, from + 1);
    }
  }

  /** The allocation outcome depends on the first `MaxAttempts` candidates only. */
  lemma AllocateIgnoresLaterCandidates(urls: map<string, UrlRecord>, payload: CreateUrlRequest,
                                       candidates: seq<string>, isUrl: string -> bool)
    requires |candidates| >= MaxAttempts
    ensures Allocate(urls, payload, candidates, isUrl) == Allocate(urls, payload, candidates[..MaxAttempts], isUrl)
  {
    FirstFreeIgnoresLaterCandidates(urls, candidates, 0);
    var short := candidates[..MaxAttempts];
    match FirstFree(urls, candidates, 0)
    case Some(k) => assert candidates[k] == short[k];
    case None =>
  }

  /** A generator that keeps producing one code already in use exhausts the
      retries: the result is an internal error, not a conflict. */
  lemma StuckGeneratorExhausts(urls: map<string, UrlRecord>, url: string, expiresAt: Option<Timestamp>,
                               taken: string, isUrl: string -> bool)
    requires taken in urls && isUrl(url)
    ensures Allocate(urls, CreateUrlRequest(url, None, expiresAt), seq(MaxAttempts, _ => taken), isUrl)
            == Failure(InternalServerError(GenerationFailed))
  {
  }

  /** Every allocated generated code is what the generator yields. */
  lemma GeneratedCodeShape(urls: map<string, UrlRecord>, payload: CreateUrlRequest,
                           candidates: seq<string>, isUrl: string -> bool)
    requires |candidates| >= MaxAttempts
    requires forall k :: 0 <= k < |candidates| ==> IsGeneratedCode(candidates[k])
    requires payload.customCode.None?
    ensures Allocate(urls, payload, candidates, isUrl).Success? ==>
              IsGeneratedCode(Allocate(urls, payload, candidates, isUrl).value)
  {
  }

  // ---------------------------------------------------------------- redirect

  /** The redirect target for `code` at time `now`: absent and expired codes
      are both not found; a code expiring exactly at `now` is still live. */
  function Resolve(urls: map<string, UrlRecord>, code: string, now: Timestamp): (r: Result<string>)
    ensures r.Failure? ==> r.error == UrlNotFound
    ensures r.Success? <==> code in urls && (urls[code].expiresAt.None? || now <= urls[code].expiresAt.value)
    ensures r.Success? ==> r.value == urls[code].originalUrl
  {
    if code !in urls then Failure(UrlNotFound)
    else
      var row := urls[code];
      if row.expiresAt.Some? && now > row.expiresAt.value then Failure(UrlNotFound)
      else Success(row.originalUrl)
  }

  /** The visit a successful redirect records. */
  function VisitOf(code: string, headers: HeaderMap, recordedAt: Timestamp): (v: Visit)
    ensures v.urlId == code && v.visitedAt == recordedAt
    ensures v.ipAddress == Some(ClientIp(headers)) && v.userAgent == UserAgent(headers)
  {
    Visit(code, Some(ClientIp(headers)), UserAgent(headers), recordedAt)
  }

  /** `redirect_url`: on success the client is sent (307) to the returned
      target and exactly one visit is appended to the log. `now` is the clock
      when the expiry is checked, `recordedAt` when the visit is written; the
      outcome of that write is discarded. */
  method RedirectUrl(db: Database, code: string, headers: HeaderMap, now: Timestamp, recordedAt: Timestamp)
    returns (r: Result<string>)
    modifies db`visits
    ensures db.outage.Some? ==> r == Failure(FromDbError(db.outage.value))
    ensures db.outage.None? ==> r == Resolve(db.urls, code, now)
    ensures r.Success? ==> db.visits == old(db.visits) + [VisitOf(code, headers, recordedAt)]
    ensures r.Failure? ==> db.visits == old(db.visits)
  {
    var found := db.FindUrl(code);
    if found.Err? {
      return Failure(FromDbError(found.error));
    }
    if found.value.None? {
      return Failure(UrlNotFound);
    }
    var row := found.value.value;
    if row.expiresAt.Some? && now > row.expiresAt.value {
      return Failure(UrlNotFound);
    }
    var userAgent := UserAgent(headers);
    var ip := ClientIp(headers);
    var _ := db.InsertVisit(Visit(code, Some(ip), userAgent, recordedAt));
    r := Success(row.originalUrl);
  }

  /** A code allocated with URL `u` redirects to `u` for as long as it is live. */
  lemma ShortenThenResolve(urls: map<string, UrlRecord>, payload: CreateUrlRequest, candidates: seq<string>,
                           isUrl: string -> bool, now: Timestamp, later: Timestamp)
    requires |candidates| >= MaxAttempts
    requires Allocate(urls, payload, candidates, isUrl).Success?
    requires payload.expiresAt.None? || later <= payload.expiresAt.value
    ensures var code := Allocate(urls, payload, candidates, isUrl).value;
            Resolve(urls[code := UrlRecord(code, payload.url, now, payload.expiresAt)], code, later)
            == Success(payload.url)
  {
  }

  /** Allocating the same custom code twice: the second attempt conflicts. */
  lemma CustomCodeTwice(urls: map<string, UrlRecord>, payload: CreateUrlRequest, candidates: seq<string>,
                        isUrl: string -> bool, now: Timestamp)
    requires |candidates| >= MaxAttempts
    requires payload.customCode.Some? && Validates(payload, isUrl)
    requires payload.customCode.value !in urls
    ensures Allocate(urls, payload, candidates, isUrl) == Success(payload.customCode.value)
    ensures var code := payload.customCode.value;
            Allocate(urls[code := UrlRecord(code, payload.url, now, payload.expiresAt)], payload, candidates, isUrl)
            == Failure(CodeAlreadyExists)
  {
  }

  /** With an acceptable URL, a custom code is refused as invalid exactly when
      it is shorter than 3 or longer than 20 characters, whatever is stored. */
  lemma CustomCodeLengthRule(urls: map<string, UrlRecord>, payload: CreateUrlRequest, candidates: seq<string>,
                             isUrl: string -> bool)
    requires |candidates| >= MaxAttempts
    requires isUrl(payload.url) && payload.customCode.Some?
    ensures Allocate(urls, payload, candidates, isUrl) == Failure(InvalidUrl) <==>
            |payload.customCode.value| < MinCustomLength || MaxCustomLength < |payload.customCode.value|
  {
  }

  // ---------------------------------------------------------------- statistics

  /** The statistics of `code`: not found only when the code is absent (its
      expiry is not consulted); otherwise its target, the count of all its
      visits and its at most 100 newest visits, newest first. */
  function StatsOf(urls: map<string, UrlRecord>, log: seq<Visit>, code: string): (r: Result<StatsResponse>)
    ensures r.Failure? <==> code !in urls
    ensures r.Failure? ==> r.error == UrlNotFound
    ensures r.Success? ==> r.value.url == code && r.value.originalUrl == urls[code].originalUrl
    ensures r.Success? ==> r.value.totalVisits == CountFor(log, code)
    ensures r.Success? ==> |r.value.visits| <= StatsLimit && |r.value.visits| <= r.value.totalVisits
    ensures r.Success? && r.value.totalVisits <= StatsLimit ==> |r.value.visits| == r.value.totalVisits
    ensures r.Success? ==> StatsNewestFirst(r.value.visits)
    ensures r.Success? ==> r.value.visits == Window(log, code, StatsLimit)
  {
    if code !in urls then Failure(UrlNotFound)
    else
      WindowIsBoundedAndOrdered(log, code, StatsLimit);
      Success(StatsResponse(code, urls[code].originalUrl, CountFor(log, code), Window(log, code, StatsLimit)))
  }

  /** `get_stats`: three reads, no writes. */
  method GetStats(db: Database, code: string) returns (r: Result<StatsResponse>)
    ensures db.outage.Some? ==> r == Failure(FromDbError(db.outage.value))
    ensures db.outage.None? ==> r == StatsOf(db.urls, db.visits, code)
  {
    var found := db.FindUrl(code);
    if found.Err? {
      return Failure(FromDbError(found.error));
    }
    if found.value.None? {
      return Failure(UrlNotFound);
    }
    var row := found.value.value;
    var visits := db.RecentVisits(code, StatsLimit);
    match visits {
      case Err(e) => return Failure(FromDbError(e));
      case Ok(_) =>
    }
    var total := db.CountVisits(code);
    match total {
      case Err(e) => return Failure(FromDbError(e));
      case Ok(_) =>
    }
    r := Success(StatsResponse(code, row.originalUrl, total.value, visits.value));
  }

  /** An expired code no longer redirects, yet its statistics remain available. */
  lemma ExpiredStillHasStats(urls: map<string, UrlRecord>, log: seq<Visit>, code: string, now: Timestamp)
    requires code in urls && urls[code].expiresAt.Some? && now > urls[code].expiresAt.value
    ensures Resolve(urls, code, now) == Failure(UrlNotFound)
    ensures StatsOf(urls, log, code).Success?
  {
  }

  /** A successful redirect raises the code's visit count by exactly one and
      leaves every other code's count unchanged. */
  lemma RedirectCountsOnce(urls: map<string, UrlRecord>, log: seq<Visit>, code: string,
                           headers: HeaderMap, recordedAt: Timestamp, other: string)
    requires code in urls && other in urls
    ensures StatsOf(urls, log + [VisitOf(code, headers, recordedAt)], other).value.totalVisits
            == StatsOf(urls, log, other).value.totalVisits + (if other == code then 1 else 0)
  {
    CountAfterAppend(log, VisitOf(code, headers, recordedAt), other);
  }

  /** Beyond 100 visits the list is capped while the count keeps growing. */
  lemma StatsCapBeyondLimit(urls: map<string, UrlRecord>, log: seq<Visit>, code: string)
    requires code in urls && CountFor(log, code) > StatsLimit
    ensures |StatsOf(urls, log, code).value.visits| == StatsLimit
    ensures StatsOf(urls, log, code).value.totalVisits == CountFor(log, code)
  {
    RecentWindowShape(log, code, StatsLimit);
  }

  // ---------------------------------------------------------------- QR code

  /** The lookup guard of `generate_qr`: the text to encode is the short URL
      of an existing code; an absent code is not found. */
  method QrTarget(db: Database, code: string) returns (r: Result<string>)
    ensures db.outage.Some? ==> r == Failure(FromDbError(db.outage.value))
    ensures db.outage.None? && code !in db.urls ==> r == Failure(UrlNotFound)
    ensures db.outage.None? && code in db.urls ==> r == Success(ShortUrl(code))
  {
    var found := db.FindUrl(code);
    if found.Err? {
      return Failure(FromDbError(found.error));
    }
    if found.value.None? {
      return Failure(UrlNotFound);
    }
    r := Success(ShortUrl(code));
  }

  // ---------------------------------------------------------------- a client

  /** Allocating "promo1" for https://example.com, following it once, and
      allocating "promo1" again. */
  method PromoScenario(candidates: seq<string>, now: Timestamp)
    requires |candidates| >= MaxAttempts
  {
    var db := new Database(None);
    var isUrl := (u: string) => |u| > 0;
    var payload := CreateUrlRequest("https://example.com", Some("promo1"), None);
    var created := ShortenUrl(db, payload, candidates, now, isUrl);
    assert created.Success? && created.value.shortCode == "promo1";
    var target := RedirectUrl(db, "promo1", map[], now, now);
    assert target == Success("https://example.com");
    assert db.visits == [VisitOf("promo1", map[], now)];
    var again := ShortenUrl(db, payload, candidates, now, isUrl);
    assert again == Failure(CodeAlreadyExists);
  }

  /** Two visits to a fresh code are both counted and both listed. */
  method StatsScenario(now: Timestamp, later: Timestamp)
  {
    var db := new Database(None);
    var row := UrlRecord("promo1", "https://example.com", now, None);
    var inserted := db.InsertUrl(row);
    var first := RedirectUrl(db, "promo1", map[], now, now);
    var second := RedirectUrl(db, "promo1", map[], later, later);
    assert db.visits == [VisitOf("promo1", map[], now), VisitOf("promo1", map[], later)];
    CountAfterAppend([], VisitOf("promo1", map[], now), "promo1");
    CountAfterAppend([VisitOf("promo1", map[], now)], VisitOf("promo1", map[], later), "promo1");
    var stats := GetStats(db, "promo1");
    assert stats.Success? && stats.value.totalVisits == 2 && |stats.value.visits| == 2;
  }
}
