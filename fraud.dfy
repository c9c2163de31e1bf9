/**
 * The risk scorer of src/lib/fraud.ts: `checkFraud` and its private
 * predicates. Scores are kept in integer tenths (0.3 is 3), so the
 * thresholds 0.8 and 0.5 become 8 and 5 and the cap 1.0 becomes 10.
 * The clock is a parameter (`now`, in milliseconds), and so is the local
 * time-zone offset that `toDateString` uses to find the calendar day.
 */
module Fraud {
  import opened Js
  import FraudPatterns

  datatype Fingerprint = Fingerprint(visitorId: string, confidence: real)

  /** A date field of the order data as the request holds it. */
  datatype DateField =
    | Undefined
    | Null
    | Text(text: string, parsed: Option<int>)  // parsed: the instant `new Date(text)` denotes, None when invalid

  datatype OrderData = OrderData(dates: DateField, departureDate: DateField)

  datatype FraudInput = FraudInput(
    fingerprint: Option<Fingerprint>,
    email: string,
    amount: real,
    country: Option<string>,
    ipAddress: Option<string>,
    orderData: OrderData)

  datatype RiskLevel = Low | Medium | High

  datatype FraudCheckResult = FraudCheckResult(
    score: int,          // tenths, capped at 10
    riskLevel: RiskLevel,
    reasons: seq<string>,
    deviceId: string,
    shouldBlock: bool)

  /** The checks of checkFraud, one per `score +=` site. */
  datatype Check =
    | NoFingerprint | LowConfidence
    | DisposableEmail | SuspiciousEmail
    | HighAmount | LowAmount
    | OrderPattern
    | HighRiskCountry
    | SuspiciousIp

  /** The order in which checkFraud runs the checks and pushes their reasons. */
  const CheckOrder: seq<Check> := [NoFingerprint, LowConfidence, DisposableEmail, SuspiciousEmail,
                                   HighAmount, LowAmount, OrderPattern, HighRiskCountry, SuspiciousIp]

  function Weight(c: Check): nat
  {
    match c
    case NoFingerprint => 3
    case LowConfidence => 2
    case DisposableEmail => 4
    case SuspiciousEmail => 3
    case HighAmount => 2
    case LowAmount => 1
    case OrderPattern => 3
    case HighRiskCountry => 2
    case SuspiciousIp => 3
  }

  function Reason(c: Check): string
  {
    match c
    case NoFingerprint => "No device fingerprint available"
    case LowConfidence => "Low device fingerprint confidence"
    case DisposableEmail => "Disposable email detected"
    case SuspiciousEmail => "Suspicious email pattern"
    case HighAmount => "High transaction amount"
    case LowAmount => "Unusually low amount"
    case OrderPattern => "Suspicious order pattern"
    case HighRiskCountry => "High-risk country"
    case SuspiciousIp => "Suspicious IP address"
  }

  // ---------------------------------------------------------------------
  // The private predicates

  const DisposableDomains: seq<string> :=
    ["tempmail.org", "10minutemail.com", "guerrillamail.com", "mailinator.com", "throwaway.email"]

  /** email.split('@')[1]: the text between the first '@' and the next one, if there is an '@'. */
  function EmailDomain(email: string): Option<string>
  {
    var parts := Split(email, '@');
    if |parts| > 1 then Some(parts[1]) else None
  }

  /** isDisposableEmail (src/lib/fraud.ts:143-154). */
  predicate IsDisposableEmail(email: string)
  {
    var domain := EmailDomain(email);
    domain.Some? && ToLower(domain.value) in DisposableDomains
  }

  const HighRiskCountries: seq<string> := ["XX", "YY"]

  /** `data.country && isHighRiskCountry(data.country)` (src/lib/fraud.ts:110, 186-190). */
  predicate IsHighRiskCountry(country: Option<string>)
  {
    Truthy(country) && ToUpper(country.value) in HighRiskCountries
  }

  /** The networks isSuspiciousIP lists, in CIDR notation. */
  const SuspiciousRanges: seq<string> := ["10.0.0.0/8", "172.16.0.0/12", "192.168.0.0/16"]

  /** `range.split('/')[0].split('.').slice(0, 2).join('.')`: the first two dotted groups of the network address. */
  function RangePrefix(range: string): string
  {
    var groups := Split(Split(range, '/')[0], '.');
    Join(if |groups| <= 2 then groups else groups[..2], '.')
  }

  /** What RangePrefix gives for each of the three ranges (SuspiciousIpPrefixesDerived). */
  const SuspiciousIpPrefixes: seq<string> := ["10.0", "172.16", "192.168"]

  /** `data.ipAddress && isSuspiciousIP(data.ipAddress)` (src/lib/fraud.ts:116, 192-206). */
  predicate IsSuspiciousIp(ip: Option<string>)
  {
    Truthy(ip) && exists k :: 0 <= k < |SuspiciousIpPrefixes| && StartsWith(ip.value, SuspiciousIpPrefixes[k])
  }

  predicate Falsy(f: DateField)
  {
    f.Undefined? || f.Null? || (f.Text? && f.text == "")
  }

  /** The instant `new Date(f)` denotes; None for an Invalid Date. */
  function DateValue(f: DateField): Option<int>
  {
    match f
    case Undefined => None
    case Null => Some(0)
    case Text(t, parsed) => if t == "" then None else parsed
  }

  /** new Date(orderData.dates || orderData.departure_date) */
  function TripDate(o: OrderData): Option<int>
  {
    DateValue(if Falsy(o.dates) then o.departureDate else o.dates)
  }

  /** The local calendar day of an instant, as `toDateString` distinguishes days. */
  function LocalDay(t: int, utcOffset: int): int
  {
    (t + utcOffset) / MsPerDay
  }

  /** hasSuspiciousOrderPattern (src/lib/fraud.ts:167-184): same-day travel or more than 365 days ahead. */
  predicate HasSuspiciousOrderPattern(o: OrderData, now: int, utcOffset: int)
  {
    match TripDate(o)
    case None => false
    case Some(t) => LocalDay(t, utcOffset) == LocalDay(now, utcOffset) || t - now > 365 * MsPerDay
  }

  // ---------------------------------------------------------------------
  // The score

  predicate Fires(c: Check, x: FraudInput, now: int, utcOffset: int)
  {
    match c
    case NoFingerprint => x.fingerprint.None?
    case LowConfidence => x.fingerprint.Some? && x.fingerprint.value.confidence < 0.5
    case DisposableEmail => IsDisposableEmail(x.email)
    case SuspiciousEmail => FraudPatterns.IsSuspiciousEmail(x.email)
    case HighAmount => x.amount > 500.0
    case LowAmount => x.amount < 10.0
    case OrderPattern => HasSuspiciousOrderPattern(x.orderData, now, utcOffset)
    case HighRiskCountry => IsHighRiskCountry(x.country)
    case SuspiciousIp => IsSuspiciousIp(x.ipAddress)
  }

  /** The score after the first n checks of CheckOrder have run. */
  function ScoreUpTo(n: nat, x: FraudInput, now: int, utcOffset: int): nat
    requires n <= |CheckOrder|
  {
    if n == 0 then 0
    else
      var c := CheckOrder[n - 1];
      ScoreUpTo(n - 1, x, now, utcOffset) + (if Fires(c, x, now, utcOffset) then Weight(c) else 0)
  }

  /** The reasons pushed by the first n checks of CheckOrder, in order. */
  function ReasonsUpTo(n: nat, x: FraudInput, now: int, utcOffset: int): seq<string>
    requires n <= |CheckOrder|
  {
    if n == 0 then []
    else
      var c := CheckOrder[n - 1];
      ReasonsUpTo(n - 1, x, now, utcOffset) + (if Fires(c, x, now, utcOffset) then [Reason(c)] else [])
  }

  /** The uncapped score: the weights of every check that fires. */
  function RawScore(x: FraudInput, now: int, utcOffset: int): nat
  {
    ScoreUpTo(|CheckOrder|, x, now, utcOffset)
  }

  function Reasons(x: FraudInput, now: int, utcOffset: int): seq<string>
  {
    ReasonsUpTo(|CheckOrder|, x, now, utcOffset)
  }

  function LevelOf(raw: int): RiskLevel
  {
    if raw >= 8 then High else if raw >= 5 then Medium else Low
  }

  function DeviceId(fingerprint: Option<Fingerprint>): string
  {
    if fingerprint.Some? && fingerprint.value.visitorId != "" then fingerprint.value.visitorId else "unknown"
  }

  /**
   * checkFraud (src/lib/fraud.ts:59-141): adds each firing check's weight to
   * `score` and pushes its reason, in the fixed order, then grades the sum.
   */
  method CheckFraud(x: FraudInput, now: int, utcOffset: int) returns (r: FraudCheckResult)
    ensures r.reasons == Reasons(x, now, utcOffset)
    ensures r.score == (if RawScore(x, now, utcOffset) < 10 then RawScore(x, now, utcOffset) else 10)
    ensures r.riskLevel == LevelOf(RawScore(x, now, utcOffset))
    ensures r.shouldBlock <==> r.riskLevel == High
    ensures r.riskLevel == LevelOf(r.score)  // capping never changes the grade
    ensures r.deviceId == DeviceId(x.fingerprint)
  {
    var score, reasons := DeviceAnalysis(x, now, utcOffset);
    score, reasons := EmailAnalysis(x, now, utcOffset, score, reasons);
    score, reasons := AmountAnalysis(x, now, utcOffset, score, reasons);

    score, reasons := ContextAnalysis(x, now, utcOffset, score, reasons);
    assert score == RawScore(x, now, utcOffset) && reasons == Reasons(x, now, utcOffset);

    var riskLevel: RiskLevel;
    var shouldBlock := false;
    if score >= 8 {
      riskLevel := High;
      shouldBlock := true;
    } else if score >= 5 {
      riskLevel := Medium;
    } else {
      riskLevel := Low;
    }

    r := FraudCheckResult(if score < 10 then score else 10, riskLevel, reasons, DeviceId(x.fingerprint), shouldBlock);
  }

  /** The device fingerprint checks: none at all, or one with low confidence. */
  method DeviceAnalysis(x: FraudInput, now: int, utcOffset: int) returns (score: int, reasons: seq<string>)
    ensures score == ScoreUpTo(2, x, now, utcOffset) && reasons == ReasonsUpTo(2, x, now, utcOffset)
  {
    score, reasons := 0, [];
    if x.fingerprint.Some? {
      if x.fingerprint.value.confidence < 0.5 {
        score := score + 2;
        reasons := reasons + ["Low device fingerprint confidence"];
      }
    } else {
      score := score + 3;
      reasons := reasons + ["No device fingerprint available"];
    }
    assert ScoreUpTo(1, x, now, utcOffset) == if x.fingerprint.None? then 3 else 0;
    assert ReasonsUpTo(1, x, now, utcOffset) == if x.fingerprint.None? then ["No device fingerprint available"] else [];
  }

  /** The email checks: a disposable domain, then a suspicious pattern. */
  method EmailAnalysis(x: FraudInput, now: int, utcOffset: int, score0: int, reasons0: seq<string>)
    returns (score: int, reasons: seq<string>)
    requires score0 == ScoreUpTo(2, x, now, utcOffset) && reasons0 == ReasonsUpTo(2, x, now, utcOffset)
    ensures score == ScoreUpTo(4, x, now, utcOffset) && reasons == ReasonsUpTo(4, x, now, utcOffset)
  {
    score, reasons := score0, reasons0;
    if IsDisposableEmail(x.email) {
      score := score + 4;
      reasons := reasons + ["Disposable email detected"];
    }
    assert score == ScoreUpTo(3, x, now, utcOffset) && reasons == ReasonsUpTo(3, x, now, utcOffset);
    if FraudPatterns.IsSuspiciousEmail(x.email) {
      score := score + 3;
      reasons := reasons + ["Suspicious email pattern"];
    }
  }

  /** The amount checks: above 500, then below 10. */
  method AmountAnalysis(x: FraudInput, now: int, utcOffset: int, score0: int, reasons0: seq<string>)
    returns (score: int, reasons: seq<string>)
    requires score0 == ScoreUpTo(4, x, now, utcOffset) && reasons0 == ReasonsUpTo(4, x, now, utcOffset)
    ensures score == ScoreUpTo(6, x, now, utcOffset) && reasons == ReasonsUpTo(6, x, now, utcOffset)
  {
    score, reasons := score0, reasons0;
    if x.amount > 500.0 {
      score := score + 2;
      reasons := reasons + ["High transaction amount"];
    }
    assert score == ScoreUpTo(5, x, now, utcOffset) && reasons == ReasonsUpTo(5, x, now, utcOffset);
    if x.amount < 10.0 {
      score := score + 1;
      reasons := reasons + ["Unusually low amount"];
    }
  }

  /** The order pattern, country and IP checks. */
  method ContextAnalysis(x: FraudInput, now: int, utcOffset: int, score0: int, reasons0: seq<string>)
    returns (score: int, reasons: seq<string>)
    requires score0 == ScoreUpTo(6, x, now, utcOffset) && reasons0 == ReasonsUpTo(6, x, now, utcOffset)
    ensures score == ScoreUpTo(9, x, now, utcOffset) && reasons == ReasonsUpTo(9, x, now, utcOffset)
  {
    score, reasons := score0, reasons0;

    // Order pattern analysis
    if HasSuspiciousOrderPattern(x.orderData, now, utcOffset) {
      score := score + 3;
      reasons := reasons + ["Suspicious order pattern"];
    }
    assert score == ScoreUpTo(7, x, now, utcOffset) && reasons == ReasonsUpTo(7, x, now, utcOffset);

    // Country risk
    if IsHighRiskCountry(x.country) {
      score := score + 2;
      reasons := reasons + ["High-risk country"];
    }
    assert score == ScoreUpTo(8, x, now, utcOffset) && reasons == ReasonsUpTo(8, x, now, utcOffset);

    // IP analysis
    if IsSuspiciousIp(x.ipAddress) {
      score := score + 3;
      reasons := reasons + ["Suspicious IP address"];
    }
  }

  // ---------------------------------------------------------------------
  // Properties of the score

  /** The device contribution: 3 without a fingerprint, 2 for a weak one, else nothing. */
  function DeviceScore(fingerprint: Option<Fingerprint>): nat
  {
    match fingerprint
    case None => 3
    case Some(f) => if f.confidence < 0.5 then 2 else 0
  }

  /** The amount contribution: 2 above 500, 1 below 10, else nothing. */
  function AmountScore(amount: real): nat
  {
    if amount > 500.0 then 2 else if amount < 10.0 then 1 else 0
  }

  function Points(fires: bool, weight: nat): nat
  {
    if fires then weight else 0
  }

  /**
   * The raw score signal by signal: the device check gives exactly one of
   * 3, 2 or 0, the amount checks exactly one of 2, 1 or 0, and every other
   * signal its weight at most once.
   */
  lemma RawScoreBySignal(x: FraudInput, now: int, utcOffset: int)
    ensures RawScore(x, now, utcOffset) ==
      DeviceScore(x.fingerprint)
      + Points(IsDisposableEmail(x.email), 4)
      + Points(FraudPatterns.IsSuspiciousEmail(x.email), 3)
      + AmountScore(x.amount)
      + Points(HasSuspiciousOrderPattern(x.orderData, now, utcOffset), 3)
      + Points(IsHighRiskCountry(x.country), 2)
      + Points(IsSuspiciousIp(x.ipAddress), 3)
  {
    assert ScoreUpTo(2, x, now, utcOffset) == DeviceScore(x.fingerprint) by {
      assert ScoreUpTo(1, x, now, utcOffset) == Points(x.fingerprint.None?, 3);
    }
    assert ScoreUpTo(4, x, now, utcOffset) == ScoreUpTo(2, x, now, utcOffset)
      + Points(IsDisposableEmail(x.email), 4) + Points(FraudPatterns.IsSuspiciousEmail(x.email), 3);
    assert ScoreUpTo(6, x, now, utcOffset) == ScoreUpTo(4, x, now, utcOffset) + AmountScore(x.amount);
    assert ScoreUpTo(8, x, now, utcOffset) == ScoreUpTo(6, x, now, utcOffset)
      + Points(HasSuspiciousOrderPattern(x.orderData, now, utcOffset), 3) + Points(IsHighRiskCountry(x.country), 2);
  }

  /** No input scores more than 20 tenths, so the cap at 10 is reachable but the sum is bounded. */
  lemma RawScoreAtMostTwenty(x: FraudInput, now: int, utcOffset: int)
    ensures RawScore(x, now, utcOffset) <= 20
    ensures exists w: FraudInput :: RawScore(w, now, utcOffset) > 10
  {
    RawScoreBySignal(x, now, utcOffset);
    RepeatedAddressHighRiskScoresThirteen(now, utcOffset);
  }

  /**
   * An unfingerprinted order over 500 from a high-risk country, a
   * suspicious IP address and an address with five equal characters
   * scores 13 tenths, above the cap, whatever the clock.
   */
  lemma RepeatedAddressHighRiskScoresThirteen(now: int, utcOffset: int)
    ensures RawScore(FraudInput(None, "aaaaa", 1000.0, Some("XX"), Some("10.0.0.1"), OrderData(Undefined, Undefined)),
                     now, utcOffset) >= 13
  {
    var w := FraudInput(None, "aaaaa", 1000.0, Some("XX"), Some("10.0.0.1"), OrderData(Undefined, Undefined));
    assert FraudPatterns.WindowIsRun("aaaaa", FraudPatterns.Repeats, 0, 5);
    assert IsHighRiskCountry(w.country) by { HighRiskCountryIff("XX"); }
    assert IsSuspiciousIp(w.ipAddress) by { assert StartsWith("10.0.0.1", SuspiciousIpPrefixes[0]); }
    RawScoreBySignal(w, now, utcOffset);
  }

  /** Among the first n checks, a check's reason is present exactly when that check fired; there are at most n reasons. */
  lemma {:induction false} ReasonsUpToFired(n: nat, x: FraudInput, now: int, utcOffset: int, c: Check)
    requires n <= |CheckOrder|
    ensures Reason(c) in ReasonsUpTo(n, x, now, utcOffset) <==> Fires(c, x, now, utcOffset) && c in CheckOrder[..n]
    ensures |ReasonsUpTo(n, x, now, utcOffset)| <= n
  {
    if n > 0 {
      ReasonsUpToFired(n - 1, x, now, utcOffset, c);
      assert CheckOrder[..n] == CheckOrder[..n - 1] + [CheckOrder[n - 1]];
      ReasonIsInjective(c, CheckOrder[n - 1]);
    }
  }

  lemma ReasonIsInjective(c: Check, d: Check)
    ensures Reason(c) == Reason(d) ==> c == d
  {
  }

  /** A check's reason is reported exactly when that check fires. */
  lemma ReasonReportedIffFires(x: FraudInput, now: int, utcOffset: int, c: Check)
    ensures Reason(c) in Reasons(x, now, utcOffset) <==> Fires(c, x, now, utcOffset)
    ensures |Reasons(x, now, utcOffset)| <= |CheckOrder|
  {
    ReasonsUpToFired(|CheckOrder|, x, now, utcOffset, c);
    assert CheckOrder[..|CheckOrder|] == CheckOrder;
    assert c in CheckOrder by {
      match c
      case NoFingerprint => assert CheckOrder[0] == c;
      case LowConfidence => assert CheckOrder[1] == c;
      case DisposableEmail => assert CheckOrder[2] == c;
      case SuspiciousEmail => assert CheckOrder[3] == c;
      case HighAmount => assert CheckOrder[4] == c;
      case LowAmount => assert CheckOrder[5] == c;
      case OrderPattern => assert CheckOrder[6] == c;
      case HighRiskCountry => assert CheckOrder[7] == c;
      case SuspiciousIp => assert CheckOrder[8] == c;
    }
  }

  /** The device checks and the amount checks never both fire. */
  lemma ExclusiveChecks(x: FraudInput, now: int, utcOffset: int)
    ensures !(Fires(NoFingerprint, x, now, utcOffset) && Fires(LowConfidence, x, now, utcOffset))
    ensures !(Fires(HighAmount, x, now, utcOffset) && Fires(LowAmount, x, now, utcOffset))
  {
  }

  /** Firing more checks never lowers the score of the first n checks. */
  lemma {:induction false} ScoreUpToMonotone(n: nat, x: FraudInput, y: FraudInput, now: int, utcOffset: int)
    requires n <= |CheckOrder|
    requires forall c :: Fires(c, x, now, utcOffset) ==> Fires(c, y, now, utcOffset)
    ensures ScoreUpTo(n, x, now, utcOffset) <= ScoreUpTo(n, y, now, utcOffset)
  {
    if n > 0 {
      ScoreUpToMonotone(n - 1, x, y, now, utcOffset);
    }
  }

  /** An input that trips every check another input trips is graded at least as severely. */
  lemma MoreSignalsNeverLowerRisk(x: FraudInput, y: FraudInput, now: int, utcOffset: int)
    requires forall c :: Fires(c, x, now, utcOffset) ==> Fires(c, y, now, utcOffset)
    ensures RawScore(x, now, utcOffset) <= RawScore(y, now, utcOffset)
    ensures LevelOf(RawScore(x, now, utcOffset)) == High ==> LevelOf(RawScore(y, now, utcOffset)) == High
    ensures LevelOf(RawScore(x, now, utcOffset)) == Medium ==> LevelOf(RawScore(y, now, utcOffset)) != Low
  {
    ScoreUpToMonotone(|CheckOrder|, x, y, now, utcOffset);
  }

  /** A disposable address paying over 500 for a trip on the current local day already scores 9 tenths and is blocked. */
  lemma DisposableBigSameDayIsBlocked(x: FraudInput, now: int, utcOffset: int)
    requires IsDisposableEmail(x.email) && x.amount > 500.0
    requires TripDate(x.orderData).Some? && LocalDay(TripDate(x.orderData).value, utcOffset) == LocalDay(now, utcOffset)
    ensures RawScore(x, now, utcOffset) >= 9
    ensures LevelOf(RawScore(x, now, utcOffset)) == High
  {
    RawScoreBySignal(x, now, utcOffset);
    SameDayTripIsFlagged(x.orderData, now, utcOffset);
  }

  /** A fingerprinted, confident, ordinary purchase from a clean address scores nothing. */
  lemma CleanInputScoresZero(x: FraudInput, now: int, utcOffset: int)
    requires x.fingerprint.Some? && x.fingerprint.value.confidence >= 0.5
    requires !IsDisposableEmail(x.email) && !FraudPatterns.IsSuspiciousEmail(x.email)
    requires 10.0 <= x.amount <= 500.0
    requires TripDate(x.orderData).None? && x.country.None? && x.ipAddress.None?
    ensures RawScore(x, now, utcOffset) == 0 && Reasons(x, now, utcOffset) == []
  {
    RawScoreBySignal(x, now, utcOffset);
    ReasonsEmptyIffScoreZero(|CheckOrder|, x, now, utcOffset);
  }

  /** Every check weighs something, so no reason is reported exactly when the score is zero. */
  lemma {:induction false} ReasonsEmptyIffScoreZero(n: nat, x: FraudInput, now: int, utcOffset: int)
    requires n <= |CheckOrder|
    ensures ReasonsUpTo(n, x, now, utcOffset) == [] <==> ScoreUpTo(n, x, now, utcOffset) == 0
  {
    if n > 0 {
      ReasonsEmptyIffScoreZero(n - 1, x, now, utcOffset);
    }
  }

  // ---------------------------------------------------------------------
  // Properties of the private predicates

  /** The domain is the text between the first '@' and the next one. */
  lemma DomainOfAddress(local: string, domain: string, rest: string)
    requires '@' !in local && '@' !in domain
    requires rest == [] || rest[0] == '@'
    ensures EmailDomain(local + "@" + domain + rest) == Some(domain)
  {
    SplitSecondPart(local, domain, rest, '@');
  }

  /** An address without '@' has no domain, so it is never disposable. */
  lemma NoAtNotDisposable(email: string)
    requires '@' !in email
    ensures EmailDomain(email) == None && !IsDisposableEmail(email)
  {
    SplitParts(email, '@');
  }

  /**
   * Disposable exactly when the text after the first '@' (up to any second
   * '@'), lowercased, is a listed domain; whatever follows a second '@' is ignored.
   */
  lemma DisposableIffListedDomain(local: string, domain: string, rest: string)
    requires '@' !in local && '@' !in domain
    requires rest == [] || rest[0] == '@'
    ensures IsDisposableEmail(local + "@" + domain + rest) <==> ToLower(domain) in DisposableDomains
  {
    DomainOfAddress(local, domain, rest);
  }

  /** The country check: two letters, each an x or each a y, in either case. */
  lemma HighRiskCountryIff(country: string)
    ensures IsHighRiskCountry(Some(country)) <==>
      |country| == 2 &&
      ((country[0] in "xX" && country[1] in "xX") || (country[0] in "yY" && country[1] in "yY"))
  {
    if |country| == 2 {
      assert ToUpper(country) == [UpperChar(country[0]), UpperChar(country[1])];
    }
  }

  /** An absent or empty country or IP address never adds to the score. */
  lemma AbsentFieldsDoNotFire(x: FraudInput, now: int, utcOffset: int)
    requires !Truthy(x.country) && !Truthy(x.ipAddress)
    ensures !Fires(HighRiskCountry, x, now, utcOffset) && !Fires(SuspiciousIp, x, now, utcOffset)
  {
  }

  /**
   * The IP check compares text prefixes, not networks: an address inside
   * 172.16.0.0/12 can pass while one outside it is flagged.
   */
  lemma IpCheckIsTextPrefix()
    ensures IsSuspiciousIp(Some("192.168.1.20"))
    ensures IsSuspiciousIp(Some("172.160.0.1"))
    ensures !IsSuspiciousIp(Some("172.20.0.1"))
    ensures !IsSuspiciousIp(Some("10.1.2.3"))
  {
    assert StartsWith("192.168.1.20", SuspiciousIpPrefixes[2]);
    assert StartsWith("172.160.0.1", SuspiciousIpPrefixes[1]);
    assert !StartsWith("172.20.0.1", SuspiciousIpPrefixes[1]) by {
      assert "172.20.0.1"[..6][4] != "172.16"[4];
    }
    assert !StartsWith("10.1.2.3", SuspiciousIpPrefixes[0]) by {
      assert "10.1.2.3"[..4][3] != "10.0"[3];
    }
  }

  /** A network address of two or more dotted groups, followed by a prefix length, keeps its first two groups. */
  lemma RangePrefixOf(range: string, a: string, b: string, more: string, bits: string)
    requires '.' !in a && '.' !in b && '/' !in a && '/' !in b && '/' !in more
    requires more == [] || more[0] == '.'
    requires range == a + "." + b + more + "/" + bits
    ensures RangePrefix(range) == a + "." + b
  {
    var network := a + ['.'] + b + more;
    assert '/' !in network;
    assert range == network + ("/" + bits);
    SplitFirstPart(network, "/" + bits, '/');
    assert network == a + (['.'] + b + more);
    SplitFirstPart(a, ['.'] + b + more, '.');
    SplitSecondPart(a, b, more, '.');
    var groups := Split(network, '.');
    assert groups[0] == a && groups[1] == b;
    var kept := if |groups| <= 2 then groups else groups[..2];
    assert kept == [a, b];
    assert Split(range, '/')[0] == network;
    assert RangePrefix(range) == Join(kept, '.');
    assert kept[1..] == [b];
    assert Join(kept, '.') == a + ['.'] + b;
  }

  /** The three ranges give exactly the prefixes 10.0, 172.16 and 192.168. */
  lemma SuspiciousIpPrefixesDerived()
    ensures |SuspiciousRanges| == |SuspiciousIpPrefixes|
    ensures forall k :: 0 <= k < |SuspiciousRanges| ==> RangePrefix(SuspiciousRanges[k]) == SuspiciousIpPrefixes[k]
  {
    forall k | 0 <= k < |SuspiciousRanges|
      ensures RangePrefix(SuspiciousRanges[k]) == SuspiciousIpPrefixes[k]
    {
      if k == 0 {
        PrefixOfRange(0, "10", "0", "8");
      } else if k == 1 {
        PrefixOfRange(1, "172", "16", "12");
      } else {
        PrefixOfRange(2, "192", "168", "16");
      }
    }
  }

  lemma PrefixOfRange(k: nat, a: string, b: string, bits: string)
    requires k < |SuspiciousRanges| && '.' !in a && '.' !in b && '/' !in a && '/' !in b
    requires SuspiciousRanges[k] == a + "." + b + ".0.0" + "/" + bits
    ensures RangePrefix(SuspiciousRanges[k]) == a + "." + b
  {
    RangePrefixOf(SuspiciousRanges[k], a, b, ".0.0", bits);
  }

  /** A trip on the same local calendar day as now is flagged, whatever the hour. */
  lemma SameDayTripIsFlagged(o: OrderData, now: int, utcOffset: int)
    requires TripDate(o).Some? && LocalDay(TripDate(o).value, utcOffset) == LocalDay(now, utcOffset)
    ensures HasSuspiciousOrderPattern(o, now, utcOffset)
  {
  }

  /** A trip more than a year ahead is flagged, whatever the day; a trip that is a year ahead to the millisecond is not. */
  lemma FarFutureTripIsFlagged(o: OrderData, now: int, utcOffset: int)
    requires TripDate(o).Some?
    ensures TripDate(o).value > now + 365 * MsPerDay ==> HasSuspiciousOrderPattern(o, now, utcOffset)
    ensures TripDate(o).value == now + 365 * MsPerDay ==> !HasSuspiciousOrderPattern(o, now, utcOffset)
  {
    if TripDate(o).value == now + 365 * MsPerDay {
      assert LocalDay(TripDate(o).value, utcOffset) == LocalDay(now, utcOffset) + 365;
    }
  }

  /** A trip from tomorrow up to a year ahead, or in the past before today, is not flagged. */
  lemma OrdinaryTripIsNotFlagged(o: OrderData, now: int, utcOffset: int)
    requires TripDate(o).Some?
    requires LocalDay(TripDate(o).value, utcOffset) != LocalDay(now, utcOffset)
    requires TripDate(o).value - now <= 365 * MsPerDay
    ensures !HasSuspiciousOrderPattern(o, now, utcOffset)
  {
  }

  /** A missing or unparseable date never flags the order; `dates` wins over `departure_date` when truthy. */
  lemma TripDateChoice(o: OrderData, now: int, utcOffset: int)
    ensures Falsy(o.dates) && o.departureDate.Undefined? ==> !HasSuspiciousOrderPattern(o, now, utcOffset)
    ensures o.dates.Text? && o.dates.text != "" ==> TripDate(o) == o.dates.parsed
    ensures o.dates.Text? && o.dates.parsed.None? && o.dates.text != "" ==> !HasSuspiciousOrderPattern(o, now, utcOffset)
  {
  }
}
