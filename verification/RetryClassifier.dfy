/** Delivery error classification: what a failed attempt turns a delivery row into. */
module RetryClassifier {
  import opened Common

  datatype DeliveryStatus =
    Pending | Queued | Sending | Delivered | RetryPending | Failed | ManualReview | Cancelled

  datatype ErrorClass =
    | TransientProviderFailure
    | ProviderRateLimit
    | NetworkTimeout
    | InvalidRecipient
    | PermanentProviderRejection
    | ArtifactMissing
    | ArtifactHashMismatch
    | ArtifactCorrupt
    | ArtifactWrongVersion
    | HistoricalMock
    | PdfNotYetGenerated
    | ConfigCredentialError
    | UnknownProviderResponse
    | UnknownExternalOutcome
    | WorkerCrashStaleSending
    | DuplicateTrigger
    | ManualResendAfterDelivered
    | RejectedHaciendaResponse

  datatype Classification = Classification(
    nextStatus: DeliveryStatus,
    immediateRetry: bool,
    retryDelaySeconds: Option<nat>,
    emitSecurityAudit: bool)

  /** Outcomes of the e-mail port. */
  datatype Outcome = MailDelivered | TransientFailure | PermanentFailure | RateLimited | OutcomeUnknown

  const MAX_DELIVERY_RETRIES: nat := 8
  const BACKOFF_BASE: nat := 60
  const BACKOFF_CAP: nat := 3600

  /** The jitter floor(random * 30) is an input. */
  type Jitter = n: nat | n < 30

  function Pow2(n: nat): nat {
    if n == 0 then 1 else 2 * Pow2(n - 1)
  }

  function ExponentialBackoff(attempt: nat, jitter: Jitter): nat {
    Min(BACKOFF_BASE * Pow2(attempt) + jitter, BACKOFF_CAP)
  }

  function Final(status: DeliveryStatus, audit: bool): Classification {
    Classification(status, false, None, audit)
  }

  function RetryAfter(seconds: nat): Classification {
    Classification(RetryPending, false, Some(seconds), false)
  }

  function ClassifyTransient(retryCount: nat, maxRetries: nat, jitter: Jitter): Classification {
    if retryCount >= maxRetries then Final(Failed, false)
    else RetryAfter(ExponentialBackoff(retryCount, jitter))
  }

  function Classify(errorClass: ErrorClass, retryCount: nat, maxRetries: nat, jitter: Jitter): Classification {
    match errorClass
    case DuplicateTrigger => Final(Queued, false)
    case ArtifactHashMismatch | ArtifactCorrupt | HistoricalMock => Final(Failed, true)
    case ArtifactWrongVersion => Final(Failed, false)
    case ArtifactMissing | PdfNotYetGenerated =>
      if retryCount >= maxRetries then Final(Failed, false) else RetryAfter(30)
    case ConfigCredentialError => Final(ManualReview, false)
    case InvalidRecipient | PermanentProviderRejection => Final(Failed, false)
    case WorkerCrashStaleSending => RetryAfter(60)
    case ManualResendAfterDelivered => Classification(Queued, true, None, false)
    case RejectedHaciendaResponse | TransientProviderFailure | NetworkTimeout | ProviderRateLimit =>
      ClassifyTransient(retryCount, maxRetries, jitter)
    case UnknownExternalOutcome => Final(ManualReview, false)
    case UnknownProviderResponse =>
      if retryCount >= maxRetries then Final(ManualReview, false)
      else RetryAfter(ExponentialBackoff(retryCount, jitter))
  }

  /** The worker's own mapping from provider outcome and error code to an error class. */
  function MapOutcomeToErrorClass(outcome: Outcome, errorCode: Option<string>): ErrorClass {
    if errorCode == Some("UNKNOWN_EXTERNAL_OUTCOME") then UnknownExternalOutcome
    else if errorCode == Some("ARTIFACT_HASH_MISMATCH") then ArtifactHashMismatch
    else if errorCode == Some("ARTIFACT_MISSING") then ArtifactMissing
    else if errorCode == Some("PDF_INVALID_STRUCTURE") then ArtifactCorrupt
    else if errorCode == Some("PDF_OVERSIZED") then ArtifactCorrupt
    else if errorCode == Some("ARTIFACT_WRONG_VERSION") then ArtifactWrongVersion
    else if errorCode == Some("LEGACY_PDF_UNAVAILABLE") then HistoricalMock
    else match outcome
      case TransientFailure => TransientProviderFailure
      case PermanentFailure => PermanentProviderRejection
      case RateLimited => ProviderRateLimit
      case _ => UnknownProviderResponse
  }

  lemma {:induction false} Pow2Grows(a: nat, b: nat)
    requires a < b
    ensures 1 <= Pow2(a) && 2 * Pow2(a) <= Pow2(b)
  {
    if a + 1 < b {
      Pow2Grows(a, b - 1);
    } else if a > 0 {
      Pow2Grows(a - 1, a);
    }
  }

  /** Delays stay in [60, 3600] and never shrink with the attempt, whatever the two jitters are. */
  lemma {:induction false} BackoffIsBoundedAndMonotone(a: nat, b: nat, ja: Jitter, jb: Jitter)
    requires a < b
    ensures BACKOFF_BASE <= ExponentialBackoff(a, ja) <= ExponentialBackoff(b, jb) <= BACKOFF_CAP
  {
    Pow2Grows(a, b);
  }

  /** The waits in seconds: one minute, doubled by every attempt, plus the jitter, and one hour from the seventh on. */
  lemma BackoffSeconds(attempt: nat, jitter: Jitter)
    ensures ExponentialBackoff(attempt, jitter)
         == if attempt < 6 then [60, 120, 240, 480, 960, 1920][attempt] + jitter else 3600
  {
    assert Pow2(1) == 2 && Pow2(2) == 4 && Pow2(3) == 8 && Pow2(4) == 16;
    assert Pow2(5) == 32;
    assert Pow2(6) == 64;
    if 6 < attempt {
      Pow2Grows(6, attempt);
    }
  }

  /** Which classes end in which status, from the status: each class is in one line, or waits for another attempt. */
  lemma ClassesOfStatus(c: ErrorClass, retryCount: nat, maxRetries: nat, jitter: Jitter)
    ensures
      var r := Classify(c, retryCount, maxRetries, jitter);
      var bounded := c in {RejectedHaciendaResponse, TransientProviderFailure, NetworkTimeout, ProviderRateLimit};
      var absent := c in {ArtifactMissing, PdfNotYetGenerated};
      var exhausted := maxRetries <= retryCount;
      && (r.nextStatus == Queued <==> c in {DuplicateTrigger, ManualResendAfterDelivered})
      && (r.nextStatus == ManualReview <==>
            c in {ConfigCredentialError, UnknownExternalOutcome} || (exhausted && c == UnknownProviderResponse))
      && (r.nextStatus == Failed <==>
            || c in {ArtifactHashMismatch, ArtifactCorrupt, HistoricalMock, ArtifactWrongVersion, InvalidRecipient,
                     PermanentProviderRejection}
            || (exhausted && (bounded || absent)))
      && (r.nextStatus == RetryPending <==>
            c == WorkerCrashStaleSending || (!exhausted && (bounded || absent || c == UnknownProviderResponse)))
      && r.retryDelaySeconds == (if r.nextStatus != RetryPending then None
                                 else if absent then Some(30)
                                 else if c == WorkerCrashStaleSending then Some(60)
                                 else Some(ExponentialBackoff(retryCount, jitter)))
      && (r.immediateRetry <==> c == ManualResendAfterDelivered)
      && (r.emitSecurityAudit <==> c in {ArtifactHashMismatch, ArtifactCorrupt, HistoricalMock})
  {}

  /** Codes that end a delivery whatever the provider said. */
  predicate BlockingCode(code: Option<string>) {
    code.Some? && code.value in {"ARTIFACT_HASH_MISMATCH", "PDF_INVALID_STRUCTURE", "PDF_OVERSIZED",
                                 "ARTIFACT_WRONG_VERSION", "LEGACY_PDF_UNAVAILABLE"}
  }

  /**
   A worker failure ends in one of three statuses. It retries exactly below the limit, unless the
   mail may have gone out, the documents are unusable, or the provider refused for good; a mail that
   may have gone out always waits for a person.
   */
  lemma WorkerFailureStatus(outcome: Outcome, code: Option<string>, retryCount: nat, jitter: Jitter)
    ensures
      var c := Classify(MapOutcomeToErrorClass(outcome, code), retryCount, MAX_DELIVERY_RETRIES, jitter);
      var maySent := code == Some("UNKNOWN_EXTERNAL_OUTCOME");
      var missing := code == Some("ARTIFACT_MISSING");
      var understood := outcome in {TransientFailure, PermanentFailure, RateLimited};
      && c.nextStatus in {RetryPending, Failed, ManualReview}
      && (c.nextStatus == RetryPending <==>
            && retryCount < MAX_DELIVERY_RETRIES && !maySent && !BlockingCode(code)
            && (missing || outcome != PermanentFailure))
      && (c.nextStatus == ManualReview <==>
            || maySent
            || (retryCount >= MAX_DELIVERY_RETRIES && !missing && !BlockingCode(code) && !understood))
      && (c.emitSecurityAudit <==> BlockingCode(code) && code != Some("ARTIFACT_WRONG_VERSION"))
      && (c.retryDelaySeconds.Some? <==> c.nextStatus == RetryPending)
      && (c.nextStatus == RetryPending ==>
            if missing then c.retryDelaySeconds == Some(30)
            else BACKOFF_BASE <= c.retryDelaySeconds.value <= BACKOFF_CAP)
      && !c.immediateRetry
  {
    BackoffIsBoundedAndMonotone(retryCount, retryCount + 1, jitter, jitter);
  }
}
