/**
 * How the Cosmos DB data layer turns an error response into the error the FHIR server
 * raises: an ordered decision table over the HTTP status code, the optional sub-status, the
 * `x-ms-retry-after-ms` header and the error message. The raised exception is modelled as
 * the returned error kind; None means that nothing is raised.
 */
module CosmosResponseProcessor {
  import opened Wrappers
  import opened DotNetInt32

  const BadRequest := 400
  const Forbidden := 403
  const RequestTimeout := 408
  const RequestEntityTooLarge := 413
  const TooManyRequests := 429

  /** The localized messages the classifier can attach, by resource name. */
  datatype Resource =
    | CmkDefaultError
    | AadClientCredentialsGrantFailure
    | AadServiceUnavailable
    | KeyVaultAuthenticationFailure
    | KeyVaultKeyNotFound
    | KeyVaultServiceUnavailable
    | KeyVaultWrapUnwrapFailure
    | InvalidKeyVaultKeyUri
    | KeyVaultInternalServerError
    | KeyVaultDnsNotResolved
    | InvalidContinuationToken

  /** The defined members of the customer-managed-key sub-status enumeration. */
  datatype CmkSubStatus =
    | AadClientCredentialsGrantFailureCode
    | AadServiceUnavailableCode
    | KeyVaultAuthenticationFailureCode
    | KeyVaultKeyNotFoundCode
    | KeyVaultServiceUnavailableCode
    | KeyVaultWrapUnwrapFailureCode
    | InvalidKeyVaultKeyUriCode
    | KeyVaultInternalServerErrorCode
    | KeyVaultDnsNotResolvedCode

  function CmkValue(c: CmkSubStatus): int {
    match c
    case AadClientCredentialsGrantFailureCode => 4000
    case AadServiceUnavailableCode => 4001
    case KeyVaultAuthenticationFailureCode => 4002
    case KeyVaultKeyNotFoundCode => 4003
    case KeyVaultServiceUnavailableCode => 4004
    case KeyVaultWrapUnwrapFailureCode => 4005
    case InvalidKeyVaultKeyUriCode => 4006
    case KeyVaultInternalServerErrorCode => 4008
    case KeyVaultDnsNotResolvedCode => 4009
  }

  /** `Enum.IsDefined` followed by the cast: the member with that value, if there is one. */
  function CmkFromValue(v: int): (r: Option<CmkSubStatus>)
    ensures r.Some? <==> v in {4000, 4001, 4002, 4003, 4004, 4005, 4006, 4008, 4009}
    ensures r.Some? ==> CmkValue(r.value) == v
  {
    if v == 4000 then Some(AadClientCredentialsGrantFailureCode)
    else if v == 4001 then Some(AadServiceUnavailableCode)
    else if v == 4002 then Some(KeyVaultAuthenticationFailureCode)
    else if v == 4003 then Some(KeyVaultKeyNotFoundCode)
    else if v == 4004 then Some(KeyVaultServiceUnavailableCode)
    else if v == 4005 then Some(KeyVaultWrapUnwrapFailureCode)
    else if v == 4006 then Some(InvalidKeyVaultKeyUriCode)
    else if v == 4008 then Some(KeyVaultInternalServerErrorCode)
    else if v == 4009 then Some(KeyVaultDnsNotResolvedCode)
    else None
  }

  /** The decoder and the enumeration's values are inverse: every member is defined, and only members are. */
  lemma CmkValueRoundTrip(c: CmkSubStatus, v: int)
    ensures CmkFromValue(CmkValue(c)) == Some(c)
    ensures CmkFromValue(v) == Some(c) <==> CmkValue(c) == v
  {
  }

  /** The message for a sub-status: the member's own message, or the default for any other value. */
  function GetCustomerManagedKeyErrorMessage(subStatusCode: int): (r: Resource)
    ensures r != InvalidContinuationToken
    ensures r == CmkDefaultError <==> CmkFromValue(subStatusCode).None?
  {
    match CmkFromValue(subStatusCode)
    case None => CmkDefaultError
    case Some(AadClientCredentialsGrantFailureCode) => AadClientCredentialsGrantFailure
    case Some(AadServiceUnavailableCode) => AadServiceUnavailable
    case Some(KeyVaultAuthenticationFailureCode) => KeyVaultAuthenticationFailure
    case Some(KeyVaultKeyNotFoundCode) => KeyVaultKeyNotFound
    case Some(KeyVaultServiceUnavailableCode) => KeyVaultServiceUnavailable
    case Some(KeyVaultWrapUnwrapFailureCode) => KeyVaultWrapUnwrapFailure
    case Some(InvalidKeyVaultKeyUriCode) => InvalidKeyVaultKeyUri
    case Some(KeyVaultInternalServerErrorCode) => KeyVaultInternalServerError
    case Some(KeyVaultDnsNotResolvedCode) => KeyVaultDnsNotResolved
  }

  /** Distinct defined sub-statuses get distinct messages. */
  lemma CmkMessagesDistinct(a: int, b: int)
    requires CmkFromValue(a).Some? && CmkFromValue(b).Some?
    ensures GetCustomerManagedKeyErrorMessage(a) == GetCustomerManagedKeyErrorMessage(b) <==> a == b
  {
  }

  // ----- ordinal case-insensitive containment -----

  /** The simple upper-case mapping, on ASCII letters. */
  function Upper(c: char): char {
    if 'a' <= c <= 'z' then (c as int - 32) as char else c
  }

  function Fold(s: string): (r: string)
    ensures |r| == |s|
  {
    seq(|s|, i requires 0 <= i < |s| => Upper(s[i]))
  }

  /** `needle` matches `s` at offset `i`, ignoring case. */
  predicate OccursAt(s: string, needle: string, i: int) {
    0 <= i <= |s| - |needle| && Fold(s[i..i + |needle|]) == Fold(needle)
  }

  /** `s.Contains(needle, StringComparison.OrdinalIgnoreCase)`. */
  predicate ContainsIgnoreCase(s: string, needle: string)
    ensures ContainsIgnoreCase(s, needle) ==> |needle| <= |s|
    ensures |needle| == 0 ==> ContainsIgnoreCase(s, needle)
  {
    assert |needle| == 0 ==> OccursAt(s, needle, 0);
    exists i :: 0 <= i <= |s| - |needle| && OccursAt(s, needle, i)
  }

  /** Containment ignores the case of both strings, and a literal occurrence is always found. */
  lemma ContainsIgnoreCaseFolds(prefix: string, needle: string, suffix: string, t: string)
    ensures ContainsIgnoreCase(prefix + needle + suffix, needle)
    ensures ContainsIgnoreCase(Fold(t), needle) <==> ContainsIgnoreCase(t, needle)
  {
    var s := prefix + needle + suffix;
    assert s[|prefix|..|prefix| + |needle|] == needle;
    assert OccursAt(s, needle, |prefix|);
    forall i ensures OccursAt(Fold(t), needle, i) <==> OccursAt(t, needle, i) {
      if 0 <= i <= |t| - |needle| {
        assert Fold(Fold(t)[i..i + |needle|]) == Fold(t[i..i + |needle|]);
      }
    }
  }

  // ----- the decision table -----

  datatype ErrorKind =
    | RequestRateExceeded(retryAfterMs: Option<int>)
    | CosmosDbRequestTimeout
    | RequestNotValid(message: Resource)
    | RequestEntityTooLargeError
    | CustomerManagedKey(message: Resource)

  predicate Throttled(statusCode: int, subStatus: Option<int>) {
    statusCode == TooManyRequests || subStatus == Some(TooManyRequests)
  }

  predicate ContinuationTokenError(errorMessage: string) {
    ContainsIgnoreCase(errorMessage, "Invalid Continuation Token")
    || ContainsIgnoreCase(errorMessage, "Malformed Continuation Token")
  }

  predicate TooLarge(statusCode: int, errorMessage: string) {
    statusCode == RequestEntityTooLarge
    || (statusCode == BadRequest && ContainsIgnoreCase(errorMessage, "Request size is too large"))
  }

  predicate CmkFailure(statusCode: int, subStatus: Option<int>) {
    statusCode == Forbidden && subStatus.Some? && CmkFromValue(subStatus.value).Some?
  }

  /** The error branch of the classifier, taken whatever the status code. */
  function ClassifyError(statusCode: int, subStatus: Option<int>, retryAfterHeader: Option<string>,
                         errorMessage: string): (r: Option<ErrorKind>)
    ensures Throttled(statusCode, subStatus) ==> r == Some(RequestRateExceeded(ParseInt32(retryAfterHeader)))
    ensures r.None? ==> !Throttled(statusCode, subStatus) && statusCode != RequestTimeout && statusCode != RequestEntityTooLarge
    ensures r.Some? && r.value.RequestNotValid? ==> r.value.message == InvalidContinuationToken
    ensures r.Some? && r.value.CustomerManagedKey? ==> statusCode == Forbidden && r.value.message != CmkDefaultError
  {
    if Throttled(statusCode, subStatus) then
      Some(RequestRateExceeded(ParseInt32(retryAfterHeader)))
    else if statusCode == RequestTimeout then
      Some(CosmosDbRequestTimeout)
    else if ContinuationTokenError(errorMessage) then
      Some(RequestNotValid(InvalidContinuationToken))
    else if TooLarge(statusCode, errorMessage) then
      Some(RequestEntityTooLargeError)
    else if statusCode == Forbidden then
      if subStatus.Some? && CmkFromValue(subStatus.value).Some? then
        Some(CustomerManagedKey(GetCustomerManagedKeyErrorMessage(subStatus.value)))
      else None
    else None
  }

  /** Throttling wins over every later branch; the retry-after is present exactly when the header parses. */
  lemma ThrottlingTakesPrecedence(statusCode: int, subStatus: Option<int>, retryAfterHeader: Option<string>,
                                  errorMessage: string)
    requires Throttled(statusCode, subStatus)
    ensures var r := ClassifyError(statusCode, subStatus, retryAfterHeader, errorMessage);
      r.Some? && r.value.RequestRateExceeded? &&
      (r.value.retryAfterMs.Some? <==> ParseInt32(retryAfterHeader).Some?) &&
      r.value.retryAfterMs == ParseInt32(retryAfterHeader)
  {
  }

  /** A retry-after that is a rendered 32-bit integer is carried through as that number of milliseconds. */
  lemma RetryAfterIsParsed(statusCode: int, subStatus: Option<int>, ms: int, errorMessage: string)
    requires Throttled(statusCode, subStatus) && IsInt32(ms)
    ensures ClassifyError(statusCode, subStatus, Some(Format(ms)), errorMessage) == Some(RequestRateExceeded(Some(ms)))
  {
    FormatRoundTrip(ms);
  }

  /**
   * Each error kind is raised exactly when its own condition holds and no earlier branch's
   * does; nothing is raised exactly when no condition holds.
   */
  lemma ClassificationIsExact(statusCode: int, subStatus: Option<int>, retryAfterHeader: Option<string>,
                              errorMessage: string)
    ensures var r := ClassifyError(statusCode, subStatus, retryAfterHeader, errorMessage);
      var throttled := Throttled(statusCode, subStatus);
      var timeout := !throttled && statusCode == RequestTimeout;
      var token := !throttled && statusCode != RequestTimeout && ContinuationTokenError(errorMessage);
      var large := !throttled && statusCode != RequestTimeout && !ContinuationTokenError(errorMessage)
        && TooLarge(statusCode, errorMessage);
      var cmk := !throttled && statusCode != RequestTimeout && !ContinuationTokenError(errorMessage)
        && !TooLarge(statusCode, errorMessage) && CmkFailure(statusCode, subStatus);
      (r.Some? && r.value.RequestRateExceeded? <==> throttled) &&
      (r == Some(CosmosDbRequestTimeout) <==> timeout) &&
      (r == Some(RequestNotValid(InvalidContinuationToken)) <==> token) &&
      (r == Some(RequestEntityTooLargeError) <==> large) &&
      (r.Some? && r.value.CustomerManagedKey? <==> cmk) &&
      (r.None? <==> !throttled && !timeout && !token && !large && !cmk)
  {
  }

  /**
   * A customer-managed-key error needs status 403 and a defined sub-status, and carries that
   * sub-status's own message, never the default one.
   */
  lemma CmkErrorCarriesMessage(statusCode: int, subStatus: Option<int>, retryAfterHeader: Option<string>,
                               errorMessage: string)
    ensures var r := ClassifyError(statusCode, subStatus, retryAfterHeader, errorMessage);
      r.Some? && r.value.CustomerManagedKey? ==>
        statusCode == Forbidden && subStatus.Some? &&
        r.value.message == GetCustomerManagedKeyErrorMessage(subStatus.value) &&
        r.value.message != CmkDefaultError
  {
  }

  /** A 403 without a defined sub-status, and with no earlier condition, raises nothing. */
  lemma ForbiddenWithoutCmkIsSilent(subStatus: Option<int>, retryAfterHeader: Option<string>, errorMessage: string)
    requires subStatus.None? || (subStatus.value != TooManyRequests && CmkFromValue(subStatus.value).None?)
    requires !ContinuationTokenError(errorMessage)
    ensures ClassifyError(Forbidden, subStatus, retryAfterHeader, errorMessage).None?
  {
  }

  /** The response message's fields that the classifier reads. */
  datatype CosmosResponseMessage = CosmosResponseMessage(
    statusCode: int, subStatus: Option<int>, retryAfterHeader: Option<string>, errorMessage: string)

  predicate IsSuccessStatusCode(statusCode: int) {
    200 <= statusCode <= 299
  }

  /** The response overload: a successful response raises nothing, any other is classified. */
  function ProcessErrorResponse(response: CosmosResponseMessage): (r: Option<ErrorKind>)
    ensures IsSuccessStatusCode(response.statusCode) ==> r.None?
    ensures !IsSuccessStatusCode(response.statusCode) ==>
      r == ClassifyError(response.statusCode, response.subStatus, response.retryAfterHeader, response.errorMessage)
  {
    if IsSuccessStatusCode(response.statusCode) then None
    else ClassifyError(response.statusCode, response.subStatus, response.retryAfterHeader, response.errorMessage)
  }

  /**
   * The success guard matters: the status-code overload alone raises a throttling error for a
   * 200 whose sub-status is 429, which the response overload never does.
   */
  lemma SuccessGuardMatters(retryAfterHeader: Option<string>, errorMessage: string)
    ensures ClassifyError(200, Some(TooManyRequests), retryAfterHeader, errorMessage).Some?
    ensures ProcessErrorResponse(CosmosResponseMessage(200, Some(TooManyRequests), retryAfterHeader, errorMessage)).None?
  {
  }
}
