/**
  Validation of the two query parameters of `GET /random/mean`
  (`parametersHandler`). The HTTP error responses it writes are not modelled;
  each distinct response is one constructor of `Validation`.
 */
module Parameters {
  import opened Wrappers
  import opened GoStrconv

  const MaxRequests: int := 10
  const MaxLength: int := 10000

  datatype Validation =
    | Valid(length: int, requests: int)
    /** "You have to provide 2 parameters: request(int) and length(int)" */
    | MissingParam
    /** "Request parameter must to be integer in range 1 - 10!" */
    | BadRequests
    /** "Length parameter must to be integer in range 1 - 10.000!" */
    | BadLength

  /** `s` is an integer in `lo..hi`, as read by `Atoi`. */
  predicate ParsesInRange(s: string, lo: int, hi: int) {
    var n := Atoi(s);
    n.Some? && lo <= n.value <= hi
  }

  /** `parametersHandler(length, requests)`: presence of both first, then
      `requests`, then `length`. An absent query parameter reads as "". */
  function ValidateParams(length: string, requests: string): (r: Validation)
    ensures r == MissingParam <==> length == "" || requests == ""
    ensures r.Valid? ==> 1 <= r.requests <= MaxRequests && Atoi(requests) == Some(r.requests)
    ensures r.Valid? ==> 1 <= r.length <= MaxLength && Atoi(length) == Some(r.length)
  {
    if length == "" || requests == "" then MissingParam
    else
      var response := Atoi(requests);
      if response.None? || response.value > MaxRequests || response.value < 1 then BadRequests
      else
        var len := Atoi(length);
        if len.None? || len.value > MaxLength || len.value < 1 then BadLength
        else Valid(len.value, response.value)
  }

  /** Acceptance is exactly: both present, `requests` in 1..10 and `length` in 1..10000. */
  lemma ValidIff(length: string, requests: string)
    ensures ValidateParams(length, requests).Valid?
        <==> ParsesInRange(requests, 1, MaxRequests) && ParsesInRange(length, 1, MaxLength)
  {
  }

  /** `requests` is checked before `length`: when `requests` is bad, that is the
      error, whatever `length` holds (as long as it is present). */
  lemma RequestsCheckedFirst(length: string, requests: string)
    requires length != "" && requests != ""
    requires !ParsesInRange(requests, 1, MaxRequests)
    ensures ValidateParams(length, requests) == BadRequests
  {
  }

  /** `length` is reported only when `requests` is good. */
  lemma BadLengthIff(length: string, requests: string)
    ensures ValidateParams(length, requests) == BadLength
        <==> length != "" && ParsesInRange(requests, 1, MaxRequests) && !ParsesInRange(length, 1, MaxLength)
  {
  }

  /** A value `Atoi` cannot read and a readable value out of range get the same answer. */
  lemma UnparsableLikeOutOfRange(length: string, requests: string, other: string)
    requires Atoi(other) == Some(MaxRequests + 1)
    requires requests != "" && Atoi(requests).None?
    ensures ValidateParams(length, requests) == ValidateParams(length, other)
  {
  }

  /** Every in-range pair, written in decimal, is accepted and read back in the
      order (length, requests). */
  lemma ValidateCanonical(length: int, requests: int)
    requires 1 <= length <= MaxLength && 1 <= requests <= MaxRequests
    ensures ValidateParams(Itoa(length), Itoa(requests)) == Valid(length, requests)
  {
    AtoiItoa(length);
    AtoiItoa(requests);
  }

  /** A missing pair, out-of-range values, a word, a lone sign, redundant
      zeros and signs, and one plain valid pair. */
  lemma Examples()
    ensures ValidateParams("", "") == MissingParam
    ensures ValidateParams("0", "1") == BadLength
    ensures ValidateParams("5", "11") == BadRequests
    ensures ValidateParams("5", "2") == Valid(5, 2)
    ensures ValidateParams("5", "two") == BadRequests
    ensures ValidateParams("5", "-") == BadRequests
    ensures ValidateParams("007", "+2") == Valid(7, 2)
  {
    assert "5"[..0] == [];
    assert "11"[..1] == "1";
    AtoiAccepts("", 2, 7);
    assert "" + (Zeros(2) + NatDigits(7)) == "007";
    AtoiAccepts("+", 0, 2);
    assert "+" + (Zeros(0) + NatDigits(2)) == "+2";
  }
}
