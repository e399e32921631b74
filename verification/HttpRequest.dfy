/** The parsed request and the two header lookups that carry logic. */
module HttpRequests {
  import opened Basics
  import opened Decimal

  datatype Method = Invalid | Get | Post | Put | Delete | Head | Patch

  datatype Request = Request(verb: Method, path: string, version: string, query: string, body: string,
                             headers: map<string, string>)

  const EMPTY_REQUEST: Request := Request(Invalid, "", "", "", "", map[])
  const CONTENT_LENGTH: string := "Content-Length"

  /** The byte a C string shows at an index: its terminator past the end. */
  function CharAt(s: string, i: nat): char { if i < |s| then s[i] else '\0' }

  /** The length a Content-Length value denotes, or -1 when it is not acceptable. */
  function LengthOfValue(value: string): (r: int)
    ensures -1 <= r <= INT_MAX
  {
    var i := SpacesEnd(value, 0);
    if i == |value| then -1
    else
      var (len, end) := Strtol(value, i);
      if end == i || CharAt(value, end) != '\0' || len < 0 || len > INT_MAX then -1 else len
  }

  function ContentLength(headers: map<string, string>): (r: int)
    ensures -1 <= r <= INT_MAX
  {
    if CONTENT_LENGTH in headers then LengthOfValue(headers[CONTENT_LENGTH]) else -1
  }

  /** HttpRequest::getContentLength. */
  method GetContentLength(request: Request) returns (length: int)
    ensures length == ContentLength(request.headers)
  {
    if CONTENT_LENGTH !in request.headers {
      return -1;
    }
    var value := request.headers[CONTENT_LENGTH];
    var i := 0;
    while i < |value| && IsSpace(value[i])
      invariant i <= |value|
      invariant SpacesEnd(value, i) == SpacesEnd(value, 0)
    {
      i := i + 1;
    }
    if i == |value| {
      return -1;
    }
    var (len, end) := Strtol(value, i);
    if end == i || CharAt(value, end) != '\0' || len < 0 || len > INT_MAX {
      return -1;
    }
    return len;
  }

  /** Printing a length and reading it back is the identity exactly up to INT_MAX. */
  lemma LengthRoundTrip(n: int)
    ensures LengthOfValue(IntToString(n)) == n <==> -1 <= n <= INT_MAX
    ensures LengthOfValue(IntToString(n)) == if 0 <= n <= INT_MAX then n else -1
  {
    var s := IntToString(n);
    StrtolOfInt(n);
    ToStringValue(if n < 0 then -n else n);
    assert IsDigit(ToString(if n < 0 then -n else n)[0]);
    assert !IsSpace(s[0]);
    assert SpacesEnd(s, 0) == 0;
  }

  /** The texts accepted as a length: white space, perhaps a sign, digits, and then the end of
      the C string; a minus sign only before zero. */
  ghost predicate IsLength(value: string, n: nat) {
    exists start: nat, first: nat, end: nat :: IsLengthAt(value, n, start, first, end)
  }

  predicate IsLengthAt(value: string, n: nat, start: nat, first: nat, end: nat) {
    && start <= first < end <= |value|
    && (forall k :: 0 <= k < start ==> value[k] == ' ' || 9 <= value[k] as int <= 13)
    && (first == start
        || (first == start + 1 && (value[start] == '+' || (value[start] == '-' && n == 0))))
    && AllDigits(value[first..end]) && DigitsValue(value[first..end]) == n <= 2147483647
    && (end == |value| || value[end] == '\0')
  }

  lemma {:induction false} SpacesEndIs(s: string, first: nat, end: nat)
    requires first <= end <= |s| && forall k :: first <= k < end ==> IsSpace(s[k])
    requires end == |s| || !IsSpace(s[end])
    ensures SpacesEnd(s, first) == end
    decreases end - first
  {
    if first == end {
    } else {
      SpacesEndIs(s, first + 1, end);
    }
  }

  lemma {:induction false} DigitsEndIs(s: string, first: nat, end: nat)
    requires first <= end <= |s| && forall k :: first <= k < end ==> IsDigit(s[k])
    requires end == |s| || !IsDigit(s[end])
    ensures DigitsEnd(s, first) == end
    decreases end - first
  {
    if first == end {
    } else {
      DigitsEndIs(s, first + 1, end);
    }
  }

  lemma LengthRead(value: string, n: nat, start: nat, first: nat, end: nat)
    requires IsLengthAt(value, n, start, first, end)
    ensures LengthOfValue(value) == n
  {
    hide DigitsValue, SpacesEnd, DigitsEnd;
    var digits := value[first..end];
    assert IsDigit(digits[0]) && digits[0] == value[first];
    assert forall k :: first <= k < end ==> value[k] == digits[k - first];
    SpacesEndIs(value, 0, start);
    SpacesEndIs(value, start, start);
    DigitsEndIs(value, first, end);
  }

  /** A value is read as a length if and only if it has that form, and as that length. */
  lemma LengthAcceptedIff(value: string, n: nat)
    ensures LengthOfValue(value) == n <==> IsLength(value, n)
  {
    hide DigitsValue, SpacesEnd, DigitsEnd;
    if LengthOfValue(value) == n {
      var start := SpacesEnd(value, 0);
      SpacesEndIs(value, start, start);
      var first := if value[start] == '-' || value[start] == '+' then start + 1 else start;
      var end := DigitsEnd(value, first);
      assert IsLengthAt(value, n, start, first, end);
    }
    if IsLength(value, n) {
      var start: nat, first: nat, end: nat :| IsLengthAt(value, n, start, first, end);
      LengthRead(value, n, start, first, end);
    }
  }

  /** std::tolower in the "C" locale. */
  function ToLower(c: char): char {
    if 'A' <= c <= 'Z' then ((c as int) - ('A' as int) + ('a' as int)) as char else c
  }

  const UPPER: string := "ABCDEFGHIJKLMNOPQRSTUVWXYZ"
  const LOWER: string := "abcdefghijklmnopqrstuvwxyz"

  /** Capital letters become the letters of the same place, everything else stays. */
  lemma LetterByLetter(c: char, i: nat)
    requires i < 26
    ensures |UPPER| == |LOWER| == 26 && ToLower(UPPER[i]) == LOWER[i]
    ensures c !in UPPER ==> ToLower(c) == c
  {
    assert 'A' <= c <= 'Z' ==> UPPER[(c as int) - 65] == c;
  }

  function Lowered(s: string): (r: string)
    ensures |r| == |s| && forall k :: 0 <= k < |s| ==> r[k] == ToLower(s[k])
  {
    seq(|s|, k requires 0 <= k < |s| => ToLower(s[k]))
  }

  /** HttpRequest::getHeader: the exact name first, then its lower-case form, else empty. */
  method GetHeader(request: Request, key: string) returns (value: string)
    ensures key in request.headers ==> value == request.headers[key]
    ensures key !in request.headers && Lowered(key) in request.headers ==> value == request.headers[Lowered(key)]
    ensures key !in request.headers && Lowered(key) !in request.headers ==> value == ""
  {
    if key in request.headers {
      return request.headers[key];
    }
    var lowerKey := key;
    for i := 0 to |key|
      invariant |lowerKey| == |key|
      invariant forall k :: 0 <= k < i ==> lowerKey[k] == ToLower(key[k])
      invariant forall k :: i <= k < |key| ==> lowerKey[k] == key[k]
    {
      lowerKey := lowerKey[i := ToLower(lowerKey[i])];
    }
    assert lowerKey == Lowered(key);
    value := if lowerKey in request.headers then request.headers[lowerKey] else "";
  }
}
