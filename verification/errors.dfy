/** The error response of a declined request (deprecatedapi/errors.go): a
    fixed error code and a detail message naming the request and the
    declaration that disabled it. */
module DeprecatedErrors {
  import opened Wrappers
  import opened Text

  datatype ErrorCode = ErrorCode(code: string, title: string)

  /** The one error code the gate uses. */
  const DisabledApiCode: ErrorCode :=
    ErrorCode("NC-COMMON-2101", "Request is declined with 404 Not Found, because deprecated REST API is disabled")

  /** The sentence every detail message carries. */
  const DeclinedPhrase: string := "is declined with 404 Not Found, because the following deprecated REST API is disabled"

  /** What the gate decides about the response: the error code, the detail
      message and the HTTP status. */
  datatype ErrorResponse = ErrorResponse(errorCode: ErrorCode, detail: string, status: int)

  predicate StartsWith(s: string, x: string) { |x| <= |s| && s[..|x|] == x }

  predicate EndsWith(s: string, x: string) { |x| <= |s| && s[|s| - |x|..] == x }

  /** Go's `%s` verb applied to a []string: the elements separated by single
      spaces, inside one pair of brackets. */
  function FormatStrings(xs: seq<string>): (r: string)
    ensures |r| >= 2 && r[0] == '[' && r[|r| - 1] == ']'
  {
    "[" + Join(xs, " ") + "]"
  }

  /** The detail message of CreateErrorResponse. */
  function Detail(requestMethod: string, requestUri: string, matchingMethods: seq<string>, matchingUri: string): string {
    "Request [" + requestMethod + "] '" + requestUri + "' " + DeclinedPhrase + ": [" + FormatStrings(matchingMethods) + "] " + matchingUri
  }

  /** CreateErrorResponse: the disabled-API error code, the detail message
      and the status the caller passes, unchanged. */
  function CreateErrorResponse(requestMethod: string, requestUri: string, matchingMethods: seq<string>, matchingUri: string, status: int): (r: ErrorResponse)
    ensures r.errorCode.code == "NC-COMMON-2101"
    ensures r.errorCode == DisabledApiCode
    ensures r.status == status
    ensures StartsWith(r.detail, "Request [" + requestMethod + "] '" + requestUri + "' " + DeclinedPhrase)
    ensures EndsWith(r.detail, FormatStrings(matchingMethods) + "] " + matchingUri)
  {
    var prefix := "Request [" + requestMethod + "] '" + requestUri + "' " + DeclinedPhrase;
    var suffix := FormatStrings(matchingMethods) + "] " + matchingUri;
    var detail := Detail(requestMethod, requestUri, matchingMethods, matchingUri);
    DetailAround(prefix, suffix, matchingMethods, matchingUri, detail);
    ErrorResponse(DisabledApiCode, detail, status)
  }

  lemma DetailAround(prefix: string, suffix: string, ms: seq<string>, p: string, detail: string)
    requires detail == prefix + ": [" + FormatStrings(ms) + "] " + p
    requires suffix == FormatStrings(ms) + "] " + p
    ensures StartsWith(detail, prefix) && EndsWith(detail, suffix)
  {
    assert detail == prefix + (": [" + suffix);
    assert detail == (prefix + ": [") + suffix;
  }

  /** `x` occurs in `s` at offset `i`. */
  predicate OccursAt(s: string, x: string, i: nat) {
    i + |x| <= |s| && s[i..i + |x|] == x
  }

  /** `x` occurs somewhere in `s`: Go's strings.Contains. */
  ghost predicate Contains(s: string, x: string) {
    exists i: nat :: OccursAt(s, x, i)
  }

  lemma OccursBetween(a: string, x: string, b: string)
    ensures OccursAt(a + x + b, x, |a|)
  {
    assert (a + x + b)[|a|..|a| + |x|] == x;
  }

  /** The fixed sentence the repository's tests look for in the body of a
      declined request. */
  lemma DeclinedMessage(m: string, u: string, ms: seq<string>, p: string, status: int)
    ensures Contains(CreateErrorResponse(m, u, ms, p, status).detail, DeclinedPhrase)
  {
    var lead := "Request [" + m + "] '" + u + "' ";
    var rest := ": [" + FormatStrings(ms) + "] " + p;
    assert Detail(m, u, ms, p) == lead + DeclinedPhrase + rest;
    OccursBetween(lead, DeclinedPhrase, rest);
  }

  /** `%s` brackets the method list itself, so inside the message's own
      brackets it reads `[[GET POST]]`. */
  lemma MethodsInDoubleBrackets(m: string, u: string, ms: seq<string>, p: string, status: int)
    ensures Contains(CreateErrorResponse(m, u, ms, p, status).detail, "[[" + Join(ms, " ") + "]]")
  {
    var lead := "Request [" + m + "] '" + u + "' " + DeclinedPhrase + ": ";
    var j := Join(ms, " ");
    assert ": [" == ": " + "[";
    assert "[" + FormatStrings(ms) + "]" == "[[" + j + "]]";
    assert Detail(m, u, ms, p) == lead + ("[[" + j + "]]") + (" " + p);
    OccursBetween(lead, "[[" + j + "]]", " " + p);
  }

  // ------------------------------------------------------------------
  // Reading the message back
  // ------------------------------------------------------------------

  const Opening: string := "Request ["
  const AfterMethod: string := "] '"
  const BeforeMethods: string := "' " + DeclinedPhrase + ": [["
  const Closing: string := "]] "

  predicate IsNotCloseBracket(c: char) { c != ']' }

  predicate IsNotQuote(c: char) { c != '\'' }

  datatype DetailParts = DetailParts(requestMethod: string, requestUri: string, matchingMethods: seq<string>, matchingUri: string)

  /** Reads the four values back out of a detail message: the method up to
      the first ']', the URI up to the next quote, the method list up to the
      next ']' split at spaces, and the pattern after it. */
  function DecodeDetail(d: string): Option<DetailParts> {
    if |d| < |Opening| then None
    else
      var r1 := d[|Opening|..];
      var e1 := SpanFrom(r1, 0, IsNotCloseBracket);
      var r2 := r1[e1..];
      if |r2| < |AfterMethod| then None
      else
        var r3 := r2[|AfterMethod|..];
        var e2 := SpanFrom(r3, 0, IsNotQuote);
        var r4 := r3[e2..];
        if |r4| < |BeforeMethods| then None
        else
          var r5 := r4[|BeforeMethods|..];
          var e3 := SpanFrom(r5, 0, IsNotCloseBracket);
          var r6 := r5[e3..];
          if |r6| < |Closing| then None
          else Some(DetailParts(r1[..e1], r3[..e2], SplitOn(r5[..e3], ' '), r6[|Closing|..]))
  }

  /** The message as a chain of fixed texts and values. */
  lemma DetailPieces(m: string, u: string, ms: seq<string>, p: string)
    ensures Detail(m, u, ms, p) == Opening + (m + (AfterMethod + (u + (BeforeMethods + (Join(ms, " ") + (Closing + p))))))
  {
    var j := Join(ms, " ");
    assert FormatStrings(ms) == "[" + j + "]";
    assert BeforeMethods == "' " + DeclinedPhrase + ": [" + "[";
    assert Closing == "]" + "] ";
  }

  /** The message loses nothing: when the request method holds no ']', the
      URI no quote, and the matching method names neither spaces nor ']',
      all four values can be read back from the detail text. */
  lemma DetailRoundTrip(m: string, u: string, ms: seq<string>, p: string)
    requires All(m, IsNotCloseBracket) && All(u, IsNotQuote)
    requires |ms| >= 1
    requires forall i :: 0 <= i < |ms| ==> ' ' !in ms[i] && ']' !in ms[i]
    ensures DecodeDetail(Detail(m, u, ms, p)) == Some(DetailParts(m, u, ms, p))
  {
    var j := Join(ms, " ");
    var t6 := Closing + p;
    var t5 := j + t6;
    var t4 := BeforeMethods + t5;
    var t3 := u + t4;
    var t2 := AfterMethod + t3;
    var t1 := m + t2;
    var d := Opening + t1;
    DetailPieces(m, u, ms, p);
    JoinAvoids(ms, " ", ']');
    assert All(j, IsNotCloseBracket) by {
      forall k | 0 <= k < |j| ensures IsNotCloseBracket(j[k]) {
        assert j[k] in j;
      }
    }
    assert d[|Opening|..] == t1;
    SpanPrefix([], m, t2, IsNotCloseBracket);
    assert t2[|AfterMethod|..] == t3;
    SpanPrefix([], u, t4, IsNotQuote);
    assert t4[|BeforeMethods|..] == t5;
    SpanPrefix([], j, t6, IsNotCloseBracket);
    assert t6[|Closing|..] == p;
    assert DecodeDetail(d) == Some(DetailParts(m, u, SplitOn(j, ' '), p));
    SplitJoin(ms, ' ');
  }
}
