/**
 * The client's single error value: an HTTP status code paired with a fixed,
 * human-readable message. Its two fields are set once, at construction, and
 * never changed, so it is a value here.
 */
module Errors {

  import opened Options
  import opened Decimal

  datatype RequestException = RequestException(statusCode: int, message: string)

  /** The position of the first `c` in `s`, if any. */
  function IndexOf(s: string, c: char): (r: Option<nat>)
    ensures r.Some? ==> r.value < |s| && s[r.value] == c
    ensures r.Some? ==> forall k :: 0 <= k < r.value ==> s[k] != c
    ensures r.None? ==> forall k :: 0 <= k < |s| ==> s[k] != c
  {
    if s == [] then None
    else if s[0] == c then Some(0)
    else match IndexOf(s[1..], c)
      case None => None
      case Some(i) => Some(i + 1)
  }

  /**
   * `str(e)`: the status code in decimal, a comma and a space, then the
   * message exactly as stored.
   */
  function Str(e: RequestException): (s: string)
    ensures |s| == |IntToString(e.statusCode)| + 2 + |e.message|
    ensures s[|s| - |e.message|..] == e.message
    ensures IndexOf(s, ',') == Some(|IntToString(e.statusCode)|)
  {
    var code := IntToString(e.statusCode);
    var s := code + ", " + e.message;
    assert s[|code|] == ',';
    FirstCommaAt(s, |code|);
    s
  }

  lemma FirstCommaAt(s: string, i: nat)
    requires i < |s| && s[i] == ','
    requires forall k :: 0 <= k < i ==> s[k] != ','
    ensures IndexOf(s, ',') == Some(i)
  {
  }

  /**
   * Splits a rendered error at its first comma: the part before must be
   * an integer in decimal, and the comma must be followed by a space.
   */
  function ParseStr(s: string): (r: Option<RequestException>)
    ensures r.Some? ==> |s| >= |r.value.message| + 3
  {
    match IndexOf(s, ',')
    case None => None
    case Some(i) =>
      if i + 1 < |s| && s[i + 1] == ' ' then
        match ParseInt(s[..i])
        case None => None
        case Some(code) => Some(RequestException(code, s[i + 2..]))
      else None
  }

  /**
   * Rendering keeps both fields intact: the status code and the message
   * (which may itself contain commas) are recovered from `str(e)`.
   */
  lemma StrRoundTrip(e: RequestException)
    ensures ParseStr(Str(e)) == Some(e)
  {
    var code := IntToString(e.statusCode);
    var s := Str(e);
    assert s[..|code|] == code;
    assert s[|code| + 2..] == e.message;
    IntToStringRoundTrip(e.statusCode);
  }

  /** Two errors render alike only when they are the same error. */
  lemma StrInjective(e1: RequestException, e2: RequestException)
    requires Str(e1) == Str(e2)
    ensures e1 == e2
  {
    StrRoundTrip(e1);
    StrRoundTrip(e2);
  }
}
