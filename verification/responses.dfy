/**
 * How the client turns an HTTP response status into either the response
 * body or a `RequestException`. Each network call has its own if/elif
 * chain; the three chains are modelled as pure classifiers from the status
 * (and the opaque body) to a `Result`. The network calls themselves are
 * not modelled: a response is a status and a body.
 */
module Responses {

  import opened Options
  import opened Errors

  datatype Result<T> = Ok(value: T) | Err(error: RequestException)

  /** An HTTP response as the classifiers see it: its status and its (opaque) body. */
  datatype Response<B> = Response(status: int, body: B)

  const BadRequestMessage: string :=
    "A required parameter is missing, empty, or null. Or, the value passed to either a "
    + "required or optional parameter is invalid. A common reason is a header that's too "
    + "long. "

  /** The voice-list wording: it ends in a space. */
  const UnauthorizedMessage: string :=
    "The request is not authorized. Make sure your subscription key or token is valid and "
    + "in the correct region. "

  const RateLimitMessage: string :=
    "You have exceeded the quota or rate of requests allowed for your subscription."

  /** The voice-list wording: it ends in a space. */
  const BadGatewayMessage: string :=
    "There's a network or server-side problem. This status might also indicate invalid "
    + "headers. "

  const UnknownMessage: string := "Unknown error occurred."

  /** The synthesis wording of the 401 message: no trailing space. */
  const SynthesisUnauthorizedMessage: string :=
    "The request is not authorized. Make sure your subscription key or token is valid and "
    + "in the correct region."

  const UnsupportedMediaMessage: string :=
    "It's possible that the wrong Content-Type value was provided. Content-Type should be "
    + "set to application/ssml+xml."

  /** The synthesis wording of the 502 message: no trailing space. */
  const SynthesisBadGatewayMessage: string :=
    "There's a network or server-side problem. This status might also indicate invalid "
    + "headers."

  const TokenFailureMessage: string := "Failed to get access token. Please try again later."

  /**
   * `get_voice_list`: 200 yields the decoded body; 400, 401, 429 and 502
   * each raise with their own message; every other status raises with the
   * generic message. The error always carries the response status.
   */
  function ClassifyVoiceList<B>(status: int, body: B): (r: Result<B>)
    ensures r.Ok? <==> status == 200
    ensures r.Ok? ==> r.value == body
    ensures r.Err? ==> r.error.statusCode == status
    ensures r.Err? && status !in {400, 401, 429, 502} ==> r.error.message == UnknownMessage
  {
    if status == 200 then Ok(body)
    else if status == 400 then Err(RequestException(status, BadRequestMessage))
    else if status == 401 then Err(RequestException(status, UnauthorizedMessage))
    else if status == 429 then Err(RequestException(status, RateLimitMessage))
    else if status == 502 then Err(RequestException(status, BadGatewayMessage))
    else Err(RequestException(status, UnknownMessage))
  }

  /**
   * `get_access_token`: 200 yields the body text unchanged; every other
   * status raises with the one token-failure message.
   */
  function ClassifyToken(status: int, body: string): (r: Result<string>)
    ensures r.Ok? <==> status == 200
    ensures r.Ok? ==> r.value == body
    ensures r.Err? ==> r.error == RequestException(status, TokenFailureMessage)
  {
    if status == 200 then Ok(body)
    else Err(RequestException(status, TokenFailureMessage))
  }

  /**
   * The status dispatch of `write_to_fp`: the voice-list chain with a 415
   * case added and the 401 and 502 messages worded without a trailing space.
   */
  function ClassifySynthesis<B>(status: int, body: B): (r: Result<B>)
    ensures r.Ok? <==> status == 200
    ensures r.Ok? ==> r.value == body
    ensures r.Err? ==> r.error.statusCode == status
    ensures r.Err? && status !in {400, 401, 415, 429, 502} ==> r.error.message == UnknownMessage
  {
    if status == 200 then Ok(body)
    else if status == 400 then Err(RequestException(status, BadRequestMessage))
    else if status == 401 then Err(RequestException(status, SynthesisUnauthorizedMessage))
    else if status == 415 then Err(RequestException(status, UnsupportedMediaMessage))
    else if status == 429 then Err(RequestException(status, RateLimitMessage))
    else if status == 502 then Err(RequestException(status, SynthesisBadGatewayMessage))
    else Err(RequestException(status, UnknownMessage))
  }

  /**
   * A status table as an independent reference: 200 succeeds with the body,
   * a status in the table fails with its entry, any other status fails with
   * the generic message.
   */
  function ByTable<B>(table: map<int, string>, status: int, body: B): (r: Result<B>)
    requires 200 !in table
    ensures r.Ok? <==> status == 200
    ensures r.Err? ==> r.error.statusCode == status
  {
    if status == 200 then Ok(body)
    else if status in table then Err(RequestException(status, table[status]))
    else Err(RequestException(status, UnknownMessage))
  }

  const VoiceListTable: map<int, string> := map[
    400 := BadRequestMessage,
    401 := UnauthorizedMessage,
    429 := RateLimitMessage,
    502 := BadGatewayMessage]

  const SynthesisTable: map<int, string> := map[
    400 := BadRequestMessage,
    401 := SynthesisUnauthorizedMessage,
    415 := UnsupportedMediaMessage,
    429 := RateLimitMessage,
    502 := SynthesisBadGatewayMessage]

  /** The voice-list chain is exactly the lookup in its status table. */
  lemma VoiceListIsTable<B>(status: int, body: B)
    ensures ClassifyVoiceList(status, body) == ByTable(VoiceListTable, status, body)
  {
  }

  /** The synthesis chain is exactly the lookup in its status table. */
  lemma SynthesisIsTable<B>(status: int, body: B)
    ensures ClassifySynthesis(status, body) == ByTable(SynthesisTable, status, body)
  {
  }

  /**
   * The synthesis table is the voice-list table with 415 added and the 401
   * and 502 entries each shorn of their trailing space.
   */
  lemma SynthesisTableFromVoiceList()
    ensures SynthesisTable.Keys == VoiceListTable.Keys + {415}
    ensures SynthesisTable[401] + " " == VoiceListTable[401]
    ensures SynthesisTable[502] + " " == VoiceListTable[502]
    ensures forall s :: s in VoiceListTable && s != 401 && s != 502 ==> SynthesisTable[s] == VoiceListTable[s]
  {
  }

  /**
   * Synthesis and voice listing classify every status alike except 415
   * (generic for the voice list, Content-Type for synthesis) and 401 and 502
   * (whose voice-list messages carry one more, trailing, space).
   */
  lemma SynthesisDiffersFromVoiceList<B>(status: int, body: B)
    ensures status !in {401, 415, 502} ==> ClassifySynthesis(status, body) == ClassifyVoiceList(status, body)
    ensures status == 415 ==>
      && ClassifyVoiceList(status, body) == Err(RequestException(415, UnknownMessage))
      && ClassifySynthesis(status, body) == Err(RequestException(415, UnsupportedMediaMessage))
    ensures status in {401, 502} ==>
      ClassifySynthesis(status, body).error.message + " " == ClassifyVoiceList(status, body).error.message
  {
  }

  /** The voice-list messages are pairwise distinct, and so are the synthesis ones. */
  lemma MessagesDistinct<B>(s1: int, s2: int, b1: B, b2: B)
    requires s1 != s2
    ensures ClassifyVoiceList(s1, b1).Err? && ClassifyVoiceList(s2, b2).Err?
      && ClassifyVoiceList(s1, b1).error.message == ClassifyVoiceList(s2, b2).error.message
      ==> s1 !in VoiceListTable && s2 !in VoiceListTable
    ensures ClassifySynthesis(s1, b1).Err? && ClassifySynthesis(s2, b2).Err?
      && ClassifySynthesis(s1, b1).error.message == ClassifySynthesis(s2, b2).error.message
      ==> s1 !in SynthesisTable && s2 !in SynthesisTable
  {
  }

  /** The value of the Authorization header sent with a synthesis request. */
  function Authorization(token: string): (h: string)
    ensures |h| == |token| + 7
    ensures h[..7] == "Bearer "
    ensures h[7..] == token
  {
    "Bearer " + token
  }

  /** What a synthesis POST carries that this model follows: the bearer value and the SSML body. */
  datatype SynthesisRequest = SynthesisRequest(authorization: string, data: string)

  /**
   * `write_to_fp`: first the token call, then the synthesis POST. A token
   * failure is the outcome and the synthesis endpoint is never asked;
   * otherwise the POST carries "Bearer " and the token, and the SSML text as
   * its body, and its response is classified by the synthesis chain.
   * `post` stands for the remote service.
   */
  function WriteToFp<B>(token: Response<string>, ssml: string, post: SynthesisRequest -> Response<B>): (r: Result<B>)
    ensures token.status != 200 ==> r == Err(RequestException(token.status, TokenFailureMessage))
    ensures token.status == 200 ==>
      var resp := post(SynthesisRequest("Bearer " + token.body, ssml));
      r == ClassifySynthesis(resp.status, resp.body)
  {
    match ClassifyToken(token.status, token.body)
    case Err(e) => Err(e)
    case Ok(t) =>
      var resp := post(SynthesisRequest(Authorization(t), ssml));
      ClassifySynthesis(resp.status, resp.body)
  }

  /** When the token call fails, what the synthesis endpoint would answer makes no difference. */
  lemma TokenFailureShortCircuits<B>(token: Response<string>, ssml: string,
                                     post1: SynthesisRequest -> Response<B>, post2: SynthesisRequest -> Response<B>)
    requires token.status != 200
    ensures WriteToFp(token, ssml, post1) == WriteToFp(token, ssml, post2)
    ensures WriteToFp(token, ssml, post1).Err? && WriteToFp(token, ssml, post1).error.statusCode == token.status
  {
  }

  /**
   * Synthesis succeeds exactly when both calls answer 200, and then it
   * yields the synthesis body as the service returned it.
   */
  lemma WriteToFpSucceeds<B>(token: Response<string>, ssml: string, post: SynthesisRequest -> Response<B>)
    ensures WriteToFp(token, ssml, post).Ok? <==>
      token.status == 200 && post(SynthesisRequest(Authorization(token.body), ssml)).status == 200
    ensures WriteToFp(token, ssml, post).Ok? ==>
      WriteToFp(token, ssml, post).value == post(SynthesisRequest(Authorization(token.body), ssml)).body
  {
  }

  /** Distinct tokens give distinct Authorization values. */
  lemma BearerCarriesToken(token: string)
    ensures forall t :: Authorization(t) == Authorization(token) ==> t == token
  {
  }
}
