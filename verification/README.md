# AzureTTS request logic in Dafny

A model of the deterministic part of the AzureTTS client (`AzureTTS/request.py`),
a thin asynchronous wrapper around the Microsoft Azure Text-to-Speech REST API.
The client builds an SSML document from four strings. It lists voices, obtains a
bearer token and posts SSML for synthesis. It turns every non-200 HTTP status into
a `RequestException(status_code, message)`. The network calls are not modelled.
What is modelled is what they decide on their own:

- `Ssml` — `MicrosoftTTS.create_ssml`. It is a fixed skeleton into which the
  language tag (twice), the gender, the voice name and the text are spliced
  verbatim, with no escaping. Between the `xml:gender` attribute and `name=`, the
  skeleton holds a line break followed by sixteen spaces. That is how the string
  literal is laid out in the code, and the model keeps it character for character.
  The wire format is often described with a single space there. This model follows
  the code.
- `Responses` — the three status dispatch chains, as pure classifiers from a
  status and an opaque body to `Result`:
  - the voice list: 200, 400, 401, 429, 502, else;
  - token issuance: 200, else;
  - synthesis: the voice-list chain plus 415, with 401 and 502 messages that lack
    the voice-list wording's trailing space.

  `write_to_fp` becomes a composition: the token call runs first, and its failure
  is the outcome. Otherwise the synthesis POST carries `"Bearer " + token`. The
  remote service is a function parameter, `post`.
- `Errors` — `RequestException` as an immutable two-field value, and its `__str__`
  as `Str`. `ParseStr` is an inverse: the status and the message are read back
  from the rendering.
- `Options` — the optional value returned by the parsers.
- `Decimal` — Python's `str(int)`, which `__str__` uses for the status code, and
  its inverse `ParseInt`.

## Model

| member | source | states |
|---|---|---|
| `Ssml.CreateSsml` | AzureTTS/request.py:70-73 | The document's length is the lengths of text, gender and name, twice the language length, and 106 skeleton characters. It starts with `<speak version='1.0' xml:lang='` and ends with `</voice></speak>`. The text appears verbatim immediately before `</voice>`. |
| `Ssml.ExtractCreated` | AzureTTS/request.py:71-73 | Given the language, gender and name, the text is recovered unchanged from the document: nothing is escaped or altered. |
| `Ssml.ExtractedIsCreated` | AzureTTS/request.py:71-73 | Every document with that header and the closing tags is exactly `create_ssml` of the text between them. With `ExtractCreated`, this characterises the documents `create_ssml` builds. |
| `Ssml.CreateSsmlInjectiveInText` | AzureTTS/request.py:72-73 | For a fixed language, gender and name, distinct texts give distinct documents. |
| `Ssml.OpeningSlots` | AzureTTS/request.py:72 | The document opens with `<speak version='1.0' xml:lang='`, then `lang`, then `'><voice xml:lang='`, then `lang` again, then `' xml:gender='`, each at the position the language length fixes. |
| `Ssml.GenderNameSeparator` | AzureTTS/request.py:72-73 | Right after the gender value come a quote, a line break, sixteen spaces, `name='` and then the name, at a position fixed by the lengths of the language and the gender. |
| `Ssml.MarkupCount` | AzureTTS/request.py:72-73 | Each character's count in the document is its count in the skeleton, plus its counts in text, gender and name, plus twice its count in the language tag. The arguments go in unescaped. |
| `Ssml.SafeMarkup` | AzureTTS/request.py:72-73 | If no argument contains `<`, `>`, `&` or `'`, then every occurrence of those characters in the document comes from the skeleton. |
| `Ssml.ClosingSlots` | AzureTTS/request.py:73 | Right after the name come `'>`, then the text verbatim, then `</voice></speak>` to the end. Together with `OpeningSlots` and `GenderNameSeparator`, this fixes every character of the document. |
| `Ssml.UnescapedAmbiguity` | AzureTTS/request.py:72-73 | Because nothing is escaped, two different argument tuples can give the same document. For example, `'>` moved from the end of the name to the front of the text. |
| `Responses.ClassifyVoiceList` | AzureTTS/request.py:38-68 | 200 is the only success, and it returns the body unchanged. Every error carries the response status. Any status other than 400, 401, 429 and 502 (415 included) gets "Unknown error occurred.". |
| `Responses.VoiceListIsTable` | AzureTTS/request.py:38-68 | The voice-list chain equals a lookup in the table {400, 401, 429, 502}, each mapped to its fixed message, with the generic message as the default. |
| `Responses.ClassifyToken` | AzureTTS/request.py:82-88 | 200 returns the body text unchanged. Every other status fails with that status and the single message "Failed to get access token. Please try again later.". |
| `Responses.ClassifySynthesis` | AzureTTS/request.py:103-139 | 200 is the only success, and it returns the body. Every error carries the response status. Statuses outside {400, 401, 415, 429, 502} get the generic message. |
| `Responses.SynthesisIsTable` | AzureTTS/request.py:103-139 | The synthesis chain equals a lookup in its own table of five statuses, with the generic message as the default. |
| `Responses.SynthesisTableFromVoiceList` | AzureTTS/request.py:105-134 | The synthesis table is the voice-list table plus 415. Its 401 and 502 entries are the voice-list ones without their trailing space. |
| `Responses.SynthesisDiffersFromVoiceList` | AzureTTS/request.py:103-139 | Synthesis and voice listing agree on every status except three. At 415, voice listing gives the generic error and synthesis the Content-Type error. At 401 and 502, the voice-list message is the synthesis message plus one space. |
| `Responses.MessagesDistinct` | AzureTTS/request.py:38-68 | Two different statuses share a message only in the generic case, in the voice-list chain and in the synthesis chain alike. |
| `Responses.Authorization` | AzureTTS/request.py:96 | The Authorization value is `Bearer ` followed by the token, unchanged. |
| `Responses.BearerCarriesToken` | AzureTTS/request.py:96 | Distinct tokens give distinct Authorization values, so the service receives the token unaltered. |
| `Responses.WriteToFp` | AzureTTS/request.py:90-139 | If the token status is not 200, the outcome is the token error. Otherwise it is the synthesis classification of the service's answer to a POST carrying `Bearer <token>` and the SSML text. |
| `Responses.TokenFailureShortCircuits` | AzureTTS/request.py:96 | When the token call fails, the service's answer to the synthesis POST makes no difference, and the error carries the token status. |
| `Responses.WriteToFpSucceeds` | AzureTTS/request.py:96-104 | Synthesis succeeds exactly when both calls answer 200, and it then returns the synthesis body. |
| `Errors.Str` | AzureTTS/request.py:16-17 | The rendering is the decimal status, `, ` and then the message, which ends the string unchanged. Its first comma comes right after the status digits. |
| `Errors.StrRoundTrip` | AzureTTS/request.py:5-17 | Both constructor fields survive rendering: the status and the message are read back, even when the message contains commas. |
| `Errors.StrInjective` | AzureTTS/request.py:13-17 | Two exceptions render alike only when their status and message are both equal. |
| `Decimal.IntToString` | AzureTTS/request.py:17 | The status renders as a non-empty string. It has a leading `-` exactly for negative values, and the rest is decimal digits with no leading zero (a lone `0` for zero). It contains no comma or space. |
| `Decimal.IntToStringRoundTrip` | AzureTTS/request.py:17 | Every integer status reads back from its decimal rendering. |

## Left out

- Network I/O is not modelled: aiohttp sessions, the GET and POST calls, their URLs and headers (subscription key, Content-Type, output format), and decoding of JSON, text and byte bodies. A response is a status plus an opaque body, and the synthesis service is a function parameter.
- Async/await scheduling is not modelled. The code coordinates nothing concurrently on its own.
- `_content_length` in `write_to_fp` is not modelled. It is computed and never used.
- Responses.ClassifySynthesis: on 200 the code returns `resp.read()` without awaiting it, that is, a pending read rather than the bytes. This model returns the body.
- Errors raised by the HTTP stack itself (DNS, TLS, timeouts) are not modelled. They pass through unclassified.
- `MicrosoftTTS.__init__` only stores the key and a fixed base URL, which are used only by the network calls.
- A streaming variant of the client (chunked writes into a sink, no token) exists and is not modelled.
- `setup.py` is packaging metadata and is not modelled.
