# Lookalike server: a Dafny model of its request rules

The server is a small Node.js HTTP server. It serves a static front end. It also answers `POST /api/lookalike`: it
takes a photo as a `data:image/...` URL plus a few optional hints, builds a text prompt for an
image-generation provider (Pollinations), and returns the generated picture as a base-64 data URL along
with a short note in the request's language (English or Korean).

The network, the file system and the provider are cut away. This project models the deterministic rules
that remain, in four modules:

- `Wrappers`: `Option` and `Result`.
- `Strings`: the JavaScript whitespace set and `String.prototype.trim`, prefix, suffix and substring
  tests, and `String(n)` for non-negative integers, together with its inverse.
- `Base64`: the encoding of section 4 of RFC 4648, which is what `Buffer.toString('base64')` produces.
  It comes with a decoder and a proof that decoding undoes encoding.
- `Server`, which covers:
  - start-up configuration;
  - the static content-type choice;
  - the request-body size ceiling, as a method looping over the arriving chunks;
  - normalisation and validation of the parsed JSON body;
  - the prompt builder;
  - the seed rule and the query sent to the provider;
  - shaping the provider's answer into an error message or a data URL and a note;
  - the whole POST handler, with the provider passed in as a function.

The handler takes the values that come from outside as parameters:

- The environment variables are `Option`s given to `LoadConfig`.
- `JSON.parse`, applied to the UTF-8 text of the body, is a function from bytes to `ParsedBody`.
- `Math.random()` is a real number in [0, 1).
- `fetch` is a function from the request the server builds to the provider's response. The response's `ok` flag is an input of its own. It is not derived from the status being in the range 200-299.

Two places where the code's behaviour differs from what a reader of its design would expect are modelled as
the code does it:

- A body that parses to JSON `null` is not rejected with 400. Reading `body.imageDataUrl` throws a
  `TypeError`, which the outer `catch` turns into a 500 carrying that error's message (`NullBody`,
  `Server.RequestErrorReply`).
- A body over 12 MiB rejects the read with `Payload too large`, which also ends in the outer `catch` as a 500.
  The connection has already been destroyed by then, so that reply may never arrive. The model states the
  reply the handler attempts, and that no provider call is made.

## Model

| member | source | states |
|---|---|---|
| Strings.Trim | server.js:140-144 | the result has no leading or trailing JavaScript whitespace and is no longer than the input |
| Strings.TrimStart | server.js:140-144 | the result is a suffix of the input; everything removed is white space; and the result is empty or starts with a non-white-space character |
| Strings.TrimEnd | server.js:140-144 | the result is a prefix of the input; everything removed is white space; and the result is empty or ends with a non-white-space character |
| Strings.TrimExact | server.js:140-144 | trimming whitespace + r + whitespace gives back r when r is already trimmed |
| Strings.TrimIdempotent | server.js:140-144 | trimming a trimmed string changes nothing |
| Strings.TrimBlank | server.js:140-144 | a string trims to empty exactly when it is all whitespace (the truthiness test on `trim()`) |
| Strings.DecimalString | server.js:85 | `String(n)` is non-empty, all digits, and has no leading zero unless n is 0 |
| Strings.DecimalRoundTrip | server.js:85 | reading the decimal text of n gives back n |
| Base64.Symbol | server.js:112 | each 6-bit value maps to an alphabet character that is not the pad and whose position is that value |
| Base64.Encode | server.js:112 | the encoding has 4 characters per started group of 3 bytes and only uses alphabet and pad characters |
| Base64.QuantumRoundTrip | server.js:112 | a full group of three bytes decodes back to those bytes |
| Base64.DecodeEncode | server.js:112 | decoding the encoding of any byte sequence gives back that sequence |
| Server.LoadConfig | server.js:9-10 | the model is the environment's value when that is non-empty and `flux` otherwise; the key is empty exactly when unset or empty |
| Server.FileContentType | server.js:25-30 | the type is one of the four content types, and a `.html` path, tested first, is always HTML; the full suffix dispatch is `FileContentTypeBySuffix` |
| Server.FileContentTypeBySuffix | server.js:25-30 | `.html`, `.css` and `.js` each give their own type exactly when the path ends with them, and every other path gives `application/octet-stream` |
| Server.Concat | server.js:45 | the joined body is as long as all the chunks together |
| Server.ReadRequestBody | server.js:32-48 | the read is rejected exactly when some running total passes 12 MiB, at the first chunk that does so; otherwise, when the stream ends, the body is all chunks in order and at most 12 MiB; a stream error is passed on |
| Server.TotalLengthMonotone | server.js:37 | a running total never exceeds a later one |
| Server.OverflowsIffTooLong | server.js:36-42 | some running total passes the ceiling exactly when the whole body does |
| Server.DefaultAnimal | server.js:142 | each language's default animal is non-empty and already trimmed |
| Server.DefaultTraits | server.js:145-147 | each language's default traits text is non-empty and already trimmed |
| Server.TrimmedOr | server.js:140-147 | an optional text is the trimmed string property when that is non-blank, and the default otherwise |
| Server.LangOf | server.js:138 | the language is English exactly when the `lang` property is the string `"en"` |
| Server.Truthy | server.js:139 | `Boolean` is false for an absent property, `null`, `false`, `0` and `""`, and true for any array or object |
| Server.Normalise | server.js:129-152 | an unparseable body fails with `InvalidJson`; `null` fails with `NullBody`; a body without a string `imageDataUrl` starting with `data:image/` fails with `MissingImage`; these are the only failures. On success the URL is the body's, lang is `En` exactly for `"en"`, reroll is the truthiness of `reroll`, and the request is well formed |
| Server.NormaliseTexts | server.js:140-147 | on success, `animalType` and `traitsText` are the trimmed inputs when those are strings with non-blank content, and the language's defaults otherwise |
| Server.RequestJsonFields | server.js:137-147 | every field of a request's JSON reads back as that field |
| Server.NormaliseFixpoint | server.js:137-147 | normalising the JSON of a well-formed request gives back that same request |
| Server.TraitsSentence | server.js:64-73 | the trimmed last template literal has no white space at either end |
| Server.BuildPrompt | server.js:50-75 | the prompt starts with the preamble of the request's language (lead-in, animal, style text and outfit reference); its full shape is `PromptShape` |
| Server.TraitsSentenceShape | server.js:64-73 | the trim on the last template literal only removes the space left after the traits when there is no variation |
| Server.PromptShape | server.js:50-75 | a prompt is the preamble of the language, the traits sentence, and, when rerolling, one space and the variation clause |
| Server.RerollAppendsVariation | server.js:52-74 | the reroll prompt is the first-generation prompt followed by a space and the language's variation clause |
| Server.PromptLayout | server.js:58-74 | the prompt is laid out as lead-in, animal, style text, outfit reference URL, traits label, traits and variation |
| Server.PromptMentions | server.js:58-74 | every prompt contains the outfit reference URL, the animal type and the traits text |
| Server.PromptLanguage | server.js:51-74 | an English prompt opens with the English lead-in and the animal; a Korean prompt opens with the animal and the Korean style text |
| Server.Seed | server.js:79 | the seed is 424242 without a reroll; with one it is the floor of random times 1000000, so it is below 1000000 |
| Server.QueryValueAt | server.js:81-90 | a query parameter's value is the one at its first occurrence |
| Server.QueryValueAbsent | server.js:90 | a name that never occurs has no value |
| Server.ProviderQuery | server.js:81-90 | the query has seven parameters, or eight with the key last when one is configured; it opens with the model, and the seed is the fourth |
| Server.ProviderQueryValues | server.js:81-90 | the query carries the model, width and height 1024, the seed in decimal, and the three `true` flags, plus the key exactly when one is configured |
| Server.BuildProviderRequest | server.js:90-96 | a bearer credential is sent exactly when an API key is configured, and it is that key; the header and the `key` query parameter carry the same value |
| Server.FirstGenerationDeterministic | server.js:78-92 | without a reroll the provider request does not depend on the random value, and its seed parameter is `424242` |
| Server.FirstSeedText | server.js:85 | the fixed seed's text is `424242` |
| Server.ErrorDetail | server.js:100 | the detail is the prefix of the error text of length min(260, length) |
| Server.ClassifyFailure | server.js:98-107 | a non-OK answer is an authentication failure exactly when its status is 401; otherwise it is a generic error with that status; either way the detail is the cut error text |
| Server.GenerationErrorMessage | server.js:101-107 | each message ends with the detail and is longer than it; the exact wording per kind is `FailureMessage` |
| Server.FailureMessage | server.js:98-108 | a message starts with the authentication-failed text exactly when the status is 401; any other status gives `Pollinations API error (<status>): <detail>` with a status that reads back; both messages end with the detail |
| Server.LastComma | server.js:120 | the index found holds a comma with no comma after it, and none means there is no comma |
| Server.DataUrl | server.js:120 | the URL starts with `data:`, ends with the base-64 text, and is 13 characters longer than the media type and the text together |
| Server.DataUrlRoundTrip | server.js:112-120 | the data URL of an encoding reads back as its media type and the encoded bytes |
| Server.ImageType | server.js:110 | the media type is the provider's content type when that is present and non-empty, and `image/jpeg` when it is absent or empty |
| Server.AnalysisTextContents | server.js:114-117 | the note starts with `Applied traits: ` exactly for English, names the traits and the animal, and ends with the animal and a full stop |
| Server.NoteLayout | server.js:116-117 | a note laid out as label, traits, separator, animal and full stop contains the traits and the animal and ends with the animal and the full stop |
| Server.AnalysisText | server.js:114-117 | the note opens with the English label for English and with the Korean label otherwise |
| Server.ShapeResponse | server.js:98-122 | a non-OK answer, and only that, becomes the classified error; an OK answer gives the data URL of the body's encoding under the image type, together with the note |
| Server.ShapedImageDecodes | server.js:110-120 | the returned image URL decodes to exactly the provider's bytes under its media type |
| Server.InternalError | server.js:181-183 | the outer catch replies 500 with the error's message when it is non-empty, and with `Internal Server Error` when it is empty |
| Server.RequestErrorReply | server.js:133-182 | an unparseable body gets 400 `Invalid JSON body`, a missing image URL 400 with its own message, and a `null` body 500 with the `TypeError` message |
| Server.HandleLookalike | server.js:127-162 | at most one provider call, made exactly when the body was read in full and normalised successfully; the status is 200, 400 or 500, and 200 exactly when a result is returned |
| Server.RejectedBeforeProvider | server.js:128-183 | an oversized body gives 500 `Payload too large`, a failed stream 500 with the stream's message, an unparseable body 400 `Invalid JSON body`, a `null` body 500 with the `TypeError` message, and a missing image URL 400 with its message; none of them, nor any other 400, calls the provider |
| Server.AcceptedCallsProviderOnce | server.js:154-183 | a valid request makes exactly the one provider call built from it; an OK answer gives 200 with an image URL that decodes to the provider's bytes and the note; a failed answer gives 500 with the classified message |

## Left out

- The HTTP server itself (`http.createServer`, `listen`, `HOST`, `PORT`, `sendJson`, `sendText`, routing on method and URL) is not modelled, because it is network I/O. The handler's reply is modelled as a status plus a JSON body value.
- The event-driven, asynchronous form of `readRequestBody` is not modelled. The chunks are a sequence, and the end or error of the stream is a parameter. `req.destroy()` is not modelled.
- Static file serving (server.js:165-180) is not modelled, because it depends on `path.normalize`, `path.join`, `process.cwd()` and the file system. Only its content-type choice is modelled.
- `fetch`, its headers and the request URL string are not modelled. `encodeURIComponent`, `URLSearchParams.toString` and the provider's base URL are left out as well. The model states the prompt, the ordered query parameters and the bearer credential that go into them.
- UTF-8 decoding of the body and `JSON.parse` are left out because they are library calls. They are a parameter of the handler, and the parsed value is a JSON datatype.
- `Math.random` is a parameter. Its product with 1000000 is exact real arithmetic, so rounding of floating-point numbers is not modelled.
- JSON numbers are reals. The truthiness of `NaN` does not arise, because `JSON.parse` never produces it.
- Property lookup reads only an object's own keys. Properties inherited through the prototype chain (a key such as `__proto__` or `constructor`) are not modelled.
- The message text for a `null` body follows V8's `TypeError` wording. Other engines word it differently.
- `Server.ErrorDetail`, `Strings.Trim`: lengths are counted in characters rather than UTF-16 code units. For text outside the Basic Multilingual Plane, the 260-character cut of `slice(0, 260)` can therefore fall elsewhere than JavaScript's.
- The provider call cannot fail in the model. In the code, `fetch`, `response.text()` and `response.arrayBuffer()` can each reject, for example on a network error, and the outer `catch` then replies 500 with that error's message. This error path is not modelled.
- A request stream that neither ends nor fails never settles in the code, because there is no time-out, and no reply is sent. Such a stream is not modelled: every chunk sequence is finite and ends with `Ended` or `Errored`.
- The response body is modelled both as text (`errorText`) and as bytes (`body`). Reading a body only once is not modelled.
- Logging at start-up is not modelled.
