# AI image generator: a verified model

This project is a Dafny model of the core of a small AI image generator. The
system has three parts:

- **The generator page** (`frontend/script.js`). It checks the prompt the user
  typed and colours the character counter. It refuses a second request while
  one is running. It asks the proxy for an image and shows the result in a
  gallery capped at ten images. It keeps the ten newest images in the
  browser's `localStorage` under `generatedImages` and loads them back when
  the page opens.
- **The client-side account pages** (`frontend/auth.js`). They validate the
  signup and login forms, both on submit and field by field. Signup stores
  one user record in `localStorage` with the password passed through
  `btoa`. Login compares the typed credentials with that record, decoding
  the password with `atob`.
- **The proxy server** (`backend/server.js`). It is an Express application
  with a health route, a `POST /generate` route that forwards a trimmed
  prompt to the upstream image API and returns the image as a base64
  `data:` URI, a styles list, an error middleware and a 404 fallback.

The modules follow that structure:

- `Options` (`options.dfy`) holds the option type.
- `JsText` (`jstext.dfy`) models JavaScript's `String.prototype.trim`
  (ECMAScript white space and line terminators), truthiness of a form field,
  and decimal rendering of a status code.
- `Base64` (`base64.dfy`) models the alphabet and padding of section 4 of
  RFC 4648, and the browser's `btoa`/`atob` over Latin-1 strings.
- `Storage` (`storage.dfy`) models `localStorage` as a class over a map from
  keys to the values written there, classified by the writer.
- `Gallery` (`gallery.dfy`) models `script.js`. The page's globals and its
  gallery are fields of the class `GeneratorPage`.
- `Auth` (`auth.dfy`) models the validators and the signup and
  login handlers.
- `Server` (`server.dfy`) models the route handlers as functions from a
  request and the upstream API's answer to a response. It also models the
  order in which Express tries the middleware and routes.

The network, the clock, the API key from the environment and the existence
of static files are parameters. The upstream API's answer is one of three
things: the image bytes, an HTTP error with its body text, or a thrown
error.

The success response echoes the prompt as the client sent it; only the
copy forwarded upstream is trimmed (`backend/server.js:60` against `:77`).
See `Server.EchoIsUntrimmed`.

## Model

| member | source | states |
|---|---|---|
| JsText.Trim | backend/server.js:47 | The trimmed string is the slice of the input between its leading and trailing white space. Everything removed is white space. The result neither starts nor ends with white space. It is empty exactly when the input is all white space. |
| JsText.TrimOfTrimmed | backend/server.js:60 | Trimming a string that is already trimmed leaves it unchanged, so the proxy's trim of a prompt the page already trimmed is a no-op. |
| JsText.TrimStripsPadding | frontend/auth.js:335 | Any white-space padding around a non-empty trimmed core is removed exactly, and the core comes back. |
| JsText.Decimal | backend/server.js:67 | A status code is rendered with decimal digits only and no leading zero, and parsing the digits gives the number back. |
| Base64.Encode | backend/server.js:73 | The base64 text of n bytes has 4·⌈n/3⌉ characters. |
| Base64.DecodeEncode | backend/server.js:73 | Decoding the base64 encoding of any byte sequence gives the bytes back. |
| Base64.EncodeDecode | backend/server.js:73 | Every string the strict decoder accepts is exactly the encoding of what it decodes to, so the encoding is canonical. |
| Base64.Btoa | frontend/auth.js:60 | `btoa` succeeds exactly when every character is at most U+00FF. |
| Base64.AtobBtoa | frontend/auth.js:102 | `btoa(p)` is `e` if and only if `atob(e)` is `p`. A stored password therefore decodes to the typed password exactly when it was encoded from it. |
| Gallery.CounterColourFor | frontend/script.js:44-56 | The counter is red exactly above 500 characters, amber exactly from 301 to 500, and grey exactly up to 300. |
| Gallery.CounterColourMonotone | frontend/script.js:49-55 | A longer prompt never gets a milder counter colour. |
| Gallery.CheckPrompt | frontend/script.js:74-84 | The prompt is refused as empty exactly when it trims to nothing. It is refused as short exactly when it trims to 1 to 9 characters. Otherwise it is accepted as the trimmed text. |
| Gallery.SavedList | frontend/script.js:246-253 | Saving puts the new item first and keeps at most ten items. The rest are the first nine previously saved items. When fewer than ten were saved, nothing is dropped. |
| Gallery.GalleryAfterAdd | frontend/script.js:169-174 | A gallery of at most ten shown images gets the new image in front, loses its last image if it now holds eleven, and stays within ten. |
| Gallery.GalleryAfterLoadReverses | frontend/script.js:263-265 | Loading the saved list one item at a time at the front leaves the first ten of the reversed list followed by the previous gallery. |
| Gallery.SavedAfterKeepsNewest | frontend/script.js:248-253 | After a run of saves, the stored list is the newly saved items, newest first, followed by the earlier list, cut to ten. |
| Gallery.ElevenSavesDropTheFirst | frontend/script.js:252 | After eleven saves into an empty store, the first item saved is no longer stored. |
| Gallery.GenerationKeepsGalleryInStep | frontend/script.js:117-118 | When the gallery shows the saved list's first ten items, a successful generation keeps the two in step. |
| Gallery.ReloadThenGenerateDiverges | frontend/script.js:263-265 | With ten distinct saved images, a reload followed by one generation leaves the gallery showing the oldest of them, which is no longer saved. It no longer shows the newest of them, which is still saved. |
| Gallery.LoadNewestFirstShowsSavedOrder | frontend/script.js:263-265 | Loading from the end of the saved list shows the saved list's first ten items in saved order. |
| Gallery.Interpret | frontend/script.js:109-121 | A reply is shown only when it is ok and carries a truthy image. Otherwise the page reports the server's error, or the fixed message when the reply carries none. A failed request reports the failure message. |
| Gallery.GeneratorPage.constructor | frontend/script.js:2-3 | A page starts with no images, no request running and an empty gallery. |
| Gallery.GeneratorPage.AddToGallery | frontend/script.js:158-175 | The gallery becomes `GalleryAfterAdd` of the old gallery, and nothing else on the page changes. |
| Gallery.GeneratorPage.SaveToLocalStorage | frontend/script.js:246-256 | The in-memory list becomes `SavedList`. The store holds it under `generatedImages` unless the write fails, in which case the error is reported and the store is unchanged. |
| Gallery.GeneratorPage.LoadSavedImages | frontend/script.js:258-271 | A stored list replaces the in-memory list, and the gallery becomes `GalleryAfterLoad` of it, the reversed order. A missing entry leaves the page and the store unchanged. An unparseable entry leaves the page unchanged and is removed from the store. |
| Gallery.GeneratorPage.LoadSavedImagesNewestFirst | frontend/script.js:258-271 | The corrected load: on an empty gallery, the gallery becomes the stored list's first ten items in stored order. |
| Gallery.GeneratorPage.BeginGeneration | frontend/script.js:73-91 | The prompt check runs before the busy guard. A refused prompt or a running request starts nothing. Otherwise the trimmed prompt becomes pending and the busy flag is set. |
| Gallery.GeneratorPage.FinishGeneration | frontend/script.js:93-129 | A shown reply is added to the gallery and saved. Any other reply changes neither. Either way the busy flag is cleared. |
| Gallery.GeneratorPage.GenerateImage | frontend/script.js:73-130 | The start is decided as in `BeginGeneration`: a refused prompt is reported first, then a running request gives Busy, else the trimmed prompt starts. Nothing but a start changes the gallery, the saved list or the store. A started generation adds the shown image (with the trimmed prompt) to the gallery and the saved list, writes the store unless the write fails, and reports the outcome; any other reply changes nothing and reports the failure. The busy state ends as it began. |
| Auth.IsValidEmail | frontend/auth.js:191-194 | An email is accepted if and only if it splits as atom `@` atom `.` atom, where no atom is empty or contains white space or `@`; this is a whole-string match of the regular expression, proved against a left-to-right scan at the first `@`. |
| Auth.ValidEmailHasOneAt | frontend/auth.js:192 | An accepted email contains exactly one `@`. |
| Auth.ValidEmailHasNoSpace | frontend/auth.js:192 | An accepted email contains no white space. |
| Auth.SignupFlagsMeaning | frontend/auth.js:129-166 | Each field is flagged if and only if its own check fails. The flags come in form order, and there are none exactly when the form is valid. |
| Auth.ValidateSignupForm | frontend/auth.js:129-166 | The method returns exactly the flags `SignupFlags` names, and reports validity exactly when the form is valid. |
| Auth.ValidateLoginForm | frontend/auth.js:169-188 | The email is flagged if and only if it is invalid, and the password if and only if it is empty. The form is valid exactly when neither is flagged. |
| Auth.ValidateField | frontend/auth.js:334-377 | For each field id, the live check reports that field's own message exactly when the trimmed value fails that field's rule. The confirmation is compared with the untrimmed password. Other ids never report. |
| Auth.PasswordFieldStricterThanForm | frontend/auth.js:357-361 | A password the live check accepts has at least six characters as typed, so it passes the submit check's password-length test (`frontend/auth.js:148`). |
| Auth.PaddedPasswordPassesFormOnly | frontend/auth.js:357-361 | A three-character password padded with spaces to seven characters passes the submit check's password-length test (`frontend/auth.js:148`) but fails the live check. |
| Auth.PaddedEmailPassesFieldOnly | frontend/auth.js:351-355 | A valid email with surrounding spaces passes the live check and fails the submit check. |
| Auth.PaddedPasswordNeverConfirmedByField | frontend/auth.js:363-368 | When the password has surrounding white space, no confirmation value passes the live check. |
| Auth.HandleSignup | frontend/auth.js:37-76 | An invalid form changes nothing. A password `btoa` cannot encode stores nothing. Otherwise the user record with the encoded password and the logged-in flag are written. |
| Auth.HandleLogin | frontend/auth.js:79-126 | An invalid form changes nothing. Otherwise the outcome and the writes are those of `LoginVerdict` and `LoginEffect` on the stored record. |
| Auth.SignupThenLogin | frontend/auth.js:97-102 | After a signup succeeds, logging in with the same email and password succeeds. |
| Auth.SecondSignupLocksOutFirst | frontend/auth.js:57-64 | A second signup overwrites the single record, after which the first user's credentials are rejected. |
| Auth.LoginNeedsMatchingRecord | frontend/auth.js:102 | A login succeeds only if the stored email equals the typed one and the stored password decodes to the typed one. |
| Auth.LoginEffectWrites | frontend/auth.js:102-123 | A successful login sets the logged-in flag, and sets the remember flag when it was ticked. Every other key is left as it was. Any other outcome writes nothing. |
| Server.Generate | backend/server.js:38-87 | A request is sent upstream exactly when the key is set and the prompt is a non-blank string, and what is sent is the key and the trimmed prompt. The handler throws exactly when the key is set and the prompt is a truthy non-string. |
| Server.ShapeReply | backend/server.js:63-86 | Delivered bytes give status 200 and the image body: the `data:` URI of the bytes, the untrimmed prompt and the clock's time. An upstream HTTP error keeps its own status, with the error text "API call failed: ", the decimal status, a space and the status text, and the upstream body as `details`. A thrown upstream error gives a 500 with its message. Status 200 comes back exactly for delivered bytes or an upstream error carrying 200. |
| Server.MissingKeyComesFirst | backend/server.js:41-45 | Without a key, every request gets the 500 configuration error, whatever its body, and nothing is sent. |
| Server.BlankPromptRejected | backend/server.js:47-49 | With a key, a missing, falsy or blank prompt gets the 400 error and nothing is sent. |
| Server.StyleAndSizeIgnored | backend/server.js:39-61 | The exchange does not depend on `style` or `size`. |
| Server.UnsentIgnoresUpstream | backend/server.js:41-49 | When nothing is sent, the upstream API's behaviour does not matter. |
| Server.UpstreamErrorForwarded | backend/server.js:63-69 | An upstream HTTP error is forwarded with its own status. The `error` text is "API call failed: " followed by the status in decimal, a space and the status text, and the status can be read back from it. The `details` field is the upstream body text, unchanged. |
| Server.DataUri | backend/server.js:73 | The image URI is the `data:image/png;base64,` prefix followed by the base64 text, four characters for each started group of three bytes. |
| Server.ImageRoundTrip | backend/server.js:72-76 | The image the proxy returns decodes to exactly the bytes the upstream API delivered. |
| Server.SuccessShape | backend/server.js:72-79 | A delivered image gives status 200 with the `data:image/png;base64,` URI of the bytes, the prompt as received and the clock's time. |
| Server.EchoIsUntrimmed | backend/server.js:60-77 | The success body echoes the prompt as received, while the trimmed prompt is what goes upstream. |
| Server.ThrownIsInternalError | backend/server.js:80-86 | A thrown upstream error gives a 500 with the internal-error text and the error's message. |
| Server.Health | backend/server.js:29-35 | Health is 200 with status "ok" and the clock's time. It reports "configured" exactly when the key is set, and "missing" exactly when it is not. |
| Server.Styles | backend/server.js:97-106 | Styles is 200 with the four styles realistic, artistic, cartoon and abstract, in that order. |
| Server.Route | backend/server.js:19-120 | Requests are dispatched in registration order: preflight, body-parser error, static file, health, generate, alias, styles. For each endpoint the contract states exactly when a request reaches it: its own test holds and no earlier one does. A request reaches the 404 handler exactly when none of them applies. |
| Server.Handle | backend/server.js:108-120 | Every route except static files and the alias yields an exchange. Only the generate route sends anything upstream. |
| Server.UnmatchedIsNotFound | backend/server.js:118-120 | An unmatched request gets the 404 "Endpoint not found" body. |
| Server.HealthPathVariants | backend/server.js:29 | Route matching ignores ASCII case and one trailing slash, but not extra characters. |

## Left out

- `frontend/auth-modal.js` is not part of this model. It holds the modal UI and redirects.
- DOM work is not modelled: rendering results, the image viewer, toggling buttons and spinners, field error styling, alerts, `togglePassword`, `clearPrompt` and the Ctrl+Enter shortcut. The model keeps only what those functions store or decide.
- Downloading images and building PDFs (jsPDF) are not modelled. They only read the current image.
- The `setTimeout` delays in signup and login are collapsed into the handler. `generateImage` is split at its `await` into `BeginGeneration` and `FinishGeneration`, so that the busy guard can be observed.
- Dates are opaque strings passed in by the caller: `toISOString`, `formatDate` and the relative-time display are not modelled.
- String lengths count Unicode characters. JavaScript counts UTF-16 code units, so text outside the Basic Multilingual Plane counts differently.
- Base64.Atob: accepts only canonical encodings. The browser's forgiving decode (white space, missing padding, non-zero trailing bits) is not modelled. Stored passwords always come from `btoa`, so they are canonical.
- Storage: stored values are classified by the code that wrote them. Text that parses as some other JSON value is treated as unparseable. In `loadSavedImages` the source would first assign such a value to the global list and then fail in `forEach`. In `handleLogin`, JSON that is not a record would be compared like one.
- Saved image items whose fields are not strings are not modelled.
- A failing `localStorage.setItem` (quota exceeded) is modelled for the image list only. The small writes of the account pages are assumed to succeed.
- Server.Generate: a truthy non-string prompt makes the handler throw (`Threw`). What Express then sends depends on its version, so no response is stated for it.
- The `/generate-image` alias re-enters Express's internal router with a no-op fallback. Its response depends on framework internals, so `Server.Handle` gives no exchange for it.
- Static files: only whether a file exists at the path is a parameter. Their contents are not modelled.
- CORS headers, body-size limits, URL-encoded bodies, percent-decoding and query strings are not modelled. Paths are already-split path names. Case-insensitive matching is ASCII only, which is exact for these ASCII routes.
- The upstream response body is a given string. UTF-8 decoding of the bytes is not modelled.
- Gallery.GalleryAfterAdd and Gallery.GeneratorPage.AddToGallery assume the gallery container starts with no child nodes. `addToGallery` counts `gallery.children`, which holds elements only, but removes `gallery.lastChild`, which can be any node (`frontend/script.js:172-173`). The model keeps a single list of image cards. If the page's markup left a trailing text or comment node in the container, the first overflow would remove that node instead, and the gallery would keep eleven images from then on. The page markup is not part of this model.
- Upstream.HttpError: its status may be any natural number. `fetch` reports only statuses outside 200-299 as not ok, so the source never reaches this arm with a 2xx status; the datatype does not exclude one.
- The `size` default is computed and never used, so it is modelled only as having no effect.
- Logging to the console and listening on a port are not modelled.

## Findings

| source | as written | input that shows it | evidently intended | confidence | as-written member | corrected member |
|---|---|---|---|---|---|---|
| frontend/script.js:263-265 | `loadSavedImages` passes the newest-first saved list item by item to `addToGallery`, which inserts at the front, so a reload shows the images oldest first. The next generation then removes the gallery's last child, which is the newest of the previously saved images. | Ten distinct saved images, then a reload, then one successful generation. The gallery then shows the oldest of the ten, which is no longer saved. It does not show the newest of the ten, which is still saved. | After a reload the gallery shows the saved list's images in saved order, newest first, and stays in step with the saved list. | medium; not executed | Gallery.ReloadThenGenerateDiverges | Gallery.GeneratorPage.LoadSavedImagesNewestFirst |
