# dataat.work edge worker, modelled in Dafny

The Data At Work site sits behind one Cloudflare Worker (`src/index.js`). For
each request, in order, the worker:

1. forwards mail-autoconfiguration requests (`/.well-known/autoconfig/…`, `/autodiscover/…`)
   to `https://lykkebovej44.dalsgaard.net:8447`, with path and query kept;
2. runs the contact form for `POST /api/contact`;
3. hands every other request to the static-asset store.

The contact form checks the submission's fields and its Turnstile captcha token.
It asks the Turnstile service about the token, then sends a plain-text
single-part MIME e-mail through the platform's e-mail binding and answers JSON.

The model has four modules:

- `Router` (`router.dfy`): the dispatch, as a function from a request record to a `Route`.
  The in-place URL rewrite is a record update.
- `Contact` (`contact.dfy`): the contact handler's chain of early returns, as a pure function.
  - Inputs: a `World` holding the parsed form, the client-IP header, the captcha secret,
    the captcha verdict or its exception, the send outcome or its exception, and the
    clock readings and random boundary.
  - Output: the status, the JSON body and content type, plus every Turnstile request
    and every e-mail the handler issues, in order. So a lemma can state that the captcha
    service is not asked, or that exactly one e-mail is sent.
  - Also here: the e-mail body template, the subject line and the fields posted to
    Turnstile.
- `Mime` (`mime.dfy`): the message builder. It also has an independent reader that
  splits a message at its first empty line into header lines and body, and the
  round-trip proof between the two.
- `Wrappers` (`wrappers.dfy`): `Option`.

JavaScript truthiness (`!name`, `!turnstileToken`, `ip || "unknown"`, `if (ip)`) is
`Contact.Truthy`: the value is present and not empty. An empty token is refused just
like a missing one, because `!turnstileToken` tests truthiness.

The submitted name goes into the `Subject` header without sanitising. The
round-trip is proved for a name without CR. A name holding CR LF CR LF, with no CR
before it, ends the header block inside `Subject` (`Contact.SubjectHeaderInjection`):
the submitter's text after it becomes the start of the body a mail reader sees.

## Model

| member | source | states |
|---|---|---|
| `Router.ToUpstream` | src/index.js:133-135 | the rewritten URL has host `lykkebovej44.dalsgaard.net`, port `8447`, scheme `https:`, and the original path and query |
| `Router.ToUpstreamKeepsOnlyPathAndQuery` | src/index.js:133-136 | two URLs rewrite to the same target exactly when their path and query agree; rewriting twice is rewriting once |
| `Router.RouteRequest` | src/index.js:128-146 | a proxied request is forwarded to the rewritten form of its own URL |
| `Router.MailConfigAlwaysProxied` | src/index.js:132-137 | a path under either autoconfig prefix is proxied whatever the method, so it never reaches the contact handler or the assets |
| `Router.ProxiedExactlyOnMailConfigPaths` | src/index.js:132 | a request is proxied if and only if its path starts with one of the two prefixes |
| `Router.ContactExactlyOnPostToEndpoint` | src/index.js:140-142 | the contact handler is chosen if and only if the path is `/api/contact` and the method is `POST` |
| `Router.AssetsOtherwise` | src/index.js:144-145 | every request that is neither proxied nor a POST to `/api/contact` goes to the assets, including other methods on `/api/contact` |
| `Contact.VerifyFields` | src/index.js:7-13 | the Turnstile request carries exactly `secret` and `response`, plus `remoteip` with the IP if and only if the client IP is truthy |
| `Contact.HandleContactForm` | src/index.js:46-125 | every answer is JSON with status 200, 400 or 500; 200 exactly for a message body, and exactly when the verdict is a success and the send is delivered; 500 exactly with the generic error text, and always for an unreadable body; at most one verification, made exactly when fields and token pass and carrying the token, IP and secret; at most one send, made exactly when the verdict is a success |
| `Contact.MissingFieldsAnsweredFirst` | src/index.js:57-62 | "Please fill in all required fields." is answered exactly when name, e-mail or message is missing or empty; then status is 400 and no outside call is made |
| `Contact.MissingTokenAnsweredSecond` | src/index.js:65-70 | "Please complete the captcha verification." is answered exactly when the fields pass and the token is missing or empty; then status is 400 and no call is made |
| `Contact.CaptchaRejection` | src/index.js:72-81 | "Captcha verification failed. Please try again." is answered exactly when the service rejects the token; then there was one verification with the token and IP, and no send |
| `Contact.SuccessfulSubmission` | src/index.js:97-116 | status 200 exactly when the token is accepted and the send succeeds; then the answer is the thank-you text after one verification and exactly one e-mail |
| `Contact.FailuresBecomeGeneric500` | src/index.js:118-124 | status 500 exactly when the body is unreadable, the verification call throws, or the send throws; 500 comes with the generic error text and only with it |
| `Contact.UnreachedCallsIgnored` | src/index.js:57-81 | outcomes of calls the handler never reaches do not change its result |
| `Contact.SentEmailReadsBack` | src/index.js:97-111 | with no CR in the name and date, the one e-mail sent goes from `contact@dataat.work` to `jakob@dalsgaard.net`; a reader gets back the seven headers in order, with subject `Contact form: ` and the name, and exactly the e-mail body |
| `Contact.SubjectHeaderInjection` | src/index.js:101 | a name holding CRLF CRLF, whose text before it holds no CR, ends the header block after `Subject` for a reader; the reader's body starts with the text after it and differs from the real body |
| `Contact.EmailBodyNamesSender` | src/index.js:84-87 | the body holds the line `Name: ` with the name right after an empty line, and the line `Email: ` with the address right after it |
| `Contact.EmailBodyHoldsMessage` | src/index.js:89-90 | the body holds the message right under the `Message:` heading |
| `Contact.EmailBodyShowsOrigin` | src/index.js:92-94 | after `---` the body gives `Submitted from IP: ` with the client IP, or `unknown` when the header is absent or empty, followed by the `Time: ` line |
| `Mime.JoinThenTerminate` | src/index.js:32-42 | joining header lines with CRLF and adding one more CRLF terminates every line with CRLF |
| `Mime.BuildMimeMessage` | src/index.js:28-43 | the message is the CRLF-terminated header lines, an empty line, and the body; the body is its suffix, right after CRLF CRLF |
| `Mime.MimeRoundTrip` | src/index.js:32-42 | when no header value holds a CR, reading the message back gives exactly From, To, Subject, Date, MIME-Version, Content-Type and Content-Transfer-Encoding in that order, and the body verbatim |
| `Mime.BoundaryUnused` | src/index.js:29 | the random boundary has no effect on the message |
| `Mime.OnlyDateVaries` | src/index.js:30-42 | when no header value holds a CR, two messages built from the same inputs at different times read back with the same body, and the same six headers apart from Date |
| `Mime.DateIsTheOnlyDifference` | src/index.js:30-42 | for every input, CR-bearing header values included, two messages built at different times (and with different boundaries) are the same text before and after the date value |
| `Mime.TerminatedAppend` | src/index.js:40 | ending every line of two joined lists with CRLF equals doing so for each list in turn |

`Mime.ReadMessage` and `Mime.SplitLine` are the independent reader the builder is checked against. Their contracts state that the reader is sound: the text it returns, put back together, is its input, and it splits at the first CRLF.

## Left out

- Network calls are left out: `verifyTurnstile`'s POST to the Turnstile endpoint, its JSON parsing, and the upstream `fetch` of the proxied request. The verdict (its `success` flag, or an exception) is an input. Only the fields posted and the rewritten URL are modelled.
- Platform bindings are opaque: `env.EMAIL.send`, the `EmailMessage` constructor and `env.ASSETS.fetch`. A send is one outcome (delivered or threw), which also covers a throwing constructor. In that case the model still records the e-mail in `sendAttempts`, although the binding never received it. Assets are the `StaticAssets` route.
- WHATWG `URL` parsing and serialisation are left out. The URL is a record with the five fields the router uses; username, password and fragment are not modelled. Each field holds what its getter returns: after `url.protocol = "https"` it is `"https:"`, after `url.port = 8447` it is `"8447"`.
- `request.formData()` is not modelled. Its result is a parsed form, or absent when it throws. A field holding a `File` instead of a string is not modelled.
- Method-name normalisation by the platform is not modelled. The method is the normalised string.
- `Math.random()` is not modelled; the boundary is a parameter. The clock (`toUTCString`, `toISOString`) gives parameters too.
- `JSON.stringify` is not modelled: a response body is the `error` or `message` member it serialises.
- async/await sequencing and `console.error` logging are left out; they hold no decision logic.
- The round-trip preconditions rule out every CR, though the reader splits lines only at CR LF, so a lone CR would also read back intact; this is not proved. A bare LF in the name also reaches the header unsanitised; the model does not show what other mail readers do with it.
