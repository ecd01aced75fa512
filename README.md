# Notification adapters, modelled in Dafny

This project models the three delivery adapters of the `notification`
library: Bitrix24, Telegram and e-mail. Each adapter takes a configuration,
a message and a subject or list of addresses, and delivers the message.

- **Bitrix24** (`bitrix.dfy`) builds REST URLs for `im.notify.system.add.json`,
  `im.message.add.json` and `im.message.delete`.
  - It first notifies every user of the subject.
  - It then posts the message to every chat, sending one request at a time.
  - It stops at the first failure.
  - Every post that goes through leaves behind a delete of that message,
    due after the configured lifetime.
- **Telegram** (`telegram.dfy`) reads the message text once.
  - It parses each address as a chat id.
  - It sends one `sendMessage` request with a JSON body per chat.
  - It stops at the first address that does not parse, at the first
    request the transport fails, and at the first reply that is not a 200.
  - `Telegram.Deliver` takes the reply check as a `Rule`: `SendMessage`
    uses the check as the code writes it, and the corrected check of
    "## Findings" is compared with it by `DeliverCorrected`.
- **E-mail** (`email.dfy`) rejects an empty address list.
  - It builds one message for all recipients and picks LOGIN authentication
    (section 4 of RFC 4954) unless authentication is switched off.
  - It opens a pool of one connection to `host:port` and sends.

The HTTP transport is a scripted server (`http.dfy`). `Http.Client` keeps
the log of the requests issued, and answers the i-th request with
`respond(i, request)`. The Bitrix and Telegram `SendMessage` are methods over
such a client. The e-mail `SendMessage` runs over a scripted SMTP session,
`Email.Smtp`, in the same way. Each is proved equal to a function of the
replies:
- `Bitrix.Dispatch`
- `Telegram.Deliver`
- `Email.Session` and `Email.Returned`

The properties of the adapters are proved about those functions.

Supporting modules:
- `strconv.dfy`: Go's `strconv.Atoi` (with the `strconv.Quote`d input in its
  error text) and `%d` formatting on 64-bit integers.
- `query.dfy`: the query-string construction of the `request` helper, taken
  to be Go's `url.Values.Encode` (keys sorted, values `url.QueryEscape`d);
  see "## Left out" for what of this is assumed.
- `utf8.dfy`: Go's string-to-bytes conversion, with a decoder that undoes it.
- `batches.dfy`: the "send in order, stop at the first failure" loop that
  Bitrix runs twice.

## Model

| member | source | states |
|---|---|---|
| Bitrix.New | bitrix/bitrix.go:44-49 | an empty protocol becomes `https`; any other configuration is kept as given |
| Bitrix.NewIdempotent | bitrix/bitrix.go:44-49 | building a notificator from an already built configuration changes nothing |
| Bitrix.RequestPath | bitrix/bitrix.go:51-53 | the REST path is `/rest/<user id>/<token>/<method>`; no contract of its own, its use is stated by the URL lemmas below |
| Bitrix.UrlForMessage | bitrix/bitrix.go:55-63 | the URL of `im.message.add.json` with `SYSTEM=Y`, `DIALOG_ID` and `MESSAGE`, built by the query helper; its text is stated by `UrlForMessageForm` |
| Bitrix.UrlForDelete | bitrix/bitrix.go:65-71 | the URL of `im.message.delete` with `MESSAGE_ID`; its text is stated by `UrlForDeleteForm` |
| Bitrix.UrlForNotify | bitrix/bitrix.go:73-81 | the URL of `im.notify.system.add.json` with `USER_ID` and `MESSAGE`; its text is stated by `UrlForNotifyForm` |
| Bitrix.KeysAreUnescaped | bitrix/bitrix.go:19-23 | the parameter names and the `SYSTEM=Y` value pass through query escaping unchanged |
| Bitrix.MessageKeysOrdered | bitrix/bitrix.go:55-63 | the message parameters, passed as SYSTEM, DIALOG_ID, MESSAGE, are a permutation of the strictly ordered DIALOG_ID < MESSAGE < SYSTEM |
| Bitrix.NotifyKeysOrdered | bitrix/bitrix.go:73-81 | the notify parameters, passed as USER_ID, MESSAGE, are a permutation of MESSAGE < USER_ID |
| Bitrix.UrlForMessageForm | bitrix/bitrix.go:55-63 | the message URL is origin, REST path, then `DIALOG_ID=<escaped id>&MESSAGE=<escaped text>&SYSTEM=Y`, in sorted key order rather than the order passed |
| Bitrix.UrlForDeleteForm | bitrix/bitrix.go:65-71 | the delete URL carries only `MESSAGE_ID=<escaped id>` |
| Bitrix.UrlForNotifyForm | bitrix/bitrix.go:73-81 | the notify URL is origin, REST path, then `MESSAGE=<escaped text>&USER_ID=<escaped id>` |
| Bitrix.UrlForMessageGolden | bitrix/bitrix_test.go:18-46 | the test fixture's message URL is exactly the expected `...im.message.add.json?DIALOG_ID=chat987&MESSAGE=test+phrase&SYSTEM=Y` |
| Bitrix.UrlForDeleteGolden | bitrix/bitrix_test.go:48-74 | the test fixture's delete URL is exactly `...im.message.delete?MESSAGE_ID=987654321` |
| Bitrix.UrlForNotifyGolden | bitrix/bitrix_test.go:76-104 | the test fixture's notify URL is exactly `...im.notify.system.add.json?MESSAGE=test+phrase&USER_ID=1234` |
| Bitrix.EscapeTestPhrase | bitrix/bitrix_test.go:36 | the phrase `test phrase` is escaped with `+` for its space |
| Bitrix.Classify | bitrix/bitrix.go:119-170 | a reply succeeds if and only if it is a 200 whose body decodes to a nonzero `result`; the id is then that result, and every non-200 reply gives id 0 |
| Bitrix.ClassifyErrors | bitrix/bitrix.go:144-169 | which error each answered failure yields, as whole texts: the decode error, `no result in the response` with id 0, exactly `<error>: <error_description>` with id 0 when `error` is set, or `unsupported bitrix-api response` |
| Bitrix.Recipients | bitrix/bitrix.go:89-95 | the users to notify and the chats to post to: the global chat users and the global chat in global mode, the addresses twice otherwise; its effect is stated by `PlanOrder` |
| Bitrix.DeleteUrl | bitrix/bitrix.go:112 | the delete request of a scheduled deletion, built from the message id formatted with `%d`; its text is stated by `DeleteUrlForm` |
| Bitrix.DeleteUrlForm | bitrix/bitrix.go:110-113 | a delete carries `MESSAGE_ID=` followed by the message id in decimal, unescaped, and that text parses back to the id |
| Bitrix.PlanOrder | bitrix/bitrix.go:89-105 | in global mode, one notify per global chat user and one post to the global chat; otherwise one of each per address; notifies carry the subject, posts the message, and all notifies precede all posts |
| Bitrix.Dispatch | bitrix/bitrix.go:83-117 | no addresses: nothing is sent and the error is `no addresses to send`; otherwise the requests issued are a prefix of the plan, and the whole plan when no error is returned |
| Bitrix.DispatchAbort | bitrix/bitrix.go:97-114 | every request before the last one went through; the last one did too when there is no error; otherwise the error returned is the last reply's |
| Bitrix.DispatchDeleteCount | bitrix/bitrix.go:104-114 | one delete per post that went through, none for notifies or for a failed post |
| Bitrix.DispatchDelete | bitrix/bitrix.go:104-114 | the k-th delete belongs to the k-th post, whose reply succeeded with that message id, and is due after the configured lifetime |
| Bitrix.DispatchIsPhases | bitrix/bitrix.go:89-114 | with addresses, the call is the notify batch followed by the post batch |
| Bitrix.DispatchNotifyFails | bitrix/bitrix.go:97-102 | when a notify fails, no post is sent and no delete is scheduled |
| Bitrix.DispatchPosts | bitrix/bitrix.go:97-114 | when every notify went through, the posts follow them, starting at the next request index |
| Bitrix.SendMessage | bitrix/bitrix.go:83-117 | the method issues exactly `Dispatch`'s requests, in order, and returns its error and its scheduled deletes |
| Batches.Send | bitrix/bitrix.go:119-130 | `send` issues exactly one request for the URL and returns the classification of its reply; both loops send through it |
| Batches.SendEach | bitrix/bitrix.go:97-114 | the requests issued are a prefix of the URLs, all of them without an error; the error is the last request's; each id collected is the id of the matching reply |
| Batches.SendEachStops | bitrix/bitrix.go:99-100 | once a batch fails, the URLs after it are never sent |
| Batches.SendAll | bitrix/bitrix.go:97-114 | the loop issues exactly `SendEach`'s requests and returns its batch |
| Batches.SendPhases | bitrix/bitrix.go:97-114 | the second batch is sent only if the first went through; everything is sent when there is no error |
| Batches.PhasesAbort | bitrix/bitrix.go:97-114 | across both loops, every request but the last went through, and an error is the last reply's |
| Batches.PhasesSecondIds | bitrix/bitrix.go:104-113 | the post ids are those of the post replies, one per successful post, in order |
| Query.InsertSorted | bitrix/bitrix.go:56-62 | inserting a parameter keeps the list sorted by key |
| Query.SortByKey | bitrix/bitrix.go:56-62 | the encoded parameters are a permutation of those passed, sorted by key |
| Query.SortedUnique | bitrix/bitrix.go:56-62 | with distinct keys, there is exactly one sorted arrangement |
| Query.SortCanonical | bitrix/bitrix.go:56-62 | the query does not depend on the order in which the parameters are passed |
| Query.UnescapeEscape | bitrix/bitrix.go:56-62 | unescaping undoes query escaping of bytes, so no two byte sequences escape alike |
| Query.EscapeInjective | bitrix/bitrix.go:56-62 | two string values with the same escaped form are the same value |
| Query.EscapeBytesAppend | bitrix/bitrix.go:56-62 | escaping distributes over concatenation |
| Query.EscapeUnreserved | bitrix/bitrix.go:19-23 | letters, digits and `- _ . ~` are left as they are |
| Query.EscapeWords | bitrix/bitrix_test.go:36 | two plain words separated by a space escape to the words joined by `+` |
| Query.EncodeCanonical | bitrix/bitrix.go:56-62 | the query lists `key=value` pairs in key order, whatever order they are passed in |
| Query.Encode | bitrix/bitrix.go:56-62 | the query is empty if and only if there are no parameters |
| Query.Url | bitrix/bitrix.go:56-62 | the URL is `proto://host` plus the path, plus `?` and the query only when there are parameters |
| Query.UrlThree | bitrix/bitrix.go:55-63 | the URL of three distinct, plain keys given in any order |
| Query.UrlTwo | bitrix/bitrix.go:73-81 | the URL of two distinct, plain keys given in either order |
| Strconv.Itoa | bitrix/bitrix.go:112 | `%d` formatting is non-empty, starts with `-` exactly for negative numbers, is otherwise all decimal digits, and has no leading zero (`0` itself aside) |
| Strconv.Atoi | telegram/telegram.go:58-62 | a parsed address starts with a digit or a sign; a failure is a syntax or range `NumError` naming the address; which inputs parse, and to what, is stated by `AtoiDecimal` |
| Strconv.AtoiDecimal | telegram/telegram.go:58-62 | an address parses if and only if it is an optional sign and one or more digits whose value fits 64 bits, and it parses to that value; the error is a range error exactly when the text is decimal or its leading digits pass 2^64 - 1, and a syntax error otherwise |
| Strconv.ScanDigitsRun | telegram/telegram.go:59 | the digit scan gives the value of the leading digits, a syntax error if anything else follows them, or a range error once they pass 2^64 - 1 |
| Strconv.ItoaDecimal | bitrix/bitrix.go:112 | `%d` of a 64-bit integer is decimal text denoting that integer |
| Strconv.NumError | telegram/telegram.go:59-61 | the error text is `strconv.Atoi: parsing `, the address as `strconv.Quote` writes it, `: ` and the reason; no contract of its own, see the next rows |
| Strconv.QuoteChar | telegram/telegram.go:59-61 | how `strconv.Quote` writes one character: one to four characters, and the character itself exactly when it needs no backslash |
| Strconv.Quote | telegram/telegram.go:59-61 | the quoted text starts and ends with `"` and holds the escaped characters between |
| Strconv.UnquoteQuote | telegram/telegram.go:59-61 | reading the escapes back gives the input, so quoting loses nothing |
| Strconv.QuoteInjective | telegram/telegram.go:59-61 | two addresses with the same quoted form are the same address |
| Strconv.NumErrorEscapesQuote | telegram/telegram.go:59-61 | the address `a"b` is named as `"a\"b"` in the error text |
| Strconv.AtoiItoa | bitrix/bitrix.go:112 | every 64-bit message id, formatted in decimal, parses back to itself |
| Strconv.ScanDigitsOf | telegram/telegram.go:59 | scanning the decimal digits of m after a prefix worth acc adds m at the right scale |
| Utf8.EncodeAppend | email/email.go:44 | converting a string to bytes distributes over concatenation |
| Utf8.EncodeAscii | email/email.go:49-53 | an ASCII string converts to bytes one for one |
| Utf8.Encode | email/email.go:44 | the bytes of a string are at least as many as its characters; that they determine the string is stated by `DecodeEncode` |
| Utf8.DecodeEncode | email/email.go:44 | UTF-8 decoding the bytes of a string gives the string back |
| Utf8.EncodeInjective | email/email.go:44 | two strings with the same bytes are the same string |
| Http.Client.Do | telegram/telegram.go:77-87 | a request is appended to the log and answered by the script for its index |
| Telegram.New | telegram/telegram.go:39-44 | an empty protocol becomes `https`; any other configuration is kept |
| Telegram.NewIdempotent | telegram/telegram.go:39-44 | building a notificator from a built configuration changes nothing |
| Telegram.RequestPathParts | telegram/telegram.go:46-48 | the path is exactly `/bot`, the token, `/` and the method, with nothing between them, so distinct methods have distinct paths |
| Telegram.RequestPath | telegram/telegram.go:46-48 | the Bot API path `/bot<token>/<method>`; its shape is stated by `RequestPathParts` |
| Telegram.MessageUrl | telegram/telegram.go:78-79 | the `sendMessage` URL is `proto://host/bot<token>/sendMessage`, with no query |
| Telegram.MessageRequest | telegram/telegram.go:63-87 | the request for one chat: the `sendMessage` URL, `Content-Type: application/json`, and the body with the chat id, the text and parse mode `html`; its use is stated by `DeliverIssued` |
| Telegram.CodedError | telegram/telegram.go:103 | the text is `error:`, the code in decimal, `: ` and the description, and the decimal code parses back to the code |
| Telegram.Check | telegram/telegram.go:88-106 | the corrected reply check: no error if and only if the reply is a 200 |
| Telegram.CheckErrors | telegram/telegram.go:88-106 | which error each failure of the corrected check yields: the transport's own, the decoder's, exactly `CodedError(code, description)` for an `ok: false` error reply, or `unsupported telegram-api response` |
| Telegram.ChecksDiffer | telegram/telegram.go:93-106 | the two checks fail on the same replies, and can differ only on a non-200 reply whose error body decoded |
| Telegram.CheckAsWritten | telegram/telegram.go:93-106 | the reply check as written also passes exactly the 200 replies |
| Telegram.CheckAsWrittenInverted | telegram/telegram.go:102 | the code as written is the corrected check applied with the `ok` flag negated, and agrees with it everywhere else |
| Telegram.ApiErrorMisreported | telegram/telegram.go:102-105 | as written, a Bot API error reply with `ok: false` is reported as unsupported instead of by its code and description |
| Telegram.Stream.ReadAll | telegram/telegram.go:54-57 | the content is read once, in full, and the stream's error is returned with it |
| Telegram.Deliver | telegram/telegram.go:58-107 | the address loop under either reply check: at most one request per address, and one request per address when no error is returned |
| Telegram.DeliverIssued | telegram/telegram.go:58-87 | the k-th request is the `sendMessage` body for the chat id that the k-th address parses to, with the text and parse mode `html` |
| Telegram.DeliverAbort | telegram/telegram.go:58-106 | without an error every reply passed the check; with one, either every reply passed and the next address fails to parse with that error, or every reply but the last passed and the error is the last reply's |
| Telegram.DeliverCorrected | telegram/telegram.go:93-106 | the code as written and the corrected check issue the same requests and fail together; where the errors differ, the last reply is a non-200 with a decoded error body and each error is its own check of that reply |
| Telegram.DeliverStops | telegram/telegram.go:60-61 | after the first failure the remaining addresses are never looked at |
| Telegram.DeliverNothing | telegram/telegram.go:58-108 | with no addresses nothing is sent and no error is returned |
| Telegram.SendTo | telegram/telegram.go:58-108 | the address loop issues exactly the requests of `Deliver` with the reply check as written, and returns its error |
| Telegram.SendMessage | telegram/telegram.go:50-109 | reads the content exactly once and drains it; a read error returns before any request; otherwise it issues exactly the requests of `Deliver` with the reply check as written, through `SendTo`, and returns its error |
| Email.LoginAuth | email/email.go:39-41 | the mechanism's state holds the given user name and password |
| Email.Start | email/email.go:43-45 | the mechanism is `LOGIN`, the initial response is the user name, and there is no error |
| Email.Next | email/email.go:47-59 | with `more`, the reply succeeds if and only if the challenge is one of the two prompts, and anything else fails with `unknown for server`; without `more`, nil and no error whatever the server sent |
| Email.PromptTexts | email/email.go:50-53 | the two challenges are the bytes of `Username:` and `Password:`, and they differ |
| Email.NextAnswers | email/email.go:50-53 | `Username:` is answered with the user name and `Password:` with the password |
| Email.Exchange | email/email.go:47-56 | a run of challenges succeeds if and only if every one is a prompt; each answer is then the matching credential, and a failure is `unknown for server` |
| Email.LoginConversation | email/email.go:43-56 | the user name goes out first, and a server asking for the user name then the password gets both, in order |
| Email.Compose | email/email.go:66-76 | one message: from the SMTP user with the visible name, to the whole address list in order, with the subject, the body as HTML, and no extra headers |
| Email.AuthFor | email/email.go:78-81 | no authentication if and only if it is switched off; otherwise LOGIN with the SMTP user and password |
| Email.Endpoint | email/email.go:83 | the address handed to `NewPool`: the host, a colon and the port; its shape is stated by `EndpointSplits` |
| Email.LastColon | email/email.go:83 | finds the last colon of the endpoint string, if there is one |
| Email.EndpointSplits | email/email.go:83 | the endpoint string has the shape `host:port`: it splits back into the host and the port at its last colon, when the port holds no colon |
| Email.Session | email/email.go:61-89 | no call at all without addresses; otherwise one pool of size 1 to the endpoint with the chosen authentication; then, if the pool was made, one send of the composed message and the pool's closing |
| Email.Returned | email/email.go:61-89 | the error is `no addresses to send`, else the pool's error, else the send's error |
| Email.Smtp.NewPool | email/email.go:83-86 | creating the pool is logged as one call and fails as the script says |
| Email.Smtp.Send | email/email.go:89 | sending is logged as one call with the message and the timeout, and returns the script's error |
| Email.Smtp.Close | email/email.go:87 | closing the pool is logged as one call |
| Email.SendMessage | email/email.go:61-89 | the method makes exactly `Session`'s calls and returns `Returned`'s error |

## Left out

- The HTTP and SMTP libraries (`request.Do`, `http.Client`, the
  `jordan-wright/email` pool): replies and outcomes come from a script given
  as a parameter. The client timeouts are carried in the configuration but
  have no effect.
- JSON encoding and decoding: a reply is modelled as what the decodings give
  (`Decoded`/`Undecodable`, `ErrorFields`/`ErrorUndecodable`). Telegram's
  `encode body JSON` error is not modelled, because encoding an int and two
  strings cannot fail.
- `defer res.Body.Close()` and `defer pool.Close()` for HTTP responses.
  Closing is not modelled for HTTP responses; the e-mail pool's `Close` is
  logged as a call.
- Bitrix.SendMessage: the goroutine that sleeps for `LifetimeMessage` hours
  and then sends the delete is returned as a `Deletion` entry (hours and
  message id, with `DeleteUrl` for its request), not run. Concurrency and
  the clock are not modelled. The deletes are scheduled whatever the
  lifetime, zero or negative included, as the code does.
- Bitrix.SendMessage: the notify and post URLs are computed up front and
  then sent by `Batches.SendAll`. The code computes each URL just before
  its request; URL construction has no effects, so the requests and their
  order are the same.
- Bitrix.New, Telegram.New: the Go code also writes the default protocol
  back into the caller's `*Config` argument. The model returns a
  new value instead.
- The scheme, host and path are concatenated as given; escaping of the path
  by `url.URL.String` is not modelled. The tokens and ids in them are
  plain.
- Strconv.QuoteChar, Strconv.Quote: characters beyond ASCII are kept as
  they are. Go escapes the ones Unicode does not class as printable as
  `\u`/`\U` escapes, by its own Unicode tables, which are not modelled; ASCII
  is escaped exactly. So `QuoteChar`'s bound of one to four characters holds
  of the model only: Go writes U+0085 as the six characters `\u0085`.
- Query.Escape, Query.Encode: the `request` library's query builder is not
  part of this model. The package's golden URLs fix only the sorted key
  order, `+` for a space, and letters and digits passing through. The rest
  is assumed from Go's `url.Values.Encode` and `url.QueryEscape`: upper-case
  `%XX`, `~` left alone, and the escaping of `&`, `=`, `%` and non-ASCII
  bytes. `Query.UnescapeEscape`, `Query.EscapeInjective` and
  `Query.EscapeUnreserved` are proved about that assumption.
- Email.LastColon, Email.EndpointSplits: these describe the shape of the
  endpoint string only. The split itself is done by the mail library's
  dialer, which is not part of this model, and bracketed IPv6 hosts are not
  covered.
- The HTTP method of each request is chosen by the `request` library from
  its parameters, which is not part of this model; the model carries the
  URL, and for Telegram the header and the body, but no method.
- Strings are sequences of Unicode scalar values. Go strings may hold
  invalid UTF-8, which this model does not represent.
- `mail.Address.String()` formatting of the `From` header: the message
  keeps the address and the display name as a pair.
- Email.SendMessage: the timeout is passed to the send as whole seconds.
  The conversion to `time.Duration` (nanoseconds, with `int64` overflow) is
  not modelled.
- The `String()` method of the Telegram notificator, and the interface in
  `notificator.go`, which holds no logic.
- Telegram has no attachments, and neither has e-mail. Bitrix does not look
  up chat members before notifying. In all three the code does not do these
  things, so the model does not either.

## Findings

| source | as written | input that shows it | evidently intended | confidence | as-written member | corrected member |
|---|---|---|---|---|---|---|
| telegram/telegram.go:102 | a non-200 reply whose decoded body has `ok` set is reported as `error:<code>: <description>`, and any other is reported as `unsupported telegram-api response` | status 400 with `{"ok": false, "error_code": 400, "description": "Bad Request: chat not found"}`, which the Bot API sends for an unknown chat: as written the result is `unsupported telegram-api response` | `if !response.OK`: error replies, which carry `ok: false`, are reported by their code and description (`error:400: Bad Request: chat not found`) | high; not executed | Telegram.CheckAsWritten, Telegram.ApiErrorMisreported, Telegram.SendMessage | Telegram.Check, Telegram.DeliverCorrected |
