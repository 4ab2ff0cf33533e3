# Mailinator client — Dafny model

A model of the core of a small C# client for the public Mailinator webmail
inbox (`MailAPI`). The client keeps a session per mailbox (the mailbox name,
a cookie store and a one-field rate limiter), builds HTTP requests for two
fixed endpoints (inbox status and message fetch), and offers an "easy mail"
view of a fetched message (id, sender, recipient, subject, first body).

The model is purely functional:

- `Strings` — `String.Split(char)` and the join that undoes it.
- `MailRecord` — the immutable `Mail` value of `Mail.cs`.
- `Messages` — the decoded JSON shapes `PublicMsg`, `MailinatorStatus`,
  `Headers`, `Part`, `Data`, `MailinatorMessage`.
- `HeaderOverlay` — the extra-header loop of `createRequest`: set-or-replace,
  applied left to right.
- `RateLimit` — the `lastRequest` gate over an abstract clock counted in
  .NET ticks (100 ns, so one second is 10 000 000 ticks).
- `Urls` — the status URL, message URL and message referer templates, with
  their inverses.
- `Mailinator` — mailbox normalisation, the session value, `createRequest`
  as a `Request` record, the two request-issuing calls and their overloads,
  the easy-mail projection, and runs of several calls through one session.

The session is an immutable `Session` value threaded through the
operations; starting a request returns the request and the updated session.
The busy-wait `while (lastRequest >= DateTime.Now) { }` is modelled by the
clock reading that ends it: `CreateRequest` requires `now > lastRequest`.
The source reads the clock a second time to stamp the gate
(`lastRequest = DateTime.Now.AddSeconds(1)`); that reading is the parameter
`later`, which may not be earlier than `now`. `WaitUntil` gives the first
reading at which the spin ends, and `Replay` checks a sequence of readings
against the gate.

Two details follow the code exactly where a looser reading is tempting:

- The gate opens only when the clock is strictly past `lastRequest`, not
  when it merely reaches it (`MailAPI/Mailinator.cs:189`).
- With an empty `parts` list, `parts.FirstOrDefault()` is null and reading
  `.body` throws `NullReferenceException`. The easy mail is therefore an
  error (`Err(NullReference)`), not a null body (`MailAPI/Mailinator.cs:153`).

## Model

| member | source | states |
|---|---|---|
| Strings.IndexOf | MailAPI/Mailinator.cs:73 | the position found holds the character and no earlier position does |
| Strings.Split | MailAPI/Mailinator.cs:73 | at least one part; no part contains the separator; the first part is the longest separator-free prefix of the input |
| Strings.JoinSplit | MailAPI/Mailinator.cs:73 | joining the parts of a split with the separator gives back the input, so splitting loses nothing |
| Strings.SplitJoin | MailAPI/Mailinator.cs:73 | splitting a join of separator-free parts gives back exactly those parts |
| MailRecord.NewMail | MailAPI/Mail.cs:41-48 | `Id`, `From`, `To`, `Subject`, `Body` return exactly the constructor arguments, with no trimming or validation |
| MailRecord.MailDeterminedByGetters | MailAPI/Mail.cs:5-39 | a mail holds nothing beyond its five getters: two mails are equal iff all five getters agree |
| HeaderOverlay.Overlay | MailAPI/Mailinator.cs:203-206 | after setting the list in order, each listed name has the value of its last occurrence, unlisted names keep their prior value, and the names are the prior ones plus the listed ones |
| HeaderOverlay.ApplyHeaders | MailAPI/Mailinator.cs:201-207 | a null or empty list changes nothing; otherwise the last occurrence of each listed name wins and other names are untouched |
| HeaderOverlay.OverlayAppend | MailAPI/Mailinator.cs:203-206 | applying a list in two pieces equals applying the whole list |
| HeaderOverlay.OverlayIdempotent | MailAPI/Mailinator.cs:203-206 | applying the same list twice equals applying it once |
| HeaderOverlay.LastIndexOf | MailAPI/Mailinator.cs:203-206 | every listed name has a last occurrence in the list |
| RateLimit.Init | MailAPI/Mailinator.cs:45 | the gate starts exactly one second (10 000 000 ticks) before construction time, so it is already open at construction |
| RateLimit.Pass | MailAPI/Mailinator.cs:209 | starting a request stamps `lastRequest` exactly one second past the clock reading taken after the spin, and the gate then opens only strictly after that stamp |
| RateLimit.WaitUntil | MailAPI/Mailinator.cs:189 | the spin ends at the first clock reading, from the arrival on, that is past `lastRequest`; a ready gate does not delay the caller |
| RateLimit.FirstRequestWithoutWait | MailAPI/Mailinator.cs:45 | a gate initialised one second before construction lets any request at or after construction through at once |
| RateLimit.NextStartAfterOneSecond | MailAPI/Mailinator.cs:189-209 | after a request starts, the next one can start only more than one second after the stamp, hence more than one second after the previous start |
| RateLimit.ReplaySpacing | MailAPI/Mailinator.cs:189-209 | in any run the gate admits, successive request starts are strictly more than one second apart |
| RateLimit.ReplaySpan | MailAPI/Mailinator.cs:189-209 | N admitted request starts (N >= 2) span more than N - 1 seconds |
| RateLimit.Schedule | MailAPI/Mailinator.cs:189-209 | waiting at the gate before each start always produces a run the gate admits, and no start precedes its arrival |
| Urls.StatusUrl | MailAPI/Mailinator.cs:36 | the status URL is the fixed prefix followed by the mailbox, verbatim |
| Urls.MessageUrl | MailAPI/Mailinator.cs:41 | the message URL is the fixed prefix, the id verbatim, then `&zone=public` |
| Urls.MessageReferer | MailAPI/Mailinator.cs:117 | the message referer is the inbox page followed by `?public_to=` and the mailbox |
| Urls.StatusUrlRoundTrip | MailAPI/Mailinator.cs:83 | the mailbox is read back from its status URL, and only its own status URL reads back as it |
| Urls.MessageUrlRoundTrip | MailAPI/Mailinator.cs:115 | the id is read back from its message URL, and only its own message URL reads back as it |
| Urls.TemplatesInjective | MailAPI/Mailinator.cs:83-117 | distinct ids give distinct message URLs; distinct mailboxes give distinct status URLs and referers |
| Urls.RefererEndsWithMailbox | MailAPI/Mailinator.cs:117 | the message referer ends with `public_to=` followed by the mailbox |
| Mailinator.NormaliseMailbox | MailAPI/Mailinator.cs:73 | the kept mailbox has no `@`, is a prefix of the input, is followed by `@` when shorter, and is the input itself when it has no `@` |
| Mailinator.NormaliseIdempotent | MailAPI/Mailinator.cs:73 | normalising a normalised mailbox changes nothing |
| Mailinator.NormaliseAddress | MailAPI/Mailinator.cs:73 | an address `local@domain` with an `@`-free local part normalises to the local part, whatever the domain holds |
| Mailinator.NewSession | MailAPI/Mailinator.cs:45-74 | construction keeps the normalised mailbox and the new cookie store, and sets `lastRequest` to exactly one second before construction time (so the gate is open now and was closed one second earlier) |
| Mailinator.FirstRequestImmediate | MailAPI/Mailinator.cs:45-74 | a new client's first request at any time at or after construction passes the gate without waiting |
| Mailinator.CreateRequest | MailAPI/Mailinator.cs:187-211 | every request has the fixed Firefox user agent, gzip and deflate decompression, the session's cookie store, and url, accept, referer and keep-alive as passed; the extra headers hold the last value given for each name; mailbox and cookies of the session are kept and the gate is stamped one second past the second clock reading |
| Mailinator.AjaxHeadersApplied | MailAPI/Mailinator.cs:87-88 | the two extra headers of both calls give exactly `Accept-Language` and `X-Requested-With` with their fixed values |
| Mailinator.InboxStatusRequest | MailAPI/Mailinator.cs:80-89 | the status request's URL reads back as the session mailbox; JSON accept, inbox-page referer, keep-alive false, the two extra headers; the session keeps its mailbox and cookie store and its gate takes one step |
| Mailinator.MessageDataRequest | MailAPI/Mailinator.cs:112-121 | the message request's URL reads back as the id; `*/*` accept, referer naming the session mailbox, keep-alive true, the two extra headers; the session keeps its mailbox and cookie store and its gate takes one step |
| Mailinator.MessageDataRequestFor | MailAPI/Mailinator.cs:102-105 | the summary overload is the id overload applied to the summary's id, whose URL reads back as that id |
| Mailinator.EasyMail | MailAPI/Mailinator.cs:144-155 | succeeds iff there is at least one part (otherwise a null-reference error); the mail has the argument id, the payload's full sender, recipient, subject and the first part's body |
| Mailinator.EasyMailIgnoresLaterParts | MailAPI/Mailinator.cs:153 | parts after the first never change the easy mail |
| Mailinator.EasyMailIdIsArgument | MailAPI/Mailinator.cs:149 | the easy mail's id is the requested id even when the payload's own id differs |
| Mailinator.EasyMailReads | MailAPI/Mailinator.cs:148-154 | two payloads give the same easy mail iff both have no parts, or both have parts and agree on sender, recipient, subject and first body |
| Mailinator.GetEasyMail | MailAPI/Mailinator.cs:144-155 | the id overload sends exactly the message request (URL reading back as the id, `*/*` accept, mailbox referer, keep-alive, the session's cookies) and steps the gate even when the projection then fails; the mail has the argument id and the payload's full sender, recipient, subject and first body, and an empty parts list is a null-reference error |
| Mailinator.GetEasyMailFor | MailAPI/Mailinator.cs:134-137 | the summary overload is the id overload applied to the summary's id |
| Mailinator.RunFacts | MailAPI/Mailinator.cs:187-211 | a run of calls through one client is possible iff the gate admits its clock readings; it keeps mailbox and cookie store, sends every request with that one store, and leaves the gate as the limiter alone would |
| Mailinator.RunRateLimited | MailAPI/Mailinator.cs:189-209 | through one client, successive request starts are more than one second apart and N requests span more than N - 1 seconds |

## Left out

- Network transport: `WebRequest.Create`, `GetResponse`, reading the response stream, and the actual gzip/deflate decoding. These are platform I/O. The request only records that decompression is asked for.
- The proxy setting `request.Proxy = null`. It only concerns transport.
- JSON decoding with Newtonsoft. It is a foreign library. Fetched payloads enter `EasyMail` and `GetEasyMail` as already-decoded `MailinatorMessage` values, and `getInboxStatus`/`getMessageData` are modelled only up to the request they send.
- The UTF-8 byte branch of `getResponse`. It is library encoding, and no caller uses it.
- `CookieContainer` internals. A cookie store is an opaque identity shared by every request of one session.
- Real wall-clock behaviour. The clock is an abstract integer supplied by the caller, and the CPU cost of the spin is not modelled.
- Thread safety of `lastRequest` under concurrent callers. The model is sequential.
- `WebHeaderCollection` details. Header names are taken as already normalised, so case-insensitive matching is not modelled. The exception for restricted names (`User-Agent`, `Accept`, `Referer`, ...) set through `Headers.Set` is not modelled either. The typed properties (`UserAgent`, `Accept`, `Referer`) are kept in their own fields, apart from the extra-header map, which starts empty.
- Null strings and null JSON members, including a null `parts` list or a null first part. Every string and list is non-null in the model. The constructor would throw on a null mailbox.
