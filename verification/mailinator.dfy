/** The Mailinator client: a session (mailbox, cookie store, rate-limit
    gate), the request builder `createRequest`, the two request-issuing
    operations and the "easy mail" projection. Network transport and JSON
    decoding are outside the model: a fetched message enters as an
    already-decoded value. */
module Mailinator {
  import opened Wrappers
  import opened Strings
  import opened HeaderOverlay
  import opened RateLimit
  import opened Urls
  import opened Messages
  import opened MailRecord

  /** The fixed desktop-browser user agent of every request. */
  const FirefoxUserAgent: string := "Mozilla/5.0 (Windows NT 10.0; WOW64; rv:49.0) Gecko/20100101 Firefox/49.0"

  /** Accept header of the inbox-status call. */
  const JsonAccept: string := "application/json, text/javascript, */*; q=0.01"

  /** Accept header of the message call. */
  const AnyAccept: string := "*/*"

  /** The two extra headers both calls send. */
  const AjaxHeaders: seq<Header> := [
    Header("Accept-Language", "en-US,en;q=0.5"),
    Header("X-Requested-With", "XMLHttpRequest")
  ]

  /** The headers map `AjaxHeaders` produce on an empty request. */
  const AjaxHeaderMap: map<string, string> :=
    map["Accept-Language" := "en-US,en;q=0.5", "X-Requested-With" := "XMLHttpRequest"]

  /** A `CookieContainer`, seen only as an identity. */
  datatype CookieJar = CookieJar(identity: nat)

  /** Content encodings the request asks to be decoded automatically. */
  datatype Decompression = GZip | Deflate

  /** One client instance. */
  datatype Session = Session(mailbox: string, cookies: CookieJar, gate: Gate)

  /** The description of a prepared `HttpWebRequest`. */
  datatype Request = Request(
    url: string,
    userAgent: string,
    accept: string,
    referer: Option<string>,
    keepAlive: bool,
    decompression: set<Decompression>,
    cookies: CookieJar,
    headers: map<string, string>)

  /** A prepared request and the session as it is afterwards. */
  datatype Prepared = Prepared(session: Session, request: Request)

  /** The mailbox a client keeps: the text before the first `@` when there is
      one (`Split('@')[0]`), otherwise the input unchanged. */
  function NormaliseMailbox(mailbox: string): (r: string)
    ensures '@' !in r
    ensures r <= mailbox
    ensures |r| < |mailbox| ==> mailbox[|r|] == '@'
    ensures '@' !in mailbox ==> r == mailbox
  {
    if '@' in mailbox then Split(mailbox, '@')[0] else mailbox
  }

  /** Normalising a normalised mailbox changes nothing. */
  lemma NormaliseIdempotent(mailbox: string)
    ensures NormaliseMailbox(NormaliseMailbox(mailbox)) == NormaliseMailbox(mailbox)
  {
  }

  /** A full address normalises to its local part, whatever the domain. */
  lemma NormaliseAddress(local: string, domain: string)
    requires '@' !in local
    ensures NormaliseMailbox(local + "@" + domain) == local
  {
    var s := local + "@" + domain;
    var r := NormaliseMailbox(s);
    assert s[|local|] == '@';
    assert s[..|local|] == local;
  }

  /** The constructor: normalise the mailbox, take a new cookie store, set the
      gate one second before the construction time `now`; no request is made. */
  function NewSession(mailbox: string, jar: CookieJar, now: int): (s: Session)
    ensures s.mailbox == NormaliseMailbox(mailbox)
    ensures s.cookies == jar
    ensures s.gate.lastRequest == now - TicksPerSecond
    ensures s.gate.Ready(now) && !s.gate.Ready(now - TicksPerSecond)
  {
    Session(NormaliseMailbox(mailbox), jar, Init(now))
  }

  /** A new client serves its first request, at any time from its
      construction on, without waiting. */
  lemma FirstRequestImmediate(mailbox: string, jar: CookieJar, created: int, arrive: int)
    requires arrive >= created
    ensures NewSession(mailbox, jar, created).gate.Ready(arrive)
    ensures WaitUntil(NewSession(mailbox, jar, created).gate, arrive) == arrive
  {
    FirstRequestWithoutWait(created, arrive);
  }

  /** `createRequest`: the spin has ended at `now`, the request is described,
      the extra headers are set in order, and the gate is stamped at `later`. */
  function CreateRequest(s: Session, now: int, later: int, url: string, accept: string,
                         referer: Option<string>, keepAlive: bool,
                         headers: Option<seq<Header>>): (p: Prepared)
    requires Admits(s.gate, Tick(now, later))
    ensures p.request.url == url && p.request.accept == accept
    ensures p.request.referer == referer && p.request.keepAlive == keepAlive
    ensures p.request.userAgent == FirefoxUserAgent
    ensures p.request.decompression == {GZip, Deflate}
    ensures p.request.cookies == s.cookies
    ensures headers.Some? ==> p.request.headers.Keys == Keys(headers.value)
    ensures headers.Some? ==> forall i :: 0 <= i < |headers.value| && IsLast(headers.value, i) ==>
      p.request.headers[headers.value[i].key] == headers.value[i].value
    ensures headers.None? ==> p.request.headers == map[]
    ensures p.session.mailbox == s.mailbox && p.session.cookies == s.cookies
    ensures p.session.gate.lastRequest == later + TicksPerSecond
    ensures !p.session.gate.Ready(now + TicksPerSecond)
  {
    var request := Request(url, FirefoxUserAgent, accept, referer, keepAlive, {GZip, Deflate},
                           s.cookies, ApplyHeaders(map[], headers));
    Prepared(s.(gate := Pass(s.gate, later)), request)
  }

  /** The extra headers of both calls produce exactly the two fixed entries. */
  lemma AjaxHeadersApplied()
    ensures ApplyHeaders(map[], Some(AjaxHeaders)) == AjaxHeaderMap
  {
    var r := ApplyHeaders(map[], Some(AjaxHeaders));
    assert IsLast(AjaxHeaders, 0) && IsLast(AjaxHeaders, 1);
    assert Keys(AjaxHeaders) == {"Accept-Language", "X-Requested-With"} by {
      assert AjaxHeaders[0].key == "Accept-Language";
      assert AjaxHeaders[1].key == "X-Requested-With";
    }
  }

  /** The request of `getInboxStatus`. */
  function InboxStatusRequest(s: Session, now: int, later: int): (p: Prepared)
    requires Admits(s.gate, Tick(now, later))
    ensures MailboxOfStatusUrl(p.request.url) == Some(s.mailbox)
    ensures p.request.accept == JsonAccept
    ensures p.request.referer == Some(InboxPage)
    ensures !p.request.keepAlive
    ensures p.request.cookies == s.cookies && p.request.userAgent == FirefoxUserAgent
    ensures p.request.headers == AjaxHeaderMap
    ensures p.session.mailbox == s.mailbox && p.session.cookies == s.cookies
    ensures p.session.gate == Pass(s.gate, later)
  {
    StatusUrlRoundTrip(s.mailbox, StatusUrl(s.mailbox));
    AjaxHeadersApplied();
    CreateRequest(s, now, later, StatusUrl(s.mailbox), JsonAccept, Some(InboxPage), false, Some(AjaxHeaders))
  }

  /** The request of `getMessageData(string id)`. */
  function MessageDataRequest(s: Session, id: string, now: int, later: int): (p: Prepared)
    requires Admits(s.gate, Tick(now, later))
    ensures IdOfMessageUrl(p.request.url) == Some(id)
    ensures p.request.accept == AnyAccept
    ensures p.request.referer == Some(MessageReferer(s.mailbox))
    ensures p.request.keepAlive
    ensures p.request.cookies == s.cookies && p.request.userAgent == FirefoxUserAgent
    ensures p.request.headers == AjaxHeaderMap
    ensures p.session.mailbox == s.mailbox && p.session.cookies == s.cookies
    ensures p.session.gate == Pass(s.gate, later)
  {
    MessageUrlRoundTrip(id, MessageUrl(id));
    AjaxHeadersApplied();
    CreateRequest(s, now, later, MessageUrl(id), AnyAccept, Some(MessageReferer(s.mailbox)), true, Some(AjaxHeaders))
  }

  /** The request of `getMessageData(PublicMsg message)`: the message's id is
      what the URL carries. */
  function MessageDataRequestFor(s: Session, message: PublicMsg, now: int, later: int): (p: Prepared)
    requires Admits(s.gate, Tick(now, later))
    ensures IdOfMessageUrl(p.request.url) == Some(message.id)
    ensures p == MessageDataRequest(s, message.id, now, later)
  {
    MessageDataRequest(s, message.id, now, later)
  }

  /** The projection of `getEasyMail(string id)` over the fetched message:
      the argument id, the message's full sender, recipient and subject, and
      the body of the first part. With no parts, `FirstOrDefault()` yields
      null and reading its body throws. */
  function EasyMail(id: string, message: MailinatorMessage): (r: Result<Mail>)
    ensures r.Ok? <==> |message.data.parts| > 0
    ensures r.Err? ==> r.error == NullReference
    ensures r.Ok? ==> r.value.Id == id && r.value.From == message.data.fromFull
    ensures r.Ok? ==> r.value.To == message.data.to && r.value.Subject == message.data.subject
    ensures r.Ok? ==> r.value.Body == message.data.parts[0].body
  {
    var parts := message.data.parts;
    if |parts| == 0 then Err(NullReference)
    else Ok(NewMail(id, message.data.fromFull, message.data.to, message.data.subject, parts[0].body))
  }

  /** Parts after the first never influence the easy mail. */
  lemma EasyMailIgnoresLaterParts(id: string, message: MailinatorMessage, first: Part, rest: seq<Part>)
    requires message.data.parts == [first] + rest
    ensures EasyMail(id, message) == EasyMail(id, message.(data := message.data.(parts := [first])))
  {
  }

  /** The easy mail's id is the requested id, even when the payload's own id differs. */
  lemma EasyMailIdIsArgument(id: string, message: MailinatorMessage)
    requires |message.data.parts| > 0
    requires message.data.id != id
    ensures EasyMail(id, message).Ok?
    ensures EasyMail(id, message).value.Id == id != message.data.id
  {
  }

  /** Two fetched messages give the same easy mail exactly when both have no
      parts, or both have parts and agree on sender, recipient, subject and
      first body: nothing else of the payload is read. */
  lemma EasyMailReads(id: string, a: MailinatorMessage, b: MailinatorMessage)
    ensures EasyMail(id, a) == EasyMail(id, b) <==>
      (|a.data.parts| == 0 && |b.data.parts| == 0) ||
      (|a.data.parts| > 0 && |b.data.parts| > 0
       && a.data.fromFull == b.data.fromFull && a.data.to == b.data.to
       && a.data.subject == b.data.subject && a.data.parts[0].body == b.data.parts[0].body)
  {
  }

  /** `getEasyMail(string id)`: the message request, then the projection of
      the message the server returned (`fetched`). The request is built and
      the gate stamped before the projection, so the gate advances even when
      the projection then fails. */
  function GetEasyMail(s: Session, id: string, now: int, later: int, fetched: MailinatorMessage): (r: (Prepared, Result<Mail>))
    requires Admits(s.gate, Tick(now, later))
    ensures r.0 == MessageDataRequest(s, id, now, later)
    ensures IdOfMessageUrl(r.0.request.url) == Some(id)
    ensures r.0.request.keepAlive && r.0.request.cookies == s.cookies
    ensures r.0.request.accept == AnyAccept && r.0.request.referer == Some(MessageReferer(s.mailbox))
    ensures r.0.session.gate == Pass(s.gate, later)
    ensures r.1.Ok? <==> |fetched.data.parts| > 0
    ensures r.1.Err? ==> r.1.error == NullReference
    ensures r.1.Ok? ==> r.1.value.Id == id && r.1.value.Body == fetched.data.parts[0].body
    ensures r.1.Ok? ==> r.1.value.From == fetched.data.fromFull && r.1.value.To == fetched.data.to
    ensures r.1.Ok? ==> r.1.value.Subject == fetched.data.subject
  {
    (MessageDataRequest(s, id, now, later), EasyMail(id, fetched))
  }

  /** `getEasyMail(PublicMsg message)`: the same as the id overload applied to
      the message's id. */
  function GetEasyMailFor(s: Session, message: PublicMsg, now: int, later: int, fetched: MailinatorMessage): (r: (Prepared, Result<Mail>))
    requires Admits(s.gate, Tick(now, later))
    ensures IdOfMessageUrl(r.0.request.url) == Some(message.id)
    ensures r.1.Ok? ==> r.1.value.Id == message.id
    ensures r == GetEasyMail(s, message.id, now, later, fetched)
  {
    GetEasyMail(s, message.id, now, later, fetched)
  }

  /** A request a client can issue. */
  datatype Call = InboxStatusCall | MessageDataCall(id: string)

  /** Issue one call at the given clock readings. */
  function Issue(s: Session, call: Call, t: Tick): Prepared
    requires Admits(s.gate, t)
  {
    match call
    case InboxStatusCall => InboxStatusRequest(s, t.now, t.later)
    case MessageDataCall(id) => MessageDataRequest(s, id, t.now, t.later)
  }

  /** Issue calls in order through one client; `None` when some call could
      not have started at its clock readings. */
  function Run(s: Session, calls: seq<Call>, ticks: seq<Tick>): Option<(Session, seq<Request>)>
    requires |calls| == |ticks|
    decreases |calls|
  {
    if calls == [] then Some((s, []))
    else if !Admits(s.gate, ticks[0]) then None
    else
      var p := Issue(s, calls[0], ticks[0]);
      match Run(p.session, calls[1..], ticks[1..])
      case None => None
      case Some(rest) => Some((rest.0, [p.request] + rest.1))
  }

  /** A run is possible exactly when the gate admits its clock readings; it
      keeps the mailbox and cookie store, sends every request with that one
      cookie store, and leaves the gate as the rate limiter alone would. */
  lemma {:induction false} RunFacts(s: Session, calls: seq<Call>, ticks: seq<Tick>)
    requires |calls| == |ticks|
    ensures Run(s, calls, ticks).Some? <==> Replay(s.gate, ticks).Some?
    ensures Run(s, calls, ticks).Some? ==>
      var (s', requests) := Run(s, calls, ticks).value;
      && s'.mailbox == s.mailbox && s'.cookies == s.cookies
      && Replay(s.gate, ticks) == Some(s'.gate)
      && |requests| == |calls|
      && (forall i :: 0 <= i < |requests| ==> requests[i].cookies == s.cookies)
    decreases |calls|
  {
    if calls != [] && Admits(s.gate, ticks[0]) {
      var p := Issue(s, calls[0], ticks[0]);
      assert p.session == s.(gate := Pass(s.gate, ticks[0].later));
      RunFacts(p.session, calls[1..], ticks[1..]);
    }
  }

  /** Through one client, successive request starts are more than one second
      apart, and N requests span more than N - 1 seconds. */
  lemma RunRateLimited(s: Session, calls: seq<Call>, ticks: seq<Tick>)
    requires |calls| == |ticks|
    requires Run(s, calls, ticks).Some?
    ensures forall k :: 0 <= k < |ticks| - 1 ==> ticks[k + 1].now - ticks[k].now > TicksPerSecond
    ensures |ticks| >= 2 ==> ticks[|ticks| - 1].now - ticks[0].now > (|ticks| - 1) * TicksPerSecond
  {
    RunFacts(s, calls, ticks);
    ReplaySpacing(s.gate, ticks);
    if |ticks| >= 2 {
      ReplaySpan(s.gate, ticks);
    }
  }
}
