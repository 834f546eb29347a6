/**
  The Asiatech SMS channel: the text it sends, the rewrite of each mobile number to the
  international prefix, the reading of the send and delivery-report answers, and the
  access token it keeps in an LRU cache for four minutes. The HTTP exchanges are
  oracles: what the token endpoint, the send endpoint and the delivery-report endpoint
  answered, already decoded.
 */
module Asiatech {
  import opened Wrappers
  import opened Text
  import opened Notifications
  import S = CacheSpec
  import LruCache

  const Name: string := "Asiatech"
  const Flag: string := "sms"

  const FiringBanner: string := "\U{1F6A8} Firing \n"
  const ResolvedBanner: string := "\U{2705} Resolved \n"

  /** The cache key and lifetime of the access token; times are nanoseconds. */
  const TokenKey: string := "asiatech_token"
  const TokenTtl: int := 4 * 60 * 1_000_000_000

  const NoToken: string := "cannot get token from asiatech"

  /** Subject, message and time, one per line. */
  function Details(n: Notification): (d: string)
    ensures n.subject + "\n" + n.message + "\nTime: " + n.time <= d
  {
    n.subject + "\n" + n.message + "\nTime: " + n.time
  }

  /** The SMS text: a banner by state over the details; no text for any other state. */
  function RenderText(n: Notification): (text: string)
    ensures n.state == "firing" ==> text == FiringBanner + Details(n)
    ensures n.state == "resolved" ==> text == ResolvedBanner + Details(n)
    ensures n.state != "firing" && n.state != "resolved" ==> text == ""
  {
    if n.state == "firing" then FiringBanner + Details(n)
    else if n.state == "resolved" then ResolvedBanner + Details(n)
    else ""
  }

  /** Every text sent for an alert ends with its subject, message and time lines. */
  lemma TextEndsWithTime(n: Notification)
    requires n.state == "firing" || n.state == "resolved"
    ensures var text := RenderText(n);
      |text| >= |n.time| + 6 && text[|text| - |n.time| - 6..] == "Time: " + n.time
    ensures var text, d := RenderText(n), |n.subject| + |n.message| + |n.time| + 8;
      |text| >= d && text[|text| - d..] == n.subject + "\n" + n.message + "\nTime: " + n.time
  {
    var banner := if n.state == "firing" then FiringBanner else ResolvedBanner;
    var text := RenderText(n);
    var tail := "Time: " + n.time;
    var head := banner + n.subject + "\n" + n.message + "\n";
    assert text == head + tail;
  }

  /** The regular expression `^0` replaced by "98": only a leading zero changes. */
  function Rewrite(mobile: string): (r: string)
    ensures |mobile| > 0 && mobile[0] == '0' ==> |r| == |mobile| + 1 && r[..2] == "98" && r[2..] == mobile[1..]
    ensures !(|mobile| > 0 && mobile[0] == '0') ==> r == mobile
  {
    if |mobile| > 0 && mobile[0] == '0' then "98" + mobile[1..] else mobile
  }

  /** A rewritten number does not start with a zero, so rewriting again changes nothing. */
  lemma RewriteOnce(mobile: string)
    ensures Rewrite(Rewrite(mobile)) == Rewrite(mobile)
  {
    var r := Rewrite(mobile);
    if |mobile| > 0 && mobile[0] == '0' {
      assert r[0] == '9';
    }
  }

  /** One entry of the send request. */
  datatype SendMessage = SendMessage(sender: string, receptor: string, text: string, coding: int)

  /** `msgBody`: one entry per receptor, in order, each number rewritten. */
  method BuildBody(sender: string, receptors: seq<string>, text: string) returns (body: seq<SendMessage>)
    ensures |body| == |receptors|
    ensures forall i :: 0 <= i < |receptors| ==> body[i] == SendMessage(sender, Rewrite(receptors[i]), text, 0)
  {
    body := [];
    var i := 0;
    while i < |receptors|
      invariant 0 <= i <= |receptors| && |body| == i
      invariant forall j :: 0 <= j < i ==> body[j] == SendMessage(sender, Rewrite(receptors[j]), text, 0)
    {
      body := body + [SendMessage(sender, Rewrite(receptors[i]), text, 0)];
      i := i + 1;
    }
  }

  function Bodies(sender: string, receptors: seq<string>, text: string): (body: seq<SendMessage>)
    ensures |body| == |receptors|
    ensures forall i :: 0 <= i < |receptors| ==> body[i] == SendMessage(sender, Rewrite(receptors[i]), text, 0)
  {
    seq(|receptors|, i requires 0 <= i < |receptors| => SendMessage(sender, Rewrite(receptors[i]), text, 0))
  }

  /**
    The token endpoint's answer: the request could not be built, no response, or a status
    and the decoded token, if it decoded.
   */
  datatype TokenReply =
    | TokenUnbuildable(error: string)
    | TokenUnreachable
    | TokenAnswer(statusCode: int, accessToken: Option<string>)

  /**
    The token a fetch yields: the request's own error, or a fixed error without a 200
    answer; otherwise the decoded token, or the empty token when the body did not decode
    (the decoding error is only logged).
   */
  function Fetched(fetch: TokenReply): (r: Result<string, string>)
    ensures r.Err? <==> !fetch.TokenAnswer? || fetch.statusCode != 200
    ensures fetch.TokenUnbuildable? ==> r == Err(fetch.error)
    ensures fetch.TokenUnreachable? || (fetch.TokenAnswer? && fetch.statusCode != 200) ==> r == Err(NoToken)
    ensures r.Ok? && fetch.accessToken.Some? ==> r.value == fetch.accessToken.value
    ensures r.Ok? && fetch.accessToken.None? ==> r.value == ""
  {
    match fetch
    case TokenUnbuildable(e) => Err(e)
    case TokenUnreachable => Err(NoToken)
    case TokenAnswer(code, accessToken) =>
      if code != 200 then Err(NoToken)
      else if accessToken.Some? then Ok(accessToken.value)
      else Ok("")
  }

  /**
    `getAuthenticationToken` on the cache's contents: a live cached token is returned and
    the endpoint is not asked; otherwise a fetched token is cached for four minutes.
   */
  function TokenStep(s: S.State<string, string>, now: nat, fetch: TokenReply): (r: (S.State<string, string>, Result<string, string>))
    ensures S.Get(s, TokenKey, now).1.Some? ==> r == (S.Get(s, TokenKey, now).0, Ok(S.Get(s, TokenKey, now).1.value))
    ensures S.Get(s, TokenKey, now).1.None? && Fetched(fetch).Err? ==> r == (S.Get(s, TokenKey, now).0, Fetched(fetch))
    ensures S.Get(s, TokenKey, now).1.None? && Fetched(fetch).Ok? ==>
      r == (S.Set(S.Get(s, TokenKey, now).0, TokenKey, Fetched(fetch).value, TokenTtl, now), Fetched(fetch))
  {
    var (s1, hit) := S.Get(s, TokenKey, now);
    if hit.Some? then (s1, Ok(hit.value))
    else
      var t := Fetched(fetch);
      if t.Err? then (s1, t) else (S.Set(s1, TokenKey, t.value, TokenTtl, now), t)
  }

  /** A token fetched at `now` is served from the cache, without a fetch, for four minutes. */
  lemma TokenReused(s: S.State<string, string>, now: nat, fetch: TokenReply, later: nat, fetch2: TokenReply)
    requires S.WellFormed(s) && !s.closed && later < now + TokenTtl
    requires S.Get(s, TokenKey, now).1.None? && Fetched(fetch).Ok?
    ensures TokenStep(TokenStep(s, now, fetch).0, later, fetch2).1 == Fetched(fetch)
  {
    var s1 := S.Get(s, TokenKey, now).0;
    assert S.WellFormed(s1) by {
      if TokenKey in s.entries {
        S.RemoveDistinct(s.recency, TokenKey);
      }
    }
    S.SetThenGet(s1, TokenKey, Fetched(fetch).value, TokenTtl, now, later);
  }

  /**
    The send endpoint's answer: the request could not be built, no response, an
    undecodable body, or the decoded reply.
   */
  datatype SendReply =
    | SendUnbuildable(error: string)
    | SendUnreachable
    | SendUndecodable(error: string)
    | SendDecoded(resultCode: int, data: seq<string>)

  datatype SendOutcome = Ids(ids: seq<string>) | SendError(error: string) | SendPanicked

  /**
    The send answer as `Send` reads it. A missing response is only logged, and the
    nil response's body is then read, which panics; a result code other than 100 is an
    error naming the code.
   */
  function SendResult(reply: SendReply): (r: SendOutcome)
    ensures r.SendPanicked? <==> reply.SendUnreachable?
    ensures r.Ids? <==> reply.SendDecoded? && reply.resultCode == 100
    ensures reply.SendDecoded? && reply.resultCode != 100 ==>
      r == SendError("cannot send message via asiatech provider: " + IntToDecimal(reply.resultCode))
  {
    match reply
    case SendUnbuildable(e) => SendError(e)
    case SendUnreachable => SendPanicked
    case SendUndecodable(e) => SendError(e)
    case SendDecoded(code, data) =>
      if code != 100 then SendError("cannot send message via asiatech provider: " + IntToDecimal(code))
      else Ids(data)
  }

  /**
    The delivery-report endpoint's answer: the request failed to be built or sent, the
    body did not decode, or the reported delivery codes.
   */
  datatype ReportReply = ReportUnreachable(error: string) | ReportUndecodable(error: string) | ReportDecoded(statuses: seq<int>)

  datatype StatusOutcome = Polled(status: int, err: Option<string>) | StatusPanicked

  /** The delivery code as a status: 1 is delivered, 5, 11 and 13 to 16 failed, any other still sent. */
  function Classify(code: int): (status: int)
    ensures status == StatusDelivered <==> code == 1
    ensures status == StatusFailed <==> code in {5, 11, 13, 14, 15, 16}
    ensures status == StatusSent <==> code != 1 && code !in {5, 11, 13, 14, 15, 16}
  {
    if code == 1 then StatusDelivered
    else if code == 5 || code == 11 || code == 13 || code == 14 || code == 15 || code == 16 then StatusFailed
    else StatusSent
  }

  /**
    The report as `Status` reads it: any failure is Failed with the error; the first
    report's code is classified, and an empty report panics on the index.
   */
  function ReportResult(token: Result<string, string>, reply: ReportReply): (r: StatusOutcome)
    ensures token.Err? ==> r == Polled(StatusFailed, Some(token.error))
    ensures r.StatusPanicked? <==> token.Ok? && reply == ReportDecoded([])
    ensures r.Polled? && r.err.None? ==> token.Ok? && reply.ReportDecoded? && r.status == Classify(reply.statuses[0])
  {
    if token.Err? then Polled(StatusFailed, Some(token.error))
    else
      match reply
      case ReportUnreachable(e) => Polled(StatusFailed, Some(e))
      case ReportUndecodable(e) => Polled(StatusFailed, Some(e))
      case ReportDecoded(statuses) =>
        if |statuses| == 0 then StatusPanicked else Polled(Classify(statuses[0]), None)
  }

  /** The channel: its sender line and priority, and the token cache. */
  class Service {
    const sender: string
    const priority: int
    const c: LruCache.Cache<string, string>

    constructor (sender: string, priority: int, c: LruCache.Cache<string, string>)
      ensures this.sender == sender && this.priority == priority && this.c == c
    {
      this.sender := sender;
      this.priority := priority;
      this.c := c;
    }

    function Describe(): (ch: Channel)
      reads this
      ensures ch.name == Name && ch.flag == Flag && ch.priority == priority
    {
      Channel(Name, Flag, priority)
    }

    method GetAuthenticationToken(now: nat, fetch: TokenReply) returns (token: Result<string, string>)
      requires c.Valid()
      modifies c
      ensures c.Valid()
      ensures (c.Model(), token) == TokenStep(old(c.Model()), now, fetch)
    {
      var cached := c.Get(TokenKey, now);
      if cached.Some? {
        return Ok(cached.value);
      }
      if fetch.TokenUnbuildable? {
        return Err(fetch.error);
      }
      if fetch.TokenUnreachable? || fetch.statusCode != 200 {
        return Err(NoToken);
      }
      var accessToken := if fetch.accessToken.Some? then fetch.accessToken.value else "";
      var err := c.Set(TokenKey, accessToken, TokenTtl, now);
      token := Ok(accessToken);
    }

    /** `Send`: the token, then one request carrying every receptor's entry. */
    method Send(message: Notification, now: nat, fetch: TokenReply, post: seq<SendMessage> -> SendReply)
      returns (r: SendOutcome)
      requires c.Valid()
      modifies c
      ensures c.Valid()
      ensures c.Model() == TokenStep(old(c.Model()), now, fetch).0
      ensures var token := TokenStep(old(c.Model()), now, fetch).1;
        (token.Err? ==> r == SendError(token.error))
        && (token.Ok? ==> r == SendResult(post(Bodies(sender, message.receptors, RenderText(message)))))
    {
      var text := RenderText(message);
      var token := GetAuthenticationToken(now, fetch);
      if token.Err? {
        return SendError(token.error);
      }
      var msgBody := BuildBody(sender, message.receptors, text);
      assert msgBody == Bodies(sender, message.receptors, text);
      var reply := post(msgBody);
      if reply.SendUnbuildable? {
        return SendError(reply.error);
      }
      if reply.SendUnreachable? {
        return SendPanicked;
      }
      if reply.SendUndecodable? {
        return SendError(reply.error);
      }
      if reply.resultCode != 100 {
        return SendError("cannot send message via asiatech provider: " + IntToDecimal(reply.resultCode));
      }
      r := Ids(reply.data);
    }

    /** `Status`: the token, then the delivery report for the message. */
    method Status(messageId: string, now: nat, fetch: TokenReply, report: ReportReply)
      returns (r: StatusOutcome)
      requires c.Valid()
      modifies c
      ensures c.Valid()
      ensures c.Model() == TokenStep(old(c.Model()), now, fetch).0
      ensures r == ReportResult(TokenStep(old(c.Model()), now, fetch).1, report)
    {
      var token := GetAuthenticationToken(now, fetch);
      if token.Err? {
        return Polled(StatusFailed, Some(token.error));
      }
      match report
      case ReportUnreachable(e) => r := Polled(StatusFailed, Some(e));
      case ReportUndecodable(e) => r := Polled(StatusFailed, Some(e));
      case ReportDecoded(statuses) =>
        if |statuses| == 0 {
          return StatusPanicked;
        }
        var msgCode := statuses[0];
        if msgCode == 1 {
          r := Polled(StatusDelivered, None);
        } else if msgCode == 5 || msgCode == 11 || msgCode == 13 || msgCode == 14 || msgCode == 15 || msgCode == 16 {
          r := Polled(StatusFailed, None);
        } else {
          r := Polled(StatusSent, None);
        }
    }
  }
}
