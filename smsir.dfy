/**
  The sms.ir SMS channel: the text it sends, the line number it sends from, the reading
  of the bulk-send answer into message ids, and the reading of a message's delivery
  report into a status. The HTTP exchanges are oracles: what the endpoint answered,
  with its body already decoded, or why it could not be.
 */
module Smsir {
  import opened Wrappers
  import opened Text
  import opened Notifications

  const Name: string := "Smsir"
  const Flag: string := "sms"

  /** The code the status check reports when it could not learn anything. */
  const Unknown: int := -1

  const NotDelivered: string := "failed to deliver message"

  function HttpStatusText(code: int): (e: string)
    ensures "http status code " <= e
  {
    "http status code " + IntToDecimal(code)
  }

  /** The SMS text: the emoji of the state right before the subject; no text for any other state. */
  function RenderText(n: Notification): (text: string)
    ensures n.state == "firing" ==> text == "\U{1F6A8}" + n.subject + "\n" + n.message + "\nTime: " + n.time
    ensures n.state == "resolved" ==> text == "\U{2705}" + n.subject + "\n" + n.message + "\nTime: " + n.time
    ensures n.state != "firing" && n.state != "resolved" ==> text == ""
  {
    if n.state == "firing" then "\U{1F6A8}" + n.subject + "\n" + n.message + "\nTime: " + n.time
    else if n.state == "resolved" then "\U{2705}" + n.subject + "\n" + n.message + "\nTime: " + n.time
    else ""
  }

  /**
    For an alert that is firing or resolved, and whose subject and message hold no line
    break, the SMS reads as three lines: the state's emoji and the subject, the message,
    and "Time: " with the time.
   */
  lemma {:induction false} RenderTextLines(n: Notification)
    requires n.state == "firing" || n.state == "resolved"
    requires '\n' !in n.subject && '\n' !in n.message && '\n' !in n.time
    ensures var emoji := if n.state == "firing" then "\U{1F6A8}" else "\U{2705}";
      Split(RenderText(n), '\n') == [emoji + n.subject, n.message, "Time: " + n.time]
  {
    var emoji := if n.state == "firing" then "\U{1F6A8}" else "\U{2705}";
    var first, last := emoji + n.subject, "Time: " + n.time;
    assert RenderText(n) == first + ['\n'] + (n.message + ['\n'] + last);
    assert '\n' !in first && '\n' !in last;
    SplitAfterPiece(first, n.message + ['\n'] + last, '\n');
    SplitAfterPiece(n.message, last, '\n');
    SplitWithout(last, '\n');
  }

  /** The configured line number as `strconv.Atoi` reads it, its error ignored: 0 when it does not parse. */
  function LineNumber(configured: string): (n: int)
    ensures ParseInt64(configured).Some? ==> n == ParseInt64(configured).value
    ensures ParseInt64(configured).None? ==> n == 0
  {
    match ParseInt64(configured)
    case Some(v) => v
    case None => 0
  }

  /** A line number written in decimal is read back as itself. */
  lemma LineNumberRoundTrip(n: int)
    requires MinInt64 <= n <= MaxInt64
    ensures LineNumber(IntToDecimal(n)) == n
  {
    ParseItoa(n);
  }

  /** The bulk-send request: every receptor of the notification, in order, one text. */
  datatype SendRequest = SendRequest(mobiles: seq<string>, messageText: string, lineNumber: int)

  function Request(lineNumber: string, n: Notification): (req: SendRequest)
    ensures req.mobiles == n.receptors && req.messageText == RenderText(n)
    ensures req.lineNumber == LineNumber(lineNumber)
  {
    SendRequest(n.receptors, RenderText(n), LineNumber(lineNumber))
  }

  /**
    The bulk-send endpoint's answer: no response, or a status code and the body's message
    ids, or the error that reading or decoding the body gave.
   */
  datatype SendReply = SendUnreachable(error: string) | SendAnswer(statusCode: int, messageIds: Result<seq<int>, string>)

  /** `strconv.Itoa` over the ids, in order. */
  method MessageIds(data: seq<int>) returns (ids: seq<string>)
    ensures |ids| == |data|
    ensures forall i :: 0 <= i < |data| ==> ids[i] == IntToDecimal(data[i])
  {
    ids := [];
    var i := 0;
    while i < |data|
      invariant 0 <= i <= |data| && |ids| == i
      invariant forall j :: 0 <= j < i ==> ids[j] == IntToDecimal(data[j])
    {
      ids := ids + [IntToDecimal(data[i])];
      i := i + 1;
    }
  }

  /**
    `Send`: the request for the notification goes out; a missing response, a status other
    than 200 and an unreadable body are errors with no ids; otherwise the ids in decimal.
   */
  method Send(lineNumber: string, message: Notification, post: SendRequest -> SendReply)
    returns (r: Result<seq<string>, string>)
    ensures var reply := post(Request(lineNumber, message));
      (reply.SendUnreachable? ==> r == Err(reply.error))
      && (reply.SendAnswer? && reply.statusCode != 200 ==> r == Err(HttpStatusText(reply.statusCode)))
      && (reply.SendAnswer? && reply.statusCode == 200 && reply.messageIds.Err? ==> r == Err(reply.messageIds.error))
      && (reply.SendAnswer? && reply.statusCode == 200 && reply.messageIds.Ok? ==>
            r.Ok? && |r.value| == |reply.messageIds.value|
            && forall i :: 0 <= i < |r.value| ==> r.value[i] == IntToDecimal(reply.messageIds.value[i]))
  {
    var text := RenderText(message);
    var requestBody := SendRequest(message.receptors, text, LineNumber(lineNumber));
    var reply := post(requestBody);
    if reply.SendUnreachable? {
      return Err(reply.error);
    }
    if reply.statusCode != 200 {
      return Err(HttpStatusText(reply.statusCode));
    }
    if reply.messageIds.Err? {
      return Err(reply.messageIds.error);
    }
    var ids := MessageIds(reply.messageIds.value);
    r := Ok(ids);
  }

  /** Every id `Send` returns reads back, as a 64-bit integer, as the id the endpoint gave. */
  lemma SentIdsReadBack(data: seq<int>, ids: seq<string>)
    requires forall i :: 0 <= i < |data| ==> MinInt64 <= data[i] <= MaxInt64
    requires |ids| == |data| && forall i :: 0 <= i < |data| ==> ids[i] == IntToDecimal(data[i])
    ensures forall i :: 0 <= i < |ids| ==> ParseInt64(ids[i]) == Some(data[i])
  {
    forall i | 0 <= i < |ids| ensures ParseInt64(ids[i]) == Some(data[i]) {
      ParseItoa(data[i]);
    }
  }

  /** The report's fields the status check reads. */
  datatype Report = Report(status: int, deliveryStatus: int)

  /**
    The report endpoint's answer: the request could not be built, no response, or a
    status code and the decoded report, or the error that reading or decoding gave.
   */
  datatype StatusReply =
    | RequestRefused(error: string)
    | StatusUnreachable(error: string)
    | StatusAnswer(statusCode: int, report: Result<Report, string>)

  /**
    A report as a status: an API status of 1 is delivered; delivery states 3 and 5 are
    still sent; 2, 4, 6 and 7 failed, with an error; any other state counts as delivered.
   */
  function Classify(rep: Report): (r: (int, Option<string>))
    ensures rep.status == 1 ==> r == (StatusDelivered, None)
    ensures r.1.Some? <==> rep.status != 1 && rep.deliveryStatus in {2, 4, 6, 7}
    ensures r.1.Some? ==> r == (StatusFailed, Some(NotDelivered))
    ensures r.0 == StatusSent <==> rep.status != 1 && rep.deliveryStatus in {3, 5}
    ensures r.0 in {StatusSent, StatusFailed, StatusDelivered}
  {
    if rep.status == 1 then (StatusDelivered, None)
    else if rep.deliveryStatus == 3 || rep.deliveryStatus == 5 then (StatusSent, None)
    else if rep.deliveryStatus == 6 || rep.deliveryStatus == 7 || rep.deliveryStatus == 2 || rep.deliveryStatus == 4 then
      (StatusFailed, Some(NotDelivered))
    else (StatusDelivered, None)
  }

  /** `Status`: any failure to obtain a report is the unknown status -1 with its error. */
  function Status(reply: StatusReply): (r: (int, Option<string>))
    ensures r.0 == Unknown <==> !(reply.StatusAnswer? && reply.statusCode == 200 && reply.report.Ok?)
    ensures r.0 == Unknown ==> r.1.Some?
    ensures reply.StatusAnswer? && reply.statusCode != 200 ==> r == (Unknown, Some(HttpStatusText(reply.statusCode)))
    ensures r.0 != Unknown ==> r == Classify(reply.report.value)
  {
    match reply
    case RequestRefused(e) => (Unknown, Some(e))
    case StatusUnreachable(e) => (Unknown, Some(e))
    case StatusAnswer(code, report) =>
      if code != 200 then (Unknown, Some(HttpStatusText(code)))
      else if report.Err? then (Unknown, Some(report.error))
      else Classify(report.value)
  }

  /** A status with no error is one the dispatcher can store; only -1 and a failed delivery carry one. */
  lemma StatusErrorCases(reply: StatusReply)
    ensures Status(reply).1.Some? <==> Status(reply).0 == Unknown || Status(reply) == (StatusFailed, Some(NotDelivered))
    ensures Status(reply).1.None? ==> Status(reply).0 in {StatusSent, StatusDelivered}
  {
  }

  /** The channel: the line number it was configured with and its priority. */
  datatype Service = Service(lineNumber: string, priority: int)
  {
    function Describe(): (ch: Channel)
      ensures ch.name == Name && ch.flag == Flag && ch.priority == priority
    {
      Channel(Name, Flag, priority)
    }
  }
}
