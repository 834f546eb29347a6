/**
  The Telegram channel. Each receptor is a chat id in decimal; the bot client is an
  oracle: `sends[i]` is what `SendMessage` returned for the i-th receptor (the new
  message's id, or the error message), consulted only when the chat id parses.
 */
module Telegram {
  import opened Wrappers
  import opened Text
  import opened Notifications
  import opened ErrorStacks

  const FiringBanner: string := "\U{1F6A8}<b> Firing </b>\U{1F6A8}"
  const ResolvedBanner: string := "\U{2705}<b> Resolved </b>\U{2705}"

  /** The HTML text sent for an alert: a banner by state, then subject, message and time. */
  function RenderText(n: Notification): (text: string)
    ensures n.state == "firing" ==> FiringBanner <= text
    ensures n.state == "resolved" ==> ResolvedBanner <= text
    ensures n.state != "firing" && n.state != "resolved" ==> text == ""
  {
    var body := "\n\n<b>" + n.subject + "</b>\n\n" + n.message + "\n\n" + n.time;
    if n.state == "firing" then FiringBanner + body
    else if n.state == "resolved" then ResolvedBanner + body
    else ""
  }

  const ParsePrefix: string := "strconv.ParseInt: parsing "

  /**
    The message of the error `strconv.ParseInt` returns for a chat id that does not parse:
    the receptor as `strconv.Quote` writes it, then "value out of range" for a number
    beyond 64 bits and "invalid syntax" for anything else.
   */
  function ParseErrorText(receptor: string): string {
    ParsePrefix + Quote(receptor) + ": " + ParseErrorReason(receptor)
  }

  /**
    The parse error names the receptor in a form `strconv.Unquote` reads back, and ends
    with the reason: "value out of range" exactly for a range error.
   */
  lemma ParseErrorNamesReceptor(receptor: string)
    ensures var text := ParseErrorText(receptor);
      && |text| > |ParsePrefix| + |Quote(receptor)|
      && text[..|ParsePrefix|] == ParsePrefix
      && Unquote(text[|ParsePrefix|..|ParsePrefix| + |Quote(receptor)|]) == Some(receptor)
      && (ParseIntOutcome(receptor).RangeError? ==> text[|text| - 18..] == "value out of range")
      && (!ParseIntOutcome(receptor).RangeError? ==> text[|text| - 14..] == "invalid syntax")
  {
    ErrorTextParts(Quote(receptor), ParseErrorReason(receptor));
    QuoteRoundTrip(receptor);
  }

  function ParseErrorReason(receptor: string): string {
    if ParseIntOutcome(receptor).RangeError? then "value out of range" else "invalid syntax"
  }

  lemma ErrorTextParts(q: string, reason: string)
    ensures (ParsePrefix + q + ": " + reason)[..|ParsePrefix|] == ParsePrefix
    ensures (ParsePrefix + q + ": " + reason)[|ParsePrefix|..|ParsePrefix| + |q|] == q
    ensures (ParsePrefix + q + ": " + reason)[|ParsePrefix| + |q| + 2..] == reason
  {
    var text := ParsePrefix + q + ": " + reason;
    assert text == ParsePrefix + (q + (": " + reason));
  }

  /** A chat id of at most 18 printable characters that does not parse is reported as invalid syntax, verbatim. */
  lemma MalformedChatIdText(receptor: string, send: Result<int, string>)
    requires |receptor| <= 18 && Plain(receptor) && ParseInt64(receptor).None?
    ensures ParseErrorText(receptor) == "strconv.ParseInt: parsing \"" + receptor + "\": invalid syntax"
    ensures Entry(receptor, send) == Some(ParseErrorText(receptor))
  {
    ShortFailureIsSyntaxError(receptor);
    SyntaxErrorText(receptor);
  }

  lemma SyntaxErrorText(receptor: string)
    requires Plain(receptor) && ParseIntOutcome(receptor).SyntaxError?
    ensures ParseErrorText(receptor) == "strconv.ParseInt: parsing \"" + receptor + "\": invalid syntax"
  {
    QuotePlain(receptor);
    ReasonText(receptor, "invalid syntax");
  }

  /** A chat id of digits beyond the 64-bit range is reported as out of range, not as invalid syntax. */
  lemma OutOfRangeChatIdText(receptor: string, send: Result<int, string>)
    requires |receptor| > 0 && Digits(receptor).Some? && Digits(receptor).value > MaxInt64
    ensures ParseErrorText(receptor) == "strconv.ParseInt: parsing \"" + receptor + "\": value out of range"
    ensures Entry(receptor, send) == Some(ParseErrorText(receptor))
  {
    OutOfRangeIsRangeError(receptor);
    DigitsArePlain(receptor);
    RangeErrorText(receptor);
  }

  lemma RangeErrorText(receptor: string)
    requires Plain(receptor) && ParseIntOutcome(receptor).RangeError?
    ensures ParseErrorText(receptor) == "strconv.ParseInt: parsing \"" + receptor + "\": value out of range"
  {
    QuotePlain(receptor);
    ReasonText(receptor, "value out of range");
    var head := "strconv.ParseInt: parsing \"" + receptor;
    assert head + "\": " + "value out of range" == head + "\": value out of range";
  }

  /** The error text of a chat id that `Quote` copies unchanged, spelled out. */
  lemma ReasonText(receptor: string, reason: string)
    requires Quote(receptor) == "\"" + receptor + "\"" && ParseErrorReason(receptor) == reason
    ensures ParseErrorText(receptor) == "strconv.ParseInt: parsing \"" + receptor + "\": " + reason
  {
    assert ParseErrorText(receptor) == ParsePrefix + ("\"" + receptor + "\"") + ": " + reason;
  }

  /** The error-stack entry one receptor contributes: nil exactly when its message was sent. */
  function Entry(receptor: string, send: Result<int, string>): Option<string> {
    if ParseInt64(receptor).None? then Some(ParseErrorText(receptor))
    else if send.Err? then Some(send.error)
    else None
  }

  /** The response of a receptor whose chat id parsed: the message id, or the receptor on failure. */
  function Reply(receptor: string, send: Result<int, string>): string {
    if send.Err? then receptor else IntToDecimal(send.value)
  }

  /** The responses one receptor contributes: none when its chat id does not parse. */
  function Responses(receptor: string, send: Result<int, string>): seq<string> {
    if ParseInt64(receptor).None? then [] else [Reply(receptor, send)]
  }

  function Entries(receptors: seq<string>, sends: seq<Result<int, string>>): (r: seq<Option<string>>)
    requires |sends| == |receptors|
    ensures |r| == |receptors|
    decreases |receptors|
  {
    if |receptors| == 0 then []
    else
      var k := |receptors| - 1;
      Entries(receptors[..k], sends[..k]) + [Entry(receptors[k], sends[k])]
  }

  function AllResponses(receptors: seq<string>, sends: seq<Result<int, string>>): seq<string>
    requires |sends| == |receptors|
    decreases |receptors|
  {
    if |receptors| == 0 then []
    else
      var k := |receptors| - 1;
      AllResponses(receptors[..k], sends[..k]) + Responses(receptors[k], sends[k])
  }

  /** `Send`: one error-stack entry per receptor, and the responses of those that parsed. */
  method Send(message: Notification, sends: seq<Result<int, string>>)
    returns (responses: seq<string>, err: Option<seq<Option<string>>>)
    requires |sends| == |message.receptors|
    ensures responses == AllResponses(message.receptors, sends)
    ensures err == if |message.receptors| == 0 then None else Some(Entries(message.receptors, sends))
  {
    var errStack := new ErrorStack();
    responses := [];
    var text := RenderText(message);
    var rs := message.receptors;
    var i := 0;
    while i < |rs|
      invariant 0 <= i <= |rs|
      invariant errStack.items == Entries(rs[..i], sends[..i])
      invariant responses == AllResponses(rs[..i], sends[..i])
    {
      assert rs[..i + 1][..i] == rs[..i] && sends[..i + 1][..i] == sends[..i];
      var receptor := rs[i];
      var chatId := ParseInt64(receptor);
      ghost var entry := Entry(receptor, sends[i]);
      ghost var more := Responses(receptor, sends[i]);
      assert Entries(rs[..i + 1], sends[..i + 1]) == errStack.items + [entry];
      assert AllResponses(rs[..i + 1], sends[..i + 1]) == responses + more;
      if chatId.None? {
        errStack.Append(Some(ParseErrorText(receptor)));
      } else if sends[i].Err? {
        errStack.Append(Some(sends[i].error));
        responses := responses + [receptor];
      } else {
        errStack.items := errStack.items + [None];
        responses := responses + [Reply(receptor, sends[i])];
      }
      i := i + 1;
    }
    assert rs[..i] == rs && sends[..i] == sends;
    if |errStack.items| > 0 {
      err := Some(errStack.items);
    } else {
      err := None;
    }
  }

  /**
    Every receptor that parses adds exactly one response, so the responses number the
    receptors minus those whose chat id did not parse.
   */
  lemma {:induction false} ResponsesCount(receptors: seq<string>, sends: seq<Result<int, string>>)
    requires |sends| == |receptors|
    ensures |AllResponses(receptors, sends)| == |receptors| - CountUnparsed(receptors)
    decreases |receptors|
  {
    if |receptors| > 0 {
      var k := |receptors| - 1;
      ResponsesCount(receptors[..k], sends[..k]);
    }
  }

  function CountUnparsed(receptors: seq<string>): (n: nat)
    ensures n <= |receptors|
    decreases |receptors|
  {
    if |receptors| == 0 then 0
    else
      var k := |receptors| - 1;
      CountUnparsed(receptors[..k]) + if ParseInt64(receptors[k]).None? then 1 else 0
  }

  /**
    When every chat id parses, the i-th response belongs to the i-th receptor: its id
    when the send succeeded, the receptor itself when it failed.
   */
  lemma {:induction false} ResponsesAligned(receptors: seq<string>, sends: seq<Result<int, string>>)
    requires |sends| == |receptors|
    requires forall i :: 0 <= i < |receptors| ==> ParseInt64(receptors[i]).Some?
    ensures |AllResponses(receptors, sends)| == |receptors|
    ensures forall i :: 0 <= i < |receptors| ==> AllResponses(receptors, sends)[i] == Reply(receptors[i], sends[i])
    decreases |receptors|
  {
    if |receptors| > 0 {
      var k := |receptors| - 1;
      var rs, ss := receptors[..k], sends[..k];
      assert forall i :: 0 <= i < k ==> rs[i] == receptors[i] && ss[i] == sends[i];
      ResponsesAligned(rs, ss);
      var rest := AllResponses(rs, ss);
      assert ParseInt64(receptors[k]).Some?;
      var all := AllResponses(receptors, sends);
      assert all == rest + [Reply(receptors[k], sends[k])];
    }
  }

  /** `Status`: Telegram always reports Failed, whatever the id. */
  function Status(messageId: string): (r: Result<int, string>)
    ensures r.Ok? && r.value == StatusFailed
  {
    Ok(StatusFailed)
  }

  /** The channel's getters: the priority is fixed at 3. */
  function Describe(): (c: Channel)
    ensures c.name == "Telegram" && c.flag == "telegram" && c.priority == 3
  {
    Channel("Telegram", "telegram", 3)
  }
}
