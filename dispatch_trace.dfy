/**
  A Telegram round of `handleAlert` traced on concrete data: two receptor groups with one
  user each, the first with a chat id that does not parse. The Telegram channel answers
  with an error text of two segments (the parse error, then "nil") but with only one
  message id, because an unparseable chat id adds no response; the dispatcher matches
  segments and ids to users by position, so it reads past the ids and panics, whichever
  order the map iteration takes.
 */
module TelegramDispatchTrace {
  import opened Wrappers
  import opened Text
  import opened Notifications
  import opened Alerts
  import opened ErrorStacks
  import opened AlertDispatch
  import Telegram
  import TelegramAlignment

  const Bot: Channel := Channel("Telegram", "telegram", 3)

  /** What the bot answers per chat: the first is never consulted, its id does not parse. */
  const Chats: seq<Result<int, string>> := [Err("chat not found"), Ok(555)]

  const Receptors: seq<string> := ["abc", "123"]

  /** The channel's error text for the chat id "abc". */
  const BadChatError: string := Telegram.ParseErrorText(Receptors[0])

  /** `receptorRepo` for the "telegram" flag: group g1 holds user u1, group g2 user u2. */
  const TwoGroups: map<(string, string), map<string, string>> :=
    map[("telegram", "g1") := map["u1" := "abc"], ("telegram", "g2") := map["u2" := "123"]]

  lemma ChatIds()
    ensures ParseInt64("abc").None? && ParseInt64("123") == Some(123)
  {
    assert !IsDigit("abc"[2]);
    assert "123"[..2] == "12" && "12"[..1] == "1" && "1"[..0] == "";
    assert Digits("1") == Some(1);
    assert Digits("12") == Some(12);
    assert Digits("123") == Some(123);
  }

  /** The Telegram channel's answer for the two receptors: one error per receptor, one id. */
  lemma BotAnswer()
    ensures Telegram.Entries(Receptors, Chats) == [Some(BadChatError), None]
    ensures |Telegram.AllResponses(Receptors, Chats)| == 1
  {
    ChatIds();
    assert Receptors[..1] == ["abc"] && Chats[..1] == [Chats[0]];
    assert ["abc"][..0] == [] && [Chats[0]][..0] == [];
  }

  lemma PlainAbc()
    ensures Plain("abc")
  {
    forall i | 0 <= i < 3 ensures 0x61 <= "abc"[i] as int <= 0x63 {
    }
  }

  /** The error text for "abc" (invalid syntax) holds no ';' and is not "nil". */
  lemma BadChatErrorSeparable()
    ensures ';' !in BadChatError && BadChatError != "nil"
  {
    ChatIds();
    PlainAbc();
    QuotePlain("abc");
    ShortFailureIsSyntaxError("abc");
    var q, reason := Quote("abc"), Telegram.ParseErrorReason("abc");
    assert BadChatError == Telegram.ParsePrefix + q + ": " + reason;
    assert ';' !in Telegram.ParsePrefix && ';' !in q && ';' !in ": " && ';' !in reason;
    assert |BadChatError| > 3;
  }

  /** The dispatcher's split of an error text and a nil: the text, "nil", and a trailing "". */
  lemma BotSegments(pe: string)
    requires ';' !in pe
    ensures Split(Render([Some(pe), None]), ';') == [pe, "nil", ""]
  {
    var items := [Some(pe), None];
    assert SeparatorFree(items);
    SplitRender(items);
    assert Segments(items) == [pe, "nil"];
  }

  /** A duplicate-free list drawn from `s` is no longer than `s` is large. */
  lemma {:induction false} NoDupBound(ks: seq<string>, s: set<string>)
    requires NoDup(ks) && forall i :: 0 <= i < |ks| ==> ks[i] in s
    ensures |ks| <= |s|
    decreases |ks|
  {
    if |ks| > 0 {
      var rest := ks[1..];
      forall i | 0 <= i < |rest| ensures rest[i] in s - {ks[0]} {
        assert rest[i] == ks[i + 1] && ks[i + 1] != ks[0];
      }
      assert NoDup(rest) by {
        forall i, j | 0 <= i < j < |rest| ensures rest[i] != rest[j] {
          assert rest[i] == ks[i + 1] && rest[j] == ks[j + 1];
        }
      }
      NoDupBound(rest, s - {ks[0]});
    }
  }

  /** A one-key map is visited as that key alone. */
  lemma OneKey(ks: seq<string>, k: string, v: string)
    requires Enumerates(ks, map[k := v])
    ensures ks == [k]
  {
    assert k in ks;
    forall i | 0 <= i < |ks| ensures ks[i] in {k} {
      assert ks[i] in ks;
    }
    NoDupBound(ks, {k});
  }

  /** A two-key map is visited in one of the two orders. */
  lemma TwoKeys(ks: seq<string>, m: map<string, string>, a: string, b: string)
    requires a != b && m.Keys == {a, b} && Enumerates(ks, m)
    ensures ks == [a, b] || ks == [b, a]
  {
    assert a in ks && b in ks;
    forall i | 0 <= i < |ks| ensures ks[i] in {a, b} {
      assert ks[i] in ks;
    }
    NoDupBound(ks, {a, b});
    var i :| 0 <= i < |ks| && ks[i] == a;
    var j :| 0 <= j < |ks| && ks[j] == b;
    assert i != j;
    assert |ks| == 2;
    assert ks[0] != ks[1];
  }

  /** Both groups are found; each adds its one user and address. */
  lemma CollectTwoGroups(env: Env)
    requires env.cache == TwoGroups && ValidOrder(env)
    ensures Collect(env, "telegram", ["g1", "g2"], Pick(map[], map[], []))
            == Ok(Pick(map["u1" := "abc", "u2" := "123"], map["u1" := false, "u2" := false], Receptors))
  {
    var m1 := map["u1" := "abc"];
    var m2 := map["u2" := "123"];
    assert Enumerates(env.order(m1), m1) && Enumerates(env.order(m2), m2);
    OneKey(env.order(m1), "u1", "abc");
    OneKey(env.order(m2), "u2", "123");
    var p0 := Pick(map[], map[], []);
    var p1 := Gather(m1, ["u1"], p0);
    assert p1 == Pick(map["u1" := "abc"], map["u1" := false], ["abc"]);
    var p2 := Gather(m2, ["u2"], p1);
    assert "123" !in p1.receptors;
    assert p2 == Pick(map["u1" := "abc", "u2" := "123"], map["u1" := false, "u2" := false], Receptors);
    assert Collect(env, "telegram", ["g2"], p1) == Collect(env, "telegram", [], p2);
  }

  /**
    The first user visited takes the parse error as a "sent" response, the second reads
    the "nil" segment and with it the second message id, which does not exist.
   */
  lemma LoopPanics(env: Env, text: string, pe: string, ks: seq<string>, msgIds: seq<string>)
    requires ks == ["u1", "u2"] || ks == ["u2", "u1"]
    requires forall m :: env.add(m).None?
    requires |msgIds| == 1 && pe != "nil"
    ensures TelegramLoop(env, "Telegram", text, [pe, "nil", ""], msgIds,
                         map["u1" := "abc", "u2" := "123"], ks, [], 0).1
  {
    var segs := [pe, "nil", ""];
    var ids := map["u1" := "abc", "u2" := "123"];
    var k0, k1 := ks[0], ks[1];
    assert k0 in ids && k1 in ids && ks[1..] == [k1] && ks[1..][1..] == [];
    var m := Record(env, 0, "", text, ids[k0], "Telegram", k0, "", segs[0], Messages.Sent);
    assert env.add(m).None?;
    var after := TelegramLoop(env, "Telegram", text, segs, msgIds, ids, [k1], [m], 1);
    assert segs[1] == "nil" && 1 >= |msgIds|;
    assert after == ([m], true);
    assert [] + [m] == [m];
    assert TelegramLoop(env, "Telegram", text, segs, msgIds, ids, ks, [], 0)
           == TelegramLoop(env, "Telegram", text, segs, msgIds, ids, ks[1..], [] + [m], 1);
  }

  /**
    The handler panics on this alert, and the alert is never marked sent, whatever order
    Go's map iteration takes and even though every record is accepted.
   */
  lemma MismatchedIdsPanic(al: Alert, env: Env)
    requires al.methods == ["telegram"] && al.receptor == ["g1", "g2"]
    requires env.cache == TwoGroups && ValidOrder(env)
    requires forall m :: env.add(m).None?
    requires env.send(Bot, Notification(al.name, al.description, al.status, env.time, Receptors))
             == SendResult(Telegram.AllResponses(Receptors, Chats), Some(Render(Telegram.Entries(Receptors, Chats))))
    ensures Handle(al, Ok([Bot]), env).exit == Panicked
    ensures !Handle(al, Ok([Bot]), env).marked
  {
    BotAnswer();
    BadChatErrorSeparable();
    OneIdTwoSegmentsPanic(al, env, BadChatError, Telegram.AllResponses(Receptors, Chats));
  }

  /** An answer of an error text, a nil and a single message id makes this round panic. */
  lemma OneIdTwoSegmentsPanic(al: Alert, env: Env, pe: string, msgIds: seq<string>)
    requires al.methods == ["telegram"] && al.receptor == ["g1", "g2"]
    requires env.cache == TwoGroups && ValidOrder(env)
    requires forall m :: env.add(m).None?
    requires ';' !in pe && pe != "nil" && |msgIds| == 1
    requires env.send(Bot, Notification(al.name, al.description, al.status, env.time, Receptors))
             == SendResult(msgIds, Some(Render([Some(pe), None])))
    ensures Handle(al, Ok([Bot]), env).exit == Panicked
    ensures !Handle(al, Ok([Bot]), env).marked
  {
    CollectTwoGroups(env);
    BotSegments(pe);
    var ids := map["u1" := "abc", "u2" := "123"];
    var pk := Pick(ids, map["u1" := false, "u2" := false], Receptors);
    var ks := env.order(ids);
    assert Enumerates(ks, ids);
    assert ids.Keys == {"u1", "u2"};
    TwoKeys(ks, ids, "u1", "u2");
    LoopPanics(env, SaveText(al), pe, ks, msgIds);
    assert Round(env, al, Bot, Start) == Deliver(env, al, Bot, pk, [], [Receptors]);
    assert Deliver(env, al, Bot, pk, [], [Receptors]).Done?;
  }

  /**
    The same answer read by the corrected loop: neither user panics the round, and both
    get a record, whichever order the map iteration takes.
   */
  lemma AlignedTraceCompletes(env: Env, text: string, ks: seq<string>)
    requires ks == ["u1", "u2"] || ks == ["u2", "u1"]
    ensures var r := TelegramAlignment.AlignedLoop(env, "Telegram", text, Receptors,
                       Split(Render(Telegram.Entries(Receptors, Chats)), ';'),
                       TelegramAlignment.AlignedResponses(Receptors, Chats),
                       map["u1" := "abc", "u2" := "123"], ks, []);
      !r.1 && |r.0| == 2
  {
    BotAnswer();
    BadChatErrorSeparable();
    BotSegments(BadChatError);
    AlignedTwoUsers(env, text, Split(Render(Telegram.Entries(Receptors, Chats)), ';'),
                    TelegramAlignment.AlignedResponses(Receptors, Chats), ks);
  }

  /** With a segment and an id for each of the two receptors, the corrected loop saves both users. */
  lemma AlignedTwoUsers(env: Env, text: string, segs: seq<string>, msgIds: seq<string>, ks: seq<string>)
    requires ks == ["u1", "u2"] || ks == ["u2", "u1"]
    requires |segs| >= 2 && |msgIds| >= 2
    ensures var r := TelegramAlignment.AlignedLoop(env, "Telegram", text, Receptors, segs, msgIds,
                                                   map["u1" := "abc", "u2" := "123"], ks, []);
      !r.1 && |r.0| == 2
  {
    var ids := map["u1" := "abc", "u2" := "123"];
    assert forall k :: k in ids ==> ids[k] in Receptors;
    TelegramAlignment.AlignedLoopKeepsPlace(env, "Telegram", text, Receptors, segs, msgIds, ids, ks, []);
    assert ks[1..] == [ks[1]] && ks[1..][1..] == [];
    assert ks[0] in ids && ks[1] in ids;
    assert Visited(ids, ks[1..]) == [ids[ks[1]]] + Visited(ids, []);
    assert |Visited(ids, ks)| == 1 + |Visited(ids, ks[1..])|;
  }
}
