/**
  The Telegram branch of `handleAlert` as evidently intended. The handler reads the
  error text's i-th segment and the i-th message id for the i-th user it visits. That
  match holds only if the segments and ids run in the order of the receptors sent, one
  of each per receptor. Here each user takes the segment and the id at their own
  receptor's position, and `Send` keeps a response in place for a chat id that does not
  parse. The handler model in AlertDispatch keeps the loop as written.
 */
module TelegramAlignment {
  import opened Wrappers
  import opened Text
  import opened Messages
  import opened ErrorStacks
  import opened AlertDispatch
  import Telegram

  /** Where `x` first stands in `s`, or `|s|` when it is absent. */
  function IndexIn(s: seq<string>, x: string): (j: nat)
    ensures j <= |s|
    ensures j < |s| ==> s[j] == x
    ensures x in s ==> j < |s|
    decreases |s|
  {
    if |s| == 0 then 0
    else if s[0] == x then 0
    else 1 + IndexIn(s[1..], x)
  }

  /** The response a receptor keeps in the corrected `Send`: the receptor itself when its chat id does not parse. */
  function AlignedReply(receptor: string, send: Result<int, string>): string {
    if ParseInt64(receptor).None? then receptor else Telegram.Reply(receptor, send)
  }

  /** The corrected `Send` responses: one per receptor, in order. */
  function AlignedResponses(receptors: seq<string>, sends: seq<Result<int, string>>): (r: seq<string>)
    requires |sends| == |receptors|
    ensures |r| == |receptors|
    ensures forall i :: 0 <= i < |receptors| && ParseInt64(receptors[i]).Some? ==> r[i] == Telegram.Reply(receptors[i], sends[i])
  {
    seq(|receptors|, i requires 0 <= i < |receptors| => AlignedReply(receptors[i], sends[i]))
  }

  /** Where every chat id parses, the corrected responses are those the code as written returns. */
  lemma AlignedResponsesAgree(receptors: seq<string>, sends: seq<Result<int, string>>)
    requires |sends| == |receptors|
    requires forall i :: 0 <= i < |receptors| ==> ParseInt64(receptors[i]).Some?
    ensures AlignedResponses(receptors, sends) == Telegram.AllResponses(receptors, sends)
  {
    Telegram.ResponsesAligned(receptors, sends);
  }

  /**
    The corrected Telegram loop: a visited user takes the segment at their receptor's
    position. A segment other than "nil" is saved as sent with the segment as response,
    and a "nil" one as delivered with the id at the same position. Indexing past either
    list panics (the Boolean result). A failed `Add` changes nothing for later users.
   */
  function AlignedLoop(env: Env, name: string, text: string, receptors: seq<string>, segs: seq<string>,
                       msgIds: seq<string>, ids: map<string, string>, ks: seq<string>, attempts: seq<Message>)
    : (r: (seq<Message>, bool))
    decreases |ks|
  {
    if |ks| == 0 then (attempts, false)
    else
      var k := ks[0];
      if k !in ids then AlignedLoop(env, name, text, receptors, segs, msgIds, ids, ks[1..], attempts)
      else
        var j := IndexIn(receptors, ids[k]);
        if j >= |segs| then (attempts, true)
        else if segs[j] != "nil" then
          var m := Record(env, |attempts|, "", text, ids[k], name, k, "", segs[j], Messages.Sent);
          AlignedLoop(env, name, text, receptors, segs, msgIds, ids, ks[1..], attempts + [m])
        else if j >= |msgIds| then (attempts, true)
        else
          var m := Record(env, |attempts|, msgIds[j], text, ids[k], name, k, "", "Delivered", Messages.Delivered);
          AlignedLoop(env, name, text, receptors, segs, msgIds, ids, ks[1..], attempts + [m])
  }

  /** A record that carries its own receptor's answer: the segment, or the id for "nil". */
  ghost predicate OwnAnswer(m: Message, receptors: seq<string>, segs: seq<string>, msgIds: seq<string>) {
    var j := IndexIn(receptors, m.receptor);
    && j < |receptors| && j < |segs| && j < |msgIds|
    && (segs[j] != "nil" ==> m.response == segs[j] && m.senderId == "" && m.status == StatusText(Messages.Sent))
    && (segs[j] == "nil" ==> m.response == "Delivered" && m.senderId == msgIds[j]
                             && m.status == StatusText(Messages.Delivered))
  }

  /**
    With a segment and an id for every receptor, and every user's address among the
    receptors, the corrected loop never panics. It saves one record per visited user, in
    visiting order, and each carries its own receptor's answer.
   */
  lemma {:induction false} AlignedLoopKeepsPlace(env: Env, name: string, text: string, receptors: seq<string>,
                                                 segs: seq<string>, msgIds: seq<string>, ids: map<string, string>,
                                                 ks: seq<string>, attempts: seq<Message>)
    requires |segs| >= |receptors| && |msgIds| >= |receptors|
    requires forall k :: k in ids ==> ids[k] in receptors
    ensures var r := AlignedLoop(env, name, text, receptors, segs, msgIds, ids, ks, attempts);
      && !r.1
      && |r.0| == |attempts| + |Visited(ids, ks)|
      && r.0[..|attempts|] == attempts
      && forall n :: |attempts| <= n < |r.0| ==>
           r.0[n].receptor == Visited(ids, ks)[n - |attempts|] && OwnAnswer(r.0[n], receptors, segs, msgIds)
    decreases |ks|
  {
    if |ks| > 0 {
      var k := ks[0];
      var r := AlignedLoop(env, name, text, receptors, segs, msgIds, ids, ks, attempts);
      if k !in ids {
        AlignedLoopKeepsPlace(env, name, text, receptors, segs, msgIds, ids, ks[1..], attempts);
        assert Visited(ids, ks) == Visited(ids, ks[1..]);
      } else {
        var j := IndexIn(receptors, ids[k]);
        assert j < |receptors|;
        var m := if segs[j] != "nil"
          then Record(env, |attempts|, "", text, ids[k], name, k, "", segs[j], Messages.Sent)
          else Record(env, |attempts|, msgIds[j], text, ids[k], name, k, "", "Delivered", Messages.Delivered);
        assert OwnAnswer(m, receptors, segs, msgIds);
        var more := attempts + [m];
        assert r == AlignedLoop(env, name, text, receptors, segs, msgIds, ids, ks[1..], more);
        AlignedLoopKeepsPlace(env, name, text, receptors, segs, msgIds, ids, ks[1..], more);
        assert Visited(ids, ks) == [ids[k]] + Visited(ids, ks[1..]);
        assert r.0[..|more|][..|attempts|] == r.0[..|attempts|];
        forall n | |attempts| <= n < |r.0|
          ensures r.0[n].receptor == Visited(ids, ks)[n - |attempts|] && OwnAnswer(r.0[n], receptors, segs, msgIds)
        {
          if n == |attempts| {
            assert r.0[n] == r.0[..|more|][n] == m;
          }
        }
      }
    }
  }

  /** The i-th entry of the stack is the i-th receptor's entry. */
  lemma {:induction false} EntriesAt(receptors: seq<string>, sends: seq<Result<int, string>>, i: nat)
    requires |sends| == |receptors| && i < |receptors|
    ensures Telegram.Entries(receptors, sends)[i] == Telegram.Entry(receptors[i], sends[i])
    decreases |receptors|
  {
    var k := |receptors| - 1;
    if i < k {
      EntriesAt(receptors[..k], sends[..k], i);
    }
  }

  /**
    A record that carries what the channel answered for its receptor: the message id when
    the message was sent, otherwise the error text (one that does not read "nil").
   */
  ghost predicate SentAnswer(m: Message, receptor: string, send: Result<int, string>) {
    var e := Telegram.Entry(receptor, send);
    && (e.None? ==> m.senderId == Telegram.Reply(receptor, send))
    && (e.Some? && e.value != "nil" ==> m.response == e.value)
  }

  /**
    The corrected round: the dispatcher splits the channel's error text and reads the
    corrected responses. It never panics, and it saves one record per visited user. A
    user whose message was sent gets the message id of their own chat; any other user
    gets their own error text.
   */
  lemma AlignedRound(env: Env, name: string, text: string, receptors: seq<string>,
                     sends: seq<Result<int, string>>, ids: map<string, string>, ks: seq<string>)
    requires |sends| == |receptors| && SeparatorFree(Telegram.Entries(receptors, sends))
    requires forall k :: k in ids ==> ids[k] in receptors
    ensures var r := AlignedLoop(env, name, text, receptors, Split(Render(Telegram.Entries(receptors, sends)), ';'),
                                 AlignedResponses(receptors, sends), ids, ks, []);
      && !r.1
      && |r.0| == |Visited(ids, ks)|
      && forall n :: 0 <= n < |r.0| ==>
           var j := IndexIn(receptors, r.0[n].receptor);
           j < |receptors| && r.0[n].receptor == receptors[j] && SentAnswer(r.0[n], receptors[j], sends[j])
  {
    var entries := Telegram.Entries(receptors, sends);
    var segs := Split(Render(entries), ';');
    var msgIds := AlignedResponses(receptors, sends);
    SplitRender(entries);
    assert segs == Segments(entries) + [""];
    AlignedLoopKeepsPlace(env, name, text, receptors, segs, msgIds, ids, ks, []);
    var r := AlignedLoop(env, name, text, receptors, segs, msgIds, ids, ks, []);
    forall n | 0 <= n < |r.0|
      ensures var j := IndexIn(receptors, r.0[n].receptor);
              j < |receptors| && r.0[n].receptor == receptors[j] && SentAnswer(r.0[n], receptors[j], sends[j])
    {
      var j := IndexIn(receptors, r.0[n].receptor);
      assert OwnAnswer(r.0[n], receptors, segs, msgIds);
      EntriesAt(receptors, sends, j);
      assert segs[j] == Segment(entries[j]);
    }
  }
}
