/**
  What `handleAlert` does with one alert, as functions of the alert, the providers
  `getProvider` chose, and the answers of everything the handler calls out to: the
  receptor cache, each provider's `Send`, the message repository's `Add` and the alert
  repository's `MarkAlertAsSent`. Go's map iteration order is the `order` oracle.

  The outcome records every message handed to `Add` (whatever `Add` answered), the
  receptor list of every `Send` call, whether the alert was marked sent, and how the
  handler ended: with a returned error value, or with a run-time panic.
 */
module AlertDispatch {
  import opened Wrappers
  import opened Text
  import opened Notifications
  import opened Alerts
  import opened Messages

  /** What a provider's `Send` returned: the message ids and the error, if any. */
  datatype SendResult = SendResult(ids: seq<string>, err: Option<string>)

  /** How the handler ended: a returned error (None for nil), or a run-time panic. */
  datatype Exit = Returned(err: Option<string>) | Panicked

  /** The handler's collaborators, as oracles. */
  datatype Env = Env(
    /** `receptorRepo.Get(flag, group)`: the group's user-id-to-address map, if cached. */
    cache: map<(string, string), map<string, string>>,
    send: (Channel, Notification) -> SendResult,
    /** `messageRepo.Add`'s error for a record. */
    add: Message -> Option<string>,
    /** `MarkAlertAsSent`'s error. */
    mark: Option<string>,
    /** The order in which `range` visits a map's keys. */
    order: map<string, string> -> seq<string>,
    /** The fresh message id `NewMessage` draws for the n-th record built. */
    uuid: nat -> string,
    now: int,
    time: string)

  predicate NoDup<T(==)>(s: seq<T>) {
    forall i, j :: 0 <= i < j < |s| ==> s[i] != s[j]
  }

  /** `ks` lists each key of `m` exactly once. */
  ghost predicate Enumerates(ks: seq<string>, m: map<string, string>) {
    NoDup(ks) && (forall k :: k in ks <==> k in m)
  }

  /** Map iteration visits every key exactly once. */
  ghost predicate ValidOrder(env: Env) {
    forall m: map<string, string> :: Enumerates(env.order(m), m)
  }

  /** A user whose message was saved as sent: Go's map read, false when absent. */
  predicate AlreadySent(userMessage: map<string, bool>, k: string) {
    k in userMessage && userMessage[k]
  }

  /**
    The collection state of one provider round: `ids` (user id to address, this round
    only), `userMessage` and `receptors`, which both persist across rounds.
   */
  datatype Pick = Pick(ids: map<string, string>, userMessage: map<string, bool>, receptors: seq<string>)

  /**
    `for k, v := range cacheReceptors`: a user already sent to, or an address already
    listed, is skipped; otherwise the user is recorded and the address appended.
   */
  function Gather(m: map<string, string>, ks: seq<string>, w: Pick): Pick
    decreases |ks|
  {
    if |ks| == 0 then w
    else
      var k := ks[0];
      if k !in m || AlreadySent(w.userMessage, k) || m[k] in w.receptors then Gather(m, ks[1..], w)
      else Gather(m, ks[1..], Pick(w.ids[k := m[k]], w.userMessage[k := false], w.receptors + [m[k]]))
  }

  /** `for _, r := range al.Receptor`: gathers each group in turn; a cache miss stops with that group. */
  function Collect(env: Env, flag: string, groups: seq<string>, w: Pick): Result<Pick, string>
    decreases |groups|
  {
    if |groups| == 0 then Ok(w)
    else if (flag, groups[0]) !in env.cache then Err(groups[0])
    else
      var m := env.cache[(flag, groups[0])];
      Collect(env, flag, groups[1..], Gather(m, env.order(m), w))
  }

  /** `saveTextMsg`: state, subject and message joined by ':'. */
  function SaveText(al: Alert): string {
    al.status + ":" + al.name + ":" + al.description
  }

  /** The record `NewMessage` builds with a single-provider chain, as the handler's `n`-th. */
  function Record(env: Env, n: nat, senderId: string, text: string, receptor: string, sender: string,
                  userId: string, groupName: string, response: string, status: int): Message
  {
    NewMessage(senderId, text, receptor, sender, userId, groupName, response, [sender], status, env.uuid(n), env.now)
  }

  /**
    The Telegram loop: the i-th error segment is matched with the i-th visited user. A
    segment other than "nil" is saved as sent with the segment as response; a "nil" one as
    delivered with `msgIds[i]`. `i` advances only when `Add` succeeds. Indexing past either
    list panics (the Boolean result).
   */
  function TelegramLoop(env: Env, name: string, text: string, segs: seq<string>, msgIds: seq<string>,
                        ids: map<string, string>, ks: seq<string>, attempts: seq<Message>, i: nat)
    : (r: (seq<Message>, bool))
    decreases |ks|
  {
    if |ks| == 0 then (attempts, false)
    else
      var k := ks[0];
      if k !in ids then TelegramLoop(env, name, text, segs, msgIds, ids, ks[1..], attempts, i)
      else if i >= |segs| then (attempts, true)
      else if segs[i] != "nil" then
        var m := Record(env, |attempts|, "", text, ids[k], name, k, "", segs[i], Messages.Sent);
        TelegramLoop(env, name, text, segs, msgIds, ids, ks[1..], attempts + [m], if env.add(m).Some? then i else i + 1)
      else if i >= |msgIds| then (attempts, true)
      else
        var m := Record(env, |attempts|, msgIds[i], text, ids[k], name, k, "", "Delivered", Messages.Delivered);
        TelegramLoop(env, name, text, segs, msgIds, ids, ks[1..], attempts + [m], if env.add(m).Some? then i else i + 1)
  }

  /**
    The failed-send loop: one failed record per user, with the send error as response and
    the user id as group name; the first `Add` error ends the handler with that error.
   */
  function FailedLoop(env: Env, name: string, text: string, errText: string,
                      ids: map<string, string>, ks: seq<string>, attempts: seq<Message>)
    : (r: (seq<Message>, Option<string>))
    decreases |ks|
  {
    if |ks| == 0 then (attempts, None)
    else
      var k := ks[0];
      if k !in ids then FailedLoop(env, name, text, errText, ids, ks[1..], attempts)
      else
        var m := Record(env, |attempts|, "", text, ids[k], name, k, k, errText, Messages.Failed);
        if env.add(m).Some? then (attempts + [m], env.add(m))
        else FailedLoop(env, name, text, errText, ids, ks[1..], attempts + [m])
  }

  /**
    The sent loop: every visited user is marked as sent before its record is built with
    `msgIds[i]`; `i` advances only when `Add` succeeds, and indexing past `msgIds` panics.
   */
  function SentLoop(env: Env, name: string, text: string, msgIds: seq<string>, ids: map<string, string>,
                    ks: seq<string>, attempts: seq<Message>, userMessage: map<string, bool>, i: nat)
    : (r: (seq<Message>, map<string, bool>, bool))
    decreases |ks|
  {
    if |ks| == 0 then (attempts, userMessage, false)
    else
      var k := ks[0];
      if k !in ids then SentLoop(env, name, text, msgIds, ids, ks[1..], attempts, userMessage, i)
      else
        var um := userMessage[k := true];
        if i >= |msgIds| then (attempts, um, true)
        else
          var m := Record(env, |attempts|, msgIds[i], text, ids[k], name, k, "", "Sent", Messages.Sent);
          SentLoop(env, name, text, msgIds, ids, ks[1..], attempts + [m], um, if env.add(m).Some? then i else i + 1)
  }

  /** The state carried from one provider round to the next. */
  datatype Work = Work(userMessage: map<string, bool>, receptors: seq<string>, attempts: seq<Message>,
                       sent: seq<seq<string>>)

  /** Everything the handler did. */
  datatype Outcome = Outcome(attempts: seq<Message>, sent: seq<seq<string>>, marked: bool, exit: Exit)

  datatype Step = Next(w: Work) | Done(o: Outcome)

  /** The error returned for a group missing from the cache, once the alert is marked. */
  function MissText(mark: Option<string>, group: string): string {
    if mark.Some? then "failed to mark alert as sent: " + mark.value
    else "failed to get receptors from group: " + group
  }

  /**
    The send and the records of one round, given the round's collection `pk` and the
    list of sends so far including this one.
   */
  function Deliver(env: Env, al: Alert, p: Channel, pk: Pick, attempts: seq<Message>, sent: seq<seq<string>>)
    : (r: Step)
    ensures r.Done? ==> r.o.sent == sent && !r.o.marked
    ensures r.Next? ==> r.w.sent == sent && r.w.receptors == pk.receptors
  {
    var out := env.send(p, Notification(al.name, al.description, al.status, env.time, pk.receptors));
    var ks := env.order(pk.ids);
    if p.name == "Telegram" then
      if out.err.None? then Done(Outcome(attempts, sent, false, Panicked))
      else
        var t := TelegramLoop(env, p.name, SaveText(al), Split(out.err.value, ';'), out.ids, pk.ids, ks, attempts, 0);
        if t.1 then Done(Outcome(t.0, sent, false, Panicked))
        else Next(Work(pk.userMessage, pk.receptors, t.0, sent))
    else if out.err.Some? then
      var f := FailedLoop(env, p.name, SaveText(al), out.err.value, pk.ids, ks, attempts);
      if f.1.Some? then Done(Outcome(f.0, sent, false, Returned(f.1)))
      else Next(Work(pk.userMessage, pk.receptors, f.0, sent))
    else
      var s := SentLoop(env, p.name, SaveText(al), out.ids, pk.ids, ks, attempts, pk.userMessage, 0);
      if s.2 then Done(Outcome(s.0, sent, false, Panicked))
      else Next(Work(s.1, pk.receptors, s.0, sent))
  }

  /** One iteration of the provider loop: collect, and send when the receptor list is non-empty. */
  function Round(env: Env, al: Alert, p: Channel, w: Work): Step {
    var c := Collect(env, p.flag, al.receptor, Pick(map[], w.userMessage, w.receptors));
    if c.Err? then Done(Outcome(w.attempts, w.sent, true, Returned(Some(MissText(env.mark, c.error)))))
    else if |c.value.receptors| == 0 then Next(Work(c.value.userMessage, c.value.receptors, w.attempts, w.sent))
    else Deliver(env, al, p, c.value, w.attempts, w.sent + [c.value.receptors])
  }

  /** The provider loop, then `MarkAlertAsSent`, whose answer is returned. */
  function Rounds(env: Env, al: Alert, ps: seq<Channel>, w: Work): Outcome
    decreases |ps|
  {
    if |ps| == 0 then Outcome(w.attempts, w.sent, true, Returned(env.mark))
    else
      var s := Round(env, al, ps[0], w);
      if s.Done? then s.o else Rounds(env, al, ps[1..], s.w)
  }

  /** The start state of the provider loop. */
  const Start: Work := Work(map[], [], [], [])

  /**
    `handleAlert`: an alert without channels or without receptor groups, or one for which
    `getProvider` failed, is only marked sent, and the handler returns what marking it
    returned (so a failed provider lookup returns nil once marking succeeds).
   */
  function Handle(al: Alert, providers: Result<seq<Channel>, string>, env: Env): (r: Outcome)
    ensures providers.Err? ==> r.attempts == [] && r.sent == [] && r.marked
    ensures providers.Ok? ==> |r.sent| <= |providers.value|
  {
    if |al.methods| == 0 || |al.receptor| == 0 || providers.Err? then Outcome([], [], true, Returned(env.mark))
    else
      RoundsSendOnce(env, al, providers.value, Start);
      Rounds(env, al, providers.value, Start)
  }

  /** Each provider round sends at most once. */
  lemma {:induction false} RoundsSendOnce(env: Env, al: Alert, ps: seq<Channel>, w: Work)
    ensures |Rounds(env, al, ps, w).sent| <= |w.sent| + |ps|
    decreases |ps|
  {
    if |ps| > 0 {
      var s := Round(env, al, ps[0], w);
      if s.Next? {
        RoundsSendOnce(env, al, ps[1..], s.w);
      }
    }
  }

  /** The lookup-free paths: only the mark is made, and its answer is returned. */
  lemma UnroutableAlertOnlyMarked(al: Alert, providers: Result<seq<Channel>, string>, env: Env)
    requires |al.methods| == 0 || |al.receptor| == 0 || providers.Err?
    ensures Handle(al, providers, env) == Outcome([], [], true, Returned(env.mark))
  {
  }

  lemma {:induction false} RoundsMarked(env: Env, al: Alert, ps: seq<Channel>, w: Work)
    ensures Rounds(env, al, ps, w).exit == Returned(None) ==> Rounds(env, al, ps, w).marked
    ensures Rounds(env, al, ps, w).marked ==> Rounds(env, al, ps, w).exit.Returned?
    decreases |ps|
  {
    if |ps| > 0 {
      var s := Round(env, al, ps[0], w);
      if s.Next? {
        RoundsMarked(env, al, ps[1..], s.w);
      }
    }
  }

  /**
    A nil return means the alert was marked sent, and marking is the handler's last act:
    once it is marked, the handler returns rather than panics.
   */
  lemma NilMeansMarked(al: Alert, providers: Result<seq<Channel>, string>, env: Env)
    ensures Handle(al, providers, env).exit == Returned(None) ==> Handle(al, providers, env).marked
    ensures Handle(al, providers, env).marked ==> Handle(al, providers, env).exit.Returned?
  {
    if !(|al.methods| == 0 || |al.receptor| == 0 || providers.Err?) {
      RoundsMarked(env, al, providers.value, Start);
    }
  }

  lemma {:induction false} CollectMisses(env: Env, flag: string, groups: seq<string>, w: Pick, g: string)
    requires g in groups && (flag, g) !in env.cache
    ensures Collect(env, flag, groups, w).Err?
    decreases |groups|
  {
    if groups[0] != g && (flag, groups[0]) in env.cache {
      var m := env.cache[(flag, groups[0])];
      CollectMisses(env, flag, groups[1..], Gather(m, env.order(m), w), g);
    }
  }

  /**
    A receptor group the cache lacks for the first provider's flag ends the handler
    before any send: the alert is marked and an error is returned.
   */
  lemma MissingGroupMarks(al: Alert, ps: seq<Channel>, env: Env, g: string)
    requires |al.methods| > 0 && |ps| > 0 && g in al.receptor && (ps[0].flag, g) !in env.cache
    ensures Handle(al, Ok(ps), env).marked && Handle(al, Ok(ps), env).exit.Returned?
    ensures Handle(al, Ok(ps), env).exit.err.Some?
    ensures Handle(al, Ok(ps), env).attempts == [] && Handle(al, Ok(ps), env).sent == []
  {
    CollectMisses(env, ps[0].flag, al.receptor, Pick(map[], Start.userMessage, Start.receptors), g);
  }

  /**
    A receptor group the cache lacks for the flag of the provider at position `i`: the
    rounds never return nil, and if the alert ends up marked, an error is returned with it.
   */
  lemma {:induction false} MissingGroupRounds(env: Env, al: Alert, ps: seq<Channel>, w: Work, g: string, i: nat)
    requires i < |ps| && g in al.receptor && (ps[i].flag, g) !in env.cache
    ensures Rounds(env, al, ps, w).exit != Returned(None)
    ensures Rounds(env, al, ps, w).marked ==> Rounds(env, al, ps, w).exit.Returned? && Rounds(env, al, ps, w).exit.err.Some?
    decreases |ps|
  {
    var s := Round(env, al, ps[0], w);
    if i == 0 {
      CollectMisses(env, ps[0].flag, al.receptor, Pick(map[], w.userMessage, w.receptors), g);
    } else if s.Next? {
      MissingGroupRounds(env, al, ps[1..], s.w, g, i - 1);
    }
  }

  /**
    A receptor group the cache lacks for any provider's flag means the handler never
    reports success: it panics, returns a record error, or marks the alert and returns
    the missing-group error.
   */
  lemma MissingGroupNeverNil(al: Alert, ps: seq<Channel>, env: Env, g: string, i: nat)
    requires |al.methods| > 0 && i < |ps| && g in al.receptor && (ps[i].flag, g) !in env.cache
    ensures Handle(al, Ok(ps), env).exit != Returned(None)
    ensures Handle(al, Ok(ps), env).marked ==> Handle(al, Ok(ps), env).exit.Returned? && Handle(al, Ok(ps), env).exit.err.Some?
  {
    MissingGroupRounds(env, al, ps, Start, g, i);
  }

  /** Each `Send` after the first gets the previous one's list extended. */
  ghost predicate Accumulating(sent: seq<seq<string>>) {
    (forall i :: 0 <= i < |sent| ==> |sent[i]| > 0 && NoDup(sent[i]))
    && (forall i :: 0 < i < |sent| ==> sent[i - 1] <= sent[i])
  }

  lemma {:induction false} GatherGrows(m: map<string, string>, ks: seq<string>, w: Pick)
    requires NoDup(w.receptors)
    ensures w.receptors <= Gather(m, ks, w).receptors && NoDup(Gather(m, ks, w).receptors)
    decreases |ks|
  {
    if |ks| > 0 {
      var k := ks[0];
      if k !in m || AlreadySent(w.userMessage, k) || m[k] in w.receptors {
        GatherGrows(m, ks[1..], w);
      } else {
        var w1 := Pick(w.ids[k := m[k]], w.userMessage[k := false], w.receptors + [m[k]]);
        GatherGrows(m, ks[1..], w1);
      }
    }
  }

  lemma {:induction false} CollectGrows(env: Env, flag: string, groups: seq<string>, w: Pick)
    requires NoDup(w.receptors)
    ensures Collect(env, flag, groups, w).Ok? ==>
      w.receptors <= Collect(env, flag, groups, w).value.receptors
      && NoDup(Collect(env, flag, groups, w).value.receptors)
    decreases |groups|
  {
    if |groups| > 0 && (flag, groups[0]) in env.cache {
      var m := env.cache[(flag, groups[0])];
      GatherGrows(m, env.order(m), w);
      CollectGrows(env, flag, groups[1..], Gather(m, env.order(m), w));
    }
  }

  /** The round invariant behind `Accumulating`. */
  ghost predicate SentSoFar(w: Work) {
    NoDup(w.receptors) && Accumulating(w.sent) && (|w.sent| > 0 ==> w.sent[|w.sent| - 1] <= w.receptors)
  }

  lemma RoundAccumulates(env: Env, al: Alert, p: Channel, w: Work)
    requires SentSoFar(w)
    ensures Round(env, al, p, w).Next? ==> SentSoFar(Round(env, al, p, w).w)
    ensures Round(env, al, p, w).Done? ==> Accumulating(Round(env, al, p, w).o.sent)
  {
    var c := Collect(env, p.flag, al.receptor, Pick(map[], w.userMessage, w.receptors));
    CollectGrows(env, p.flag, al.receptor, Pick(map[], w.userMessage, w.receptors));
    if c.Ok? && |c.value.receptors| > 0 {
      var r := c.value.receptors;
      var sent := w.sent + [r];
      assert forall i :: 0 <= i < |w.sent| ==> sent[i] == w.sent[i];
      assert Accumulating(sent);
    }
  }

  lemma {:induction false} RoundsAccumulate(env: Env, al: Alert, ps: seq<Channel>, w: Work)
    requires SentSoFar(w)
    ensures Accumulating(Rounds(env, al, ps, w).sent)
    decreases |ps|
  {
    RoundAccumulates(env, al, if |ps| > 0 then ps[0] else Channel("", "", 0), w);
    if |ps| > 0 {
      var s := Round(env, al, ps[0], w);
      if s.Next? {
        RoundsAccumulate(env, al, ps[1..], s.w);
      }
    }
  }

  /**
    The receptor list is shared by all provider rounds: every `Send` gets a non-empty,
    duplicate-free list that extends the list the previous `Send` got.
   */
  lemma SendsAccumulate(al: Alert, providers: Result<seq<Channel>, string>, env: Env)
    ensures Accumulating(Handle(al, providers, env).sent)
  {
    if !(|al.methods| == 0 || |al.receptor| == 0 || providers.Err?) {
      RoundsAccumulate(env, al, providers.value, Start);
    }
  }

  /** The address of every record, in order. */
  function Addresses(ms: seq<Message>): (r: seq<string>)
    ensures |r| == |ms| && forall i :: 0 <= i < |ms| ==> r[i] == ms[i].receptor
  {
    seq(|ms|, i requires 0 <= i < |ms| => ms[i].receptor)
  }

  /** The addresses of the keys `ks` that `ids` holds, in order. */
  function Visited(ids: map<string, string>, ks: seq<string>): seq<string>
    decreases |ks|
  {
    if |ks| == 0 then []
    else (if ks[0] in ids then [ids[ks[0]]] else []) + Visited(ids, ks[1..])
  }

  /** No two users share an address. */
  ghost predicate Injective(ids: map<string, string>) {
    forall a, b :: a in ids && b in ids && a != b ==> ids[a] != ids[b]
  }

  lemma NoDupConcat(a: seq<string>, b: seq<string>)
    requires NoDup(a) && NoDup(b) && forall x :: x in a ==> x !in b
    ensures NoDup(a + b)
  {
    var c := a + b;
    forall i, j | 0 <= i < j < |c| ensures c[i] != c[j] {
      if j < |a| {
        assert c[i] == a[i] && c[j] == a[j];
      } else if i >= |a| {
        assert c[i] == b[i - |a|] && c[j] == b[j - |a|];
      } else {
        assert c[i] == a[i] && c[j] == b[j - |a|];
        assert a[i] in a;
      }
    }
  }

  lemma {:induction false} VisitedDistinct(ids: map<string, string>, ks: seq<string>)
    requires NoDup(ks) && Injective(ids)
    ensures NoDup(Visited(ids, ks))
    ensures forall a :: a in Visited(ids, ks) ==> a in ids.Values
    ensures forall k :: k in ids && k !in ks ==> ids[k] !in Visited(ids, ks)
    decreases |ks|
  {
    if |ks| > 0 {
      var rest := ks[1..];
      assert NoDup(rest) by {
        forall i, j | 0 <= i < j < |rest| ensures rest[i] != rest[j] {
          assert rest[i] == ks[i + 1] && rest[j] == ks[j + 1];
        }
      }
      VisitedDistinct(ids, rest);
      assert ks[0] !in rest by {
        forall i | 0 <= i < |rest| ensures rest[i] != ks[0] {
          assert rest[i] == ks[i + 1];
        }
      }
      var head := if ks[0] in ids then [ids[ks[0]]] else [];
      NoDupConcat(head, Visited(ids, rest));
    }
  }

  lemma {:induction false} VisitedStep(ids: map<string, string>, ks: seq<string>, n: nat)
    requires |ks| > 0 && n < |ks|
    ensures Visited(ids, ks[..n + 1])
            == (if ks[0] in ids then [ids[ks[0]]] else []) + Visited(ids, ks[1..][..n])
  {
    var p := ks[..n + 1];
    assert p[0] == ks[0] && p[1..] == ks[1..][..n];
  }

  lemma {:induction false} TelegramAddresses(env: Env, name: string, text: string, segs: seq<string>,
                                            msgIds: seq<string>, ids: map<string, string>, ks: seq<string>,
                                            attempts: seq<Message>, i: nat)
    returns (n: nat)
    ensures n <= |ks|
    ensures Addresses(TelegramLoop(env, name, text, segs, msgIds, ids, ks, attempts, i).0)
            == Addresses(attempts) + Visited(ids, ks[..n])
    decreases |ks|
  {
    if |ks| == 0 {
      return 0;
    }
    var k := ks[0];
    if k !in ids {
      n := TelegramAddresses(env, name, text, segs, msgIds, ids, ks[1..], attempts, i);
      VisitedStep(ids, ks, n);
      n := n + 1;
    } else if i >= |segs| || (segs[i] == "nil" && i >= |msgIds|) {
      n := 0;
    } else {
      var m := if segs[i] != "nil"
        then Record(env, |attempts|, "", text, ids[k], name, k, "", segs[i], Messages.Sent)
        else Record(env, |attempts|, msgIds[i], text, ids[k], name, k, "", "Delivered", Messages.Delivered);
      n := TelegramAddresses(env, name, text, segs, msgIds, ids, ks[1..], attempts + [m],
                             if env.add(m).Some? then i else i + 1);
      VisitedStep(ids, ks, n);
      assert Addresses(attempts + [m]) == Addresses(attempts) + [ids[k]];
      n := n + 1;
    }
  }

  lemma {:induction false} FailedAddresses(env: Env, name: string, text: string, errText: string,
                                          ids: map<string, string>, ks: seq<string>, attempts: seq<Message>)
    returns (n: nat)
    ensures n <= |ks|
    ensures Addresses(FailedLoop(env, name, text, errText, ids, ks, attempts).0)
            == Addresses(attempts) + Visited(ids, ks[..n])
    decreases |ks|
  {
    if |ks| == 0 {
      return 0;
    }
    var k := ks[0];
    if k !in ids {
      n := FailedAddresses(env, name, text, errText, ids, ks[1..], attempts);
      VisitedStep(ids, ks, n);
      n := n + 1;
    } else {
      var m := Record(env, |attempts|, "", text, ids[k], name, k, k, errText, Messages.Failed);
      assert Addresses(attempts + [m]) == Addresses(attempts) + [ids[k]];
      if env.add(m).Some? {
        VisitedStep(ids, ks, 0);
        assert ks[1..][..0] == [];
        n := 1;
      } else {
        n := FailedAddresses(env, name, text, errText, ids, ks[1..], attempts + [m]);
        VisitedStep(ids, ks, n);
        n := n + 1;
      }
    }
  }

  lemma {:induction false} SentAddresses(env: Env, name: string, text: string, msgIds: seq<string>,
                                        ids: map<string, string>, ks: seq<string>, attempts: seq<Message>,
                                        userMessage: map<string, bool>, i: nat)
    returns (n: nat)
    ensures n <= |ks|
    ensures Addresses(SentLoop(env, name, text, msgIds, ids, ks, attempts, userMessage, i).0)
            == Addresses(attempts) + Visited(ids, ks[..n])
    decreases |ks|
  {
    if |ks| == 0 {
      return 0;
    }
    var k := ks[0];
    if k !in ids {
      n := SentAddresses(env, name, text, msgIds, ids, ks[1..], attempts, userMessage, i);
      VisitedStep(ids, ks, n);
      n := n + 1;
    } else if i >= |msgIds| {
      n := 0;
    } else {
      var m := Record(env, |attempts|, msgIds[i], text, ids[k], name, k, "", "Sent", Messages.Sent);
      n := SentAddresses(env, name, text, msgIds, ids, ks[1..], attempts + [m], userMessage[k := true],
                         if env.add(m).Some? then i else i + 1);
      VisitedStep(ids, ks, n);
      assert Addresses(attempts + [m]) == Addresses(attempts) + [ids[k]];
      n := n + 1;
    }
  }

  /** Whatever branch a round takes, its records go to the first `n` visited users. */
  lemma DeliverAddresses(env: Env, al: Alert, p: Channel, pk: Pick, attempts: seq<Message>,
                         sent: seq<seq<string>>)
    returns (n: nat)
    ensures n <= |env.order(pk.ids)|
    ensures Deliver(env, al, p, pk, attempts, sent).Next? ==>
      Addresses(Deliver(env, al, p, pk, attempts, sent).w.attempts)
      == Addresses(attempts) + Visited(pk.ids, env.order(pk.ids)[..n])
    ensures Deliver(env, al, p, pk, attempts, sent).Done? ==>
      Addresses(Deliver(env, al, p, pk, attempts, sent).o.attempts)
      == Addresses(attempts) + Visited(pk.ids, env.order(pk.ids)[..n])
  {
    var out := env.send(p, Notification(al.name, al.description, al.status, env.time, pk.receptors));
    var ks := env.order(pk.ids);
    if p.name == "Telegram" {
      if out.err.None? {
        n := 0;
      } else {
        n := TelegramAddresses(env, p.name, SaveText(al), Split(out.err.value, ';'), out.ids, pk.ids, ks, attempts, 0);
      }
    } else if out.err.Some? {
      n := FailedAddresses(env, p.name, SaveText(al), out.err.value, pk.ids, ks, attempts);
    } else {
      n := SentAddresses(env, p.name, SaveText(al), out.ids, pk.ids, ks, attempts, pk.userMessage, 0);
    }
  }

  /**
    What collection keeps, relative to the receptor list `base` at the start of a round:
    the list only grows, no two users share an address, and each user's address was
    appended in this round.
   */
  ghost predicate FreshPick(w: Pick, base: seq<string>) {
    base <= w.receptors && Injective(w.ids)
    && (forall k :: k in w.ids ==> w.ids[k] in w.receptors && w.ids[k] !in base)
  }

  lemma {:induction false} GatherFresh(m: map<string, string>, ks: seq<string>, w: Pick, base: seq<string>)
    requires FreshPick(w, base)
    ensures FreshPick(Gather(m, ks, w), base)
    decreases |ks|
  {
    if |ks| > 0 {
      var k := ks[0];
      if k !in m || AlreadySent(w.userMessage, k) || m[k] in w.receptors {
        GatherFresh(m, ks[1..], w, base);
      } else {
        var v := m[k];
        var w1 := Pick(w.ids[k := v], w.userMessage[k := false], w.receptors + [v]);
        assert v !in base by {
          assert w.receptors[..|base|] == base;
          forall j | 0 <= j < |base| ensures base[j] != v {
            assert base[j] == w.receptors[j];
          }
        }
        GatherFresh(m, ks[1..], w1, base);
      }
    }
  }

  lemma {:induction false} CollectFresh(env: Env, flag: string, groups: seq<string>, w: Pick, base: seq<string>)
    requires FreshPick(w, base)
    ensures Collect(env, flag, groups, w).Ok? ==> FreshPick(Collect(env, flag, groups, w).value, base)
    decreases |groups|
  {
    if |groups| > 0 && (flag, groups[0]) in env.cache {
      var m := env.cache[(flag, groups[0])];
      GatherFresh(m, env.order(m), w, base);
      CollectFresh(env, flag, groups[1..], Gather(m, env.order(m), w), base);
    }
  }

  /** Every record so far went to a distinct address on the receptor list. */
  ghost predicate Distinct(w: Work) {
    NoDup(Addresses(w.attempts)) && forall a :: a in Addresses(w.attempts) ==> a in w.receptors
  }

  lemma DeliverDistinct(env: Env, al: Alert, p: Channel, pk: Pick, w: Work)
    requires ValidOrder(env) && Distinct(w) && FreshPick(pk, w.receptors)
    ensures var r := Deliver(env, al, p, pk, w.attempts, w.sent + [pk.receptors]);
      (r.Next? ==> Distinct(r.w)) && (r.Done? ==> NoDup(Addresses(r.o.attempts)))
  {
    var sent := w.sent + [pk.receptors];
    var n := DeliverAddresses(env, al, p, pk, w.attempts, sent);
    var ks := env.order(pk.ids);
    assert Enumerates(ks, pk.ids);
    var prefix := ks[..n];
    assert NoDup(prefix) by {
      forall i, j | 0 <= i < j < |prefix| ensures prefix[i] != prefix[j] {
        assert prefix[i] == ks[i] && prefix[j] == ks[j];
      }
    }
    VisitedDistinct(pk.ids, prefix);
    var old_ := Addresses(w.attempts);
    var new_ := Visited(pk.ids, prefix);
    forall x | x in old_ ensures x !in new_ {
      assert x in w.receptors;
    }
    NoDupConcat(old_, new_);
    forall x | x in old_ + new_ ensures x in pk.receptors {
      if x in old_ {
        assert w.receptors == pk.receptors[..|w.receptors|];
        var j :| 0 <= j < |w.receptors| && w.receptors[j] == x;
        assert pk.receptors[j] == x;
      } else {
        assert x in new_;
        var k :| k in pk.ids && pk.ids[k] == x;
      }
    }
  }

  lemma RoundDistinct(env: Env, al: Alert, p: Channel, w: Work)
    requires ValidOrder(env) && Distinct(w)
    ensures Round(env, al, p, w).Next? ==> Distinct(Round(env, al, p, w).w)
    ensures Round(env, al, p, w).Done? ==> NoDup(Addresses(Round(env, al, p, w).o.attempts))
  {
    var w0 := Pick(map[], w.userMessage, w.receptors);
    var c := Collect(env, p.flag, al.receptor, w0);
    CollectFresh(env, p.flag, al.receptor, w0, w.receptors);
    if c.Ok? && |c.value.receptors| > 0 {
      DeliverDistinct(env, al, p, c.value, w);
    } else if c.Ok? {
      forall x | x in Addresses(w.attempts) ensures x in c.value.receptors {
        assert w.receptors <= c.value.receptors;
      }
    }
  }

  lemma {:induction false} RoundsDistinct(env: Env, al: Alert, ps: seq<Channel>, w: Work)
    requires ValidOrder(env) && Distinct(w)
    ensures NoDup(Addresses(Rounds(env, al, ps, w).attempts))
    decreases |ps|
  {
    if |ps| > 0 {
      RoundDistinct(env, al, ps[0], w);
      var s := Round(env, al, ps[0], w);
      if s.Next? {
        RoundsDistinct(env, al, ps[1..], s.w);
      }
    }
  }

  /**
    No address gets two records for one alert: users are deduplicated by address across
    all groups and all provider rounds, and each round visits every user once.
   */
  lemma DistinctAddresses(al: Alert, providers: Result<seq<Channel>, string>, env: Env)
    requires ValidOrder(env)
    ensures NoDup(Addresses(Handle(al, providers, env).attempts))
  {
    if !(|al.methods| == 0 || |al.receptor| == 0 || providers.Err?) {
      RoundsDistinct(env, al, providers.value, Start);
    }
  }

  /**
    After a failed send, each visited user gets one record with status "Failed", the send
    error as response and the user id as group name; the loop ends at the first record
    `Add` refuses, returning `Add`'s error, and otherwise covers every user.
   */
  lemma {:induction false} FailedRecords(env: Env, name: string, text: string, errText: string,
                                        ids: map<string, string>, ks: seq<string>, attempts: seq<Message>)
    ensures var r := FailedLoop(env, name, text, errText, ids, ks, attempts);
      attempts <= r.0
      && (forall j :: |attempts| <= j < |r.0| ==>
            r.0[j].status == "Failed" && r.0[j].response == errText && r.0[j].senderId == ""
            && r.0[j].userId in ids && r.0[j].receptor == ids[r.0[j].userId]
            && r.0[j].groupName == r.0[j].userId && r.0[j].lastProviders == [name])
      && (r.1.None? ==> |r.0| == |attempts| + |Visited(ids, ks)|)
      && (r.1.Some? ==> |r.0| > |attempts| && r.1 == env.add(r.0[|r.0| - 1]))
    decreases |ks|
  {
    if |ks| > 0 {
      var k := ks[0];
      if k !in ids {
        FailedRecords(env, name, text, errText, ids, ks[1..], attempts);
      } else {
        var m := Record(env, |attempts|, "", text, ids[k], name, k, k, errText, Messages.Failed);
        StatusNames(Messages.Failed);
        if env.add(m).None? {
          FailedRecords(env, name, text, errText, ids, ks[1..], attempts + [m]);
          var r := FailedLoop(env, name, text, errText, ids, ks[1..], attempts + [m]);
          assert r.0[|attempts|] == m;
        }
      }
    }
  }

  /**
    After a successful send, each visited user gets a "Sent" record at its own address;
    the loop panics only by running out of message ids, and otherwise leaves one record
    per visited user.
   */
  lemma {:induction false} SentRecords(env: Env, name: string, text: string, msgIds: seq<string>,
                                      ids: map<string, string>, ks: seq<string>, attempts: seq<Message>,
                                      userMessage: map<string, bool>, i: nat)
    ensures var r := SentLoop(env, name, text, msgIds, ids, ks, attempts, userMessage, i);
      attempts <= r.0
      && (forall j :: |attempts| <= j < |r.0| ==>
            r.0[j].status == "Sent" && r.0[j].response == "Sent" && r.0[j].lastProviders == [name]
            && r.0[j].userId in ids && r.0[j].receptor == ids[r.0[j].userId])
      && (!r.2 ==> |r.0| == |attempts| + |Visited(ids, ks)|)
      && (r.2 ==> |r.0| < |attempts| + |Visited(ids, ks)|)
      && (i + |Visited(ids, ks)| <= |msgIds| ==> !r.2)
    decreases |ks|
  {
    if |ks| > 0 {
      var k := ks[0];
      if k !in ids {
        SentRecords(env, name, text, msgIds, ids, ks[1..], attempts, userMessage, i);
      } else if i < |msgIds| {
        var m := Record(env, |attempts|, msgIds[i], text, ids[k], name, k, "", "Sent", Messages.Sent);
        StatusNames(Messages.Sent);
        var i1 := if env.add(m).Some? then i else i + 1;
        SentRecords(env, name, text, msgIds, ids, ks[1..], attempts + [m], userMessage[k := true], i1);
      }
    }
  }

  /**
    The sender ids of `recs` are `msgIds` read from position `i` on, where only a record
    `Add` accepted moves to the next id.
   */
  ghost predicate IdsFollow(env: Env, recs: seq<Message>, msgIds: seq<string>, i: nat)
    decreases |recs|
  {
    |recs| == 0
    || (i < |msgIds| && recs[0].senderId == msgIds[i]
        && IdsFollow(env, recs[1..], msgIds, if env.add(recs[0]).Some? then i else i + 1))
  }

  /**
    The record built for a user in the sent loop carries the next unused message id, and
    a record `Add` refuses does not use its id up: the next user gets the same one.
   */
  lemma {:induction false} SentIds(env: Env, name: string, text: string, msgIds: seq<string>,
                                  ids: map<string, string>, ks: seq<string>, attempts: seq<Message>,
                                  userMessage: map<string, bool>, i: nat)
    ensures var r := SentLoop(env, name, text, msgIds, ids, ks, attempts, userMessage, i);
      attempts <= r.0 && IdsFollow(env, r.0[|attempts|..], msgIds, i)
    decreases |ks|
  {
    if |ks| == 0 {
      assert attempts[|attempts|..] == [];
    } else {
      var k := ks[0];
      if k !in ids {
        SentIds(env, name, text, msgIds, ids, ks[1..], attempts, userMessage, i);
      } else if i >= |msgIds| {
        assert attempts[|attempts|..] == [];
      } else {
        var m := Record(env, |attempts|, msgIds[i], text, ids[k], name, k, "", "Sent", Messages.Sent);
        var i1 := if env.add(m).Some? then i else i + 1;
        var um := userMessage[k := true];
        SentIds(env, name, text, msgIds, ids, ks[1..], attempts + [m], um, i1);
        var r := SentLoop(env, name, text, msgIds, ids, ks[1..], attempts + [m], um, i1);
        assert SentLoop(env, name, text, msgIds, ids, ks, attempts, userMessage, i) == r;
        var tail := r.0[|attempts|..];
        assert tail[0] == m && tail[1..] == r.0[|attempts| + 1..];
      }
    }
  }

  /** The sent loop only ever marks users; unless it panics, every visited user ends up marked. */
  lemma {:induction false} SentMarks(env: Env, name: string, text: string, msgIds: seq<string>,
                                    ids: map<string, string>, ks: seq<string>, attempts: seq<Message>,
                                    userMessage: map<string, bool>, i: nat)
    ensures var r := SentLoop(env, name, text, msgIds, ids, ks, attempts, userMessage, i);
      (forall k :: AlreadySent(userMessage, k) ==> AlreadySent(r.1, k))
      && (!r.2 ==> forall k :: k in ks && k in ids ==> AlreadySent(r.1, k))
    decreases |ks|
  {
    if |ks| > 0 {
      var k := ks[0];
      if k !in ids {
        SentMarks(env, name, text, msgIds, ids, ks[1..], attempts, userMessage, i);
      } else if i < |msgIds| {
        var m := Record(env, |attempts|, msgIds[i], text, ids[k], name, k, "", "Sent", Messages.Sent);
        var i1 := if env.add(m).Some? then i else i + 1;
        var um := userMessage[k := true];
        SentMarks(env, name, text, msgIds, ids, ks[1..], attempts + [m], um, i1);
        assert SentLoop(env, name, text, msgIds, ids, ks, attempts, userMessage, i)
               == SentLoop(env, name, text, msgIds, ids, ks[1..], attempts + [m], um, i1);
        assert AlreadySent(um, k);
        assert forall k' :: k' in ks ==> k' == k || k' in ks[1..];
      }
    }
  }
}
