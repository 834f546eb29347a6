/**
  `handleAlert` as the Go code runs it: loops over providers, receptor groups and maps,
  updating `receptors`, `userMessage`, `receptorIds` and the counter `i` in place. Each
  loop is proved to compute the function of `AlertDispatch` that specifies it.
 */
module AlertHandler {
  import opened Wrappers
  import opened Text
  import opened Notifications
  import opened Alerts
  import opened Messages
  import opened AlertProviders
  import opened AlertDispatch

  /** `for k, v := range cacheReceptors`, over the keys in iteration order `ks`. */
  method GatherGroup(m: map<string, string>, ks: seq<string>, w0: Pick) returns (w: Pick)
    ensures w == Gather(m, ks, w0)
  {
    var receptorIds := w0.ids;
    var userMessage := w0.userMessage;
    var receptors := w0.receptors;
    var j := 0;
    while j < |ks|
      invariant 0 <= j <= |ks|
      invariant Gather(m, ks[j..], Pick(receptorIds, userMessage, receptors)) == Gather(m, ks, w0)
    {
      assert ks[j..][1..] == ks[j + 1..];
      var k := ks[j];
      j := j + 1;
      if k !in m {
        continue;
      }
      var v := m[k];
      if k in userMessage && userMessage[k] {
        continue;
      }
      if v in receptors {
        continue;
      }
      receptorIds := receptorIds[k := v];
      userMessage := userMessage[k := false];
      receptors := receptors + [v];
    }
    w := Pick(receptorIds, userMessage, receptors);
  }

  /** `for _, r := range al.Receptor` with the cache lookup; a miss returns the group. */
  method CollectReceptors(env: Env, flag: string, groups: seq<string>, w0: Pick) returns (r: Result<Pick, string>)
    ensures r == Collect(env, flag, groups, w0)
  {
    var w := w0;
    var g := 0;
    while g < |groups|
      invariant 0 <= g <= |groups|
      invariant Collect(env, flag, groups[g..], w) == Collect(env, flag, groups, w0)
    {
      assert groups[g..][1..] == groups[g + 1..];
      var key := (flag, groups[g]);
      if key !in env.cache {
        return Err(groups[g]);
      }
      var cacheReceptors := env.cache[key];
      w := GatherGroup(cacheReceptors, env.order(cacheReceptors), w);
      g := g + 1;
    }
    r := Ok(w);
  }

  /** The Telegram branch's loop; `panicked` is a run-time index error. */
  method SaveTelegram(env: Env, name: string, text: string, segs: seq<string>, msgIds: seq<string>,
                      ids: map<string, string>, ks: seq<string>, attempts0: seq<Message>)
    returns (attempts: seq<Message>, panicked: bool)
    ensures (attempts, panicked) == TelegramLoop(env, name, text, segs, msgIds, ids, ks, attempts0, 0)
  {
    attempts := attempts0;
    var i := 0;
    var j := 0;
    while j < |ks|
      invariant 0 <= j <= |ks|
      invariant TelegramLoop(env, name, text, segs, msgIds, ids, ks[j..], attempts, i)
                == TelegramLoop(env, name, text, segs, msgIds, ids, ks, attempts0, 0)
    {
      assert ks[j..][1..] == ks[j + 1..];
      var userId := ks[j];
      j := j + 1;
      if userId !in ids {
        continue;
      }
      var receptor := ids[userId];
      if i >= |segs| {
        return attempts, true;
      }
      if segs[i] != "nil" {
        var failedMsg := NewMessage("", text, receptor, name, userId, "", segs[i], [name], Messages.Sent,
                                    env.uuid(|attempts|), env.now);
        attempts := attempts + [failedMsg];
        if env.add(failedMsg).Some? {
          continue;
        }
      } else {
        if i >= |msgIds| {
          return attempts, true;
        }
        var sentMsg := NewMessage(msgIds[i], text, receptor, name, userId, "", "Delivered", [name],
                                  Messages.Delivered, env.uuid(|attempts|), env.now);
        attempts := attempts + [sentMsg];
        if env.add(sentMsg).Some? {
          continue;
        }
      }
      i := i + 1;
    }
    panicked := false;
  }

  /** The failed-send branch's loop; the first `Add` error is returned. */
  method SaveFailed(env: Env, name: string, text: string, errText: string, ids: map<string, string>,
                    ks: seq<string>, attempts0: seq<Message>)
    returns (attempts: seq<Message>, err: Option<string>)
    ensures (attempts, err) == FailedLoop(env, name, text, errText, ids, ks, attempts0)
  {
    attempts := attempts0;
    var j := 0;
    while j < |ks|
      invariant 0 <= j <= |ks|
      invariant FailedLoop(env, name, text, errText, ids, ks[j..], attempts)
                == FailedLoop(env, name, text, errText, ids, ks, attempts0)
    {
      assert ks[j..][1..] == ks[j + 1..];
      var r := ks[j];
      j := j + 1;
      if r !in ids {
        continue;
      }
      var failedMsg := NewMessage("", text, ids[r], name, r, r, errText, [name], Messages.Failed,
                                  env.uuid(|attempts|), env.now);
      attempts := attempts + [failedMsg];
      var e := env.add(failedMsg);
      if e.Some? {
        return attempts, e;
      }
    }
    err := None;
  }

  /** The successful-send branch's loop, which marks each user as sent. */
  method SaveSent(env: Env, name: string, text: string, msgIds: seq<string>, ids: map<string, string>,
                  ks: seq<string>, attempts0: seq<Message>, userMessage0: map<string, bool>)
    returns (attempts: seq<Message>, userMessage: map<string, bool>, panicked: bool)
    ensures (attempts, userMessage, panicked) == SentLoop(env, name, text, msgIds, ids, ks, attempts0, userMessage0, 0)
  {
    attempts, userMessage := attempts0, userMessage0;
    var i := 0;
    var j := 0;
    while j < |ks|
      invariant 0 <= j <= |ks|
      invariant SentLoop(env, name, text, msgIds, ids, ks[j..], attempts, userMessage, i)
                == SentLoop(env, name, text, msgIds, ids, ks, attempts0, userMessage0, 0)
    {
      assert ks[j..][1..] == ks[j + 1..];
      var r := ks[j];
      j := j + 1;
      if r !in ids {
        continue;
      }
      userMessage := userMessage[r := true];
      if i >= |msgIds| {
        return attempts, userMessage, true;
      }
      var sentMsg := NewMessage(msgIds[i], text, ids[r], name, r, "", "Sent", [name], Messages.Sent,
                                env.uuid(|attempts|), env.now);
      attempts := attempts + [sentMsg];
      if env.add(sentMsg).Some? {
        continue;
      }
      i := i + 1;
    }
    panicked := false;
  }

  /** One iteration of the provider loop. */
  method RunRound(env: Env, al: Alert, p: Channel, w: Work) returns (s: Step)
    ensures s == Round(env, al, p, w)
  {
    var c := CollectReceptors(env, p.flag, al.receptor, Pick(map[], w.userMessage, w.receptors));
    if c.Err? {
      return Done(Outcome(w.attempts, w.sent, true, Returned(Some(MissText(env.mark, c.error)))));
    }
    var pk := c.value;
    if |pk.receptors| == 0 {
      return Next(Work(pk.userMessage, pk.receptors, w.attempts, w.sent));
    }
    var out := env.send(p, Notification(al.name, al.description, al.status, env.time, pk.receptors));
    var sent := w.sent + [pk.receptors];
    var ks := env.order(pk.ids);
    var text := SaveText(al);
    if p.name == "Telegram" {
      if out.err.None? {
        return Done(Outcome(w.attempts, sent, false, Panicked));
      }
      var attempts, panicked := SaveTelegram(env, p.name, text, Split(out.err.value, ';'), out.ids, pk.ids, ks, w.attempts);
      if panicked {
        return Done(Outcome(attempts, sent, false, Panicked));
      }
      return Next(Work(pk.userMessage, pk.receptors, attempts, sent));
    } else if out.err.Some? {
      var attempts, err := SaveFailed(env, p.name, text, out.err.value, pk.ids, ks, w.attempts);
      if err.Some? {
        return Done(Outcome(attempts, sent, false, Returned(err)));
      }
      return Next(Work(pk.userMessage, pk.receptors, attempts, sent));
    }
    var attempts, userMessage, panicked := SaveSent(env, p.name, text, out.ids, pk.ids, ks, w.attempts, pk.userMessage);
    if panicked {
      return Done(Outcome(attempts, sent, false, Panicked));
    }
    return Next(Work(userMessage, pk.receptors, attempts, sent));
  }

  /**
    `handleAlert`: `chosen` is what `getProvider` returned, or None when the alert has no
    channel or no receptor group and no provider was looked up.
   */
  method HandleAlert(al: Alert, registry: Result<seq<Provider>, string>, env: Env)
    returns (chosen: Option<Result<seq<Channel>, string>>, o: Outcome)
    ensures chosen.None? <==> |al.methods| == 0 || |al.receptor| == 0
    ensures chosen.None? ==> o == Outcome([], [], true, Returned(env.mark))
    ensures chosen.Some? ==> o == Handle(al, chosen.value, env)
    ensures chosen.Some? && registry.Err? ==> chosen.value == Err(registry.error)
    ensures chosen.Some? && registry.Ok? && |Choose(al.methods, registry.value, [])| == 0 ==>
      chosen.value == Err("no active provider found")
    ensures chosen.Some? && registry.Ok? && |Choose(al.methods, registry.value, [])| > 0 ==>
      chosen.value.Ok? && SortedByPriority(chosen.value.value)
      && multiset(chosen.value.value) == multiset(Channels(Choose(al.methods, registry.value, [])))
  {
    if |al.methods| == 0 || |al.receptor| == 0 {
      return None, Outcome([], [], true, Returned(env.mark));
    }
    var providers := GetProvider(al.methods, registry);
    chosen := Some(providers);
    if providers.Err? {
      return chosen, Outcome([], [], true, Returned(env.mark));
    }
    var ps := providers.value;
    var w := Start;
    var n := 0;
    while n < |ps|
      invariant 0 <= n <= |ps|
      invariant Rounds(env, al, ps[n..], w) == Rounds(env, al, ps, Start)
    {
      assert ps[n..][1..] == ps[n + 1..];
      var s := RunRound(env, al, ps[n], w);
      if s.Done? {
        return chosen, s.o;
      }
      w := s.w;
      n := n + 1;
    }
    o := Outcome(w.attempts, w.sent, true, Returned(env.mark));
  }
}
