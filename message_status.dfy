/**
  The message status reconciler: its configuration check and started flag, and the job
  each worker runs on a message that is not finished: poll the provider that sent it
  for the delivery status and record the answer, or, once the message has used up its
  attempts, resend it through an alternative provider.

  The repositories and channels are oracles in `Env`: the active-provider list, each
  channel's `Status` and `Send` answers, and whether each `UpdateMessageStatus` and `Add`
  call fails. Go's iteration order over `providerMap` is the `order` oracle. A job's
  effects are the repository calls it makes, in order.
 */
module MessageStatus {
  import opened Wrappers
  import opened Notifications
  import opened Messages
  import AlertDispatch

  const MaxAttempt: int := 3

  datatype Config = Config(startAt: int, interval: int, workers: int, queueSize: int)

  /** The scheduler's runtime state beside its configuration. */
  class Scheduler {
    var config: Config
    var started: bool
    /** The capacity of `taskCh`. */
    var queueCapacity: int

    constructor (config: Config)
      ensures this.config == config && !started && queueCapacity == config.queueSize
    {
      this.config := config;
      this.started := false;
      this.queueCapacity := config.queueSize;
    }

    /** `Start`: refused while started; otherwise started, with a fresh task queue. */
    method Start() returns (err: Option<string>)
      modifies this`started, this`queueCapacity
      ensures old(started) ==> (err == Some("service already started") && started
                                && queueCapacity == old(queueCapacity))
      ensures !old(started) ==> err.None? && started && queueCapacity == config.queueSize
    {
      if started {
        return Some("service already started");
      }
      started := true;
      queueCapacity := config.queueSize;
      err := None;
    }

    /** `Stop`: always succeeds; the scheduler is stopped afterwards and may start again. */
    method Stop() returns (err: Option<string>)
      modifies this`started
      ensures err.None? && !started
    {
      if !started {
        return None;
      }
      started := false;
      err := None;
    }
  }

  /** What `NewMessageStatusMessageService` ends in. */
  datatype Built = Built(s: Scheduler) | Refused(error: string) | ConstructorPanicked

  /**
    `NewMessageStatusMessageService`: the task queue is made from the given queue size
    before anything is checked, so a negative size panics; then the interval and the
    worker count are checked. The queue-size default is written to the local copy after
    the configuration was stored, so the stored size is the one given.
   */
  method NewMessageStatusMessageService(config: Config) returns (r: Built)
    ensures config.queueSize < 0 <==> r.ConstructorPanicked?
    ensures config.queueSize >= 0 && config.interval <= 0 ==> r == Refused("interval must be > 0")
    ensures config.queueSize >= 0 && config.interval > 0 && config.workers < 1 ==>
      r == Refused("workers must be >= 1")
    ensures r.Built? <==> config.queueSize >= 0 && config.interval > 0 && config.workers >= 1
    ensures r.Built? ==> (fresh(r.s) && r.s.config == config && !r.s.started
                          && r.s.queueCapacity == config.queueSize)
  {
    if config.queueSize < 0 {
      return ConstructorPanicked;
    }
    var s := new Scheduler(config);
    if config.interval <= 0 {
      return Refused("interval must be > 0");
    }
    if config.workers < 1 {
      return Refused("workers must be >= 1");
    }
    var local := config;
    if local.queueSize <= 0 {
      local := local.(queueSize := local.workers);
    }
    r := Built(s);
  }

  // ---------------------------------------------------------------------------
  // Provider lookups

  /** The position of the last provider in `ps` whose channel is named `name`. */
  function LastNamed(ps: seq<Provider>, name: string): (r: Option<nat>)
    ensures r.Some? ==> r.value < |ps| && ps[r.value].channel.name == name
    ensures r.Some? ==> forall j :: r.value < j < |ps| ==> ps[j].channel.name != name
    ensures r.None? ==> forall j :: 0 <= j < |ps| ==> ps[j].channel.name != name
    decreases |ps|
  {
    if |ps| == 0 then None
    else if ps[|ps| - 1].channel.name == name then Some(|ps| - 1)
    else LastNamed(ps[..|ps| - 1], name)
  }

  /** The position of the first provider in `ps` whose channel is named `name`. */
  function FirstNamed(ps: seq<Provider>, name: string): (r: Option<nat>)
    ensures r.Some? ==> r.value < |ps| && ps[r.value].channel.name == name
    ensures r.Some? ==> forall j :: 0 <= j < r.value ==> ps[j].channel.name != name
    ensures r.None? ==> forall j :: 0 <= j < |ps| ==> ps[j].channel.name != name
    decreases |ps|
  {
    if |ps| == 0 then None
    else if ps[0].channel.name == name then Some(0)
    else
      var rest := FirstNamed(ps[1..], name);
      if rest.Some? then Some(rest.value + 1) else None
  }

  /**
    What `getNotificationProvider` ends in: a channel, an error, or a panic, when no
    provider has the name and the nil provider's `GetName` is called for the log line.
   */
  datatype Lookup = Found(channel: Channel) | LookupFailed(error: string) | LookupPanicked

  function NotificationProvider(name: string, active: Result<seq<Provider>, string>): (r: Lookup)
    ensures active.Err? ==> r == LookupFailed("failed to get active providers: " + active.error)
    ensures active == Ok([]) ==> r == LookupFailed("no active providers found")
    ensures r.Found? ==> (r.channel.name == name
                          && exists i :: 0 <= i < |active.value| && active.value[i].channel == r.channel
                               && forall j :: i < j < |active.value| ==> active.value[j].channel.name != name)
    ensures r.LookupPanicked? <==>
      active.Ok? && |active.value| > 0 && forall i :: 0 <= i < |active.value| ==> active.value[i].channel.name != name
  {
    if active.Err? then LookupFailed("failed to get active providers: " + active.error)
    else if |active.value| == 0 then LookupFailed("no active providers found")
    else
      var i := LastNamed(active.value, name);
      if i.Some? then Found(active.value[i.value].channel) else LookupPanicked
  }

  /** `getNotificationProvider`: the loop keeps the last provider whose name matches. */
  method GetNotificationProvider(name: string, active: Result<seq<Provider>, string>) returns (r: Lookup)
    ensures r == NotificationProvider(name, active)
  {
    if active.Err? {
      return LookupFailed("failed to get active providers: " + active.error);
    }
    var providers := active.value;
    if |providers| == 0 {
      return LookupFailed("no active providers found");
    }
    var provider: Option<Channel> := None;
    var j := 0;
    while j < |providers|
      invariant 0 <= j <= |providers|
      invariant provider.None? <==> LastNamed(providers[..j], name).None?
      invariant provider.Some? ==> provider.value == providers[LastNamed(providers[..j], name).value].channel
    {
      assert providers[..j + 1][..j] == providers[..j];
      if providers[j].channel.name == name {
        provider := Some(providers[j].channel);
      }
      j := j + 1;
    }
    assert providers[..j] == providers;
    if provider.None? {
      return LookupPanicked;
    }
    r := Found(provider.value);
  }

  /** `providerMap` after its first loop: each active name with the flag of its last row. */
  function NameFlags(ps: seq<Provider>): (m: map<string, string>)
    ensures forall name :: name in m <==> LastNamed(ps, name).Some?
    ensures forall name :: name in m ==> m[name] == ps[LastNamed(ps, name).value].flag
    decreases |ps|
  {
    if |ps| == 0 then map[]
    else NameFlags(ps[..|ps| - 1])[ps[|ps| - 1].channel.name := ps[|ps| - 1].flag]
  }

  /** `providerMap` after its second loop: the names in the chain are deleted. */
  function Without(m: map<string, string>, chain: seq<string>): (r: map<string, string>)
    ensures forall name :: name in r <==> name in m && name !in chain
    ensures forall name :: name in r ==> r[name] == m[name]
  {
    map name | name in m && name !in chain :: m[name]
  }

  /**
    The search over `providerMap` in iteration order `ks`: the row of the first name
    that some provider carries. Both arms of the flag test search the same way.
   */
  function PickAlternative(ps: seq<Provider>, ks: seq<string>, m: map<string, string>, flag: string): (r: Option<nat>)
    ensures r.Some? ==> r.value < |ps| && ps[r.value].channel.name in ks
    ensures r.None? ==> forall k :: k in ks ==> FirstNamed(ps, k).None?
    decreases |ks|
  {
    if |ks| == 0 then None
    else
      var name := ks[0];
      assert forall k :: k in ks ==> k == name || k in ks[1..];
      if name in m && m[name] == flag then
        var i := FirstNamed(ps, name);
        if i.Some? then i else PickAlternative(ps, ks[1..], m, flag)
      else
        var i := FirstNamed(ps, name);
        if i.Some? then i else PickAlternative(ps, ks[1..], m, flag)
  }

  function AlternativeProvider(flag: string, chain: seq<string>, active: Result<seq<Provider>, string>,
                               order: map<string, string> -> seq<string>): Result<Channel, string>
  {
    if active.Err? then Err("failed to get active providers: " + active.error)
    else if |active.value| == 0 then Err("no active providers found")
    else
      var m := Without(NameFlags(active.value), chain);
      if |m| > 0 then
        var i := PickAlternative(active.value, order(m), m, flag);
        if i.Some? then Ok(active.value[i.value].channel) else Err("no alternative provider found")
      else Err("no alternative provider found")
  }

  /** `getAlternativeProvider`: fill `providerMap`, delete the chain, search in map order. */
  method GetAlternativeProvider(flag: string, chain: seq<string>, active: Result<seq<Provider>, string>,
                                order: map<string, string> -> seq<string>)
    returns (r: Result<Channel, string>)
    ensures r == AlternativeProvider(flag, chain, active, order)
  {
    if active.Err? {
      return Err("failed to get active providers: " + active.error);
    }
    var providers := active.value;
    if |providers| == 0 {
      return Err("no active providers found");
    }
    var providerMap := FillNameFlags(providers);
    providerMap := DeleteChain(providerMap, chain);
    if |providerMap| == 0 {
      return Err("no alternative provider found");
    }
    var i := Search(providers, order(providerMap), providerMap, flag);
    if i.None? {
      return Err("no alternative provider found");
    }
    r := Ok(providers[i.value].channel);
  }

  /** The first loop of `getAlternativeProvider`: one entry per name, the last flag wins. */
  method FillNameFlags(providers: seq<Provider>) returns (providerMap: map<string, string>)
    ensures providerMap == NameFlags(providers)
  {
    providerMap := map[];
    var j := 0;
    while j < |providers|
      invariant 0 <= j <= |providers|
      invariant providerMap == NameFlags(providers[..j])
    {
      assert providers[..j + 1][..j] == providers[..j];
      providerMap := providerMap[providers[j].channel.name := providers[j].flag];
      j := j + 1;
    }
    assert providers[..j] == providers;
  }

  /** The second loop: each name of the chain still in the map is deleted. */
  method DeleteChain(m: map<string, string>, chain: seq<string>) returns (providerMap: map<string, string>)
    ensures providerMap == Without(m, chain)
  {
    providerMap := m;
    var n := 0;
    while n < |chain|
      invariant 0 <= n <= |chain|
      invariant providerMap == Without(m, chain[..n])
    {
      assert chain[..n + 1] == chain[..n] + [chain[n]];
      if chain[n] in providerMap {
        providerMap := providerMap - {chain[n]};
      }
      n := n + 1;
    }
    assert chain[..n] == chain;
  }

  /** The third loop: the names in iteration order, each looked up among the rows. */
  method Search(providers: seq<Provider>, ks: seq<string>, providerMap: map<string, string>, flag: string)
    returns (r: Option<nat>)
    ensures r == PickAlternative(providers, ks, providerMap, flag)
  {
    var k := 0;
    while k < |ks|
      invariant 0 <= k <= |ks|
      invariant PickAlternative(providers, ks[k..], providerMap, flag) == PickAlternative(providers, ks, providerMap, flag)
    {
      assert ks[k..][1..] == ks[k + 1..];
      var found := FindNamed(providers, ks[k]);
      if found.Some? {
        return found;
      }
      k := k + 1;
    }
    r := None;
  }

  /** The inner `for _, p := range providers` of the search: the first row with the name. */
  method FindNamed(ps: seq<Provider>, name: string) returns (r: Option<nat>)
    ensures r == FirstNamed(ps, name)
  {
    var j := 0;
    while j < |ps|
      invariant 0 <= j <= |ps|
      invariant FirstNamed(ps[j..], name).Some? ==> FirstNamed(ps, name) == Some(j + FirstNamed(ps[j..], name).value)
      invariant FirstNamed(ps[j..], name).None? ==> FirstNamed(ps, name).None?
    {
      assert ps[j..][1..] == ps[j + 1..];
      if ps[j].channel.name == name {
        return Some(j);
      }
      j := j + 1;
    }
    r := None;
  }

  /** The flag the caller asks for plays no part in the choice. */
  lemma {:induction false} PickIgnoresFlag(ps: seq<Provider>, ks: seq<string>, m: map<string, string>, f1: string, f2: string)
    ensures PickAlternative(ps, ks, m, f1) == PickAlternative(ps, ks, m, f2)
    decreases |ks|
  {
    if |ks| > 0 {
      PickIgnoresFlag(ps, ks[1..], m, f1, f2);
    }
  }

  lemma AlternativeIgnoresFlag(f1: string, f2: string, chain: seq<string>, active: Result<seq<Provider>, string>,
                               order: map<string, string> -> seq<string>)
    ensures AlternativeProvider(f1, chain, active, order) == AlternativeProvider(f2, chain, active, order)
  {
    if active.Ok? && |active.value| > 0 {
      var m := Without(NameFlags(active.value), chain);
      PickIgnoresFlag(active.value, order(m), m, f1, f2);
    }
  }

  /** An alternative is an active provider's channel that is not named in the chain. */
  lemma AlternativeOutsideChain(flag: string, chain: seq<string>, active: Result<seq<Provider>, string>,
                                order: map<string, string> -> seq<string>)
    requires active.Ok? && AlertDispatch.Enumerates(order(Without(NameFlags(active.value), chain)),
                                                    Without(NameFlags(active.value), chain))
    ensures AlternativeProvider(flag, chain, active, order).Ok? ==>
      var c := AlternativeProvider(flag, chain, active, order).value;
      c.name !in chain && exists i :: 0 <= i < |active.value| && active.value[i].channel == c
  {
    var ps := active.value;
    if |ps| > 0 {
      var m := Without(NameFlags(ps), chain);
      var i := PickAlternative(ps, order(m), m, flag);
      if |m| > 0 && i.Some? {
        assert ps[i.value].channel.name in m;
      }
    }
  }

  /**
    With iteration visiting every key, an alternative is found exactly when some active
    provider is named outside the chain.
   */
  lemma AlternativeFound(flag: string, chain: seq<string>, active: Result<seq<Provider>, string>,
                         order: map<string, string> -> seq<string>)
    requires active.Ok? && AlertDispatch.Enumerates(order(Without(NameFlags(active.value), chain)),
                                                    Without(NameFlags(active.value), chain))
    ensures AlternativeProvider(flag, chain, active, order).Ok? <==>
      exists i :: 0 <= i < |active.value| && active.value[i].channel.name !in chain
  {
    var ps := active.value;
    var m := Without(NameFlags(ps), chain);
    if i :| 0 <= i < |ps| && ps[i].channel.name !in chain {
      var name := ps[i].channel.name;
      assert LastNamed(ps, name).Some?;
      assert name in m;
      assert |m| > 0;
      assert name in order(m);
      assert FirstNamed(ps, name).Some?;
    } else {
      forall name ensures name !in m {
        if LastNamed(ps, name).Some? {
          var j := LastNamed(ps, name).value;
          assert ps[j].channel.name in chain;
        }
      }
      assert m == map[];
    }
  }

  // ---------------------------------------------------------------------------
  // The job

  /** A repository call the job makes: `UpdateMessageStatus` with the record it leaves, or `Add`. */
  datatype Act = Update(record: Message) | Save(record: Message)

  /** The calls made, and whether the job panicked (`safeRunJob` recovers). */
  datatype Job = Job(acts: seq<Act>, panicked: bool)

  datatype Env = Env(
    active: Result<seq<Provider>, string>,
    status: (Channel, string) -> Result<int, string>,
    send: (Channel, Notification) -> Result<seq<string>, string>,
    update: Message -> Option<string>,
    add: Message -> Option<string>,
    order: map<string, string> -> seq<string>,
    uuid: string,
    now: int)

  /** What `sendNotification` ends in. */
  datatype Resend = Resent(id: string) | NotResent(error: string) | ResendPanicked

  /**
    `sendNotification`: the message to its one receptor. A failed send is wrapped as
    "failed to send message: ..."; a successful one gives the first id, which must exist.
   */
  function SendNotification(msg: Message, c: Channel, env: Env): (r: Resend)
    ensures var out := env.send(c, Notification("", msg.message, "", "", [msg.receptor]));
      && (r.Resent? ==> out.Ok? && |out.value| > 0 && r.id == out.value[0])
      && (r.NotResent? <==> out.Err?)
      && (out.Err? ==> r == NotResent("failed to send message: " + out.error))
      && (r.ResendPanicked? <==> out == Ok([]))
  {
    var out := env.send(c, Notification("", msg.message, "", "", [msg.receptor]));
    if out.Err? then NotResent("failed to send message: " + out.error)
    else if |out.value| == 0 then ResendPanicked
    else Resent(out.value[0])
  }

  /** The poll answer as the update it causes: Delivered, Failed, or code 0 otherwise. */
  function PollUpdate(poll: Result<int, string>): (r: (int, string))
  {
    if poll.Err? then (0, "Failed to get status from provider: " + poll.error)
    else if poll.value == 10 then (10, "Delivered")
    else if poll.value == 6 then (6, "Failed")
    else (0, "Sent")
  }

  const NoAlternativeText: string := "failed to get alternative provider"
  const MaxAttemptsText: string := "Max attempts reached, trying alternative provider"

  /**
    What a job may do to a message: a job that panics makes no call; otherwise at most
    `limit` calls, the first updating the message itself with one attempt more, and a
    second saving a fresh record for the same receptor and text.
   */
  predicate JobShape(msg: Message, job: Job, limit: nat) {
    && (job.panicked ==> job.acts == [])
    && |job.acts| <= limit
    && (|job.acts| > 0 ==> job.acts[0].Update? && SameRecord(msg, job.acts[0].record)
                           && job.acts[0].record.attempt == msg.attempt + 1)
    && (|job.acts| > 1 ==> |job.acts| == 2 && job.acts[1].Save? && job.acts[1].record.attempt == 0
                           && job.acts[1].record.receptor == msg.receptor && job.acts[1].record.message == msg.message)
  }

  /** `sendAlternativeNotification`. */
  function SendAlternative(msg: Message, env: Env): (r: Job)
    ensures JobShape(msg, r, 2)
  {
    match NotificationProvider(msg.sender, env.active)
    case LookupFailed(_) => Job([], false)
    case LookupPanicked => Job([], true)
    case Found(provider) => Failover(msg, env, provider)
  }

  /** The failover once the message's own provider is known. */
  function Failover(msg: Message, env: Env, provider: Channel): (r: Job)
    ensures JobShape(msg, r, 2)
  {
    var alt := AlternativeProvider(provider.flag, msg.lastProviders, env.active, env.order);
    if alt.Err? then Job([Update(Updated(msg, Failed, NoAlternativeText))], false)
    else ResendVia(msg, env, provider, alt.value)
  }

  /**
    The resend through alternative `a`. The call `message.NewMessage` is given no status
    argument; the record is taken to be saved with status Sent.
   */
  function ResendVia(msg: Message, env: Env, provider: Channel, a: Channel): (r: Job)
    ensures JobShape(msg, r, 2)
  {
    match SendNotification(msg, a, env)
    case NotResent(_) => Job([], false)
    case ResendPanicked => Job([], true)
    case Resent(id) =>
      var u := Updated(msg, Failed, MaxAttemptsText);
      if env.update(u).Some? then Job([Update(u)], false)
      else Job([Update(u), Save(ResentRecord(msg, env, provider, a, id))], false)
  }

  /** The record saved for the resend. */
  function ResentRecord(msg: Message, env: Env, provider: Channel, a: Channel, id: string): Message
  {
    NewMessage(id, msg.message, msg.receptor, a.name, msg.userId, msg.groupName,
               "Resent with alternative provider: " + a.name, [provider.name, a.name],
               Sent, env.uuid, env.now)
  }

  /**
    `checkMessageStatus`: a job's first call, if any, updates the message itself with one
    attempt more; only a message past its attempts can also save a new record, a fresh
    one for the same receptor and text; a job that panics makes no call.
   */
  function CheckMessageStatus(msg: Message, env: Env): (r: Job)
    ensures JobShape(msg, r, if msg.attempt >= MaxAttempt then 2 else 1)
  {
    if msg.attempt >= MaxAttempt then SendAlternative(msg, env)
    else
      match NotificationProvider(msg.sender, env.active)
      case LookupFailed(_) => Job([], false)
      case LookupPanicked => Job([], true)
      case Found(provider) =>
        var (code, response) := PollUpdate(env.status(provider, msg.senderId));
        Job([Update(Updated(msg, code, response))], false)
  }

  /** `checkMessageStatus` as the worker runs it. */
  method RunJob(msg: Message, env: Env) returns (job: Job)
    ensures job == CheckMessageStatus(msg, env)
  {
    if msg.attempt >= MaxAttempt {
      job := SendAlternativeNotification(msg, env);
      return;
    }
    var provider := GetNotificationProvider(msg.sender, env.active);
    if provider.LookupFailed? {
      return Job([], false);
    }
    if provider.LookupPanicked? {
      return Job([], true);
    }
    var poll := env.status(provider.channel, msg.senderId);
    var record: Message;
    if poll.Err? {
      record := Updated(msg, 0, "Failed to get status from provider: " + poll.error);
    } else if poll.value == 10 {
      record := Updated(msg, 10, "Delivered");
    } else if poll.value == 6 {
      record := Updated(msg, 6, "Failed");
    } else {
      record := Updated(msg, 0, "Sent");
    }
    job := Job([Update(record)], false);
  }

  method SendAlternativeNotification(msg: Message, env: Env) returns (job: Job)
    ensures job == SendAlternative(msg, env)
  {
    var provider := GetNotificationProvider(msg.sender, env.active);
    if provider.LookupFailed? {
      return Job([], false);
    }
    if provider.LookupPanicked? {
      return Job([], true);
    }
    var alt := GetAlternativeProvider(provider.channel.flag, msg.lastProviders, env.active, env.order);
    if alt.Err? {
      return Job([Update(Updated(msg, Failed, NoAlternativeText))], false);
    }
    var sent := SendNotification(msg, alt.value, env);
    if !sent.Resent? {
      return Job([], sent.ResendPanicked?);
    }
    var u := Updated(msg, Failed, MaxAttemptsText);
    if env.update(u).Some? {
      return Job([Update(u)], false);
    }
    var name := alt.value.name;
    var resent := NewMessage(sent.id, msg.message, msg.receptor, name, msg.userId, msg.groupName,
                             "Resent with alternative provider: " + name, [provider.channel.name, name],
                             Sent, env.uuid, env.now);
    job := Job([Update(u), Save(resent)], false);
  }

  // ---------------------------------------------------------------------------
  // What a job does

  /** A message that has used up its attempts is never polled: the status answers play no part. */
  lemma ExhaustedNeverPolled(msg: Message, env: Env, status: (Channel, string) -> Result<int, string>)
    requires msg.attempt >= MaxAttempt
    ensures CheckMessageStatus(msg, env.(status := status)) == CheckMessageStatus(msg, env)
  {
    var e2 := env.(status := status);
    var lookup := NotificationProvider(msg.sender, env.active);
    if lookup.Found? {
      var p := lookup.channel;
      var alt := AlternativeProvider(p.flag, msg.lastProviders, env.active, env.order);
      if alt.Ok? {
        assert SendNotification(msg, alt.value, e2) == SendNotification(msg, alt.value, env);
        assert ResendVia(msg, e2, p, alt.value) == ResendVia(msg, env, p, alt.value);
      }
      assert Failover(msg, e2, p) == Failover(msg, env, p);
    }
  }

  /**
    A poll makes one update, one attempt more: Delivered on 10, Failed on 6, and the
    status code 0 otherwise, which has no name, so the update carries the status "".
    The repository's column-wise update skips empty fields; what the stored row then
    holds is the repository's concern and is not modelled here.
   */
  lemma PollOutcome(msg: Message, env: Env, c: Channel)
    requires msg.attempt < MaxAttempt && NotificationProvider(msg.sender, env.active) == Found(c)
    ensures var job := CheckMessageStatus(msg, env);
      var poll := env.status(c, msg.senderId);
      !job.panicked && |job.acts| == 1 && job.acts[0].Update?
      && var r := job.acts[0].record;
      r.attempt == msg.attempt + 1 && SameRecord(msg, r)
      && (r.status == "Delivered" <==> poll == Ok(10))
      && (r.status == "Failed" <==> poll == Ok(6))
      && (r.status == "" <==> !(poll == Ok(10) || poll == Ok(6)))
      && r.status != "Sent"
  {
    var poll := env.status(c, msg.senderId);
    var (code, response) := PollUpdate(poll);
    StatusNames(code);
    assert "Delivered" != "" && "Failed" != "" && "Sent" != "";
  }

  /** A failed provider lookup makes no repository call, on either path. */
  lemma LookupFailureNoUpdate(msg: Message, env: Env)
    requires NotificationProvider(msg.sender, env.active).LookupFailed?
    ensures CheckMessageStatus(msg, env) == Job([], false)
  {
  }

  /** A sender that no active provider is named after panics the job before any call. */
  lemma UnknownSenderPanics(msg: Message, env: Env)
    requires env.active.Ok? && |env.active.value| > 0
    requires forall i :: 0 <= i < |env.active.value| ==> env.active.value[i].channel.name != msg.sender
    ensures CheckMessageStatus(msg, env) == Job([], true)
  {
  }

  /** Failover without an alternative marks the message Failed, once. */
  lemma NoAlternativeMarksFailed(msg: Message, env: Env, c: Channel)
    requires msg.attempt >= MaxAttempt && NotificationProvider(msg.sender, env.active) == Found(c)
    requires AlternativeProvider(c.flag, msg.lastProviders, env.active, env.order).Err?
    ensures CheckMessageStatus(msg, env) == Job([Update(Updated(msg, Failed, NoAlternativeText))], false)
  {
  }

  /** A resend that fails leaves the message as it was. */
  lemma FailedResendChangesNothing(msg: Message, env: Env, c: Channel, a: Channel)
    requires msg.attempt >= MaxAttempt && NotificationProvider(msg.sender, env.active) == Found(c)
    requires AlternativeProvider(c.flag, msg.lastProviders, env.active, env.order) == Ok(a)
    requires SendNotification(msg, a, env).NotResent?
    ensures CheckMessageStatus(msg, env) == Job([], false)
  {
  }

  /**
    A resend marks the message Failed and, if that update is stored, saves a new record
    sent through the alternative, with the chain original provider then alternative; its
    sender id is the first id the alternative answered.
   */
  lemma ResendRecords(msg: Message, env: Env, c: Channel, a: Channel, id: string)
    requires msg.attempt >= MaxAttempt && NotificationProvider(msg.sender, env.active) == Found(c)
    requires AlternativeProvider(c.flag, msg.lastProviders, env.active, env.order) == Ok(a)
    requires SendNotification(msg, a, env) == Resent(id)
    ensures var job := CheckMessageStatus(msg, env);
      !job.panicked && 1 <= |job.acts| <= 2
      && job.acts[0] == Update(Updated(msg, Failed, MaxAttemptsText))
      && (|job.acts| == 2 <==> env.update(Updated(msg, Failed, MaxAttemptsText)).None?)
      && (|job.acts| == 2 ==> job.acts[1].Save? && ResentFrom(msg, job.acts[1].record, a, id))
    ensures var out := env.send(a, Notification("", msg.message, "", "", [msg.receptor]));
      out.Ok? && |out.value| > 0 && id == out.value[0]
  {
  }

  /** The resent record: the same text to the same receptor, now through `a`. */
  predicate ResentFrom(msg: Message, r: Message, a: Channel, id: string) {
    r.lastProviders == [msg.sender, a.name] && r.sender == a.name && r.senderId == id
    && r.message == msg.message && r.receptor == msg.receptor
    && r.userId == msg.userId && r.groupName == msg.groupName
    && r.status == "Sent" && r.attempt == 0
  }
}
