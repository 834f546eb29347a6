/**
  The provider REST handlers: looking providers up by id, by name or all of them, and
  changing a provider's priority and enabled status. The provider service is an oracle:
  what each lookup returned and whether each change succeeded.
 */
module ProvidersHandler {
  import opened Wrappers

  const NotBoth: string := "provide either id or name, not both"
  const NotFound: string := "provider not found"
  const NameRequired: string := "name is required"
  const NothingToChange: string := "either priority or status must be provided"
  const PriorityRange: string := "priority must be between 1 and 5"

  // ---------------------------------------------------------------------------
  // GetProvidersHandler

  /** A provider as the service returns it. */
  datatype ProviderRow = ProviderRow(id: string, name: string, description: string, priority: int, status: bool)

  /** `ProviderResponse`: the row's fields, the status shown as `enabled`. */
  datatype ProviderResponse = ProviderResponse(id: string, name: string, description: string, priority: int, enabled: bool)

  function ToResponse(p: ProviderRow): (r: ProviderResponse)
    ensures r.id == p.id && r.name == p.name && r.description == p.description
    ensures r.priority == p.priority && r.enabled == p.status
  {
    ProviderResponse(p.id, p.name, p.description, p.priority, p.status)
  }

  /** What a single lookup gave: a provider, the not-found error, another error, or nothing at all. */
  datatype Lookup = Found(row: ProviderRow) | NotFoundError(error: string) | Failed(error: string) | Nothing

  /** Which lookup the handler made. */
  datatype Query = ByName(name: string) | ById(id: string) | All

  /** The answer: status code, error text, the provider or the list, and the lookup made. */
  datatype Answer = Answer(code: int, error: string, provider: Option<ProviderResponse>,
                           providers: seq<ProviderResponse>, asked: Option<Query>)

  /** The answer to a single lookup. */
  function Single(q: Query, l: Lookup): (a: Answer)
    ensures a.asked == Some(q) && a.providers == []
    ensures a.code == 200 <==> l.Found?
    ensures a.provider.Some? <==> l.Found?
    ensures l.Found? ==> a.provider == Some(ToResponse(l.row))
    ensures a.code == 404 <==> l.NotFoundError? || l.Nothing?
    ensures a.code == 500 <==> l.Failed?
  {
    match l
    case NotFoundError(e) => Answer(404, e, None, [], Some(q))
    case Failed(e) => Answer(500, e, None, [], Some(q))
    case Nothing => Answer(404, NotFound, None, [], Some(q))
    case Found(p) => Answer(200, "", Some(ToResponse(p)), [], Some(q))
  }

  /** The loop building the list answer. */
  method Responses(rows: seq<ProviderRow>) returns (rs: seq<ProviderResponse>)
    ensures |rs| == |rows|
    ensures forall i :: 0 <= i < |rows| ==> rs[i] == ToResponse(rows[i])
  {
    rs := [];
    for p := 0 to |rows|
      invariant |rs| == p
      invariant forall i :: 0 <= i < p ==> rs[i] == ToResponse(rows[i])
    {
      rs := rs + [ToResponse(rows[p])];
    }
  }

  /**
    `GetProvidersHandler`: an id and a name together are refused without a lookup; a name
    is looked up by name, else an id by id; with neither, the full list, or 500 when
    listing failed.
   */
  method GetProviders(id: string, name: string, byName: string -> Lookup, byId: string -> Lookup,
                      all: (seq<ProviderRow>, Option<string>))
    returns (a: Answer)
    ensures id != "" && name != "" ==> a == Answer(400, NotBoth, None, [], None)
    ensures id == "" || name == "" ==> a.asked.Some?
    ensures name != "" && id == "" ==> a == Single(ByName(name), byName(name))
    ensures id != "" && name == "" ==> a == Single(ById(id), byId(id))
    ensures id == "" && name == "" && all.1.Some? ==> a == Answer(500, all.1.value, None, [], Some(All))
    ensures id == "" && name == "" && all.1.None? ==>
      a.code == 200 && a.asked == Some(All) && |a.providers| == |all.0|
      && forall i :: 0 <= i < |all.0| ==> a.providers[i] == ToResponse(all.0[i])
  {
    if id != "" && name != "" {
      return Answer(400, NotBoth, None, [], None);
    }
    if name != "" {
      return Single(ByName(name), byName(name));
    }
    if id != "" {
      return Single(ById(id), byId(id));
    }
    var rs := Responses(all.0);
    if all.1.Some? {
      return Answer(500, all.1.value, None, [], Some(All));
    }
    a := Answer(200, "", None, rs, Some(All));
  }

  // ---------------------------------------------------------------------------
  // ModifyProviderHandler

  /** The body as bound: binding failed, or the name and the optional priority and status. */
  datatype ModifyRequest = BindFailed(error: string) | Modify(name: string, priority: Option<int>, status: Option<bool>)

  /** A change the handler asks the provider service for. */
  datatype Call = SetPriority(name: string, priority: int) | Enable(name: string) | Disable(name: string)

  /** The answer: status code, error text, and the service calls made, in order. */
  datatype Reply = Reply(code: int, error: string, calls: seq<Call>)

  function StatusCall(name: string, enable: bool): Call {
    if enable then Enable(name) else Disable(name)
  }

  /**
    The changes an accepted request makes: the priority alone, the status alone, or the
    status and then the priority.
   */
  function Plan(name: string, priority: Option<int>, status: Option<bool>): (calls: seq<Call>)
    requires priority.Some? || status.Some?
    ensures status.Some? ==> |calls| > 0 && calls[0] == StatusCall(name, status.value)
    ensures priority.Some? ==> |calls| > 0 && calls[|calls| - 1] == SetPriority(name, priority.value)
    ensures |calls| == (if priority.Some? then 1 else 0) + (if status.Some? then 1 else 0)
  {
    (if status.Some? then [StatusCall(name, status.value)] else [])
      + (if priority.Some? then [SetPriority(name, priority.value)] else [])
  }

  /** Runs the calls in order, stopping at the first that fails: the calls made and that error. */
  function Run(calls: seq<Call>, service: Call -> Option<string>): (r: (seq<Call>, Option<string>))
    ensures r.0 <= calls
    ensures forall i :: 0 <= i < |r.0| - 1 ==> service(r.0[i]).None?
    ensures r.1.None? <==> r.0 == calls && forall i :: 0 <= i < |calls| ==> service(calls[i]).None?
    ensures r.1.Some? ==> |r.0| > 0 && service(r.0[|r.0| - 1]) == r.1
    decreases |calls|
  {
    if |calls| == 0 then ([], None)
    else match service(calls[0])
      case Some(e) => ([calls[0]], Some(e))
      case None =>
        var rest := Run(calls[1..], service);
        assert forall i :: 1 <= i < |calls| ==> calls[i] == calls[1..][i - 1];
        ([calls[0]] + rest.0, rest.1)
  }

  /**
    `ModifyProviderHandler`: a body that does not bind, an empty name, neither field, or a
    priority outside 1..5 is refused before any change; otherwise the planned changes run
    in order and the first failure is a 500.
   */
  function ModifyProvider(req: ModifyRequest, service: Call -> Option<string>): (r: Reply)
    ensures r.code == 200 <==> (req.Modify? && req.name != "" && (req.priority.Some? || req.status.Some?)
      && (req.priority.Some? ==> 1 <= req.priority.value <= 5)
      && forall i :: 0 <= i < |r.calls| ==> service(r.calls[i]).None?)
    ensures r.calls != [] <==> (req.Modify? && req.name != "" && (req.priority.Some? || req.status.Some?)
      && (req.priority.Some? ==> 1 <= req.priority.value <= 5))
    ensures r.calls != [] ==> r.calls <= Plan(req.name, req.priority, req.status)
  {
    match req
    case BindFailed(e) => Reply(400, e, [])
    case Modify(name, priority, status) =>
      if name == "" then Reply(400, NameRequired, [])
      else if status.None? && priority.None? then Reply(500, NothingToChange, [])
      else if priority.Some? && (priority.value < 1 || priority.value > 5) then Reply(400, PriorityRange, [])
      else
        var (made, err) := Run(Plan(name, priority, status), service);
        if err.Some? then Reply(500, err.value, made) else Reply(200, "", made)
  }

  /** Every priority the handler writes is between 1 and 5, for the named provider. */
  lemma {:induction false} PriorityWrittenInRange(req: ModifyRequest, service: Call -> Option<string>, i: nat)
    requires i < |ModifyProvider(req, service).calls|
    requires ModifyProvider(req, service).calls[i].SetPriority?
    ensures req.Modify? && 1 <= ModifyProvider(req, service).calls[i].priority <= 5
    ensures ModifyProvider(req, service).calls[i].name == req.name
  {
    var made := ModifyProvider(req, service).calls;
    var plan := Plan(req.name, req.priority, req.status);
    assert made <= plan;
    assert made[i] == plan[i];
  }

  /** A request with a status only never touches the priority. */
  lemma StatusAloneKeepsPriority(req: ModifyRequest, service: Call -> Option<string>, i: nat)
    requires req.Modify? && req.priority.None?
    requires i < |ModifyProvider(req, service).calls|
    ensures !ModifyProvider(req, service).calls[i].SetPriority?
  {
    var plan := Plan(req.name, req.priority, req.status);
    assert ModifyProvider(req, service).calls <= plan;
  }

  /** With both fields, the status changes first; a failed status change leaves the priority alone. */
  lemma StatusBeforePriority(name: string, priority: int, enable: bool, service: Call -> Option<string>)
    requires name != "" && 1 <= priority <= 5
    ensures var r := ModifyProvider(Modify(name, Some(priority), Some(enable)), service);
      service(StatusCall(name, enable)).Some? ==> r.code == 500 && r.calls == [StatusCall(name, enable)]
    ensures var r := ModifyProvider(Modify(name, Some(priority), Some(enable)), service);
      r.code == 200 ==> r.calls == [StatusCall(name, enable), SetPriority(name, priority)]
  {
    var plan := Plan(name, Some(priority), Some(enable));
    assert plan == [StatusCall(name, enable), SetPriority(name, priority)];
  }
}
