/**
  Alert ingestion: merging a freshly reported alert into the stored one (`NewAlert`)
  and saving a batch of Alertmanager alerts (`AddAlertManagerAlerts`). The alert
  repository's answers are given by the caller; times are instants.
 */
module Alerts {
  import opened Wrappers

  /** A stored alert. `methods` is the list of channel flags the dispatcher reads. */
  datatype Alert = Alert(
    id: string,
    name: string,
    severity: string,
    description: string,
    startsAt: int,
    endsAt: int,
    status: string,
    methods: seq<string>,
    receptor: seq<string>,
    sendNotif: bool,
    silenced: bool,
    createdAt: int,
    updatedAt: int)

  /** What `GetAlertById` answered: the stored alert, record-not-found, or another error. */
  datatype Lookup = Found(alert: Alert) | NotFound | Failure(error: string)

  /**
    `NewAlert`: a first report is taken as given and waits to be sent; a repeated report
    keeps the stored identity, description, channels, receptors, silence and creation
    time, takes the new status and end time, and needs sending again only if its status
    changed. Any other lookup error is returned as it came.
   */
  function NewAlert(id: string, name: string, severity: string, description: string, status: string,
                    methods: seq<string>, startsAt: int, endsAt: int, receptor: seq<string>,
                    lookup: Lookup, now: int): (r: Result<Alert, string>)
    ensures lookup.Failure? <==> r.Err?
    ensures lookup.Failure? ==> r.error == lookup.error
    ensures lookup.NotFound? ==> r.Ok? && r.value == Alert(id, name, severity, description, startsAt, endsAt,
                                                           status, methods, receptor, false, false, now, now)
    ensures lookup.Found? ==> r.Ok? && Merged(lookup.alert, r.value, status, endsAt, now)
  {
    match lookup
    case NotFound =>
      Ok(Alert(id, name, severity, description, startsAt, endsAt, status, methods, receptor, false, false, now, now))
    case Failure(e) => Err(e)
    case Found(stored) =>
      Ok(stored.(status := status, endsAt := endsAt, updatedAt := now,
              sendNotif := if status != stored.status then false else stored.sendNotif))
  }

  /** The merge rule for a repeated report of `stored`. */
  predicate Merged(stored: Alert, r: Alert, status: string, endsAt: int, now: int) {
    r.id == stored.id && r.name == stored.name && r.severity == stored.severity
    && r.description == stored.description && r.methods == stored.methods
    && r.startsAt == stored.startsAt && r.receptor == stored.receptor
    && r.silenced == stored.silenced && r.createdAt == stored.createdAt
    && r.status == status && r.endsAt == endsAt && r.updatedAt == now
    && (r.sendNotif <==> status == stored.status && stored.sendNotif)
  }

  /** Reporting the stored status again changes nothing but the end and update times. */
  lemma RepeatKeepsAlert(stored: Alert, endsAt: int, now: int, id: string, name: string, severity: string,
                         description: string, methods: seq<string>, startsAt: int, receptor: seq<string>)
    ensures NewAlert(id, name, severity, description, stored.status, methods, startsAt, endsAt, receptor,
                     Found(stored), now)
            == Ok(stored.(endsAt := endsAt, updatedAt := now))
  {
    var r := NewAlert(id, name, severity, description, stored.status, methods, startsAt, endsAt, receptor,
                      Found(stored), now);
    assert r.Ok? && Merged(stored, r.value, stored.status, endsAt, now);
  }

  /**
    The rows saved for a batch when `AddAlert` answers `answers[i]` for the i-th alert:
    the sum of rows up to the first error, and that error.
   */
  function Added(answers: seq<Result<int, string>>): (r: (int, Option<string>))
    decreases |answers|
  {
    if |answers| == 0 then (0, None)
    else if answers[0].Err? then (0, Some(answers[0].error))
    else
      var rest := Added(answers[1..]);
      (answers[0].value + rest.0, rest.1)
  }

  /** The sum of the rows the answers report. */
  function Rows(answers: seq<Result<int, string>>): int
    requires forall i :: 0 <= i < |answers| ==> answers[i].Ok?
    decreases |answers|
  {
    if |answers| == 0 then 0 else answers[0].value + Rows(answers[1..])
  }

  /** With no error the batch reports every row; with one, the rows before the first error. */
  lemma {:induction false} AddedSplit(answers: seq<Result<int, string>>, k: int)
    requires 0 <= k <= |answers|
    requires forall i :: 0 <= i < k ==> answers[i].Ok?
    requires k < |answers| ==> answers[k].Err?
    ensures Added(answers) == (Rows(answers[..k]), if k < |answers| then Some(answers[k].error) else None)
    decreases k
  {
    if k > 0 {
      AddedSplit(answers[1..], k - 1);
      assert answers[1..][..k - 1] == answers[..k][1..];
    }
  }

  /** `AddAlertManagerAlerts`: the loop adds up rows and stops at the first error. */
  method AddAlertManagerAlerts(alerts: seq<Alert>, answers: seq<Result<int, string>>)
    returns (num: int, err: Option<string>)
    requires |answers| == |alerts|
    ensures (num, err) == Added(answers)
  {
    num := 0;
    var i := 0;
    while i < |alerts|
      invariant 0 <= i <= |alerts|
      invariant forall j :: 0 <= j < i ==> answers[j].Ok?
      invariant Added(answers) == (num + Added(answers[i..]).0, Added(answers[i..]).1)
    {
      assert answers[i..][1..] == answers[i + 1..];
      if answers[i].Err? {
        return num, Some(answers[i].error);
      }
      num := num + answers[i].value;
      i := i + 1;
    }
    return num, None;
  }
}
