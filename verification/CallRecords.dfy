/** The one record each tools/call ends in, and what the layers below tell the dispatcher for it. */
module CallRecords {
  import opened Results
  import opened ApprovalGate
  import Text

  datatype ResultKind = Success | Refused | Error

  /** eventlog.Reasons. */
  datatype Reason =
    | AuthFailed | InvalidInput | NotConfigured
    | GateRejected | GateExpired | GateTimeout | GateUnreachable | GateUnconfigured

  /** What the gate said about a call. */
  datatype Gate = Gate(requestId: string, decision: Option<Verdict>, autoApproved: bool)

  const NO_GATE := Gate("", None, false)

  /** A JSON-RPC error as far as the record goes: -32602 or another code, and what was set on it. */
  datatype RpcError = RpcError(invalidParams: bool, reason: Option<Reason>, gate: Gate)

  const BAD_ARGUMENTS := RpcError(true, None, NO_GATE)
  const BAD_DECLARATION := RpcError(false, None, NO_GATE)

  /** reasonOf: arguments are the caller's fault, everything unmarked besides them the gate layer's own. */
  function ReasonOf(e: RpcError): Reason
  {
    if e.reason.Some? then e.reason.value else if e.invalidParams then InvalidInput else GateUnconfigured
  }

  /** How the gate says no: with its own refusal, or with an error it did not type. */
  datatype GateError = Untyped | Typed(refusal: Refusal)

  /** gateRefusal. */
  function GateRefusal(e: GateError): RpcError
  {
    match e
    case Untyped => RpcError(false, Some(GateUnreachable), NO_GATE)
    case Typed(refusal) =>
      var reason := match refusal.verdict
                    case Some(Rejected) => GateRejected
                    case Some(Expired) => GateExpired
                    case Some(Timeout) => GateTimeout
                    case Some(Unconfigured) => GateUnconfigured
                    case None => InvalidInput
                    case _ => GateUnreachable;
      RpcError(false, Some(reason), Gate(refusal.requestId, refusal.verdict, false))
  }

  function GateOf(d: Decision): Gate
  {
    Gate(d.requestId, Some(Approved), d.autoApproved)
  }

  /** afterVerdict: the gate layer withheld an approval the backend gave. */
  function AfterVerdict(d: Decision): RpcError
  {
    RpcError(false, Some(GateRejected), GateOf(d))
  }

  datatype Ending = Returned(isError: bool) | Failed(error: RpcError)

  /** outcome, with what the note holds of the call. */
  function Outcome(ending: Ending, noted: Option<Reason>, gate: Gate): (ResultKind, Option<Reason>, Gate)
  {
    match ending
    case Failed(e) => (Refused, Some(ReasonOf(e)), if e.gate == NO_GATE then gate else e.gate)
    case Returned(isError) =>
      if !isError then (Success, None, gate)
      else if noted.Some? then (Refused, noted, gate)
      else (Error, None, gate)
  }

  datatype Record = Record(tool: string, result: ResultKind, reason: Option<Reason>, gate: Gate, gateWait: int, duration: int)

  /** A record gives a reason exactly when the call was refused. */
  predicate Classified(r: Record)
  {
    r.result.Refused? <==> r.reason.Some?
  }

  // ---- the note that rides along with a call ----

  function Ids(ds: seq<Decision>): (ids: seq<string>)
    ensures |ids| == |ds| && forall i | 0 <= i < |ds| :: ids[i] == ds[i].requestId
  {
    seq(|ds|, i requires 0 <= i < |ds| => ds[i].requestId)
  }

  /** The gate column of a call that spent these decisions, in this order. */
  ghost function GateOfAll(ds: seq<Decision>): Gate
  {
    if ds == [] then NO_GATE
    else Gate(Text.Join(Ids(ds), ','), Some(Approved), forall d | d in ds :: d.autoApproved)
  }

  lemma {:induction false} JoinAppend(parts: seq<string>, last: string, sep: char)
    requires parts != []
    ensures Text.Join(parts + [last], sep) == Text.Join(parts, sep) + [sep] + last
  {
    if |parts| == 1 {
      assert (parts + [last])[1..] == [last];
    } else {
      assert (parts + [last])[1..] == parts[1..] + [last];
      JoinAppend(parts[1..], last, sep);
    }
  }

  /** The request ids of a record can be read back out of it, one for each decision the call spent. */
  lemma RecordNamesEveryDecision(ds: seq<Decision>)
    requires ds != [] && forall d | d in ds :: ',' !in d.requestId
    ensures Text.Split(GateOfAll(ds).requestId, ',') == Ids(ds)
  {
    assert forall i | 0 <= i < |ds| :: ds[i] in ds;
    Text.SplitJoin(Ids(ds), ',');
  }

  /** callNote. */
  class CallNote {
    var reason: Option<Reason>
    var gate: Gate
    var gateWait: int

    constructor ()
      ensures reason == None && gate == NO_GATE && gateWait == 0
    {
      reason, gate, gateWait := None, NO_GATE, 0;
    }

    /** noteGate: a further decision is added to those noted, and counts as automatic only if all of them are. */
    method NoteGate(d: Decision, ghost noted: seq<Decision>)
      requires gate == GateOfAll(noted) && forall n | n in noted :: n.requestId != ""
      modifies this`gate
      ensures gate == GateOfAll(noted + [d])
    {
      var g := GateOf(d);
      ghost var all := noted + [d];
      assert d in all && forall n | n in noted :: n in all;
      if gate.requestId != "" {
        assert noted != [];
        JoinAppend(Ids(noted), d.requestId, ',');
        assert Ids(all) == Ids(noted) + [d.requestId];
        g := Gate(gate.requestId + "," + g.requestId, g.decision, gate.autoApproved && g.autoApproved);
      } else {
        JoinedIsNotEmpty(noted);
        assert all == [d] && Ids(all) == [d.requestId];
      }
      gate := g;
    }

    lemma JoinedIsNotEmpty(ds: seq<Decision>)
      requires forall n | n in ds :: n.requestId != ""
      ensures GateOfAll(ds).requestId == "" ==> ds == []
    {
      if ds != [] {
        assert ds[0] in ds;
        assert Ids(ds)[0] != "";
      }
    }

    /** askGate: the time between asking and the answer is the gate's, not the call's own. */
    method Waited(begin: int, end: int)
      modifies this`gateWait
      ensures gateWait == old(gateWait) + (end - begin)
    {
      gateWait := gateWait + (end - begin);
    }
  }

  /** A monotone clock, read once for each tick. */
  ghost predicate Monotone(clock: nat -> int)
  {
    forall i: nat, j: nat | i <= j :: clock(i) <= clock(j)
  }
}
