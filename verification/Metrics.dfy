/** The counters and sample counts that are kept from the records of tool calls. */
module Metrics {
  import opened Results
  import opened ApprovalGate
  import opened CallRecords

  const UNREGISTERED := "unregistered"

  /** How many records pass the test. */
  function Count(records: seq<Record>, test: Record -> bool): nat
  {
    if records == [] then 0
    else Count(records[..|records| - 1], test) + if test(records[|records| - 1]) then 1 else 0
  }

  lemma CountOne(records: seq<Record>, r: Record, test: Record -> bool)
    ensures Count(records + [r], test) == Count(records, test) + if test(r) then 1 else 0
  {
    assert (records + [r])[..|records + [r]| - 1] == records;
  }

  /** The name a record is counted under: unknown tools share one. */
  function Folded(tools: set<string>, tool: string): string
  {
    if tool in tools then tool else UNREGISTERED
  }

  function Ended(tools: set<string>): ((string, ResultKind)) -> Record -> bool
  {
    (k: (string, ResultKind)) => (r: Record) => Folded(tools, r.tool) == k.0 && r.result == k.1
  }

  function RefusedFor(tools: set<string>): ((string, Reason)) -> Record -> bool
  {
    (k: (string, Reason)) => (r: Record) => Folded(tools, r.tool) == k.0 && r.reason == Some(k.1)
  }

  function Ran(tools: set<string>): string -> Record -> bool
  {
    (tool: string) => (r: Record) => Folded(tools, r.tool) == tool && !r.result.Refused?
  }

  function Judged(): Verdict -> Record -> bool
  {
    (v: Verdict) => (r: Record) => r.gate.decision == Some(v)
  }

  function AnyVerdict(): Record -> bool
  {
    (r: Record) => r.gate.decision.Some?
  }

  /** The value of a counter or a sample count; a series no one touched reads zero. */
  function Value<K>(series: map<K, nat>, key: K): nat
  {
    if key in series then series[key] else 0
  }

  function Bumped<K>(series: map<K, nat>, key: K): map<K, nat>
  {
    series[key := Value(series, key) + 1]
  }

  /** Each series of a family reads what a count of the records gives. */
  ghost predicate Keeps<K(!new)>(series: map<K, nat>, records: seq<Record>, family: K -> Record -> bool)
  {
    forall k :: Value(series, k) == Count(records, family(k))
  }

  /** A record moves the one series its label names, if any, and no other. */
  function Moved<K>(series: map<K, nat>, key: Option<K>): map<K, nat>
  {
    if key.Some? then Bumped(series, key.value) else series
  }

  lemma MovedKeeps<K(!new)>(series: map<K, nat>, records: seq<Record>, r: Record, family: K -> Record -> bool, key: Option<K>)
    requires Keeps(series, records, family) && forall k :: family(k)(r) <==> key == Some(k)
    ensures Keeps(Moved(series, key), records + [r], family)
  {
    forall k
      ensures Value(Moved(series, key), k) == Count(records + [r], family(k))
    {
      CountOne(records, r, family(k));
    }
  }

  /** Some series of one family, added up. */
  function SeriesTotal<K>(series: map<K, nat>, keys: seq<K>): nat
  {
    if keys == [] then 0 else Value(series, keys[0]) + SeriesTotal(series, keys[1..])
  }

  /** Every reason a tool's calls are refused for, in eventlog's order. */
  function Reasons(tool: string): seq<(string, Reason)>
  {
    [(tool, AuthFailed), (tool, InvalidInput), (tool, NotConfigured), (tool, GateRejected),
     (tool, GateExpired), (tool, GateTimeout), (tool, GateUnreachable), (tool, GateUnconfigured)]
  }

  const VERDICTS: seq<Verdict> := [Approved, Rejected, Expired, Timeout, Unreachable, Unconfigured]

  class Metrics {
    const tools: set<string>
    var calls: map<(string, ResultKind), nat>
    var refusals: map<(string, Reason), nat>
    var duration: map<string, nat>
    var gateWait: map<Verdict, nat>
    ghost var seen: seq<Record>

    /** Every series is what a count over all records so far gives. */
    ghost predicate Valid()
      reads this
    {
      && UNREGISTERED !in tools
      && (forall r | r in seen :: Classified(r))
      && Keeps(calls, seen, Ended(tools))
      && Keeps(refusals, seen, RefusedFor(tools))
      && Keeps(duration, seen, Ran(tools))
      && Keeps(gateWait, seen, Judged())
    }

    constructor (tools: set<string>)
      requires UNREGISTERED !in tools
      ensures Valid() && seen == [] && this.tools == tools
    {
      this.tools := tools;
      calls, refusals, duration, gateWait := map[], map[], map[], map[];
      seen := [];
    }

    method Emit(r: Record)
      requires Valid() && Classified(r)
      modifies this
      ensures Valid() && seen == old(seen) + [r]
    {
      var tool := Folded(tools, r.tool);
      ghost var ran := !r.result.Refused?;
      MovedKeeps(calls, seen, r, Ended(tools), Some((tool, r.result)));
      MovedKeeps(refusals, seen, r, RefusedFor(tools), if ran then None else Some((tool, r.reason.value)));
      MovedKeeps(duration, seen, r, Ran(tools), if ran then Some(tool) else None);
      MovedKeeps(gateWait, seen, r, Judged(), r.gate.decision);
      calls := Bumped(calls, (tool, r.result));
      if r.result.Refused? {
        refusals := Bumped(refusals, (tool, r.reason.value));
      } else {
        duration := Bumped(duration, tool);
      }
      if r.gate.decision.Some? {
        gateWait := Bumped(gateWait, r.gate.decision.value);
      }
      seen := seen + [r];
    }

    /**
     * What an operator reads off the surface agrees with itself, whatever was recorded: a tool's refusals add
     * up to its refused calls, its durations to its other calls, and the gate waits to the calls with a verdict.
     */
    lemma Agrees(tool: string)
      requires Valid()
      ensures Value(duration, tool) == Value(calls, (tool, Success)) + Value(calls, (tool, Error))
      ensures SeriesTotal(refusals, Reasons(tool)) == Value(calls, (tool, Refused))
      ensures SeriesTotal(gateWait, VERDICTS) == Count(seen, AnyVerdict())
    {
      RanCount(seen, tools, tool);
      RefusalCount(seen, tools, tool);
      SeriesAreCounts(seen, refusals, RefusedFor(tools), Reasons(tool));
      VerdictCount(seen);
      SeriesAreCounts(seen, gateWait, Judged(), VERDICTS);
    }
  }

  /** New: refused when a tool takes the name that unknown tools are counted under. */
  method New(tools: seq<string>) returns (m: Metrics?)
    ensures m == null <==> UNREGISTERED in tools
    ensures m != null ==> fresh(m) && m.Valid() && m.seen == [] && m.tools == set t | t in tools
  {
    var names := set t | t in tools;
    if UNREGISTERED in names {
      return null;
    }
    m := new Metrics(names);
  }

  lemma {:induction false} RanCount(records: seq<Record>, tools: set<string>, tool: string)
    ensures Count(records, Ran(tools)(tool)) == Count(records, Ended(tools)((tool, Success))) + Count(records, Ended(tools)((tool, Error)))
  {
    if records != [] {
      RanCount(records[..|records| - 1], tools, tool);
    }
  }

  // ---- adding up a family ----

  function Total<K>(records: seq<Record>, family: K -> Record -> bool, keys: seq<K>): nat
  {
    if keys == [] then 0 else Count(records, family(keys[0])) + Total(records, family, keys[1..])
  }

  lemma {:induction false} SeriesAreCounts<K>(records: seq<Record>, series: map<K, nat>, family: K -> Record -> bool, keys: seq<K>)
    requires forall k | k in keys :: Value(series, k) == Count(records, family(k))
    ensures SeriesTotal(series, keys) == Total(records, family, keys)
  {
    if keys != [] {
      assert keys[0] in keys && forall k | k in keys[1..] :: k in keys;
      SeriesAreCounts(records, series, family, keys[1..]);
    }
  }

  /** How often this record is counted under the keys. */
  function Hits<K>(r: Record, family: K -> Record -> bool, keys: seq<K>): nat
  {
    if keys == [] then 0 else (if family(keys[0])(r) then 1 else 0) + Hits(r, family, keys[1..])
  }

  lemma {:induction false} TotalStep<K>(records: seq<Record>, r: Record, family: K -> Record -> bool, keys: seq<K>)
    ensures Total(records + [r], family, keys) == Total(records, family, keys) + Hits(r, family, keys)
  {
    if keys != [] {
      CountOne(records, r, family(keys[0]));
      TotalStep(records, r, family, keys[1..]);
    }
  }

  lemma {:induction false} TotalNone<K>(family: K -> Record -> bool, keys: seq<K>)
    ensures Total([], family, keys) == 0
  {
    if keys != [] {
      TotalNone(family, keys[1..]);
    }
  }

  lemma {:induction false} ReasonHits(r: Record, tools: set<string>, tool: string, keys: seq<(string, Reason)>)
    requires forall i, j | 0 <= i < j < |keys| :: keys[i] != keys[j]
    requires forall k | k in keys :: k.0 == tool
    ensures Hits(r, RefusedFor(tools), keys) ==
            if Folded(tools, r.tool) == tool && r.reason.Some? && (tool, r.reason.value) in keys then 1 else 0
  {
    if keys != [] {
      assert keys[0] in keys && forall k | k in keys[1..] :: k in keys;
      ReasonHits(r, tools, tool, keys[1..]);
    }
  }

  lemma EveryReason(tool: string, c: Reason)
    ensures (tool, c) in Reasons(tool)
  {
    var all := Reasons(tool);
    assert all[0] == (tool, AuthFailed) && all[1] == (tool, InvalidInput) && all[2] == (tool, NotConfigured) && all[3] == (tool, GateRejected);
    assert all[4] == (tool, GateExpired) && all[5] == (tool, GateTimeout) && all[6] == (tool, GateUnreachable) && all[7] == (tool, GateUnconfigured);
  }

  /** Every refused call is counted under exactly one reason. */
  lemma {:induction false} RefusalCount(records: seq<Record>, tools: set<string>, tool: string)
    requires forall r | r in records :: Classified(r)
    ensures Count(records, Ended(tools)((tool, Refused))) == Total(records, RefusedFor(tools), Reasons(tool))
  {
    if records == [] {
      TotalNone(RefusedFor(tools), Reasons(tool));
    } else {
      var front, last := records[..|records| - 1], records[|records| - 1];
      assert records == front + [last] && last in records;
      RefusalCount(front, tools, tool);
      TotalStep(front, last, RefusedFor(tools), Reasons(tool));
      ReasonHits(last, tools, tool, Reasons(tool));
      if last.reason.Some? { EveryReason(tool, last.reason.value); }
    }
  }

  lemma {:induction false} VerdictHits(r: Record, keys: seq<Verdict>)
    requires forall i, j | 0 <= i < j < |keys| :: keys[i] != keys[j]
    ensures Hits(r, Judged(), keys) == if r.gate.decision.Some? && r.gate.decision.value in keys then 1 else 0
  {
    if keys != [] {
      VerdictHits(r, keys[1..]);
    }
  }

  lemma EveryVerdict(v: Verdict)
    ensures v in VERDICTS
  {
    assert VERDICTS[0] == Approved && VERDICTS[1] == Rejected && VERDICTS[2] == Expired;
    assert VERDICTS[3] == Timeout && VERDICTS[4] == Unreachable && VERDICTS[5] == Unconfigured;
  }

  lemma {:induction false} VerdictCount(records: seq<Record>)
    ensures Count(records, AnyVerdict()) == Total(records, Judged(), VERDICTS)
  {
    if records == [] {
      TotalNone(Judged(), VERDICTS);
    } else {
      var front, last := records[..|records| - 1], records[|records| - 1];
      assert records == front + [last];
      VerdictCount(front);
      TotalStep(front, last, Judged(), VERDICTS);
      VerdictHits(last, VERDICTS);
      if last.gate.decision.Some? { EveryVerdict(last.gate.decision.value); }
    }
  }
}
