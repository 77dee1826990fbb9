/** The approval gate: one-use decisions, and the client that asks the backend and waits for its verdict. */
module ApprovalGate {
  import opened Results
  import Text

  /** An RBAC (verb, resource[/subresource]) pair. */
  datatype Pair = Pair(verb: string, resource: string)

  datatype Verdict = Approved | Rejected | Expired | Timeout | Unreachable | Unconfigured

  /** Every answer that is not a decision; no verdict when none was sought. */
  datatype Refusal = Refusal(verdict: Option<Verdict>, requestId: string)

  /** An observed approval, spendable exactly once. */
  class Decision {
    const requestId: string
    const externalId: string
    const autoApproved: bool
    var used: bool

    constructor (requestId: string, externalId: string, autoApproved: bool)
      ensures this.requestId == requestId && this.externalId == externalId && this.autoApproved == autoApproved
      ensures !used
    {
      this.requestId, this.externalId, this.autoApproved := requestId, externalId, autoApproved;
      used := false;
    }

    /** Spends the approval; only the first call succeeds. */
    method Consume() returns (ok: bool)
      modifies this
      ensures ok == !old(used)
      ensures used
    {
      if used {
        return false;
      }
      used := true;
      ok := true;
    }
  }

  /** What Call.Describe does when it is called. */
  datatype Rendering = NoRenderer | DescribeFailed(unavailable: bool) | Rendered(text: string)

  predicate Describable(r: Rendering)
  {
    r.Rendered? && !Text.Blank(r.text)
  }

  datatype Creation = CreateFailed | Created(id: string, status: string)

  datatype PollAnswer = PollFailed | Status(text: string)

  /** The environment of one Authorize: the backend's answers, how long each takes, and when the caller gives up. */
  datatype Backend = Backend(newId: Option<string>, creation: Creation, answers: nat -> PollAnswer, latency: nat -> nat, cancelledAt: Option<nat>)

  predicate Undecided(a: PollAnswer)
  {
    a == Status("PENDING") || a == Status("")
  }

  /** The refusal a poll answer that ends the wait amounts to. */
  function PollVerdict(a: PollAnswer): Verdict
  {
    if Undecided(a) then Timeout
    else if a == Status("APPROVED") then Approved
    else if a == Status("REJECTED") then Rejected
    else if a == Status("EXPIRED") then Expired
    else Unreachable
  }

  type Seconds = n: int | n > 0 witness 1

  datatype Event = Done | Deadline | Tick

  function Max(a: nat, b: nat): nat
  {
    if a >= b then a else b
  }

  class Client {
    const timeout: Seconds
    const pollInterval: Seconds

    /** New: a non-positive duration falls back to the default. Durations are in seconds. */
    constructor (timeout: int, pollInterval: int)
      ensures this.timeout == if timeout <= 0 then 300 else timeout
      ensures this.pollInterval == if pollInterval <= 0 then 2 else pollInterval
    {
      this.timeout := if timeout <= 0 then 300 else timeout;
      this.pollInterval := if pollInterval <= 0 then 2 else pollInterval;
    }

    /** When a case of the select statement becomes ready, seen from a wait that begins at `now`. */
    function ReadyAt(b: Backend, now: nat, e: Event): Option<nat>
    {
      match e
      case Done => if b.cancelledAt.Some? then Some(Max(b.cancelledAt.value, now)) else None
      case Deadline => Some(Max(timeout, now))
      case Tick => Some(now + pollInterval)
    }

    /** select takes an earliest ready case, any of them on a tie. */
    predicate CanFire(b: Backend, now: nat, e: Event)
    {
      && ReadyAt(b, now, e).Some?
      && forall f: Event | ReadyAt(b, now, f).Some? :: ReadyAt(b, now, e).value <= ReadyAt(b, now, f).value
    }

    lemma SomethingFires(b: Backend, now: nat)
      ensures exists e :: CanFire(b, now, e)
    {
      var d, t := ReadyAt(b, now, Deadline).value, ReadyAt(b, now, Tick).value;
      var first := if d <= t then Deadline else Tick;
      var best := if ReadyAt(b, now, Done).Some? && ReadyAt(b, now, Done).value <= ReadyAt(b, now, first).value then Done else first;
      assert CanFire(b, now, best);
    }

    /**
     * poll: ends on the first answer that is not "still pending", or as a timeout when the deadline or the
     * caller's own end comes first. The deadline bounds the number of polls whatever the backend does.
     */
    method Poll(b: Backend, requestId: string, externalId: string)
      returns (out: Result<Decision, Refusal>, polls: nat, elapsed: nat)
      ensures 1 <= polls <= timeout / pollInterval + 1
      ensures forall i | 0 <= i < polls - 1 :: Undecided(b.answers(i))
      ensures out.Ok? <==> b.answers(polls - 1) == Status("APPROVED")
      ensures out.Ok? ==> fresh(out.value) && !out.value.used && !out.value.autoApproved
      ensures out.Ok? ==> out.value.requestId == requestId && out.value.externalId == externalId
      ensures out.Err? ==> out.error == Refusal(Some(PollVerdict(b.answers(polls - 1))), requestId)
      ensures Undecided(b.answers(polls - 1)) ==> elapsed >= timeout || (b.cancelledAt.Some? && elapsed >= b.cancelledAt.value)
      ensures Undecided(b.answers(polls - 1)) && b.cancelledAt.None? && (forall i :: b.latency(i) == 0) ==> polls * pollInterval >= timeout
    {
      elapsed, polls := 0, 0;
      while true
        invariant polls * pollInterval <= elapsed <= timeout
        invariant (forall i :: b.latency(i) == 0) ==> elapsed == polls * pollInterval
        invariant forall i | 0 <= i < polls :: Undecided(b.answers(i))
        decreases timeout - elapsed
      {
        PollBound(polls, pollInterval, timeout);
        var answer := b.answers(polls);
        elapsed, polls := elapsed + b.latency(polls), polls + 1;
        if answer == PollFailed {
          return Err(Refusal(Some(Unreachable), requestId)), polls, elapsed;
        }
        match answer.text {
          case "APPROVED" =>
            var d := new Decision(requestId, externalId, false);
            return Ok(d), polls, elapsed;
          case "REJECTED" => return Err(Refusal(Some(Rejected), requestId)), polls, elapsed;
          case "EXPIRED" => return Err(Refusal(Some(Expired), requestId)), polls, elapsed;
          case "PENDING" =>
          case "" =>
          case _ => return Err(Refusal(Some(Unreachable), requestId)), polls, elapsed;
        }
        SomethingFires(b, elapsed);
        var e :| CanFire(b, elapsed, e);
        var woken := ReadyAt(b, elapsed, e).value;
        assert woken <= ReadyAt(b, elapsed, Deadline).value && woken <= ReadyAt(b, elapsed, Tick).value;
        NextPoll(polls - 1, pollInterval);
        elapsed := woken;
        if e == Done || e == Deadline {
          return Err(Refusal(Some(Timeout), requestId)), polls, elapsed;
        }
      }
    }

    lemma PollBound(polls: nat, interval: Seconds, limit: nat)
      requires polls * interval <= limit
      ensures polls <= limit / interval
    {
      var q := limit / interval;
      assert limit < (q + 1) * interval;
      Cancel(polls, q + 1, interval);
    }

    lemma {:induction false} Cancel(a: nat, b: nat, c: Seconds)
      requires a * c < b * c
      ensures a < b
    {
      if b > 0 && a > 0 {
        assert (a - 1) * c == a * c - c && (b - 1) * c == b * c - c;
        Cancel(a - 1, b - 1, c);
      }
    }

    lemma NextPoll(polls: nat, interval: nat)
      ensures (polls + 1) * interval == polls * interval + interval
    {
    }

    /**
     * Authorize: describe, create, then poll unless the creation itself was decided. `posted` is the context
     * of the approval request, if one was sent.
     */
    method Authorize(describe: Rendering, b: Backend)
      returns (out: Result<Decision, Refusal>, posted: Option<string>, polls: nat)
      ensures posted.Some? <==> Describable(describe) && b.newId.Some?
      ensures posted.Some? ==> posted.value == describe.text
      ensures polls <= timeout / pollInterval + 1
      ensures polls > 0 <==> posted.Some? && b.creation.Created? && b.creation.id != "" && b.creation.status !in {"APPROVED", "REJECTED"}
      ensures forall i | 0 <= i < polls - 1 :: Undecided(b.answers(i))
      ensures out.Ok? <==>
        && posted.Some? && b.creation.Created? && b.creation.id != ""
        && (b.creation.status == "APPROVED" || (polls > 0 && b.answers(polls - 1) == Status("APPROVED")))
      ensures out.Ok? ==>
        && fresh(out.value) && !out.value.used
        && out.value.requestId == b.creation.id && Some(out.value.externalId) == b.newId
        && out.value.autoApproved == (b.creation.status == "APPROVED")
      ensures out.Err? ==> out.error == RefusalOf(describe, b, polls)
    {
      posted, polls := None, 0;
      if describe.NoRenderer? {
        return Err(Refusal(None, "")), posted, polls;
      }
      if describe.DescribeFailed? {
        return Err(Refusal(if describe.unavailable then Some(Unconfigured) else None, "")), posted, polls;
      }
      if Text.Blank(describe.text) {
        return Err(Refusal(None, "")), posted, polls;
      }
      if b.newId.None? {
        return Err(Refusal(Some(Unreachable), "")), posted, polls;
      }
      posted := Some(describe.text);
      if b.creation.CreateFailed? || b.creation.id == "" {
        return Err(Refusal(Some(Unreachable), "")), posted, polls;
      }
      if b.creation.status == "APPROVED" {
        var d := new Decision(b.creation.id, b.newId.value, true);
        return Ok(d), posted, polls;
      }
      if b.creation.status == "REJECTED" {
        return Err(Refusal(Some(Rejected), b.creation.id)), posted, polls;
      }
      var elapsed: nat;
      out, polls, elapsed := Poll(b, b.creation.id, b.newId.value);
    }

    /** How a refusal is recorded: no verdict only for a call that could not be described. */
    function RefusalOf(describe: Rendering, b: Backend, polls: nat): Refusal
    {
      if !Describable(describe) then
        Refusal(if describe.DescribeFailed? && describe.unavailable then Some(Unconfigured) else None, "")
      else if b.newId.None? || b.creation.CreateFailed? || b.creation.id == "" then Refusal(Some(Unreachable), "")
      else if b.creation.status == "REJECTED" then Refusal(Some(Rejected), b.creation.id)
      else Refusal(Some(if polls > 0 then PollVerdict(b.answers(polls - 1)) else Unreachable), b.creation.id)
    }
  }

  /** The backend's words and what they come to: a verdict that ends the wait, or none yet. */
  lemma VerdictsByName(text: string)
    ensures Undecided(Status(text)) <==> text == "PENDING" || text == ""
    ensures PollVerdict(Status("APPROVED")) == Approved && PollVerdict(Status("REJECTED")) == Rejected
    ensures PollVerdict(Status("EXPIRED")) == Expired && PollVerdict(Status("PENDING")) == Timeout && PollVerdict(PollFailed) == Unreachable
    ensures text !in {"APPROVED", "REJECTED", "EXPIRED", "PENDING", ""} ==> PollVerdict(Status(text)) == Unreachable
  {
  }

  /**
   * Why a call is refused: without a verdict when it could not be described, unless for want of set-up; as
   * unreachable when no request could be made or no answer got; and else as the backend, or the deadline, has it.
   */
  lemma RefusalsExactly(client: Client, describe: Rendering, b: Backend, polls: nat)
    ensures
      var r := client.RefusalOf(describe, b, polls);
      && (describe.NoRenderer? || (describe.Rendered? && Text.Blank(describe.text)) || describe == DescribeFailed(false) ==> r == Refusal(None, ""))
      && (describe == DescribeFailed(true) ==> r == Refusal(Some(Unconfigured), ""))
      && (describe.Rendered? && !Text.Blank(describe.text) ==>
            && (b.newId.None? || b.creation.CreateFailed? || b.creation.id == "" ==> r == Refusal(Some(Unreachable), ""))
            && (b.newId.Some? && b.creation.Created? && b.creation.id != "" ==>
                  && r.requestId == b.creation.id
                  && (b.creation.status == "REJECTED" ==> r.verdict == Some(Rejected))
                  && (b.creation.status != "REJECTED" && polls > 0 ==>
                        && (b.answers(polls - 1) == Status("REJECTED") ==> r.verdict == Some(Rejected))
                        && (b.answers(polls - 1) == Status("EXPIRED") ==> r.verdict == Some(Expired))
                        && (b.answers(polls - 1) in {Status("PENDING"), Status("")} ==> r.verdict == Some(Timeout))
                        && (b.answers(polls - 1) == PollFailed ==> r.verdict == Some(Unreachable)))))
  {
  }
}
