/** callCreateBatch: every document is approved on its own before the first one is created. */
module CreateBatch {
  import opened Results
  import opened ApprovalGate
  import opened Declarations
  import opened CallRecords
  import Json

  /** The gate's answer about one document. */
  datatype Answer = Refuses(error: GateError) | NoDecision | Grants(decision: Decision)

  /** How the handler's one create ends. */
  datatype CreateEnd = Created | ToolFailure(text: Option<string>, unavailable: bool) | CallFailure(message: string) | BadResult

  /** A failure is a non-empty message: one that carries an empty text passes for none. */
  predicate Fails(e: CreateEnd)
  {
    match e
    case Created => false
    case ToolFailure(text, _) => text != Some("")
    case CallFailure(message) => message != ""
    case BadResult => true
  }

  predicate Unavailable(e: CreateEnd)
  {
    e.ToolFailure? && e.unavailable
  }

  datatype Batch = Batch(created: seq<Document>, failed: Option<Document>, unattempted: seq<Document>)
  {
    /** The documents of the answer, in the order it lists them. */
    function All(): seq<Document>
    {
      created + (if failed.Some? then [failed.value] else []) + unattempted
    }
  }

  // ---- approval ----

  /** What the check before each approval asks of a document. */
  predicate SinglePair(env: Env, sensitiveKinds: seq<string>, d: Document)
  {
    GatedPairs(Shipped(ResourceCreate), env, sensitiveKinds, d.Raw()) == Some([d.pair]) && d.pair.verb == "create"
  }

  /** A decision that no earlier answer repeats. */
  predicate Distinct(answers: seq<Answer>, i: nat)
    requires i < |answers|
  {
    && answers[i].Grants? && answers[i].decision.requestId != ""
    && forall j | 0 <= j < i && answers[j].Grants? ::
         && answers[j].decision.requestId != answers[i].decision.requestId
         && (answers[i].decision.externalId != "" ==> answers[j].decision.externalId != answers[i].decision.externalId)
  }

  predicate AllDistinct(answers: seq<Answer>)
  {
    forall i: nat | i < |answers| :: Distinct(answers, i)
  }

  /** Every document that was parsed from a call passes the check. */
  lemma ParsedDocumentsAreSingle(env: Env, sensitiveKinds: seq<string>, args: Json.Json, d: Document)
    requires ParseCreateDocuments(env, args).Some? && d in ParseCreateDocuments(env, args).value
    ensures SinglePair(env, sensitiveKinds, d)
  {
    DocumentRoundTrip(env, args, d);
    CreateVerbs(env, args);
    assert Json.Obj(d.Raw().members) == d.Raw();
    assert DocumentPairs([d]) == [d.pair];
    NeedingOne(d.pair, sensitiveKinds);
  }

  /** The answer that ended the asking. */
  predicate FirstRefusal(answers: seq<Answer>, n: nat)
    requires n < |answers|
  {
    !Distinct(answers, n) && forall i: nat | i < n :: Distinct(answers, i)
  }

  function RefusedWith(a: Answer): RpcError
  {
    if a.Refuses? then GateRefusal(a.error) else BAD_DECLARATION
  }

  /** The first loop: one approval for each document, all distinct, or a refusal. */
  method ApproveAll(single: Document -> bool, docs: seq<Document>, answers: seq<Answer>, note: CallNote,
                    clock: nat -> int, tick: nat)
    returns (r: Result<seq<Decision>, RpcError>, asked: nat, now: nat)
    requires |answers| == |docs|
    modifies note`gateWait
    ensures asked <= |docs| && now == tick + 2 * asked
    ensures forall i: nat | i < asked - 1 :: Distinct(answers, i)
    ensures r.Ok? <==> AllDistinct(answers) && forall d | d in docs :: single(d)
    ensures r.Ok? ==> asked == |docs| && |r.value| == |docs| && forall i: nat | i < |docs| :: answers[i] == Grants(r.value[i])
    ensures r.Err? ==>
      || (asked < |docs| && !single(docs[asked]) && r.error == BAD_DECLARATION)
      || (asked > 0 && !Distinct(answers, asked - 1) && r.error == RefusedWith(answers[asked - 1]))
    ensures Monotone(clock) ==> 0 <= note.gateWait - old(note.gateWait) <= clock(now) - clock(tick)
  {
    var decisions: seq<Decision> := [];
    var seenRequests: set<string> := {};
    var seenExternal: set<string> := {};
    asked, now := 0, tick;
    while asked < |docs|
      invariant asked == |decisions| <= |docs| && now == tick + 2 * asked
      invariant forall i: nat | i < asked :: answers[i] == Grants(decisions[i])
      invariant forall i: nat | i < asked :: Distinct(answers, i)
      invariant forall i: nat | i < asked :: single(docs[i])
      invariant forall x :: x in seenRequests <==> exists i: nat :: i < asked && decisions[i].requestId == x
      invariant forall x :: x in seenExternal <==> exists i: nat :: i < asked && decisions[i].externalId == x
      invariant Monotone(clock) ==> 0 <= note.gateWait - old(note.gateWait) <= clock(now) - clock(tick)
    {
      if !single(docs[asked]) {
        return Err(BAD_DECLARATION), asked, now;
      }
      var answer := answers[asked];
      note.Waited(clock(now), clock(now + 1));
      asked, now := asked + 1, now + 2;
      if answer.Refuses? {
        assert !Distinct(answers, asked - 1);
        return Err(GateRefusal(answer.error)), asked, now;
      }
      if answer.NoDecision? || answer.decision.requestId == "" || answer.decision.requestId in seenRequests
         || (answer.decision.externalId != "" && answer.decision.externalId in seenExternal) {
        assert !Distinct(answers, asked - 1);
        return Err(BAD_DECLARATION), asked, now;
      }
      seenRequests, seenExternal := seenRequests + {answer.decision.requestId}, seenExternal + {answer.decision.externalId};
      decisions := decisions + [answer.decision];
    }
    r := Ok(decisions);
  }

  // ---- execution ----

  /** The execution as the caller's environment has it: how each create would end, and when the caller goes away. */
  datatype Environment = Environment(ends: seq<CreateEnd>, cancelledFrom: nat)

  /** Document i is tried when the call is still on and its approval unspent. */
  predicate Tried(e: Environment, unspent: bool, i: nat)
  {
    i < e.cancelledFrom && unspent
  }

  /** How far the documents from i on go: the first that is not tried, or that fails. */
  function CompletedFrom(e: Environment, unspent: seq<bool>, i: nat): (n: nat)
    requires i <= |e.ends| == |unspent|
    ensures i <= n <= |e.ends|
    decreases |e.ends| - i
  {
    if i < |e.ends| && Tried(e, unspent[i], i) && !Fails(e.ends[i]) then CompletedFrom(e, unspent, i + 1) else i
  }

  function Completed(e: Environment, unspent: seq<bool>): nat
    requires |e.ends| == |unspent|
  {
    CompletedFrom(e, unspent, 0)
  }

  function TriedUpTo(e: Environment, unspent: seq<bool>): nat
    requires |e.ends| == |unspent|
  {
    var n := Completed(e, unspent);
    if n < |e.ends| && Tried(e, unspent[n], n) then n + 1 else n
  }

  lemma {:induction false} CompletedIs(e: Environment, unspent: seq<bool>, i: nat, n: nat)
    requires i <= n <= |e.ends| == |unspent|
    requires forall j: nat | i <= j < n :: Tried(e, unspent[j], j) && !Fails(e.ends[j])
    requires n < |e.ends| ==> !Tried(e, unspent[n], n) || Fails(e.ends[n])
    ensures CompletedFrom(e, unspent, i) == n
    decreases n - i
  {
    if i < n { CompletedIs(e, unspent, i + 1, n); }
  }

  lemma ExtentIs(e: Environment, unspent: seq<bool>, n: nat, tried: nat)
    requires n <= |e.ends| == |unspent|
    requires forall i: nat | i < n :: Tried(e, unspent[i], i) && !Fails(e.ends[i])
    requires n == |e.ends| ==> tried == n
    requires n < |e.ends| ==> tried == (if Tried(e, unspent[n], n) then n + 1 else n) && (tried > n ==> Fails(e.ends[n]))
    ensures n == Completed(e, unspent) && tried == TriedUpTo(e, unspent) && forall i: nat | i < tried :: Tried(e, unspent[i], i)
  {
    CompletedIs(e, unspent, 0, n);
  }

  predicate AnyUnavailable(ends: seq<CreateEnd>)
  {
    exists i :: 0 <= i < |ends| && Unavailable(ends[i])
  }

  /** One document: its approval is spent first, and whatever happens then it stays spent. */
  method CreateOne(decisions: seq<Decision>, i: nat, e: Environment, note: CallNote) returns (failed: bool, tried: bool)
    requires i < |decisions| == |e.ends| && note.gate == GateOfAll(decisions[..i])
    requires forall d | d in decisions :: d.requestId != ""
    modifies note`gate, note`reason, decisions[i]
    ensures tried == Tried(e, !old(decisions[i].used), i)
    ensures failed == (!tried || Fails(e.ends[i]))
    ensures decisions[i].used == (old(decisions[i].used) || tried)
    ensures note.gate == GateOfAll(decisions[..if tried then i + 1 else i])
    ensures note.reason == if tried && Unavailable(e.ends[i]) then Some(NotConfigured) else old(note.reason)
  {
    if i >= e.cancelledFrom {
      return true, false;
    }
    var ok := decisions[i].Consume();
    if !ok {
      return true, false;
    }
    note.NoteGate(decisions[i], decisions[..i]);
    assert decisions[..i] + [decisions[i]] == decisions[..i + 1];
    if Unavailable(e.ends[i]) {
      note.reason := Some(NotConfigured);
    }
    return Fails(e.ends[i]), true;
  }

  /** The second loop: one create at a time, up to the first that fails. */
  method ExecuteAll(docs: seq<Document>, decisions: seq<Decision>, e: Environment, note: CallNote)
    returns (batch: Batch, tried: nat)
    requires |docs| == |decisions| == |e.ends| && note.gate == NO_GATE
    requires forall i, j | 0 <= i < j < |decisions| :: decisions[i] != decisions[j]
    requires forall d | d in decisions :: d.requestId != ""
    modifies note`gate, note`reason, decisions
    ensures batch.All() == docs
    ensures batch.failed.None? <==> |batch.created| == |docs|
    ensures |batch.created| <= tried <= |batch.created| + 1 && tried <= |docs|
    ensures forall i: nat | i < |batch.created| :: Tried(e, !old(decisions[i].used), i) && !Fails(e.ends[i])
    ensures |batch.created| < |docs| ==>
      var n := |batch.created|;
      tried == (if Tried(e, !old(decisions[n].used), n) then n + 1 else n) && (tried > n ==> Fails(e.ends[n]))
    ensures forall i: nat | i < |docs| :: decisions[i].used == (old(decisions[i].used) || i < tried)
    ensures forall i: nat | i < tried :: !old(decisions[i].used)
    ensures note.gate == GateOfAll(decisions[..tried])
    ensures note.reason == if AnyUnavailable(e.ends[..tried]) then Some(NotConfigured) else old(note.reason)
  {
    var created: seq<Document> := [];
    var i := 0;
    while i < |docs|
      invariant i <= |docs| && created == docs[..i]
      invariant forall j: nat | j < i :: Tried(e, !old(decisions[j].used), j) && !Fails(e.ends[j])
      invariant forall j: nat | j < |docs| :: decisions[j].used == (old(decisions[j].used) || j < i)
      invariant note.gate == GateOfAll(decisions[..i])
      invariant note.reason == if AnyUnavailable(e.ends[..i]) then Some(NotConfigured) else old(note.reason)
    {
      NothingNewUnavailable(e.ends, i);
      var failed, attempted := CreateOne(decisions, i, e, note);
      if failed {
        tried := if attempted then i + 1 else i;
        batch := Batch(created, Some(docs[i]), docs[i + 1..]);
        assert docs == docs[..i] + [docs[i]] + docs[i + 1..];
        return;
      }
      created := created + [docs[i]];
      i := i + 1;
    }
    batch, tried := Batch(created, None, []), i;
  }

  lemma NothingNewUnavailable(ends: seq<CreateEnd>, i: nat)
    requires i < |ends|
    ensures AnyUnavailable(ends[..i + 1]) <==> AnyUnavailable(ends[..i]) || Unavailable(ends[i])
  {
    if AnyUnavailable(ends[..i]) {
      var j :| 0 <= j < i && Unavailable(ends[..i][j]);
      assert Unavailable(ends[..i + 1][j]);
    }
    if Unavailable(ends[i]) {
      assert Unavailable(ends[..i + 1][i]);
    }
  }

  predicate AnyCreated(ends: seq<CreateEnd>)
  {
    exists i :: 0 <= i < |ends| && ends[i].Created?
  }

  /** No failure is silent: none carries an empty text, which would pass for success. */
  predicate Spoken(ends: seq<CreateEnd>)
  {
    forall i | 0 <= i < |ends| && !ends[i].Created? :: Fails(ends[i])
  }

  /** Everything listed as created was created exactly when no failure among those tried was silent. */
  lemma ListedWereCreated(ends: seq<CreateEnd>, created: nat, tried: nat)
    requires created <= tried <= created + 1 && tried <= |ends|
    requires (forall i: nat | i < created :: !Fails(ends[i])) && (tried > created ==> Fails(ends[created]))
    ensures (forall i: nat | i < created :: ends[i].Created?) <==> Spoken(ends[..tried])
  {
    assert forall i: nat | i < tried :: ends[..tried][i] == ends[i];
    if Spoken(ends[..tried]) {
      forall i: nat | i < created
        ensures ends[i].Created?
      {
        assert !Fails(ends[..tried][i]);
      }
    }
  }

  /** A failure without a word would be listed as a creation; with a word it is not. */
  lemma SilentFailureIsListed()
    ensures
      var (silent, spoken) := (Environment([CallFailure("")], 1), Environment([CallFailure("refused")], 1));
      && Completed(silent, [true]) == 1 && !Spoken(silent.ends) && !AnyCreated(silent.ends)
      && Completed(spoken, [true]) == 0 && Spoken(spoken.ends)
  {
    var silent := Environment([CallFailure("")], 1);
    assert !silent.ends[0].Created?;
    CompletedIs(silent, [true], 0, 1);
  }

  // ---- the whole call ----

  function DocumentsOf(env: Env, args: Json.Json): seq<Document>
  {
    match ParseCreateDocuments(env, args)
    case Some(docs) => docs
    case None => []
  }

  function Handed(answers: seq<Answer>): set<Decision>
  {
    set i | 0 <= i < |answers| && answers[i].Grants? :: answers[i].decision
  }

  /** Which answers hand out a decision that is not spent yet. */
  function UnspentAnswers(answers: seq<Answer>): seq<bool>
    reads Handed(answers)
  {
    seq(|answers|, i requires 0 <= i < |answers| reads Handed(answers) => answers[i].Grants? && Open(answers, i))
  }

  predicate Open(answers: seq<Answer>, i: nat)
    requires i < |answers| && answers[i].Grants?
    reads Handed(answers)
  {
    assert answers[i].decision in Handed(answers);
    !answers[i].decision.used
  }

  /** Request ids tell decisions apart. */
  lemma DistinctDecisions(answers: seq<Answer>, decisions: seq<Decision>)
    requires AllDistinct(answers) && |answers| == |decisions| && forall i: nat | i < |answers| :: answers[i] == Grants(decisions[i])
    ensures forall i, j | 0 <= i < j < |decisions| :: decisions[i] != decisions[j]
    ensures forall d | d in decisions :: d.requestId != "" && d in Handed(answers)
  {
    forall i, j | 0 <= i < j < |decisions|
      ensures decisions[i] != decisions[j]
    {
      assert Distinct(answers, j) && answers[i].Grants?;
    }
    forall d | d in decisions
      ensures d.requestId != "" && d in Handed(answers)
    {
      var i: nat :| i < |decisions| && decisions[i] == d;
      assert Distinct(answers, i) && answers[i].Grants? && answers[i].decision == d;
    }
  }

  /** The approvals a batch spends: those of the documents tried, which were unspent, and no other. */
  predicate BatchSpends(before: seq<bool>, after: seq<bool>, tried: nat)
  {
    && tried <= |before| == |after|
    && (forall i | 0 <= i < tried :: before[i])
    && (forall i | 0 <= i < |before| :: after[i] == (before[i] && i >= tried))
  }

  /**
   * The account of a batch: the answer lists every document once and in order; those listed as created were
   * tried and did not fail, and were all created exactly when no failure was silent; the next is the one that
   * failed or could not be tried; and how far it went follows from the ends, the caller and the approvals.
   */
  predicate Accounts(docs: seq<Document>, e: Environment, unspent: seq<bool>, batch: Batch, tried: nat)
    requires |unspent| == |e.ends| == |docs|
  {
    var n := |batch.created|;
    && batch.All() == docs && (batch.failed.None? <==> n == |docs|)
    && n == Completed(e, unspent) && tried == TriedUpTo(e, unspent)
    && n <= tried <= n + 1 && tried <= |docs| && tried <= e.cancelledFrom && (batch.failed.None? ==> tried == |docs|)
    && (forall i: nat | i < n :: !Fails(e.ends[i])) && (tried > n ==> Fails(e.ends[n]))
    && ((forall i: nat | i < n :: e.ends[i].Created?) <==> Spoken(e.ends[..tried]))
  }

  lemma NothingSpent(unspent: seq<bool>)
    ensures BatchSpends(unspent, unspent, 0)
  {
  }

  /** The second loop, in terms of the gate's answers: how far it goes is settled before it starts. */
  method ExecuteApproved(docs: seq<Document>, answers: seq<Answer>, decisions: seq<Decision>, e: Environment, note: CallNote)
    returns (batch: Batch, tried: nat)
    requires |answers| == |e.ends| == |docs| == |decisions| && AllDistinct(answers) && note.gate == NO_GATE
    requires forall i: nat | i < |docs| :: answers[i] == Grants(decisions[i])
    modifies note`gate, note`reason, Handed(answers)
    ensures Accounts(docs, e, old(UnspentAnswers(answers)), batch, tried)
    ensures BatchSpends(old(UnspentAnswers(answers)), UnspentAnswers(answers), tried)
    ensures forall i: nat | i < |answers| :: answers[i].decision.used == (old(answers[i].decision.used) || i < tried)
    ensures note.reason == if AnyUnavailable(e.ends[..tried]) then Some(NotConfigured) else old(note.reason)
  {
    DistinctDecisions(answers, decisions);
    ghost var unspent := UnspentAnswers(answers);
    assert forall i: nat | i < |decisions| :: unspent[i] == !decisions[i].used;
    batch, tried := ExecuteAll(docs, decisions, e, note);
    ExtentIs(e, unspent, |batch.created|, tried);
    ListedWereCreated(e.ends, |batch.created|, tried);
    assert tried > 0 ==> Tried(e, unspent[tried - 1], tried - 1);
    assert forall i: nat | i < tried :: Tried(e, unspent[i], i) && unspent[i] == !old(answers[i].decision.used);
  }

  /** The two loops, on documents the check lets pass: all are approved, or none is created and no approval spent. */
  method ApproveAndExecute(single: Document -> bool, docs: seq<Document>, answers: seq<Answer>, e: Environment, note: CallNote,
                           clock: nat -> int, tick: nat)
    returns (ending: Ending, batch: Batch, tried: nat, now: nat)
    requires |answers| == |e.ends| == |docs| && note.gate == NO_GATE && note.reason == None && forall d | d in docs :: single(d)
    modifies note, Handed(answers)
    ensures ending.Returned? <==> AllDistinct(answers)
    ensures BatchSpends(old(UnspentAnswers(answers)), UnspentAnswers(answers), tried)
    ensures ending.Failed? ==> tried == 0 && note.gate == NO_GATE && note.reason == None && forall d | d in Handed(answers) :: d.used == old(d.used)
    ensures ending.Failed? ==> exists n: nat :: n < |answers| && FirstRefusal(answers, n) && ending.error == RefusedWith(answers[n])
    ensures ending.Returned? ==>
      && ending.isError == batch.failed.Some?
      && Accounts(docs, e, old(UnspentAnswers(answers)), batch, tried)
      && note.reason == if AnyUnavailable(e.ends[..tried]) then Some(NotConfigured) else None
    ensures now >= tick && (Monotone(clock) ==> 0 <= note.gateWait - old(note.gateWait) <= clock(now) - clock(tick))
  {
    batch, tried := Batch([], None, []), 0;
    ghost var unspent := UnspentAnswers(answers);
    var approved, asked;
    approved, asked, now := ApproveAll(single, docs, answers, note, clock, tick);
    assert UnspentAnswers(answers) == unspent;
    if approved.Err? {
      NothingSpent(unspent);
      assert FirstRefusal(answers, asked - 1);
      return Failed(approved.error), batch, tried, now;
    }
    batch, tried := ExecuteApproved(docs, answers, approved.value, e, note);
    ending := Returned(batch.failed.Some?);
  }

  /**
   * callCreateBatch. `tried` counts the documents whose create was sent. Nothing is sent and no approval is
   * spent unless every document has its own; then the answer lists every document once, in order, and the
   * approvals spent by this call are exactly those of the documents tried.
   */
  method CallCreateBatch(env: Env, sensitiveKinds: seq<string>, args: Json.Json, answers: seq<Answer>, e: Environment,
                         note: CallNote, clock: nat -> int, tick: nat)
    returns (ending: Ending, batch: Batch, tried: nat, now: nat)
    requires |answers| == |e.ends| == |DocumentsOf(env, args)| && note.gate == NO_GATE && note.reason == None
    modifies note, Handed(answers)
    ensures ending.Returned? <==> ParseCreateDocuments(env, args).Some? && AllDistinct(answers)
    ensures BatchSpends(old(UnspentAnswers(answers)), UnspentAnswers(answers), tried)
    ensures ending.Failed? ==> tried == 0 && note.gate == NO_GATE && note.reason == None && forall d | d in Handed(answers) :: d.used == old(d.used)
    ensures ParseCreateDocuments(env, args).None? ==> ending == Failed(BAD_ARGUMENTS)
    ensures ParseCreateDocuments(env, args).Some? && ending.Failed? ==>
      exists n: nat :: n < |answers| && FirstRefusal(answers, n) && ending.error == RefusedWith(answers[n])
    ensures ending.Returned? ==>
      && ending.isError == batch.failed.Some?
      && Accounts(DocumentsOf(env, args), e, old(UnspentAnswers(answers)), batch, tried)
      && note.reason == if AnyUnavailable(e.ends[..tried]) then Some(NotConfigured) else None
    ensures Monotone(clock) ==> 0 <= note.gateWait - old(note.gateWait) <= clock(now) - clock(tick)
    ensures now >= tick
  {
    batch, tried, now := Batch([], None, []), 0, tick;
    var parsed := ParseCreateDocuments(env, args);
    if parsed.None? {
      NothingSpent(UnspentAnswers(answers));
      return Failed(BAD_ARGUMENTS), batch, tried, now;
    }
    forall d | d in parsed.value
      ensures SinglePair(env, sensitiveKinds, d)
    {
      ParsedDocumentsAreSingle(env, sensitiveKinds, args, d);
    }
    ending, batch, tried, now := ApproveAndExecute(d => SinglePair(env, sensitiveKinds, d), parsed.value, answers, e, note, clock, tick);
  }

  // ---- what the record says of it ----

  /**
   * A refused record is meant to say that nothing reached the cluster. It is wrong of a batch exactly when
   * the batch stopped, some create that was tried found the service unavailable, and another was carried out.
   */
  predicate RefusedYetWritten(ends: seq<CreateEnd>, completed: nat, tried: nat)
    requires tried <= |ends|
  {
    completed < |ends| && AnyUnavailable(ends[..tried]) && AnyCreated(ends[..tried])
  }

  /** Where no failure is silent, that is when the create that ended the batch was the unavailable one and not the first. */
  lemma RefusedYetWrote(e: Environment, unspent: seq<bool>)
    requires |e.ends| == |unspent| && Spoken(e.ends)
    ensures
      var (n, tried) := (Completed(e, unspent), TriedUpTo(e, unspent));
      RefusedYetWritten(e.ends, n, tried) <==> 0 < n < tried && Unavailable(e.ends[n])
  {
    var n, tried := Completed(e, unspent), TriedUpTo(e, unspent);
    CompletedDidNotFail(e, unspent, 0);
    forall i: nat | i < n
      ensures e.ends[i].Created? && !Unavailable(e.ends[i])
    {
      assert !Fails(e.ends[i]);
    }
    if n > 0 { assert e.ends[..tried][0].Created?; }
    if tried > n { assert e.ends[..tried][n] == e.ends[n]; }
  }

  lemma {:induction false} CompletedDidNotFail(e: Environment, unspent: seq<bool>, i: nat)
    requires i <= |e.ends| == |unspent|
    ensures forall j: nat | i <= j < CompletedFrom(e, unspent, i) :: Tried(e, unspent[j], j) && !Fails(e.ends[j])
    decreases |e.ends| - i
  {
    if i < CompletedFrom(e, unspent, i) { CompletedDidNotFail(e, unspent, i + 1); }
  }

  /** A service that is unavailable always or never cannot bring it about. */
  predicate Steady(ends: seq<CreateEnd>)
  {
    forall i, j | 0 <= i < |ends| && 0 <= j < |ends| :: Unavailable(ends[i]) == Unavailable(ends[j])
  }

  lemma SteadyServiceIsRecordedRight(ends: seq<CreateEnd>, completed: nat, tried: nat)
    requires tried <= |ends| && Steady(ends)
    ensures !RefusedYetWritten(ends, completed, tried)
  {
    if AnyUnavailable(ends[..tried]) {
      var i :| 0 <= i < tried && Unavailable(ends[..tried][i]);
      forall j | 0 <= j < tried
        ensures !ends[..tried][j].Created?
      {
        assert Unavailable(ends[j]) == Unavailable(ends[i]);
      }
    }
  }

  /** The smallest batch of which it is wrong: the first document is made, then the service goes away. */
  lemma RefusedYetWroteExample(gate: Gate)
    ensures
      var e := Environment([CreateEnd.Created, ToolFailure(Some("unavailable"), true)], 2);
      && Completed(e, [true, true]) == 1 && TriedUpTo(e, [true, true]) == 2
      && RefusedYetWritten(e.ends, 1, 2) && Spoken(e.ends)
      && Outcome(Returned(true), Some(NotConfigured), gate).0.Refused?
  {
    var e := Environment([CreateEnd.Created, ToolFailure(Some("unavailable"), true)], 2);
    CompletedIs(e, [true, true], 0, 1);
    assert e.ends[..2][0].Created? && Unavailable(e.ends[..2][1]);
  }
}
