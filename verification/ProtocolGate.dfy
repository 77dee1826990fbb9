/** The gate client inside the protocol: what it is handed to describe a call with, and what follows from its answer. */
module ProtocolGate {
  import opened Results
  import opened ApprovalGate
  import opened Declarations
  import opened Protocol
  import opened ProtocolInvariant
  import opened ProtocolSafety
  import Text

  /** What describing call c comes to now: the text for the pair and the view, or a failed read. */
  function Describes(w: World, s: State, c: nat, render: (Pair, View) -> string, unavailable: bool): Rendering
    requires c < |s.calls| && s.calls[c].phase.Asking? && s.calls[c].phase.unit < |s.calls[c].pairs|
  {
    var call := s.calls[c];
    match if call.route.Plain? then ReadView(w, s.cluster, call) else Some(call.view)
    case None => DescribeFailed(unavailable)
    case Some(view) => Rendered(render(call.pairs[call.phase.unit], view))
  }

  /** The step system takes an answer about a call exactly when the call has been described. */
  lemma AnsweredWhenDescribed(w: World, s: State, c: nat, d: nat, requestId: string)
    ensures Next(w, s, Answer(c, d, requestId)).Some? <==> c < |s.calls| && s.calls[c].phase.Described?
  {
  }

  /** In state t, one step after s, call c has been described by an entry that says what the operator was sent. */
  predicate DescribedBy(s: State, t: State, c: nat, render: (Pair, View) -> string, text: string)
  {
    && |t.log| == |s.log| + 1 && t.log[..|s.log|] == s.log && c < |t.calls| && t.calls[c].phase.Described?
    && t.log[|s.log|].Shown? && t.log[|s.log|].call == c && t.log[|s.log|].unit == t.calls[c].phase.unit
    && render(t.log[|s.log|].pair, t.log[|s.log|].view) == text
  }

  lemma DescribesAsStep(w: World, s: State, c: nat, render: (Pair, View) -> string, unavailable: bool)
    requires c < |s.calls| && s.calls[c].phase.Asking? && s.calls[c].phase.unit < |s.calls[c].pairs|
    ensures
      var t := Next(w, s, Describe(c));
      && t.Some?
      && match Describes(w, s, c, render, unavailable)
         case Rendered(text) => DescribedBy(s, t.value, c, render, text)
         case _ => FinishedTo(s, t.value, c)
  {
  }

  /**
   * Authorize asked about a call of the protocol. Whatever the backend does, a decision comes back only when
   * the description succeeded, which is the step that records it, and the operator was sent the very text of
   * the recorded pair and view; so the answer is one the step system takes. A target that cannot be read ends
   * the call with nothing sent.
   */
  method Ask(w: World, s: State, c: nat, render: (Pair, View) -> string, unavailable: bool, client: Client, b: Backend)
    returns (out: Result<Decision, Refusal>, posted: Option<string>, polls: nat)
    requires c < |s.calls| && s.calls[c].phase.Asking? && s.calls[c].phase.unit < |s.calls[c].pairs|
    ensures Next(w, s, Describe(c)).Some?
    ensures posted.Some? ==> DescribedBy(s, Next(w, s, Describe(c)).value, c, render, posted.value)
    ensures out.Ok? ==>
      && posted.Some?
      && forall d: nat :: Next(w, Next(w, s, Describe(c)).value, Answer(c, d, out.value.requestId)).Some?
    ensures Next(w, s, Describe(c)).value.calls[c].phase.Finished? ==> out.Err? && posted.None? && polls == 0
  {
    DescribesAsStep(w, s, c, render, unavailable);
    var describe := Describes(w, s, c, render, unavailable);
    out, posted, polls := client.Authorize(describe, b);
    ghost var t := Next(w, s, Describe(c)).value;
    forall d: nat | out.Ok?
      ensures Next(w, t, Answer(c, d, out.value.requestId)).Some?
    {
      AnsweredWhenDescribed(w, t, c, d, out.value.requestId);
    }
  }
}
