/** The two readings of the `reason` argument agree: taking it out of the text, and taking it out of the decoded members. */
module DecodedReason {
  import opened Results
  import opened ReasonArgument
  import opened ReasonSplit
  import opened JsonText
  import Declarations
  import Json
  import Text

  /**
   * A decoder of single values that tells null from text and text from everything else, and reads a text as
   * the split does. How it decodes numbers, arrays and objects is left open.
   */
  ghost predicate Decodes(value: string -> Json.Json)
  {
    forall v | IsValue(v) ::
      && (value(v).Null? <==> v == "null")
      && (value(v).Str? <==> At(v, 0, '"') && ScanChars(v, 1).Some?)
      && (value(v).Str? ==> value(v).text == Decode(v, 1))
  }

  /** Members as encoding/json puts them in a map: of two with one name the later counts. */
  function Decoded(ms: seq<Member>, value: string -> Json.Json): Json.Members
  {
    if ms == [] then map[]
    else Decoded(ms[..|ms| - 1], value)[ms[|ms| - 1].key := value(ms[|ms| - 1].value)]
  }

  lemma SameWithout(m: Json.Members, v: Json.Json)
    ensures m[REASON := v] - {REASON} == m - {REASON}
  {
  }

  lemma AddThenRemove(m: Json.Members, key: string, v: Json.Json)
    requires key != REASON
    ensures (m - {REASON})[key := v] == m[key := v] - {REASON}
  {
  }

  lemma {:induction false} KeptDecodes(ms: seq<Member>, value: string -> Json.Json)
    ensures Decoded(Kept(ms), value) == Decoded(ms, value) - {REASON}
  {
    if ms != [] {
      var front, last := ms[..|ms| - 1], ms[|ms| - 1];
      KeptDecodes(front, value);
      if last.key == REASON {
        SameWithout(Decoded(front, value), value(last.value));
      } else {
        assert (Kept(front) + [last])[..|Kept(front) + [last]| - 1] == Kept(front);
        AddThenRemove(Decoded(front, value), last.key, value(last.value));
      }
    }
  }

  lemma {:induction false} LastReasonDecodes(ms: seq<Member>, value: string -> Json.Json)
    ensures
      match LastReason(ms)
      case None => REASON !in Decoded(ms, value)
      case Some(v) => REASON in Decoded(ms, value) && Decoded(ms, value)[REASON] == value(v)
  {
    if ms != [] {
      LastReasonDecodes(ms[..|ms| - 1], value);
    }
  }

  lemma {:induction false} LastReasonIsValue(ms: seq<Member>)
    requires AllValues(ms) && LastReason(ms).Some?
    ensures IsValue(LastReason(ms).value)
  {
    var front, last := ms[..|ms| - 1], ms[|ms| - 1];
    assert ms == front + [last] && last in ms;
    if last.key != REASON {
      LastReasonIsValue(front);
    }
  }

  /** The object an argument text holds, if it holds one. */
  function DecodedArguments(raw: string, value: string -> Json.Json): Option<Json.Json>
  {
    match ParseObject(Text.TrimSpace(raw))
    case None => None
    case Some((ms, _)) => Some(Json.Obj(Decoded(ms, value)))
  }

  /**
   * For every argument text that holds an object: the text is split if and only if the decoded members are,
   * with the same reason, and what goes on as text decodes to what goes on as members.
   */
  lemma SplitsAgree(raw: string, value: string -> Json.Json)
    requires Decodes(value) && DecodedArguments(raw, value).Some?
    ensures
      var taken := Declarations.TakeReason(DecodedArguments(raw, value).value);
      match SplitOf(raw)
      case Passed(rest, reason) =>
        taken.Some? && taken.value.1 == reason && DecodedArguments(rest, value) == Some(taken.value.0)
      case _ => taken.None?
  {
    var ms := ParseObject(Text.TrimSpace(raw)).value.0;
    SplittingKeepsTheRest(raw);
    LastReasonDecodes(ms, value);
    if LastReason(ms).Some? {
      ParsedValues(Text.TrimSpace(raw), 1, true);
      LastReasonIsValue(ms);
      KeptDecodes(ms, value);
      RenderedTrims(Kept(ms));
      JudgedAlike(Rendered(Kept(ms)), LastReason(ms).value, Decoded(ms, value), value);
    }
  }

  /** One reason, as text and as a decoded value. */
  lemma JudgedAlike(rest: string, v: string, m: Json.Members, value: string -> Json.Json)
    requires Decodes(value) && IsValue(v) && REASON in m && m[REASON] == value(v)
    ensures
      var taken := Declarations.TakeReason(Json.Obj(m));
      match Judged(rest, v)
      case Passed(r, reason) => r == rest && taken == Some((Json.Obj(m - {REASON}), reason))
      case _ => taken.None?
  {
    assert v == "null" ==> !At(v, 0, '"');
  }

  // ---- what a reason may be ----

  /** A reason is absent, null, or a text of at most 2000 characters without the white space around it; and it is taken out. */
  lemma ReasonTakenExactly(args: Json.Json)
    ensures Declarations.TakeReason(args).Some? <==>
      (args.Obj? && "reason" in args.members ==>
         args.members["reason"].Null? || (args.members["reason"].Str? && |Text.TrimSpace(args.members["reason"].text)| <= 2000))
    ensures Declarations.TakeReason(args).Some? ==>
      var (rest, reason) := Declarations.TakeReason(args).value;
      && (args.Obj? && "reason" in args.members ==>
            && rest == Json.Obj(args.members - {"reason"})
            && reason == if args.members["reason"].Null? then "" else Text.TrimSpace(args.members["reason"].text))
      && (!(args.Obj? && "reason" in args.members) ==> rest == args && reason == "")
  {
  }

  /** A call goes on to the gate unless its reason is unusable, or missing where approval will be asked for. */
  lemma AdmittedExactly(d: Declarations.Declaration, env: Declarations.Env, kinds: seq<string>, args: Json.Json)
    ensures !Declarations.MayAskForApproval(d, env) ==> Declarations.Admitted(d, env, kinds, args) == Some((args, ""))
    ensures Declarations.MayAskForApproval(d, env) ==>
      var taken := Declarations.TakeReason(args);
      && (Declarations.Admitted(d, env, kinds, args).Some? ==> Declarations.Admitted(d, env, kinds, args) == taken)
      && (Declarations.Admitted(d, env, kinds, args).None? <==>
            taken.None? || (taken.value.1 == "" && Declarations.GatedPairs(d, env, kinds, taken.value.0) !in {None, Some([])}))
  {
  }
}
