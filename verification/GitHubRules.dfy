/**
 * The GitHub OIDC rules: parsing them at startup, collecting a caller's grants, and the run-time guard
 * on the caller's own repository. Names are ASCII, where lower-casing and case folding agree.
 */
module GitHubRules {
  import opened Results
  import opened Json
  import opened TokenCaps
  import Text

  const INSTALLATION_TOKEN_TOOL := "github_app_installation_token"

  /** A token cap as a rule spells it; None is an absent or null member. */
  datatype CapSource = CapSource(repositories: Option<seq<string>>, exclude: Option<seq<string>>, permissions: Option<map<string, string>>)

  datatype TokenField = Absent | One(cap: CapSource) | Many(caps: seq<CapSource>)

  datatype RuleSource = RuleSource(repository: string, workflow: string, tools: seq<string>, githubToken: TokenField)

  datatype Rule = Rule(repository: string, workflow: string, tools: seq<string>, tokens: seq<TokenCap>)

  // ---- parsing ----

  predicate BareName(repository: string)
  {
    repository != "" && forall c | c in repository :: c !in {'/', ' ', '\t'}
  }

  function Lowered(names: seq<string>): (lowered: seq<string>)
    ensures |lowered| == |names|
  {
    seq(|names|, i requires 0 <= i < |names| => Text.Lower(names[i]))
  }

  predicate GoodPermissions(p: map<string, string>)
  {
    |p| > 0 && forall name | name in p :: !Text.Blank(name) && Rank(p[name]) > 0
  }

  /** parseTokenCap; None is any of its errors. */
  function ParseTokenCap(tools: seq<string>, c: CapSource): Option<TokenCap>
  {
    var names := if c.exclude.Some? then c.exclude.value else if c.repositories.Some? then c.repositories.value else [];
    if INSTALLATION_TOKEN_TOOL !in tools then None
    else if c.repositories.Some? && c.exclude.Some? then None
    else if names == [] || (exists n | n in names :: !BareName(n)) then None
    else if c.exclude.None? && c.permissions.None? then None
    else if c.permissions.Some? && !GoodPermissions(c.permissions.value) then None
    else if c.exclude.Some? then Some(TokenCap([], Some(Lowered(names)), c.permissions))
    else Some(TokenCap(Lowered(names), None, c.permissions))
  }

  /** A token under this cap could carry the workflows permission on `own`. */
  predicate CapGrantsWorkflowsOn(cap: TokenCap, own: string)
  {
    && ("workflows" in Limits(cap) || cap.permissions.None?)
    && (match cap.exclude
        case Some(excluded) => own !in excluded
        case None => own in cap.repositories)
  }

  /** strings.Cut: the part after the first occurrence, empty when there is none. */
  function After(s: string, c: char): string
  {
    if s == "" then "" else if s[0] == c then s[1..] else After(s[1..], c)
  }

  predicate OwnerSlashName(repository: string)
  {
    var name := After(repository, '/');
    && '/' in repository && Text.Before(repository, '/') != "" && name != "" && '/' !in name
    && ' ' !in repository && '\t' !in repository
  }

  predicate WorkflowFile(workflow: string)
  {
    && Text.HasPrefix(workflow, ".github/workflows/")
    && (Text.HasSuffix(workflow, ".yml") || Text.HasSuffix(workflow, ".yaml"))
    && forall c | c in workflow :: c !in {'@', ' ', '\t'}
  }

  function OwnName(repository: string): string
  {
    Text.Lower(After(repository, '/'))
  }

  /** The caps of one rule; None is a refusal, among them a cap that reaches the rule's own workflow files. */
  function ParseCaps(tools: seq<string>, own: string, caps: seq<CapSource>): Option<seq<TokenCap>>
  {
    if caps == [] then Some([])
    else
      var last := |caps| - 1;
      match (ParseCaps(tools, own, caps[..last]), ParseTokenCap(tools, caps[last]))
      case (Some(front), Some(cap)) => if CapGrantsWorkflowsOn(cap, own) then None else Some(front + [cap])
      case _ => None
  }

  function CapSources(field: TokenField): Option<seq<CapSource>>
  {
    match field
    case Absent => Some([])
    case One(cap) => Some([cap])
    case Many(caps) => if caps == [] then None else Some(caps)
  }

  function ParseRule(d: RuleSource): Option<Rule>
  {
    if !OwnerSlashName(d.repository) || (d.workflow != "" && !WorkflowFile(d.workflow)) then None
    else if d.tools == [] || (exists t | t in d.tools :: Text.Blank(t)) then None
    else
      match CapSources(d.githubToken)
      case None => None
      case Some(sources) =>
        match ParseCaps(d.tools, OwnName(d.repository), sources)
        case None => None
        case Some(caps) => Some(Rule(Text.Lower(d.repository), d.workflow, d.tools, caps))
  }

  function Label(r: Rule): string
  {
    if r.workflow == "" then r.repository else r.repository + "/" + r.workflow
  }

  function ParseEach(source: seq<RuleSource>): Option<seq<Rule>>
  {
    if source == [] then Some([])
    else
      var last := |source| - 1;
      match (ParseEach(source[..last]), ParseRule(source[last]))
      case (Some(front), Some(rule)) => Some(front + [rule])
      case _ => None
  }

  predicate DistinctLabels(rules: seq<Rule>)
  {
    forall i, j | 0 <= i < j < |rules| :: Label(rules[i]) != Label(rules[j])
  }

  /** Every rule of every source, in order; None when some source is refused or lists nothing. */
  function ParseAll(sources: seq<seq<RuleSource>>): Option<seq<Rule>>
  {
    if sources == [] then Some([])
    else
      var last := |sources| - 1;
      match (ParseAll(sources[..last]), ParseEach(sources[last]))
      case (Some(front), Some(rules)) => if rules == [] then None else Some(front + rules)
      case _ => None
  }

  function ParsedRules(sources: seq<seq<RuleSource>>): Option<seq<Rule>>
  {
    match ParseAll(sources)
    case Some(rules) => if rules != [] && DistinctLabels(rules) then Some(rules) else None
    case None => None
  }

  /** parseRuleSource on one decoded rule variable. */
  method ParseRuleSource(source: seq<RuleSource>) returns (parsed: Option<seq<Rule>>)
    ensures parsed == if source == [] then None else ParseEach(source)
  {
    if |source| == 0 {
      return None;
    }
    var rules: seq<Rule> := [];
    for i := 0 to |source|
      invariant ParseEach(source[..i]) == Some(rules)
    {
      assert source[..i + 1][..i] == source[..i];
      var d := source[i];
      var failed := !OwnerSlashName(d.repository) || (d.workflow != "" && !WorkflowFile(d.workflow)) || |d.tools| == 0;
      for t := 0 to |d.tools|
        invariant failed <==> !OwnerSlashName(d.repository) || (d.workflow != "" && !WorkflowFile(d.workflow)) || d.tools == [] || exists u :: 0 <= u < t && Text.Blank(d.tools[u])
      {
        failed := failed || Text.Blank(d.tools[t]);
      }
      if failed || CapSources(d.githubToken).None? {
        assert ParseRule(d) == None;
        RefusedPrefix(source, i);
        return None;
      }
      var caps := CapSources(d.githubToken).value;
      var own := OwnName(d.repository);
      var tokens: seq<TokenCap> := [];
      for j := 0 to |caps|
        invariant ParseCaps(d.tools, own, caps[..j]) == Some(tokens)
      {
        assert caps[..j + 1][..j] == caps[..j];
        var cap := ParseTokenCap(d.tools, caps[j]);
        if cap.None? || CapGrantsWorkflowsOn(cap.value, own) {
          RefusedCaps(d.tools, own, caps, j);
          assert ParseRule(d) == None;
          RefusedPrefix(source, i);
          return None;
        }
        tokens := tokens + [cap.value];
      }
      assert caps[..|caps|] == caps;
      rules := rules + [Rule(Text.Lower(d.repository), d.workflow, d.tools, tokens)];
    }
    assert source[..|source|] == source;
    parsed := Some(rules);
  }

  lemma {:induction false} RefusedPrefix(source: seq<RuleSource>, i: nat)
    requires i < |source| && ParseEach(source[..i + 1]).None?
    ensures ParseEach(source).None?
  {
    if i + 1 < |source| {
      var front := source[..|source| - 1];
      assert front[..i + 1] == source[..i + 1];
      RefusedPrefix(front, i);
    } else {
      assert source[..i + 1] == source;
    }
  }

  lemma {:induction false} RefusedCaps(tools: seq<string>, own: string, caps: seq<CapSource>, j: nat)
    requires j < |caps| && ParseCaps(tools, own, caps[..j + 1]).None?
    ensures ParseCaps(tools, own, caps).None?
  {
    if j + 1 < |caps| {
      var front := caps[..|caps| - 1];
      assert front[..j + 1] == caps[..j + 1];
      RefusedCaps(tools, own, front, j);
    } else {
      assert caps[..j + 1] == caps;
    }
  }

  function Labels(rules: seq<Rule>): set<string>
  {
    set i | 0 <= i < |rules| :: Label(rules[i])
  }

  /** The inner loop of parseGitHubRuleSources: every new label must be new. */
  method RegisterLabels(rules: seq<Rule>, batch: seq<Rule>, known: set<string>) returns (allNew: bool, seen: set<string>)
    requires DistinctLabels(rules) && known == Labels(rules)
    ensures allNew == DistinctLabels(rules + batch)
    ensures allNew ==> seen == Labels(rules + batch)
  {
    var all := rules + batch;
    seen := known;
    assert all[..|rules|] == rules;
    for i := |rules| to |all|
      invariant DistinctLabels(all[..i])
      invariant seen == Labels(all[..i])
    {
      assert all[..i + 1] == all[..i] + [all[i]];
      LabelsExtend(all[..i], all[i]);
      if Label(all[i]) in seen {
        LabelRepeats(all, i);
        return false, seen;
      }
      seen := seen + {Label(all[i])};
    }
    assert all[..|all|] == all;
    allNew := true;
  }

  lemma LabelRepeats(all: seq<Rule>, i: nat)
    requires i < |all| && Label(all[i]) in Labels(all[..i])
    ensures !DistinctLabels(all)
  {
    var k :| 0 <= k < i && Label(all[..i][k]) == Label(all[i]);
    assert all[..i][k] == all[k];
  }

  lemma LabelsExtend(rules: seq<Rule>, r: Rule)
    ensures Labels(rules + [r]) == Labels(rules) + {Label(r)}
    ensures DistinctLabels(rules) && Label(r) !in Labels(rules) ==> DistinctLabels(rules + [r])
  {
    var more := rules + [r];
    forall l
      ensures l in Labels(more) <==> l in Labels(rules) + {Label(r)}
    {
      assert forall i | 0 <= i < |rules| :: more[i] == rules[i];
      assert more[|rules|] == r;
    }
  }

  /** parseGitHubRuleSources: all sources, with one table of the labels seen so far. */
  method ParseGitHubRuleSources(sources: seq<seq<RuleSource>>) returns (parsed: Option<seq<Rule>>)
    ensures parsed == ParsedRules(sources)
  {
    var rules: seq<Rule> := [];
    var seen: set<string> := {};
    for s := 0 to |sources|
      invariant ParseAll(sources[..s]) == Some(rules)
      invariant DistinctLabels(rules)
      invariant seen == Labels(rules)
    {
      assert sources[..s + 1][..s] == sources[..s];
      var batch := ParseRuleSource(sources[s]);
      if batch.None? {
        assert ParseAll(sources[..s + 1]) == None;
        RefusedSource(sources, s);
        return None;
      }
      var allNew: bool;
      allNew, seen := RegisterLabels(rules, batch.value, seen);
      rules := rules + batch.value;
      assert ParseAll(sources[..s + 1]) == Some(rules);
      if !allNew {
        RepeatedLabel(sources, s, rules);
        return None;
      }
    }
    assert sources[..|sources|] == sources;
    parsed := if rules == [] then None else Some(rules);
  }

  lemma {:induction false} RefusedSource(sources: seq<seq<RuleSource>>, s: nat)
    requires s < |sources| && ParseAll(sources[..s + 1]).None?
    ensures ParseAll(sources).None?
  {
    if s + 1 < |sources| {
      var front := sources[..|sources| - 1];
      assert front[..s + 1] == sources[..s + 1];
      RefusedSource(front, s);
    } else {
      assert sources[..s + 1] == sources;
    }
  }

  lemma {:induction false} RepeatedLabel(sources: seq<seq<RuleSource>>, s: nat, rules: seq<Rule>)
    requires s < |sources| && ParseAll(sources[..s + 1]) == Some(rules) && !DistinctLabels(rules)
    ensures ParsedRules(sources).None?
    ensures ParseAll(sources).Some? ==> |rules| <= |ParseAll(sources).value| && ParseAll(sources).value[..|rules|] == rules
  {
    if s + 1 < |sources| {
      var front := sources[..|sources| - 1];
      assert front[..s + 1] == sources[..s + 1];
      RepeatedLabel(front, s, rules);
      if ParseAll(sources).Some? {
        var longer := ParseAll(sources).value;
        assert longer[..|rules|] == rules;
        var i, j :| 0 <= i < j < |rules| && Label(rules[i]) == Label(rules[j]);
        assert longer[i] == rules[i] && longer[j] == rules[j];
      }
    } else {
      assert sources[..s + 1] == sources;
    }
  }

  // ---- collecting a caller's grants ----

  predicate Matches(r: Rule, repository: string, workflow: string)
  {
    r.repository == Text.Lower(repository) && (r.workflow == "" || r.workflow == workflow)
  }

  function Times(tools: seq<string>, tool: string): nat
  {
    if tools == [] then 0 else Times(tools[..|tools| - 1], tool) + if tools[|tools| - 1] == tool then 1 else 0
  }

  function Repeat(caps: seq<TokenCap>, n: nat): seq<TokenCap>
  {
    if n == 0 then [] else Repeat(caps, n - 1) + caps
  }

  /** The caps the matching rules contribute, once for every time a rule lists the token tool. */
  function CollectedCaps(rules: seq<Rule>, repository: string, workflow: string): seq<TokenCap>
  {
    if rules == [] then []
    else
      var last := rules[|rules| - 1];
      CollectedCaps(rules[..|rules| - 1], repository, workflow) +
      if Matches(last, repository, workflow) then Repeat(last.tokens, Times(last.tools, INSTALLATION_TOKEN_TOOL)) else []
  }

  /** Some matching rule grants the token tool without any cap. */
  predicate Unbounded(rules: seq<Rule>, repository: string, workflow: string)
  {
    exists i :: 0 <= i < |rules| && Matches(rules[i], repository, workflow) && INSTALLATION_TOKEN_TOOL in rules[i].tools && rules[i].tokens == []
  }

  function GrantedCaps(rules: seq<Rule>, repository: string, workflow: string): seq<TokenCap>
  {
    if Unbounded(rules, repository, workflow) then [] else CollectedCaps(rules, repository, workflow)
  }

  predicate GrantsTool(rules: seq<Rule>, repository: string, workflow: string, tool: string)
  {
    exists i :: 0 <= i < |rules| && Matches(rules[i], repository, workflow) && tool in rules[i].tools
  }

  /** The inner loop of grantsFor: one matching rule, tool by tool. */
  method AddGrants(r: Rule, tools0: seq<string>, caps0: seq<TokenCap>, unbounded0: bool)
    returns (tools: seq<string>, caps: seq<TokenCap>, unbounded: bool)
    requires forall a, b | 0 <= a < b < |tools0| :: tools0[a] != tools0[b]
    ensures caps == caps0 + Repeat(r.tokens, Times(r.tools, INSTALLATION_TOKEN_TOOL))
    ensures unbounded == (unbounded0 || (INSTALLATION_TOKEN_TOOL in r.tools && r.tokens == []))
    ensures forall t :: t in tools <==> t in tools0 || t in r.tools
    ensures forall a, b | 0 <= a < b < |tools| :: tools[a] != tools[b]
  {
    tools, caps, unbounded := tools0, caps0, unbounded0;
    for k := 0 to |r.tools|
      invariant caps == caps0 + Repeat(r.tokens, Times(r.tools[..k], INSTALLATION_TOKEN_TOOL))
      invariant unbounded == (unbounded0 || (INSTALLATION_TOKEN_TOOL in r.tools[..k] && r.tokens == []))
      invariant forall t :: t in tools <==> t in tools0 || t in r.tools[..k]
      invariant forall a, b | 0 <= a < b < |tools| :: tools[a] != tools[b]
    {
      var t := r.tools[k];
      assert r.tools[..k + 1][..k] == r.tools[..k] && r.tools[..k + 1] == r.tools[..k] + [t];
      if t !in tools {
        tools := tools + [t];
      }
      if t == INSTALLATION_TOKEN_TOOL {
        if |r.tokens| == 0 {
          unbounded := true;
        } else {
          caps := caps + r.tokens;
        }
      }
    }
    assert r.tools[..|r.tools|] == r.tools;
  }

  method GrantsFor(rules: seq<Rule>, repository: string, workflow: string) returns (tools: seq<string>, caps: seq<TokenCap>)
    ensures caps == GrantedCaps(rules, repository, workflow)
    ensures forall t :: t in tools <==> GrantsTool(rules, repository, workflow, t)
    ensures forall i, j | 0 <= i < j < |tools| :: tools[i] != tools[j]
  {
    tools, caps := [], [];
    var unbounded := false;
    for i := 0 to |rules|
      invariant caps == CollectedCaps(rules[..i], repository, workflow)
      invariant unbounded == Unbounded(rules[..i], repository, workflow)
      invariant forall t :: t in tools <==> GrantsTool(rules[..i], repository, workflow, t)
      invariant forall a, b | 0 <= a < b < |tools| :: tools[a] != tools[b]
    {
      var r := rules[i];
      ghost var front, upto := rules[..i], rules[..i + 1];
      assert upto[..i] == front && upto == front + [r];
      if Matches(r, repository, workflow) {
        tools, caps, unbounded := AddGrants(r, tools, caps, unbounded);
      }
      GrantsStep(rules, i, repository, workflow);
    }
    assert rules[..|rules|] == rules;
    if unbounded {
      caps := [];
    }
  }

  lemma GrantsStep(rules: seq<Rule>, i: nat, repository: string, workflow: string)
    requires i < |rules|
    ensures Unbounded(rules[..i + 1], repository, workflow) <==>
      || Unbounded(rules[..i], repository, workflow)
      || (Matches(rules[i], repository, workflow) && INSTALLATION_TOKEN_TOOL in rules[i].tools && rules[i].tokens == [])
    ensures forall t :: GrantsTool(rules[..i + 1], repository, workflow, t) <==>
      GrantsTool(rules[..i], repository, workflow, t) || (Matches(rules[i], repository, workflow) && t in rules[i].tools)
  {
    var front, upto := rules[..i], rules[..i + 1];
    assert upto[i] == rules[i] && forall j | 0 <= j < i :: upto[j] == front[j];
  }

  // ---- the run-time guard ----

  /** guardSelfWorkflows refuses this token for a caller whose own repository is `self`. */
  predicate GuardRefuses(self: string, r: Request)
  {
    && self != ""
    && (r.permissions.None? || "workflows" in r.permissions.value)
    && (r.repositories.None? || exists repo :: repo in r.repositories.value && Text.EqualFold(repo, self))
  }

  lemma {:induction false} LowerAfter(s: string, c: char)
    requires Text.LowerChar(c) == c && !('a' <= c <= 'z')
    ensures Text.Lower(After(s, c)) == After(Text.Lower(s), c)
  {
    if s != "" {
      var l := Text.Lower(s);
      assert l[1..] == Text.Lower(s[1..]);
      assert l[0] == c <==> s[0] == c;
      LowerAfter(s[1..], c);
    }
  }

  lemma LowerIdempotent(s: string)
    ensures Text.Lower(Text.Lower(s)) == Text.Lower(s)
  {
  }

  /** What parsing guarantees of every cap of a rule: sound, and out of reach of the rule's own workflow files. */
  predicate Safe(r: Rule)
  {
    forall c | c in r.tokens :: Sound(c) && !CapGrantsWorkflowsOn(c, After(r.repository, '/'))
  }

  lemma ParsedCapSound(tools: seq<string>, c: CapSource)
    requires ParseTokenCap(tools, c).Some?
    ensures Sound(ParseTokenCap(tools, c).value)
  {
    var cap := ParseTokenCap(tools, c).value;
    if cap.exclude.None? {
      forall repo | repo in cap.repositories ensures Text.Lower(repo) == repo {
        var i :| 0 <= i < |cap.repositories| && cap.repositories[i] == repo;
        LowerIdempotent(c.repositories.value[i]);
      }
    }
  }

  lemma {:induction false} ParsedCapsSafe(tools: seq<string>, own: string, caps: seq<CapSource>)
    requires ParseCaps(tools, own, caps).Some?
    ensures forall c | c in ParseCaps(tools, own, caps).value :: Sound(c) && !CapGrantsWorkflowsOn(c, own)
  {
    if caps != [] {
      var last := |caps| - 1;
      ParsedCapsSafe(tools, own, caps[..last]);
      ParsedCapSound(tools, caps[last]);
    }
  }

  lemma ParsedRuleSafe(d: RuleSource)
    requires ParseRule(d).Some?
    ensures Safe(ParseRule(d).value)
  {
    ParsedCapsSafe(d.tools, OwnName(d.repository), CapSources(d.githubToken).value);
    LowerAfter(d.repository, '/');
  }

  lemma {:induction false} ParsedEachSafe(source: seq<RuleSource>)
    requires ParseEach(source).Some?
    ensures forall r | r in ParseEach(source).value :: Safe(r)
  {
    if source != [] {
      ParsedEachSafe(source[..|source| - 1]);
      ParsedRuleSafe(source[|source| - 1]);
    }
  }

  lemma {:induction false} ParsedAllSafe(sources: seq<seq<RuleSource>>)
    requires ParseAll(sources).Some?
    ensures forall r | r in ParseAll(sources).value :: Safe(r)
  {
    if sources != [] {
      ParsedAllSafe(sources[..|sources| - 1]);
      ParsedEachSafe(sources[|sources| - 1]);
    }
  }

  lemma {:induction false} RepeatHas(caps: seq<TokenCap>, n: nat, c: TokenCap)
    ensures c in Repeat(caps, n) <==> n > 0 && c in caps
  {
    if n > 0 {
      RepeatHas(caps, n - 1, c);
    }
  }

  /** Every collected cap belongs to a rule for the caller's own repository. */
  lemma {:induction false} CollectedFrom(rules: seq<Rule>, repository: string, workflow: string, c: TokenCap)
    requires c in CollectedCaps(rules, repository, workflow)
    ensures exists i :: 0 <= i < |rules| && Matches(rules[i], repository, workflow) && c in rules[i].tokens
  {
    var last := |rules| - 1;
    var front := rules[..last];
    if c in CollectedCaps(front, repository, workflow) {
      CollectedFrom(front, repository, workflow, c);
      var i :| 0 <= i < |front| && Matches(front[i], repository, workflow) && c in front[i].tokens;
      assert Matches(rules[i], repository, workflow) && c in rules[i].tokens;
    } else {
      RepeatHas(rules[last].tokens, Times(rules[last].tools, INSTALLATION_TOKEN_TOOL), c);
    }
  }

  lemma SafeCapPassesGuard(c: TokenCap, self: string, r: Request)
    requires Sound(c) && !CapGrantsWorkflowsOn(c, self) && Within(c, r) && Text.Lower(self) == self
    ensures !GuardRefuses(self, r)
  {
    assert forall repo | repo in r.repositories.value :: CoversRepository(c, repo);
    assert r.permissions.Some? && "workflows" in r.permissions.value && !AnyPermission(c) ==>
      CoversPermission(c, "workflows", r.permissions.value["workflows"]);
  }

  /**
   * The startup check implies the run-time guard: once the rules parsed, a request accepted under any
   * caller's collected caps is never one the guard refuses for that caller's own repository.
   */
  lemma StartupCheckImpliesGuard(sources: seq<seq<RuleSource>>, repository: string, workflow: string, r: Request)
    requires ParsedRules(sources).Some?
    requires GrantedCaps(ParsedRules(sources).value, repository, workflow) != []
    requires Granted(GrantedCaps(ParsedRules(sources).value, repository, workflow), r).Ok?
    ensures !GuardRefuses(OwnName(repository), Granted(GrantedCaps(ParsedRules(sources).value, repository, workflow), r).value)
  {
    var rules := ParsedRules(sources).value;
    var caps := GrantedCaps(rules, repository, workflow);
    ParsedAllSafe(sources);
    LowerAfter(repository, '/');
    forall c | c in caps
      ensures Sound(c) && !CapGrantsWorkflowsOn(c, OwnName(repository))
    {
      CollectedFrom(rules, repository, workflow, c);
      var i :| 0 <= i < |rules| && Matches(rules[i], repository, workflow) && c in rules[i].tokens;
      assert rules[i] in rules && Safe(rules[i]);
    }
    GrantedWithinOneCap(caps, r);
    var c :| c in caps && Within(c, Granted(caps, r).value);
    LowerIdempotent(After(repository, '/'));
    SafeCapPassesGuard(c, OwnName(repository), Granted(caps, r).value);
  }

  /** Distinct labels leave at most two rules that can match one caller: the repository's and the workflow's. */
  lemma AtMostTwoRulesMatch(rules: seq<Rule>, repository: string, workflow: string, i: nat, j: nat, k: nat)
    requires DistinctLabels(rules) && i < j < k < |rules|
    ensures !(Matches(rules[i], repository, workflow) && Matches(rules[j], repository, workflow) && Matches(rules[k], repository, workflow))
  {
    assert Label(rules[i]) != Label(rules[j]) && Label(rules[j]) != Label(rules[k]) && Label(rules[i]) != Label(rules[k]);
  }

  /** Listing a tool once more does not make a rule any less acceptable to the parser. */
  lemma ParserAcceptsRepeatedTool(d: RuleSource, tool: string)
    requires ParseRule(d).Some? && tool in d.tools
    ensures ParseRule(d.(tools := d.tools + [tool])) == Some(ParseRule(d).value.(tools := d.tools + [tool]))
  {
    SameCaps(d.tools, d.tools + [tool], OwnName(d.repository), CapSources(d.githubToken).value);
  }

  lemma {:induction false} SameCaps(tools: seq<string>, more: seq<string>, own: string, caps: seq<CapSource>)
    requires INSTALLATION_TOKEN_TOOL in tools <==> INSTALLATION_TOKEN_TOOL in more
    ensures ParseCaps(tools, own, caps) == ParseCaps(more, own, caps)
  {
    if caps != [] {
      SameCaps(tools, more, own, caps[..|caps| - 1]);
    }
  }

  /** A count taken n times over. */
  function Over(n: nat, count: nat): nat
  {
    if n == 0 then 0 else Over(n - 1, count) + count
  }

  /** How many of the collected caps fit: every matching rule's, as often as it lists the token tool. */
  function WeightedFits(rules: seq<Rule>, repository: string, workflow: string, r: Request): nat
  {
    if rules == [] then 0
    else
      var last := rules[|rules| - 1];
      WeightedFits(rules[..|rules| - 1], repository, workflow, r) +
      if Matches(last, repository, workflow) then Over(Times(last.tools, INSTALLATION_TOKEN_TOOL), |Fitting(last.tokens, r)|) else 0
  }

  lemma {:induction false} FittingConcat(a: seq<TokenCap>, b: seq<TokenCap>, r: Request)
    ensures Fitting(a + b, r) == Fitting(a, r) + Fitting(b, r)
  {
    if b == [] {
      assert a + b == a;
    } else {
      var n := |b| - 1;
      FittingConcat(a, b[..n], r);
      assert (a + b)[..|a + b| - 1] == a + b[..n];
    }
  }

  lemma {:induction false} FittingRepeat(caps: seq<TokenCap>, n: nat, r: Request)
    ensures |Fitting(Repeat(caps, n), r)| == Over(n, |Fitting(caps, r)|)
  {
    if n > 0 {
      FittingRepeat(caps, n - 1, r);
      FittingConcat(Repeat(caps, n - 1), caps, r);
    }
  }

  lemma {:induction false} FittingIsWeighted(rules: seq<Rule>, repository: string, workflow: string, r: Request)
    ensures |Fitting(CollectedCaps(rules, repository, workflow), r)| == WeightedFits(rules, repository, workflow, r)
  {
    if rules != [] {
      var front, last := rules[..|rules| - 1], rules[|rules| - 1];
      FittingIsWeighted(front, repository, workflow, r);
      if Matches(last, repository, workflow) {
        var n := Times(last.tools, INSTALLATION_TOKEN_TOOL);
        FittingRepeat(last.tokens, n, r);
        FittingConcat(CollectedCaps(front, repository, workflow), Repeat(last.tokens, n), r);
      } else {
        assert CollectedCaps(rules, repository, workflow) == CollectedCaps(front, repository, workflow);
      }
    }
  }

  /** A bounded caller's request that leaves something out is granted exactly when one collected cap fits, counted as collected. */
  lemma OmissionNeedsOneCollectedFit(rules: seq<Rule>, repository: string, workflow: string, r: Request)
    requires GrantedCaps(rules, repository, workflow) != [] && LeavesOut(r)
    ensures Granted(GrantedCaps(rules, repository, workflow), r).Ok? <==> WeightedFits(rules, repository, workflow, r) == 1
    ensures Granted(GrantedCaps(rules, repository, workflow), r) == Err(Ambiguous) <==> WeightedFits(rules, repository, workflow, r) > 1
  {
    FittingIsWeighted(rules, repository, workflow, r);
  }

  lemma {:induction false} RuleAddsItsFits(rules: seq<Rule>, repository: string, workflow: string, r: Request, i: nat)
    requires i < |rules| && Matches(rules[i], repository, workflow)
    ensures WeightedFits(rules, repository, workflow, r) >= Over(Times(rules[i].tools, INSTALLATION_TOKEN_TOOL), |Fitting(rules[i].tokens, r)|)
    ensures rules[i].tokens != [] && Times(rules[i].tools, INSTALLATION_TOKEN_TOOL) > 0 ==> CollectedCaps(rules, repository, workflow) != []
  {
    var last := |rules| - 1;
    if i < last {
      RuleAddsItsFits(rules[..last], repository, workflow, r, i);
    } else {
      var some := if rules[i].tokens != [] then rules[i].tokens[0] else TokenCap([], None, None);
      RepeatHas(rules[i].tokens, Times(rules[i].tools, INSTALLATION_TOKEN_TOOL), some);
    }
  }

  predicate NeverListedOnce(rules: seq<Rule>, repository: string, workflow: string)
  {
    forall j | 0 <= j < |rules| && Matches(rules[j], repository, workflow) :: Times(rules[j].tools, INSTALLATION_TOKEN_TOOL) != 1
  }

  lemma {:induction false} NeverOneFit(rules: seq<Rule>, repository: string, workflow: string, r: Request)
    requires NeverListedOnce(rules, repository, workflow)
    ensures WeightedFits(rules, repository, workflow, r) != 1
  {
    if rules != [] {
      var front, last := rules[..|rules| - 1], rules[|rules| - 1];
      assert NeverListedOnce(front, repository, workflow) by {
        assert forall j | 0 <= j < |front| :: front[j] == rules[j];
      }
      NeverOneFit(front, repository, workflow, r);
      if Matches(last, repository, workflow) {
        OverIsNotOne(Times(last.tools, INSTALLATION_TOKEN_TOOL), |Fitting(last.tokens, r)|);
      }
    }
  }

  lemma {:induction false} OverIsNotOne(n: nat, count: nat)
    requires n != 1
    ensures Over(n, count) != 1 && (n > 1 && count > 0 ==> Over(n, count) > 1)
  {
    if n == 2 {
      assert Over(2, count) == Over(1, count) + count && Over(1, count) == count;
    } else if n > 2 {
      OverIsNotOne(n - 1, count);
    }
  }

  lemma {:induction false} ListedIsIn(tools: seq<string>, tool: string)
    requires Times(tools, tool) > 0
    ensures tool in tools
  {
    if tools[|tools| - 1] != tool { ListedIsIn(tools[..|tools| - 1], tool); }
  }

  /**
   * A matching rule that lists the token tool more than once counts each of its caps that often. Whatever
   * other rules match beside it, a request that leaves an argument out is refused as ambiguous as soon as
   * one of that rule's caps fits; and where no matching rule lists the tool exactly once, it is refused
   * fitting or not.
   */
  lemma RepeatedToolMakesOmissionsAmbiguous(rules: seq<Rule>, repository: string, workflow: string, r: Request, i: nat)
    requires i < |rules| && Matches(rules[i], repository, workflow) && Times(rules[i].tools, INSTALLATION_TOKEN_TOOL) > 1
    requires !Unbounded(rules, repository, workflow) && LeavesOut(r)
    ensures (exists c :: c in rules[i].tokens && Fits(c, r)) ==> Granted(GrantedCaps(rules, repository, workflow), r) == Err(Ambiguous)
    ensures NeverListedOnce(rules, repository, workflow) ==> Granted(GrantedCaps(rules, repository, workflow), r).Err?
  {
    var n := Times(rules[i].tools, INSTALLATION_TOKEN_TOOL);
    ListedIsIn(rules[i].tools, INSTALLATION_TOKEN_TOOL);
    RuleAddsItsFits(rules, repository, workflow, r, i);
    OmissionNeedsOneCollectedFit(rules, repository, workflow, r);
    FittingFits(rules[i].tokens, r);
    if c :| c in rules[i].tokens && Fits(c, r) {
      assert c in Fitting(rules[i].tokens, r);
      OverIsNotOne(n, |Fitting(rules[i].tokens, r)|);
    }
    if NeverListedOnce(rules, repository, workflow) {
      NeverOneFit(rules, repository, workflow, r);
    }
  }

  /** The smallest such rule: one cap, listed twice over, and a request for nothing in particular. */
  lemma RepeatedToolExample()
    ensures
      var cap := TokenCap(["app"], None, Some(map["contents" := "read"]));
      var once := Rule("o/r", "", [INSTALLATION_TOKEN_TOOL], [cap]);
      var twice := once.(tools := [INSTALLATION_TOKEN_TOOL, INSTALLATION_TOKEN_TOOL]);
      && Granted(GrantedCaps([once], "o/r", ""), Request(None, None)).Ok?
      && Granted(GrantedCaps([twice], "o/r", ""), Request(None, None)) == Err(Ambiguous)
  {
    var cap := TokenCap(["app"], None, Some(map["contents" := "read"]));
    var t := INSTALLATION_TOKEN_TOOL;
    var once := Rule("o/r", "", [t], [cap]);
    var twice := once.(tools := [t, t]);
    var r := Request(None, None);
    assert Text.Lower("o/r") == "o/r";
    assert Fits(cap, r);
    assert Times([t], t) == 1 by { assert [t][..0] == []; assert Times([], t) == 0; }
    assert Times([t, t], t) == 2 by { assert [t, t][..1] == [t]; }
    assert Repeat([cap], 1) == [cap] by { assert Repeat([cap], 0) == []; }
    assert [once][..0] == [] && CollectedCaps([once], "o/r", "") == [cap];
    assert Fitting([cap], r) == [cap] by { assert [cap][..0] == []; assert Fitting([], r) == []; }
    assert [twice][0] == twice && cap in twice.tokens;
    RepeatedToolMakesOmissionsAmbiguous([twice], "o/r", "", r, 0);
  }

  // ---- when a rule is accepted, in the words of its documentation ----

  /** A repository name by itself, as a cap lists it. */
  predicate PlainName(n: string)
  {
    n != "" && '/' !in n && ' ' !in n && '\t' !in n
  }

  /** The names a cap includes or excludes: one list of the two, and not an empty one. */
  function CapNames(c: CapSource): Option<seq<string>>
  {
    match (c.repositories, c.exclude)
    case (Some(names), None) => if names == [] then None else Some(names)
    case (None, Some(names)) => if names == [] then None else Some(names)
    case _ => None
  }

  /** Some token under this cap could change the workflow files of the rule's own repository. */
  predicate ReachesOwnWorkflows(c: CapSource, own: string)
  {
    && (c.permissions.None? || "workflows" in c.permissions.value)
    && (c.repositories.Some? ==> exists n :: n in c.repositories.value && Text.Lower(n) == own)
    && (c.exclude.Some? ==> forall n | n in c.exclude.value :: Text.Lower(n) != own)
  }

  predicate CapAccepted(tools: seq<string>, own: string, c: CapSource)
  {
    && "github_app_installation_token" in tools
    && CapNames(c).Some? && (forall n | n in CapNames(c).value :: PlainName(n))
    && (c.permissions.None? ==> c.exclude.Some?)
    && (c.permissions.Some? ==>
          && c.permissions.value != map[]
          && forall name | name in c.permissions.value ::
               !Text.Blank(name) && c.permissions.value[name] in {"read", "write", "admin"})
    && !ReachesOwnWorkflows(c, own)
  }

  /** What an accepted cap becomes: its names in lower case, its permissions as they are. */
  predicate CapBecomes(c: CapSource, cap: TokenCap)
  {
    && cap.permissions == c.permissions
    && (c.exclude.None? <==> cap.exclude.None?)
    && (c.repositories.Some? ==>
          && |cap.repositories| == |c.repositories.value|
          && forall i | 0 <= i < |cap.repositories| :: cap.repositories[i] == Text.Lower(c.repositories.value[i]))
    && (c.exclude.Some? ==>
          && |cap.exclude.value| == |c.exclude.value|
          && forall i | 0 <= i < |cap.exclude.value| :: cap.exclude.value[i] == Text.Lower(c.exclude.value[i]))
  }

  lemma LoweredHas(names: seq<string>, own: string)
    ensures own in Lowered(names) <==> exists n :: n in names && Text.Lower(n) == own
  {
    if own in Lowered(names) {
      var i :| 0 <= i < |names| && Lowered(names)[i] == own;
      assert names[i] in names && Text.Lower(names[i]) == own;
    }
    if n :| n in names && Text.Lower(n) == own {
      var i :| 0 <= i < |names| && names[i] == n;
      assert Lowered(names)[i] == own;
    }
  }

  lemma CapAcceptedExactly(tools: seq<string>, own: string, c: CapSource)
    ensures ParseTokenCap(tools, c).Some? && !CapGrantsWorkflowsOn(ParseTokenCap(tools, c).value, own) <==> CapAccepted(tools, own, c)
    ensures ParseTokenCap(tools, c).Some? ==> CapBecomes(c, ParseTokenCap(tools, c).value)
  {
    if c.repositories.Some? { LoweredHas(c.repositories.value, own); }
    if c.exclude.Some? { LoweredHas(c.exclude.value, own); }
    if c.permissions.Some? {
      var p := c.permissions.value;
      assert |p| > 0 <==> p != map[];
      assert forall name | name in p :: Rank(p[name]) > 0 <==> p[name] in {"read", "write", "admin"};
    }
    if CapNames(c).Some? {
      assert forall n | n in CapNames(c).value :: PlainName(n) <==> BareName(n);
    }
  }

  lemma {:induction false} CapsAcceptedExactly(tools: seq<string>, own: string, caps: seq<CapSource>)
    ensures ParseCaps(tools, own, caps).Some? <==> forall c | c in caps :: CapAccepted(tools, own, c)
    ensures ParseCaps(tools, own, caps).Some? ==>
      |ParseCaps(tools, own, caps).value| == |caps| && forall i | 0 <= i < |caps| :: CapBecomes(caps[i], ParseCaps(tools, own, caps).value[i])
  {
    if caps != [] {
      var last := |caps| - 1;
      CapsAcceptedExactly(tools, own, caps[..last]);
      CapAcceptedExactly(tools, own, caps[last]);
      assert caps == caps[..last] + [caps[last]];
    }
  }

  /** owner/name, and nothing else to it. */
  predicate Owned(repository: string, owner: string, name: string)
  {
    repository == owner + "/" + name && PlainName(owner) && PlainName(name)
  }

  lemma {:induction false} CutAtSlash(owner: string, name: string)
    requires '/' !in owner
    ensures Text.Before(owner + "/" + name, '/') == owner && After(owner + "/" + name, '/') == name
  {
    var s := owner + "/" + name;
    if owner == "" {
      assert s == "/" + name;
    } else {
      CutAtSlash(owner[1..], name);
      assert s[1..] == owner[1..] + "/" + name;
    }
  }

  lemma {:induction false} CutsRejoin(s: string)
    requires '/' in s
    ensures s == Text.Before(s, '/') + "/" + After(s, '/') && '/' !in Text.Before(s, '/')
  {
    if s[0] != '/' {
      CutsRejoin(s[1..]);
    }
  }

  lemma OwnedExactly(repository: string)
    ensures OwnerSlashName(repository) <==> exists owner, name :: Owned(repository, owner, name)
    ensures OwnerSlashName(repository) ==> exists owner, name :: Owned(repository, owner, name) && OwnName(repository) == Text.Lower(name)
  {
    if OwnerSlashName(repository) {
      CutsRejoin(repository);
      assert Owned(repository, Text.Before(repository, '/'), After(repository, '/'));
    }
    if owner, name :| Owned(repository, owner, name) {
      CutAtSlash(owner, name);
    }
  }

  /** The caps a rule lists: none, one by itself, or a list that is not empty. */
  predicate Lists(field: TokenField, caps: seq<CapSource>)
  {
    match field
    case Absent => caps == []
    case One(cap) => caps == [cap]
    case Many(many) => caps == many && caps != []
  }

  predicate RuleAccepted(d: RuleSource, owner: string, name: string, caps: seq<CapSource>)
  {
    && Owned(d.repository, owner, name)
    && (d.workflow == ""
        || (&& Text.HasPrefix(d.workflow, ".github/workflows/")
            && (Text.HasSuffix(d.workflow, ".yml") || Text.HasSuffix(d.workflow, ".yaml"))
            && '@' !in d.workflow && ' ' !in d.workflow && '\t' !in d.workflow))
    && d.tools != [] && (forall t | t in d.tools :: !Text.Blank(t))
    && Lists(d.githubToken, caps) && (forall c | c in caps :: CapAccepted(d.tools, Text.Lower(name), c))
  }

  /**
   * A rule is accepted exactly when its repository is owner/name, its workflow, if any, a workflow file, its
   * tools named, and each of its caps well-formed and away from the workflow files of its own repository.
   */
  lemma RuleAcceptedExactly(d: RuleSource)
    ensures ParseRule(d).Some? <==> exists owner, name, caps :: RuleAccepted(d, owner, name, caps)
    ensures ParseRule(d).Some? ==>
      && ParseRule(d).value.repository == Text.Lower(d.repository) && ParseRule(d).value.workflow == d.workflow
      && ParseRule(d).value.tools == d.tools
      && exists caps :: Lists(d.githubToken, caps) && |caps| == |ParseRule(d).value.tokens|
                        && forall i | 0 <= i < |caps| :: CapBecomes(caps[i], ParseRule(d).value.tokens[i])
  {
    OwnedExactly(d.repository);
    if ParseRule(d).Some? {
      var caps := CapSources(d.githubToken).value;
      CapsAcceptedExactly(d.tools, OwnName(d.repository), caps);
      var owner, name :| Owned(d.repository, owner, name) && OwnName(d.repository) == Text.Lower(name);
      assert RuleAccepted(d, owner, name, caps);
    }
    if owner, name, caps :| RuleAccepted(d, owner, name, caps) {
      AcceptedParses(d, owner, name, caps);
    }
  }

  lemma AcceptedParses(d: RuleSource, owner: string, name: string, caps: seq<CapSource>)
    requires RuleAccepted(d, owner, name, caps)
    ensures ParseRule(d).Some?
  {
    OwnedExactly(d.repository);
    CutAtSlash(owner, name);
    CapsAcceptedExactly(d.tools, Text.Lower(name), caps);
    assert WorkflowFile(d.workflow) || d.workflow == "";
  }

  /** A rule is for its repository, in any case, and for one of its workflows if it names one. */
  lemma MatchesExactly(d: RuleSource, repository: string, workflow: string)
    requires ParseRule(d).Some?
    ensures Matches(ParseRule(d).value, repository, workflow) <==>
      Text.EqualFold(d.repository, repository) && (d.workflow == "" || d.workflow == workflow)
  {
  }

  /** The rule is the caller's and gives it the token tool. */
  predicate GivesTokens(rule: Rule, repository: string, workflow: string)
  {
    Matches(rule, repository, workflow) && "github_app_installation_token" in rule.tools
  }

  lemma {:induction false} CollectedExactly(rules: seq<Rule>, repository: string, workflow: string, c: TokenCap)
    ensures c in CollectedCaps(rules, repository, workflow) <==>
      exists i :: 0 <= i < |rules| && GivesTokens(rules[i], repository, workflow) && c in rules[i].tokens
  {
    if rules != [] {
      var n := |rules| - 1;
      CollectedExactly(rules[..n], repository, workflow, c);
      RepeatHas(rules[n].tokens, Times(rules[n].tools, INSTALLATION_TOKEN_TOOL), c);
      ListedExactly(rules[n].tools, INSTALLATION_TOKEN_TOOL);
      if i :| 0 <= i < n && GivesTokens(rules[..n][i], repository, workflow) && c in rules[..n][i].tokens {
        assert GivesTokens(rules[i], repository, workflow);
      }
      if i :| 0 <= i < n && GivesTokens(rules[i], repository, workflow) && c in rules[i].tokens {
        assert GivesTokens(rules[..n][i], repository, workflow);
      }
    }
  }

  lemma {:induction false} ListedExactly(tools: seq<string>, tool: string)
    ensures Times(tools, tool) > 0 <==> tool in tools
  {
    if tools != [] {
      ListedExactly(tools[..|tools| - 1], tool);
      assert tools == tools[..|tools| - 1] + [tools[|tools| - 1]];
    }
  }

  /**
   * The caps of a caller: those of the rules that give it the token tool, and none, so that any request is
   * granted, when one of these rules sets no cap.
   */
  lemma CapsExactly(rules: seq<Rule>, repository: string, workflow: string, r: Request)
    ensures (exists i :: 0 <= i < |rules| && GivesTokens(rules[i], repository, workflow) && rules[i].tokens == []) ==>
      GrantedCaps(rules, repository, workflow) == [] && Granted(GrantedCaps(rules, repository, workflow), r) == Ok(r)
    ensures !(exists i :: 0 <= i < |rules| && GivesTokens(rules[i], repository, workflow) && rules[i].tokens == []) ==>
      forall c :: c in GrantedCaps(rules, repository, workflow) <==>
        exists i :: 0 <= i < |rules| && GivesTokens(rules[i], repository, workflow) && c in rules[i].tokens
  {
    if i :| 0 <= i < |rules| && GivesTokens(rules[i], repository, workflow) && rules[i].tokens == [] {
      assert Unbounded(rules, repository, workflow);
    } else {
      forall c
        ensures c in GrantedCaps(rules, repository, workflow) <==>
          exists i :: 0 <= i < |rules| && GivesTokens(rules[i], repository, workflow) && c in rules[i].tokens
      {
        CollectedExactly(rules, repository, workflow, c);
      }
    }
  }

  // ---- the workflow a token was minted for ----

  function LastIndex(s: string, c: char): (at: int)
    ensures -1 <= at < |s|
    ensures at >= 0 ==> s[at] == c && c !in s[at + 1..]
    ensures at < 0 ==> c !in s
  {
    if s == "" then -1
    else if s[|s| - 1] == c then |s| - 1
    else LastIndex(s[..|s| - 1], c)
  }

  function WorkflowPath(repository: string, workflowRef: string): string
  {
    var at := LastIndex(workflowRef, '@');
    var prefix := repository + "/";
    if at < 0 || at <= |prefix| || !Text.EqualFold(workflowRef[..|prefix|], prefix) then ""
    else workflowRef[|prefix|..at]
  }

  /** A reference to this path of the repository, which may be written in any case. */
  ghost predicate RefersTo(repository: string, workflowRef: string, path: string)
  {
    exists prefix, ref :: RefersBy(repository, workflowRef, path, prefix, ref)
  }

  predicate RefersBy(repository: string, workflowRef: string, path: string, prefix: string, ref: string)
  {
    Text.EqualFold(prefix, repository + "/") && '@' !in ref && workflowRef == prefix + path + "@" + ref
  }

  /**
   * A workflow is recognised exactly in a reference `<repository>/<path>@<ref>`, the repository in any
   * case: a rule for one workflow never matches a token of another repository or another file.
   */
  lemma WorkflowPathExactly(repository: string, workflowRef: string, path: string)
    requires path != ""
    ensures WorkflowPath(repository, workflowRef) == path <==> RefersTo(repository, workflowRef, path)
  {
    if WorkflowPath(repository, workflowRef) == path {
      PathIsReferred(repository, workflowRef, path);
    }
    if prefix, ref :| RefersBy(repository, workflowRef, path, prefix, ref) {
      ReferredIsPath(repository, workflowRef, path, prefix, ref);
    }
  }

  lemma PathIsReferred(repository: string, workflowRef: string, path: string)
    requires path != "" && WorkflowPath(repository, workflowRef) == path
    ensures RefersTo(repository, workflowRef, path)
  {
    var at := LastIndex(workflowRef, '@');
    var prefix, ref := workflowRef[..|repository| + 1], workflowRef[at + 1..];
    assert workflowRef == prefix + path + "@" + ref;
    assert RefersBy(repository, workflowRef, path, prefix, ref);
  }

  lemma ReferredIsPath(repository: string, workflowRef: string, path: string, prefix: string, ref: string)
    requires path != "" && RefersBy(repository, workflowRef, path, prefix, ref)
    ensures WorkflowPath(repository, workflowRef) == path
  {
    var n := |repository| + 1;
    assert |prefix| == |Text.Lower(prefix)| == n;
    LastIndexIs(prefix + path, ref, '@');
    assert workflowRef == (prefix + path) + ['@'] + ref;
    assert workflowRef[..n] == prefix && workflowRef[n..n + |path|] == path;
  }

  lemma {:induction false} LastIndexIs(head: string, tail: string, c: char)
    requires c !in tail
    ensures LastIndex(head + [c] + tail, c) == |head|
  {
    var s := head + [c] + tail;
    if tail != "" {
      var shorter := tail[..|tail| - 1];
      assert s[..|s| - 1] == head + [c] + shorter;
      LastIndexIs(head, shorter, c);
    }
  }
}
