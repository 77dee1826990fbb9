/** Which GitHub installation tokens a scoped caller may mint: fitting a request to the caller's caps. */
module TokenCaps {
  import opened Results
  import opened Json
  import Text

  /** toolscope.TokenCap. `exclude` and `permissions` are None for Go's nil. */
  datatype TokenCap = TokenCap(repositories: seq<string>, exclude: Option<seq<string>>, permissions: Option<map<string, string>>)

  /** The repositories and permissions of one token; None is an argument the caller left out. */
  datatype Request = Request(repositories: Option<seq<string>>, permissions: Option<Members>)

  datatype Refusal = OutsideTheCap | FitsNoCap | Ambiguous

  function Rank(level: string): nat
  {
    if level == "read" then 1 else if level == "write" then 2 else if level == "admin" then 3 else 0
  }

  // ---- what a cap means ----

  /** The repositories a cap covers, as a set of lower-cased names given by its membership test. */
  predicate CoversRepository(cap: TokenCap, repository: string)
  {
    match cap.exclude
    case Some(excluded) => Text.Lower(repository) !in excluded
    case None => Text.Lower(repository) in cap.repositories
  }

  /** No permissions at all on an exclude cap means every permission. */
  predicate AnyPermission(cap: TokenCap)
  {
    cap.exclude.Some? && cap.permissions.None?
  }

  function Limits(cap: TokenCap): map<string, string>
  {
    if cap.permissions.Some? then cap.permissions.value else map[]
  }

  predicate CoversPermission(cap: TokenCap, name: string, level: Json)
  {
    && level.Str?
    && name in Limits(cap)
    && 1 <= Rank(level.text) <= Rank(Limits(cap)[name])
  }

  predicate CoversPermissions(cap: TokenCap, named: Members)
  {
    |named| > 0 && forall name | name in named :: CoversPermission(cap, name, named[name])
  }

  /** Every token this request could mint is one the cap covers. */
  predicate Within(cap: TokenCap, r: Request)
  {
    && r.repositories.Some? && r.repositories.value != []
    && (forall repo | repo in r.repositories.value :: CoversRepository(cap, repo))
    && (AnyPermission(cap) || (r.permissions.Some? && CoversPermissions(cap, r.permissions.value)))
  }

  /** What the rule parser guarantees of every cap it lets through. */
  predicate Sound(cap: TokenCap)
  {
    && (cap.exclude.None? ==>
          && cap.repositories != [] && cap.permissions.Some?
          && forall repo | repo in cap.repositories :: Text.Lower(repo) == repo)
    && (cap.permissions.Some? ==>
          && |cap.permissions.value| > 0
          && forall name | name in cap.permissions.value :: Rank(cap.permissions.value[name]) > 0)
  }

  /** A request fits a cap: what it names is covered, and what it leaves out the cap can supply. */
  predicate Fits(cap: TokenCap, r: Request)
  {
    && (match r.repositories
        case None => cap.exclude.None?
        case Some(named) => named != [] && forall repo | repo in named :: CoversRepository(cap, repo))
    && (AnyPermission(cap) ||
        match r.permissions
        case None => true
        case Some(named) => CoversPermissions(cap, named))
  }

  function Defaults(cap: TokenCap): Members
  {
    map name | name in Limits(cap) :: Str(Limits(cap)[name])
  }

  // ---- the same, in the words of the rules ----

  /** What each limit admits; a limit that is none of the three admits nothing. */
  predicate Admits(limit: string, level: string)
  {
    || (limit == "read" && level == "read")
    || (limit == "write" && level in {"read", "write"})
    || (limit == "admin" && level in {"read", "write", "admin"})
  }

  /** The repositories a request names, or takes over from the cap, are ones the cap is for. */
  predicate RepositoriesAsked(cap: TokenCap, r: Request)
  {
    match r.repositories
    case None => cap.exclude == None
    case Some(named) =>
      named != [] && forall repo | repo in named ::
        if cap.exclude.Some? then Text.Lower(repo) !in cap.exclude.value else Text.Lower(repo) in cap.repositories
  }

  /** Every permission a request names is one the cap lists, at a level its limit admits. */
  predicate PermissionsAsked(cap: TokenCap, r: Request)
  {
    || (cap.exclude.Some? && cap.permissions.None?)
    || r.permissions.None?
    || (r.permissions.value != map[]
        && forall name | name in r.permissions.value ::
             && r.permissions.value[name].Str?
             && cap.permissions.Some? && name in cap.permissions.value
             && Admits(cap.permissions.value[name], r.permissions.value[name].text))
  }

  predicate Asked(cap: TokenCap, r: Request)
  {
    RepositoriesAsked(cap, r) && PermissionsAsked(cap, r)
  }

  lemma RankAdmits(limit: string, level: string)
    ensures 1 <= Rank(level) <= Rank(limit) <==> Admits(limit, level)
  {
  }

  lemma CoversAsAsked(cap: TokenCap, r: Request)
    ensures r.permissions.Some? ==>
      (PermissionsAsked(cap, r) <==> AnyPermission(cap) || CoversPermissions(cap, r.permissions.value))
  {
    if r.permissions.Some? {
      var named := r.permissions.value;
      forall name | name in named
        ensures CoversPermission(cap, name, named[name]) <==>
          && named[name].Str? && cap.permissions.Some? && name in cap.permissions.value
          && Admits(cap.permissions.value[name], named[name].text)
      {
        if named[name].Str? && name in Limits(cap) { RankAdmits(Limits(cap)[name], named[name].text); }
      }
      assert |named| > 0 <==> named != map[];
    }
  }

  lemma FitsAsAsked(cap: TokenCap, r: Request)
    ensures Fits(cap, r) <==> Asked(cap, r)
  {
    CoversAsAsked(cap, r);
  }

  /** The token granted on a cap: what the request named, and for what it left out all the cap has. */
  predicate GrantedFrom(cap: TokenCap, r: Request, granted: Request)
  {
    && granted.repositories == (if r.repositories.Some? then r.repositories else Some(cap.repositories))
    && (r.permissions.Some? ==> granted.permissions == r.permissions)
    && (r.permissions.None? && cap.exclude.Some? && cap.permissions.None? ==> granted.permissions == None)
    && (r.permissions.None? && cap.exclude.None? && cap.permissions.None? ==> granted.permissions == Some(map[]))
    && (r.permissions.None? && cap.permissions.Some? ==>
          && granted.permissions.Some? && granted.permissions.value.Keys == cap.permissions.value.Keys
          && forall name | name in cap.permissions.value :: granted.permissions.value[name] == Str(cap.permissions.value[name]))
  }

  /** Some cap is for the request, and if the request leaves something out no second entry of the list is. */
  predicate GrantedOn(caps: seq<TokenCap>, r: Request, i: nat)
  {
    && i < |caps| && Asked(caps[i], r)
    && (r.repositories.None? || r.permissions.None? ==> forall j | 0 <= j < |caps| && j != i :: !Asked(caps[j], r))
  }

  // ---- the program ----

  method CapPermissions(cap: TokenCap, r: Request) returns (out: Option<Request>)
    ensures out ==
      match r.permissions
      case None => Some(r.(permissions := Some(Defaults(cap))))
      case Some(named) =>
        if CoversPermissions(cap, named) then Some(r) else None
    ensures r.permissions.Some? && (cap.exclude.None? || cap.permissions.Some?) ==> (out.Some? <==> PermissionsAsked(cap, r))
  {
    CoversAsAsked(cap, r);
    if r.permissions.None? {
      var permissions: Members := map[];
      var left := Limits(cap).Keys;
      while left != {}
        invariant left <= Limits(cap).Keys
        invariant permissions == map name | name in Limits(cap) && name !in left :: Str(Limits(cap)[name])
      {
        var name :| name in left;
        permissions := permissions[name := Str(Limits(cap)[name])];
        left := left - {name};
      }
      assert permissions == Defaults(cap);
      return Some(r.(permissions := Some(permissions)));
    }
    var named := r.permissions.value;
    if |named| == 0 {
      return None;
    }
    var left := named.Keys;
    while left != {}
      invariant left <= named.Keys
      invariant forall name | name in named.Keys - left :: CoversPermission(cap, name, named[name])
    {
      var name :| name in left;
      if !named[name].Str? || name !in Limits(cap) {
        return None;
      }
      var level := named[name].text;
      if Rank(level) == 0 || Rank(level) > Rank(Limits(cap)[name]) {
        return None;
      }
      left := left - {name};
    }
    return Some(r);
  }

  /** What one cap makes of a request; the method ApplyTokenCap computes it. */
  function Applied(cap: TokenCap, r: Request): Option<Request>
  {
    if !Fits(cap, r) then None
    else
      var repositories := if r.repositories.None? then Some(cap.repositories) else r.repositories;
      var permissions := if r.permissions.None? && !AnyPermission(cap) then Some(Defaults(cap)) else r.permissions;
      Some(Request(repositories, permissions))
  }

  method ApplyTokenCap(cap: TokenCap, r: Request) returns (out: Option<Request>)
    ensures out == Applied(cap, r)
  {
    if cap.exclude.Some? {
      if r.repositories.None? || r.repositories.value == [] {
        return None;
      }
      var named := r.repositories.value;
      for i := 0 to |named|
        invariant forall j | 0 <= j < i :: CoversRepository(cap, named[j])
      {
        if Text.Lower(named[i]) in cap.exclude.value {
          assert !CoversRepository(cap, named[i]);
          return None;
        }
      }
      if cap.permissions.None? {
        return Some(r);
      }
      out := CapPermissions(cap, r);
      return;
    }
    var repositories := cap.repositories;
    if r.repositories.Some? {
      repositories := r.repositories.value;
      if repositories == [] {
        return None;
      }
      for i := 0 to |repositories|
        invariant forall j | 0 <= j < i :: CoversRepository(cap, repositories[j])
      {
        if Text.Lower(repositories[i]) !in cap.repositories {
          assert !CoversRepository(cap, repositories[i]);
          return None;
        }
      }
    }
    out := CapPermissions(cap, r.(repositories := Some(repositories)));
  }

  function Fitting(caps: seq<TokenCap>, r: Request): seq<TokenCap>
  {
    if caps == [] then []
    else Fitting(caps[..|caps| - 1], r) + if Fits(caps[|caps| - 1], r) then [caps[|caps| - 1]] else []
  }

  predicate LeavesOut(r: Request)
  {
    r.repositories.None? || r.permissions.None?
  }

  /** What all of a caller's caps make of a request; no cap at all is an unbounded caller. */
  function Granted(caps: seq<TokenCap>, r: Request): Result<Request, Refusal>
  {
    if caps == [] then Ok(r)
    else
      var fitting := Fitting(caps, r);
      if fitting == [] then Err(if |caps| == 1 then OutsideTheCap else FitsNoCap)
      else if |fitting| > 1 && LeavesOut(r) then Err(Ambiguous)
      else
        FittingFits(caps, r);
        Ok(Applied(fitting[0], r).value)
  }

  /**
   * applyTokenCaps. The shortcut for at most one cap is the source's own; it agrees with the general path. A
   * caller without caps gets what it asks for; any other exactly what one of its caps is for.
   */
  method ApplyTokenCaps(caps: seq<TokenCap>, r: Request) returns (out: Result<Request, Refusal>)
    ensures out == Granted(caps, r)
    ensures caps == [] ==> out == Ok(r)
    ensures caps != [] ==> (out.Ok? <==> exists i: nat :: GrantedOn(caps, r, i))
    ensures caps != [] && out.Ok? ==> exists i: nat :: GrantedOn(caps, r, i) && GrantedFrom(caps[i], r, out.value)
  {
    if caps != [] { GrantedAsAsked(caps, r); }
    FittingFits(caps, r);
    if |caps| <= 1 {
      if |caps| == 0 {
        return Ok(r);
      }
      assert caps[..0] == [];
      var only := ApplyTokenCap(caps[0], r);
      return if only.Some? then Ok(only.value) else Err(OutsideTheCap);
    }
    var fitting: seq<TokenCap> := [];
    for i := 0 to |caps|
      invariant fitting == Fitting(caps[..i], r)
    {
      var alone := ApplyTokenCap(caps[i], r);
      assert caps[..i + 1][..i] == caps[..i];
      if alone.Some? {
        fitting := fitting + [caps[i]];
      }
    }
    assert caps[..|caps|] == caps;
    if |fitting| == 0 {
      return Err(FitsNoCap);
    }
    if |fitting| > 1 && (r.repositories.None? || r.permissions.None?) {
      return Err(Ambiguous);
    }
    var first := ApplyTokenCap(fitting[0], r);
    return Ok(first.value);
  }

  // ---- what the caller can rely on ----

  lemma {:induction false} FittingFits(caps: seq<TokenCap>, r: Request)
    ensures forall c :: c in Fitting(caps, r) <==> c in caps && Fits(c, r)
    ensures |Fitting(caps, r)| <= |caps|
  {
    if caps != [] {
      var last := |caps| - 1;
      FittingFits(caps[..last], r);
      assert caps == caps[..last] + [caps[last]];
    }
  }

  /** One cap: the granted request lies inside it and repeats what the caller named. */
  lemma AppliedWithin(cap: TokenCap, r: Request)
    requires Sound(cap) && Applied(cap, r).Some?
    ensures Within(cap, Applied(cap, r).value)
    ensures r.repositories.Some? ==> Applied(cap, r).value.repositories == r.repositories
    ensures r.permissions.Some? ==> Applied(cap, r).value.permissions == r.permissions
  {
    var granted := Applied(cap, r).value;
    if r.permissions.None? && !AnyPermission(cap) {
      assert granted.permissions == Some(Defaults(cap));
      assert Defaults(cap).Keys == Limits(cap).Keys;
      assert |Defaults(cap)| > 0;
    }
  }

  /** An accepted request lies wholly inside one of the caller's caps; what the caller named comes back unchanged. */
  lemma GrantedWithinOneCap(caps: seq<TokenCap>, r: Request)
    requires caps != [] && (forall c | c in caps :: Sound(c)) && Granted(caps, r).Ok?
    ensures exists c :: c in caps && Within(c, Granted(caps, r).value)
    ensures r.repositories.Some? ==> Granted(caps, r).value.repositories == r.repositories
    ensures r.permissions.Some? ==> Granted(caps, r).value.permissions == r.permissions
  {
    FittingFits(caps, r);
    var c := Fitting(caps, r)[0];
    assert c in Fitting(caps, r);
    AppliedWithin(c, r);
  }

  /** Refusal happens exactly when no cap fits, or when the request leaves something out and two entries fit. */
  lemma RefusedExactly(caps: seq<TokenCap>, r: Request)
    requires caps != []
    ensures Granted(caps, r).Err? <==>
      || (forall i | 0 <= i < |caps| :: !Fits(caps[i], r))
      || (LeavesOut(r) && exists i, j :: 0 <= i < j < |caps| && Fits(caps[i], r) && Fits(caps[j], r))
  {
    FittingFits(caps, r);
    TwoFit(caps, r);
    if Fitting(caps, r) == [] {
      forall i | 0 <= i < |caps| ensures !Fits(caps[i], r) {
        var c := caps[i];
        assert c in caps && c !in Fitting(caps, r);
      }
    } else {
      assert Fitting(caps, r)[0] in Fitting(caps, r);
    }
  }

  /** The answer in the words of the rules: when a token is granted, and which. */
  lemma GrantedAsAsked(caps: seq<TokenCap>, r: Request)
    requires caps != []
    ensures Granted(caps, r).Ok? <==> exists i: nat :: GrantedOn(caps, r, i)
    ensures Granted(caps, r).Ok? ==> exists i: nat :: GrantedOn(caps, r, i) && GrantedFrom(caps[i], r, Granted(caps, r).value)
  {
    forall c: TokenCap
      ensures Fits(c, r) <==> Asked(c, r)
    {
      FitsAsAsked(c, r);
    }
    RefusedExactly(caps, r);
    if Granted(caps, r).Ok? {
      FittingFits(caps, r);
      var c := Fitting(caps, r)[0];
      assert c in Fitting(caps, r);
      var i: nat :| i < |caps| && caps[i] == c;
      assert GrantedOn(caps, r, i);
      AppliedFrom(c, r);
    }
  }

  lemma AppliedFrom(cap: TokenCap, r: Request)
    requires Applied(cap, r).Some?
    ensures GrantedFrom(cap, r, Applied(cap, r).value)
  {
  }

  /**
   * In particular a permission the caller names is granted at no more than its limit: under read only read,
   * under write read and write, under admin all three, under anything else nothing; and a request for one
   * permission on a listed repository is granted whenever the limit admits it.
   */
  lemma LevelsGranted(repo: string, name: string, limit: string, level: string)
    ensures
      var cap := TokenCap([Text.Lower(repo)], None, Some(map[name := limit]));
      var r := Request(Some([repo]), Some(map[name := Str(level)]));
      && (Granted([cap], r) == Ok(r) <==>
            match limit
            case "read" => level == "read"
            case "write" => level == "read" || level == "write"
            case "admin" => level == "read" || level == "write" || level == "admin"
            case _ => false)
      && (Granted([cap], r) == Ok(r) || Granted([cap], r) == Err(OutsideTheCap))
  {
    var cap := TokenCap([Text.Lower(repo)], None, Some(map[name := limit]));
    var r := Request(Some([repo]), Some(map[name := Str(level)]));
    assert [cap][..0] == [] && Fitting([cap], r) == if Fits(cap, r) then [cap] else [];
    FitsAsAsked(cap, r);
    assert r.permissions.value[name] == Str(level);
    assert Text.Lower(repo) in cap.repositories;
    assert Fits(cap, r) <==> Admits(limit, level);
  }

  lemma TwoFit(caps: seq<TokenCap>, r: Request)
    ensures |Fitting(caps, r)| > 1 <==> exists i, j :: 0 <= i < j < |caps| && Fits(caps[i], r) && Fits(caps[j], r)
  {
    if |Fitting(caps, r)| > 1 {
      var i, j := TwoPositions(caps, r);
    }
    if i, j :| 0 <= i < j < |caps| && Fits(caps[i], r) && Fits(caps[j], r) {
      TwoPositionsSuffice(caps, r, i, j);
    }
  }

  lemma {:induction false} TwoPositions(caps: seq<TokenCap>, r: Request) returns (i: nat, j: nat)
    requires |Fitting(caps, r)| > 1
    ensures i < j < |caps| && Fits(caps[i], r) && Fits(caps[j], r)
  {
    var last := |caps| - 1;
    var front := caps[..last];
    if |Fitting(front, r)| > 1 {
      i, j := TwoPositions(front, r);
    } else {
      FittingFits(front, r);
      var c := Fitting(front, r)[0];
      assert c in Fitting(front, r);
      i :| 0 <= i < |front| && front[i] == c;
      j := last;
    }
  }

  lemma {:induction false} TwoPositionsSuffice(caps: seq<TokenCap>, r: Request, i: nat, j: nat)
    requires i < j < |caps| && Fits(caps[i], r) && Fits(caps[j], r)
    ensures |Fitting(caps, r)| > 1
  {
    var last := |caps| - 1;
    var front := caps[..last];
    if j < last {
      TwoPositionsSuffice(front, r, i, j);
    } else {
      FittingFits(front, r);
      var c := front[i];
      assert c in front && c in Fitting(front, r);
    }
  }

  lemma {:induction false} FittingMultiset(caps: seq<TokenCap>, r: Request, c: TokenCap)
    ensures multiset(Fitting(caps, r))[c] == if Fits(c, r) then multiset(caps)[c] else 0
  {
    if caps != [] {
      var last := |caps| - 1;
      FittingMultiset(caps[..last], r, c);
      assert caps == caps[..last] + [caps[last]];
    }
  }

  /** The answer is the same for every ordering of the caps. */
  lemma OrderDoesNotMatter(caps: seq<TokenCap>, other: seq<TokenCap>, r: Request)
    requires multiset(caps) == multiset(other)
    ensures Granted(caps, r) == Granted(other, r)
  {
    assert |caps| == |multiset(caps)| == |other|;
    var f, g := Fitting(caps, r), Fitting(other, r);
    forall c ensures multiset(f)[c] == multiset(g)[c] {
      FittingMultiset(caps, r, c);
      FittingMultiset(other, r, c);
    }
    assert multiset(f) == multiset(g);
    assert |f| == |multiset(f)| == |g|;
    FittingFits(caps, r);
    FittingFits(other, r);
    if |f| == 1 {
      assert f[0] in multiset(f) && multiset(g) == multiset{g[0]} by { assert g == [g[0]]; }
    }
  }

  /** Naming both arguments, a caller gets back exactly the request, and needs only one fitting cap. */
  lemma NamedRequestIsAllOrNothing(caps: seq<TokenCap>, r: Request)
    requires caps != [] && !LeavesOut(r)
    ensures Granted(caps, r) == Ok(r) || Granted(caps, r).Err?
    ensures Granted(caps, r) == Ok(r) <==> exists c :: c in caps && Fits(c, r)
  {
    FittingFits(caps, r);
    if Fitting(caps, r) != [] {
      assert Fitting(caps, r)[0] in Fitting(caps, r);
    }
    if c :| c in caps && Fits(c, r) {
      assert c in Fitting(caps, r);
    }
  }

  predicate Distinct(caps: seq<TokenCap>)
  {
    forall i, j | 0 <= i < j < |caps| :: caps[i] != caps[j]
  }

  /** With no cap listed twice, an omitted argument is filled in exactly when one single cap fits. */
  lemma OmittedNeedsOneFit(caps: seq<TokenCap>, r: Request)
    requires caps != [] && Distinct(caps) && LeavesOut(r)
    ensures Granted(caps, r).Ok? <==> exists c :: c in caps && Fits(c, r) && forall d | d in caps && Fits(d, r) :: d == c
  {
    RefusedExactly(caps, r);
    if Granted(caps, r).Ok? {
      var i :| 0 <= i < |caps| && Fits(caps[i], r);
      forall d | d in caps && Fits(d, r) ensures d == caps[i] {
        var j :| 0 <= j < |caps| && caps[j] == d;
        assert Fits(caps[j], r);
        assert i == j;
      }
      assert caps[i] in caps;
    }
  }
}
