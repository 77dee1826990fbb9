/** check_doc_inventory.py: which documents the hub reaches, and which links lead nowhere. */
module DocInventory {
  import Text

  // ---- where a link points ----

  /** A segment that names something: not empty, not here, not up. */
  predicate Plain(segment: string)
  {
    segment != "" && segment != "." && segment != ".."
  }

  /** The place reached from `parts` by following the segments; going up from the top stays there. */
  function Walk(parts: seq<string>, segments: seq<string>): seq<string>
    decreases segments
  {
    if segments == [] then parts
    else if segments[0] == ".." then Walk(if parts == [] then [] else parts[..|parts| - 1], segments[1..])
    else if Plain(segments[0]) then Walk(parts + [segments[0]], segments[1..])
    else Walk(parts, segments[1..])
  }

  /** The directory a document is in: everything before its last segment, "." at the top. */
  function Parent(rel: string): string
  {
    var parts := Text.Split(rel, '/');
    if |parts| == 1 then "." else Text.Join(parts[..|parts| - 1], '/')
  }

  function Raw(base: string, target: string): string
  {
    if base == "." then target else base + "/" + target
  }

  function Normalized(base: string, target: string): string
  {
    Text.Join(Walk([], Text.Split(Raw(base, target), '/')), '/')
  }

  method Normalize(base: string, target: string) returns (path: string)
    ensures path == Normalized(base, target)
  {
    var raw := Raw(base, target);
    var segments := Text.Split(raw, '/');
    var parts: seq<string> := [];
    for i := 0 to |segments|
      invariant Walk(parts, segments[i..]) == Walk([], segments)
    {
      assert segments[i..][0] == segments[i] && segments[i..][1..] == segments[i + 1..];
      if segments[i] == ".." {
        if parts != [] {
          parts := parts[..|parts| - 1];
        }
      } else if segments[i] != "." && segments[i] != "" {
        parts := parts + [segments[i]];
      }
    }
    path := Text.Join(parts, '/');
  }

  lemma {:induction false} WalkIsPlain(parts: seq<string>, segments: seq<string>)
    requires forall p | p in parts :: Plain(p) && '/' !in p
    requires forall p | p in segments :: '/' !in p
    ensures forall p | p in Walk(parts, segments) :: Plain(p) && '/' !in p
    decreases segments
  {
    if segments != [] {
      assert segments[0] in segments && forall p | p in segments[1..] :: p in segments;
      if segments[0] == ".." {
        WalkIsPlain(if parts == [] then [] else parts[..|parts| - 1], segments[1..]);
      } else {
        WalkIsPlain(if Plain(segments[0]) then parts + [segments[0]] else parts, segments[1..]);
      }
    }
  }

  lemma {:induction false} WalkPlain(parts: seq<string>, segments: seq<string>)
    requires forall p | p in segments :: Plain(p)
    ensures Walk(parts, segments) == parts + segments
    decreases segments
  {
    if segments == [] {
      assert parts + segments == parts;
    } else {
      assert segments[0] in segments && forall p | p in segments[1..] :: p in segments;
      WalkPlain(parts + [segments[0]], segments[1..]);
      assert parts + [segments[0]] + segments[1..] == parts + segments;
    }
  }

  lemma {:induction false} WalkOn(parts: seq<string>, a: seq<string>, b: seq<string>)
    ensures Walk(parts, a + b) == Walk(Walk(parts, a), b)
    decreases a
  {
    if a == [] {
      assert a + b == b;
    } else {
      assert (a + b)[0] == a[0] && (a + b)[1..] == a[1..] + b;
      if a[0] == ".." {
        WalkOn(if parts == [] then [] else parts[..|parts| - 1], a[1..], b);
      } else {
        WalkOn(if Plain(a[0]) then parts + [a[0]] else parts, a[1..], b);
      }
    }
  }

  /** Into a directory and out again leads nowhere else. */
  lemma UpUndoesDown(parts: seq<string>, down: string, rest: seq<string>)
    requires Plain(down)
    ensures Walk(parts, [down, ".."] + rest) == Walk(parts, rest)
  {
    var path := [down, ".."] + rest;
    assert path[0] == down && path[1..] == [".."] + rest;
    assert ([".."] + rest)[1..] == rest;
    assert (parts + [down])[..|parts + [down]| - 1] == parts;
  }

  /**
   * A normalised target has no empty, "." or ".." segment (the empty path apart, which has none at all), and
   * normalising it again, from anywhere that does not matter, changes nothing.
   */
  lemma NormalizedIsNormal(base: string, target: string)
    ensures
      var path := Normalized(base, target);
      && (path != "" ==> forall p | p in Text.Split(path, '/') :: Plain(p))
      && Normalized(".", path) == path
  {
    var segments := Text.Split(Raw(base, target), '/');
    var parts := Walk([], segments);
    WalkIsPlain([], segments);
    if parts == [] {
      assert Text.Split("", '/') == [""];
      assert Walk([], [""]) == Walk([], [""][1..]);
    } else {
      Text.SplitJoin(parts, '/');
      WalkPlain([], parts);
      assert [] + parts == parts;
    }
  }

  /** A link in a document is read from the directory the document is in. */
  lemma LinksAreRelative(base: string, target: string)
    requires base != "." && base != "" && forall p | p in Text.Split(base, '/') :: Plain(p)
    ensures Normalized(base, target) == Text.Join(Walk(Text.Split(base, '/'), Text.Split(target, '/')), '/')
  {
    SplitConcat(base, target);
    WalkOn([], Text.Split(base, '/'), Text.Split(target, '/'));
    WalkPlain([], Text.Split(base, '/'));
    assert [] + Text.Split(base, '/') == Text.Split(base, '/');
  }

  /** One more character in front. */
  function Prepended(c: char, parts: seq<string>): seq<string>
    requires parts != []
  {
    if c == '/' then [""] + parts else [[c] + parts[0]] + parts[1..]
  }

  lemma SplitPrepended(c: char, s: string)
    ensures Text.Split([c] + s, '/') == Prepended(c, Text.Split(s, '/'))
  {
    assert ([c] + s)[1..] == s;
  }

  lemma PrependedConcat(c: char, x: seq<string>, y: seq<string>)
    requires x != []
    ensures Prepended(c, x + y) == Prepended(c, x) + y
  {
    assert (x + y)[1..] == x[1..] + y;
  }

  lemma {:induction false} SplitConcat(a: string, b: string)
    ensures Text.Split(a + "/" + b, '/') == Text.Split(a, '/') + Text.Split(b, '/')
  {
    if a == "" {
      assert a + "/" + b == ['/'] + b;
      SplitPrepended('/', b);
    } else {
      assert a + "/" + b == [a[0]] + (a[1..] + "/" + b) && a == [a[0]] + a[1..];
      SplitPrepended(a[0], a[1..] + "/" + b);
      SplitPrepended(a[0], a[1..]);
      SplitConcat(a[1..], b);
      PrependedConcat(a[0], Text.Split(a[1..], '/'), Text.Split(b, '/'));
    }
  }

  // ---- the links of a document ----

  predicate External(target: string)
  {
    Text.HasPrefix(target, "http://") || Text.HasPrefix(target, "https://") || Text.HasPrefix(target, "mailto:") || Text.HasPrefix(target, "/")
  }

  /** The documents that `rel` links to, given the link targets its text holds. */
  function Links(rel: string, targets: seq<string>): set<string>
  {
    set t | t in targets && !External(t) :: Normalized(Parent(rel), t)
  }

  lemma OneMoreLink(rel: string, targets: seq<string>, t: string)
    ensures Links(rel, targets + [t]) == Links(rel, targets) + if External(t) then {} else {Normalized(Parent(rel), t)}
  {
  }

  method MdLinks(rel: string, targets: seq<string>) returns (out: seq<string>)
    ensures (set t | t in out) == Links(rel, targets)
    ensures |out| <= |targets|
  {
    out := [];
    for i := 0 to |targets|
      invariant |out| <= i
      invariant (set t | t in out) == Links(rel, targets[..i])
    {
      assert targets[..i + 1] == targets[..i] + [targets[i]];
      OneMoreLink(rel, targets[..i], targets[i]);
      if !External(targets[i]) {
        var path := Normalize(Parent(rel), targets[i]);
        out := out + [path];
      }
    }
    assert targets[..|targets|] == targets;
  }

  // ---- reachability ----

  /** Everything the texts say: the hub's targets, and each document's. */
  datatype Docs = Docs(universe: set<string>, hub: seq<string>, texts: map<string, seq<string>>)
  {
    predicate Valid()
    {
      universe <= texts.Keys
    }

    function LinksOf(rel: string): set<string>
    {
      if rel in texts then Links(rel, texts[rel]) else {}
    }

    function Seeds(): set<string>
    {
      set h | h in hub && h in universe
    }

    /** No link to a document leads out of the set. */
    predicate Closed(s: set<string>)
    {
      forall d | d in s :: LinksOf(d) * universe <= s
    }

    /** The links of the hub and of every document, reachable or not, that lead to no document. */
    function Dangling(): set<(string, string)>
    {
      (set h | h in hub && h !in universe :: (HUB, h)) + DanglingIn(universe)
    }

    function DanglingIn(docs: set<string>): set<(string, string)>
    {
      set d, t | d in docs && t in LinksOf(d) && t !in universe :: (d, t)
    }

    /** A chain of links from the hub to d. */
    predicate Path(p: seq<string>, d: string)
    {
      && p != [] && p[0] in Seeds() && p[|p| - 1] == d
      && forall i | 0 < i < |p| :: p[i] in universe && p[i] in LinksOf(p[i - 1])
    }
  }

  const HUB := "index.html"

  /** The seeds, and the hub links that lead nowhere. */
  method ReadHub(docs: Docs) returns (seeds: seq<string>, broken: set<(string, string)>)
    ensures (set s | s in seeds) == docs.Seeds()
    ensures broken == set h | h in docs.hub && h !in docs.universe :: (HUB, h)
  {
    seeds, broken := [], {};
    for i := 0 to |docs.hub|
      invariant forall h :: h in seeds <==> h in docs.hub[..i] && h in docs.universe
      invariant broken == set h | h in docs.hub[..i] && h !in docs.universe :: (HUB, h)
    {
      assert docs.hub[..i + 1] == docs.hub[..i] + [docs.hub[i]];
      if docs.hub[i] in docs.universe {
        if docs.hub[i] !in seeds { seeds := seeds + [docs.hub[i]]; }
      } else {
        broken := broken + {(HUB, docs.hub[i])};
      }
    }
    assert docs.hub[..|docs.hub|] == docs.hub;
  }

  /** One document taken off the queue: its links join the queue the first time they are seen. */
  method Expand(docs: Docs, current: string, seen0: set<string>, queue0: seq<string>)
    returns (seen: set<string>, queue: seq<string>, broken: set<(string, string)>)
    requires docs.Valid() && current in docs.universe
    ensures seen == seen0 + docs.LinksOf(current) * docs.universe
    ensures queue0 <= queue && (forall q | q in queue[|queue0|..] :: q in seen - seen0)
    ensures forall q | q in seen - seen0 :: q in queue
    ensures broken == docs.DanglingIn({current})
    ensures seen == seen0 ==> queue == queue0
  {
    var out := MdLinks(current, docs.texts[current]);
    seen, queue, broken := seen0, queue0, {};
    for i := 0 to |out|
      invariant forall t :: t in seen <==> t in seen0 || (t in out[..i] && t in docs.universe)
      invariant queue0 <= queue && (forall q | q in queue[|queue0|..] :: q in seen - seen0)
      invariant forall q | q in seen - seen0 :: q in queue
      invariant forall p :: p in broken <==> p.0 == current && p.1 in out[..i] && p.1 !in docs.universe
      invariant seen == seen0 ==> queue == queue0
    {
      var target := out[i];
      assert out[..i + 1] == out[..i] + [target];
      if target !in docs.universe {
        broken := broken + {(current, target)};
      } else if target !in seen {
        assert (queue + [target])[|queue0|..] == queue[|queue0|..] + [target];
        seen, queue := seen + {target}, queue + [target];
      }
    }
    assert out[..|out|] == out;
    assert forall t :: t in out <==> t in docs.LinksOf(current);
  }

  /** The documents expanded so far: seen and no longer queued. */
  predicate Expanded(docs: Docs, seen: set<string>, queue: seq<string>, broken: set<(string, string)>)
  {
    && (forall d | d in seen && d !in queue :: docs.LinksOf(d) * docs.universe <= seen)
    && (forall d, t | d in seen && d !in queue && t in docs.LinksOf(d) && t !in docs.universe :: (d, t) in broken)
  }

  /**
   * reachable: the documents are exactly the least set that holds the hub's own and is closed under links
   * between documents, and the broken links exactly the dangling ones, wherever they are.
   */
  method Reachable(docs: Docs) returns (seen: set<string>, broken: set<(string, string)>)
    requires docs.Valid()
    ensures docs.Seeds() <= seen <= docs.universe && docs.Closed(seen)
    ensures forall other: set<string> | docs.Seeds() <= other && docs.Closed(other) :: seen <= other
    ensures broken == docs.Dangling()
  {
    var queue: seq<string>;
    queue, broken := ReadHub(docs);
    seen := set q | q in queue;
    ghost var hubBroken := broken;
    while queue != []
      invariant docs.Seeds() <= seen <= docs.universe && forall q | q in queue :: q in seen
      invariant Expanded(docs, seen, queue, broken)
      invariant hubBroken <= broken <= hubBroken + docs.DanglingIn(docs.universe)
      invariant forall other: set<string> | docs.Seeds() <= other && docs.Closed(other) :: seen <= other
      decreases docs.universe - seen, |queue|
    {
      var current := queue[0];
      ghost var before := queue;
      var grown, rest, dangling := Expand(docs, current, seen, queue[1..]);
      assert before == [current] + before[1..];
      seen, queue, broken := grown, rest, broken + dangling;
    }
    var unread := docs.universe - seen;
    while unread != {}
      invariant unread <= docs.universe - seen
      invariant hubBroken <= broken <= hubBroken + docs.DanglingIn(docs.universe)
      invariant forall d, t | d in docs.universe && d !in unread && t in docs.LinksOf(d) && t !in docs.universe :: (d, t) in broken
    {
      var rel :| rel in unread;
      var _, _, dangling := Expand(docs, rel, seen, []);
      broken := broken + dangling;
      unread := unread - {rel};
    }
  }

  /** The least closed set is what chains of links reach. */
  lemma ReachedByLinks(docs: Docs, seen: set<string>, d: string)
    requires docs.Seeds() <= seen <= docs.universe && docs.Closed(seen)
    requires forall other: set<string> | docs.Seeds() <= other && docs.Closed(other) :: seen <= other
    ensures d in seen <==> Linked(docs, d)
  {
    LinkedIsClosed(docs);
    if p :| docs.Path(p, d) {
      PathStaysInside(docs, seen, p, d);
    }
  }

  /** Some chain of links leads from the hub to d. */
  ghost predicate Linked(docs: Docs, d: string)
  {
    exists p :: docs.Path(p, d)
  }

  lemma LinkedIsClosed(docs: Docs)
    ensures docs.Seeds() <= LinkedFrom(docs) && docs.Closed(LinkedFrom(docs))
  {
    forall s | s in docs.Seeds()
      ensures s in LinkedFrom(docs)
    {
      assert docs.Path([s], s);
    }
    forall a, b | a in LinkedFrom(docs) && b in docs.LinksOf(a) * docs.universe
      ensures b in LinkedFrom(docs)
    {
      var p :| docs.Path(p, a);
      assert docs.Path(p + [b], b);
    }
  }

  ghost function LinkedFrom(docs: Docs): set<string>
  {
    set d | d in docs.universe && Linked(docs, d)
  }

  lemma {:induction false} PathStaysInside(docs: Docs, s: set<string>, p: seq<string>, d: string)
    requires docs.Seeds() <= s && docs.Closed(s) && docs.Path(p, d)
    ensures d in s
  {
    if |p| > 1 {
      PathStaysInside(docs, s, p[..|p| - 1], p[|p| - 2]);
      assert p[|p| - 1] in docs.LinksOf(p[|p| - 2]) * docs.universe;
    }
  }
}
