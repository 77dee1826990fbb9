/** check_comment_policy.py: the ledger of comment lines, and what it means that no rule fails. */
module CommentLedger {
  import opened Results

  /** One row: the files it registers, and the number and the fingerprint of their lines. */
  datatype Row = Row(date: string, paths: seq<string>, lines: int, fingerprint: string)

  /** How one kind of comment is measured: the lines of a file, and the fingerprint of some files together. */
  datatype Surface = Surface(lines: string -> nat, fingerprint: seq<string> -> string, applies: string -> bool)

  datatype Failure =
    | EmptyRange(row: string)
    | OutOfScope(row: string, path: string)
    | Inapplicable(row: string, path: string)
    | RegisteredTwice(path: string, first: string, second: string)
    | LinesDiffer(row: string, measured: nat)
    | FingerprintDiffers(row: string)
    | Unregistered(paths: set<string>)
    | Ghosts(paths: set<string>)

  /** The lines of these files together; a file listed twice counts twice. */
  function Measure(s: Surface, paths: seq<string>): nat
  {
    if paths == [] then 0 else s.lines(paths[0]) + Measure(s, paths[1..])
  }

  function Registered(rows: seq<Row>): int
  {
    if rows == [] then 0 else rows[0].lines + Registered(rows[1..])
  }

  // ---- the three passes over the rows ----

  function PathFailures(row: string, paths: seq<string>, inScope: set<string>, s: Surface): seq<Failure>
  {
    if paths == [] then []
    else
      (if paths[0] !in inScope then [OutOfScope(row, paths[0])]
       else if !s.applies(paths[0]) then [Inapplicable(row, paths[0])] else [])
      + PathFailures(row, paths[1..], inScope, s)
  }

  function ExistenceFailures(rows: seq<Row>, inScope: set<string>, s: Surface): seq<Failure>
  {
    if rows == [] then []
    else
      (if rows[0].paths == [] then [EmptyRange(rows[0].date)] else [])
      + PathFailures(rows[0].date, rows[0].paths, inScope, s) + ExistenceFailures(rows[1..], inScope, s)
  }

  /** Every registration, in the order of the ledger. */
  function Entries(rows: seq<Row>): seq<(string, string)>
  {
    if rows == [] then [] else RowEntries(rows[0]) + Entries(rows[1..])
  }

  function RowEntries(row: Row): seq<(string, string)>
  {
    seq(|row.paths|, i requires 0 <= i < |row.paths| => (row.paths[i], row.date))
  }

  /** The row that registered the path first. */
  function FirstRow(entries: seq<(string, string)>, path: string): Option<string>
  {
    if entries == [] then None else if entries[0].0 == path then Some(entries[0].1) else FirstRow(entries[1..], path)
  }

  /** Every registration after the first of its path. */
  function Repeats(entries: seq<(string, string)>): seq<Failure>
  {
    if entries == [] then []
    else
      var front, last := entries[..|entries| - 1], entries[|entries| - 1];
      Repeats(front) + match FirstRow(front, last.0)
                       case Some(first) => [RegisteredTwice(last.0, first, last.1)]
                       case None => []
  }

  function Present(paths: seq<string>, inScope: set<string>): seq<string>
  {
    if paths == [] then [] else (if paths[0] in inScope then [paths[0]] else []) + Present(paths[1..], inScope)
  }

  function MeasureFailures(rows: seq<Row>, inScope: set<string>, s: Surface): seq<Failure>
  {
    if rows == [] then []
    else
      var present := Present(rows[0].paths, inScope);
      (if Measure(s, present) != rows[0].lines then [LinesDiffer(rows[0].date, Measure(s, present))] else [])
      + (if s.fingerprint(present) != rows[0].fingerprint then [FingerprintDiffers(rows[0].date)] else [])
      + MeasureFailures(rows[1..], inScope, s)
  }

  /** The files the rows register. */
  function Paths(rows: seq<Row>): seq<string>
  {
    if rows == [] then [] else rows[0].paths + Paths(rows[1..])
  }

  /** A file with lines that no row registers, or a row's file that is not measured. */
  function ScopeFailures(rows: seq<Row>, measured: map<string, nat>): seq<Failure>
  {
    var missing := set rel | rel in measured && measured[rel] > 0 && rel !in Paths(rows);
    var ghosts := set rel | rel in Paths(rows) && rel !in measured;
    (if missing != {} then [Unregistered(missing)] else []) + (if ghosts != {} then [Ghosts(ghosts)] else [])
  }

  lemma {:induction false} FirstRowAppend(entries: seq<(string, string)>, e: (string, string), path: string)
    ensures FirstRow(entries + [e], path) ==
      if FirstRow(entries, path).Some? then FirstRow(entries, path) else if e.0 == path then Some(e.1) else None
  {
    if entries == [] {
      assert entries + [e] == [e] && [e][1..] == [];
    } else {
      assert (entries + [e])[1..] == entries[1..] + [e];
      FirstRowAppend(entries[1..], e, path);
    }
  }

  lemma RepeatsAppend(entries: seq<(string, string)>, e: (string, string))
    ensures Repeats(entries + [e]) == Repeats(entries) + match FirstRow(entries, e.0)
                                                         case Some(first) => [RegisteredTwice(e.0, first, e.1)]
                                                         case None => []
  {
    assert (entries + [e])[..|entries + [e]| - 1] == entries;
  }

  lemma {:induction false} EntriesAppend(rows: seq<Row>, row: Row)
    ensures Entries(rows + [row]) == Entries(rows) + RowEntries(row)
  {
    if rows == [] {
      assert rows + [row] == [row] && [row][1..] == [];
    } else {
      assert (rows + [row])[1..] == rows[1..] + [row];
      EntriesAppend(rows[1..], row);
    }
  }

  /** The map holds the first row of every path registered so far. */
  ghost predicate Remembers(seen: map<string, string>, entries: seq<(string, string)>)
  {
    forall p :: FirstRow(entries, p) == if p in seen then Some(seen[p]) else None
  }

  lemma RemembersMore(seen: map<string, string>, entries: seq<(string, string)>, e: (string, string))
    requires Remembers(seen, entries)
    ensures Remembers(if e.0 in seen then seen else seen[e.0 := e.1], entries + [e])
  {
    forall p
      ensures FirstRow(entries + [e], p) == if p in (if e.0 in seen then seen else seen[e.0 := e.1]) then Some((if e.0 in seen then seen else seen[e.0 := e.1])[p]) else None
    {
      FirstRowAppend(entries, e, p);
    }
  }

  class Checker {
    var failures: seq<Failure>

    constructor ()
      ensures failures == []
    {
      failures := [];
    }

    method CheckPaths(row: Row, inScope: set<string>, s: Surface)
      modifies this
      ensures failures == old(failures) + PathFailures(row.date, row.paths, inScope, s)
    {
      assert row.paths[0..] == row.paths;
      for j := 0 to |row.paths|
        invariant failures + PathFailures(row.date, row.paths[j..], inScope, s) == old(failures) + PathFailures(row.date, row.paths, inScope, s)
      {
        var rel := row.paths[j];
        assert row.paths[j..][0] == rel && row.paths[j..][1..] == row.paths[j + 1..];
        if rel !in inScope {
          failures := failures + [OutOfScope(row.date, rel)];
        } else if !s.applies(rel) {
          failures := failures + [Inapplicable(row.date, rel)];
        }
      }
    }

    /** The existence pass. */
    method CheckExistence(rows: seq<Row>, inScope: set<string>, s: Surface)
      modifies this
      ensures failures == old(failures) + ExistenceFailures(rows, inScope, s)
    {
      assert rows[0..] == rows;
      for i := 0 to |rows|
        invariant failures + ExistenceFailures(rows[i..], inScope, s) == old(failures) + ExistenceFailures(rows, inScope, s)
      {
        var row := rows[i];
        assert rows[i..][0] == row && rows[i..][1..] == rows[i + 1..];
        if row.paths == [] {
          failures := failures + [EmptyRange(row.date)];
        }
        CheckPaths(row, inScope, s);
      }
    }

    /** One row of the duplicate pass: `seen` remembers the first row of each path. */
    method RegisterRow(row: Row, seen0: map<string, string>, ghost done: seq<(string, string)>)
      returns (seen: map<string, string>, ghost extra: seq<Failure>)
      requires Remembers(seen0, done)
      modifies this
      ensures Remembers(seen, done + RowEntries(row))
      ensures failures == old(failures) + extra && Repeats(done + RowEntries(row)) == Repeats(done) + extra
    {
      seen, extra := seen0, [];
      ghost var own := RowEntries(row);
      assert done + own[..0] == done;
      for j := 0 to |row.paths|
        invariant Remembers(seen, done + own[..j])
        invariant failures == old(failures) + extra && Repeats(done + own[..j]) == Repeats(done) + extra
      {
        var rel := row.paths[j];
        ghost var here := done + own[..j];
        assert done + own[..j + 1] == here + [own[j]];
        RepeatsAppend(here, own[j]);
        RemembersMore(seen, here, own[j]);
        if rel in seen {
          extra := extra + [RegisteredTwice(rel, seen[rel], row.date)];
          failures := failures + [RegisteredTwice(rel, seen[rel], row.date)];
        } else {
          seen := seen[rel := row.date];
        }
      }
      assert own[..|row.paths|] == own;
    }

    method CheckDuplicates(rows: seq<Row>)
      modifies this
      ensures failures == old(failures) + Repeats(Entries(rows))
    {
      var seen: map<string, string> := map[];
      ghost var found: seq<Failure> := [];
      assert Entries(rows[..0]) == [];
      for i := 0 to |rows|
        invariant failures == old(failures) + found && found == Repeats(Entries(rows[..i]))
        invariant Remembers(seen, Entries(rows[..i]))
      {
        ghost var extra;
        seen, extra := RegisterRow(rows[i], seen, Entries(rows[..i]));
        assert rows[..i + 1] == rows[..i] + [rows[i]];
        EntriesAppend(rows[..i], rows[i]);
        found := found + extra;
      }
      assert rows[..|rows|] == rows;
    }

    /** The re-measuring pass. */
    method CheckMeasures(rows: seq<Row>, inScope: set<string>, s: Surface)
      modifies this
      ensures failures == old(failures) + MeasureFailures(rows, inScope, s)
    {
      assert rows[0..] == rows;
      for i := 0 to |rows|
        invariant failures + MeasureFailures(rows[i..], inScope, s) == old(failures) + MeasureFailures(rows, inScope, s)
      {
        var row := rows[i];
        assert rows[i..][0] == row && rows[i..][1..] == rows[i + 1..];
        var present := Present(row.paths, inScope);
        if Measure(s, present) != row.lines {
          failures := failures + [LinesDiffer(row.date, Measure(s, present))];
        }
        if s.fingerprint(present) != row.fingerprint {
          failures := failures + [FingerprintDiffers(row.date)];
        }
      }
    }

    /** check_ledger: the three passes in order, and the sum of what the rows register. */
    method CheckLedger(rows: seq<Row>, inScope: set<string>, s: Surface) returns (sum: int)
      modifies this
      ensures failures == old(failures) + ExistenceFailures(rows, inScope, s) + Repeats(Entries(rows)) + MeasureFailures(rows, inScope, s)
      ensures sum == Registered(rows)
    {
      CheckExistence(rows, inScope, s);
      CheckDuplicates(rows);
      CheckMeasures(rows, inScope, s);
      sum := 0;
      assert rows[0..] == rows;
      for i := 0 to |rows|
        invariant sum + Registered(rows[i..]) == Registered(rows)
      {
        assert rows[i..][0] == rows[i] && rows[i..][1..] == rows[i + 1..];
        sum := sum + rows[i].lines;
      }
    }

    /** check_scope. */
    method CheckScope(rows: seq<Row>, measured: map<string, nat>)
      modifies this
      ensures failures == old(failures) + ScopeFailures(rows, measured)
    {
      var registered := set rel | rel in Paths(rows);
      var missing := set rel | rel in measured && measured[rel] > 0 && rel !in registered;
      if missing != {} {
        failures := failures + [Unregistered(missing)];
      }
      var ghosts := registered - measured.Keys;
      assert ghosts == set rel | rel in Paths(rows) && rel !in measured;
      assert missing == set rel | rel in measured && measured[rel] > 0 && rel !in Paths(rows);
      if ghosts != {} {
        failures := failures + [Ghosts(ghosts)];
      }
    }
  }

  // ---- what no failure means ----

  predicate NoRepeats(a: seq<string>)
  {
    forall i, j | 0 <= i < j < |a| :: a[i] != a[j]
  }

  /** Row i registers path p. */
  predicate In(rows: seq<Row>, i: nat, p: string)
  {
    i < |rows| && p in rows[i].paths
  }

  /** A file with comment lines is in one row and no other. */
  ghost predicate InOne(rows: seq<Row>, p: string)
  {
    exists i: nat :: In(rows, i, p) && forall j: nat :: In(rows, j, p) ==> j == i
  }

  lemma {:induction false} NoPathFailures(row: string, paths: seq<string>, inScope: set<string>, s: Surface)
    requires PathFailures(row, paths, inScope, s) == []
    ensures forall p | p in paths :: p in inScope && s.applies(p)
    ensures Present(paths, inScope) == paths
  {
    if paths != [] {
      NoPathFailures(row, paths[1..], inScope, s);
      assert paths == [paths[0]] + paths[1..];
    }
  }

  lemma {:induction false} SoundRows(rows: seq<Row>, inScope: set<string>, s: Surface)
    requires ExistenceFailures(rows, inScope, s) == [] && MeasureFailures(rows, inScope, s) == []
    ensures forall p | p in Paths(rows) :: p in inScope && s.applies(p)
    ensures Registered(rows) == Measure(s, Paths(rows))
    ensures forall i | 0 <= i < |rows| :: rows[i].paths != [] && rows[i].lines == Measure(s, rows[i].paths) && s.fingerprint(rows[i].paths) == rows[i].fingerprint
  {
    if rows != [] {
      NoPathFailures(rows[0].date, rows[0].paths, inScope, s);
      SoundRows(rows[1..], inScope, s);
      MeasureConcat(s, rows[0].paths, Paths(rows[1..]));
      assert forall i | 0 < i < |rows| :: rows[i] == rows[1..][i - 1];
    }
  }

  lemma {:induction false} MeasureConcat(s: Surface, a: seq<string>, b: seq<string>)
    ensures Measure(s, a + b) == Measure(s, a) + Measure(s, b)
  {
    if a == [] {
      assert a + b == b;
    } else {
      assert (a + b)[1..] == a[1..] + b;
      MeasureConcat(s, a[1..], b);
    }
  }

  function Firsts(entries: seq<(string, string)>): seq<string>
  {
    seq(|entries|, i requires 0 <= i < |entries| => entries[i].0)
  }

  lemma {:induction false} PathsAreFirsts(rows: seq<Row>)
    ensures Firsts(Entries(rows)) == Paths(rows)
  {
    if rows != [] {
      PathsAreFirsts(rows[1..]);
      assert Firsts(RowEntries(rows[0])) == rows[0].paths;
      assert Firsts(Entries(rows)) == Firsts(RowEntries(rows[0])) + Firsts(Entries(rows[1..]));
    }
  }

  lemma {:induction false} FirstRowSome(entries: seq<(string, string)>, path: string)
    ensures FirstRow(entries, path).Some? <==> path in Firsts(entries)
  {
    if entries != [] {
      FirstRowSome(entries[1..], path);
      assert Firsts(entries) == [entries[0].0] + Firsts(entries[1..]);
    }
  }

  lemma {:induction false} DistinctEntries(entries: seq<(string, string)>)
    requires Repeats(entries) == []
    ensures NoRepeats(Firsts(entries))
  {
    if entries != [] {
      var front, last := entries[..|entries| - 1], entries[|entries| - 1];
      DistinctEntries(front);
      FirstRowSome(front, last.0);
      assert Firsts(entries) == Firsts(front) + [last.0];
    }
  }

  function Without(b: seq<string>, i: nat): seq<string>
    requires i < |b|
  {
    b[..i] + b[i + 1..]
  }

  lemma OneLess(s: Surface, b: seq<string>, i: nat)
    requires i < |b|
    ensures Measure(s, b) == s.lines(b[i]) + Measure(s, Without(b, i))
  {
    assert b == b[..i] + ([b[i]] + b[i + 1..]) && ([b[i]] + b[i + 1..])[1..] == b[i + 1..];
    MeasureConcat(s, b[..i], [b[i]] + b[i + 1..]);
    MeasureConcat(s, b[..i], b[i + 1..]);
  }

  lemma WithoutMembers(b: seq<string>, i: nat)
    requires i < |b| && NoRepeats(b)
    ensures NoRepeats(Without(b, i))
    ensures forall p :: p in Without(b, i) <==> p in b && p != b[i]
  {
    var rest := Without(b, i);
    forall p | p in b && p != b[i]
      ensures p in rest
    {
      var j: nat :| j < |b| && b[j] == p;
      assert rest[if j < i then j else j - 1] == p;
    }
    forall k: nat | k < |rest|
      ensures rest[k] == b[if k < i then k else k + 1]
    {
    }
  }

  /** Adding up over two lists without repeats that differ in files without lines only. */
  lemma {:induction false} SameTotal(s: Surface, a: seq<string>, b: seq<string>)
    requires NoRepeats(a) && NoRepeats(b)
    requires forall p | p in a :: p in b
    requires forall p | p in b && s.lines(p) > 0 :: p in a
    ensures Measure(s, a) == Measure(s, b)
  {
    if a == [] {
      NothingMeasured(s, b);
    } else {
      assert a[0] in a;
      var i: nat :| i < |b| && b[i] == a[0];
      OneLess(s, b, i);
      WithoutMembers(b, i);
      WithoutMembers(a, 0);
      assert Without(a, 0) == a[1..];
      SameTotal(s, a[1..], Without(b, i));
    }
  }

  lemma {:induction false} NothingMeasured(s: Surface, b: seq<string>)
    requires forall p | p in b :: s.lines(p) == 0
    ensures Measure(s, b) == 0
  {
    if b != [] {
      assert b[0] in b && forall p | p in b[1..] :: p in b;
      NothingMeasured(s, b[1..]);
    }
  }

  /** The files of a surface that are measured, each with its lines. */
  predicate Measured(measured: map<string, nat>, files: seq<string>, s: Surface)
  {
    && NoRepeats(files) && measured.Keys == (set p | p in files)
    && forall p | p in files :: measured[p] == s.lines(p)
  }

  /**
   * Conservation: when no rule of a surface fails, every file with comment lines is in exactly one row, no row
   * has any other file, and the lines the rows register add up to the lines measured.
   */
  lemma NothingFailsNothingIsLost(rows: seq<Row>, inScope: set<string>, files: seq<string>, measured: map<string, nat>, s: Surface)
    requires Measured(measured, files, s)
    requires ExistenceFailures(rows, inScope, s) + Repeats(Entries(rows)) + MeasureFailures(rows, inScope, s) + ScopeFailures(rows, measured) == []
    ensures Registered(rows) == Measure(s, files)
    ensures forall p | p in files && s.lines(p) > 0 :: InOne(rows, p)
    ensures forall i: nat, p | In(rows, i, p) :: p in files
    ensures NoRepeats(Paths(rows))
  {
    SoundRows(rows, inScope, s);
    DistinctEntries(Entries(rows));
    PathsAreFirsts(rows);
    NoScopeFailures(rows, measured);
    SameTotal(s, Paths(rows), files);
    forall p | p in files && s.lines(p) > 0
      ensures InOne(rows, p)
    {
      InOneRow(rows, p);
    }
    forall i: nat, p | In(rows, i, p)
      ensures p in files
    {
      RowPaths(rows, i, p);
    }
  }

  lemma NoScopeFailures(rows: seq<Row>, measured: map<string, nat>)
    requires ScopeFailures(rows, measured) == []
    ensures forall p | p in measured && measured[p] > 0 :: p in Paths(rows)
    ensures forall p | p in Paths(rows) :: p in measured
  {
    var missing := set rel | rel in measured && measured[rel] > 0 && rel !in Paths(rows);
    var ghosts := set rel | rel in Paths(rows) && rel !in measured;
    assert missing == {} && ghosts == {};
    forall p | p in measured && measured[p] > 0
      ensures p in Paths(rows)
    {
      assert p !in missing;
    }
    forall p | p in Paths(rows)
      ensures p in measured
    {
      assert p !in ghosts;
    }
  }

  lemma {:induction false} RowPaths(rows: seq<Row>, i: nat, p: string)
    requires In(rows, i, p)
    ensures p in Paths(rows)
  {
    if i > 0 {
      assert rows[1..][i - 1] == rows[i];
      RowPaths(rows[1..], i - 1, p);
    }
  }

  /** A path registered once is in one row and no other. */
  lemma {:induction false} InOneRow(rows: seq<Row>, p: string)
    requires p in Paths(rows) && NoRepeats(Paths(rows))
    ensures InOne(rows, p)
  {
    if p in rows[0].paths {
      FirstRowOnly(rows, p);
      assert In(rows, 0, p);
    } else {
      RestNoRepeats(rows[0].paths, Paths(rows[1..]));
      InOneRow(rows[1..], p);
      var i: nat :| In(rows[1..], i, p) && forall j: nat :: In(rows[1..], j, p) ==> j == i;
      assert In(rows, i + 1, p);
      forall j: nat | In(rows, j, p)
        ensures j == i + 1
      {
        assert j > 0;
        assert In(rows[1..], j - 1, p);
      }
    }
  }

  lemma RestNoRepeats(a: seq<string>, b: seq<string>)
    requires NoRepeats(a + b)
    ensures NoRepeats(b) && forall p | p in a :: p !in b
  {
    forall x, y | 0 <= x < y < |b|
      ensures b[x] != b[y]
    {
      assert (a + b)[|a| + x] != (a + b)[|a| + y];
    }
    forall x, y | 0 <= x < |a| && 0 <= y < |b|
      ensures a[x] != b[y]
    {
      assert (a + b)[x] != (a + b)[|a| + y];
    }
  }

  lemma FirstRowOnly(rows: seq<Row>, p: string)
    requires rows != [] && p in rows[0].paths && NoRepeats(Paths(rows))
    ensures forall j: nat :: In(rows, j, p) ==> j == 0
  {
    RestNoRepeats(rows[0].paths, Paths(rows[1..]));
    forall j: nat | In(rows, j, p)
      ensures j == 0
    {
      if j > 0 {
        assert In(rows[1..], j - 1, p);
        RowPaths(rows[1..], j - 1, p);
        assert false;
      }
    }
  }

  /**
   * One surface, checked as main checks it: the ledger against the files, and the files, counted line by
   * line, against the ledger. When nothing is added to the failures, the rows account for every line.
   */
  method CheckSurface(checker: Checker, rows: seq<Row>, inScope: set<string>, files: seq<string>, s: Surface) returns (sum: int)
    requires NoRepeats(files) && forall p | p in files :: p in inScope
    modifies checker
    ensures old(checker.failures) <= checker.failures
    ensures checker.failures == old(checker.failures) ==>
      && sum == Measure(s, files)
      && (forall p | p in files && s.lines(p) > 0 :: InOne(rows, p))
      && (forall i: nat, p | In(rows, i, p) :: p in files)
  {
    sum := checker.CheckLedger(rows, inScope, s);
    var measured: map<string, nat> := map rel | rel in files :: 0;
    for i := 0 to |files|
      invariant measured.Keys == set p | p in files
      invariant forall j | 0 <= j < |files| :: measured[files[j]] == if j < i then s.lines(files[j]) else 0
    {
      measured := measured[files[i] := measured[files[i]] + s.lines(files[i])];
    }
    checker.CheckScope(rows, measured);
    if checker.failures == old(checker.failures) {
      NothingFailsNothingIsLost(rows, inScope, files, measured, s);
      forall p | p in files && s.lines(p) > 0
        ensures InOne(rows, p)
      {
      }
    }
  }
}
