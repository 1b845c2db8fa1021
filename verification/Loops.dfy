/** What loops do, said without them: which row or round ends a loop, and how. */
module Loops {
  import opened Options
  import opened Syntax
  import opened SymbolTables
  import opened BigStep
  import opened Expressions

  // ----- for -----

  /** Every list has a p-th element. */
  ghost predicate Reaches(vs: seq<Value>, p: nat) {
    forall j | 0 <= j < |vs| :: vs[j].List? && p < |vs[j].elems|
  }

  /** p is the length of the shortest list. */
  ghost predicate Shortest(vs: seq<Value>, p: nat) {
    && (forall j | 0 <= j < |vs| :: vs[j].List? && p <= |vs[j].elems|)
    && exists j :: 0 <= j < |vs| && vs[j].List? && |vs[j].elems| == p
  }

  /** The p-th elements. */
  ghost function Column(vs: seq<Value>, p: nat): seq<Value>
    requires Reaches(vs, p)
  {
    seq(|vs|, j requires 0 <= j < |vs| => vs[j].elems[p])
  }

  /** Binding one row and running the body. */
  ghost function Iteration(n: nat, xs: seq<string>, ss: seq<Stmt>, row: seq<Value>, st: Store, k: nat)
    : (r: (Outcome, Store))
    requires Good(st, k)
    ensures Good(r.1, k)
  {
    var (x, s1) := AssignAll(st, k, xs, row, false);
    if x.Some? then (Raised(x.value), s1) else RunBody(n, ss, s1, k)
  }

  ghost predicate GoesOn(o: Outcome) { o.Normal? || o.Continued? }

  ghost predicate Leaves(o: Outcome) { o.Returned? || o.Raised? || o.Stuck? }

  /** The rows before the last store of t were all bound and run, from store to store,
      and each let the loop go on. */
  ghost predicate Passed(n: nat, xs: seq<string>, ss: seq<Stmt>, vs: seq<Value>, t: seq<Store>, k: nat) {
    && t != []
    && (forall i | 0 <= i < |t| :: Good(t[i], k))
    && forall i | 0 <= i < |t| - 1 :: PassedRow(n, xs, ss, vs, t, k, i)
  }

  ghost predicate PassedRow(n: nat, xs: seq<string>, ss: seq<Stmt>, vs: seq<Value>, t: seq<Store>, k: nat, i: nat)
    requires i + 1 < |t| && Good(t[i], k)
  {
    && Reaches(vs, i)
    && var (o, e) := Iteration(n, xs, ss, Column(vs, i), t[i], k); GoesOn(o) && e == t[i + 1]
  }

  /** How a for loop ends once the rows before the last store of t have passed: normally
      there if no row is left, normally behind a row that breaks, and otherwise with a row
      that returns, raises or gets stuck. */
  ghost predicate ForEnd(n: nat, xs: seq<string>, ss: seq<Stmt>, vs: seq<Value>, t: seq<Store>, k: nat,
          r: (Outcome, Store))
    requires t != [] && Good(t[|t| - 1], k)
  {
    var p := |t| - 1;
    || (Shortest(vs, p) && r == (Normal, t[p]))
    || (Reaches(vs, p) && BrokeOrLeft(Iteration(n, xs, ss, Column(vs, p), t[p], k), r))
  }

  ghost predicate BrokeOrLeft(row: (Outcome, Store), r: (Outcome, Store)) {
    (row.0.Broke? && r == (Normal, row.1)) || (Leaves(row.0) && r == row)
  }

  lemma RowIs(n: nat, s: Stmt, vs: seq<Value>, p: nat, st: Store, k: nat)
    requires Good(st, k) && s.ForIn? && |vs| > 0 && AllLists(vs)
    ensures Reaches(vs, p) ==>
              var (o, e) := Iteration(n, s.vars, s.ss, Column(vs, p), st, k);
              RunRows(n, s, vs, p, st, k) ==
              if GoesOn(o) then RunRows(n, s, vs, p + 1, e, k) else (if o.Broke? then Normal else o, e)
    ensures Shortest(vs, p) ==> RunRows(n, s, vs, p, st, k) == (Normal, st)
  {
    hide WF, Ext, AssignAll, RunBody;
    if Reaches(vs, p) {
      assert Row(vs, p) == Column(vs, p);
      assert RunRow(n, s, Row(vs, p), st, k) == Iteration(n, s.vars, s.ss, Column(vs, p), st, k);
    }
  }

  lemma {:induction false} PassedRuns(n: nat, s: Stmt, vs: seq<Value>, t: seq<Store>, k: nat)
    requires s.ForIn? && |vs| > 0 && AllLists(vs) && Passed(n, s.vars, s.ss, vs, t, k)
    ensures RunRows(n, s, vs, 0, t[0], k) == RunRows(n, s, vs, |t| - 1, t[|t| - 1], k)
    decreases |t|
  {
    hide WF, RunRows, Iteration, Column, Reaches;
    if |t| > 1 {
      var i := |t| - 2;
      var u := t[..|t| - 1];
      assert Passed(n, s.vars, s.ss, vs, u, k) by {
        forall j | 0 <= j < |u| - 1 ensures PassedRow(n, s.vars, s.ss, vs, u, k, j) {
          assert PassedRow(n, s.vars, s.ss, vs, t, k, j);
        }
      }
      PassedRuns(n, s, vs, u, k);
      assert PassedRow(n, s.vars, s.ss, vs, t, k, i);
      RowIs(n, s, vs, i, t[i], k);
    }
  }

  /** Any rows that passed decide how the loop ends. */
  lemma ForRuns(n: nat, s: Stmt, vs: seq<Value>, t: seq<Store>, k: nat, r: (Outcome, Store))
    requires s.ForIn? && |vs| > 0 && AllLists(vs) && Passed(n, s.vars, s.ss, vs, t, k)
    requires ForEnd(n, s.vars, s.ss, vs, t, k, r)
    ensures RunRows(n, s, vs, 0, t[0], k) == r
  {
    hide WF, RunRows, Iteration, Column, Reaches, Shortest;
    PassedRuns(n, s, vs, t, k);
    RowIs(n, s, vs, |t| - 1, t[|t| - 1], k);
  }

  /** The rows up to the end of a loop. */
  lemma {:induction false} SomeRowsPass(n: nat, xs: seq<string>, ss: seq<Stmt>, vs: seq<Value>, t: seq<Store>, k: nat)
    returns (u: seq<Store>, r: (Outcome, Store))
    requires |vs| > 0 && AllLists(vs) && Passed(n, xs, ss, vs, t, k)
    requires forall j | 0 <= j < |vs| :: |t| - 1 <= |vs[j].elems|
    ensures t <= u && Passed(n, xs, ss, vs, u, k) && ForEnd(n, xs, ss, vs, u, k, r)
    decreases |vs[0].elems| - (|t| - 1)
  {
    hide WF, Iteration, Column;
    var p := |t| - 1;
    if !Reaches(vs, p) {
      return t, (Normal, t[p]);
    }
    var (o, e) := Iteration(n, xs, ss, Column(vs, p), t[p], k);
    if GoesOn(o) {
      var more := t + [e];
      forall i | 0 <= i < |more| - 1 ensures PassedRow(n, xs, ss, vs, more, k, i) {
        if i < p { assert PassedRow(n, xs, ss, vs, t, k, i); }
      }
      u, r := SomeRowsPass(n, xs, ss, vs, more, k);
    } else {
      u, r := t, (if o.Broke? then Normal else o, e);
    }
  }

  ghost predicate ForTrace(n: nat, s: Stmt, vs: seq<Value>, s0: Store, k: nat, t: seq<Store>, r: (Outcome, Store))
    requires s.ForIn?
  {
    Passed(n, s.vars, s.ss, vs, t, k) && t[0] == s0 && ForEnd(n, s.vars, s.ss, vs, t, k, r)
  }

  /** A for statement over lists ends as ForEnd says, behind rows that passed; and whatever
      rows passed from its first store and how it can end behind them, that is its end. */
  lemma ForMeaning(n: nat, s: Stmt, st: Store, k: nat, root: bool, vs: seq<Value>, s0: Store)
    requires Good(st, k) && s.ForIn? && EvalAll(n, s.tests, Push(st, k, ScopeTable), k) == (Ok(vs), s0)
    requires |vs| > 0 && forall j | 0 <= j < |vs| :: vs[j].List?
    ensures exists t, r :: ForTrace(n, s, vs, s0, k, t, r) && Closes(r, k, RunStmt(n, s, st, k, root))
    ensures forall t, r | ForTrace(n, s, vs, s0, k, t, r) :: Closes(r, k, RunStmt(n, s, st, k, root))
  {
    hide WF, Ext, RunRows, EvalAll, RunStmt, ForEnd, Passed;
    ScopedIs(n, s, st, k, root);
    var r0 := RunRows(n, s, vs, 0, s0, k);
    assert RunForIn(n, s, Push(st, k, ScopeTable), k) == r0;
    forall t, r | ForTrace(n, s, vs, s0, k, t, r) ensures r == r0 {
      TraceRuns(n, s, vs, s0, k, t, r);
    }
    var u, r1 := SomeTrace(n, s, vs, s0, k);
  }

  lemma TraceRuns(n: nat, s: Stmt, vs: seq<Value>, s0: Store, k: nat, t: seq<Store>, r: (Outcome, Store))
    requires Good(s0, k) && s.ForIn? && |vs| > 0 && AllLists(vs) && ForTrace(n, s, vs, s0, k, t, r)
    ensures r == RunRows(n, s, vs, 0, s0, k)
  {
    hide WF, RunRows;
    ForRuns(n, s, vs, t, k, r);
  }

  lemma SomeTrace(n: nat, s: Stmt, vs: seq<Value>, s0: Store, k: nat) returns (t: seq<Store>, r: (Outcome, Store))
    requires Good(s0, k) && s.ForIn? && |vs| > 0 && AllLists(vs)
    ensures ForTrace(n, s, vs, s0, k, t, r)
  {
    hide WF;
    FirstRow(n, s.vars, s.ss, vs, s0, k);
    t, r := SomeRowsPass(n, s.vars, s.ss, vs, [s0], k);
  }

  lemma FirstRow(n: nat, xs: seq<string>, ss: seq<Stmt>, vs: seq<Value>, s0: Store, k: nat)
    requires Good(s0, k)
    ensures Passed(n, xs, ss, vs, [s0], k)
  {
  }

  // ----- while -----

  /** The rounds before the last store of t: each time the condition held and the body let
      the loop go on. A round takes one unit of fuel. */
  ghost predicate Rounds(n: nat, c: Expr, ss: seq<Stmt>, t: seq<Store>, k: nat) {
    && 0 < |t| <= n + 1
    && (forall i | 0 <= i < |t| :: Good(t[i], k))
    && forall i | 0 <= i < |t| - 1 :: OneRound(n - i, c, ss, t[i], t[i + 1], k)
  }

  ghost predicate OneRound(n: nat, c: Expr, ss: seq<Stmt>, st: Store, st': Store, k: nat)
    requires Good(st, k)
  {
    && n > 0
    && var (v, s1) := Eval(n, c, st, k);
    v.Ok? && Yes(v.v) && var (o, e) := RunBody(n, ss, s1, k); GoesOn(o) && e == st'
  }

  /** How a while loop ends in the round that starts with st. */
  ghost predicate WhileEnd(n: nat, c: Expr, ss: seq<Stmt>, st: Store, k: nat, r: (Outcome, Store))
    requires Good(st, k)
  {
    var (v, s1) := Eval(n, c, st, k);
    match v
    case Exc(x) => r == (Raised(x), s1)
    case Halt(h) => r == (Stuck(h), s1)
    case Ok(v) =>
      if No(v) then r == (Normal, s1)
      else if !Yes(v) then r == (Raised(Internal("TypeException")), s1)
      else if n == 0 then r == (Stuck(OutOfFuel), s1)
      else BrokeOrLeft(RunBody(n, ss, s1, k), r)
  }

  lemma RoundIs(n: nat, s: Stmt, st: Store, k: nat)
    requires Good(st, k) && s.While?
    ensures forall r: (Outcome, Store) | WhileEnd(n, s.cond, s.ss, st, k, r) :: RunWhile(n, s, st, k) == r
    ensures forall e | OneRound(n, s.cond, s.ss, st, e, k) :: RunWhile(n, s, st, k) == RunWhile(n - 1, s, e, k)
    ensures WhileEnd(n, s.cond, s.ss, st, k, RunWhile(n, s, st, k))
            || (n > 0 && exists e :: Good(e, k) && OneRound(n, s.cond, s.ss, st, e, k))
  {
    hide WF, Ext, Eval, RunBody;
  }

  lemma {:induction false} RoundsRun(n: nat, s: Stmt, t: seq<Store>, k: nat)
    requires s.While? && Rounds(n, s.cond, s.ss, t, k)
    ensures RunWhile(n, s, t[0], k) == RunWhile(n - (|t| - 1), s, t[|t| - 1], k)
    decreases |t|
  {
    hide WF, RunWhile, OneRound;
    if |t| > 1 {
      RoundIs(n, s, t[0], k);
      assert OneRound(n - 0, s.cond, s.ss, t[0], t[1], k);
      forall i | 0 <= i < |t[1..]| - 1 ensures OneRound(n - 1 - i, s.cond, s.ss, t[1..][i], t[1..][i + 1], k) {
        assert OneRound(n - (i + 1), s.cond, s.ss, t[i + 1], t[i + 2], k);
      }
      RoundsRun(n - 1, s, t[1..], k);
    }
  }

  lemma {:induction false} SomeRounds(n: nat, s: Stmt, st: Store, k: nat) returns (t: seq<Store>)
    requires Good(st, k) && s.While?
    ensures Rounds(n, s.cond, s.ss, t, k) && t[0] == st
    ensures WhileEnd(n - (|t| - 1), s.cond, s.ss, t[|t| - 1], k, RunWhile(n, s, st, k))
    decreases n
  {
    hide WF, RunWhile, OneRound, WhileEnd;
    RoundIs(n, s, st, k);
    if WhileEnd(n, s.cond, s.ss, st, k, RunWhile(n, s, st, k)) {
      t := [st];
    } else {
      var e :| Good(e, k) && OneRound(n, s.cond, s.ss, st, e, k);
      var u := SomeRounds(n - 1, s, e, k);
      t := [st] + u;
      forall i | 0 <= i < |t| - 1 ensures OneRound(n - i, s.cond, s.ss, t[i], t[i + 1], k) {
        if i > 0 { assert OneRound(n - 1 - (i - 1), s.cond, s.ss, u[i - 1], u[i], k); }
      }
    }
  }

  ghost predicate WhileTrace(n: nat, s: Stmt, s0: Store, k: nat, t: seq<Store>, r: (Outcome, Store))
    requires s.While?
  {
    && Rounds(n, s.cond, s.ss, t, k) && t[0] == s0
    && WhileEnd(n - (|t| - 1), s.cond, s.ss, t[|t| - 1], k, r)
  }

  /** A while statement ends as WhileEnd says, behind rounds that went on; and whatever
      rounds went on from its first store and how it can end behind them, that is its end. */
  lemma WhileMeaning(n: nat, s: Stmt, st: Store, k: nat, root: bool)
    requires Good(st, k) && s.While?
    ensures var s0 := Push(st, k, ScopeTable);
            && (exists t, r :: WhileTrace(n, s, s0, k, t, r) && Closes(r, k, RunStmt(n, s, st, k, root)))
            && forall t, r | WhileTrace(n, s, s0, k, t, r) :: Closes(r, k, RunStmt(n, s, st, k, root))
  {
    hide WF, Ext, RunWhile, RunStmt, Push, WhileEnd, Rounds;
    var s0 := Push(st, k, ScopeTable);
    ScopedIs(n, s, st, k, root);
    forall t, r | WhileTrace(n, s, s0, k, t, r) ensures r == RunWhile(n, s, s0, k) {
      WhileRuns(n, s, s0, k, t, r);
    }
    var u := SomeRounds(n, s, s0, k);
    RoundsStart(n, s, u, k);
    assert WhileTrace(n, s, s0, k, u, RunWhile(n, s, s0, k));
  }

  lemma RoundsStart(n: nat, s: Stmt, t: seq<Store>, k: nat)
    requires s.While? && Rounds(n, s.cond, s.ss, t, k)
    ensures 0 < |t| <= n + 1 && Good(t[0], k) && Good(t[|t| - 1], k)
  {
  }

  lemma WhileRuns(n: nat, s: Stmt, s0: Store, k: nat, t: seq<Store>, r: (Outcome, Store))
    requires Good(s0, k) && s.While? && WhileTrace(n, s, s0, k, t, r)
    ensures r == RunWhile(n, s, s0, k)
  {
    hide WF, RunWhile, OneRound, WhileEnd;
    RoundsRun(n, s, t, k);
    RoundIs(n - (|t| - 1), s, t[|t| - 1], k);
  }
}
