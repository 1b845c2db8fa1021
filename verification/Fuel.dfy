/** The fuel of the reference semantics only says how long to look: a run that comes to
    an end with n units comes to the same end with any more of them. */
module Fuel {
  import opened Options
  import opened Syntax
  import opened SymbolTables
  import opened BigStep

  lemma {:induction false} EvalMore(n: nat, e: Expr, st: Store, k: nat)
    requires Good(st, k) && Eval(n, e, st, k).0 != Halt(OutOfFuel)
    ensures Eval(n + 1, e, st, k) == Eval(n, e, st, k)
    decreases n, e, 2
  {
    hide WF, Ext, EvalAll, Invoke, RunComp;
    match e
    case Op(_, l, r) =>
      EvalMore(n, l, st, k);
      var (a, s1) := Eval(n, l, st, k);
      if a.Ok? { EvalMore(n, r, s1, k); }
    case ListLit(es) => EvalAllMore(n, es, st, k);
    case Call(f, args) =>
      EvalMore(n, f, st, k);
      var (fv, s1) := Eval(n, f, st, k);
      if fv.Ok? {
        EvalAllMore(n, args, s1, k);
        var (vs, s2) := EvalAll(n, args, s1, k);
        if vs.Ok? { InvokeMore(n, e, fv.v, vs.v, s2); }
      }
    case Comp(_, _) => RunCompMore(n, e, st, k);
    case _ =>
  }

  lemma {:induction false} EvalAllMore(n: nat, es: seq<Expr>, st: Store, k: nat)
    requires Good(st, k) && EvalAll(n, es, st, k).0 != Halt(OutOfFuel)
    ensures EvalAll(n + 1, es, st, k) == EvalAll(n, es, st, k)
    decreases n, es, 0
  {
    hide WF, Ext, Eval;
    if es != [] {
      EvalMore(n, es[0], st, k);
      var (v, s1) := Eval(n, es[0], st, k);
      if v.Ok? { EvalAllMore(n, es[1..], s1, k); }
    }
  }

  lemma {:induction false} InvokeMore(n: nat, e: Expr, fv: Value, vs: seq<Value>, st: Store)
    requires WF(st) && Invoke(n, e, fv, vs, st).0 != Halt(OutOfFuel)
    ensures Invoke(n + 1, e, fv, vs, st) == Invoke(n, e, fv, vs, st)
    decreases n, e, 1
  {
    hide Ext, Activate;
    if fv.Func? && fv.fid < |st.funcs| {
      var fo := st.funcs[fv.fid];
      ActivateMore(n, e, fo, vs, Enter(st, fo.k));
    }
  }

  lemma {:induction false} ActivateMore(n: nat, e: Expr, fo: FuncObj, vs: seq<Value>, s1: Store)
    requires Good(s1, fo.k) && n > 0 && s1.defers == [] && Activate(n, e, fo, vs, s1).0 != Halt(OutOfFuel)
    ensures Activate(n + 1, e, fo, vs, s1) == Activate(n, e, fo, vs, s1)
    decreases n, e, 0
  {
    hide WF, Ext, RunList, RunDefers, SetEntries;
    if |vs| == |fo.params| {
      var s2 := SetEntries(s1, fo.k, fo.params, vs);
      RunListMore(n - 1, fo.ss, s2, fo.k, false);
      var (o, s3) := RunList(n - 1, fo.ss, s2, fo.k, false);
      if !o.Stuck? { RunDefersMore(n - 1, s3, false); }
    }
  }

  lemma {:induction false} RunDefersMore(n: nat, st: Store, root: bool)
    requires WF(st) && RunDefers(n, st, root).0 != Some(OutOfFuel)
    ensures RunDefers(n + 1, st, root) == RunDefers(n, st, root)
    decreases n
  {
    hide WF, Ext, RunStmt, RunDefers;
    if st.defers == [] || n == 0 {
      DefersNone(n, st, root);
      DefersNone(n + 1, st, root);
    } else {
      DefersStep(n - 1, st, root);
      DefersStep(n, st, root);
      var d := st.defers[|st.defers| - 1];
      RunStmtMore(n - 1, d.s, st, d.k, root);
      var (o, s1) := RunStmt(n - 1, d.s, st, d.k, root);
      if !o.Raised? && !o.Stuck? {
        RunDefersMore(n - 1, s1.(defers := s1.defers[..|s1.defers| - 1]), root);
      }
    }
  }

  lemma {:induction false} RunCompMore(n: nat, e: Expr, st: Store, k: nat)
    requires Good(st, k) && e.Comp? && RunComp(n, e, st, k).0 != Halt(OutOfFuel)
    ensures RunComp(n + 1, e, st, k) == RunComp(n, e, st, k)
    decreases n, e, 0
  {
    hide WF, Ext, RunStmt, Nest, AccInit;
    if e.clauses != [] {
      RunStmtMore(n - 1, Nest(e.clauses, e.res), AccInit(Push(st, k, ScopeTable), k), k, false);
    }
  }

  lemma {:induction false} AssignStmtMore(n: nat, xs: seq<string>, es: seq<Expr>, g: bool, st: Store, k: nat)
    requires Good(st, k) && AssignStmt(n, xs, es, g, st, k).0 != Stuck(OutOfFuel)
    ensures AssignStmt(n + 1, xs, es, g, st, k) == AssignStmt(n, xs, es, g, st, k)
    decreases n, es, 1
  {
    hide WF, Ext, EvalAll, AssignAll;
    EvalAllMore(n, es, st, k);
  }

  lemma {:induction false} RunListMore(n: nat, ss: seq<Stmt>, st: Store, k: nat, root: bool)
    requires Good(st, k) && RunList(n, ss, st, k, root).0 != Stuck(OutOfFuel)
    ensures RunList(n + 1, ss, st, k, root) == RunList(n, ss, st, k, root)
    decreases n, ss, 0
  {
    hide WF, Ext, RunStmt;
    if ss != [] {
      RunStmtMore(n, ss[0], st, k, root);
      var (o, s1) := RunStmt(n, ss[0], st, k, root);
      if o.Normal? { RunListMore(n, ss[1..], s1, k, root); }
    }
  }

  lemma {:induction false} RunStmtMore(n: nat, s: Stmt, st: Store, k: nat, root: bool)
    requires Good(st, k) && RunStmt(n, s, st, k, root).0 != Stuck(OutOfFuel)
    ensures RunStmt(n + 1, s, st, k, root) == RunStmt(n, s, st, k, root)
    decreases n, s, 3
  {
    hide WF, Ext, RunValue, RunAppend, AssignStmt, RunIf, RunWhile, RunForIn, RunTry, Declare, PushDefer;
    var s1 := Push(st, k, ScopeTable);
    match s
    case Assign(xs, es) => AssignStmtMore(n, xs, es, false, st, k);
    case Global(xs, es) => if root { AssignStmtMore(n, xs, es, true, st, k); }
    case If(_, _, _) => RunIfMore(n, s, s1, k);
    case While(_, _) => RunWhileMore(n, s, s1, k);
    case ForIn(_, _, _) => RunForInMore(n, s, s1, k);
    case Try(_, _) => RunTryMore(n, s, s1, k);
    case Block(ss) => RunListMore(n, ss, st, k, false);
    case Append(_) => RunAppendMore(n, s, st, k);
    case FuncDecl(_, _, _) =>
    case Break =>
    case Continue =>
    case Defer(_) =>
    case _ => RunValueMore(n, s, st, k);
  }

  lemma {:induction false} RunValueMore(n: nat, s: Stmt, st: Store, k: nat)
    requires Good(st, k) && (s.Do? || s.Print? || s.Return? || s.Throw?) && RunValue(n, s, st, k).0 != Stuck(OutOfFuel)
    ensures RunValue(n + 1, s, st, k) == RunValue(n, s, st, k)
    decreases n, s, 2
  {
    hide WF, Ext, Eval, PutOnFuncs;
    EvalMore(n, s.e, st, k);
  }

  lemma {:induction false} RunAppendMore(n: nat, s: Stmt, st: Store, k: nat)
    requires Good(st, k) && s.Append? && RunAppend(n, s, st, k).0 != Stuck(OutOfFuel)
    ensures RunAppend(n + 1, s, st, k) == RunAppend(n, s, st, k)
    decreases n, s, 2
  {
    hide WF, Ext, Eval;
    if Lookup(st, k, COMP_NAME).Some? { EvalMore(n, s.e, st, k); }
  }

  lemma {:induction false} EvalCondMore(n: nat, e: Expr, st: Store, k: nat)
    requires Good(st, k) && EvalCond(n, e, st, k).0 != Halt(OutOfFuel)
    ensures EvalCond(n + 1, e, st, k) == EvalCond(n, e, st, k)
    decreases n, e, 3
  {
    hide WF, Ext, Eval;
    EvalMore(n, e, st, k);
  }

  lemma {:induction false} RunIfMore(n: nat, s: Stmt, st: Store, k: nat)
    requires Good(st, k) && s.If? && RunIf(n, s, st, k).0 != Stuck(OutOfFuel)
    ensures RunIf(n + 1, s, st, k) == RunIf(n, s, st, k)
    decreases n, s, 2
  {
    hide WF, Ext, EvalCond, RunList, RunStmt;
    EvalCondMore(n, s.cond, st, k);
    var (b, s1) := EvalCond(n, s.cond, st, k);
    if b.Ok? {
      if b.v {
        RunListMore(n, s.ss, s1, k, false);
      } else {
        match s.els
        case NoElse =>
        case ElseBlock(es) => RunListMore(n, es, s1, k, false);
        case ElseIf(s') => if s'.If? { RunStmtMore(n, s', s1, k, false); }
      }
    }
  }

  lemma {:induction false} RunBodyMore(n: nat, ss: seq<Stmt>, st: Store, k: nat)
    requires Good(st, k) && RunBody(n, ss, st, k).0 != Stuck(OutOfFuel)
    ensures RunBody(n + 1, ss, st, k) == RunBody(n, ss, st, k)
    decreases n, ss, 1
  {
    hide WF, Ext, RunList;
    RunListMore(n, ss, Push(st, k, ScopeTable), k, false);
  }

  lemma {:induction false} RunWhileMore(n: nat, s: Stmt, st: Store, k: nat)
    requires Good(st, k) && s.While? && RunWhile(n, s, st, k).0 != Stuck(OutOfFuel)
    ensures RunWhile(n + 1, s, st, k) == RunWhile(n, s, st, k)
    decreases n, s, 2
  {
    hide WF, Ext, EvalCond, RunBody;
    EvalCondMore(n, s.cond, st, k);
    var (b, s1) := EvalCond(n, s.cond, st, k);
    if b.Ok? && b.v {
      RunBodyMore(n, s.ss, s1, k);
      var (o, s2) := RunBody(n, s.ss, s1, k);
      if o.Normal? || o.Continued? { RunWhileMore(n - 1, s, s2, k); }
    }
  }

  lemma {:induction false} RunForInMore(n: nat, s: Stmt, st: Store, k: nat)
    requires Good(st, k) && s.ForIn? && RunForIn(n, s, st, k).0 != Stuck(OutOfFuel)
    ensures RunForIn(n + 1, s, st, k) == RunForIn(n, s, st, k)
    decreases n, s, 2
  {
    hide WF, Ext, EvalAll, RunRows;
    EvalAllMore(n, s.tests, st, k);
    var (vs, s1) := EvalAll(n, s.tests, st, k);
    if vs.Ok? && |vs.v| > 0 && AllLists(vs.v) { RunRowsMore(n, s, vs.v, 0, s1, k); }
  }

  lemma {:induction false} RunRowsMore(n: nat, s: Stmt, vs: seq<Value>, p: nat, st: Store, k: nat)
    requires Good(st, k) && s.ForIn? && |vs| > 0 && AllLists(vs) && RunRows(n, s, vs, p, st, k).0 != Stuck(OutOfFuel)
    ensures RunRows(n + 1, s, vs, p, st, k) == RunRows(n, s, vs, p, st, k)
    decreases n, s, 1, |vs[0].elems| - p
  {
    hide WF, Ext, RunRow;
    if HasRow(vs, p) {
      RunRowMore(n, s, Row(vs, p), st, k);
      var (o, s1) := RunRow(n, s, Row(vs, p), st, k);
      if o.Normal? || o.Continued? { RunRowsMore(n, s, vs, p + 1, s1, k); }
    }
  }

  lemma {:induction false} RunRowMore(n: nat, s: Stmt, row: seq<Value>, st: Store, k: nat)
    requires Good(st, k) && s.ForIn? && RunRow(n, s, row, st, k).0 != Stuck(OutOfFuel)
    ensures RunRow(n + 1, s, row, st, k) == RunRow(n, s, row, st, k)
    decreases n, s, 0
  {
    hide WF, Ext, AssignAll, RunBody;
    var (x, s1) := AssignAll(st, k, s.vars, row, false);
    if x.None? { RunBodyMore(n, s.ss, s1, k); }
  }

  lemma {:induction false} RunTryMore(n: nat, s: Stmt, st: Store, k: nat)
    requires Good(st, k) && s.Try? && RunTry(n, s, st, k).0 != Stuck(OutOfFuel)
    ensures RunTry(n + 1, s, st, k) == RunTry(n, s, st, k)
    decreases n, s, 2
  {
    hide WF, Ext, RunList, RunCatches;
    RunListMore(n, s.ss, st, k, false);
    var (o, s1) := RunList(n, s.ss, st, k, false);
    if o.Raised? { RunCatchesMore(n, s, 0, o.x, s1, k); }
  }

  lemma {:induction false} RunCatchesMore(n: nat, s: Stmt, i: nat, x: Exn, st: Store, k: nat)
    requires Good(st, k) && s.Try? && i <= |s.catches| && RunCatches(n, s, i, x, st, k).0 != Stuck(OutOfFuel)
    ensures RunCatches(n + 1, s, i, x, st, k) == RunCatches(n, s, i, x, st, k)
    decreases n, s, 1, |s.catches| - i
  {
    hide WF, Ext, EvalAll, RunList;
    if i < |s.catches| {
      var h := s.catches[i];
      EvalAllMore(n, h.pats, st, k);
      var (ps, s1) := EvalAll(n, h.pats, st, k);
      if ps.Ok? {
        if InstanceOfAny(ExnValue(x), ps.v) {
          RunListMore(n, h.ss, if h.bind.Some? then InsertEntry(s1, k, h.bind.value, ExnValue(x)) else s1, k, false);
        } else {
          RunCatchesMore(n, s, i + 1, x, s1, k);
        }
      }
    }
  }

  /** Whole programs: two amounts of fuel that both suffice give the same end. */
  lemma {:induction false} ProgramMore(n: nat, m: nat, ss: seq<Stmt>)
    requires n <= m && RunProgram(n, ss).0 != Stuck(OutOfFuel)
    ensures RunProgram(m, ss) == RunProgram(n, ss)
    decreases m - n
  {
    hide Ext, RunList, RunDefers;
    if n < m {
      var (o, s1) := RunList(n, ss, EMPTY, 0, true);
      RunListMore(n, ss, EMPTY, 0, true);
      if !o.Stuck? { RunDefersMore(n, s1, true); }
      ProgramMore(n + 1, m, ss);
    }
  }
}
