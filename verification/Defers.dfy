/** The order and number of deferred executions. */
module Defers {
  import opened Options
  import opened Syntax
  import opened SymbolTables
  import opened BigStep

  /** No `defer` occurs in the statement itself; function bodies are other activations. */
  ghost predicate NoDefer(s: Stmt)
    decreases s, 1
  {
    match s
    case Defer(_) => false
    case If(_, ss, els) =>
      && NoDeferIn(ss)
      && (match els case NoElse => true case ElseBlock(es) => NoDeferIn(es) case ElseIf(s') => NoDefer(s'))
    case While(_, ss) => NoDeferIn(ss)
    case ForIn(_, _, ss) => NoDeferIn(ss)
    case Try(ss, cs) => NoDeferIn(ss) && forall i | 0 <= i < |cs| :: NoDeferIn(cs[i].ss)
    case Block(ss) => NoDeferIn(ss)
    case _ => true
  }

  ghost predicate NoDeferIn(ss: seq<Stmt>)
    decreases ss, 0
  {
    forall i | 0 <= i < |ss| :: NoDefer(ss[i])
  }

  // ----- such statements leave the activation's deferred statements as they were -----

  lemma {:induction false} ListKeeps(n: nat, ss: seq<Stmt>, st: Store, k: nat, root: bool)
    requires Good(st, k) && NoDeferIn(ss)
    ensures RunList(n, ss, st, k, root).1.defers == st.defers
    decreases n, ss, 0
  {
    hide WF, Ext, RunStmt;
    if ss != [] {
      var (o, s1) := RunStmt(n, ss[0], st, k, root);
      StmtKeeps(n, ss[0], st, k, root);
      if o.Normal? {
        ListKeeps(n, ss[1..], s1, k, root);
      }
    }
  }

  lemma {:induction false} StmtKeeps(n: nat, s: Stmt, st: Store, k: nat, root: bool)
    requires Good(st, k) && NoDefer(s)
    ensures RunStmt(n, s, st, k, root).1.defers == st.defers
    decreases n, s, 3
  {
    hide WF, Ext, RunValue, RunAppend, AssignStmt, RunIf, RunWhile, RunForIn, RunTry, Declare;
    var s1 := Push(st, k, ScopeTable);
    match s
    case If(_, _, _) => IfKeeps(n, s, s1, k);
    case While(_, _) => WhileKeeps(n, s, s1, k);
    case ForIn(_, _, _) => ForInKeeps(n, s, s1, k);
    case Try(_, _) => TryKeeps(n, s, s1, k);
    case Block(ss) => ListKeeps(n, ss, st, k, false);
    case _ =>
  }

  lemma {:induction false} IfKeeps(n: nat, s: Stmt, st: Store, k: nat)
    requires Good(st, k) && s.If? && NoDefer(s)
    ensures RunIf(n, s, st, k).1.defers == st.defers
    decreases n, s, 2
  {
    hide WF, Ext, EvalCond, RunList, RunStmt;
    var (b, s1) := EvalCond(n, s.cond, st, k);
    if b.Ok? {
      if b.v {
        ListKeeps(n, s.ss, s1, k, false);
      } else {
        match s.els
        case NoElse =>
        case ElseBlock(es) => ListKeeps(n, es, s1, k, false);
        case ElseIf(s') => StmtKeeps(n, s', s1, k, false);
      }
    }
  }

  lemma {:induction false} BodyKeeps(n: nat, ss: seq<Stmt>, st: Store, k: nat)
    requires Good(st, k) && NoDeferIn(ss)
    ensures RunBody(n, ss, st, k).1.defers == st.defers
    decreases n, ss, 1
  {
    hide WF, Ext, RunList;
    ListKeeps(n, ss, Push(st, k, ScopeTable), k, false);
  }

  lemma {:induction false} WhileKeeps(n: nat, s: Stmt, st: Store, k: nat)
    requires Good(st, k) && s.While? && NoDefer(s)
    ensures RunWhile(n, s, st, k).1.defers == st.defers
    decreases n, s, 1
  {
    hide WF, Ext, EvalCond, RunBody;
    var (b, s1) := EvalCond(n, s.cond, st, k);
    if b.Ok? && b.v && n > 0 {
      var (o, s2) := RunBody(n, s.ss, s1, k);
      BodyKeeps(n, s.ss, s1, k);
      if o.Normal? || o.Continued? {
        WhileKeeps(n - 1, s, s2, k);
      }
    }
  }

  lemma {:induction false} ForInKeeps(n: nat, s: Stmt, st: Store, k: nat)
    requires Good(st, k) && s.ForIn? && NoDefer(s)
    ensures RunForIn(n, s, st, k).1.defers == st.defers
    decreases n, s, 2
  {
    hide WF, Ext, EvalAll, RunRows;
    var (vs, s1) := EvalAll(n, s.tests, st, k);
    if vs.Ok? && |vs.v| > 0 && AllLists(vs.v) {
      RowsKeep(n, s, vs.v, 0, s1, k);
    }
  }

  lemma {:induction false} RowsKeep(n: nat, s: Stmt, vs: seq<Value>, p: nat, st: Store, k: nat)
    requires Good(st, k) && s.ForIn? && NoDefer(s) && |vs| > 0 && AllLists(vs)
    ensures RunRows(n, s, vs, p, st, k).1.defers == st.defers
    decreases n, s, 1, |vs[0].elems| - p
  {
    hide WF, Ext, AssignAll, RunBody;
    if HasRow(vs, p) {
      var (x, s1) := AssignAll(st, k, s.vars, Row(vs, p), false);
      BodyKeeps(n, s.ss, s1, k);
      var (o, s2) := RunRow(n, s, Row(vs, p), st, k);
      if o.Normal? || o.Continued? {
        RowsKeep(n, s, vs, p + 1, s2, k);
      }
    }
  }

  lemma {:induction false} TryKeeps(n: nat, s: Stmt, st: Store, k: nat)
    requires Good(st, k) && s.Try? && NoDefer(s)
    ensures RunTry(n, s, st, k).1.defers == st.defers
    decreases n, s, 2
  {
    hide WF, Ext, RunList, RunCatches;
    var (o, s1) := RunList(n, s.ss, st, k, false);
    ListKeeps(n, s.ss, st, k, false);
    if o.Raised? {
      CatchesKeep(n, s, 0, o.x, s1, k);
    }
  }

  lemma {:induction false} CatchesKeep(n: nat, s: Stmt, i: nat, x: Exn, st: Store, k: nat)
    requires Good(st, k) && s.Try? && NoDefer(s) && i <= |s.catches|
    ensures RunCatches(n, s, i, x, st, k).1.defers == st.defers
    decreases n, s, 1, |s.catches| - i
  {
    hide WF, Ext, EvalAll, RunList;
    if i < |s.catches| {
      var h := s.catches[i];
      var (ps, s1) := EvalAll(n, h.pats, st, k);
      if ps.Ok? {
        if InstanceOfAny(ExnValue(x), ps.v) {
          var s2 := if h.bind.Some? then InsertEntry(s1, k, h.bind.value, ExnValue(x)) else s1;
          ListKeeps(n, h.ss, s2, k, false);
        } else {
          CatchesKeep(n, s, i + 1, x, s1, k);
        }
      }
    }
  }

  // ----- what ExecuteDeferStack executes -----

  /** The store after one round: the top statement has run, and the top is popped. */
  ghost function Popped(n: nat, st: Store, root: bool): (st': Store)
    requires WF(st) && |st.defers| > 0
    ensures WF(st') && Ext(st, st')
  {
    var d := st.defers[|st.defers| - 1];
    var s1 := RunStmt(n, d.s, st, d.k, root).1;
    s1.(defers := s1.defers[..|s1.defers| - 1])
  }

  /** The statements executed by RunDefers, in execution order. */
  ghost function Executed(n: nat, st: Store, root: bool): seq<Stmt>
    requires WF(st)
    decreases n
  {
    if st.defers == [] || n == 0 then []
    else
      var d := st.defers[|st.defers| - 1];
      var (o, s1) := RunStmt(n - 1, d.s, st, d.k, root);
      [d.s] + (if o.Raised? || o.Stuck? then [] else Executed(n - 1, Popped(n - 1, st, root), root))
  }

  ghost function LastFirst(ds: seq<Deferred>): seq<Stmt> {
    if ds == [] then [] else [ds[|ds| - 1].s] + LastFirst(ds[..|ds| - 1])
  }

  ghost predicate Plain(ds: seq<Deferred>) {
    forall i | 0 <= i < |ds| :: NoDefer(ds[i].s)
  }

  /** Deferred statements that do not defer run once each, the last one first; when one
      of them ends the process the ones before it in that order have run. */
  lemma {:induction false} ReverseOrderOnce(n: nat, st: Store, root: bool)
    requires WF(st) && Plain(st.defers)
    ensures Executed(n, st, root) <= LastFirst(st.defers)
    ensures var (d, st') := RunDefers(n, st, root);
            d.None? ==> Executed(n, st, root) == LastFirst(st.defers) && st'.defers == []
    decreases n
  {
    hide WF, Ext, RunStmt, NoDefer, RunDefers, Executed, Popped;
    DefersNone(n, st, root);
    NoneExecuted(n, st, root);
    if st.defers != [] && n > 0 {
      DefersStep(n - 1, st, root);
      RoundUnfold(n, st, root);
      RoundPops(n - 1, st, root);
      var d := st.defers[|st.defers| - 1];
      var (o, s1) := RunStmt(n - 1, d.s, st, d.k, root);
      StmtKeeps(n - 1, d.s, st, d.k, root);
      if !o.Raised? && !o.Stuck? {
        PoppedDefers(n - 1, st, root);
        ReverseOrderOnce(n - 1, Popped(n - 1, st, root), root);
      }
    }
  }

  // ----- deferred statements that defer -----

  /** How many statements the rounds of RunDefers defer, all together. */
  ghost function Added(n: nat, st: Store, root: bool): nat
    requires WF(st)
    decreases n
  {
    if st.defers == [] || n == 0 then 0
    else
      var d := st.defers[|st.defers| - 1];
      var (o, s1) := RunStmt(n - 1, d.s, st, d.k, root);
      |s1.defers| - |st.defers|
      + if o.Raised? || o.Stuck? then 0 else Added(n - 1, Popped(n - 1, st, root), root)
  }

  /** A run that comes to its end executes as many statements as there are entries, old and
      new; it executes the old ones once each, the last one first, exactly when nothing is
      deferred on the way. */
  lemma {:induction false} ReverseOrderIff(n: nat, st: Store, root: bool)
    requires WF(st) && RunDefers(n, st, root).0.None?
    ensures RunDefers(n, st, root).1.defers == []
    ensures |Executed(n, st, root)| == |st.defers| + Added(n, st, root)
    ensures Executed(n, st, root) == LastFirst(st.defers) <==> Added(n, st, root) == 0
    decreases n
  {
    hide *;
    DefersNone(n, st, root);
    LastFirstLength(st.defers);
    NoneExecuted(n, st, root);
    if st.defers != [] {
      RoundExecutes(n, st, root);
      var d := st.defers[|st.defers| - 1];
      var s2 := Popped(n - 1, st, root);
      ReverseOrderIff(n - 1, s2, root);
      TailsEqual(d.s, Executed(n - 1, s2, root), LastFirst(st.defers[..|st.defers| - 1]));
    }
  }

  lemma NoneExecuted(n: nat, st: Store, root: bool)
    requires WF(st)
    ensures st.defers == [] ==> Executed(n, st, root) == [] && Added(n, st, root) == 0
    ensures n == 0 ==> Executed(n, st, root) == []
    ensures st.defers != [] ==> Good(st, st.defers[|st.defers| - 1].k)
  {
  }

  /** One round of a run that comes to its end. */
  lemma RoundExecutes(n: nat, st: Store, root: bool)
    requires WF(st) && st.defers != [] && RunDefers(n, st, root).0.None?
    ensures n > 0
    ensures var d, s2 := st.defers[|st.defers| - 1], Popped(n - 1, st, root);
            var more := |RunStmt(n - 1, d.s, st, d.k, root).1.defers| - |st.defers|;
            && Good(st, d.k)
            && !RunStmt(n - 1, d.s, st, d.k, root).0.Raised? && !RunStmt(n - 1, d.s, st, d.k, root).0.Stuck?
            && more >= 0 && RunDefers(n, st, root) == RunDefers(n - 1, s2, root)
            && Executed(n, st, root) == [d.s] + Executed(n - 1, s2, root)
            && Added(n, st, root) == more + Added(n - 1, s2, root)
            && LastFirst(st.defers) == [d.s] + LastFirst(st.defers[..|st.defers| - 1])
            && |s2.defers| == |st.defers| + more - 1
            && (more == 0 ==> s2.defers == st.defers[..|st.defers| - 1])
  {
    hide Ext, RunStmt, RunDefers, Executed, Added;
    DefersNone(n, st, root);
    DefersStep(n - 1, st, root);
    hide WF;
    RoundPops(n - 1, st, root);
    RoundUnfold(n, st, root);
  }

  lemma PoppedDefers(n: nat, st: Store, root: bool)
    requires WF(st) && |st.defers| > 0
    ensures var d := st.defers[|st.defers| - 1];
            var s1 := RunStmt(n, d.s, st, d.k, root).1;
            |s1.defers| > 0 && Popped(n, st, root) == s1.(defers := s1.defers[..|s1.defers| - 1])
  {
    hide Ext, RunStmt;
  }

  lemma RoundUnfold(n: nat, st: Store, root: bool)
    requires WF(st) && st.defers != [] && n > 0
    ensures var d, s2 := st.defers[|st.defers| - 1], Popped(n - 1, st, root);
            && Good(st, d.k)
            && var (o, s1) := RunStmt(n - 1, d.s, st, d.k, root);
            if o.Raised? || o.Stuck? then Executed(n, st, root) == [d.s]
            else
              && Executed(n, st, root) == [d.s] + Executed(n - 1, s2, root)
              && Added(n, st, root) == |s1.defers| - |st.defers| + Added(n - 1, s2, root)
  {
    assert Good(st, st.defers[|st.defers| - 1].k);
    hide WF, Ext, RunStmt, Popped;
  }

  lemma TailsEqual<T>(x: T, a: seq<T>, b: seq<T>)
    ensures [x] + a == [x] + b <==> a == b
  {
    assert ([x] + a)[1..] == a && ([x] + b)[1..] == b;
  }

  lemma {:induction false} LastFirstLength(ds: seq<Deferred>)
    ensures |LastFirst(ds)| == |ds|
  {
    if ds != [] { LastFirstLength(ds[..|ds| - 1]); }
  }

  /** On every exit of a call whose body came to an end - normally, by return, or by an
      exception - the statements the body deferred are executed, once each and last one
      first exactly when they defer nothing themselves. An exception of the body is passed
      on only after they ran, unchanged exactly when it was not thrown as an object. */
  lemma DefersRunOnEveryExit(n: nat, e: Expr, fo: FuncObj, vs: seq<Value>, s1: Store)
    requires Good(s1, fo.k) && n > 0 && s1.defers == [] && |vs| == |fo.params|
    requires !RunList(n - 1, fo.ss, SetEntries(s1, fo.k, fo.params, vs), fo.k, false).0.Stuck?
    ensures var (o, s2) := RunList(n - 1, fo.ss, SetEntries(s1, fo.k, fo.params, vs), fo.k, false);
            var (r, s3) := Activate(n, e, fo, vs, s1);
            && (!r.Halt? ==>
                  && s3.defers == []
                  && |Executed(n - 1, s2, false)| == |s2.defers| + Added(n - 1, s2, false)
                  && (Executed(n - 1, s2, false) == LastFirst(s2.defers) <==> Added(n - 1, s2, false) == 0)
                  && (Plain(s2.defers) ==> Executed(n - 1, s2, false) == LastFirst(s2.defers))
                  && (r.Exc? <==> o.Raised?))
            && (r.Exc? ==> r.x == Rewrap(o.x) && (r.x == o.x <==> !o.x.Thrown?))
  {
    hide Ext, WF, RunList, RunDefers, SetEntries, Executed, LastFirst, Plain, Added;
    var (o, s2) := RunList(n - 1, fo.ss, SetEntries(s1, fo.k, fo.params, vs), fo.k, false);
    if RunDefers(n - 1, s2, false).0.None? {
      ReverseOrderIff(n - 1, s2, false);
      if Plain(s2.defers) {
        ReverseOrderOnce(n - 1, s2, false);
      }
    }
  }

  /** A program that does not get stuck: after its root statements its deferred ones have
      run to their end, and it ends as the root statements did. */
  lemma ProgramRunsDefers(n: nat, ss: seq<Stmt>)
    requires !RunProgram(n, ss).0.Stuck?
    ensures Good(EMPTY, 0)
    ensures var (o, s1) := RunList(n, ss, EMPTY, 0, true);
            && RunProgram(n, ss).0 == o && RunDefers(n, s1, true) == (None, RunProgram(n, ss).1)
            && RunProgram(n, ss).1.defers == []
            && |Executed(n, s1, true)| == |s1.defers| + Added(n, s1, true)
            && (Executed(n, s1, true) == LastFirst(s1.defers) <==> Added(n, s1, true) == 0)
  {
    assert Good(EMPTY, 0);
    hide WF, Ext, RunList, RunDefers, Executed, Added, LastFirst;
    ReverseOrderIff(n, RunList(n, ss, EMPTY, 0, true).1, true);
  }

  /** A round pops the statement that it ran exactly when that statement deferred nothing;
      otherwise it stays, and the last statement that it deferred is dropped unexecuted. */
  lemma RoundPops(n: nat, st: Store, root: bool)
    requires WF(st) && |st.defers| > 0
    ensures var d := st.defers[|st.defers| - 1];
            var (o, s1) := RunStmt(n, d.s, st, d.k, root);
            var more := s1.defers[|st.defers|..];
            && s1.defers == st.defers + more
            && s1.defers[..|s1.defers| - 1] ==
               if more == [] then st.defers[..|st.defers| - 1] else st.defers + more[..|more| - 1]
  {
    hide Ext, RunStmt;
  }

  /** Whenever s comes to an end it has deferred something. */
  ghost predicate AlwaysDefers(s: Stmt) {
    forall n: nat, st: Store, k: nat, root: bool | Good(st, k) :: Redefers(RunStmt(n, s, st, k, root), st)
  }

  ghost predicate Redefers(r: (Outcome, Store), st: Store) {
    r.0.Raised? || r.0.Stuck? || |st.defers| < |r.1.defers|
  }

  /** With such a statement among the pending ones, at whatever place, no amount of fuel
      brings the run of the deferred statements to its end. */
  lemma {:induction false} RedeferNeverEnds(n: nat, st: Store, root: bool, i: nat)
    requires WF(st) && i < |st.defers| && AlwaysDefers(st.defers[i].s)
    ensures RunDefers(n, st, root).0.Some?
    decreases n
  {
    hide Ext, WF, RunStmt, RunDefers, AlwaysDefers;
    DefersNone(n, st, root);
    if n > 0 {
      DefersStep(n - 1, st, root);
      RoundPops(n - 1, st, root);
      var d := st.defers[|st.defers| - 1];
      var (o, s1) := RunStmt(n - 1, d.s, st, d.k, root);
      if !o.Raised? && !o.Stuck? {
        if i == |st.defers| - 1 {
          DefersAgain(n - 1, d.s, st, d.k, root);
        }
        var s2 := s1.(defers := s1.defers[..|s1.defers| - 1]);
        assert s2.defers[i] == st.defers[i];
        RedeferNeverEnds(n - 1, s2, root, i);
      }
    }
  }

  lemma DefersAgain(n: nat, s: Stmt, st: Store, k: nat, root: bool)
    requires Good(st, k) && AlwaysDefers(s)
    ensures Redefers(RunStmt(n, s, st, k, root), st)
  {
    hide Good;
  }

  /** defer { defer s; ... } and defer if true { defer s; ... } are such statements. */
  lemma DeferFirst(s: Stmt, ss: seq<Stmt>)
    ensures AlwaysDefers(Block([Defer(s)] + ss))
    ensures AlwaysDefers(If(Lit(Bool(true)), [Defer(s)] + ss, NoElse))
  {
    hide WF, Ext, RunStmt;
    forall n: nat, st: Store, k: nat, root: bool | Good(st, k)
      ensures Redefers(RunStmt(n, Block([Defer(s)] + ss), st, k, root), st)
    {
      BlockDefers(n, s, ss, st, k, root);
    }
    forall n: nat, st: Store, k: nat, root: bool | Good(st, k)
      ensures Redefers(RunStmt(n, If(Lit(Bool(true)), [Defer(s)] + ss, NoElse), st, k, root), st)
    {
      IfDefers(n, s, ss, st, k, root);
    }
  }

  lemma BlockDefers(n: nat, s: Stmt, ss: seq<Stmt>, st: Store, k: nat, root: bool)
    requires Good(st, k)
    ensures Redefers(RunStmt(n, Block([Defer(s)] + ss), st, k, root), st)
  {
    hide WF, Ext, RunList;
    ListDefers(n, s, ss, st, k);
  }

  lemma IfDefers(n: nat, s: Stmt, ss: seq<Stmt>, st: Store, k: nat, root: bool)
    requires Good(st, k)
    ensures Redefers(RunStmt(n, If(Lit(Bool(true)), [Defer(s)] + ss, NoElse), st, k, root), st)
  {
    hide WF, Ext, RunList;
    var branch, s1 := If(Lit(Bool(true)), [Defer(s)] + ss, NoElse), Push(st, k, ScopeTable);
    ListDefers(n, s, ss, s1, k);
    assert EvalCond(n, branch.cond, s1, k) == (Ok(true), s1);
    assert RunIf(n, branch, s1, k) == RunList(n, branch.ss, s1, k, false);
    ScopedIs(n, branch, st, k, root);
  }

  lemma ListDefers(n: nat, s: Stmt, ss: seq<Stmt>, st: Store, k: nat)
    requires Good(st, k)
    ensures |st.defers| < |RunList(n, [Defer(s)] + ss, st, k, false).1.defers|
  {
    hide WF, Ext;
    var all, s1 := [Defer(s)] + ss, PushDefer(st, k, s);
    assert all[0] == Defer(s) && all[1..] == ss;
    assert RunStmt(n, all[0], st, k, false) == (Normal, s1);
    assert s1.defers <= RunList(n, ss, s1, k, false).1.defers;
  }

  // ----- a deferred statement that defers once -----

  /** if g { g = false; defer null } */
  const GUARDED := If(Var("g"), [Assign(["g"], [Lit(Bool(false))]), Defer(Do(Lit(Null)))], NoElse)

  /** Stack 1 is as the root stack, and main's g is v. */
  ghost predicate GuardIs(st: Store, v: bool) {
    Good(st, 1) && st.stacks[1] == Stack([], -1) && "g" in st.tables[0].m && st.tables[0].m["g"].v == Bool(v)
  }

  lemma GuardOff(n: nat, st: Store)
    requires GuardIs(st, false)
    ensures var (o, s1) := RunStmt(n, GUARDED, st, 1, true); o == Normal && s1.defers == st.defers
  {
    hide Ext;
    var s1 := Push(st, 1, ScopeTable);
    ReadsMain(st, s1);
    assert EvalCond(n, Var("g"), s1, 1) == (Ok(false), s1);
  }

  lemma ReadsMain(st: Store, s1: Store)
    requires Good(st, 1) && st.stacks[1] == Stack([], -1) && s1 == Push(st, 1, ScopeTable)
    requires "g" in st.tables[0].m
    ensures ReadSite(s1, 1, "g") == Some(0) && WriteSite(s1, 1, "g") == 0
    ensures s1.stacks[1].ids[..0] == [] && s1.tables[0] == st.tables[0]
  {
    hide Ext;
    var c := |st.tables|;
    assert Good(s1, 1) && s1.stacks[1] == Stack([c], -1) && s1.tables[c].m == map[] && s1.tables[0] == st.tables[0];
    hide WF, Push;
    Shallow(s1, c);
  }

  lemma Shallow(st: Store, c: nat)
    requires Good(st, 1) && 0 < c < |st.tables| && st.stacks[1] == Stack([c], -1)
    requires st.tables[c].m == map[] && "g" in st.tables[0].m
    ensures ReadSite(st, 1, "g") == Some(0) && WriteSite(st, 1, "g") == 0 && st.stacks[1].ids[..0] == []
  {
    hide WF;
    assert [c][..0] == [] && Find(st.tables, [], "g", 0) == None;
  }

  lemma GuardOn(n: nat, st: Store)
    requires GuardIs(st, true)
    ensures var (o, s1) := RunStmt(n, GUARDED, st, 1, true);
            o == Normal && |s1.defers| == |st.defers| + 1 && GuardIs(s1, false)
  {
    hide Ext;
    var s1 := Push(st, 1, ScopeTable);
    ReadsMain(st, s1);
    assert EvalCond(n, Var("g"), s1, 1) == (Ok(true), s1);
    GuardBody(n, st, s1);
    ScopedIs(n, GUARDED, st, 1, true);
    assert RunIf(n, GUARDED, s1, 1) == RunList(n, GUARDED.ss, s1, 1, false);
  }

  lemma GuardBody(n: nat, st: Store, s1: Store)
    requires GuardIs(st, true) && s1 == Push(st, 1, ScopeTable)
    ensures var (o, s2) := RunList(n, GUARDED.ss, s1, 1, false);
            && o == Normal && s2.defers == st.defers + [Deferred(Do(Lit(Null)), |st.stacks|)]
            && s2.stacks[1] == s1.stacks[1] && "g" in s2.tables[0].m && s2.tables[0].m["g"].v == Bool(false)
  {
    hide Ext, PushDefer;
    ReadsMain(st, s1);
    var off, d := Assign(["g"], [Lit(Bool(false))]), Defer(Do(Lit(Null)));
    var s2 := SetVar(s1, 1, "g", Bool(false), false);
    var s3 := PushDefer(s2, 1, Do(Lit(Null)));
    assert GUARDED.ss == [off, d] && GUARDED.ss[1..] == [d] && [d][1..] == [];
    AssignsOne(n, s1, "g", Bool(false));
    DeferKeeps(s2, 1, Do(Lit(Null)));
    assert RunStmt(n, off, s1, 1, false) == (Normal, s2);
    assert RunStmt(n, d, s2, 1, false) == (Normal, s3);
    assert RunList(n, [d], s2, 1, false) == (Normal, s3);
  }

  lemma DeferKeeps(st: Store, k: nat, s: Stmt)
    requires Good(st, k)
    ensures var s1 := PushDefer(st, k, s); s1.stacks[k] == st.stacks[k] && s1.tables[0] == st.tables[0]
  {
  }

  lemma AssignsOne(n: nat, st: Store, x: string, v: Value)
    requires Good(st, 1)
    ensures AssignStmt(n, [x], [Lit(v)], false, st, 1) == (Normal, SetVar(st, 1, x, v, false))
  {
    hide WF, Ext, SetVar;
    var es := [Lit(v)];
    assert es[1..] == [] && EvalAll(n, [], st, 1) == (Ok([]), st);
    assert [v] + [] == [v];
    assert EvalAll(n, es, st, 1) == (Ok([v]), st);
    assert AssignEach(st, 1, [x], [v], false) == SetVar(st, 1, x, v, false) by {
      assert [x][1..] == [] && [v][1..] == [];
    }
  }

  /** The program g = true; defer if g { g = false; defer null } when its root statements
      are over. */
  const PENDING := PushDefer(
    Store([Table(ScopeTable, map["g" := Entry(Bool(true), false)])], [Stack([], -1)], [], [], []), 0, GUARDED)

  /** There the deferred statement runs twice, and the one it defers never. */
  lemma RunsTwice(n: nat)
    requires n >= 2
    ensures RunDefers(n, PENDING, true).0.None?
    ensures Executed(n, PENDING, true) == [GUARDED, GUARDED] && Added(n, PENDING, true) == 1
  {
    hide *;
    PendingIs();
    GuardOn(n - 1, PENDING);
    GuardRound(n - 1, PENDING);
    RunsOnce(n - 1, Popped(n - 1, PENDING, true));
    assert [GUARDED] + [GUARDED] == [GUARDED, GUARDED];
  }

  lemma PendingIs()
    ensures GuardIs(PENDING, true) && Good(PENDING, 1) && PENDING.defers == [Deferred(GUARDED, 1)]
  {
  }

  /** One round of the guarded statement alone. */
  lemma GuardRound(n: nat, st: Store)
    requires Good(st, 1) && st.defers == [Deferred(GUARDED, 1)] && RunStmt(n, GUARDED, st, 1, true).0 == Normal
    ensures var s1, s2 := RunStmt(n, GUARDED, st, 1, true).1, Popped(n, st, true);
            && RunDefers(n + 1, st, true) == RunDefers(n, s2, true)
            && Executed(n + 1, st, true) == [GUARDED] + Executed(n, s2, true)
            && Added(n + 1, st, true) == |s1.defers| - 1 + Added(n, s2, true)
            && (|s1.defers| == 1 ==> s2.defers == [])
            && (|s1.defers| == 2 ==> s2.defers == st.defers)
            && (forall v | GuardIs(s1, v) :: GuardIs(s2, v))
  {
    hide Ext, RunStmt, RunDefers, Executed, Added;
    DefersStep(n, st, true);
    RoundUnfold(n + 1, st, true);
    RoundPops(n, st, true);
    PoppedDefers(n, st, true);
  }

  lemma RunsOnce(n: nat, st: Store)
    requires n >= 1 && GuardIs(st, false) && st.defers == [Deferred(GUARDED, 1)]
    ensures RunDefers(n, st, true).0.None? && Executed(n, st, true) == [GUARDED] && Added(n, st, true) == 0
  {
    assert Good(st, 1);
    hide *;
    GuardOff(n - 1, st);
    GuardRound(n - 1, st);
    DefersNone(n - 1, Popped(n - 1, st, true), true);
    NoneExecuted(n - 1, Popped(n - 1, st, true), true);
    assert [GUARDED] + [] == [GUARDED];
  }
}
