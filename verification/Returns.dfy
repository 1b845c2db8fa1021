/** What a call gives: the value of the `return` that ended it, and what it gives without
    one. */
module Returns {
  import opened Options
  import opened Syntax
  import opened SymbolTables
  import opened BigStep
  import opened Expressions
  import opened Statements

  // ----- the return statement that ended a body -----

  /** `return e` occurs in the statement itself; function bodies and deferred statements
      are other runs. */
  ghost predicate HasReturn(s: Stmt, e: Expr)
    decreases s, 1
  {
    match s
    case Return(x) => x == e
    case If(_, ss, els) =>
      || HasReturnIn(ss, e)
      || (match els
          case NoElse => false
          case ElseBlock(es) => HasReturnIn(es, e)
          case ElseIf(s') => HasReturn(s', e))
    case While(_, ss) => HasReturnIn(ss, e)
    case ForIn(_, _, ss) => HasReturnIn(ss, e)
    case Try(ss, cs) => HasReturnIn(ss, e) || exists i | 0 <= i < |cs| :: HasReturnIn(cs[i].ss, e)
    case Block(ss) => HasReturnIn(ss, e)
    case _ => false
  }

  ghost predicate HasReturnIn(ss: seq<Stmt>, e: Expr)
    decreases ss, 0
  {
    exists i | 0 <= i < |ss| :: HasReturn(ss[i], e)
  }

  /** An evaluation of e in a store, with some fuel. */
  datatype Place = Place(n: nat, e: Expr, st: Store)

  /** b is a, but for tables popped off stack k. */
  ghost predicate Unwound(a: Store, b: Store, k: nat) {
    && Good(a, k) && Good(b, k)
    && b.stacks[k].ids <= a.stacks[k].ids
    && b == a.(stacks := a.stacks[k := a.stacks[k].(ids := b.stacks[k].ids)])
  }

  /** st' is where the return of the place left the store, tables popped since. */
  ghost predicate ReturnedFrom(w: Place, st': Store, k: nat) {
    && Good(w.st, k)
    && var (v, s1) := Eval(w.n, w.e, w.st, k);
    v.Ok? && Unwound(PutOnFuncs(s1, s1.stacks[k].ids, RETURN_NAME, v.v), st', k)
  }

  lemma PlaceGood(w: Place, st': Store, k: nat)
    requires ReturnedFrom(w, st', k)
    ensures Good(w.st, k) && Good(st', k)
  {
  }

  lemma PopReturned(w: Place, st': Store, k: nat)
    requires ReturnedFrom(w, st', k) && |st'.stacks[k].ids| > 0
    ensures ReturnedFrom(w, Pop(st', k), k)
  {
    hide Eval, PutOnFuncs, Ext;
  }

  lemma {:induction false} ListReturns(n: nat, ss: seq<Stmt>, st: Store, k: nat, root: bool) returns (w: Place)
    requires Good(st, k) && RunList(n, ss, st, k, root).0.Returned?
    ensures HasReturnIn(ss, w.e) && ReturnedFrom(w, RunList(n, ss, st, k, root).1, k)
    decreases n, ss, 0
  {
    hide WF, Ext, RunStmt, ReturnedFrom, HasReturn;
    var (o, s1) := RunStmt(n, ss[0], st, k, root);
    if o.Normal? {
      w := ListReturns(n, ss[1..], s1, k, root);
      var i :| 0 <= i < |ss[1..]| && HasReturn(ss[1..][i], w.e);
      assert HasReturn(ss[i + 1], w.e);
    } else {
      w := StmtReturns(n, ss[0], st, k, root);
    }
  }

  lemma {:induction false} StmtReturns(n: nat, s: Stmt, st: Store, k: nat, root: bool) returns (w: Place)
    requires Good(st, k) && RunStmt(n, s, st, k, root).0.Returned?
    ensures HasReturn(s, w.e) && ReturnedFrom(w, RunStmt(n, s, st, k, root).1, k)
    decreases n, s, 3
  {
    if IsScoped(s) {
      hide WF, Ext, RunStmt, ReturnedFrom, HasReturnIn;
      ScopedIs(n, s, st, k, root);
      w := ScopedReturns(n, s, Push(st, k, ScopeTable), k);
      PopReturned(w, ScopedRun(n, s, Push(st, k, ScopeTable), k).1, k);
    } else if s.Block? {
      hide WF, Ext, RunList, ReturnedFrom, HasReturnIn;
      w := ListReturns(n, s.ss, st, k, false);
    } else {
      w := Place(n, s.e, st);
      ReturnIs(n, s, st, k, root);
    }
  }

  /** The other statements end with Returned only by returning. */
  lemma ReturnIs(n: nat, s: Stmt, st: Store, k: nat, root: bool)
    requires Good(st, k) && !IsScoped(s) && !s.Block? && RunStmt(n, s, st, k, root).0.Returned?
    ensures s.Return? && ReturnedFrom(Place(n, s.e, st), RunStmt(n, s, st, k, root).1, k)
  {
    hide WF, Ext, Eval, EvalAll, AssignAll, Declare, PushDefer, PutOnFuncs, Lookup, ReadSite, Put;
    assert s.Return? && RunStmt(n, s, st, k, root) == RunValue(n, s, st, k);
  }

  lemma {:induction false} ScopedReturns(n: nat, s: Stmt, st: Store, k: nat) returns (w: Place)
    requires Good(st, k) && IsScoped(s) && ScopedRun(n, s, st, k).0.Returned?
    ensures HasReturn(s, w.e) && ReturnedFrom(w, ScopedRun(n, s, st, k).1, k)
    decreases n, s, 2
  {
    hide WF, Ext, ReturnedFrom, RunIf, RunWhile, RunForIn, RunTry, HasReturnIn;
    match s
    case If(_, _, _) => w := IfReturns(n, s, st, k);
    case While(_, _) => w := WhileReturns(n, s, st, k);
    case ForIn(_, _, _) => w := ForInReturns(n, s, st, k);
    case Try(_, _) => w := TryReturns(n, s, st, k);
  }

  lemma {:induction false} IfReturns(n: nat, s: Stmt, st: Store, k: nat) returns (w: Place)
    requires Good(st, k) && s.If? && RunIf(n, s, st, k).0.Returned?
    ensures HasReturn(s, w.e) && ReturnedFrom(w, RunIf(n, s, st, k).1, k)
    decreases n, s, 1
  {
    hide WF, Ext, ReturnedFrom, EvalCond, RunList, RunStmt, HasReturnIn;
    var (b, s1) := EvalCond(n, s.cond, st, k);
    if b.v {
      w := ListReturns(n, s.ss, s1, k, false);
    } else if s.els.ElseBlock? {
      w := ListReturns(n, s.els.ss, s1, k, false);
    } else {
      w := StmtReturns(n, s.els.s, s1, k, false);
    }
  }

  lemma {:induction false} BodyReturns(n: nat, ss: seq<Stmt>, st: Store, k: nat) returns (w: Place)
    requires Good(st, k) && RunBody(n, ss, st, k).0.Returned?
    ensures HasReturnIn(ss, w.e) && ReturnedFrom(w, RunBody(n, ss, st, k).1, k)
    decreases n, ss, 1
  {
    var s1 := Push(st, k, ScopeTable);
    var s2 := RunList(n, ss, s1, k, false).1;
    PopExt(st, k, ScopeTable, s2);
    hide WF, Ext, ReturnedFrom, RunList, HasReturnIn;
    w := ListReturns(n, ss, s1, k, false);
    PopReturned(w, s2, k);
  }

  lemma {:induction false} WhileReturns(n: nat, s: Stmt, st: Store, k: nat) returns (w: Place)
    requires Good(st, k) && s.While? && RunWhile(n, s, st, k).0.Returned?
    ensures HasReturn(s, w.e) && ReturnedFrom(w, RunWhile(n, s, st, k).1, k)
    decreases n, s, 1
  {
    hide WF, Ext, ReturnedFrom, EvalCond, RunBody, HasReturnIn;
    var (b, s1) := EvalCond(n, s.cond, st, k);
    var (o, s2) := RunBody(n, s.ss, s1, k);
    if o.Normal? || o.Continued? {
      w := WhileReturns(n - 1, s, s2, k);
    } else {
      w := BodyReturns(n, s.ss, s1, k);
    }
  }

  lemma {:induction false} ForInReturns(n: nat, s: Stmt, st: Store, k: nat) returns (w: Place)
    requires Good(st, k) && s.ForIn? && RunForIn(n, s, st, k).0.Returned?
    ensures HasReturn(s, w.e) && ReturnedFrom(w, RunForIn(n, s, st, k).1, k)
    decreases n, s, 1
  {
    hide WF, Ext, ReturnedFrom, EvalAll, RunRows, HasReturnIn;
    var (vs, s1) := EvalAll(n, s.tests, st, k);
    w := RowsReturn(n, s, vs.v, 0, s1, k);
  }

  lemma {:induction false} RowsReturn(n: nat, s: Stmt, vs: seq<Value>, p: nat, st: Store, k: nat) returns (w: Place)
    requires Good(st, k) && s.ForIn? && |vs| > 0 && AllLists(vs) && RunRows(n, s, vs, p, st, k).0.Returned?
    ensures HasReturn(s, w.e) && ReturnedFrom(w, RunRows(n, s, vs, p, st, k).1, k)
    decreases n, s, 0, |vs[0].elems| - p
  {
    hide WF, Ext, ReturnedFrom, AssignAll, RunBody, HasReturnIn;
    var (o, s1) := RunRow(n, s, Row(vs, p), st, k);
    if o.Normal? || o.Continued? {
      w := RowsReturn(n, s, vs, p + 1, s1, k);
    } else {
      w := BodyReturns(n, s.ss, AssignAll(st, k, s.vars, Row(vs, p), false).1, k);
    }
  }

  lemma {:induction false} TryReturns(n: nat, s: Stmt, st: Store, k: nat) returns (w: Place)
    requires Good(st, k) && s.Try? && RunTry(n, s, st, k).0.Returned?
    ensures HasReturn(s, w.e) && ReturnedFrom(w, RunTry(n, s, st, k).1, k)
    decreases n, s, 1
  {
    hide WF, Ext, ReturnedFrom, RunList, RunCatches, HasReturnIn;
    var (o, s1) := RunList(n, s.ss, st, k, false);
    if o.Raised? {
      w := CatchesReturn(n, s, 0, o.x, s1, k);
    } else {
      w := ListReturns(n, s.ss, st, k, false);
    }
  }

  lemma {:induction false} CatchesReturn(n: nat, s: Stmt, i: nat, x: Exn, st: Store, k: nat) returns (w: Place)
    requires Good(st, k) && s.Try? && i <= |s.catches| && RunCatches(n, s, i, x, st, k).0.Returned?
    ensures HasReturn(s, w.e) && ReturnedFrom(w, RunCatches(n, s, i, x, st, k).1, k)
    decreases n, s, 0, |s.catches| - i
  {
    hide WF, Ext, ReturnedFrom, EvalAll, RunList, HasReturnIn;
    var c := s.catches[i];
    var (ps, s1) := EvalAll(n, c.pats, st, k);
    if InstanceOfAny(ExnValue(x), ps.v) {
      w := ListReturns(n, c.ss, if c.bind.Some? then InsertEntry(s1, k, c.bind.value, ExnValue(x)) else s1, k, false);
      assert HasReturnIn(s.catches[i].ss, w.e);
    } else {
      w := CatchesReturn(n, s, i + 1, x, s1, k);
    }
  }

  // ----- where the value is written, and where it is found -----

  /** Every function table of the stack has the value, and no other binding changes. */
  lemma {:induction false} OnEveryFuncTable(st: Store, ids: seq<nat>, x: string, v: Value)
    requires WF(st) && ValidIds(ids, |st.tables|)
    ensures var s1 := PutOnFuncs(st, ids, x, v);
            && (forall t | 0 <= t < |st.tables| ::
                  s1.tables[t].kind == st.tables[t].kind
                  && (t in ids && st.tables[t].kind == FuncTable ==>
                        x in s1.tables[t].m && s1.tables[t].m[x].v == v)
                  && (t !in ids || st.tables[t].kind != FuncTable ==> s1.tables[t] == st.tables[t])
                  && forall y | y != x :: (y in s1.tables[t].m <==> y in st.tables[t].m)
                                          && (y in st.tables[t].m ==> s1.tables[t].m[y] == st.tables[t].m[y]))
    decreases |ids|
  {
    hide Ext;
    if |ids| > 0 {
      var c, rest := ids[|ids| - 1], ids[..|ids| - 1];
      assert ids == rest + [c];
      var s0 := if st.tables[c].kind == FuncTable then Put(st, c, x, v, false) else st;
      OnEveryFuncTable(s0, rest, x, v);
    }
  }

  lemma FoundOnTop(st: Store, k: nat, x: string)
    requires Good(st, k) && |st.stacks[k].ids| > 0 && x in st.tables[Top(st, k)].m
    ensures LookupObj(st, k, x) == Some(st.tables[Top(st, k)].m[x].v)
  {
  }

  /** After a return every function table still on the stack has its value. */
  lemma ReturnWritten(w: Place, st': Store, k: nat, t: nat)
    requires ReturnedFrom(w, st', k) && t in st'.stacks[k].ids && st'.tables[t].kind == FuncTable
    ensures RETURN_NAME in st'.tables[t].m && Eval(w.n, w.e, w.st, k).0 == Ok(st'.tables[t].m[RETURN_NAME].v)
  {
    hide Eval, Ext;
    var (v, s1) := Eval(w.n, w.e, w.st, k);
    OnEveryFuncTable(s1, s1.stacks[k].ids, RETURN_NAME, v.v);
  }

  /** The value of an activation whose body has ended in s2 without an exception. */
  lemma ActivationValue(n: nat, e: Expr, fo: FuncObj, vs: seq<Value>, s1: Store, o: Outcome, s2: Store)
    requires Good(s1, fo.k) && n > 0 && s1.defers == [] && |vs| == |fo.params|
    requires RunList(n - 1, fo.ss, SetEntries(s1, fo.k, fo.params, vs), fo.k, false) == (o, s2)
    requires !o.Raised? && !o.Stuck? && RunDefers(n - 1, s2, false).0.None?
    ensures var ret := LookupObj(s2, fo.k, RETURN_NAME);
            Activate(n, e, fo, vs, s1).0 == Ok(if ret.Some? then ret.value else Null)
  {
    hide WF, Ext, RunList, RunDefers, SetEntries, LookupObj;
  }

  lemma GivesReturned(n: nat, e: Expr, fo: FuncObj, vs: seq<Value>, s1: Store, w: Place, s2: Store)
    requires Good(s1, fo.k) && n > 0 && s1.defers == [] && |vs| == |fo.params|
    requires |s1.stacks[fo.k].ids| > 0 && s1.tables[Top(s1, fo.k)].kind == FuncTable
    requires RunList(n - 1, fo.ss, SetEntries(s1, fo.k, fo.params, vs), fo.k, false) == (Returned, s2)
    requires ReturnedFrom(w, s2, fo.k) && RunDefers(n - 1, s2, false).0.None?
    ensures Good(w.st, fo.k) && Activate(n, e, fo, vs, s1).0 == Eval(w.n, w.e, w.st, fo.k).0
  {
    hide *;
    PlaceGood(w, s2, fo.k);
    BodyTop(n - 1, fo.ss, s1, SetEntries(s1, fo.k, fo.params, vs), fo.k);
    ReturnWritten(w, s2, fo.k, Top(s2, fo.k));
    FoundOnTop(s2, fo.k, RETURN_NAME);
    ActivationValue(n, e, fo, vs, s1, Returned, s2);
  }

  /** A call whose body ends by `return`: its value is what the expression of a return
      statement of the body evaluated to, in the very store in which the body stopped, and
      deferred statements do not change it. */
  lemma CallGivesReturned(n: nat, e: Expr, fo: FuncObj, vs: seq<Value>, s1: Store) returns (w: Place)
    requires Good(s1, fo.k) && n > 0 && s1.defers == [] && |vs| == |fo.params|
    requires |s1.stacks[fo.k].ids| > 0 && s1.tables[Top(s1, fo.k)].kind == FuncTable
    requires RunList(n - 1, fo.ss, SetEntries(s1, fo.k, fo.params, vs), fo.k, false).0.Returned?
    ensures var s2 := RunList(n - 1, fo.ss, SetEntries(s1, fo.k, fo.params, vs), fo.k, false).1;
            && HasReturnIn(fo.ss, w.e) && ReturnedFrom(w, s2, fo.k)
            && (RunDefers(n - 1, s2, false).0.None? ==>
                  Activate(n, e, fo, vs, s1).0 == Eval(w.n, w.e, w.st, fo.k).0)
  {
    hide *;
    var s0 := SetEntries(s1, fo.k, fo.params, vs);
    var s2 := RunList(n - 1, fo.ss, s0, fo.k, false).1;
    w := ListReturns(n - 1, fo.ss, s0, fo.k, false);
    PlaceGood(w, s2, fo.k);
    if RunDefers(n - 1, s2, false).0.None? {
      GivesReturned(n, e, fo, vs, s1, w, s2);
    }
  }

  /** The table an activation pushed is on top when its body has ended. */
  lemma BodyTop(n: nat, ss: seq<Stmt>, s1: Store, s0: Store, k: nat)
    requires Good(s1, k) && Good(s0, k) && Ext(s1, s0) && |s1.stacks[k].ids| > 0
    ensures var s2 := RunList(n, ss, s0, k, false).1;
            && s2.stacks[k].ids == s1.stacks[k].ids && Top(s2, k) == Top(s1, k) && Top(s2, k) in s2.stacks[k].ids
            && s2.tables[Top(s2, k)].kind == s1.tables[Top(s1, k)].kind
  {
    hide RunList;
  }

  // ----- the value of a return at the end -----

  /** A body pre; return x whose first part ends normally gives the value of x there. */
  lemma CallGivesLast(n: nat, e: Expr, fo: FuncObj, vs: seq<Value>, s1: Store, pre: seq<Stmt>, x: Expr, s2: Store)
    requires Good(s1, fo.k) && n > 0 && s1.defers == [] && |vs| == |fo.params| && fo.ss == pre + [Return(x)]
    requires |s1.stacks[fo.k].ids| > 0 && s1.tables[Top(s1, fo.k)].kind == FuncTable
    requires RunList(n - 1, pre, SetEntries(s1, fo.k, fo.params, vs), fo.k, false) == (Normal, s2)
    requires Good(s2, fo.k) && Eval(n - 1, x, s2, fo.k).0.Ok?
    ensures var (o, s3) := RunList(n - 1, fo.ss, SetEntries(s1, fo.k, fo.params, vs), fo.k, false);
            && o.Returned?
            && (RunDefers(n - 1, s3, false).0.None? ==>
                  Activate(n, e, fo, vs, s1).0 == Eval(n - 1, x, s2, fo.k).0)
  {
    hide *;
    var s0 := SetEntries(s1, fo.k, fo.params, vs);
    LastReturns(n - 1, pre, x, s0, fo.k);
    var s3 := RunList(n - 1, fo.ss, s0, fo.k, false).1;
    PlaceGood(Place(n - 1, x, s2), s3, fo.k);
    if RunDefers(n - 1, s3, false).0.None? {
      GivesReturned(n, e, fo, vs, s1, Place(n - 1, x, s2), s3);
    }
  }

  lemma LastReturns(n: nat, pre: seq<Stmt>, x: Expr, st: Store, k: nat)
    requires Good(st, k)
    requires var (o, s2) := RunList(n, pre, st, k, false); o.Normal? && Eval(n, x, s2, k).0.Ok?
    ensures var r := RunList(n, pre + [Return(x)], st, k, false);
            r.0.Returned? && ReturnedFrom(Place(n, x, RunList(n, pre, st, k, false).1), r.1, k)
  {
    hide *;
    var s2 := RunList(n, pre, st, k, false).1;
    InSequence(n, pre, [Return(x)], st, k, false);
    RunSingle(n, Return(x), s2, k);
    ReturnRuns(n, x, s2, k);
  }

  lemma ReturnRuns(n: nat, x: Expr, st: Store, k: nat)
    requires Good(st, k) && Eval(n, x, st, k).0.Ok?
    ensures var (o, s1) := RunStmt(n, Return(x), st, k, false);
            o.Returned? && ReturnedFrom(Place(n, x, st), s1, k)
  {
    hide WF, Ext, Eval, PutOnFuncs;
    assert RunStmt(n, Return(x), st, k, false) == RunValue(n, Return(x), st, k);
  }

  // ----- a call without return -----

  /** What an activation gives whose body ends without return: what the topmost table of its
      stack that binds the return name has there - the activation's own or, below it, an
      outer activation's - then a global of that name, then null. */
  lemma CallWithoutReturn(n: nat, e: Expr, fo: FuncObj, vs: seq<Value>, s1: Store, o: Outcome, s2: Store)
    requires Good(s1, fo.k) && n > 0 && s1.defers == [] && |vs| == |fo.params|
    requires RunList(n - 1, fo.ss, SetEntries(s1, fo.k, fo.params, vs), fo.k, false) == (o, s2)
    requires Good(s2, fo.k) && (o.Normal? || o.Broke? || o.Continued?) && RunDefers(n - 1, s2, false).0.None?
    ensures forall i | Topmost(s2, fo.k, "%return", i) ::
              Activate(n, e, fo, vs, s1).0 == Ok(s2.tables[s2.stacks[fo.k].ids[i]].m["%return"].v)
    ensures Unbound(s2, fo.k, "%return", 0) ==>
              Activate(n, e, fo, vs, s1).0 ==
              Ok(if "%return" in s2.tables[0].m && s2.tables[0].m["%return"].global then s2.tables[0].m["%return"].v
                 else Null)
  {
    assert RETURN_NAME == "%return";
    hide *;
    ActivationValue(n, e, fo, vs, s1, o, s2);
    ObjectValue(s2, fo.k, "%return");
  }

  /** A recursive call that returns writes its value into the function tables of all the
      activations below it on the stack. */
  lemma RecursionWrites(n: nat, e: Expr, f: nat, vs: seq<Value>, st: Store, t: nat) returns (w: Place)
    requires WF(st) && n > 0 && f < |st.funcs| && |vs| == |st.funcs[f].params|
    requires var fo := st.funcs[f];
             && t in st.stacks[fo.k].ids && st.tables[t].kind == FuncTable
             && var (o, s2) := RunList(n - 1, fo.ss, SetEntries(Enter(st, fo.k), fo.k, fo.params, vs), fo.k, false);
             o.Returned? && s2.defers == []
    ensures var (r, s3) := Invoke(n, e, Func(f), vs, st);
            && HasReturnIn(st.funcs[f].ss, w.e) && Good(w.st, st.funcs[f].k)
            && r == Eval(w.n, w.e, w.st, st.funcs[f].k).0 && r.Ok?
            && t < |s3.tables| && RETURN_NAME in s3.tables[t].m && s3.tables[t].m[RETURN_NAME].v == r.v
  {
    var fo := st.funcs[f];
    var s1 := Enter(st, fo.k);
    var s0 := SetEntries(s1, fo.k, fo.params, vs);
    var s2 := RunList(n - 1, fo.ss, s0, fo.k, false).1;
    EnteredTop(st, fo.k, t);
    BodyTop(n - 1, fo.ss, s1, s0, fo.k);
    w := CallGivesReturned(n, e, fo, vs, s1);
    KindsStay(s1, s2, t);
    hide WF, Ext, RunList, SetEntries, Eval, LookupObj, Enter, HasReturnIn, Activate;
    DefersNone(n - 1, s2, false);
    ReturnWritten(w, s2, fo.k, t);
    assert Activate(n, e, fo, vs, s1).1 == s2 by { ActivateStore(n, e, fo, vs, s1); }
    assert Invoke(n, e, Func(f), vs, st).0 == Activate(n, e, fo, vs, s1).0;
    assert Invoke(n, e, Func(f), vs, st).1.tables == s2.tables;
  }

  lemma KindsStay(a: Store, b: Store, t: nat)
    requires Ext(a, b) && t < |a.tables|
    ensures t < |b.tables| && b.tables[t].kind == a.tables[t].kind
  {
  }

  lemma EnteredTop(st: Store, k: nat, t: nat)
    requires Good(st, k) && t in st.stacks[k].ids
    ensures var s1 := Enter(st, k);
            && |s1.stacks[k].ids| > 0 && s1.tables[Top(s1, k)].kind == FuncTable && s1.defers == []
            && t in s1.stacks[k].ids && t < |st.tables| && s1.tables[t] == st.tables[t]
  {
  }

  lemma ActivateStore(n: nat, e: Expr, fo: FuncObj, vs: seq<Value>, s1: Store)
    requires Good(s1, fo.k) && n > 0 && s1.defers == [] && |vs| == |fo.params|
    requires var (o, s2) := RunList(n - 1, fo.ss, SetEntries(s1, fo.k, fo.params, vs), fo.k, false);
             !o.Stuck? && s2.defers == []
    ensures Activate(n, e, fo, vs, s1).1 == RunList(n - 1, fo.ss, SetEntries(s1, fo.k, fo.params, vs), fo.k, false).1
  {
    hide Ext, RunList, SetEntries, RunDefers, LookupObj;
    DefersNone(n - 1, RunList(n - 1, fo.ss, SetEntries(s1, fo.k, fo.params, vs), fo.k, false).1, false);
  }

  /** So an activation that ends without return after such a call gives that value and not
      null. */
  lemma LeakedReturn(n: nat, e: Expr, fo: FuncObj, vs: seq<Value>, s1: Store)
    requires Good(s1, fo.k) && n > 0 && s1.defers == [] && |vs| == |fo.params| && |s1.stacks[fo.k].ids| > 0
    requires var (o, s2) := RunList(n - 1, fo.ss, SetEntries(s1, fo.k, fo.params, vs), fo.k, false);
             && (o.Normal? || o.Broke? || o.Continued?) && RunDefers(n - 1, s2, false).0.None?
             && RETURN_NAME in s2.tables[Top(s2, fo.k)].m
    ensures var s2 := RunList(n - 1, fo.ss, SetEntries(s1, fo.k, fo.params, vs), fo.k, false).1;
            Activate(n, e, fo, vs, s1).0 == Ok(s2.tables[Top(s2, fo.k)].m[RETURN_NAME].v)
  {
    var s0 := SetEntries(s1, fo.k, fo.params, vs);
    var (o, s2) := RunList(n - 1, fo.ss, s0, fo.k, false);
    hide *;
    BodyTop(n - 1, fo.ss, s1, s0, fo.k);
    ActivationValue(n, e, fo, vs, s1, o, s2);
    FoundOnTop(s2, fo.k, RETURN_NAME);
  }

  // ----- the arguments -----

  /** Each parameter reads as its argument, and every other name as before. */
  lemma {:induction false} ParamsRead(st: Store, k: nat, xs: seq<string>, vs: seq<Value>)
    requires Good(st, k) && |xs| == |vs| && |st.stacks[k].ids| > 0
    requires forall i, j | 0 <= i < j < |xs| :: xs[i] != xs[j]
    ensures var s1 := SetEntries(st, k, xs, vs);
            && (forall i | 0 <= i < |xs| :: Lookup(s1, k, xs[i]) == Some(vs[i]))
            && forall y | y !in xs :: Lookup(s1, k, y) == Lookup(st, k, y)
    decreases |xs|
  {
    hide Ext, Lookup;
    if |xs| > 0 {
      var s0 := SetEntry(st, k, xs[0], vs[0]);
      ParamRead(st, k, xs[0], vs[0]);
      ParamsRead(s0, k, xs[1..], vs[1..]);
      var s1 := SetEntries(st, k, xs, vs);
      assert xs[0] !in xs[1..];
      forall i | 0 <= i < |xs| ensures Lookup(s1, k, xs[i]) == Some(vs[i]) {
        if i > 0 { assert xs[1..][i - 1] == xs[i] && vs[1..][i - 1] == vs[i]; }
      }
      assert forall y | y !in xs :: y != xs[0] && y !in xs[1..];
    }
  }

  lemma ParamRead(st: Store, k: nat, x: string, v: Value)
    requires Good(st, k) && |st.stacks[k].ids| > 0
    ensures var s1 := SetEntry(st, k, x, v);
            && s1.stacks == st.stacks && Lookup(s1, k, x) == Some(v)
            && forall y | y != x :: Lookup(s1, k, y) == Lookup(st, k, y)
  {
    var s1 := SetEntry(st, k, x, v);
    forall y | y != x ensures Lookup(s1, k, y) == Lookup(st, k, y) {
      FindSame(st.tables, s1.tables, st.stacks[k].ids, y, 0);
    }
  }
}
