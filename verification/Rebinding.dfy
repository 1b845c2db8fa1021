/** What a run can never touch. A run on stack k writes a table c only when c is on a
    stack it can run on, or when c is the main table and the name is global there. Two
    results follow: a function never rebinds a non-global name of the main table, and
    the copies made for a deferred statement keep their values until it runs. */
module Rebinding {
  import opened Options
  import opened Syntax
  import opened SymbolTables
  import opened BigStep

  /** Table c lies on no stack but dk (dk is -1 for none), and no function owns dk. */
  ghost predicate Outside(st: Store, c: nat, dk: int) {
    && WF(st)
    && c < |st.tables|
    && dk < |st.stacks|
    && (forall j | 0 <= j < |st.stacks| && j != dk :: c !in st.stacks[j].ids)
    && (forall f | 0 <= f < |st.funcs| :: st.funcs[f].k != dk)
  }

  /** Running on k is running elsewhere than on dk; and when c is the main table, it is
      running inside a function. */
  ghost predicate Elsewhere(st: Store, c: nat, dk: int, k: nat) {
    && k < |st.stacks|
    && k != dk
    && (c == 0 ==> |st.stacks[k].ids| > 0 && st.stacks[k].posFunc >= 0)
  }

  /** Table c is unchanged; of the main table, every non-global binding is (the
      accumulator name, which no program can spell, aside). */
  ghost predicate Kept(st: Store, st': Store, c: nat)
    requires c < |st.tables| && c < |st'.tables|
  {
    if c == 0 then
      forall x | x in st.tables[0].m && !st.tables[0].m[x].global && x != COMP_NAME ::
        x in st'.tables[0].m && st'.tables[0].m[x] == st.tables[0].m[x]
    else st'.tables[c] == st.tables[c]
  }

  ghost predicate NewDefers(st: Store, st': Store, c: nat, dk: int) {
    forall i | |st.defers| <= i < |st'.defers| :: Elsewhere(st', c, dk, st'.defers[i].k)
  }

  /** The run from st to st' left c alone and can be continued on k or popped. */
  ghost predicate Left(st: Store, st': Store, c: nat, dk: int) {
    Outside(st, c, dk) && Outside(st', c, dk) && Kept(st, st', c) && NewDefers(st, st', c, dk)
  }

  lemma ElsewhereExt(st: Store, st': Store, c: nat, dk: int, k: nat)
    requires Elsewhere(st, c, dk, k) && Ext(st, st')
    ensures Elsewhere(st', c, dk, k)
  {
  }

  lemma LeftTrans(a: Store, b: Store, d: Store, c: nat, dk: int)
    requires Left(a, b, c, dk) && Left(b, d, c, dk) && Ext(b, d) && b.defers <= d.defers
    ensures Left(a, d, c, dk)
  {
    forall i | |a.defers| <= i < |d.defers| ensures Elsewhere(d, c, dk, d.defers[i].k) {
      if i < |b.defers| {
        ElsewhereExt(b, d, c, dk, b.defers[i].k);
      }
    }
  }

  // ----- store operations -----

  lemma FindIn(st: Store, k: nat, x: string, stop: int, c: nat, dk: int)
    requires Outside(st, c, dk) && Elsewhere(st, c, dk, k)
    ensures var t := Find(st.tables, st.stacks[k].ids, x, stop); t.Some? ==> t.value != c && t.value != 0
  {
  }

  lemma PutLeft(st: Store, t: nat, x: string, v: Value, g: bool, c: nat, dk: int)
    requires Outside(st, c, dk) && t < |st.tables|
    requires t == c ==> t == 0 && (x == COMP_NAME || (x in st.tables[0].m && st.tables[0].m[x].global))
    ensures Left(st, Put(st, t, x, v, g), c, dk)
  {
  }

  lemma SetVarLeft(st: Store, k: nat, x: string, v: Value, g: bool, c: nat, dk: int)
    requires Outside(st, c, dk) && Elsewhere(st, c, dk, k)
    ensures Left(st, SetVar(st, k, x, v, g), c, dk)
  {
    var stop := if st.stacks[k].posFunc >= 0 then st.stacks[k].posFunc else 0;
    FindIn(st, k, x, stop, c, dk);
    TopIn(st, k, c, dk);
    PutLeft(st, WriteSite(st, k, x), x, v, g && |st.stacks[k].ids| == 0 && st.stacks[k].posFunc < 0, c, dk);
  }

  lemma TopIn(st: Store, k: nat, c: nat, dk: int)
    requires Outside(st, c, dk) && Elsewhere(st, c, dk, k)
    ensures Top(st, k) != c
  {
    var ids := st.stacks[k].ids;
    if |ids| > 0 {
      assert ids[|ids| - 1] in ids;
    }
  }

  lemma {:induction false} SetEntriesLeft(st: Store, k: nat, xs: seq<string>, vs: seq<Value>, c: nat, dk: int)
    requires Outside(st, c, dk) && Elsewhere(st, c, dk, k) && |xs| == |vs|
    ensures Left(st, SetEntries(st, k, xs, vs), c, dk)
    decreases |xs|
  {
    if |xs| > 0 {
      var s1 := SetEntry(st, k, xs[0], vs[0]);
      TopIn(st, k, c, dk);
      PutLeft(st, Top(st, k), xs[0], vs[0], false, c, dk);
      SetEntriesLeft(s1, k, xs[1..], vs[1..], c, dk);
      LeftTrans(st, s1, SetEntries(s1, k, xs[1..], vs[1..]), c, dk);
    }
  }

  lemma {:induction false} PutOnFuncsLeft(st: Store, ids: seq<nat>, x: string, v: Value, c: nat, dk: int)
    requires Outside(st, c, dk) && ValidIds(ids, |st.tables|) && c !in ids
    ensures Left(st, PutOnFuncs(st, ids, x, v), c, dk)
    decreases |ids|
  {
    if |ids| > 0 {
      var t := ids[|ids| - 1];
      assert t in ids;
      var s1 := if st.tables[t].kind == FuncTable then Put(st, t, x, v, false) else st;
      PutLeft(st, t, x, v, false, c, dk);
      PutOnFuncsLeft(s1, ids[..|ids| - 1], x, v, c, dk);
      LeftTrans(st, s1, PutOnFuncs(s1, ids[..|ids| - 1], x, v), c, dk);
    }
  }

  lemma {:induction false} AssignEachLeft(st: Store, k: nat, xs: seq<string>, vs: seq<Value>, g: bool, c: nat, dk: int)
    requires Outside(st, c, dk) && Elsewhere(st, c, dk, k) && |xs| == |vs|
    ensures Left(st, AssignEach(st, k, xs, vs, g), c, dk)
    decreases |xs|
  {
    if |xs| > 0 {
      var s1 := SetVar(st, k, xs[0], vs[0], g);
      SetVarLeft(st, k, xs[0], vs[0], g, c, dk);
      ElsewhereExt(st, s1, c, dk, k);
      AssignEachLeft(s1, k, xs[1..], vs[1..], g, c, dk);
      LeftTrans(st, s1, AssignEach(s1, k, xs[1..], vs[1..], g), c, dk);
    }
  }

  lemma AssignAllLeft(st: Store, k: nat, xs: seq<string>, vs: seq<Value>, g: bool, c: nat, dk: int)
    requires Outside(st, c, dk) && Elsewhere(st, c, dk, k)
    ensures Left(st, AssignAll(st, k, xs, vs, g).1, c, dk)
  {
    if |xs| == 1 && |vs| != 1 {
      AssignEachLeft(st, k, xs, [List(vs)], g, c, dk);
    } else if |xs| == |vs| {
      AssignEachLeft(st, k, xs, vs, g, c, dk);
    } else if |vs| == 1 && vs[0].List? && |vs[0].elems| == |xs| {
      AssignEachLeft(st, k, xs, vs[0].elems, g, c, dk);
    }
  }

  lemma PushLeft(st: Store, k: nat, kind: TableKind, c: nat, dk: int)
    requires Outside(st, c, dk) && k < |st.stacks| && k != dk
    requires c == 0 ==> kind == FuncTable || st.stacks[k].posFunc >= 0
    ensures Left(st, Push(st, k, kind), c, dk) && Elsewhere(Push(st, k, kind), c, dk, k)
  {
  }

  /** Popping the table that was pushed: the whole bracket left c alone. */
  lemma PopLeft(st: Store, s1: Store, s2: Store, k: nat, c: nat, dk: int)
    requires Left(st, s1, c, dk) && Left(s1, s2, c, dk) && Ext(s1, s2) && s1.defers <= s2.defers
    requires st.defers == s1.defers
    requires k < |s2.stacks| && |s2.stacks[k].ids| > 0 && Ext(st, Pop(s2, k))
    requires c == 0 ==> Elsewhere(st, c, dk, k)
    ensures Left(st, Pop(s2, k), c, dk)
  {
    var s3 := Pop(s2, k);
    forall i | |st.defers| <= i < |s3.defers| ensures Elsewhere(s3, c, dk, s3.defers[i].k) {
      var d := s2.defers[i];
      assert Elsewhere(s2, c, dk, d.k);
      if d.k == k && c == 0 {
        ElsewhereExt(st, s3, c, dk, k);
      }
    }
  }

  lemma PushDeferLeft(st: Store, k: nat, s: Stmt, c: nat, dk: int)
    requires Outside(st, c, dk) && Elsewhere(st, c, dk, k)
    ensures Left(st, PushDefer(st, k, s), c, dk)
  {
    var st' := PushDefer(st, k, s);
    var d := st'.stacks[|st.stacks|];
    forall i | 0 <= i < |d.ids| ensures d.ids[i] != c {
      if i < |st.stacks[k].ids| {
        assert st.stacks[k].ids[i] in st.stacks[k].ids;
      }
    }
  }

  lemma DeclareLeft(st: Store, k: nat, name: string, params: seq<string>, ss: seq<Stmt>, c: nat, dk: int)
    requires Outside(st, c, dk) && Elsewhere(st, c, dk, k)
    ensures Left(st, Declare(st, k, name, params, ss), c, dk)
  {
    var s1 := st.(stacks := st.stacks + [Stack([], -1)], funcs := st.funcs + [FuncObj(params, ss, |st.stacks|)]);
    assert Outside(s1, c, dk) && Elsewhere(s1, c, dk, k);
    TopIn(s1, k, c, dk);
    PutLeft(s1, Top(s1, k), name, Func(|st.funcs|), true, c, dk);
  }

  lemma AccSiteLeft(st: Store, t: nat, v: Value, c: nat, dk: int, k: nat)
    requires Outside(st, c, dk) && Elsewhere(st, c, dk, k)
    requires t == (var site := ReadSite(st, k, COMP_NAME); if site.Some? then site.value else Top(st, k))
    ensures Left(st, Put(st, t, COMP_NAME, v, false), c, dk)
  {
    FindIn(st, k, COMP_NAME, 0, c, dk);
    TopIn(st, k, c, dk);
    PutLeft(st, t, COMP_NAME, v, false, c, dk);
  }

  // ----- runs -----

  lemma {:induction false} EvalLeft(n: nat, e: Expr, st: Store, k: nat, c: nat, dk: int)
    requires Good(st, k) && Outside(st, c, dk) && Elsewhere(st, c, dk, k)
    ensures Left(st, Eval(n, e, st, k).1, c, dk)
    decreases n, e, 2
  {
    hide WF, Ext, Outside, Elsewhere, Kept, NewDefers;
    Stay(st, c, dk);
    match e
    case Lit(_) =>
    case Var(_) =>
    case Op(_, l, r) =>
      var (a, s1) := Eval(n, l, st, k);
      EvalLeft(n, l, st, k, c, dk);
      if a.Ok? {
        ElsewhereExt(st, s1, c, dk, k);
        EvalLeft(n, r, s1, k, c, dk);
        LeftTrans(st, s1, Eval(n, r, s1, k).1, c, dk);
      }
    case ListLit(es) =>
      EvalAllLeft(n, es, st, k, c, dk);
    case Call(f, args) =>
      var (fv, s1) := Eval(n, f, st, k);
      EvalLeft(n, f, st, k, c, dk);
      if fv.Ok? {
        ElsewhereExt(st, s1, c, dk, k);
        var (vs, s2) := EvalAll(n, args, s1, k);
        EvalAllLeft(n, args, s1, k, c, dk);
        LeftTrans(st, s1, s2, c, dk);
        if vs.Ok? {
          InvokeLeft(n, e, fv.v, vs.v, s2, c, dk);
          LeftTrans(st, s2, Invoke(n, e, fv.v, vs.v, s2).1, c, dk);
        }
      }
    case Comp(_, _) =>
      RunCompLeft(n, e, st, k, c, dk);
  }

  lemma Stay(st: Store, c: nat, dk: int)
    requires Outside(st, c, dk)
    ensures Left(st, st, c, dk)
  {
  }

  lemma {:induction false} EvalAllLeft(n: nat, es: seq<Expr>, st: Store, k: nat, c: nat, dk: int)
    requires Good(st, k) && Outside(st, c, dk) && Elsewhere(st, c, dk, k)
    ensures Left(st, EvalAll(n, es, st, k).1, c, dk)
    decreases n, es, 0
  {
    hide WF, Ext, Outside, Elsewhere, Kept, NewDefers;
    Stay(st, c, dk);
    if es != [] {
      var (v, s1) := Eval(n, es[0], st, k);
      EvalLeft(n, es[0], st, k, c, dk);
      if v.Ok? {
        ElsewhereExt(st, s1, c, dk, k);
        EvalAllLeft(n, es[1..], s1, k, c, dk);
        LeftTrans(st, s1, EvalAll(n, es[1..], s1, k).1, c, dk);
      }
    }
  }

  /** A call leaves c alone whatever stack the caller runs on. */
  lemma {:induction false} InvokeLeft(n: nat, e: Expr, fv: Value, vs: seq<Value>, st: Store, c: nat, dk: int)
    requires WF(st) && Outside(st, c, dk)
    ensures Left(st, Invoke(n, e, fv, vs, st).1, c, dk)
    decreases n, e, 1
  {
    hide Ext, Elsewhere, Kept, Activate;
    Stay(st, c, dk);
    if fv.Func? && fv.fid < |st.funcs| && n > 0 {
      var fo := st.funcs[fv.fid];
      PushLeft(st, fo.k, FuncTable, c, dk);
      var s1 := Enter(st, fo.k);
      EnterOutside(st, fo.k, c, dk);
      ActivateLeft(n, e, fo, vs, s1, c, dk);
      var s2 := Activate(n, e, fo, vs, s1).1;
      LeaveLeft(st, fo.k, s2, c, dk);
    }
  }

  lemma EnterOutside(st: Store, k: nat, c: nat, dk: int)
    requires Good(st, k) && Outside(st, c, dk) && k != dk
    ensures Good(Enter(st, k), k) && Outside(Enter(st, k), c, dk) && Elsewhere(Enter(st, k), c, dk, k)
  {
    PushLeft(st, k, FuncTable, c, dk);
  }

  lemma LeaveLeft(st: Store, k: nat, s2: Store, c: nat, dk: int)
    requires Good(st, k) && Good(s2, k) && Outside(st, c, dk) && k != dk
    requires Ext(Enter(st, k), s2) && Left(Enter(st, k), s2, c, dk)
    ensures Left(st, Leave(st, k, s2), c, dk)
  {
    PushLeft(st, k, FuncTable, c, dk);
  }

  lemma {:induction false} ActivateLeft(n: nat, e: Expr, fo: FuncObj, vs: seq<Value>, s1: Store, c: nat, dk: int)
    requires Good(s1, fo.k) && n > 0 && s1.defers == []
    requires Outside(s1, c, dk) && Elsewhere(s1, c, dk, fo.k)
    ensures Left(s1, Activate(n, e, fo, vs, s1).1, c, dk)
    decreases n, e, 0
  {
    hide WF, Ext, Outside, Elsewhere, Kept, RunList, RunDefers, SetEntries;
    Stay(s1, c, dk);
    if |vs| == |fo.params| {
      var s2 := SetEntries(s1, fo.k, fo.params, vs);
      SetEntriesLeft(s1, fo.k, fo.params, vs, c, dk);
      ElsewhereExt(s1, s2, c, dk, fo.k);
      RunListLeft(n - 1, fo.ss, s2, fo.k, false, c, dk);
      var (o, s3) := RunList(n - 1, fo.ss, s2, fo.k, false);
      LeftTrans(s1, s2, s3, c, dk);
      if !o.Stuck? {
        RunDefersLeft(n - 1, s3, false, c, dk);
        LeftDefers(s1, s3, RunDefers(n - 1, s3, false).1, c, dk);
      }
    }
  }

  /** The deferred statements of an activation are consumed, so only what they did to
      the tables matters afterwards. */
  ghost predicate Ran(st: Store, st': Store, c: nat, dk: int) {
    Outside(st, c, dk) && Outside(st', c, dk) && Kept(st, st', c)
    && forall i | 0 <= i < |st'.defers| :: Elsewhere(st', c, dk, st'.defers[i].k)
  }

  lemma LeftDefers(a: Store, b: Store, d: Store, c: nat, dk: int)
    requires Left(a, b, c, dk) && Ran(b, d, c, dk)
    ensures Left(a, d, c, dk)
  {
  }

  lemma {:induction false} RunDefersLeft(n: nat, st: Store, root: bool, c: nat, dk: int)
    requires WF(st) && Outside(st, c, dk)
    requires forall i | 0 <= i < |st.defers| :: Elsewhere(st, c, dk, st.defers[i].k)
    ensures Ran(st, RunDefers(n, st, root).1, c, dk)
    decreases n
  {
    hide Ext, Elsewhere, Kept, RunStmt;
    Stay(st, c, dk);
    if st.defers != [] && n > 0 {
      var d := st.defers[|st.defers| - 1];
      var (o, s1) := RunStmt(n - 1, d.s, st, d.k, root);
      RunStmtLeft(n - 1, d.s, st, d.k, root, c, dk);
      DefersElsewhere(st, s1, c, dk);
      if !o.Raised? && !o.Stuck? {
        var s2 := s1.(defers := s1.defers[..|s1.defers| - 1]);
        DropDefer(s1, c, dk);
        RunDefersLeft(n - 1, s2, root, c, dk);
        RanTrans(st, s1, RunDefers(n - 1, s2, root).1, c, dk);
      }
    }
  }

  lemma DefersElsewhere(st: Store, s1: Store, c: nat, dk: int)
    requires Left(st, s1, c, dk) && Ext(st, s1) && st.defers <= s1.defers
    requires forall i | 0 <= i < |st.defers| :: Elsewhere(st, c, dk, st.defers[i].k)
    ensures Ran(st, s1, c, dk)
  {
  }

  lemma DropDefer(s1: Store, c: nat, dk: int)
    requires Outside(s1, c, dk) && |s1.defers| > 0
    requires forall i | 0 <= i < |s1.defers| :: Elsewhere(s1, c, dk, s1.defers[i].k)
    ensures var s2 := s1.(defers := s1.defers[..|s1.defers| - 1]);
            && Outside(s2, c, dk)
            && forall i | 0 <= i < |s2.defers| :: Elsewhere(s2, c, dk, s2.defers[i].k)
  {
  }

  lemma RanTrans(a: Store, b: Store, d: Store, c: nat, dk: int)
    requires Ran(a, b, c, dk) && |b.defers| > 0 && Ran(b.(defers := b.defers[..|b.defers| - 1]), d, c, dk)
    ensures Ran(a, d, c, dk)
  {
  }

  lemma {:induction false} RunCompLeft(n: nat, e: Expr, st: Store, k: nat, c: nat, dk: int)
    requires Good(st, k) && Outside(st, c, dk) && Elsewhere(st, c, dk, k) && e.Comp?
    ensures Left(st, RunComp(n, e, st, k).1, c, dk)
    decreases n, e, 0
  {
    hide WF, Ext, Outside, Kept, NewDefers, FillAcc;
    Stay(st, c, dk);
    if n > 0 && e.clauses != [] {
      var s1 := Push(st, k, ScopeTable);
      PushLeft(st, k, ScopeTable, c, dk);
      FillAccLeft(n, e, s1, k, c, dk);
      var s2 := FillAcc(n, e, s1, k).1;
      PopExt(st, k, ScopeTable, s2);
      PopLeft(st, s1, s2, k, c, dk);
    }
  }

  lemma {:induction false} FillAccLeft(n: nat, e: Expr, st: Store, k: nat, c: nat, dk: int)
    requires Good(st, k) && Outside(st, c, dk) && Elsewhere(st, c, dk, k)
    requires e.Comp? && e.clauses != [] && n > 0
    ensures Left(st, FillAcc(n, e, st, k).1, c, dk)
    decreases n, e, -1
  {
    hide WF, Ext, Elsewhere, Kept, RunStmt, Nest;
    var site := ReadSite(st, k, COMP_NAME);
    var s1 := AccInit(st, k);
    AccSiteLeft(st, if site.Some? then site.value else Top(st, k), List([]), c, dk, k);
    ElsewhereExt(st, s1, c, dk, k);
    RunStmtLeft(n - 1, Nest(e.clauses, e.res), s1, k, false, c, dk);
    var s2 := RunStmt(n - 1, Nest(e.clauses, e.res), s1, k, false).1;
    LeftTrans(st, s1, s2, c, dk);
    ResetDefers(st, s1, s2, c, dk);
  }

  lemma ResetDefers(st: Store, s1: Store, s2: Store, c: nat, dk: int)
    requires Left(st, s2, c, dk) && Ext(st, s1) && Ext(s1, s2)
    ensures Left(st, s2.(defers := st.defers), c, dk)
  {
  }

  lemma {:induction false} AssignStmtLeft(n: nat, xs: seq<string>, es: seq<Expr>, g: bool, st: Store, k: nat,
          c: nat, dk: int)
    requires Good(st, k) && Outside(st, c, dk) && Elsewhere(st, c, dk, k)
    ensures Left(st, AssignStmt(n, xs, es, g, st, k).1, c, dk)
    decreases n, es, 1
  {
    hide WF, Ext, Outside, Elsewhere, Kept, NewDefers, AssignAll, EvalAll;
    var (vs, s1) := EvalAll(n, es, st, k);
    EvalAllLeft(n, es, st, k, c, dk);
    if vs.Ok? {
      ElsewhereExt(st, s1, c, dk, k);
      AssignAllLeft(s1, k, xs, vs.v, g, c, dk);
      LeftTrans(st, s1, AssignAll(s1, k, xs, vs.v, g).1, c, dk);
    }
  }

  lemma {:induction false} RunListLeft(n: nat, ss: seq<Stmt>, st: Store, k: nat, root: bool, c: nat, dk: int)
    requires Good(st, k) && Outside(st, c, dk) && Elsewhere(st, c, dk, k)
    ensures Left(st, RunList(n, ss, st, k, root).1, c, dk)
    decreases n, ss, 0
  {
    hide WF, Ext, Outside, Elsewhere, Kept, NewDefers, RunStmt;
    Stay(st, c, dk);
    if ss != [] {
      var (o, s1) := RunStmt(n, ss[0], st, k, root);
      RunStmtLeft(n, ss[0], st, k, root, c, dk);
      if o.Normal? {
        ElsewhereExt(st, s1, c, dk, k);
        RunListLeft(n, ss[1..], s1, k, root, c, dk);
        LeftTrans(st, s1, RunList(n, ss[1..], s1, k, root).1, c, dk);
      }
    }
  }

  lemma {:induction false} RunStmtLeft(n: nat, s: Stmt, st: Store, k: nat, root: bool, c: nat, dk: int)
    requires Good(st, k) && Outside(st, c, dk) && Elsewhere(st, c, dk, k)
    ensures Left(st, RunStmt(n, s, st, k, root).1, c, dk)
    decreases n, s, 3
  {
    hide WF, Ext, Outside, Kept, NewDefers, Declare, PushDefer, RunValue, RunAppend, AssignStmt, RunIf, RunWhile,
         RunForIn, RunTry;
    Stay(st, c, dk);
    var s1 := Push(st, k, ScopeTable);
    if s.If? || s.While? || s.ForIn? || s.Try? {
      PushLeft(st, k, ScopeTable, c, dk);
      var s2 := ScopedRun(n, s, s1, k).1;
      ScopedLeft(n, s, s1, k, c, dk);
      PopExt(st, k, ScopeTable, s2);
      PopLeft(st, s1, s2, k, c, dk);
    } else if s.Do? || s.Print? || s.Return? || s.Throw? {
      RunValueLeft(n, s, st, k, c, dk);
    } else {
      match s
      case Assign(xs, es) => AssignStmtLeft(n, xs, es, false, st, k, c, dk);
      case Global(xs, es) => AssignStmtLeft(n, xs, es, true, st, k, c, dk);
      case FuncDecl(name, params, ss) => DeclareLeft(st, k, name, params, ss, c, dk);
      case Defer(d) => PushDeferLeft(st, k, d, c, dk);
      case Block(ss) => RunListLeft(n, ss, st, k, false, c, dk);
      case Append(_) => RunAppendLeft(n, s, st, k, c, dk);
      case _ =>
    }
  }

  lemma {:induction false} ScopedLeft(n: nat, s: Stmt, st: Store, k: nat, c: nat, dk: int)
    requires Good(st, k) && Outside(st, c, dk) && Elsewhere(st, c, dk, k)
    requires s.If? || s.While? || s.ForIn? || s.Try?
    ensures Left(st, ScopedRun(n, s, st, k).1, c, dk)
    decreases n, s, 2
  {
    hide WF, Ext, Outside, Elsewhere, Kept, NewDefers, RunIf, RunWhile, RunForIn, RunTry;
    match s
    case If(_, _, _) => RunIfLeft(n, s, st, k, c, dk);
    case While(_, _) => RunWhileLeft(n, s, st, k, c, dk);
    case ForIn(_, _, _) => RunForInLeft(n, s, st, k, c, dk);
    case Try(_, _) => RunTryLeft(n, s, st, k, c, dk);
  }

  lemma {:induction false} RunValueLeft(n: nat, s: Stmt, st: Store, k: nat, c: nat, dk: int)
    requires Good(st, k) && Outside(st, c, dk) && Elsewhere(st, c, dk, k)
    requires s.Do? || s.Print? || s.Return? || s.Throw?
    ensures Left(st, RunValue(n, s, st, k).1, c, dk)
    decreases n, s, 1
  {
    hide Ext, Kept, NewDefers, Eval, PutOnFuncs;
    var (v, s1) := Eval(n, s.e, st, k);
    EvalLeft(n, s.e, st, k, c, dk);
    if v.Ok? {
      match s
      case Print(_) => OutLeft(st, s1, v.v, c, dk);
      case Return(_) =>
        ElsewhereExt(st, s1, c, dk, k);
        NotOn(s1, k, c, dk);
        PutOnFuncsLeft(s1, s1.stacks[k].ids, RETURN_NAME, v.v, c, dk);
        LeftTrans(st, s1, PutOnFuncs(s1, s1.stacks[k].ids, RETURN_NAME, v.v), c, dk);
      case _ =>
    }
  }

  lemma OutLeft(st: Store, s1: Store, v: Value, c: nat, dk: int)
    requires Left(st, s1, c, dk)
    ensures Left(st, s1.(out := s1.out + [v]), c, dk)
  {
  }

  lemma NotOn(st: Store, k: nat, c: nat, dk: int)
    requires Outside(st, c, dk) && Elsewhere(st, c, dk, k)
    ensures ValidIds(st.stacks[k].ids, |st.tables|) && c !in st.stacks[k].ids
  {
  }

  lemma {:induction false} RunAppendLeft(n: nat, s: Stmt, st: Store, k: nat, c: nat, dk: int)
    requires Good(st, k) && Outside(st, c, dk) && Elsewhere(st, c, dk, k) && s.Append?
    ensures Left(st, RunAppend(n, s, st, k).1, c, dk)
    decreases n, s, 1
  {
    hide WF, Ext, Elsewhere, Kept, NewDefers, Eval;
    Stay(st, c, dk);
    var (v, s1) := Eval(n, s.e, st, k);
    EvalLeft(n, s.e, st, k, c, dk);
    if Lookup(st, k, COMP_NAME).Some? && v.Ok? {
      ElsewhereExt(st, s1, c, dk, k);
      var site := ReadSite(s1, k, COMP_NAME);
      if site.Some? && s1.tables[site.value].m[COMP_NAME].v.List? {
        var acc := List(s1.tables[site.value].m[COMP_NAME].v.elems + [v.v]);
        AccSiteLeft(s1, site.value, acc, c, dk, k);
        LeftTrans(st, s1, Put(s1, site.value, COMP_NAME, acc, false), c, dk);
      }
    }
  }

  lemma {:induction false} EvalCondLeft(n: nat, e: Expr, st: Store, k: nat, c: nat, dk: int)
    requires Good(st, k) && Outside(st, c, dk) && Elsewhere(st, c, dk, k)
    ensures Left(st, EvalCond(n, e, st, k).1, c, dk)
    decreases n, e, 3
  {
    hide WF, Ext, Outside, Elsewhere, Kept, NewDefers, Eval;
    EvalLeft(n, e, st, k, c, dk);
  }

  lemma {:induction false} RunIfLeft(n: nat, s: Stmt, st: Store, k: nat, c: nat, dk: int)
    requires Good(st, k) && Outside(st, c, dk) && Elsewhere(st, c, dk, k) && s.If?
    ensures Left(st, RunIf(n, s, st, k).1, c, dk)
    decreases n, s, 1
  {
    hide WF, Ext, Outside, Elsewhere, Kept, NewDefers, EvalCond, RunList, RunStmt;
    var (b, s1) := EvalCond(n, s.cond, st, k);
    EvalCondLeft(n, s.cond, st, k, c, dk);
    if b.Ok? {
      ElsewhereExt(st, s1, c, dk, k);
      if b.v {
        RunListLeft(n, s.ss, s1, k, false, c, dk);
        LeftTrans(st, s1, RunList(n, s.ss, s1, k, false).1, c, dk);
      } else {
        match s.els
        case NoElse =>
        case ElseBlock(es) =>
          RunListLeft(n, es, s1, k, false, c, dk);
          LeftTrans(st, s1, RunList(n, es, s1, k, false).1, c, dk);
        case ElseIf(s') =>
          RunStmtLeft(n, s', s1, k, false, c, dk);
          LeftTrans(st, s1, RunStmt(n, s', s1, k, false).1, c, dk);
      }
    }
  }

  lemma {:induction false} RunBodyLeft(n: nat, ss: seq<Stmt>, st: Store, k: nat, c: nat, dk: int)
    requires Good(st, k) && Outside(st, c, dk) && Elsewhere(st, c, dk, k)
    ensures Left(st, RunBody(n, ss, st, k).1, c, dk)
    decreases n, ss, 1
  {
    hide WF, Ext, Outside, Kept, NewDefers, RunList;
    var s1 := Push(st, k, ScopeTable);
    PushLeft(st, k, ScopeTable, c, dk);
    RunListLeft(n, ss, s1, k, false, c, dk);
    var s2 := RunList(n, ss, s1, k, false).1;
    PopExt(st, k, ScopeTable, s2);
    PopLeft(st, s1, s2, k, c, dk);
  }

  lemma {:induction false} RunWhileLeft(n: nat, s: Stmt, st: Store, k: nat, c: nat, dk: int)
    requires Good(st, k) && Outside(st, c, dk) && Elsewhere(st, c, dk, k) && s.While?
    ensures Left(st, RunWhile(n, s, st, k).1, c, dk)
    decreases n, s, 1
  {
    hide WF, Ext, Outside, Elsewhere, Kept, NewDefers, EvalCond, RunBody;
    var (b, s1) := EvalCond(n, s.cond, st, k);
    EvalCondLeft(n, s.cond, st, k, c, dk);
    if b.Ok? && b.v && n > 0 {
      ElsewhereExt(st, s1, c, dk, k);
      RunBodyLeft(n, s.ss, s1, k, c, dk);
      var (o, s2) := RunBody(n, s.ss, s1, k);
      LeftTrans(st, s1, s2, c, dk);
      if o.Normal? || o.Continued? {
        ElsewhereExt(s1, s2, c, dk, k);
        RunWhileLeft(n - 1, s, s2, k, c, dk);
        LeftTrans(st, s2, RunWhile(n - 1, s, s2, k).1, c, dk);
      }
    }
  }

  lemma {:induction false} RunForInLeft(n: nat, s: Stmt, st: Store, k: nat, c: nat, dk: int)
    requires Good(st, k) && Outside(st, c, dk) && Elsewhere(st, c, dk, k) && s.ForIn?
    ensures Left(st, RunForIn(n, s, st, k).1, c, dk)
    decreases n, s, 1
  {
    hide WF, Ext, Outside, Elsewhere, Kept, NewDefers, EvalAll, RunRows;
    var (vs, s1) := EvalAll(n, s.tests, st, k);
    EvalAllLeft(n, s.tests, st, k, c, dk);
    if vs.Ok? && |vs.v| > 0 && AllLists(vs.v) {
      ElsewhereExt(st, s1, c, dk, k);
      RunRowsLeft(n, s, vs.v, 0, s1, k, c, dk);
      LeftTrans(st, s1, RunRows(n, s, vs.v, 0, s1, k).1, c, dk);
    }
  }

  lemma {:induction false} RunRowsLeft(n: nat, s: Stmt, vs: seq<Value>, p: nat, st: Store, k: nat, c: nat, dk: int)
    requires Good(st, k) && Outside(st, c, dk) && Elsewhere(st, c, dk, k)
    requires s.ForIn? && |vs| > 0 && AllLists(vs)
    ensures Left(st, RunRows(n, s, vs, p, st, k).1, c, dk)
    decreases n, s, 0, |vs[0].elems| - p
  {
    hide WF, Ext, Outside, Elsewhere, Kept, NewDefers, AssignAll, RunBody;
    Stay(st, c, dk);
    if HasRow(vs, p) {
      var (x, s1) := AssignAll(st, k, s.vars, Row(vs, p), false);
      AssignAllLeft(st, k, s.vars, Row(vs, p), false, c, dk);
      ElsewhereExt(st, s1, c, dk, k);
      RunBodyLeft(n, s.ss, s1, k, c, dk);
      LeftTrans(st, s1, RunBody(n, s.ss, s1, k).1, c, dk);
      var (o, s2) := RunRow(n, s, Row(vs, p), st, k);
      assert Left(st, s2, c, dk);
      if o.Normal? || o.Continued? {
        ElsewhereExt(st, s2, c, dk, k);
        RunRowsLeft(n, s, vs, p + 1, s2, k, c, dk);
        LeftTrans(st, s2, RunRows(n, s, vs, p + 1, s2, k).1, c, dk);
      }
    }
  }

  lemma {:induction false} RunTryLeft(n: nat, s: Stmt, st: Store, k: nat, c: nat, dk: int)
    requires Good(st, k) && Outside(st, c, dk) && Elsewhere(st, c, dk, k) && s.Try?
    ensures Left(st, RunTry(n, s, st, k).1, c, dk)
    decreases n, s, 1
  {
    hide WF, Ext, Outside, Elsewhere, Kept, NewDefers, RunList, RunCatches;
    var (o, s1) := RunList(n, s.ss, st, k, false);
    RunListLeft(n, s.ss, st, k, false, c, dk);
    if o.Raised? {
      ElsewhereExt(st, s1, c, dk, k);
      RunCatchesLeft(n, s, 0, o.x, s1, k, c, dk);
      LeftTrans(st, s1, RunCatches(n, s, 0, o.x, s1, k).1, c, dk);
    }
  }

  lemma {:induction false} RunCatchesLeft(n: nat, s: Stmt, i: nat, x: Exn, st: Store, k: nat, c: nat, dk: int)
    requires Good(st, k) && Outside(st, c, dk) && Elsewhere(st, c, dk, k)
    requires s.Try? && i <= |s.catches|
    ensures Left(st, RunCatches(n, s, i, x, st, k).1, c, dk)
    decreases n, s, 0, |s.catches| - i
  {
    hide WF, Ext, Outside, Elsewhere, Kept, NewDefers, EvalAll, RunList, InsertEntry;
    Stay(st, c, dk);
    if i < |s.catches| {
      var h := s.catches[i];
      var (ps, s1) := EvalAll(n, h.pats, st, k);
      EvalAllLeft(n, h.pats, st, k, c, dk);
      if ps.Ok? {
        ElsewhereExt(st, s1, c, dk, k);
        if InstanceOfAny(ExnValue(x), ps.v) {
          var s2 := if h.bind.Some? then InsertEntry(s1, k, h.bind.value, ExnValue(x)) else s1;
          BindLeft(s1, k, h.bind, ExnValue(x), c, dk);
          LeftTrans(st, s1, s2, c, dk);
          ElsewhereExt(s1, s2, c, dk, k);
          RunListLeft(n, h.ss, s2, k, false, c, dk);
          LeftTrans(st, s2, RunList(n, h.ss, s2, k, false).1, c, dk);
        } else {
          RunCatchesLeft(n, s, i + 1, x, s1, k, c, dk);
          LeftTrans(st, s1, RunCatches(n, s, i + 1, x, s1, k).1, c, dk);
        }
      }
    }
  }

  lemma BindLeft(st: Store, k: nat, bind: Option<string>, v: Value, c: nat, dk: int)
    requires Outside(st, c, dk) && Elsewhere(st, c, dk, k)
    ensures var st' := if bind.Some? then InsertEntry(st, k, bind.value, v) else st;
            Left(st, st', c, dk) && Ext(st, st') && st'.defers == st.defers
  {
    TopIn(st, k, c, dk);
    if bind.Some? {
      PutLeft(st, Top(st, k), bind.value, v, true, c, dk);
    }
  }

  // ----- the two results -----

  /** Rebinding safety: a call, with everything it calls in turn, changes no non-global
      binding of the main table, however it ends. */
  lemma CallsNeverRebindMain(n: nat, e: Expr, fv: Value, vs: seq<Value>, st: Store, x: string)
    requires WF(st) && x in st.tables[0].m && !st.tables[0].m[x].global && x != COMP_NAME
    ensures var st' := Invoke(n, e, fv, vs, st).1;
            x in st'.tables[0].m && st'.tables[0].m[x] == st.tables[0].m[x]
  {
    assert Outside(st, 0, -1);
    InvokeLeft(n, e, fv, vs, st, 0, -1);
  }

  /** Snapshot: a name bound in the first function table of the stack when `defer` runs
      is still read with that value on the deferred statement's stack after any further
      statements of the body, whatever they rebind. */
  lemma DeferredReadsSnapshot(n: nat, d: Stmt, ss: seq<Stmt>, st: Store, k: nat, root: bool, x: string)
    requires Good(st, k) && |st.stacks[k].ids| > 0
    requires st.tables[st.stacks[k].ids[0]].kind == FuncTable && x in st.tables[st.stacks[k].ids[0]].m
    ensures var s1 := PushDefer(st, k, d);
            var s2 := RunList(n, ss, s1, k, root).1;
            Lookup(s2, |st.stacks|, x) == Some(st.tables[st.stacks[k].ids[0]].m[x].v)
  {
    var dk := |st.stacks|;
    var ids := st.stacks[k].ids;
    var s1 := PushDefer(st, k, d);
    var c := |st.tables|;
    assert UntilFunc(st.tables, ids) == 1;
    assert s1.stacks[dk].ids == ids + [c];
    assert s1.tables[c] == st.tables[ids[0]];
    assert Outside(s1, c, dk) && Elsewhere(s1, c, dk, k);
    RunListLeft(n, ss, s1, k, root, c, dk);
    var s2 := RunList(n, ss, s1, k, root).1;
    assert s2.stacks[dk].ids == ids + [c];
    assert s2.tables[c] == s1.tables[c];
  }
}
