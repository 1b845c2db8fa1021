/** The interpreter as the executors run it: statements are executed for effect, and
    break, continue and return only ever show as stop flags on the parent chain. Each
    method is proved to end where the reference semantics ends: same store, same output,
    same pending exception, and flags that say what the outcome says. */
module Interpreter {
  import opened Options
  import opened Syntax
  import opened SymbolTables
  import opened Executors
  import B = BigStep

  /** How an execution method returns: normally, or with an exception in flight, or not
      at all. A raised stop flag is a normal return. */
  datatype Exit = Done | Throwing(x: Exn) | Dead(h: Reason)

  function ExitOf(o: B.Outcome): Exit {
    match o
    case Raised(x) => Throwing(x)
    case Stuck(h) => Dead(h)
    case _ => Done
  }

  /** The flags an outcome leaves on the chain of the executor that ran. */
  predicate Settled(c: Chain, o: B.Outcome) {
    match o
    case Broke => Stopped(c, StopBreak)
    case Continued => Stopped(c, StopContinue)
    case Returned => Stopped(c, StopReturn)
    case _ => Live(c)
  }

  // ----- facts the methods use -----

  lemma Absorbed(c: Chain, o: B.Outcome)
    requires MainChain(c)
    ensures Settled(c, o) ==> Live(c)
  {
    match o
    case Broke => if Stopped(c, StopBreak) { MainAbsorbs(c, StopBreak); }
    case Continued => if Stopped(c, StopContinue) { MainAbsorbs(c, StopContinue); }
    case Returned => if Stopped(c, StopReturn) { MainAbsorbs(c, StopReturn); }
    case _ =>
  }

  lemma {:induction false} FindStep(tables: seq<Table>, ids: seq<nat>, x: string, stop: int, i: nat)
    requires ValidIds(ids, |tables|) && 0 < i <= |ids|
    ensures Find(tables, ids[..i], x, stop) ==
            if i - 1 < stop then None
            else if x in tables[ids[i - 1]].m then Some(ids[i - 1])
            else Find(tables, ids[..i - 1], x, stop)
  {
    assert ids[..i][..i - 1] == ids[..i - 1];
  }

  predicate Plain(r: (B.Outcome, Store), st: Store) {
    (r.0.Normal? || r.0.Raised? || r.0.Stuck?) && r.1.defers == st.defers
  }

  /** A rewritten comprehension never breaks, continues, returns or defers. */
  lemma {:induction false} NestOutcome(n: nat, clauses: seq<Clause>, res: Expr, st: Store, k: nat)
    requires Good(st, k) && clauses != []
    ensures Plain(B.RunStmt(n, Nest(clauses, res), st, k, false), st)
    decreases |clauses|, 2
  {
    hide WF, Ext, B.RunRows, B.RunList, B.EvalAll, B.EvalCond, B.Eval;
    match clauses[0] {
      case CompIf(_) =>
        var s := Nest(clauses, res);
        var (c, s1) := B.EvalCond(n, s.cond, Push(st, k, ScopeTable), k);
        NestListOutcome(n, clauses, res, s1, k);
      case CompFor(_, _) =>
        var s := Nest(clauses, res);
        var (vs, s1) := B.EvalAll(n, s.tests, Push(st, k, ScopeTable), k);
        if vs.Ok? && |vs.v| > 0 && B.AllLists(vs.v) {
          NestRowsOutcome(n, clauses, res, vs.v, 0, s1, k);
        }
    }
  }

  lemma {:induction false} NestListOutcome(n: nat, clauses: seq<Clause>, res: Expr, st: Store, k: nat)
    requires Good(st, k) && clauses != []
    ensures Plain(B.RunList(n, Nest(clauses, res).ss, st, k, false), st)
    decreases |clauses|, 0
  {
    var ss := Nest(clauses, res).ss;
    assert ss[0] == if |clauses| == 1 then Append(res) else Nest(clauses[1..], res);
    if |clauses| > 1 {
      NestOutcome(n, clauses[1..], res, st, k);
    }
    B.RunSingle(n, ss[0], st, k);
    assert ss == [ss[0]];
  }

  lemma {:induction false} NestRowsOutcome(n: nat, clauses: seq<Clause>, res: Expr, vs: seq<Value>, p: nat,
          st: Store, k: nat)
    requires Good(st, k) && clauses != [] && clauses[0].CompFor? && |vs| > 0 && B.AllLists(vs)
    ensures Plain(B.RunRows(n, Nest(clauses, res), vs, p, st, k), st)
    decreases |clauses|, 1, 1, |vs[0].elems| - p
  {
    hide WF, Ext, B.RunRow, B.Row, Nest;
    if B.HasRow(vs, p) {
      NestRowOutcome(n, clauses, res, B.Row(vs, p), st, k);
      var (o, s2) := B.RunRow(n, Nest(clauses, res), B.Row(vs, p), st, k);
      if o.Normal? {
        NestRowsOutcome(n, clauses, res, vs, p + 1, s2, k);
      }
    }
  }

  lemma {:induction false} NestRowOutcome(n: nat, clauses: seq<Clause>, res: Expr, row: seq<Value>, st: Store, k: nat)
    requires Good(st, k) && clauses != [] && clauses[0].CompFor?
    ensures Nest(clauses, res).ForIn? && Plain(B.RunRow(n, Nest(clauses, res), row, st, k), st)
    decreases |clauses|, 1, 0
  {
    hide WF, Ext, B.RunList;
    var s := Nest(clauses, res);
    var (x, s1) := B.AssignAll(st, k, s.vars, row, false);
    NestListOutcome(n, clauses, res, Push(s1, k, ScopeTable), k);
    assert Plain(B.RunBody(n, s.ss, s1, k), s1);
  }

  predicate Forwards(kind: Kind) {
    kind.StmtExec? || kind.BlockExec? || kind.PlainExec? || kind.TryExec?
  }

  /** An executor without a flag of its own passes what happened below it upwards. */
  lemma SettledUp(c: Chain, o: B.Outcome)
    requires c.Link? && Forwards(c.kind)
    ensures Settled(c, o) <==> Settled(c.up, o)
  {
  }

  lemma SettledList(c: Chain, o: B.Outcome)
    requires c.Link? && c.kind.ListExec? && Settled(c, o)
    ensures Settled(c.up, o)
  {
  }

  class Interp {
    var tables: seq<Table>
    var stacks: seq<Stack>
    var funcs: seq<FuncObj>
    var out: seq<Value>

    constructor ()
      ensures tables == B.EMPTY.tables && stacks == B.EMPTY.stacks && funcs == [] && out == []
    {
      tables := B.EMPTY.tables;
      stacks := B.EMPTY.stacks;
      funcs := [];
      out := [];
    }

    /** The store as an executor sees it: the deferred statements are those of the
        nearest main executor. */
    ghost function State(p: Executor): Store
      reads this, p.mainExec`defers
    {
      Store(tables, stacks, funcs, out, p.mainExec.defers)
    }

    ghost predicate Ready(p: Executor, k: nat)
      reads this, p.cells`flag, p.mainExec`defers
    {
      p.Valid() && Good(State(p), k) && Live(p.Flags())
    }

    /** The run ended as the reference run (o, st') does. */
    ghost predicate Ended(o: B.Outcome, st': Store, p: Executor, r: Exit)
      requires p.Valid()
      reads this, p.cells`flag, p.mainExec`defers
    {
      && r == ExitOf(o)
      && out == st'.out
      && (!o.Stuck? ==> State(p) == st' && Settled(p.Flags(), o))
    }

    ghost predicate Valued<T>(v: Res<T>, st': Store, p: Executor, r: Res<T>)
      requires p.Valid()
      reads this, p.cells`flag, p.mainExec`defers
    {
      && r == v
      && out == st'.out
      && (!v.Halt? ==> State(p) == st' && Live(p.Flags()))
    }

    // ----- symbol tables -----

    /** The index loop down a stack, from the top to position stop. */
    method FindSite(k: nat, x: string, stop: int) returns (r: Option<nat>)
      requires k < |stacks| && ValidIds(stacks[k].ids, |tables|)
      ensures r == Find(tables, stacks[k].ids, x, stop)
    {
      var ids := stacks[k].ids;
      var i := |ids|;
      assert ids[..i] == ids;
      while i > 0 && i - 1 >= stop
        invariant 0 <= i <= |ids|
        invariant Find(tables, ids[..i], x, stop) == Find(tables, ids, x, stop)
      {
        FindStep(tables, ids, x, stop, i);
        if x in tables[ids[i - 1]].m {
          return Some(ids[i - 1]);
        }
        i := i - 1;
      }
      r := None;
    }

    method ReadFrom(ghost p: Executor, k: nat, x: string) returns (r: Option<nat>)
      requires Ready(p, k)
      ensures r == ReadSite(State(p), k, x)
    {
      r := FindSite(k, x, 0);
      if r.None? && x in tables[0].m {
        r := Some(0);
      }
    }

    method SetVar(ghost p: Executor, k: nat, x: string, v: Value, global: bool)
      requires Ready(p, k)
      modifies this`tables
      ensures State(p) == SymbolTables.SetVar(old(State(p)), k, x, v, global)
    {
      var hasFunc := stacks[k].posFunc >= 0;
      var t := FindSite(k, x, if hasFunc then stacks[k].posFunc else 0);
      var ids := stacks[k].ids;
      var site := if t.Some? then t.value
                  else if x in tables[0].m && (!hasFunc || tables[0].m[x].global) then 0
                  else if |ids| == 0 then 0 else ids[|ids| - 1];
      PutAt(p, site, x, v, global && |ids| == 0 && !hasFunc);
    }

    method PutAt(ghost p: Executor, t: nat, x: string, v: Value, global: bool)
      requires p.Valid() && WF(State(p)) && t < |tables|
      modifies this`tables
      ensures State(p) == Put(old(State(p)), t, x, v, global)
    {
      tables := tables[t := tables[t].(m := PutIn(tables[t].m, x, v, global))];
    }

    method InsertEntry(ghost p: Executor, k: nat, x: string, v: Value)
      requires Ready(p, k)
      modifies this`tables
      ensures State(p) == SymbolTables.InsertEntry(old(State(p)), k, x, v)
    {
      var ids := stacks[k].ids;
      var t := if |ids| == 0 then 0 else ids[|ids| - 1];
      if x !in tables[t].m {
        PutAt(p, t, x, v, true);
      }
    }

    method NewTable(ghost p: Executor, k: nat, kind: TableKind)
      requires Ready(p, k)
      modifies this`tables, this`stacks
      ensures State(p) == Push(old(State(p)), k, kind) && Ready(p, k)
    {
      var s := stacks[k];
      stacks := stacks[k := Stack(s.ids + [|tables|], if kind == FuncTable then |s.ids| else s.posFunc)];
      tables := tables + [Table(kind, map[])];
    }

    method PopTable(ghost p: Executor, k: nat)
      requires p.Valid() && Good(State(p), k) && |stacks[k].ids| > 0
      modifies this`stacks
      ensures State(p) == Pop(old(State(p)), k)
    {
      var s := stacks[k];
      stacks := stacks[k := s.(ids := s.ids[..|s.ids| - 1])];
    }

    /** SetEntryOnFunc: every function table of the stack, from the top down. */
    method SetOnFuncs(ghost p: Executor, k: nat, x: string, v: Value)
      requires p.Valid() && Good(State(p), k)
      modifies this`tables
      ensures State(p) == PutOnFuncs(old(State(p)), stacks[k].ids, x, v)
    {
      var ids := stacks[k].ids;
      var i := |ids|;
      assert ids[..i] == ids;
      while i > 0
        invariant 0 <= i <= |ids|
        invariant WF(State(p)) && ValidIds(ids, |tables|)
        invariant PutOnFuncs(State(p), ids[..i], x, v) == PutOnFuncs(old(State(p)), ids, x, v)
      {
        assert ids[..i][..i - 1] == ids[..i - 1];
        i := i - 1;
        if tables[ids[i]].kind == FuncTable {
          PutAt(p, ids[i], x, v, false);
        }
      }
    }

    method SetEntry(ghost p: Executor, k: nat, x: string, v: Value)
      requires Ready(p, k)
      modifies this`tables
      ensures State(p) == SymbolTables.SetEntry(old(State(p)), k, x, v)
    {
      var ids := stacks[k].ids;
      PutAt(p, if |ids| == 0 then 0 else ids[|ids| - 1], x, v, false);
    }

    method BindParams(ghost p: Executor, k: nat, xs: seq<string>, vs: seq<Value>)
      requires Ready(p, k) && |xs| == |vs|
      modifies this`tables
      ensures State(p) == SetEntries(old(State(p)), k, xs, vs)
      ensures Ready(p, k)
    {
      hide WF, Ext, SymbolTables.SetEntry;
      var i := 0;
      assert xs[0..] == xs && vs[0..] == vs;
      while i < |xs|
        invariant 0 <= i <= |xs|
        invariant Ready(p, k)
        invariant SetEntries(State(p), k, xs[i..], vs[i..]) == SetEntries(old(State(p)), k, xs, vs)
      {
        assert xs[i..][1..] == xs[i + 1..] && vs[i..][1..] == vs[i + 1..];
        SetEntry(p, k, xs[i], vs[i]);
        i := i + 1;
      }
    }

    method AssignAll(ghost p: Executor, k: nat, xs: seq<string>, vs: seq<Value>, g: bool) returns (r: Option<Exn>)
      requires Ready(p, k)
      modifies this`tables
      ensures (r, State(p)) == B.AssignAll(old(State(p)), k, xs, vs, g)
    {
      if |xs| == 1 && |vs| != 1 {
        AssignEach(p, k, xs, [List(vs)], g);
      } else if |xs| == |vs| {
        AssignEach(p, k, xs, vs, g);
      } else if |vs| == 1 && vs[0].List? && |vs[0].elems| == |xs| {
        AssignEach(p, k, xs, vs[0].elems, g);
      } else {
        return Some(Internal(TYPE_ERROR));
      }
      r := None;
    }

    method AssignEach(ghost p: Executor, k: nat, xs: seq<string>, vs: seq<Value>, g: bool)
      requires Ready(p, k) && |xs| == |vs|
      modifies this`tables
      ensures State(p) == B.AssignEach(old(State(p)), k, xs, vs, g)
    {
      hide SymbolTables.SetVar, WF, Ext, Executor.Valid, Executor.Flags;
      var i := 0;
      assert xs[0..] == xs && vs[0..] == vs;
      while i < |xs|
        invariant 0 <= i <= |xs|
        invariant Ready(p, k)
        invariant B.AssignEach(State(p), k, xs[i..], vs[i..], g) == B.AssignEach(old(State(p)), k, xs, vs, g)
      {
        assert xs[i..][1..] == xs[i + 1..] && vs[i..][1..] == vs[i + 1..];
        SetVar(p, k, xs[i], vs[i], g);
        i := i + 1;
      }
    }

    /** The tables from the bottom of the stack up to the first function table. */
    method UntilFuncTable(ids: seq<nat>) returns (c: nat)
      requires ValidIds(ids, |tables|)
      ensures c == UntilFunc(tables, ids)
    {
      c := 0;
      assert ids[0..] == ids;
      while c < |ids|
        invariant 0 <= c <= |ids|
        invariant UntilFunc(tables, ids) == c + UntilFunc(tables, ids[c..])
      {
        assert ids[c..][1..] == ids[c + 1..];
        c := c + 1;
        if tables[ids[c - 1]].kind == FuncTable {
          return;
        }
      }
    }

    method Defer(p: Executor, k: nat, s: Stmt)
      requires Ready(p, k)
      modifies this`tables, this`stacks, p.mainExec`defers
      ensures State(p) == PushDefer(old(State(p)), k, s)
    {
      var main := p.GetMainExecutor();
      var ids := stacks[k].ids;
      var c := UntilFuncTable(ids);
      var n := |tables|;
      var was := tables;
      tables := was + seq(c, i requires 0 <= i < c => was[ids[i]]);
      main.defers := main.defers + [Deferred(s, |stacks|)];
      stacks := stacks + [Stack(ids + seq(c, i requires 0 <= i < c => n + i), stacks[k].posFunc)];
    }

    method Declare(ghost p: Executor, k: nat, name: string, params: seq<string>, ss: seq<Stmt>)
      requires Ready(p, k)
      modifies this`tables, this`stacks, this`funcs
      ensures State(p) == SymbolTables.Declare(old(State(p)), k, name, params, ss)
    {
      funcs := funcs + [FuncObj(params, ss, |stacks|)];
      stacks := stacks + [Stack([], -1)];
      InsertEntry(p, k, name, Func(|funcs| - 1));
    }

    // ----- expressions -----

    method Eval(n: nat, e: Expr, p: Executor, k: nat) returns (r: Res<Value>)
      requires Ready(p, k)
      modifies this, p.cells`flag, p.mainExec`defers
      ensures var (v, st') := B.Eval(n, e, old(State(p)), k); Valued(v, st', p, r)
      decreases n, e, 3
    {
      hide WF, Ext, B.EvalAll, B.EvalCall, B.RunComp;
      match e {
        case Lit(v) => r := Ok(v);
        case Var(x) =>
          var site := ReadFrom(p, k, x);
          r := if site.Some? then Ok(tables[site.value].m[x].v) else Exc(Internal(LOOKUP_ERROR));
        case Op(op, le, re) =>
          var a := Eval(n, le, p, k);
          if !a.Ok? {
            return a;
          }
          var b := Eval(n, re, p, k);
          r := if b.Ok? then ApplyPrim(op, a.v, b.v) else b;
        case ListLit(es) =>
          var vs := EvalAll(n, es, p, k);
          r := match vs case Ok(v) => Ok(List(v)) case Exc(x) => Exc(x) case Halt(h) => Halt(h);
        case Call(_, _) =>
          r := ExecFuncCall(n, e, p, k);
        case Comp(_, _) =>
          r := ExecComp(n, e, p, k);
      }
    }

    /** FuncCallExecutor::Exec. */
    method ExecFuncCall(n: nat, e: Expr, p: Executor, k: nat) returns (r: Res<Value>)
      requires Ready(p, k) && e.Call?
      modifies this, p.cells`flag, p.mainExec`defers
      ensures var (v, st') := B.EvalCall(n, e, old(State(p)), k); Valued(v, st', p, r)
      decreases n, e, 2
    {
      hide WF, Ext, B.Eval, B.EvalAll, B.Invoke;
      var c := new Executor(CallExec, p);
      var fv := Eval(n, e.f, c, k);
      if !fv.Ok? {
        return fv;
      }
      var vs := EvalAll(n, e.args, c, k);
      match vs {
        case Ok(v) => r := Invoke(n, e, fv.v, v, c, k);
        case Exc(x) => r := Exc(x);
        case Halt(h) => r := Halt(h);
      }
    }

    method EvalAll(n: nat, es: seq<Expr>, p: Executor, k: nat) returns (r: Res<seq<Value>>)
      requires Ready(p, k)
      modifies this, p.cells`flag, p.mainExec`defers
      ensures var (v, st') := B.EvalAll(n, es, old(State(p)), k); Valued(v, st', p, r)
      decreases n, es, 0
    {
      hide WF, Ext;
      if es == [] {
        return Ok([]);
      }
      var v := Eval(n, es[0], p, k);
      match v {
        case Exc(x) => return Exc(x);
        case Halt(h) => return Halt(h);
        case Ok(_) =>
      }
      var vs := EvalAll(n, es[1..], p, k);
      r := if vs.Ok? then Ok([v.v] + vs.v) else vs;
    }

    /** FuncDeclObject::Call: c is the executor of the call; the body gets a main block of
        its own, whose deferred statements run before the table is popped. */
    method Invoke(n: nat, e: Expr, fv: Value, vs: seq<Value>, c: Executor, ghost k: nat) returns (r: Res<Value>)
      requires Ready(c, k) && c.kind.CallExec?
      modifies this, c.cells`flag
      ensures var (v, st') := B.Invoke(n, e, fv, vs, old(State(c))); Valued(v, st', c, r)
      decreases n, e, 1
    {
      hide Ext, B.Activate, Enter, Leave, Executor.Valid, Executor.Flags;
      if !fv.Func? || |funcs| <= fv.fid {
        return Exc(Internal(TYPE_ERROR));
      }
      if n == 0 {
        return Halt(OutOfFuel);
      }
      r := InvokeFunc(n, e, funcs[fv.fid], vs, c);
    }

    /** A call's function table is pushed before the body and popped on every exit. */
    method InvokeFunc(n: nat, e: Expr, fo: FuncObj, vs: seq<Value>, c: Executor) returns (r: Res<Value>)
      requires c.Valid() && Good(State(c), fo.k) && Live(c.Flags()) && c.kind.CallExec? && n > 0
      modifies this, c.cells`flag
      ensures var st := old(State(c));
              var (v, s2) := B.Activate(n, e, fo, vs, Enter(st, fo.k));
              Valued(v, Leave(st, fo.k, s2), c, r)
      decreases n, e, 0, 1
    {
      hide Ext, B.Activate, Executor.Valid, Executor.Flags;
      ghost var st := State(c);
      var main := new Executor(BlockExec(true), c);
      assert Good(State(main), fo.k);
      hide WF;
      NewTable(main, fo.k, FuncTable);
      assert State(main) == Enter(st, fo.k);
      r := Activate(n, e, fo, vs, main);
      main.Unfold();
      if !r.Halt? {
        LeaveReady(st, fo.k, State(main));
        PopTable(main, fo.k);
      }
    }

    method Activate(n: nat, e: Expr, fo: FuncObj, vs: seq<Value>, main: Executor) returns (r: Res<Value>)
      requires Ready(main, fo.k) && main.ActsAsMain() && main.kind.BlockExec? && main.mainExec == main
      requires n > 0 && main.defers == []
      modifies this, main.cells`flag, main`defers
      ensures var (v, st') := B.Activate(n, e, fo, vs, old(State(main))); Valued(v, st', main, r)
      decreases n, e, 0, 0
    {
      hide WF, Ext, B.RunList, B.RunDefers, SetEntries, Executor.Valid, Executor.Flags;
      if |vs| != |fo.params| {
        return Exc(Internal(PARAMS_ERROR));
      }
      BindParams(main, fo.k, fo.params, vs);
      ghost var o := B.RunList(n - 1, fo.ss, State(main), fo.k, false).0;
      var x := ExecBlock(n - 1, fo.ss, main, fo.k);
      if x.Dead? {
        return Halt(x.h);
      }
      main.MainFlags();
      Absorbed(main.Flags(), o);
      var site := ReadFrom(main, fo.k, RETURN_NAME);
      var ret := Null;
      if site.Some? && (site.value != 0 || tables[0].m[RETURN_NAME].global) {
        ret := tables[site.value].m[RETURN_NAME].v;
      }
      var d := ExecDefers(n - 1, main);
      r := if d.Some? then Halt(d.value) else if x.Throwing? then Exc(Rewrap(x.x)) else Ok(ret);
    }

    /** ExecuteDeferStack: run the top statement, then pop the top, until none is left. */
    method ExecDefers(n: nat, main: Executor) returns (r: Option<Reason>)
      requires Ready(main, 0) && main.ActsAsMain() && main.mainExec == main
      modifies this, main.cells`flag, main`defers
      ensures var (d, st') := B.RunDefers(n, old(State(main)), main.InsideRootScope());
              && r == d && out == st'.out && (d.None? ==> State(main) == st' && Live(main.Flags()))
      decreases n, 1
    {
      hide WF, Ext, B.RunStmt;
      var m := n;
      while |main.defers| > 0
        invariant 0 <= m <= n && Ready(main, 0)
        invariant B.RunDefers(m, State(main), main.InsideRootScope()) ==
                  B.RunDefers(n, old(State(main)), main.InsideRootScope())
        decreases m
      {
        if m == 0 {
          return Some(OutOfFuel);
        }
        r := ExecTopDefer(m - 1, main);
        if r.Some? {
          return;
        }
        m := m - 1;
      }
      r := None;
    }

    method ExecTopDefer(n: nat, main: Executor) returns (r: Option<Reason>)
      requires Ready(main, 0) && main.ActsAsMain() && main.mainExec == main && |main.defers| > 0
      modifies this, main.cells`flag, main`defers
      ensures var whole, root := B.RunDefers(n + 1, old(State(main)), main.InsideRootScope()), main.InsideRootScope();
              && (r.None? ==> Ready(main, 0) && whole == B.RunDefers(n, State(main), root))
              && (r.Some? ==> r == whole.0 && out == whole.1.out)
      decreases n + 1, 0
    {
      hide Ext, B.RunStmt, B.RunDefers;
      B.DefersStep(n, State(main), main.InsideRootScope());
      var d := main.defers[|main.defers| - 1];
      var s := new Executor(StmtExec, main);
      ghost var (o, s1) := B.RunStmt(n, d.s, State(main), d.k, main.InsideRootScope());
      var x := ExecStmt(n, d.s, s, d.k);
      main.MainFlags();
      Absorbed(main.Flags(), o);
      match x {
        case Throwing(_) => return Some(Terminated);
        case Dead(h) => return Some(h);
        case Done =>
      }
      main.defers := main.defers[..|main.defers| - 1];
      r := None;
    }

    /** ListComprehensionExecutor::Exec. */
    method ExecComp(n: nat, e: Expr, p: Executor, k: nat) returns (r: Res<Value>)
      requires Ready(p, k) && e.Comp?
      modifies this, p.cells`flag, p.mainExec`defers
      ensures var (v, st') := B.RunComp(n, e, old(State(p)), k); Valued(v, st', p, r)
      decreases n, e, 0
    {
      hide WF, Ext, B.FillAcc;
      if n == 0 {
        return Halt(OutOfFuel);
      }
      if e.clauses == [] {
        return Exc(Internal(PLAIN_ERROR));
      }
      ghost var st := State(p);
      var c := new Executor(PlainExec, p);
      NewTable(c, k, ScopeTable);
      r := FillAcc(n, e, c, k);
      if !r.Halt? {
        PopExt(st, k, ScopeTable, State(c));
        PopTable(c, k);
      }
    }

    method FillAcc(n: nat, e: Expr, c: Executor, k: nat) returns (r: Res<Value>)
      requires Ready(c, k) && e.Comp? && e.clauses != [] && n > 0 && !c.InsideRootScope()
      modifies this, c.cells`flag, c.mainExec`defers
      ensures var (v, st') := B.FillAcc(n, e, old(State(c)), k); Valued(v, st', c, r)
      decreases n, e, -1
    {
      hide WF, Ext, B.RunStmt, B.AccInit, Nest, Lookup, Executor.Valid, Executor.Flags;
      InitAcc(c, k);
      var s := new Executor(StmtExec, c);
      var stmt := MountStatement(e.clauses, e.res);
      NestOutcome(n - 1, e.clauses, e.res, State(s), k);
      var x := ExecStmt(n - 1, stmt, s, k);
      s.Unfold();
      match x {
        case Throwing(y) => return Exc(y);
        case Dead(h) => return Halt(h);
        case Done =>
      }
      var acc := ReadAcc(c, k);
      r := if acc.Some? then Ok(acc.value) else Exc(Internal(LOOKUP_ERROR));
    }

    method ReadAcc(ghost c: Executor, k: nat) returns (acc: Option<Value>)
      requires Ready(c, k)
      ensures acc == Lookup(State(c), k, COMP_NAME)
    {
      var site := ReadFrom(c, k, COMP_NAME);
      acc := if site.Some? then Some(tables[site.value].m[COMP_NAME].v) else None;
    }

    method InitAcc(ghost c: Executor, k: nat)
      requires Ready(c, k)
      modifies this`tables
      ensures State(c) == B.AccInit(old(State(c)), k)
    {
      var site := ReadFrom(c, k, COMP_NAME);
      var ids := stacks[k].ids;
      PutAt(c, if site.Some? then site.value else if |ids| == 0 then 0 else ids[|ids| - 1], COMP_NAME, List([]), false);
    }

    /** MountIfBlock/MountForBlock for the last clause, then ExecForIfList from the
        second to last down to the first. */
    method MountStatement(clauses: seq<Clause>, res: Expr) returns (s: Stmt)
      requires clauses != []
      ensures s == Nest(clauses, res)
    {
      var i := |clauses| - 1;
      s := match clauses[i]
        case CompIf(c) => If(c, [Append(res)], NoElse)
        case CompFor(vars, tests) => ForIn(vars, tests, [Append(res)]);
      while i > 0
        invariant 0 <= i < |clauses|
        invariant s == Nest(clauses[i..], res)
      {
        i := i - 1;
        assert clauses[i..][1..] == clauses[i + 1..];
        s := match clauses[i]
          case CompIf(c) => If(c, [s], NoElse)
          case CompFor(vars, tests) => ForIn(vars, tests, [s]);
      }
      assert clauses[0..] == clauses;
    }

    // ----- statements -----

    method ExecStmt(n: nat, s: Stmt, p: Executor, k: nat) returns (r: Exit)
      requires Ready(p, k)
      modifies this, p.cells`flag, p.mainExec`defers
      ensures var (o, st') := B.RunStmt(n, s, old(State(p)), k, p.InsideRootScope()); Ended(o, st', p, r)
      decreases n, s, 5
    {
      hide WF, Ext, B.RunValue, B.RunAppend, B.AssignStmt, B.RunIf, B.RunWhile, B.RunForIn, B.RunTry,
           SymbolTables.Declare, PushDefer;
      match s {
        case Assign(xs, es) =>
          r := ExecAssign(n, xs, es, false, p, k);
        case Global(xs, es) =>
          if p.InsideRootScope() {
            r := ExecAssign(n, xs, es, true, p, k);
          } else {
            r := Throwing(Internal(PLAIN_ERROR));
          }
        case FuncDecl(name, params, ss) =>
          Declare(p, k, name, params, ss);
          r := Done;
        case Break =>
          Raise(StopBreak, p, k);
          r := Done;
        case Continue =>
          Raise(StopContinue, p, k);
          r := Done;
        case Defer(d) =>
          Defer(p, k, d);
          r := Done;
        case Block(ss) =>
          r := ExecBlock(n, ss, p, k);
        case Append(_) =>
          r := ExecAppend(n, s, p, k);
        case If(_, _, _) => r := ExecScoped(n, s, p, k);
        case While(_, _) => r := ExecScoped(n, s, p, k);
        case ForIn(_, _, _) => r := ExecScoped(n, s, p, k);
        case Try(_, _) => r := ExecScoped(n, s, p, k);
        case _ => r := ExecValue(n, s, p, k);
      }
    }

    method ExecAssign(n: nat, xs: seq<string>, es: seq<Expr>, g: bool, p: Executor, k: nat) returns (r: Exit)
      requires Ready(p, k)
      modifies this, p.cells`flag, p.mainExec`defers
      ensures var (o, st') := B.AssignStmt(n, xs, es, g, old(State(p)), k); Ended(o, st', p, r)
      decreases n, es, 1
    {
      hide WF, Ext, B.EvalAll, B.AssignAll, Executor.Valid, Executor.Flags;
      var a := new Executor(PlainExec, p);
      var vs := EvalAll(n, es, a, k);
      a.Unfold();
      match vs {
        case Exc(x) => r := Throwing(x);
        case Halt(h) => r := Dead(h);
        case Ok(v) =>
          var x := AssignAll(a, k, xs, v, g);
          r := if x.Some? then Throwing(x.value) else Done;
      }
    }

    /** An expression evaluated by an executor of its own. */
    method EvalBelow(n: nat, e: Expr, p: Executor, k: nat) returns (r: Res<Value>)
      requires Ready(p, k)
      modifies this, p.cells`flag, p.mainExec`defers
      ensures var (v, st') := B.Eval(n, e, old(State(p)), k); Valued(v, st', p, r)
      decreases n, e, 4
    {
      hide WF, Ext, B.Eval, Executor.Valid, Executor.Flags;
      var x := new Executor(PlainExec, p);
      r := Eval(n, e, x, k);
      x.Unfold();
    }

    method ExecValue(n: nat, s: Stmt, p: Executor, k: nat) returns (r: Exit)
      requires Ready(p, k) && (s.Do? || s.Print? || s.Return? || s.Throw?)
      modifies this, p.cells`flag, p.mainExec`defers
      ensures var (o, st') := B.RunValue(n, s, old(State(p)), k); Ended(o, st', p, r)
      decreases n, s, 2
    {
      hide WF, Ext, Good, B.Eval, PutOnFuncs, Executor.Valid, Executor.Flags;
      var v := EvalBelow(n, s.e, p, k);
      match v {
        case Exc(y) => return Throwing(y);
        case Halt(h) => return Dead(h);
        case Ok(_) =>
      }
      match s {
        case Print(_) =>
          out := out + [v.v];
          r := Done;
        case Return(_) =>
          r := ExecReturn(v.v, p, k);
        case Throw(_) =>
          r := Throwing(Thrown(v.v));
        case _ =>
          r := Done;
      }
    }

    /** The value goes to every function table of the stack, and the stop to the chain. */
    method ExecReturn(v: Value, p: Executor, k: nat) returns (r: Exit)
      requires Ready(p, k)
      modifies this`tables, p.cells`flag
      ensures Ended(B.Returned, PutOnFuncs(old(State(p)), old(stacks)[k].ids, RETURN_NAME, v), p, r)
    {
      SetOnFuncs(p, k, RETURN_NAME, v);
      Raise(StopReturn, p, k);
      r := Done;
    }

    method Raise(stop: StopFlag, p: Executor, ghost k: nat)
      requires Ready(p, k) && (stop == StopBreak || stop == StopContinue || stop == StopReturn)
      modifies p.cells`flag
      ensures Stopped(p.Flags(), stop)
    {
      PropagateStop(p.Flags(), stop);
      p.SetStop(stop);
    }

    method ExecAppend(n: nat, s: Stmt, p: Executor, k: nat) returns (r: Exit)
      requires Ready(p, k) && s.Append?
      modifies this, p.cells`flag, p.mainExec`defers
      ensures var (o, st') := B.RunAppend(n, s, old(State(p)), k); Ended(o, st', p, r)
      decreases n, s, 2
    {
      hide Ext, B.Eval, Executor.Valid, Executor.Flags;
      var site := ReadFrom(p, k, COMP_NAME);
      if site.None? {
        return Throwing(Internal(LOOKUP_ERROR));
      }
      var v := EvalBelow(n, s.e, p, k);
      match v {
        case Exc(y) => return Throwing(y);
        case Halt(h) => return Dead(h);
        case Ok(_) =>
      }
      site := ReadFrom(p, k, COMP_NAME);
      if site.Some? && tables[site.value].m[COMP_NAME].v.List? {
        PutAt(p, site.value, COMP_NAME, List(tables[site.value].m[COMP_NAME].v.elems + [v.v]), false);
        r := Done;
      } else {
        r := Throwing(Internal(TYPE_ERROR));
      }
    }

    /** The compound statements: each pushes a table and a scope guard pops it. */
    method ExecScoped(n: nat, s: Stmt, p: Executor, k: nat) returns (r: Exit)
      requires Ready(p, k) && B.IsScoped(s)
      modifies this, p.cells`flag, p.mainExec`defers
      ensures var (o, st') := B.RunStmt(n, s, old(State(p)), k, p.InsideRootScope()); Ended(o, st', p, r)
      decreases n, s, 4
    {
      hide WF, Ext, B.ScopedRun, B.RunStmt;
      ghost var st := State(p);
      B.ScopedIs(n, s, st, k, p.InsideRootScope());
      NewTable(p, k, ScopeTable);
      r := ExecCompound(n, s, p, k);
      if !r.Dead? {
        PopTable(p, k);
      }
    }

    method ExecCompound(n: nat, s: Stmt, p: Executor, k: nat) returns (r: Exit)
      requires Ready(p, k) && B.IsScoped(s)
      modifies this, p.cells`flag, p.mainExec`defers
      ensures var (o, st') := B.ScopedRun(n, s, old(State(p)), k); Ended(o, st', p, r)
      decreases n, s, 3
    {
      hide WF, Ext, B.RunIf, B.RunWhile, B.RunForIn, B.RunTry;
      match s {
        case If(_, _, _) => r := ExecIf(n, s, p, k);
        case While(_, _) => r := ExecWhile(n, s, p, k);
        case ForIn(_, _, _) => r := ExecForIn(n, s, p, k);
        case Try(_, _) => r := ExecTry(n, s, p, k);
      }
    }

    method ExecCond(n: nat, e: Expr, p: Executor, k: nat) returns (r: Res<bool>)
      requires Ready(p, k)
      modifies this, p.cells`flag, p.mainExec`defers
      ensures var (v, st') := B.EvalCond(n, e, old(State(p)), k); Valued(v, st', p, r)
      decreases n, e, 4
    {
      hide WF, Ext, B.Eval;
      var v := Eval(n, e, p, k);
      match v {
        case Exc(x) => r := Exc(x);
        case Halt(h) => r := Halt(h);
        case Ok(v) => r := Truth(v);
      }
    }

    method ExecIf(n: nat, s: Stmt, p: Executor, k: nat) returns (r: Exit)
      requires Ready(p, k) && s.If?
      modifies this, p.cells`flag, p.mainExec`defers
      ensures var (o, st') := B.RunIf(n, s, old(State(p)), k); Ended(o, st', p, r)
      decreases n, s, 2
    {
      hide WF, Ext, B.RunStmt, B.RunList, B.EvalCond;
      ghost var o := B.RunIf(n, s, State(p), k).0;
      var me := new Executor(PlainExec, p);
      var c := ExecCond(n, s.cond, me, k);
      match c {
        case Exc(x) => return Throwing(x);
        case Halt(h) => return Dead(h);
        case Ok(_) =>
      }
      if c.v {
        var b := new Executor(BlockExec(false), me);
        r := ExecBlock(n, s.ss, b, k);
        SettledUp(b.Flags(), o);
      } else {
        match s.els {
          case NoElse => r := Done;
          case ElseBlock(es) =>
            var b := new Executor(BlockExec(false), me);
            r := ExecBlock(n, es, b, k);
            SettledUp(b.Flags(), o);
          case ElseIf(s') =>
            if s'.If? {
              r := ExecScoped(n, s', me, k);
            } else {
              r := Throwing(Internal(PLAIN_ERROR));
            }
        }
      }
      SettledUp(me.Flags(), o);
    }

    /** A loop body under a table of its own; me is the loop's executor. */
    method ExecBody(n: nat, ss: seq<Stmt>, me: Executor, k: nat) returns (r: Exit)
      requires Ready(me, k)
      modifies this, me.cells`flag, me.mainExec`defers
      ensures var (o, st') := B.RunBody(n, ss, old(State(me)), k); Ended(o, st', me, r)
      decreases n, ss, 2
    {
      hide WF, Ext, B.RunList;
      ghost var st := State(me);
      var b := new Executor(BlockExec(false), me);
      NewTable(b, k, ScopeTable);
      r := ExecBlock(n, ss, b, k);
      if !r.Dead? {
        PopExt(st, k, ScopeTable, State(b));
        PopTable(b, k);
      }
    }

    /** WhileExecutor::Exec: a raised break, throw or return ends the loop before the
        condition is evaluated again. */
    method ExecWhile(n: nat, s: Stmt, p: Executor, k: nat) returns (r: Exit)
      requires Ready(p, k) && s.While?
      modifies this, p.cells`flag, p.mainExec`defers
      ensures var (o, st') := B.RunWhile(n, s, old(State(p)), k); Ended(o, st', p, r)
      decreases n, s, 2
    {
      hide WF, Ext, B.RunBody, B.EvalCond, Executor.Valid, Executor.Flags;
      var me := new Executor(WhileExec, p);
      var m := n;
      ghost var target := B.RunWhile(n, s, State(p), k);
      ghost var o := B.Normal;
      while me.flag != StopBreak && me.flag != StopThrow && me.flag != StopReturn
        invariant 0 <= m <= n
        invariant o.Normal? || o.Continued? || o.Broke? || o.Returned?
        invariant Settled(me.Flags(), o)
        invariant o.Normal? || o.Continued? ==> Ready(me, k) && B.RunWhile(m, s, State(me), k) == target
        invariant o.Broke? ==> (B.Normal, State(me)) == target
        invariant o.Returned? ==> (o, State(me)) == target
        decreases m
      {
        var again;
        r, again, o := WhileRound(m, s, me, k);
        me.Unfold();
        if !again {
          return;
        }
        m := m - 1;
      }
      me.Unfold();
      r := Done;
    }

    /** The condition and the body once; o is the outcome of the body. */
    method WhileRound(m: nat, s: Stmt, me: Executor, k: nat) returns (r: Exit, again: bool, ghost o: B.Outcome)
      requires Ready(me, k) && s.While?
      modifies this, me.cells`flag, me.mainExec`defers
      ensures !again ==> var (o', st') := B.RunWhile(m, s, old(State(me)), k);
                         Ended(o', st', me, r) && (o'.Normal? || o'.Raised? || o'.Stuck?)
      ensures again ==> m > 0 && r == Done && var s1 := B.EvalCond(m, s.cond, old(State(me)), k).1;
                        && B.EvalCond(m, s.cond, old(State(me)), k).0 == Ok(true)
                        && o == B.RunBody(m, s.ss, s1, k).0 && ExitOf(o) == Done
                        && Ended(o, B.RunBody(m, s.ss, s1, k).1, me, r)
      decreases m, s, 1
    {
      hide WF, Ext, B.RunBody, B.EvalCond;
      o := B.Normal;
      again := false;
      var c := ExecCond(m, s.cond, me, k);
      match c {
        case Exc(x) => return Throwing(x), false, o;
        case Halt(h) => return Dead(h), false, o;
        case Ok(_) =>
      }
      if !c.v {
        return Done, false, o;
      }
      if m == 0 {
        return Dead(OutOfFuel), false, o;
      }
      o := B.RunBody(m, s.ss, State(me), k).0;
      r := ExecBody(m, s.ss, me, k);
      again := r == Done;
    }

    /** ForInExecutor::Exec; the iterators of all lists advance together. */
    method ExecForIn(n: nat, s: Stmt, p: Executor, k: nat) returns (r: Exit)
      requires Ready(p, k) && s.ForIn?
      modifies this, p.cells`flag, p.mainExec`defers
      ensures var (o, st') := B.RunForIn(n, s, old(State(p)), k); Ended(o, st', p, r)
      decreases n, s, 2
    {
      hide WF, Ext, B.RunRows, B.EvalAll;
      var me := new Executor(ForExec, p);
      var vs := EvalAll(n, s.tests, me, k);
      match vs {
        case Exc(x) => return Throwing(x);
        case Halt(h) => return Dead(h);
        case Ok(_) =>
      }
      var its := vs.v;
      if |its| == 0 || !B.AllLists(its) {
        return Throwing(Internal(TYPE_ERROR));
      }
      r := ExecRows(n, s, its, me, p, k);
    }

    /** The loop: a raised break, throw or return ends it before the next row is taken. */
    method ExecRows(n: nat, s: Stmt, its: seq<Value>, me: Executor, ghost p: Executor, k: nat) returns (r: Exit)
      requires Ready(me, k) && s.ForIn? && |its| > 0 && B.AllLists(its)
      requires me.kind.ForExec? && me.parent == p && p.Valid()
      modifies this, me.cells`flag, me.mainExec`defers
      ensures var (o, st') := B.RunRows(n, s, its, 0, old(State(me)), k); Ended(o, st', p, r)
      decreases n, s, 1
    {
      hide WF, Ext, B.RunRow;
      var pos := 0;
      ghost var target := B.RunRows(n, s, its, 0, State(me), k);
      ghost var o := B.Normal;
      while me.flag != StopBreak && me.flag != StopThrow && me.flag != StopReturn && B.HasRow(its, pos)
        invariant 0 <= pos
        invariant o.Normal? || o.Continued? || o.Broke? || o.Returned?
        invariant Settled(me.Flags(), o)
        invariant o.Normal? || o.Continued? ==> Ready(me, k) && B.RunRows(n, s, its, pos, State(me), k) == target
        invariant o.Broke? ==> (B.Normal, State(me)) == target
        invariant o.Returned? ==> (o, State(me)) == target
        decreases |its[0].elems| - pos
      {
        ghost var s1 := State(me);
        r := ExecRow(n, s, B.Row(its, pos), me, k);
        o := B.RunRow(n, s, B.Row(its, pos), s1, k).0;
        if r != Done {
          return;
        }
        pos := pos + 1;
      }
      r := Done;
    }

    method ExecRow(n: nat, s: Stmt, row: seq<Value>, me: Executor, k: nat) returns (r: Exit)
      requires Ready(me, k) && s.ForIn?
      modifies this, me.cells`flag, me.mainExec`defers
      ensures var (o, st') := B.RunRow(n, s, row, old(State(me)), k); Ended(o, st', me, r)
      decreases n, s, 0
    {
      hide WF, Ext, B.AssignAll, B.RunBody;
      var x := AssignAll(me, k, s.vars, row, false);
      if x.Some? {
        return Throwing(x.value);
      }
      r := ExecBody(n, s.ss, me, k);
    }

    method ExecTry(n: nat, s: Stmt, p: Executor, k: nat) returns (r: Exit)
      requires Ready(p, k) && s.Try?
      modifies this, p.cells`flag, p.mainExec`defers
      ensures var (o, st') := B.RunTry(n, s, old(State(p)), k); Ended(o, st', p, r)
      decreases n, s, 2
    {
      hide WF, Ext, B.RunList;
      var me := new Executor(TryExec, p);
      var b := new Executor(BlockExec(false), me);
      ghost var o := B.RunTry(n, s, State(p), k).0;
      assert Live(me.Flags());
      r := ExecBlock(n, s.ss, b, k);
      if r.Throwing? {
        r := ExecCatches(n, s, r.x, b, k);
      }
      SettledUp(b.Flags(), o);
      SettledUp(me.Flags(), o);
    }

    /** The loop over the catch clauses; only the first one that matches runs. */
    method ExecCatches(n: nat, s: Stmt, x: Exn, b: Executor, k: nat) returns (r: Exit)
      requires Ready(b, k) && s.Try? && b.kind.BlockExec?
      modifies this, b.cells`flag, b.mainExec`defers
      ensures var (o, st') := B.RunCatches(n, s, 0, x, old(State(b)), k); Ended(o, st', b, r)
      decreases n, s, 1
    {
      hide WF, Ext, B.EvalAll, B.RunList;
      ghost var target := B.RunCatches(n, s, 0, x, State(b), k);
      var i := 0;
      while i < |s.catches|
        invariant 0 <= i <= |s.catches|
        invariant Ready(b, k) && B.RunCatches(n, s, i, x, State(b), k) == target
      {
        var c := s.catches[i];
        var ps := EvalAll(n, c.pats, b, k);
        match ps {
          case Exc(y) => return Throwing(y);
          case Halt(h) => return Dead(h);
          case Ok(_) =>
        }
        if InstanceOfAny(ExnValue(x), ps.v) {
          if c.bind.Some? {
            InsertEntry(b, k, c.bind.value, ExnValue(x));
          }
          r := ExecBlock(n, c.ss, b, k);
          return;
        }
        i := i + 1;
      }
      r := Throwing(x);
    }

    method ExecBlock(n: nat, ss: seq<Stmt>, p: Executor, k: nat) returns (r: Exit)
      requires Ready(p, k)
      modifies this, p.cells`flag, p.mainExec`defers
      ensures var (o, st') := B.RunList(n, ss, old(State(p)), k, false); Ended(o, st', p, r)
      decreases n, ss, 1
    {
      hide WF, Ext;
      var l := new Executor(ListExec(false), p);
      r := ExecList(n, ss, l, k);
    }

    /** StmtListExecutor::Exec: the flag is looked at before each statement. */
    method ExecList(n: nat, ss: seq<Stmt>, l: Executor, k: nat) returns (r: Exit)
      requires Ready(l, k) && l.kind.ListExec?
      modifies this, l.cells`flag, l.mainExec`defers
      ensures var (o, st') := B.RunList(n, ss, old(State(l)), k, l.kind.root); Ended(o, st', l, r)
      decreases n, ss, 0
    {
      hide WF, Ext, B.RunStmt;
      var s := new Executor(StmtExec, l);
      var i := 0;
      ghost var o := B.Normal;
      assert ss[0..] == ss;
      while i < |ss|
        invariant 0 <= i <= |ss|
        invariant o.Normal? || o.Broke? || o.Continued? || o.Returned?
        invariant Settled(l.Flags(), o)
        invariant o.Normal? ==> Ready(l, k)
        invariant o.Normal? ==>
                    B.RunList(n, ss[i..], State(l), k, l.kind.root) == B.RunList(n, ss, old(State(l)), k, l.kind.root)
        invariant !o.Normal? ==> (o, State(l)) == B.RunList(n, ss, old(State(l)), k, l.kind.root)
      {
        if l.flag == Go {
          ghost var before := State(l);
          assert ss[i..][1..] == ss[i + 1..] && ss[i..][0] == ss[i];
          r := ExecStmt(n, ss[i], s, k);
          o := B.RunStmt(n, ss[i], before, k, l.kind.root).0;
          if r != Done {
            return;
          }
        } else {
          return Done;
        }
        i := i + 1;
      }
      r := Done;
    }

    // ----- whole programs -----

    /** RootExecutor::Exec on a fresh interpreter: the statements, then the deferred ones. */
    method RunProgram(n: nat, ss: seq<Stmt>) returns (r: Exit)
      requires tables == B.EMPTY.tables && stacks == B.EMPTY.stacks && funcs == [] && out == []
      modifies this
      ensures var (o, st') := B.RunProgram(n, ss);
              && r == ExitOf(o)
              && out == st'.out
              && (!o.Stuck? ==> tables == st'.tables && stacks == st'.stacks && funcs == st'.funcs)
    {
      hide Ext, B.RunList, B.RunDefers;
      var main := new Executor.Root();
      assert State(main) == B.EMPTY && main.Flags().up == End && Live(main.Flags());
      var l := new Executor(ListExec(true), main);
      ghost var o := B.RunList(n, ss, B.EMPTY, 0, true).0;
      r := ExecList(n, ss, l, 0);
      if r.Dead? {
        return;
      }
      SettledList(l.Flags(), o);
      main.MainFlags();
      Absorbed(main.Flags(), o);
      var d := ExecDefers(n, main);
      if d.Some? {
        r := Dead(d.value);
      }
    }

  }
}
