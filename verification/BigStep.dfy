/** Reference semantics: structured control flow with an explicit outcome. Loop
    iterations, calls, deferred statements and comprehensions each consume one unit of
    the fuel n, so every terminating run is covered by some n. */
module BigStep {
  import opened Options
  import opened Syntax
  import opened SymbolTables

  datatype Outcome =
    | Normal
    | Broke
    | Continued
    | Returned
    | Raised(x: Exn)
    | Stuck(h: Reason)

  // ----- expressions -----

  function Eval(n: nat, e: Expr, st: Store, k: nat): (r: (Res<Value>, Store))
    requires Good(st, k)
    ensures Good(r.1, k) && Ext(st, r.1) && r.1.defers == st.defers
    decreases n, e, 3
  {
    match e
    case Lit(v) => (Ok(v), st)
    case Var(x) =>
      var o := Lookup(st, k, x);
      (if o.Some? then Ok(o.value) else Exc(Internal(LOOKUP_ERROR)), st)
    case Op(op, l, r) =>
      var (a, s1) := Eval(n, l, st, k);
      if !a.Ok? then (a, s1) else
      var (b, s2) := Eval(n, r, s1, k);
      if !b.Ok? then (b, s2) else (ApplyPrim(op, a.v, b.v), s2)
    case ListLit(es) =>
      var (vs, s1) := EvalAll(n, es, st, k);
      (match vs case Ok(v) => Ok(List(v)) case Exc(x) => Exc(x) case Halt(h) => Halt(h), s1)
    case Call(_, _) => EvalCall(n, e, st, k)
    case Comp(_, _) => RunComp(n, e, st, k)
  }

  function EvalCall(n: nat, e: Expr, st: Store, k: nat): (r: (Res<Value>, Store))
    requires Good(st, k) && e.Call?
    ensures Good(r.1, k) && Ext(st, r.1) && r.1.defers == st.defers
    decreases n, e, 2
  {
    hide Ext;
    var (fv, s1) := Eval(n, e.f, st, k);
    if !fv.Ok? then (fv, s1) else
    var (vs, s2) := EvalAll(n, e.args, s1, k);
    ExtTrans(st, s1, s2);
    match vs
    case Ok(v) =>
      var (r, s3) := Invoke(n, e, fv.v, v, s2);
      ExtTrans(st, s2, s3);
      (r, s3)
    case Exc(x) => (Exc(x), s2)
    case Halt(h) => (Halt(h), s2)
  }

  function EvalAll(n: nat, es: seq<Expr>, st: Store, k: nat): (r: (Res<seq<Value>>, Store))
    requires Good(st, k)
    ensures Good(r.1, k) && Ext(st, r.1) && r.1.defers == st.defers
    ensures r.0.Ok? ==> |r.0.v| == |es|
    decreases n, es, 0
  {
    if es == [] then (Ok([]), st) else
    var (v, s1) := Eval(n, es[0], st, k);
    match v
    case Exc(x) => (Exc(x), s1)
    case Halt(h) => (Halt(h), s1)
    case Ok(v) =>
      var (vs, s2) := EvalAll(n, es[1..], s1, k);
      (if vs.Ok? then Ok([v] + vs.v) else vs, s2)
  }

  /** A call of the function value fv at call node e. The activation runs on the
      function's own stack, and its deferred statements run on every exit. */
  function Invoke(n: nat, e: Expr, fv: Value, vs: seq<Value>, st: Store): (r: (Res<Value>, Store))
    requires WF(st)
    ensures WF(r.1) && Ext(st, r.1) && r.1.defers == st.defers
    ensures r.0.Exc? ==> r.0.x.Internal?
    decreases n, e, 1
  {
    if !fv.Func? || |st.funcs| <= fv.fid then (Exc(Internal(TYPE_ERROR)), st)
    else if n == 0 then (Halt(OutOfFuel), st)
    else
      var fo := st.funcs[fv.fid];
      var (r, s2) := Activate(n, e, fo, vs, Enter(st, fo.k));
      (r, Leave(st, fo.k, s2))
  }

  /** The activation itself, on top of the pushed function table. */
  function Activate(n: nat, e: Expr, fo: FuncObj, vs: seq<Value>, s1: Store): (r: (Res<Value>, Store))
    requires Good(s1, fo.k) && n > 0 && s1.defers == []
    ensures Good(r.1, fo.k) && Ext(s1, r.1)
    ensures r.0.Exc? ==> r.0.x.Internal?
    decreases n, e, 0
  {
    hide Ext;
    if |vs| != |fo.params| then ExtSelf(s1); (Exc(Internal(PARAMS_ERROR)), s1)
    else
      var s0 := SetEntries(s1, fo.k, fo.params, vs);
      var (o, s2) := RunList(n - 1, fo.ss, s0, fo.k, false);
      ExtTrans(s1, s0, s2);
      if o.Stuck? then (Halt(o.h), s2)
      else
        var ret := LookupObj(s2, fo.k, RETURN_NAME);
        var (d, s3) := RunDefers(n - 1, s2, false);
        ExtTrans(s1, s2, s3);
        (if d.Some? then Halt(d.value)
         else if o.Raised? then Exc(Rewrap(o.x))
         else Ok(if ret.Some? then ret.value else Null),
         s3)
  }

  /** The deferred statements of the finished activation, topmost first. The statement
      that ran is removed by popping the top, after it ran. An exception leaves a
      destructor here, which ends the process. */
  function RunDefers(n: nat, st: Store, root: bool): (r: (Option<Reason>, Store))
    requires WF(st)
    ensures WF(r.1) && Ext(st, r.1)
    decreases n
  {
    if st.defers == [] then (None, st)
    else if n == 0 then (Some(OutOfFuel), st)
    else
      var d := st.defers[|st.defers| - 1];
      var (o, s1) := RunStmt(n - 1, d.s, st, d.k, root);
      match o
      case Raised(_) => (Some(Terminated), s1)
      case Stuck(h) => (Some(h), s1)
      case _ => RunDefers(n - 1, s1.(defers := s1.defers[..|s1.defers| - 1]), root)
  }

  /** A list comprehension: run the rewritten statement under a fresh accumulator. */
  function RunComp(n: nat, e: Expr, st: Store, k: nat): (r: (Res<Value>, Store))
    requires Good(st, k) && e.Comp?
    ensures Good(r.1, k) && Ext(st, r.1) && r.1.defers == st.defers
    decreases n, e, 0
  {
    if n == 0 then (Halt(OutOfFuel), st)
    else if e.clauses == [] then (Exc(Internal(PLAIN_ERROR)), st)
    else
      var (r, s1) := FillAcc(n, e, Push(st, k, ScopeTable), k);
      PopExt(st, k, ScopeTable, s1);
      (r, Pop(s1, k))
  }

  function FillAcc(n: nat, e: Expr, st: Store, k: nat): (r: (Res<Value>, Store))
    requires Good(st, k) && e.Comp? && e.clauses != [] && n > 0
    ensures Good(r.1, k) && Ext(st, r.1) && r.1.defers == st.defers
    decreases n, e, -1
  {
    var (o, s1) := RunStmt(n - 1, Nest(e.clauses, e.res), AccInit(st, k), k, false);
    var acc := Lookup(s1, k, COMP_NAME);
    (match o
     case Raised(x) => Exc(x)
     case Stuck(h) => Halt(h)
     case _ => if acc.Some? then Ok(acc.value) else Exc(Internal(LOOKUP_ERROR)),
     s1.(defers := st.defers))
  }

  /** The accumulator is looked up, and only created in the new table when no table of
      the stack and not the main table binds its name. */
  function AccInit(st: Store, k: nat): (st': Store)
    requires Good(st, k)
    ensures Good(st', k) && Ext(st, st') && st'.defers == st.defers
  {
    var site := ReadSite(st, k, COMP_NAME);
    Put(st, if site.Some? then site.value else Top(st, k), COMP_NAME, List([]), false)
  }

  // ----- assignment -----

  function AssignEach(st: Store, k: nat, xs: seq<string>, vs: seq<Value>, g: bool): (st': Store)
    requires Good(st, k) && |xs| == |vs|
    ensures Good(st', k) && Ext(st, st') && st'.defers == st.defers
    decreases |xs|
  {
    if |xs| == 0 then st else AssignEach(SetVar(st, k, xs[0], vs[0], g), k, xs[1..], vs[1..], g)
  }

  /** One-to-one, packed into one tuple, or unpacked from one sequence. */
  function AssignAll(st: Store, k: nat, xs: seq<string>, vs: seq<Value>, g: bool): (r: (Option<Exn>, Store))
    requires Good(st, k)
    ensures Good(r.1, k) && Ext(st, r.1) && r.1.defers == st.defers
  {
    if |xs| == 1 && |vs| != 1 then (None, AssignEach(st, k, xs, [List(vs)], g))
    else if |xs| == |vs| then (None, AssignEach(st, k, xs, vs, g))
    else if |vs| == 1 && vs[0].List? && |vs[0].elems| == |xs| then (None, AssignEach(st, k, xs, vs[0].elems, g))
    else (Some(Internal(TYPE_ERROR)), st)
  }

  function AssignStmt(n: nat, xs: seq<string>, es: seq<Expr>, g: bool, st: Store, k: nat): (r: (Outcome, Store))
    requires Good(st, k)
    ensures Good(r.1, k) && Ext(st, r.1) && r.1.defers == st.defers
    decreases n, es, 1
  {
    var (vs, s1) := EvalAll(n, es, st, k);
    match vs
    case Exc(x) => (Raised(x), s1)
    case Halt(h) => (Stuck(h), s1)
    case Ok(v) =>
      var (x, s2) := AssignAll(s1, k, xs, v, g);
      (if x.Some? then Raised(x.value) else Normal, s2)
  }

  // ----- statements -----

  function RunList(n: nat, ss: seq<Stmt>, st: Store, k: nat, root: bool): (r: (Outcome, Store))
    requires Good(st, k)
    ensures Good(r.1, k) && Ext(st, r.1) && st.defers <= r.1.defers
    decreases n, ss, 0
  {
    if ss == [] then (Normal, st) else
    var (o, s1) := RunStmt(n, ss[0], st, k, root);
    if o.Normal? then RunList(n, ss[1..], s1, k, root) else (o, s1)
  }

  function RunStmt(n: nat, s: Stmt, st: Store, k: nat, root: bool): (r: (Outcome, Store))
    requires Good(st, k)
    ensures Good(r.1, k) && Ext(st, r.1) && st.defers <= r.1.defers
    decreases n, s, 3
  {
    match s
    case Assign(xs, es) => AssignStmt(n, xs, es, false, st, k)
    case Global(xs, es) =>
      if root then AssignStmt(n, xs, es, true, st, k) else (Raised(Internal(PLAIN_ERROR)), st)
    case Do(_) => RunValue(n, s, st, k)
    case Print(_) => RunValue(n, s, st, k)
    case FuncDecl(name, params, ss) => (Normal, Declare(st, k, name, params, ss))
    case Return(_) => RunValue(n, s, st, k)
    case Break => (Broke, st)
    case Continue => (Continued, st)
    case If(_, _, _) =>
      var (o, s1) := RunIf(n, s, Push(st, k, ScopeTable), k);
      PopExt(st, k, ScopeTable, s1);
      (o, Pop(s1, k))
    case While(_, _) =>
      var (o, s1) := RunWhile(n, s, Push(st, k, ScopeTable), k);
      PopExt(st, k, ScopeTable, s1);
      (o, Pop(s1, k))
    case ForIn(_, _, _) =>
      var (o, s1) := RunForIn(n, s, Push(st, k, ScopeTable), k);
      PopExt(st, k, ScopeTable, s1);
      (o, Pop(s1, k))
    case Try(_, _) =>
      var (o, s1) := RunTry(n, s, Push(st, k, ScopeTable), k);
      PopExt(st, k, ScopeTable, s1);
      (o, Pop(s1, k))
    case Throw(_) => RunValue(n, s, st, k)
    case Defer(d) => (Normal, PushDefer(st, k, d))
    case Block(ss) => RunList(n, ss, st, k, false)
    case Append(_) => RunAppend(n, s, st, k)
  }

  /** The statements that evaluate one expression and act on its value. */
  function RunValue(n: nat, s: Stmt, st: Store, k: nat): (r: (Outcome, Store))
    requires Good(st, k) && (s.Do? || s.Print? || s.Return? || s.Throw?)
    ensures Good(r.1, k) && Ext(st, r.1) && r.1.defers == st.defers
    decreases n, s, 2
  {
    var (v, s1) := Eval(n, s.e, st, k);
    match v
    case Exc(x) => (Raised(x), s1)
    case Halt(h) => (Stuck(h), s1)
    case Ok(v) =>
      match s
      case Print(_) => (Normal, s1.(out := s1.out + [v]))
      case Return(_) => (Returned, PutOnFuncs(s1, s1.stacks[k].ids, RETURN_NAME, v))
      case Throw(_) => (Raised(Thrown(v)), s1)
      case _ => (Normal, s1)
  }

  function RunAppend(n: nat, s: Stmt, st: Store, k: nat): (r: (Outcome, Store))
    requires Good(st, k) && s.Append?
    ensures Good(r.1, k) && Ext(st, r.1) && r.1.defers == st.defers
    decreases n, s, 2
  {
    var o := Lookup(st, k, COMP_NAME);
    if o.None? then (Raised(Internal(LOOKUP_ERROR)), st) else
    var (v, s1) := Eval(n, s.e, st, k);
    match v
    case Exc(x) => (Raised(x), s1)
    case Halt(h) => (Stuck(h), s1)
    case Ok(v) =>
      var site := ReadSite(s1, k, COMP_NAME);
      if site.Some? && s1.tables[site.value].m[COMP_NAME].v.List? then
        (Normal, Put(s1, site.value, COMP_NAME, List(s1.tables[site.value].m[COMP_NAME].v.elems + [v]), false))
      else (Raised(Internal(TYPE_ERROR)), s1)
  }

  function RunIf(n: nat, s: Stmt, st: Store, k: nat): (r: (Outcome, Store))
    requires Good(st, k) && s.If?
    ensures Good(r.1, k) && Ext(st, r.1) && st.defers <= r.1.defers
    decreases n, s, 2
  {
    var (c, s1) := EvalCond(n, s.cond, st, k);
    match c
    case Exc(x) => (Raised(x), s1)
    case Halt(h) => (Stuck(h), s1)
    case Ok(b) =>
      if b then RunList(n, s.ss, s1, k, false) else
      match s.els
      case NoElse => (Normal, s1)
      case ElseBlock(es) => RunList(n, es, s1, k, false)
      case ElseIf(s') => if s'.If? then RunStmt(n, s', s1, k, false) else (Raised(Internal(PLAIN_ERROR)), s1)
  }

  function EvalCond(n: nat, e: Expr, st: Store, k: nat): (r: (Res<bool>, Store))
    requires Good(st, k)
    ensures Good(r.1, k) && Ext(st, r.1) && r.1.defers == st.defers
    decreases n, e, 4
  {
    var (v, s1) := Eval(n, e, st, k);
    match v
    case Exc(x) => (Exc(x), s1)
    case Halt(h) => (Halt(h), s1)
    case Ok(v) => (Truth(v), s1)
  }

  /** The loop under the table of the whole while statement. */
  function RunWhile(n: nat, s: Stmt, st: Store, k: nat): (r: (Outcome, Store))
    requires Good(st, k) && s.While?
    ensures Good(r.1, k) && Ext(st, r.1) && st.defers <= r.1.defers
    decreases n, s, 2
  {
    var (c, s1) := EvalCond(n, s.cond, st, k);
    match c
    case Exc(x) => (Raised(x), s1)
    case Halt(h) => (Stuck(h), s1)
    case Ok(b) =>
      if !b then (Normal, s1)
      else if n == 0 then (Stuck(OutOfFuel), s1)
      else
        var (o, s2) := RunBody(n, s.ss, s1, k);
        match o
        case Normal => RunWhile(n - 1, s, s2, k)
        case Continued => RunWhile(n - 1, s, s2, k)
        case Broke => (Normal, s2)
        case _ => (o, s2)
  }

  /** A loop body, under a table of its own. */
  function RunBody(n: nat, ss: seq<Stmt>, st: Store, k: nat): (r: (Outcome, Store))
    requires Good(st, k)
    ensures Good(r.1, k) && Ext(st, r.1) && st.defers <= r.1.defers
    decreases n, ss, 1
  {
    var (o, s1) := RunList(n, ss, Push(st, k, ScopeTable), k, false);
    PopExt(st, k, ScopeTable, s1);
    (o, Pop(s1, k))
  }

  predicate AllLists(vs: seq<Value>) {
    forall i | 0 <= i < |vs| :: vs[i].List?
  }

  /** Whether every iterator still has a p-th element. */
  predicate HasRow(vs: seq<Value>, p: nat)
    requires AllLists(vs)
  {
    forall i | 0 <= i < |vs| :: p < |vs[i].elems|
  }

  function Row(vs: seq<Value>, p: nat): seq<Value>
    requires AllLists(vs) && HasRow(vs, p)
  {
    seq(|vs|, i requires 0 <= i < |vs| => vs[i].elems[p])
  }

  function RunForIn(n: nat, s: Stmt, st: Store, k: nat): (r: (Outcome, Store))
    requires Good(st, k) && s.ForIn?
    ensures Good(r.1, k) && Ext(st, r.1) && st.defers <= r.1.defers
    decreases n, s, 2
  {
    var (vs, s1) := EvalAll(n, s.tests, st, k);
    match vs
    case Exc(x) => (Raised(x), s1)
    case Halt(h) => (Stuck(h), s1)
    case Ok(v) =>
      if |v| == 0 || !AllLists(v) then (Raised(Internal(TYPE_ERROR)), s1)
      else RunRows(n, s, v, 0, s1, k)
  }

  /** The iterations from the p-th on, until the shortest list is exhausted. */
  function RunRows(n: nat, s: Stmt, vs: seq<Value>, p: nat, st: Store, k: nat): (r: (Outcome, Store))
    requires Good(st, k) && s.ForIn? && |vs| > 0 && AllLists(vs)
    ensures Good(r.1, k) && Ext(st, r.1) && st.defers <= r.1.defers
    decreases n, s, 1, |vs[0].elems| - p
  {
    if !HasRow(vs, p) then (Normal, st) else
    var (o, s1) := RunRow(n, s, Row(vs, p), st, k);
    match o
    case Normal => RunRows(n, s, vs, p + 1, s1, k)
    case Continued => RunRows(n, s, vs, p + 1, s1, k)
    case Broke => (Normal, s1)
    case _ => (o, s1)
  }

  /** One iteration: bind the loop names to the row, then run the body. */
  function RunRow(n: nat, s: Stmt, row: seq<Value>, st: Store, k: nat): (r: (Outcome, Store))
    requires Good(st, k) && s.ForIn?
    ensures Good(r.1, k) && Ext(st, r.1) && st.defers <= r.1.defers
    decreases n, s, 0
  {
    var (x, s1) := AssignAll(st, k, s.vars, row, false);
    if x.Some? then (Raised(x.value), s1) else RunBody(n, s.ss, s1, k)
  }

  function RunTry(n: nat, s: Stmt, st: Store, k: nat): (r: (Outcome, Store))
    requires Good(st, k) && s.Try?
    ensures Good(r.1, k) && Ext(st, r.1) && st.defers <= r.1.defers
    decreases n, s, 2
  {
    var (o, s1) := RunList(n, s.ss, st, k, false);
    if o.Raised? then RunCatches(n, s, 0, o.x, s1, k) else (o, s1)
  }

  /** The first catch clause, from the i-th on, that names the class of the exception. */
  function RunCatches(n: nat, s: Stmt, i: nat, x: Exn, st: Store, k: nat): (r: (Outcome, Store))
    requires Good(st, k) && s.Try? && i <= |s.catches|
    ensures Good(r.1, k) && Ext(st, r.1) && st.defers <= r.1.defers
    decreases n, s, 1, |s.catches| - i
  {
    if i == |s.catches| then (Raised(x), st) else
    var c := s.catches[i];
    var (ps, s1) := EvalAll(n, c.pats, st, k);
    match ps
    case Exc(y) => (Raised(y), s1)
    case Halt(h) => (Stuck(h), s1)
    case Ok(ts) =>
      if InstanceOfAny(ExnValue(x), ts) then
        RunList(n, c.ss, if c.bind.Some? then InsertEntry(s1, k, c.bind.value, ExnValue(x)) else s1, k, false)
      else RunCatches(n, s, i + 1, x, s1, k)
  }

  predicate IsScoped(s: Stmt) { s.If? || s.While? || s.ForIn? || s.Try? }

  /** A compound statement between the push and the pop of its table. */
  ghost function ScopedRun(n: nat, s: Stmt, st: Store, k: nat): (r: (Outcome, Store))
    requires Good(st, k) && IsScoped(s)
    ensures Good(r.1, k) && Ext(st, r.1) && st.defers <= r.1.defers
  {
    match s
    case If(_, _, _) => RunIf(n, s, st, k)
    case While(_, _) => RunWhile(n, s, st, k)
    case ForIn(_, _, _) => RunForIn(n, s, st, k)
    case Try(_, _) => RunTry(n, s, st, k)
  }

  /** A compound statement ends as r, the table it pushed popped. */
  ghost predicate Closes(r: (Outcome, Store), k: nat, whole: (Outcome, Store)) {
    Good(r.1, k) && |r.1.stacks[k].ids| > 0 && whole == (r.0, Pop(r.1, k))
  }

  lemma ScopedIs(n: nat, s: Stmt, st: Store, k: nat, root: bool)
    requires Good(st, k) && IsScoped(s)
    ensures var (o, s1) := ScopedRun(n, s, Push(st, k, ScopeTable), k);
            |s1.stacks[k].ids| > 0 && RunStmt(n, s, st, k, root) == (o, Pop(s1, k))
  {
    hide WF, Ext, RunIf, RunWhile, RunForIn, RunTry;
    PopExt(st, k, ScopeTable, ScopedRun(n, s, Push(st, k, ScopeTable), k).1);
  }

  lemma RunSingle(n: nat, s: Stmt, st: Store, k: nat)
    requires Good(st, k)
    ensures RunList(n, [s], st, k, false) == RunStmt(n, s, st, k, false)
  {
    var (o, s1) := RunStmt(n, s, st, k, false);
    assert [s][1..] == [];
    assert RunList(n, [], s1, k, false) == (Normal, s1);
  }

  /** One round of ExecuteDeferStack in the reference semantics. */
  lemma DefersStep(n: nat, st: Store, root: bool)
    requires WF(st) && |st.defers| > 0
    ensures var d := st.defers[|st.defers| - 1];
            && Good(st, d.k)
            && var (o, s1) := RunStmt(n, d.s, st, d.k, root);
            && |s1.defers| > 0
            && WF(s1.(defers := s1.defers[..|s1.defers| - 1]))
            && RunDefers(n + 1, st, root) ==
               if o.Raised? then (Some(Terminated), s1)
               else if o.Stuck? then (Some(o.h), s1)
               else RunDefers(n, s1.(defers := s1.defers[..|s1.defers| - 1]), root)
  {
    hide Ext, RunStmt;
  }

  lemma DefersNone(n: nat, st: Store, root: bool)
    requires WF(st)
    ensures st.defers == [] ==> RunDefers(n, st, root) == (None, st)
    ensures st.defers != [] && n == 0 ==> RunDefers(n, st, root) == (Some(OutOfFuel), st)
  {
    hide Ext, RunStmt;
  }

  // ----- whole programs -----

  const EMPTY := Store([Table(ScopeTable, map[])], [Stack([], -1)], [], [], [])

  /** A program: its statements on the root stack, then the deferred ones. */
  function RunProgram(n: nat, ss: seq<Stmt>): (r: (Outcome, Store))
    ensures WF(r.1)
  {
    var (o, s1) := RunList(n, ss, EMPTY, 0, true);
    if o.Stuck? then (o, s1)
    else
      var (d, s2) := RunDefers(n, s1, true);
      (if d.Some? then Stuck(d.value) else o, s2)
  }
}
