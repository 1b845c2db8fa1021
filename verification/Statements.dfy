/** What the simple statements and the branches do, case by case. */
module Statements {
  import opened Options
  import opened Syntax
  import opened SymbolTables
  import opened BigStep
  import opened Expressions

  // ----- lists and blocks -----

  /** A list ends with its first statement that does not end normally. */
  lemma {:induction false} InSequence(n: nat, a: seq<Stmt>, b: seq<Stmt>, st: Store, k: nat, root: bool)
    requires Good(st, k)
    ensures var (o, s1) := RunList(n, a, st, k, root);
            RunList(n, a + b, st, k, root) == if o.Normal? then RunList(n, b, s1, k, root) else (o, s1)
    decreases |a|
  {
    hide WF, Ext, RunStmt;
    if a == [] {
      assert a + b == b;
    } else {
      var (o, s1) := RunStmt(n, a[0], st, k, root);
      assert (a + b)[0] == a[0] && (a + b)[1..] == a[1..] + b;
      if o.Normal? {
        InSequence(n, a[1..], b, s1, k, root);
      }
    }
  }

  /** A loop body runs under a table of its own; a bare block does not. */
  lemma Scopes(n: nat, ss: seq<Stmt>, st: Store, k: nat, root: bool)
    requires Good(st, k)
    ensures Closes(RunList(n, ss, Push(st, k, ScopeTable), k, false), k, RunBody(n, ss, st, k))
    ensures RunStmt(n, Block(ss), st, k, root) == RunList(n, ss, st, k, false)
  {
    hide WF, RunList;
    PopExt(st, k, ScopeTable, RunList(n, ss, Push(st, k, ScopeTable), k, false).1);
  }

  // ----- branches -----

  /** If the condition holds the block runs, if it does not the else part; the else part of
      an else-if chain is the rest of the chain, a statement of its own. */
  ghost predicate IfEnd(n: nat, s: Stmt, st: Store, k: nat, r: (Outcome, Store))
    requires Good(st, k) && s.If?
  {
    var (v, s1) := Eval(n, s.cond, st, k);
    match v
    case Exc(x) => r == (Raised(x), s1)
    case Halt(h) => r == (Stuck(h), s1)
    case Ok(v) =>
      if Yes(v) then r == RunList(n, s.ss, s1, k, false)
      else if !No(v) then r == (Raised(Internal("TypeException")), s1)
      else
        match s.els
        case NoElse => r == (Normal, s1)
        case ElseBlock(es) => r == RunList(n, es, s1, k, false)
        case ElseIf(s') => s'.If? ==> r == RunStmt(n, s', s1, k, false)
  }

  lemma IfMeaning(n: nat, s: Stmt, st: Store, k: nat, root: bool)
    requires Good(st, k) && s.If?
    ensures exists r :: IfEnd(n, s, Push(st, k, ScopeTable), k, r) && Closes(r, k, RunStmt(n, s, st, k, root))
  {
    hide WF, Ext, RunStmt, RunList, Eval, Push, Truth;
    var s0 := Push(st, k, ScopeTable);
    ScopedIs(n, s, st, k, root);
    var v := Eval(n, s.cond, s0, k).0;
    if v.Ok? { TruthIs(v.v); }
    assert IfEnd(n, s, s0, k, RunIf(n, s, s0, k));
  }

  // ----- statements that evaluate one expression -----

  /** Nothing happens when the expression fails. Otherwise print adds the value at the end
      of the output, throw raises it, and an expression statement is over. */
  lemma ValueStatements(n: nat, e: Expr, st: Store, k: nat, root: bool)
    requires Good(st, k)
    ensures var (v, s1) := Eval(n, e, st, k);
            match v
            case Exc(x) => forall s | s in {Do(e), Print(e), Throw(e), Return(e)} ::
                             RunStmt(n, s, st, k, root) == (Raised(x), s1)
            case Halt(h) => forall s | s in {Do(e), Print(e), Throw(e), Return(e)} ::
                              RunStmt(n, s, st, k, root) == (Stuck(h), s1)
            case Ok(v) =>
              && RunStmt(n, Print(e), st, k, root) == (Normal, s1.(out := s1.out + [v]))
              && RunStmt(n, Throw(e), st, k, root) == (Raised(Thrown(v)), s1)
              && RunStmt(n, Do(e), st, k, root) == (Normal, s1)
  {
    hide WF, Ext, Eval, PutOnFuncs;
  }

  function Prints(vs: seq<Value>): seq<Stmt> {
    if vs == [] then [] else [Print(Lit(vs[0]))] + Prints(vs[1..])
  }

  /** Output comes in the order of the print statements. */
  lemma {:induction false} PrintsInOrder(n: nat, vs: seq<Value>, st: Store, k: nat, root: bool)
    requires Good(st, k)
    ensures RunList(n, Prints(vs), st, k, root) == (Normal, st.(out := st.out + vs))
    decreases |vs|
  {
    hide *;
    PrintsAre(vs);
    ListStep(n, Prints(vs), st, k, root);
    if vs == [] {
      OutSame(st);
    } else {
      PrintsOne(n, vs[0], st, k, root);
      PrintsInOrder(n, vs[1..], st.(out := st.out + [vs[0]]), k, root);
      OutTwice(st, vs);
    }
  }

  lemma PrintsAre(vs: seq<Value>)
    ensures vs == [] ==> Prints(vs) == []
    ensures vs != [] ==> Prints(vs) != [] && Prints(vs)[0] == Print(Lit(vs[0])) && Prints(vs)[1..] == Prints(vs[1..])
  {
  }

  lemma OutSame(st: Store)
    ensures st.(out := st.out + []) == st
  {
    assert st.out + [] == st.out;
  }

  lemma OutTwice(st: Store, vs: seq<Value>)
    requires vs != []
    ensures var s1 := st.(out := st.out + [vs[0]]); s1.(out := s1.out + vs[1..]) == st.(out := st.out + vs)
  {
    assert st.out + [vs[0]] + vs[1..] == st.out + vs;
  }

  lemma ListStep(n: nat, ss: seq<Stmt>, st: Store, k: nat, root: bool)
    requires Good(st, k)
    ensures ss == [] ==> RunList(n, ss, st, k, root) == (Normal, st)
    ensures ss != [] ==>
              var (o, s1) := RunStmt(n, ss[0], st, k, root);
              RunList(n, ss, st, k, root) == if o.Normal? then RunList(n, ss[1..], s1, k, root) else (o, s1)
  {
    hide WF, Ext, RunStmt;
  }

  lemma PrintsOne(n: nat, v: Value, st: Store, k: nat, root: bool)
    requires Good(st, k)
    ensures Good(st.(out := st.out + [v]), k)
    ensures RunStmt(n, Print(Lit(v)), st, k, root) == (Normal, st.(out := st.out + [v]))
  {
    hide Ext;
    ValueStatements(n, Lit(v), st, k, root);
  }

  /** Errors that statements raise by themselves. */
  lemma OwnErrors(n: nat, s: Stmt, st: Store, k: nat)
    requires Good(st, k)
    ensures s.Global? ==> RunStmt(n, s, st, k, false) == (Raised(Internal("ErrorException")), st)
    ensures s.ForIn? ==>
              var (vs, s1) := EvalAll(n, s.tests, Push(st, k, ScopeTable), k);
              match vs
              case Exc(x) => Closes((Raised(x), s1), k, RunStmt(n, s, st, k, false))
              case Halt(h) => Closes((Stuck(h), s1), k, RunStmt(n, s, st, k, false))
              case Ok(vs) =>
                (vs == [] || exists j :: 0 <= j < |vs| && !vs[j].List?) ==>
                  Closes((Raised(Internal("TypeException")), s1), k, RunStmt(n, s, st, k, false))
  {
    hide WF, Ext, EvalAll, RunRows, Push;
    if s.ForIn? {
      ScopedIs(n, s, st, k, false);
    }
  }

  // ----- assignment -----

  /** The values an assignment gives its names: as many as there are names, all of them as
      one list to a single name, or the elements of a single list. */
  lemma AssignShapes(st: Store, k: nat, xs: seq<string>, vs: seq<Value>, g: bool)
    requires Good(st, k)
    ensures |xs| == |vs| ==> AssignAll(st, k, xs, vs, g) == (None, AssignEach(st, k, xs, vs, g))
    ensures |xs| == 1 && |vs| != 1 ==> AssignAll(st, k, xs, vs, g) == (None, AssignEach(st, k, xs, [List(vs)], g))
    ensures |xs| != 1 && |vs| == 1 && vs[0].List? && |vs[0].elems| == |xs| ==>
              AssignAll(st, k, xs, vs, g) == (None, AssignEach(st, k, xs, vs[0].elems, g))
    ensures |xs| != |vs| && |xs| != 1 && !(|vs| == 1 && vs[0].List? && |vs[0].elems| == |xs|) ==>
              AssignAll(st, k, xs, vs, g) == (Some(Internal("TypeException")), st)
  {
    hide WF, Ext, AssignEach;
  }

  /** Name after name, from the left. */
  lemma {:induction false} AssignInOrder(st: Store, k: nat, xs: seq<string>, vs: seq<Value>, ys: seq<string>,
          ws: seq<Value>, g: bool)
    requires Good(st, k) && |xs| == |vs| && |ys| == |ws|
    ensures AssignEach(st, k, xs + ys, vs + ws, g) == AssignEach(AssignEach(st, k, xs, vs, g), k, ys, ws, g)
    decreases |xs|
  {
    hide WF, Ext, SetVar;
    if xs == [] {
      assert xs + ys == ys && vs + ws == ws;
    } else {
      assert (xs + ys)[1..] == xs[1..] + ys && (vs + ws)[1..] == vs[1..] + ws;
      AssignInOrder(SetVar(st, k, xs[0], vs[0], g), k, xs[1..], vs[1..], ys, ws, g);
    }
  }

  /** b is a, except for the value of x in the table t; a new entry has the flag given. */
  ghost predicate WrittenAt(a: Store, b: Store, t: nat, x: string, v: Value, global: bool)
    requires t < |a.tables|
  {
    && |b.tables| == |a.tables| && b.tables[..t] == a.tables[..t] && b.tables[t + 1..] == a.tables[t + 1..]
    && b.tables[t].kind == a.tables[t].kind
    && b.tables[t].m == a.tables[t].m[x := Entry(v, if x in a.tables[t].m then a.tables[t].m[x].global else global)]
    && b == a.(tables := b.tables)
  }

  /** Where an assignment to one name is written. On a stack that never held a function
      table: in the topmost table that binds the name, else in the main table if that binds
      it, else in the top table. On one that did: only the tables from the recorded function
      table up are searched, and the main table counts only for a global. */
  lemma WhereWritten(st: Store, k: nat, x: string, v: Value, g: bool)
    requires Good(st, k)
    ensures var s1, ids, p := SetVar(st, k, x, v, g), st.stacks[k].ids, st.stacks[k].posFunc;
            var main := x in st.tables[0].m && (p < 0 || st.tables[0].m[x].global);
            && (forall i | Topmost(st, k, x, i) && p <= i :: WrittenAt(st, s1, ids[i], x, v, false))
            && (Unbound(st, k, x, p) && main ==> WrittenAt(st, s1, 0, x, v, false))
            && (Unbound(st, k, x, p) && !main ==>
                  if ids == [] then WrittenAt(st, s1, 0, x, v, g && p < 0)
                  else WrittenAt(st, s1, ids[|ids| - 1], x, v, false))
  {
    hide WF, Ext, PutIn;
    SiteIs(st, k, x);
    WriteIs(st, WriteSite(st, k, x), x, v, g && |st.stacks[k].ids| == 0 && st.stacks[k].posFunc < 0);
  }

  lemma SiteIs(st: Store, k: nat, x: string)
    requires Good(st, k)
    ensures var t, ids, p := WriteSite(st, k, x), st.stacks[k].ids, st.stacks[k].posFunc;
            var main := x in st.tables[0].m && (p < 0 || st.tables[0].m[x].global);
            && (forall i | Topmost(st, k, x, i) && p <= i :: t == ids[i])
            && (Unbound(st, k, x, p) ==> t == if main || ids == [] then 0 else ids[|ids| - 1])
  {
    hide Ext;
    var ids, p := st.stacks[k].ids, st.stacks[k].posFunc;
    var stop := if p >= 0 then p else 0;
    forall i | Topmost(st, k, x, i) && p <= i ensures Find(st.tables, ids, x, stop) == Some(ids[i]) {
      FindTopmost(st.tables, ids, x, i, stop);
    }
    if Unbound(st, k, x, p) {
      FindNone(st.tables, ids, x, stop);
    }
  }

  lemma WriteIs(st: Store, t: nat, x: string, v: Value, global: bool)
    requires WF(st) && t < |st.tables|
    ensures WrittenAt(st, Put(st, t, x, v, global), t, x, v, global)
  {
    hide WF, Ext;
  }

  /** A declaration adds a function with an empty stack of its own, and binds the name to it
      in the top table, unless that table has the name already. */
  lemma DeclarationBinds(n: nat, name: string, params: seq<string>, ss: seq<Stmt>, st: Store, k: nat, root: bool)
    requires Good(st, k)
    ensures var (o, s1) := RunStmt(n, FuncDecl(name, params, ss), st, k, root);
            && o == Normal && s1.stacks == st.stacks + [Stack([], -1)]
            && s1.funcs == st.funcs + [FuncObj(params, ss, |st.stacks|)]
            && (name in st.tables[Top(st, k)].m ==> s1.tables == st.tables)
            && (name !in st.tables[Top(st, k)].m ==>
                  s1.tables == st.tables[Top(st, k) := Table(st.tables[Top(st, k)].kind,
                                 st.tables[Top(st, k)].m[name := Entry(Func(|st.funcs|), true)])])
  {
    hide Ext;
  }
}
