/** List comprehensions. Denote is the flat-map and filter that the clauses spell out;
    Thread is the same with loop names that the surrounding program can see, and every
    run of the nested statements a comprehension is rewritten into is described by it. */
module Comprehension {
  import opened Options
  import opened Syntax
  import opened SymbolTables
  import opened BigStep

  // ----- what a comprehension denotes -----

  /** Expressions without calls and without comprehensions of their own. */
  ghost predicate Pure(e: Expr)
    decreases e, 1
  {
    match e
    case Lit(_) => true
    case Var(x) => x != COMP_NAME
    case Op(_, l, r) => Pure(l) && Pure(r)
    case ListLit(es) => AllPure(es)
    case _ => false
  }

  ghost predicate AllPure(es: seq<Expr>)
    decreases es, 0
  {
    es == [] || (Pure(es[0]) && AllPure(es[1..]))
  }

  ghost function Names(e: Expr): set<string>
    decreases e, 1
  {
    match e
    case Var(x) => {x}
    case Op(_, l, r) => Names(l) + Names(r)
    case ListLit(es) => NamesOf(es)
    case _ => {}
  }

  ghost function NamesOf(es: seq<Expr>): set<string>
    decreases es, 0
  {
    if es == [] then {} else Names(es[0]) + NamesOf(es[1..])
  }

  /** Reading a name: the loop bindings first, then the surrounding program. */
  ghost function Read(env: map<string, Value>, st: Store, k: nat, x: string): Option<Value>
    requires Good(st, k)
  {
    if x in env then Some(env[x]) else Lookup(st, k, x)
  }

  ghost function ValueOf(e: Expr, env: map<string, Value>, st: Store, k: nat): (r: Res<Value>)
    requires Good(st, k) && Pure(e)
    ensures !r.Halt?
    decreases e, 1
  {
    match e
    case Lit(v) => Ok(v)
    case Var(x) =>
      var o := Read(env, st, k, x);
      if o.Some? then Ok(o.value) else Exc(Internal(LOOKUP_ERROR))
    case Op(op, l, r) =>
      var a := ValueOf(l, env, st, k);
      if !a.Ok? then a else
      var b := ValueOf(r, env, st, k);
      if !b.Ok? then b else ApplyPrim(op, a.v, b.v)
    case ListLit(es) =>
      (match ValuesOf(es, env, st, k) case Ok(vs) => Ok(List(vs)) case Exc(x) => Exc(x) case Halt(h) => Halt(h))
  }

  ghost function ValuesOf(es: seq<Expr>, env: map<string, Value>, st: Store, k: nat): (r: Res<seq<Value>>)
    requires Good(st, k) && AllPure(es)
    ensures !r.Halt?
    decreases es, 0
  {
    if es == [] then Ok([]) else
    match ValueOf(es[0], env, st, k)
    case Exc(x) => Exc(x)
    case Halt(h) => Halt(h)
    case Ok(v) =>
      var vs := ValuesOf(es[1..], env, st, k);
      if vs.Ok? then Ok([v] + vs.v) else vs
  }

  ghost function BindEach(env: map<string, Value>, xs: seq<string>, vs: seq<Value>): map<string, Value>
    requires |xs| == |vs|
    decreases |xs|
  {
    if |xs| == 0 then env else BindEach(env[xs[0] := vs[0]], xs[1..], vs[1..])
  }

  /** The values a row gives to the names of a for clause, if the numbers fit. */
  ghost function RowValues(xs: seq<string>, row: seq<Value>): (r: Option<seq<Value>>)
    ensures r.Some? ==> |r.value| == |xs|
  {
    if |xs| == 1 && |row| != 1 then Some([List(row)])
    else if |xs| == |row| then Some(row)
    else if |row| == 1 && row[0].List? && |row[0].elems| == |xs| then Some(row[0].elems)
    else None
  }

  ghost predicate PureClauses(clauses: seq<Clause>) {
    forall i | 0 <= i < |clauses| ::
      match clauses[i]
      case CompIf(c) => Pure(c)
      case CompFor(vars, tests) => AllPure(tests) && COMP_NAME !in vars
  }

  /** Filter by the if clauses, map and concatenate over the for clauses; a for clause
      over several lists takes as many rows as the shortest of them has. */
  ghost function Denote(clauses: seq<Clause>, res: Expr, env: map<string, Value>, st: Store, k: nat): Res<seq<Value>>
    requires Good(st, k) && PureClauses(clauses) && Pure(res)
    decreases |clauses|, 1, 0
  {
    if clauses == [] then
      var v := ValueOf(res, env, st, k);
      if v.Ok? then Ok([v.v]) else Exc(v.x)
    else match clauses[0]
    case CompIf(c) =>
      var v := ValueOf(c, env, st, k);
      if !v.Ok? then Exc(v.x) else
      var b := Truth(v.v);
      if !b.Ok? then Exc(b.x)
      else if b.v then Denote(clauses[1..], res, env, st, k)
      else Ok([])
    case CompFor(_, tests) =>
      var vs := ValuesOf(tests, env, st, k);
      if !vs.Ok? then Exc(vs.x)
      else if |vs.v| == 0 || !AllLists(vs.v) then Exc(Internal(TYPE_ERROR))
      else DenoteRows(clauses, res, vs.v, 0, env, st, k)
  }

  ghost function DenoteRows(clauses: seq<Clause>, res: Expr, vs: seq<Value>, p: nat, env: map<string, Value>,
          st: Store, k: nat): Res<seq<Value>>
    requires Good(st, k) && PureClauses(clauses) && Pure(res)
    requires clauses != [] && clauses[0].CompFor? && |vs| > 0 && AllLists(vs)
    decreases |clauses|, 0, |vs[0].elems| - p
  {
    if !HasRow(vs, p) then Ok([]) else
    var row := RowValues(clauses[0].vars, Row(vs, p));
    if row.None? then Exc(Internal(TYPE_ERROR)) else
    var here := Denote(clauses[1..], res, BindEach(env, clauses[0].vars, row.value), st, k);
    if !here.Ok? then here else
    var later := DenoteRows(clauses, res, vs, p + 1, env, st, k);
    if later.Ok? then Ok(here.v + later.v) else later
  }

  ghost function LoopNames(clauses: seq<Clause>): set<string> {
    if clauses == [] then {}
    else (if clauses[0].CompFor? then set x | x in clauses[0].vars else {}) + LoopNames(clauses[1..])
  }

  // ----- what an assignment reaches -----

  ghost function Stop(st: Store, k: nat): int
    requires Good(st, k)
  {
    if st.stacks[k].posFunc >= 0 then st.stacks[k].posFunc else 0
  }

  /** An assignment may take the main table's x. */
  ghost predicate MainTaken(st: Store, k: nat, x: string)
    requires Good(st, k)
  {
    x in st.tables[0].m && (st.stacks[k].posFunc < 0 || st.tables[0].m[x].global)
  }

  /** Assigning x writes a binding that is already there. */
  ghost predicate Assignable(st: Store, k: nat, x: string)
    requires Good(st, k)
  {
    Find(st.tables, st.stacks[k].ids, x, Stop(st, k)).Some? || MainTaken(st, k, x)
  }

  /** Assigning x writes the main table, but reading x stops below the recorded function
      table, at a binding that assignments do not reach. */
  ghost predicate Hidden(st: Store, k: nat, x: string)
    requires Good(st, k)
  {
    && Find(st.tables, st.stacks[k].ids, x, Stop(st, k)).None? && MainTaken(st, k, x)
    && Find(st.tables, st.stacks[k].ids, x, 0).Some?
  }

  lemma {:induction false} FindAbove(tables: seq<Table>, ids: seq<nat>, x: string, stop: int)
    requires ValidIds(ids, |tables|) && stop >= 0
    ensures Find(tables, ids, x, stop).Some? ==> Find(tables, ids, x, 0) == Find(tables, ids, x, stop)
  {
    if |ids| > 0 {
      FindAbove(tables, ids[..|ids| - 1], x, stop);
    }
  }

  /** One more table on top: it is looked at first, unless it lies below the stop. */
  lemma FindTop(tables: seq<Table>, ids: seq<nat>, t: nat, x: string, stop: int)
    requires t < |tables| && ValidIds(ids + [t], |tables|)
    ensures ValidIds(ids, |tables|)
    ensures Find(tables, ids + [t], x, stop) ==
            if |ids| >= stop && x in tables[t].m then Some(t) else Find(tables, ids, x, stop)
  {
    var all := ids + [t];
    assert all[..|all| - 1] == ids;
    assert forall i | 0 <= i < |ids| :: all[i] == ids[i];
  }

  /** An assigned name reads back from where it was written exactly when it is not hidden;
      a hidden one reads as before, and so does every other name. */
  lemma SetThenRead(st: Store, k: nat, x: string, v: Value, y: string)
    requires Good(st, k)
    ensures var st' := SetVar(st, k, x, v, false);
            && (ReadSite(st', k, x) == Some(WriteSite(st, k, x)) <==> !Hidden(st, k, x))
            && Lookup(st', k, x) == (if Hidden(st, k, x) then Lookup(st, k, x) else Some(v))
            && (y != x ==> Lookup(st', k, y) == Lookup(st, k, y))
  {
    var st' := SetVar(st, k, x, v, false);
    var ids := st.stacks[k].ids;
    if y != x {
      FindSame(st.tables, st'.tables, ids, y, 0);
    }
    FindAbove(st.tables, ids, x, Stop(st, k));
    if Assignable(st, k, x) {
      FindSame(st.tables, st'.tables, ids, x, 0);
    }
  }

  // ----- the denotation with visible loop names -----

  /** Where a clause runs: the height of its stack, where assignments stop searching, and
      which loop names assignments reach (visibly, or hidden in the main table). */
  datatype Scope = Scope(height: nat, stop: int, reach: set<string>, hidden: set<string>)

  ghost function ScopeOf(clauses: seq<Clause>, st: Store, k: nat): Scope
    requires Good(st, k)
  {
    var names := LoopNames(clauses);
    Scope(|st.stacks[k].ids| + 1, Stop(st, k),
          set x | x in names && Assignable(st, k, x) && !Hidden(st, k, x),
          set x | x in names && Hidden(st, k, x))
  }

  /** The names that a for clause creates in a table of its own. */
  ghost function Own(vars: seq<string>, sc: Scope): set<string> {
    set x | x in vars && x !in sc.reach && x !in sc.hidden
  }

  /** Under the table of an if clause. */
  ghost function InIf(sc: Scope): Scope {
    sc.(height := sc.height + 1)
  }

  /** Under the tables of a for clause and of its body: inner assignments reach the
      clause's own names unless its table lies below the stop. */
  ghost function InRow(vars: seq<string>, sc: Scope): Scope {
    sc.(height := sc.height + 2, reach := if sc.height >= sc.stop then sc.reach + Own(vars, sc) else sc.reach)
  }

  /** Binding a row; the values of hidden names go where no expression sees them. */
  ghost function BindSeen(env: map<string, Value>, xs: seq<string>, vs: seq<Value>, hidden: set<string>)
    : map<string, Value>
    requires |xs| == |vs|
    decreases |xs|
  {
    if |xs| == 0 then env
    else BindSeen(if xs[0] in hidden then env else env[xs[0] := vs[0]], xs[1..], vs[1..], hidden)
  }

  /** At the end of a for clause its own names are forgotten; the others keep the values
      they were last given. */
  ghost function Restore(env: map<string, Value>, last: map<string, Value>, own: set<string>): map<string, Value> {
    map x | x in env.Keys + last.Keys && (if x in own then x in env else x in last)
      :: if x in own then env[x] else last[x]
  }

  /** The list, and the loop names as the clauses leave them. */
  ghost function Thread(clauses: seq<Clause>, res: Expr, env: map<string, Value>, sc: Scope, st: Store, k: nat)
    : (r: (Res<seq<Value>>, map<string, Value>))
    requires Good(st, k) && PureClauses(clauses) && Pure(res)
    ensures !r.0.Halt?
    decreases |clauses|, 3
  {
    if clauses == [] then
      var v := ValueOf(res, env, st, k);
      (if v.Ok? then Ok([v.v]) else Exc(v.x), env)
    else match clauses[0]
    case CompIf(c) =>
      var v := ValueOf(c, env, st, k);
      if !v.Ok? then (Exc(v.x), env) else
      var b := Truth(v.v);
      if !b.Ok? then (Exc(b.x), env)
      else if b.v then Thread(clauses[1..], res, env, InIf(sc), st, k)
      else (Ok([]), env)
    case CompFor(vars, tests) =>
      var (d, last) := ThreadFor(clauses, res, env, sc, st, k);
      (d, Restore(env, last, Own(vars, sc)))
  }

  ghost function ThreadFor(clauses: seq<Clause>, res: Expr, env: map<string, Value>, sc: Scope, st: Store, k: nat)
    : (r: (Res<seq<Value>>, map<string, Value>))
    requires Good(st, k) && PureClauses(clauses) && Pure(res) && clauses != [] && clauses[0].CompFor?
    ensures !r.0.Halt?
    decreases |clauses|, 2
  {
    var vs := ValuesOf(clauses[0].tests, env, st, k);
    if !vs.Ok? then (Exc(vs.x), env)
    else if |vs.v| == 0 || !AllLists(vs.v) then (Exc(Internal(TYPE_ERROR)), env)
    else ThreadRows(clauses, res, vs.v, 0, env, sc, st, k)
  }

  ghost function ThreadRows(clauses: seq<Clause>, res: Expr, vs: seq<Value>, p: nat, env: map<string, Value>,
          sc: Scope, st: Store, k: nat): (r: (Res<seq<Value>>, map<string, Value>))
    requires Good(st, k) && PureClauses(clauses) && Pure(res)
    requires clauses != [] && clauses[0].CompFor? && |vs| > 0 && AllLists(vs)
    ensures !r.0.Halt?
    decreases |clauses|, 1, |vs[0].elems| - p
  {
    if !HasRow(vs, p) then (Ok([]), env) else
    var (here, env1) := ThreadRow(clauses, res, Row(vs, p), env, sc, st, k);
    if !here.Ok? then (here, env1) else
    var (later, env2) := ThreadRows(clauses, res, vs, p + 1, env1, sc, st, k);
    (if later.Ok? then Ok(here.v + later.v) else later, env2)
  }

  ghost function ThreadRow(clauses: seq<Clause>, res: Expr, row: seq<Value>, env: map<string, Value>, sc: Scope,
          st: Store, k: nat): (r: (Res<seq<Value>>, map<string, Value>))
    requires Good(st, k) && PureClauses(clauses) && Pure(res) && clauses != [] && clauses[0].CompFor?
    ensures !r.0.Halt?
    decreases |clauses|, 0
  {
    var vars := clauses[0].vars;
    var vs := RowValues(vars, row);
    if vs.None? then (Exc(Internal(TYPE_ERROR)), env)
    else Thread(clauses[1..], res, BindSeen(env, vars, vs.value, sc.hidden), InRow(vars, sc), st, k)
  }

  // ----- what a run leaves alone -----

  /** The tables of st bind the same names, and only names assignable from k may have new
      values, each where it is assigned; the accumulator may have grown, and the top table
      may have got names of own. */
  ghost predicate Kept(st: Store, st': Store, k: nat, own: set<string>)
    requires Good(st, k)
  {
    && |st.tables| <= |st'.tables|
    && (forall x | x in st.tables[Top(st, k)].m :: x in st'.tables[Top(st, k)].m)
    && forall t, x | 0 <= t < |st.tables| && !(t == Top(st, k) && x in own) :: KeptAt(st, st', k, t, x)
  }

  ghost predicate KeptAt(st: Store, st': Store, k: nat, t: nat, x: string)
    requires Good(st, k) && t < |st.tables| <= |st'.tables|
  {
    && (x in st'.tables[t].m <==> x in st.tables[t].m)
    && (x in st.tables[t].m ==>
          && st'.tables[t].m[x].global == st.tables[t].m[x].global
          && (st'.tables[t].m[x] == st.tables[t].m[x] || x == COMP_NAME
              || (Assignable(st, k, x) && t == WriteSite(st, k, x))))
  }

  /** Which names assignments from k reach, as the scope says. */
  ghost predicate Fits(st: Store, k: nat, names: set<string>, sc: Scope)
    requires Good(st, k)
  {
    && sc.height == |st.stacks[k].ids| && sc.stop == Stop(st, k)
    && forall x | x in names ::
         && (x in sc.reach <==> Assignable(st, k, x) && !Hidden(st, k, x))
         && (x in sc.hidden <==> Hidden(st, k, x))
  }

  /** The top table lies nowhere else on the stack. */
  ghost predicate Single(st: Store, k: nat)
    requires Good(st, k)
  {
    var ids := st.stacks[k].ids;
    |ids| > 0 && ids[|ids| - 1] !in ids[..|ids| - 1]
  }

  /** Under the table of a for clause, which holds at most the clause's own names. */
  ghost predicate InFor(st: Store, k: nat, names: set<string>, sc: Scope, own: set<string>)
    requires Good(st, k)
  {
    && Single(st, k)
    && Fits(Pop(st, k), k, names, sc)
    && (forall x | x in own :: x in names && x !in sc.reach && x !in sc.hidden && x != COMP_NAME)
    && forall x | x in st.tables[Top(st, k)].m :: x in own
  }

  ghost predicate Agree(st: Store, k: nat, env: map<string, Value>, base: Store)
    requires Good(st, k) && Good(base, k)
  {
    forall x | x != COMP_NAME :: Lookup(st, k, x) == Read(env, base, k, x)
  }

  ghost predicate At(st: Store, k: nat, env: map<string, Value>, base: Store, acc: seq<Value>) {
    Good(st, k) && Good(base, k) && Agree(st, k, env, base) && Lookup(st, k, COMP_NAME) == Some(List(acc))
  }

  /** The run r from st did what d says, the accumulator having been acc. */
  ghost predicate Meets(r: (Outcome, Store), st: Store, k: nat, d: (Res<seq<Value>>, map<string, Value>),
          base: Store, acc: seq<Value>, own: set<string>)
    requires Good(st, k)
  {
    && Good(r.1, k) && r.1.stacks[k] == st.stacks[k]
    && match d.0
       case Ok(vs) => r.0.Normal? && At(r.1, k, d.1, base, acc + vs) && Kept(st, r.1, k, own)
       case Exc(x) => r.0 == Raised(x)
       case Halt(_) => false
  }

  /** Where x is found depends only on which tables bind it and on the flag of the main
      table's entry. */
  lemma SameReach(a: Store, b: Store, k: nat, x: string)
    requires Good(a, k) && Good(b, k) && a.stacks[k] == b.stacks[k]
    requires forall i | 0 <= i < |a.stacks[k].ids| ::
               x in a.tables[a.stacks[k].ids[i]].m <==> x in b.tables[a.stacks[k].ids[i]].m
    requires x in a.tables[0].m <==> x in b.tables[0].m
    requires x in a.tables[0].m ==> a.tables[0].m[x].global == b.tables[0].m[x].global
    ensures ReadSite(a, k, x) == ReadSite(b, k, x)
    ensures Assignable(a, k, x) == Assignable(b, k, x) && Hidden(a, k, x) == Hidden(b, k, x)
    ensures WriteSite(a, k, x) == WriteSite(b, k, x)
  {
    FindSame(a.tables, b.tables, a.stacks[k].ids, x, 0);
    FindSame(a.tables, b.tables, a.stacks[k].ids, x, Stop(a, k));
  }

  lemma KeptReach(a: Store, b: Store, k: nat, own: set<string>, x: string)
    requires Good(a, k) && Good(b, k) && a.stacks[k] == b.stacks[k] && Kept(a, b, k, own) && x !in own
    ensures ReadSite(a, k, x) == ReadSite(b, k, x)
    ensures Assignable(a, k, x) == Assignable(b, k, x) && Hidden(a, k, x) == Hidden(b, k, x)
    ensures WriteSite(a, k, x) == WriteSite(b, k, x)
  {
    var ids := a.stacks[k].ids;
    forall i | 0 <= i < |ids| ensures x in a.tables[ids[i]].m <==> x in b.tables[ids[i]].m {
      assert KeptAt(a, b, k, ids[i], x);
    }
    assert KeptAt(a, b, k, 0, x);
    SameReach(a, b, k, x);
  }

  /** Reaching x before and after one more, empty or unrelated, table on top. */
  lemma TopReach(st: Store, below: Store, k: nat, x: string)
    requires Good(st, k) && Good(below, k) && |st.stacks[k].ids| > 0
    requires below.stacks[k].ids == st.stacks[k].ids[..|st.stacks[k].ids| - 1]
    requires below.stacks[k].posFunc == st.stacks[k].posFunc
    requires |below.tables| <= |st.tables| && below.tables == st.tables[..|below.tables|]
    requires x !in st.tables[Top(st, k)].m
    ensures ReadSite(st, k, x) == ReadSite(below, k, x)
    ensures Assignable(st, k, x) == Assignable(below, k, x) && Hidden(st, k, x) == Hidden(below, k, x)
    ensures Assignable(st, k, x) ==> WriteSite(st, k, x) == WriteSite(below, k, x)
  {
    var ids, t := below.stacks[k].ids, Top(st, k);
    assert st.stacks[k].ids == ids + [t];
    FindTop(st.tables, ids, t, x, 0);
    FindTop(st.tables, ids, t, x, Stop(st, k));
    FindSame(st.tables, below.tables, ids, x, 0);
    FindSame(st.tables, below.tables, ids, x, Stop(st, k));
  }

  /** An own name that a later store still assigns below the top table was assigned there
      before. */
  lemma OwnReach(a: Store, b: Store, k: nat, own: set<string>, x: string)
    requires Good(a, k) && Good(b, k) && a.stacks[k] == b.stacks[k] && Kept(a, b, k, own) && Single(a, k)
    requires Assignable(b, k, x) && WriteSite(b, k, x) != Top(a, k)
    ensures Assignable(a, k, x) && WriteSite(a, k, x) == WriteSite(b, k, x)
  {
    var ids, t := a.stacks[k].ids[..|a.stacks[k].ids| - 1], Top(a, k);
    assert a.stacks[k].ids == ids + [t];
    forall i | 0 <= i < |ids| ensures x in a.tables[ids[i]].m <==> x in b.tables[ids[i]].m {
      assert KeptAt(a, b, k, ids[i], x);
    }
    assert KeptAt(a, b, k, 0, x);
    FindTop(a.tables, ids, t, x, Stop(a, k));
    FindTop(b.tables, ids, t, x, Stop(a, k));
    FindSame(a.tables, b.tables, ids, x, Stop(a, k));
  }

  lemma KeptTrans(a: Store, b: Store, c: Store, k: nat, own: set<string>)
    requires Good(a, k) && Good(b, k) && Good(c, k) && a.stacks[k] == b.stacks[k]
    requires Kept(a, b, k, own) && Kept(b, c, k, own) && (own == {} || Single(a, k))
    ensures Kept(a, c, k, own)
  {
    assert Top(a, k) == Top(b, k);
    forall t, x | 0 <= t < |a.tables| && !(t == Top(a, k) && x in own) ensures KeptAt(a, c, k, t, x) {
      assert KeptAt(a, b, k, t, x) && KeptAt(b, c, k, t, x);
      if x !in own {
        KeptReach(a, b, k, own, x);
      } else if Assignable(b, k, x) && t == WriteSite(b, k, x) {
        OwnReach(a, b, k, own, x);
      }
    }
  }

  lemma KeptMore(a: Store, b: Store, k: nat, own: set<string>)
    requires Good(a, k) && Kept(a, b, k, {})
    ensures Kept(a, b, k, own)
  {
    forall t, x | 0 <= t < |a.tables| ensures KeptAt(a, b, k, t, x) {
    }
  }

  lemma KeptSelf(a: Store, k: nat, own: set<string>)
    requires Good(a, k)
    ensures Kept(a, a, k, own)
  {
  }

  /** Whatever is kept, the scope of a for clause is still what it was. */
  lemma InForKept(a: Store, b: Store, k: nat, names: set<string>, sc: Scope, own: set<string>)
    requires Good(a, k) && Good(b, k) && a.stacks[k] == b.stacks[k]
    requires InFor(a, k, names, sc, own) && Kept(a, b, k, own)
    ensures InFor(b, k, names, sc, own)
  {
    var a', b' := Pop(a, k), Pop(b, k);
    forall x ensures Assignable(a', k, x) == Assignable(b', k, x) && Hidden(a', k, x) == Hidden(b', k, x) {
      var ids := a'.stacks[k].ids;
      forall i | 0 <= i < |ids| ensures x in a.tables[ids[i]].m <==> x in b.tables[ids[i]].m {
        assert KeptAt(a, b, k, ids[i], x);
      }
      assert KeptAt(a, b, k, 0, x);
      SameReach(a', b', k, x);
    }
    forall x | x in b.tables[Top(b, k)].m ensures x in own {
      assert x !in own ==> KeptAt(a, b, k, Top(a, k), x);
    }
  }

  // ----- binding a row -----

  /** How assignments reach the names of a for clause from under its table. */
  lemma ForReach(st: Store, k: nat, names: set<string>, sc: Scope, own: set<string>, x: string)
    requires Good(st, k) && InFor(st, k, names, sc, own) && x in names
    requires x in sc.reach || x in sc.hidden || x in own
    ensures x in sc.hidden <==> Hidden(st, k, x)
    ensures x in own ==> WriteSite(st, k, x) == Top(st, k)
    ensures x !in own ==> Assignable(st, k, x)
    ensures x in own && x in st.tables[Top(st, k)].m ==> (Assignable(st, k, x) <==> sc.height >= sc.stop)
  {
    var below := Pop(st, k);
    var ids, t := below.stacks[k].ids, Top(st, k);
    assert st.stacks[k].ids == ids + [t];
    if x in own {
      FindTop(st.tables, ids, t, x, Stop(st, k));
    } else {
      assert below.tables == st.tables[..|below.tables|];
      TopReach(st, below, k, x);
    }
  }

  lemma BindOne(st: Store, k: nat, x: string, v: Value, env: map<string, Value>, base: Store, names: set<string>,
          sc: Scope, own: set<string>, acc: seq<Value>)
    requires At(st, k, env, base, acc) && InFor(st, k, names, sc, own)
    requires x in names && x != COMP_NAME && (x in sc.reach || x in sc.hidden || x in own)
    ensures var st' := SetVar(st, k, x, v, false);
            && At(st', k, if x in sc.hidden then env else env[x := v], base, acc)
            && Kept(st, st', k, own) && st'.stacks == st.stacks
            && (x in own ==> x in st'.tables[Top(st, k)].m)
  {
    hide Ext, Lookup, InFor;
    var st' := SetVar(st, k, x, v, false);
    ForReach(st, k, names, sc, own, x);
    forall y ensures Lookup(st', k, y) == if y == x && x !in sc.hidden then Some(v) else Lookup(st, k, y) {
      SetThenRead(st, k, x, v, y);
    }
    forall t, y | 0 <= t < |st.tables| && !(t == Top(st, k) && y in own) ensures KeptAt(st, st', k, t, y) {
    }
  }

  lemma {:induction false} BindRun(st: Store, k: nat, xs: seq<string>, vs: seq<Value>, env: map<string, Value>,
          base: Store, names: set<string>, sc: Scope, own: set<string>, acc: seq<Value>)
    requires At(st, k, env, base, acc) && InFor(st, k, names, sc, own) && |xs| == |vs| && COMP_NAME !in xs
    requires forall x | x in xs :: x in names && (x in sc.reach || x in sc.hidden || x in own)
    ensures var st' := AssignEach(st, k, xs, vs, false);
            && At(st', k, BindSeen(env, xs, vs, sc.hidden), base, acc)
            && Kept(st, st', k, own) && st'.stacks == st.stacks && Bound(st', k, xs, own)
    decreases |xs|
  {
    assert Good(st, k) && Good(base, k);
    hide WF, Ext, At, InFor, Kept, SetVar, Bound, Single;
    if |xs| > 0 {
      var s1 := SetVar(st, k, xs[0], vs[0], false);
      var env1 := if xs[0] in sc.hidden then env else env[xs[0] := vs[0]];
      BindOne(st, k, xs[0], vs[0], env, base, names, sc, own, acc);
      InForKept(st, s1, k, names, sc, own);
      BindRun(s1, k, xs[1..], vs[1..], env1, base, names, sc, own, acc);
      InForSingle(st, k, names, sc, own);
      var s2 := AssignEach(s1, k, xs[1..], vs[1..], false);
      KeptTrans(st, s1, s2, k, own);
      BoundMore(s1, s2, k, xs, own);
    } else {
      KeptSelf(st, k, own);
      NoneBound(st, k, xs, own);
    }
  }

  lemma InForSingle(st: Store, k: nat, names: set<string>, sc: Scope, own: set<string>)
    requires Good(st, k) && InFor(st, k, names, sc, own)
    ensures Single(st, k)
  {
  }

  ghost predicate Bound(st: Store, k: nat, xs: seq<string>, own: set<string>)
    requires Good(st, k)
  {
    forall x | x in xs && x in own :: x in st.tables[Top(st, k)].m
  }

  lemma NoneBound(st: Store, k: nat, xs: seq<string>, own: set<string>)
    requires Good(st, k) && |xs| == 0
    ensures Bound(st, k, xs, own)
  {
  }

  lemma BoundMore(a: Store, b: Store, k: nat, xs: seq<string>, own: set<string>)
    requires Good(a, k) && Good(b, k) && a.stacks[k] == b.stacks[k] && Kept(a, b, k, own)
    requires |xs| > 0 && (xs[0] in own ==> xs[0] in a.tables[Top(a, k)].m) && Bound(b, k, xs[1..], own)
    ensures Bound(b, k, xs, own)
  {
  }

  // ----- pushing and popping -----

  lemma PushReach(st: Store, k: nat, x: string)
    requires Good(st, k)
    ensures var s1 := Push(st, k, ScopeTable);
            && ReadSite(s1, k, x) == ReadSite(st, k, x) && Lookup(s1, k, x) == Lookup(st, k, x)
            && Assignable(s1, k, x) == Assignable(st, k, x) && Hidden(s1, k, x) == Hidden(st, k, x)
            && (Assignable(st, k, x) ==> WriteSite(s1, k, x) == WriteSite(st, k, x))
  {
    var s1 := Push(st, k, ScopeTable);
    assert s1.stacks[k].ids[..|s1.stacks[k].ids| - 1] == st.stacks[k].ids;
    assert s1.tables[..|st.tables|] == st.tables;
    TopReach(s1, st, k, x);
  }

  lemma PushAt(st: Store, k: nat, env: map<string, Value>, base: Store, acc: seq<Value>)
    requires At(st, k, env, base, acc)
    ensures At(Push(st, k, ScopeTable), k, env, base, acc)
  {
    hide WF, Ext, Push;
    forall x ensures Lookup(Push(st, k, ScopeTable), k, x) == Lookup(st, k, x) {
      PushReach(st, k, x);
    }
  }

  lemma PushIf(st: Store, k: nat, names: set<string>, sc: Scope)
    requires Good(st, k) && Fits(st, k, names, sc)
    ensures Fits(Push(st, k, ScopeTable), k, names, InIf(sc))
  {
    hide WF, Assignable, Hidden;
    forall x | x in names {
      PushReach(st, k, x);
    }
  }

  lemma PushFor(st: Store, k: nat, names: set<string>, sc: Scope, vars: seq<string>)
    requires Good(st, k) && Fits(st, k, names, sc) && COMP_NAME !in vars && forall x | x in vars :: x in names
    ensures InFor(Push(st, k, ScopeTable), k, names, sc, Own(vars, sc))
  {
    var s1 := Push(st, k, ScopeTable);
    var s2 := Pop(s1, k);
    assert s2.stacks[k].ids == st.stacks[k].ids;
    forall x ensures Assignable(s2, k, x) == Assignable(st, k, x) && Hidden(s2, k, x) == Hidden(st, k, x) {
      SameReach(st, s2, k, x);
    }
    assert forall i | 0 <= i < |st.stacks[k].ids| :: st.stacks[k].ids[i] < |st.tables|;
  }

  /** The stack of the body of a for clause, its own names bound. */
  lemma PushRow(st: Store, k: nat, clauses: seq<Clause>, sc: Scope)
    requires Good(st, k) && clauses != [] && clauses[0].CompFor?
    requires var own := Own(clauses[0].vars, sc);
             && InFor(st, k, LoopNames(clauses), sc, own)
             && forall x | x in own :: x in st.tables[Top(st, k)].m
    ensures Fits(Push(st, k, ScopeTable), k, LoopNames(clauses[1..]), InRow(clauses[0].vars, sc))
  {
    var own, names := Own(clauses[0].vars, sc), LoopNames(clauses);
    var below, inner := Pop(st, k), InRow(clauses[0].vars, sc);
    forall x | x in LoopNames(clauses[1..])
      ensures x in inner.reach <==> Assignable(st, k, x) && !Hidden(st, k, x)
      ensures x in inner.hidden <==> Hidden(st, k, x)
    {
      assert x in names;
      if x in own {
        ForReach(st, k, names, sc, own, x);
      } else {
        assert below.tables == st.tables[..|below.tables|];
        TopReach(st, below, k, x);
      }
    }
    PushFits(st, k, LoopNames(clauses[1..]), inner);
  }

  lemma PushFits(st: Store, k: nat, names: set<string>, sc: Scope)
    requires Good(st, k) && sc.height == |st.stacks[k].ids| + 1 && sc.stop == Stop(st, k)
    requires forall x | x in names ::
               && (x in sc.reach <==> Assignable(st, k, x) && !Hidden(st, k, x))
               && (x in sc.hidden <==> Hidden(st, k, x))
    ensures Fits(Push(st, k, ScopeTable), k, names, sc)
  {
    hide WF, Assignable, Hidden;
    forall x | x in names {
      PushReach(st, k, x);
    }
  }

  /** Popping the table of a clause: own names read as before it, the others as it left
      them. */
  lemma Bracket(st: Store, r: (Outcome, Store), k: nat, d: (Res<seq<Value>>, map<string, Value>),
          env: map<string, Value>, base: Store, acc: seq<Value>, own: set<string>)
    requires At(st, k, env, base, acc) && Meets(r, Push(st, k, ScopeTable), k, d, base, acc, own)
    requires forall x | x in own :: !Assignable(st, k, x) && x != COMP_NAME
    ensures |r.1.stacks[k].ids| > 0
    ensures Meets((r.0, Pop(r.1, k)), st, k, (d.0, Restore(env, d.1, own)), base, acc, {})
  {
    var s1, s2, s3 := Push(st, k, ScopeTable), r.1, Pop(r.1, k);
    assert s3.stacks[k].ids == st.stacks[k].ids;
    if d.0.Ok? {
      PopKept(st, k, s2, own);
      forall x ensures Lookup(s3, k, x) == if x in own then Lookup(st, k, x) else Lookup(s2, k, x) {
        PopLookup(st, k, s2, own, x);
      }
    }
  }

  lemma PopKept(st: Store, k: nat, s2: Store, own: set<string>)
    requires Good(st, k) && Good(s2, k) && s2.stacks[k] == Push(st, k, ScopeTable).stacks[k]
    requires Kept(Push(st, k, ScopeTable), s2, k, own)
    ensures Kept(st, Pop(s2, k), k, {})
  {
    var s1 := Push(st, k, ScopeTable);
    forall t, x | 0 <= t < |st.tables| ensures KeptAt(st, Pop(s2, k), k, t, x) {
      assert KeptAt(s1, s2, k, t, x);
      PushReach(st, k, x);
    }
    forall x | x in st.tables[Top(st, k)].m ensures x in Pop(s2, k).tables[Top(st, k)].m {
      assert KeptAt(st, Pop(s2, k), k, Top(st, k), x);
    }
  }

  lemma PopLookup(st: Store, k: nat, s2: Store, own: set<string>, x: string)
    requires Good(st, k) && Good(s2, k) && s2.stacks[k] == Push(st, k, ScopeTable).stacks[k]
    requires Kept(Push(st, k, ScopeTable), s2, k, own)
    requires forall y | y in own :: !Assignable(st, k, y) && y != COMP_NAME
    ensures Lookup(Pop(s2, k), k, x) == if x in own then Lookup(st, k, x) else Lookup(s2, k, x)
  {
    var s1, s3 := Push(st, k, ScopeTable), Pop(s2, k);
    assert s3.stacks[k].ids == st.stacks[k].ids;
    if x in own {
      PopKept(st, k, s2, own);
      assert s3.stacks[k] == st.stacks[k];
      KeptReach(st, s3, k, {}, x);
      var site := ReadSite(st, k, x);
      assert site.Some? ==> KeptAt(st, s3, k, site.value, x);
    } else {
      assert KeptAt(s1, s2, k, Top(s1, k), x);
      assert s3.tables == s2.tables[..|s3.tables|];
      TopReach(s2, s3, k, x);
    }
  }

  // ----- running the nested statements -----

  lemma {:induction false} EvalPure(n: nat, e: Expr, env: map<string, Value>, base: Store, st: Store, k: nat)
    requires Good(st, k) && Good(base, k) && Agree(st, k, env, base) && Pure(e)
    ensures Eval(n, e, st, k) == (ValueOf(e, env, base, k), st)
    decreases e, 1
  {
    hide WF, Ext;
    match e
    case Lit(_) =>
    case Var(x) =>
    case Op(_, l, r) =>
      EvalPure(n, l, env, base, st, k);
      EvalPure(n, r, env, base, st, k);
    case ListLit(es) =>
      EvalAllPure(n, es, env, base, st, k);
    case _ =>
  }

  lemma {:induction false} EvalAllPure(n: nat, es: seq<Expr>, env: map<string, Value>, base: Store, st: Store, k: nat)
    requires Good(st, k) && Good(base, k) && Agree(st, k, env, base) && AllPure(es)
    ensures EvalAll(n, es, st, k) == (ValuesOf(es, env, base, k), st)
    decreases es, 0
  {
    hide WF, Ext;
    if es != [] {
      EvalPure(n, es[0], env, base, st, k);
      EvalAllPure(n, es[1..], env, base, st, k);
    }
  }

  lemma AssignAllRow(st: Store, k: nat, xs: seq<string>, row: seq<Value>)
    requires Good(st, k)
    ensures AssignAll(st, k, xs, row, false) ==
            match RowValues(xs, row)
            case Some(vs) => (None, AssignEach(st, k, xs, vs, false))
            case None => (Some(Internal(TYPE_ERROR)), st)
  {
    hide WF, Ext, AssignEach;
  }

  lemma StandStill(st: Store, k: nat, o: Outcome, d: (Res<seq<Value>>, map<string, Value>), base: Store,
          acc: seq<Value>, own: set<string>)
    requires At(st, k, d.1, base, acc) && !d.0.Halt?
    requires if d.0.Ok? then o.Normal? && d.0.v == [] else o == Raised(d.0.x)
    ensures Meets((o, st), st, k, d, base, acc, own)
  {
    assert acc + [] == acc;
    KeptSelf(st, k, own);
  }

  lemma RestoreNone(env: map<string, Value>, last: map<string, Value>)
    ensures Restore(env, last, {}) == last
  {
  }

  lemma {:induction false} NestRun(n: nat, clauses: seq<Clause>, res: Expr, env: map<string, Value>, base: Store,
          st: Store, k: nat, sc: Scope, acc: seq<Value>)
    requires clauses != [] && PureClauses(clauses) && Pure(res) && At(st, k, env, base, acc)
    requires Fits(st, k, LoopNames(clauses), sc)
    ensures Meets(RunStmt(n, Nest(clauses, res), st, k, false), st, k, Thread(clauses, res, env, sc, base, k), base,
                  acc, {})
    decreases |clauses|, 5
  {
    hide *;
    if clauses[0].CompIf? {
      NestIf(n, clauses, res, env, base, st, k, sc, acc);
    } else {
      NestFor(n, clauses, res, env, base, st, k, sc, acc);
    }
  }

  lemma {:induction false} NestIf(n: nat, clauses: seq<Clause>, res: Expr, env: map<string, Value>, base: Store,
          st: Store, k: nat, sc: Scope, acc: seq<Value>)
    requires clauses != [] && PureClauses(clauses) && Pure(res) && At(st, k, env, base, acc) && clauses[0].CompIf?
    requires Fits(st, k, LoopNames(clauses), sc)
    ensures Meets(RunStmt(n, Nest(clauses, res), st, k, false), st, k, Thread(clauses, res, env, sc, base, k), base,
                  acc, {})
    decreases |clauses|, 4
  {
    assert Good(st, k) && Good(base, k);
    var s, s1 := Nest(clauses, res), Push(st, k, ScopeTable);
    var d := Thread(clauses, res, env, sc, base, k);
    assert Good(s1, k) && IsScoped(s) && ScopedRun(n, s, s1, k) == RunIf(n, s, s1, k);
    hide *;
    PushAt(st, k, env, base, acc);
    PushIf(st, k, LoopNames(clauses), sc);
    IfRun(n, clauses, res, env, base, s1, k, sc, acc);
    ScopedIs(n, s, st, k, false);
    Bracket(st, RunIf(n, s, s1, k), k, d, env, base, acc, {});
    RestoreNone(env, d.1);
  }

  lemma {:induction false} NestFor(n: nat, clauses: seq<Clause>, res: Expr, env: map<string, Value>, base: Store,
          st: Store, k: nat, sc: Scope, acc: seq<Value>)
    requires clauses != [] && PureClauses(clauses) && Pure(res) && At(st, k, env, base, acc) && clauses[0].CompFor?
    requires Fits(st, k, LoopNames(clauses), sc)
    ensures Meets(RunStmt(n, Nest(clauses, res), st, k, false), st, k, Thread(clauses, res, env, sc, base, k), base,
                  acc, {})
    decreases |clauses|, 4
  {
    var s, s1, vars := Nest(clauses, res), Push(st, k, ScopeTable), clauses[0].vars;
    var names, own, d := LoopNames(clauses), Own(vars, sc), ThreadFor(clauses, res, env, sc, base, k);
    assert Good(st, k) && Good(base, k) && Good(s1, k);
    assert IsScoped(s) && ScopedRun(n, s, s1, k) == RunForIn(n, s, s1, k);
    hide *;
    PushAt(st, k, env, base, acc);
    OwnApart(st, k, clauses, sc);
    ThreadUnfold(clauses, res, env, sc, base, k);
    PushFor(st, k, names, sc, vars);
    ForRun(n, clauses, res, env, base, s1, k, sc, acc);
    ScopedIs(n, s, st, k, false);
    Bracket(st, RunForIn(n, s, s1, k), k, d, env, base, acc, own);
  }

  lemma ThreadUnfold(clauses: seq<Clause>, res: Expr, env: map<string, Value>, sc: Scope, base: Store, k: nat)
    requires Good(base, k) && PureClauses(clauses) && Pure(res) && clauses != [] && clauses[0].CompFor?
    ensures var d := ThreadFor(clauses, res, env, sc, base, k);
            Thread(clauses, res, env, sc, base, k) == (d.0, Restore(env, d.1, Own(clauses[0].vars, sc)))
  {
    hide WF, ThreadFor, Restore, Own, PureClauses;
  }

  lemma OwnApart(st: Store, k: nat, clauses: seq<Clause>, sc: Scope)
    requires Good(st, k) && clauses != [] && PureClauses(clauses) && clauses[0].CompFor?
    requires Fits(st, k, LoopNames(clauses), sc)
    ensures COMP_NAME !in clauses[0].vars && forall x | x in clauses[0].vars :: x in LoopNames(clauses)
    ensures forall x | x in Own(clauses[0].vars, sc) :: !Assignable(st, k, x) && x != COMP_NAME
  {
    hide Assignable, Hidden;
    var vars := clauses[0].vars;
    forall x | x in vars ensures x in LoopNames(clauses) {
    }
  }

  lemma {:induction false} IfRun(n: nat, clauses: seq<Clause>, res: Expr, env: map<string, Value>, base: Store,
          st: Store, k: nat, sc: Scope, acc: seq<Value>)
    requires clauses != [] && PureClauses(clauses) && Pure(res) && clauses[0].CompIf?
    requires At(st, k, env, base, acc) && Fits(st, k, LoopNames(clauses), InIf(sc))
    ensures Meets(RunIf(n, Nest(clauses, res), st, k), st, k, Thread(clauses, res, env, sc, base, k), base, acc, {})
    decreases |clauses|, 3
  {
    assert Good(st, k) && Good(base, k) && Agree(st, k, env, base);
    hide WF, Ext, At, Meets, Fits, RunList, Agree;
    var s := Nest(clauses, res);
    var v := ValueOf(clauses[0].cond, env, base, k);
    EvalPure(n, s.cond, env, base, st, k);
    assert EvalCond(n, s.cond, st, k) == (if v.Ok? then Truth(v.v) else Exc(v.x), st);
    assert LoopNames(clauses) == LoopNames(clauses[1..]);
    var d := Thread(clauses, res, env, sc, base, k);
    if v.Ok? && Truth(v.v) == Ok(true) {
      InnerRun(n, clauses, res, env, base, st, k, InIf(sc), acc);
    } else {
      StandStill(st, k, RunIf(n, s, st, k).0, d, base, acc, {});
    }
  }

  /** The block inside the first clause: the rest of the clauses, or the append. */
  lemma {:induction false} InnerRun(n: nat, clauses: seq<Clause>, res: Expr, env: map<string, Value>,
          base: Store, st: Store, k: nat, sc: Scope, acc: seq<Value>)
    requires clauses != [] && PureClauses(clauses) && Pure(res)
    requires At(st, k, env, base, acc) && Fits(st, k, LoopNames(clauses[1..]), sc)
    ensures PureClauses(clauses[1..])
    ensures Meets(RunList(n, Nest(clauses, res).ss, st, k, false), st, k,
                  Thread(clauses[1..], res, env, sc, base, k), base, acc, {})
    decreases |clauses|, 0
  {
    assert PureClauses(clauses[1..]) by {
      forall i | 0 <= i < |clauses[1..]| ensures clauses[1..][i] == clauses[i + 1] {}
    }
    assert Good(st, k) && Good(base, k);
    hide WF, Ext, RunList, RunStmt, At, Fits, Meets;
    var inner := if |clauses| == 1 then Append(res) else Nest(clauses[1..], res);
    assert Nest(clauses, res).ss == [inner];
    RunSingle(n, inner, st, k);
    if |clauses| == 1 {
      AppendRun(n, res, env, base, st, k, sc, acc);
    } else {
      NestRun(n, clauses[1..], res, env, base, st, k, sc, acc);
    }
  }

  lemma AppendRun(n: nat, res: Expr, env: map<string, Value>, base: Store, st: Store, k: nat, sc: Scope,
          acc: seq<Value>)
    requires Pure(res) && At(st, k, env, base, acc)
    ensures Meets(RunStmt(n, Append(res), st, k, false), st, k, Thread([], res, env, sc, base, k), base, acc, {})
  {
    assert Good(st, k) && Good(base, k) && Agree(st, k, env, base);
    hide WF, Ext, Eval, Kept, Agree, Put;
    EvalPure(n, res, env, base, st, k);
    var v := ValueOf(res, env, base, k);
    var r := RunAppend(n, Append(res), st, k);
    if v.Ok? {
      AppendAt(st, k, env, base, acc, v.v);
    } else {
      StandStill(st, k, r.0, Thread([], res, env, sc, base, k), base, acc, {});
    }
  }

  lemma AppendAt(st: Store, k: nat, env: map<string, Value>, base: Store, acc: seq<Value>, v: Value)
    requires At(st, k, env, base, acc)
    ensures var site := ReadSite(st, k, COMP_NAME);
            && site.Some? && site.value < |st.tables| && COMP_NAME in st.tables[site.value].m
            && st.tables[site.value].m[COMP_NAME].v == List(acc)
            && var st' := Put(st, site.value, COMP_NAME, List(acc + [v]), false);
            && st'.stacks == st.stacks && At(st', k, env, base, acc + [v]) && Kept(st, st', k, {})
  {
    hide Ext;
    var st' := Put(st, ReadSite(st, k, COMP_NAME).value, COMP_NAME, List(acc + [v]), false);
    forall x ensures ReadSite(st', k, x) == ReadSite(st, k, x) {
      FindSame(st.tables, st'.tables, st.stacks[k].ids, x, 0);
    }
    forall t, x | 0 <= t < |st.tables| ensures KeptAt(st, st', k, t, x) {
    }
  }

  lemma {:induction false} ForRun(n: nat, clauses: seq<Clause>, res: Expr, env: map<string, Value>, base: Store,
          st: Store, k: nat, sc: Scope, acc: seq<Value>)
    requires clauses != [] && PureClauses(clauses) && Pure(res) && clauses[0].CompFor?
    requires At(st, k, env, base, acc) && InFor(st, k, LoopNames(clauses), sc, Own(clauses[0].vars, sc))
    ensures Meets(RunForIn(n, Nest(clauses, res), st, k), st, k, ThreadFor(clauses, res, env, sc, base, k), base, acc,
                  Own(clauses[0].vars, sc))
    decreases |clauses|, 3
  {
    hide WF, Ext, RunRows, InFor, ThreadRows;
    var s := Nest(clauses, res);
    EvalAllPure(n, s.tests, env, base, st, k);
    var vs := ValuesOf(clauses[0].tests, env, base, k);
    if vs.Ok? && |vs.v| > 0 && AllLists(vs.v) {
      RowsRun(n, clauses, res, vs.v, 0, env, base, st, k, sc, acc);
      assert RowsMeet(n, clauses, res, vs.v, 0, env, base, st, k, sc, acc);
    } else {
      StandStill(st, k, RunForIn(n, s, st, k).0, ThreadFor(clauses, res, env, sc, base, k), base, acc,
                 Own(clauses[0].vars, sc));
    }
  }

  /** The run of the rows from the p-th on does what ThreadRows says. */
  ghost predicate RowsMeet(n: nat, clauses: seq<Clause>, res: Expr, vs: seq<Value>, p: nat, env: map<string, Value>,
          base: Store, st: Store, k: nat, sc: Scope, acc: seq<Value>)
    requires clauses != [] && PureClauses(clauses) && Pure(res) && clauses[0].CompFor? && |vs| > 0 && AllLists(vs)
    requires Good(st, k) && Good(base, k)
  {
    Meets(RunRows(n, Nest(clauses, res), vs, p, st, k), st, k, ThreadRows(clauses, res, vs, p, env, sc, base, k), base,
          acc, Own(clauses[0].vars, sc))
  }

  lemma {:induction false} RowsRun(n: nat, clauses: seq<Clause>, res: Expr, vs: seq<Value>, p: nat,
          env: map<string, Value>, base: Store, st: Store, k: nat, sc: Scope, acc: seq<Value>)
    requires clauses != [] && PureClauses(clauses) && Pure(res) && clauses[0].CompFor? && |vs| > 0 && AllLists(vs)
    requires At(st, k, env, base, acc) && InFor(st, k, LoopNames(clauses), sc, Own(clauses[0].vars, sc))
    ensures RowsMeet(n, clauses, res, vs, p, env, base, st, k, sc, acc)
    decreases |clauses|, 3, |vs[0].elems| - p
  {
    var s, own := Nest(clauses, res), Own(clauses[0].vars, sc);
    assert Good(st, k) && Good(base, k) && s.ForIn?;
    assert HasRow(vs, p) ==> p < |vs[0].elems|;
    hide *;
    if HasRow(vs, p) {
      var row := Row(vs, p);
      RowRun(n, clauses, res, row, env, base, st, k, sc, acc);
      var r1, d1 := RunRow(n, s, row, st, k), ThreadRow(clauses, res, row, env, sc, base, k);
      InForSingle(st, k, LoopNames(clauses), sc, own);
      if d1.0.Ok? {
        MeetsAt(r1, st, k, d1, base, acc, own);
        InForKept(st, r1.1, k, LoopNames(clauses), sc, own);
        RowsRun(n, clauses, res, vs, p + 1, d1.1, base, r1.1, k, sc, acc + d1.0.v);
      }
    }
    RowsStep(n, clauses, res, vs, p, env, base, st, k, sc, acc);
  }

  lemma MeetsAt(r: (Outcome, Store), st: Store, k: nat, d: (Res<seq<Value>>, map<string, Value>), base: Store,
          acc: seq<Value>, own: set<string>)
    requires Good(st, k) && Meets(r, st, k, d, base, acc, own) && d.0.Ok?
    ensures r.0.Normal? && r.1.stacks[k] == st.stacks[k] && At(r.1, k, d.1, base, acc + d.0.v) && Kept(st, r.1, k, own)
  {
  }

  /** The rows from the p-th on, given what the first of them and the others do. */
  lemma RowsStep(n: nat, clauses: seq<Clause>, res: Expr, vs: seq<Value>, p: nat, env: map<string, Value>, base: Store,
          st: Store, k: nat, sc: Scope, acc: seq<Value>)
    requires clauses != [] && PureClauses(clauses) && Pure(res) && clauses[0].CompFor? && |vs| > 0 && AllLists(vs)
    requires At(st, k, env, base, acc)
    requires HasRow(vs, p) ==>
               var r1 := RunRow(n, Nest(clauses, res), Row(vs, p), st, k);
               var d1 := ThreadRow(clauses, res, Row(vs, p), env, sc, base, k);
               && Single(st, k) && Meets(r1, st, k, d1, base, acc, Own(clauses[0].vars, sc))
               && (d1.0.Ok? ==> RowsMeet(n, clauses, res, vs, p + 1, d1.1, base, r1.1, k, sc, acc + d1.0.v))
    ensures RowsMeet(n, clauses, res, vs, p, env, base, st, k, sc, acc)
  {
    var s, own := Nest(clauses, res), Own(clauses[0].vars, sc);
    assert Good(st, k) && Good(base, k) && s.ForIn?;
    hide WF, Ext, RunRow, ThreadRow, At, Kept, PureClauses, Single, Nest, Own;
    if !HasRow(vs, p) {
      StandStill(st, k, Normal, ThreadRows(clauses, res, vs, p, env, sc, base, k), base, acc, own);
    } else {
      var r1, d1 := RunRow(n, s, Row(vs, p), st, k), ThreadRow(clauses, res, Row(vs, p), env, sc, base, k);
      if d1.0.Ok? {
        var r2, d2 := RunRows(n, s, vs, p + 1, r1.1, k), ThreadRows(clauses, res, vs, p + 1, d1.1, sc, base, k);
        Chain(st, r1.1, r2, k, d2, base, acc, d1.0.v, own);
      }
    }
  }

  lemma Chain(st: Store, s1: Store, r: (Outcome, Store), k: nat, d: (Res<seq<Value>>, map<string, Value>),
          base: Store, acc: seq<Value>, more: seq<Value>, own: set<string>)
    requires Good(st, k) && Good(s1, k) && s1.stacks[k] == st.stacks[k] && Kept(st, s1, k, own)
    requires Meets(r, s1, k, d, base, acc + more, own) && Single(st, k)
    ensures Meets(r, st, k, (if d.0.Ok? then Ok(more + d.0.v) else d.0, d.1), base, acc, own)
  {
    hide Kept, Agree;
    if d.0.Ok? {
      KeptTrans(st, s1, r.1, k, own);
      assert acc + more + d.0.v == acc + (more + d.0.v);
    }
  }

  lemma {:induction false} RowRun(n: nat, clauses: seq<Clause>, res: Expr, row: seq<Value>, env: map<string, Value>,
          base: Store, st: Store, k: nat, sc: Scope, acc: seq<Value>)
    requires clauses != [] && PureClauses(clauses) && Pure(res) && clauses[0].CompFor?
    requires At(st, k, env, base, acc) && InFor(st, k, LoopNames(clauses), sc, Own(clauses[0].vars, sc))
    ensures Meets(RunRow(n, Nest(clauses, res), row, st, k), st, k,
                  ThreadRow(clauses, res, row, env, sc, base, k), base, acc, Own(clauses[0].vars, sc))
    decreases |clauses|, 2
  {
    var s, xs, names := Nest(clauses, res), clauses[0].vars, LoopNames(clauses);
    var own, values := Own(xs, sc), RowValues(xs, row);
    assert Good(st, k) && Good(base, k) && s.ForIn?;
    assert forall x | x in xs :: x in sc.reach || x in sc.hidden || x in own;
    RowUnfold(n, clauses, res, row, env, base, st, k, sc);
    hide *;
    if values.None? {
      StandStill(st, k, Raised(Internal(TYPE_ERROR)), (Exc(Internal(TYPE_ERROR)), env), base, acc, own);
    } else {
      LoopNamesHave(clauses);
      BindRun(st, k, xs, values.value, env, base, names, sc, own, acc);
      var s1, env1 := AssignEach(st, k, xs, values.value, false), BindSeen(env, xs, values.value, sc.hidden);
      InForKept(st, s1, k, names, sc, own);
      BodyRun(n, clauses, res, env1, base, s1, k, sc, acc);
      InForSingle(st, k, names, sc, own);
      MeetsLater(st, s1, RunBody(n, s.ss, s1, k), k, Thread(clauses[1..], res, env1, InRow(xs, sc), base, k), base, acc,
                 own);
    }
  }

  lemma RowUnfold(n: nat, clauses: seq<Clause>, res: Expr, row: seq<Value>, env: map<string, Value>, base: Store,
          st: Store, k: nat, sc: Scope)
    requires clauses != [] && PureClauses(clauses) && Pure(res) && clauses[0].CompFor?
    requires Good(st, k) && Good(base, k)
    ensures var xs, r := clauses[0].vars, RunRow(n, Nest(clauses, res), row, st, k);
            && PureClauses(clauses[1..])
            && match RowValues(xs, row)
               case None =>
                 r == (Raised(Internal(TYPE_ERROR)), st)
                 && ThreadRow(clauses, res, row, env, sc, base, k) == (Exc(Internal(TYPE_ERROR)), env)
               case Some(vs) =>
                 r == RunBody(n, Nest(clauses, res).ss, AssignEach(st, k, xs, vs, false), k)
                 && ThreadRow(clauses, res, row, env, sc, base, k) ==
                    Thread(clauses[1..], res, BindSeen(env, xs, vs, sc.hidden), InRow(xs, sc), base, k)
  {
    hide WF, Ext, RunBody, Thread, AssignEach, BindSeen, InRow;
    AssignAllRow(st, k, clauses[0].vars, row);
  }

  lemma LoopNamesHave(clauses: seq<Clause>)
    requires clauses != [] && clauses[0].CompFor? && PureClauses(clauses)
    ensures COMP_NAME !in clauses[0].vars && forall x | x in clauses[0].vars :: x in LoopNames(clauses)
  {
  }

  /** The body of a for clause whose names are bound, under a table of its own. */
  lemma {:induction false} BodyRun(n: nat, clauses: seq<Clause>, res: Expr, env: map<string, Value>, base: Store,
          st: Store, k: nat, sc: Scope, acc: seq<Value>)
    requires clauses != [] && PureClauses(clauses) && Pure(res) && clauses[0].CompFor? && At(st, k, env, base, acc)
    requires var own := Own(clauses[0].vars, sc);
             InFor(st, k, LoopNames(clauses), sc, own) && Bound(st, k, clauses[0].vars, own)
    ensures Meets(RunBody(n, Nest(clauses, res).ss, st, k), st, k,
                  Thread(clauses[1..], res, env, InRow(clauses[0].vars, sc), base, k), base, acc, {})
    decreases |clauses|, 1
  {
    var s, s1, inner := Nest(clauses, res), Push(st, k, ScopeTable), InRow(clauses[0].vars, sc);
    assert Good(st, k) && Good(base, k) && Good(s1, k) && s.ForIn?;
    var r := RunList(n, s.ss, s1, k, false);
    PopExt(st, k, ScopeTable, r.1);
    assert RunBody(n, s.ss, st, k) == (r.0, Pop(r.1, k));
    PushRow(st, k, clauses, sc);
    hide *;
    PushAt(st, k, env, base, acc);
    InnerRun(n, clauses, res, env, base, s1, k, inner, acc);
    var d := Thread(clauses[1..], res, env, inner, base, k);
    Bracket(st, r, k, d, env, base, acc, {});
    RestoreNone(env, d.1);
  }

  lemma MeetsLater(st: Store, s1: Store, r: (Outcome, Store), k: nat, d: (Res<seq<Value>>, map<string, Value>),
          base: Store, acc: seq<Value>, own: set<string>)
    requires Good(st, k) && Good(s1, k) && s1.stacks[k] == st.stacks[k] && Kept(st, s1, k, own) && Single(st, k)
    requires Meets(r, s1, k, d, base, acc, {})
    ensures Meets(r, st, k, d, base, acc, own)
  {
    hide WF, Kept, Agree;
    if d.0.Ok? {
      KeptMore(s1, r.1, k, own);
      KeptTrans(st, s1, r.1, k, own);
    }
  }

  // ----- whole comprehensions -----

  /** Every first run of a comprehension with pure parts yields the list, or raises the
      exception, of the denotation with visible loop names. */
  lemma CompRun(n: nat, e: Expr, st: Store, k: nat)
    requires Good(st, k) && n > 0 && e.Comp? && e.clauses != [] && PureClauses(e.clauses) && Pure(e.res)
    requires Lookup(st, k, COMP_NAME).None?
    ensures Eval(n, e, st, k).0 == AsList(Thread(e.clauses, e.res, map[], ScopeOf(e.clauses, st, k), st, k).0)
  {
    hide *;
    StartAt(st, k);
    StartFits(e.clauses, st, k);
    var s2, sc := AccInit(Push(st, k, ScopeTable), k), ScopeOf(e.clauses, st, k);
    NestRun(n - 1, e.clauses, e.res, map[], st, s2, k, sc, []);
    CompUnfold(n, e, st, k);
    ReadBack(RunStmt(n - 1, Nest(e.clauses, e.res), s2, k, false), s2, k,
             Thread(e.clauses, e.res, map[], sc, st, k), st);
  }

  /** What the run of the nested statement makes of a comprehension. */
  function Collected(r: (Outcome, Store), k: nat): Res<Value>
    requires Good(r.1, k)
  {
    match r.0
    case Raised(x) => Exc(x)
    case Stuck(h) => Halt(h)
    case _ =>
      var acc := Lookup(r.1, k, COMP_NAME);
      if acc.Some? then Ok(acc.value) else Exc(Internal(LOOKUP_ERROR))
  }

  lemma CompUnfold(n: nat, e: Expr, st: Store, k: nat)
    requires Good(st, k) && n > 0 && e.Comp? && e.clauses != []
    ensures Good(Push(st, k, ScopeTable), k)
    ensures var s2 := AccInit(Push(st, k, ScopeTable), k);
            Eval(n, e, st, k).0 == Collected(RunStmt(n - 1, Nest(e.clauses, e.res), s2, k, false), k)
  {
    hide WF, Ext, RunStmt, Nest, AccInit, Lookup;
    assert Eval(n, e, st, k) == RunComp(n, e, st, k);
    assert RunComp(n, e, st, k).0 == FillAcc(n, e, Push(st, k, ScopeTable), k).0;
  }

  /** Reading the accumulator after a run from the empty one. */
  lemma ReadBack(r: (Outcome, Store), st: Store, k: nat, d: (Res<seq<Value>>, map<string, Value>), base: Store)
    requires Good(st, k) && Meets(r, st, k, d, base, [], {})
    ensures Good(r.1, k) && Collected(r, k) == AsList(d.0)
  {
    hide WF, Kept, Agree, Lookup;
    if d.0.Ok? {
      assert [] + d.0.v == d.0.v;
    }
  }

  function AsList(r: Res<seq<Value>>): Res<Value> {
    match r
    case Ok(vs) => Ok(List(vs))
    case Exc(x) => Exc(x)
    case Halt(h) => Halt(h)
  }

  lemma StartAt(st: Store, k: nat)
    requires Good(st, k) && Lookup(st, k, COMP_NAME).None?
    ensures At(AccInit(Push(st, k, ScopeTable), k), k, map[], st, [])
  {
    hide Ext;
    var s1 := Push(st, k, ScopeTable);
    var s2 := AccInit(s1, k);
    PushReach(st, k, COMP_NAME);
    assert s2 == Put(s1, Top(s1, k), COMP_NAME, List([]), false);
    forall x | x != COMP_NAME ensures Lookup(s2, k, x) == Lookup(st, k, x) {
      PushReach(st, k, x);
      FindSame(s1.tables, s2.tables, s1.stacks[k].ids, x, 0);
    }
  }

  lemma StartFits(clauses: seq<Clause>, st: Store, k: nat)
    requires Good(st, k) && Lookup(st, k, COMP_NAME).None? && PureClauses(clauses)
    ensures Fits(AccInit(Push(st, k, ScopeTable), k), k, LoopNames(clauses), ScopeOf(clauses, st, k))
  {
    hide Ext, Assignable, Hidden;
    var s2 := AccInit(Push(st, k, ScopeTable), k);
    NoAccumulator(clauses);
    forall x | x in LoopNames(clauses)
      ensures Assignable(s2, k, x) == Assignable(st, k, x) && Hidden(s2, k, x) == Hidden(st, k, x)
    {
      StartReach(st, k, x);
    }
  }

  lemma StartReach(st: Store, k: nat, x: string)
    requires Good(st, k) && Lookup(st, k, COMP_NAME).None? && x != COMP_NAME
    ensures var s2 := AccInit(Push(st, k, ScopeTable), k);
            Assignable(s2, k, x) == Assignable(st, k, x) && Hidden(s2, k, x) == Hidden(st, k, x)
  {
    hide Ext, Assignable, Hidden;
    var s1 := Push(st, k, ScopeTable);
    PushReach(st, k, COMP_NAME);
    assert AccInit(s1, k) == Put(s1, Top(s1, k), COMP_NAME, List([]), false);
    PushReach(st, k, x);
    SameReach(s1, AccInit(s1, k), k, x);
  }

  lemma {:induction false} NoAccumulator(clauses: seq<Clause>)
    requires PureClauses(clauses)
    ensures COMP_NAME !in LoopNames(clauses)
  {
    if clauses != [] {
      assert forall i | 0 <= i < |clauses[1..]| :: clauses[1..][i] == clauses[i + 1];
      NoAccumulator(clauses[1..]);
    }
  }
}
