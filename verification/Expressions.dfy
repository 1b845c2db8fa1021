/** What expressions evaluate to, case by case, with the names of the errors. */
module Expressions {
  import opened Options
  import opened Syntax
  import opened SymbolTables
  import opened BigStep

  /** The values that let a condition hold, and those that do not; the others are errors. */
  ghost predicate Yes(v: Value) { v == Bool(true) || v.Int? }

  ghost predicate No(v: Value) { v == Bool(false) || v == Null }

  lemma TruthIs(v: Value)
    ensures Truth(v) == if Yes(v) then Ok(true) else if No(v) then Ok(false) else Exc(Internal("TypeException"))
  {
  }

  // ----- names -----

  lemma {:induction false} FindTopmost(tables: seq<Table>, ids: seq<nat>, x: string, i: nat, stop: int)
    requires ValidIds(ids, |tables|) && stop <= i < |ids| && x in tables[ids[i]].m
    requires forall j | i < j < |ids| :: x !in tables[ids[j]].m
    ensures Find(tables, ids, x, stop) == Some(ids[i])
  {
    if i < |ids| - 1 {
      assert forall j | 0 <= j < |ids| - 1 :: ids[..|ids| - 1][j] == ids[j];
      FindTopmost(tables, ids[..|ids| - 1], x, i, stop);
    }
  }

  lemma {:induction false} FindNone(tables: seq<Table>, ids: seq<nat>, x: string, stop: int)
    requires ValidIds(ids, |tables|) && forall j | 0 <= j < |ids| && stop <= j :: x !in tables[ids[j]].m
    ensures Find(tables, ids, x, stop) == None
  {
    if |ids| > 0 && |ids| - 1 >= stop {
      FindNone(tables, ids[..|ids| - 1], x, stop);
    }
  }

  /** x is bound in the i-th table of the stack and in none above it. */
  ghost predicate Topmost(st: Store, k: nat, x: string, i: int)
    requires Good(st, k)
  {
    var ids := st.stacks[k].ids;
    0 <= i < |ids| && x in st.tables[ids[i]].m && forall j | i < j < |ids| :: x !in st.tables[ids[j]].m
  }

  /** No table of the stack from the given position up binds x. */
  ghost predicate Unbound(st: Store, k: nat, x: string, from: int)
    requires Good(st, k)
  {
    forall j | 0 <= j < |st.stacks[k].ids| && from <= j :: x !in st.tables[st.stacks[k].ids[j]].m
  }

  /** A name has the value of the topmost table that binds it, then that of the main table;
      a name bound nowhere is a lookup error. */
  lemma NameValue(n: nat, x: string, st: Store, k: nat)
    requires Good(st, k)
    ensures forall i | Topmost(st, k, x, i) ::
              Eval(n, Var(x), st, k) == (Ok(st.tables[st.stacks[k].ids[i]].m[x].v), st)
    ensures Unbound(st, k, x, 0) ==>
              Eval(n, Var(x), st, k) ==
              (if x in st.tables[0].m then Ok(st.tables[0].m[x].v) else Exc(Internal("LookupException")), st)
  {
    hide Ext;
    var ids := st.stacks[k].ids;
    forall i | Topmost(st, k, x, i) ensures Find(st.tables, ids, x, 0) == Some(ids[i]) {
      FindTopmost(st.tables, ids, x, i, 0);
    }
    if Unbound(st, k, x, 0) {
      FindNone(st.tables, ids, x, 0);
    }
  }

  /** An object lookup: as a name, but an entry of the main table counts only when it is
      global. */
  lemma ObjectValue(st: Store, k: nat, x: string)
    requires Good(st, k)
    ensures forall i | Topmost(st, k, x, i) ::
              LookupObj(st, k, x) == Some(st.tables[st.stacks[k].ids[i]].m[x].v)
    ensures Unbound(st, k, x, 0) ==>
              LookupObj(st, k, x) ==
              if x in st.tables[0].m && st.tables[0].m[x].global then Some(st.tables[0].m[x].v) else None
  {
    hide Ext;
    var ids := st.stacks[k].ids;
    forall i | Topmost(st, k, x, i) ensures Find(st.tables, ids, x, 0) == Some(ids[i]) {
      FindTopmost(st.tables, ids, x, i, 0);
    }
    if Unbound(st, k, x, 0) {
      FindNone(st.tables, ids, x, 0);
    }
  }

  // ----- operators -----

  /** What the operators give, case by case. Two ints add and compare as ints, and two lists
      add to their concatenation; an int is less than nothing but an int. For equality the
      left operand decides: a bool is equal to what counts as that bool, an int, a type or
      null only to itself, a list to no list of another length; functions and errors have no
      equality. Everything else is a type error. */
  ghost predicate OperatorGives(op: Prim, a: Value, b: Value, r: Res<Value>) {
    match (op, a, b)
    case (Add, Int(i), Int(j)) => r == Ok(Int(i + j))
    case (Add, List(vs), List(ws)) => r == Ok(List(vs + ws))
    case (Less, Int(i), Int(j)) => r == Ok(Bool(i < j))
    case (Less, Int(_), _) => r == Ok(Bool(false))
    case (Equal, Null, _) => r == Ok(Bool(b == Null))
    case (Equal, Int(_), _) => r == Ok(Bool(b == a))
    case (Equal, TypeObj(_), _) => r == Ok(Bool(b == a))
    case (Equal, Bool(x), _) =>
      if Yes(b) then r == Ok(Bool(x)) else if No(b) then r == Ok(Bool(!x)) else r == Exc(Internal("TypeException"))
    case (Equal, List(vs), List(ws)) => |vs| != |ws| ==> r == Ok(Bool(false))
    case (Equal, List(_), _) => r == Ok(Bool(false))
    case _ => r == Exc(Internal("TypeException"))
  }

  /** The left operand is evaluated first, and when it fails the right one is not. */
  lemma OperatorValue(n: nat, op: Prim, l: Expr, r: Expr, st: Store, k: nat)
    requires Good(st, k)
    ensures var (a, s1) := Eval(n, l, st, k);
            var whole := Eval(n, Op(op, l, r), st, k);
            if !a.Ok? then whole == (a, s1)
            else
              var (b, s2) := Eval(n, r, s1, k);
              if !b.Ok? then whole == (b, s2) else whole.1 == s2 && OperatorGives(op, a.v, b.v, whole.0)
  {
    hide WF, Ext;
  }

  /** The i-th elements are the first that cannot be compared. */
  ghost predicate FirstBad(vs: seq<Value>, ws: seq<Value>, i: int)
    requires |vs| == |ws|
  {
    && 0 <= i < |vs| && !ApplyPrim(Equal, vs[i], ws[i]).Ok?
    && forall j | 0 <= j < i :: ApplyPrim(Equal, vs[j], ws[j]).Ok?
  }

  ghost predicate AllEqual(vs: seq<Value>, ws: seq<Value>)
    requires |vs| == |ws|
  {
    forall i | 0 <= i < |vs| :: ApplyPrim(Equal, vs[i], ws[i]) == Ok(Bool(true))
  }

  /** Lists of one length: an element that has no equality with the other decides, the first
      one if there are several; otherwise the lists are equal iff all elements are. */
  lemma ListsEqual(vs: seq<Value>, ws: seq<Value>)
    requires |vs| == |ws|
    ensures forall i | FirstBad(vs, ws, i) ::
              ApplyPrim(Equal, List(vs), List(ws)) == ApplyPrim(Equal, vs[i], ws[i])
    ensures (forall i :: !FirstBad(vs, ws, i)) ==>
              ApplyPrim(Equal, List(vs), List(ws)) == Ok(Bool(AllEqual(vs, ws)))
  {
    assert Equals(List(vs), List(ws)) == EqualsAll(vs, ws);
    hide Equals, EqualsAll;
    ElementsEqual(vs, ws);
  }

  lemma {:induction false} ElementsEqual(vs: seq<Value>, ws: seq<Value>)
    requires |vs| == |ws|
    ensures forall i | FirstBad(vs, ws, i) :: EqualsAll(vs, ws) == Equals(vs[i], ws[i])
    ensures (forall i :: !FirstBad(vs, ws, i)) ==> EqualsAll(vs, ws) == Ok(AllEqual(vs, ws))
    decreases |vs|
  {
    hide Equals;
    if vs != [] {
      var xs, ys := vs[1..], ws[1..];
      ElementsEqual(xs, ys);
      if Equals(vs[0], ws[0]).Ok? {
        forall i | i != 0 ensures FirstBad(vs, ws, i) <==> FirstBad(xs, ys, i - 1) {
          LaterBad(vs, ws, i);
        }
        LaterEqual(vs, ws);
        if forall i :: !FirstBad(vs, ws, i) {
          forall i ensures !FirstBad(xs, ys, i) {
            assert i + 1 != 0 ==> !FirstBad(vs, ws, i + 1);
          }
        }
      } else {
        assert FirstBad(vs, ws, 0);
      }
    }
  }

  lemma LaterBad(vs: seq<Value>, ws: seq<Value>, i: int)
    requires |vs| == |ws| > 0 && i != 0 && Equals(vs[0], ws[0]).Ok?
    ensures FirstBad(vs, ws, i) <==> FirstBad(vs[1..], ws[1..], i - 1)
  {
    hide Equals;
    var xs, ys := vs[1..], ws[1..];
    assert forall j | 0 <= j < |xs| :: xs[j] == vs[j + 1] && ys[j] == ws[j + 1];
    if FirstBad(xs, ys, i - 1) {
      forall j | 0 <= j < i ensures ApplyPrim(Equal, vs[j], ws[j]).Ok? {
        if j > 0 { assert ApplyPrim(Equal, xs[j - 1], ys[j - 1]).Ok?; }
      }
    }
  }

  lemma LaterEqual(vs: seq<Value>, ws: seq<Value>)
    requires |vs| == |ws| > 0
    ensures AllEqual(vs, ws) <==> Equals(vs[0], ws[0]) == Ok(true) && AllEqual(vs[1..], ws[1..])
  {
    hide Equals;
    var xs, ys := vs[1..], ws[1..];
    assert forall j | 0 <= j < |xs| :: xs[j] == vs[j + 1] && ys[j] == ws[j + 1];
    if Equals(vs[0], ws[0]) == Ok(true) && AllEqual(xs, ys) {
      forall j | 0 <= j < |vs| ensures ApplyPrim(Equal, vs[j], ws[j]) == Ok(Bool(true)) {
        if j > 0 { assert ApplyPrim(Equal, xs[j - 1], ys[j - 1]) == Ok(Bool(true)); }
      }
    }
  }

  /** Equality is not symmetric: true == 3 holds and 3 == true does not. */
  lemma EqualityIsOneSided()
    ensures ApplyPrim(Equal, Bool(true), Int(3)) == Ok(Bool(true))
    ensures ApplyPrim(Equal, Int(3), Bool(true)) == Ok(Bool(false))
  {
  }

  // ----- several expressions -----

  /** From left to right, until one fails. */
  lemma {:induction false} InOrder(n: nat, a: seq<Expr>, b: seq<Expr>, st: Store, k: nat)
    requires Good(st, k)
    ensures var (vs, s1) := EvalAll(n, a, st, k);
            EvalAll(n, a + b, st, k) ==
            if !vs.Ok? then (vs, s1)
            else var (ws, s2) := EvalAll(n, b, s1, k); (if ws.Ok? then Ok(vs.v + ws.v) else ws, s2)
    decreases |a|
  {
    hide WF, Ext, Eval;
    if a == [] {
      assert a + b == b;
      var ws := EvalAll(n, b, st, k).0;
      assert ws.Ok? ==> [] + ws.v == ws.v;
    } else {
      var (v, s1) := Eval(n, a[0], st, k);
      assert (a + b)[0] == a[0] && (a + b)[1..] == a[1..] + b;
      if v.Ok? {
        InOrder(n, a[1..], b, s1, k);
        var (vs, s2) := EvalAll(n, a[1..], s1, k);
        var (ws, s3) := EvalAll(n, b, s2, k);
        if vs.Ok? && ws.Ok? {
          assert [v.v] + (vs.v + ws.v) == [v.v] + vs.v + ws.v;
        }
      }
    }
  }

  lemma OneOfThem(n: nat, e: Expr, st: Store, k: nat)
    requires Good(st, k)
    ensures var (v, s1) := Eval(n, e, st, k);
            && EvalAll(n, [e], st, k) ==
               (match v case Ok(v) => Ok([v]) case Exc(x) => Exc(x) case Halt(h) => Halt(h), s1)
            && Eval(n, ListLit([e]), st, k) ==
               (match v case Ok(v) => Ok(List([v])) case Exc(x) => Exc(x) case Halt(h) => Halt(h), s1)
  {
    hide WF, Ext;
    var (v, s1) := Eval(n, e, st, k);
    assert [e][1..] == [] && EvalAll(n, [], s1, k) == (Ok([]), s1);
    if v.Ok? { assert [v.v] + [] == [v.v]; }
  }

  // ----- calls -----

  /** The function is evaluated first, then the arguments from left to right; what is no
      function, and a wrong number of arguments, are errors of their own kinds. */
  lemma CallSteps(n: nat, f: Expr, args: seq<Expr>, st: Store, k: nat)
    requires Good(st, k)
    ensures var (fv, s1) := Eval(n, f, st, k);
            var whole := Eval(n, Call(f, args), st, k);
            if !fv.Ok? then whole == (fv, s1)
            else
              var (vs, s2) := EvalAll(n, args, s1, k);
              match vs
              case Exc(x) => whole == (Exc(x), s2)
              case Halt(h) => whole == (Halt(h), s2)
              case Ok(vs) =>
                if !fv.v.Func? then whole == (Exc(Internal("TypeException")), s2)
                else if |s2.funcs| <= fv.v.fid then whole == (Exc(Internal("TypeException")), s2)
                else if n > 0 && |vs| != |s2.funcs[fv.v.fid].params| then
                  whole.0 == Exc(Internal("FuncParamsException"))
                else whole == Invoke(n, Call(f, args), fv.v, vs, s2)
  {
    var (fv, s1) := Eval(n, f, st, k);
    if fv.Ok? {
      var (vs, s2) := EvalAll(n, args, s1, k);
      if vs.Ok? {
        InvokeErrors(n, Call(f, args), fv.v, vs.v, s2);
      }
    }
    hide WF, Ext, EvalAll, Invoke;
    assert Eval(n, Call(f, args), st, k) == EvalCall(n, Call(f, args), st, k);
  }

  lemma InvokeErrors(n: nat, e: Expr, fv: Value, vs: seq<Value>, st: Store)
    requires WF(st)
    ensures var r := Invoke(n, e, fv, vs, st);
            if !fv.Func? || |st.funcs| <= fv.fid then r == (Exc(Internal("TypeException")), st)
            else n > 0 && |vs| != |st.funcs[fv.fid].params| ==> r.0 == Exc(Internal("FuncParamsException"))
  {
    hide WF, Ext, RunList, RunDefers, SetEntries, Enter, Leave;
  }

  /** An exception of the body leaves the call as it is; a thrown object leaves it as the
      plain error, whatever it was. */
  lemma BodyRaises(n: nat, e: Expr, fo: FuncObj, vs: seq<Value>, s1: Store, x: Exn, s2: Store)
    requires Good(s1, fo.k) && n > 0 && s1.defers == [] && |vs| == |fo.params|
    requires RunList(n - 1, fo.ss, SetEntries(s1, fo.k, fo.params, vs), fo.k, false) == (Raised(x), s2)
    requires RunDefers(n - 1, s2, false).0.None?
    ensures Activate(n, e, fo, vs, s1).0 == Exc(if x.Thrown? then Internal("ErrorException") else x)
  {
    hide WF, Ext, RunList, RunDefers, SetEntries, LookupObj;
  }
}
