/** When a comprehension means what its clauses denote. Loop names that assignments reach
    outside are clobbered from one row to the next, and hidden ones are never seen; all
    other loop names live in tables of their own. */
module Scoping {
  import opened Options
  import opened Syntax
  import opened SymbolTables
  import opened BigStep
  import opened Comprehension

  // ----- the scoping condition -----

  /** The loop names that still have a new value when the clauses are over. */
  ghost function Leaks(clauses: seq<Clause>, sc: Scope): set<string>
    decreases |clauses|
  {
    if clauses == [] then {}
    else match clauses[0]
    case CompIf(_) => Leaks(clauses[1..], InIf(sc))
    case CompFor(vars, _) => RowLeaks(clauses, sc) - Own(vars, sc)
  }

  /** The loop names that have a new value after a row of a for clause. */
  ghost function RowLeaks(clauses: seq<Clause>, sc: Scope): set<string>
    requires clauses != [] && clauses[0].CompFor?
    decreases |clauses|, 0
  {
    (set x | x in clauses[0].vars && x !in sc.hidden) + Leaks(clauses[1..], InRow(clauses[0].vars, sc))
  }

  /** No expression mentions a name of `dirty`: one that may hold what an earlier row left
      in it, or a hidden one that a clause has bound. */
  ghost predicate WellScoped(clauses: seq<Clause>, res: Expr, dirty: set<string>, sc: Scope)
    decreases |clauses|
  {
    if clauses == [] then Names(res) !! dirty
    else match clauses[0]
    case CompIf(c) => Names(c) !! dirty && WellScoped(clauses[1..], res, dirty, InIf(sc))
    case CompFor(vars, tests) =>
      NamesOf(tests) !! dirty && WellScoped(clauses[1..], res, Dirty(clauses, dirty, sc), InRow(vars, sc))
  }

  ghost function Dirty(clauses: seq<Clause>, dirty: set<string>, sc: Scope): set<string>
    requires clauses != [] && clauses[0].CompFor?
  {
    var vars := clauses[0].vars;
    dirty + Leaks(clauses[1..], InRow(vars, sc)) - (set x | x in vars && x !in sc.hidden)
    + (set x | x in vars && x in sc.hidden)
  }

  // ----- the two denotations -----

  ghost predicate SameRead(a: map<string, Value>, b: map<string, Value>, st: Store, k: nat, dirty: set<string>)
    requires Good(st, k)
  {
    forall x | x !in dirty && x != COMP_NAME :: Read(a, st, k, x) == Read(b, st, k, x)
  }

  lemma {:induction false} SameValue(e: Expr, a: map<string, Value>, b: map<string, Value>, st: Store, k: nat,
          dirty: set<string>)
    requires Good(st, k) && Pure(e) && SameRead(a, b, st, k, dirty) && Names(e) !! dirty
    ensures ValueOf(e, a, st, k) == ValueOf(e, b, st, k)
    decreases e, 1
  {
    hide WF, Lookup;
    match e
    case Lit(_) =>
    case Var(x) => assert x in Names(e);
    case Op(_, l, r) =>
      SameValue(l, a, b, st, k, dirty);
      SameValue(r, a, b, st, k, dirty);
    case ListLit(es) => SameValues(es, a, b, st, k, dirty);
    case _ =>
  }

  lemma {:induction false} SameValues(es: seq<Expr>, a: map<string, Value>, b: map<string, Value>, st: Store, k: nat,
          dirty: set<string>)
    requires Good(st, k) && AllPure(es) && SameRead(a, b, st, k, dirty) && NamesOf(es) !! dirty
    ensures ValuesOf(es, a, st, k) == ValuesOf(es, b, st, k)
    decreases es, 0
  {
    hide WF, Lookup;
    if es != [] {
      SameValue(es[0], a, b, st, k, dirty);
      SameValues(es[1..], a, b, st, k, dirty);
    }
  }

  /** What binding a row does to one name, hidden or not. */
  lemma {:induction false} BindBoth(a: map<string, Value>, b: map<string, Value>, xs: seq<string>, vs: seq<Value>,
          hidden: set<string>, x: string)
    requires |xs| == |vs|
    ensures var a', b' := BindSeen(a, xs, vs, hidden), BindEach(b, xs, vs);
            && (x !in xs || x in hidden ==> (x in a' <==> x in a) && (x in a ==> a'[x] == a[x]))
            && (x !in xs ==> (x in b' <==> x in b) && (x in b ==> b'[x] == b[x]))
            && (x in xs && x !in hidden ==> x in a' && x in b' && a'[x] == b'[x])
    decreases |xs|
  {
    if |xs| > 0 {
      var a1 := if xs[0] in hidden then a else a[xs[0] := vs[0]];
      var b1 := b[xs[0] := vs[0]];
      BindBoth(a1, b1, xs[1..], vs[1..], hidden, x);
      if x !in xs[1..] {
        assert x in xs <==> x == xs[0];
      }
    }
  }

  lemma BoundSame(a: map<string, Value>, b: map<string, Value>, vs: seq<Value>, clauses: seq<Clause>, sc: Scope,
          st: Store, k: nat, dirty: set<string>)
    requires Good(st, k) && clauses != [] && clauses[0].CompFor? && |clauses[0].vars| == |vs|
    requires SameRead(a, b, st, k, dirty + RowLeaks(clauses, sc))
    ensures SameRead(BindSeen(a, clauses[0].vars, vs, sc.hidden), BindEach(b, clauses[0].vars, vs), st, k,
                     Dirty(clauses, dirty, sc))
  {
    hide WF, Lookup, Leaks;
    forall x | x !in Dirty(clauses, dirty, sc) && x != COMP_NAME
      ensures Read(BindSeen(a, clauses[0].vars, vs, sc.hidden), st, k, x) ==
              Read(BindEach(b, clauses[0].vars, vs), st, k, x)
    {
      BindBoth(a, b, clauses[0].vars, vs, sc.hidden, x);
      assert x !in clauses[0].vars ==> Read(a, st, k, x) == Read(b, st, k, x);
    }
  }

  lemma BoundLeaks(a: map<string, Value>, vs: seq<Value>, clauses: seq<Clause>, sc: Scope, st: Store, k: nat,
          last: map<string, Value>)
    requires Good(st, k) && clauses != [] && clauses[0].CompFor? && |clauses[0].vars| == |vs|
    requires SameRead(last, BindSeen(a, clauses[0].vars, vs, sc.hidden), st, k,
                      Leaks(clauses[1..], InRow(clauses[0].vars, sc)))
    ensures SameRead(last, a, st, k, RowLeaks(clauses, sc))
  {
    hide WF, Lookup, Leaks;
    forall x | x !in RowLeaks(clauses, sc) && x != COMP_NAME ensures Read(last, st, k, x) == Read(a, st, k, x) {
      BindBoth(a, a, clauses[0].vars, vs, sc.hidden, x);
    }
  }

  /** Without dirty names the denotation with visible loop names is the plain one, and what
      the clauses leave behind is what Leaks says. */
  lemma {:induction false} ThreadIs(clauses: seq<Clause>, res: Expr, a: map<string, Value>, b: map<string, Value>,
          dirty: set<string>, sc: Scope, st: Store, k: nat)
    requires Good(st, k) && PureClauses(clauses) && Pure(res) && WellScoped(clauses, res, dirty, sc)
    requires SameRead(a, b, st, k, dirty)
    ensures var (d, last) := Thread(clauses, res, a, sc, st, k);
            d == Denote(clauses, res, b, st, k) && (d.Ok? ==> SameRead(last, a, st, k, Leaks(clauses, sc)))
    decreases |clauses|, 2
  {
    hide WF, Lookup, SameRead;
    if clauses == [] {
      SameValue(res, a, b, st, k, dirty);
      SameSelf(a, st, k, {});
    } else if clauses[0].CompIf? {
      SameValue(clauses[0].cond, a, b, st, k, dirty);
      SameSelf(a, st, k, Leaks(clauses, sc));
      ThreadIs(clauses[1..], res, a, b, dirty, InIf(sc), st, k);
    } else {
      SameValues(clauses[0].tests, a, b, st, k, dirty);
      var vs := ValuesOf(clauses[0].tests, a, st, k);
      if vs.Ok? && |vs.v| > 0 && AllLists(vs.v) {
        SameMore(a, b, st, k, dirty, RowLeaks(clauses, sc));
        RowsIs(clauses, res, vs.v, 0, a, b, dirty, sc, st, k);
        RestoreLeaks(a, ThreadRows(clauses, res, vs.v, 0, a, sc, st, k).1, clauses, sc, st, k);
      }
    }
  }

  lemma SameSelf(a: map<string, Value>, st: Store, k: nat, dirty: set<string>)
    requires Good(st, k)
    ensures SameRead(a, a, st, k, dirty)
  {
  }

  lemma SameMore(a: map<string, Value>, b: map<string, Value>, st: Store, k: nat, dirty: set<string>,
          more: set<string>)
    requires Good(st, k) && SameRead(a, b, st, k, dirty)
    ensures SameRead(a, b, st, k, dirty + more)
  {
  }

  lemma SameTrans(a: map<string, Value>, b: map<string, Value>, c: map<string, Value>, st: Store, k: nat,
          dirty: set<string>, more: set<string>)
    requires Good(st, k) && SameRead(a, b, st, k, more) && SameRead(b, c, st, k, dirty + more)
    ensures SameRead(a, c, st, k, dirty + more)
  {
  }

  lemma RestoreLeaks(a: map<string, Value>, last: map<string, Value>, clauses: seq<Clause>, sc: Scope, st: Store,
          k: nat)
    requires Good(st, k) && clauses != [] && clauses[0].CompFor?
    ensures var own := Own(clauses[0].vars, sc);
            SameRead(last, a, st, k, RowLeaks(clauses, sc)) ==>
              SameRead(Restore(a, last, own), a, st, k, Leaks(clauses, sc))
  {
    hide WF, Lookup, RowLeaks, Own;
  }

  lemma {:induction false} RowsIs(clauses: seq<Clause>, res: Expr, vs: seq<Value>, p: nat, a: map<string, Value>,
          b: map<string, Value>, dirty: set<string>, sc: Scope, st: Store, k: nat)
    requires Good(st, k) && PureClauses(clauses) && Pure(res) && clauses != [] && clauses[0].CompFor?
    requires WellScoped(clauses, res, dirty, sc) && |vs| > 0 && AllLists(vs)
    requires SameRead(a, b, st, k, dirty + RowLeaks(clauses, sc))
    ensures var (d, last) := ThreadRows(clauses, res, vs, p, a, sc, st, k);
            && d == DenoteRows(clauses, res, vs, p, b, st, k)
            && (d.Ok? ==> SameRead(last, a, st, k, RowLeaks(clauses, sc)))
    decreases |clauses|, 1, |vs[0].elems| - p
  {
    hide WF, Lookup, SameRead, RowLeaks, RowValues;
    var leaks := RowLeaks(clauses, sc);
    SameSelf(a, st, k, leaks);
    if HasRow(vs, p) {
      var row, vars := Row(vs, p), clauses[0].vars;
      var values := RowValues(vars, row);
      if values.Some? {
        BoundSame(a, b, values.value, clauses, sc, st, k, dirty);
        var a1 := BindSeen(a, vars, values.value, sc.hidden);
        var b1 := BindEach(b, vars, values.value);
        ThreadIs(clauses[1..], res, a1, b1, Dirty(clauses, dirty, sc), InRow(vars, sc), st, k);
        var (here, a2) := ThreadRow(clauses, res, row, a, sc, st, k);
        if here.Ok? {
          BoundLeaks(a, values.value, clauses, sc, st, k, a2);
          SameTrans(a2, a, b, st, k, dirty, leaks);
          RowsIs(clauses, res, vs, p + 1, a2, b, dirty, sc, st, k);
          var last := ThreadRows(clauses, res, vs, p + 1, a2, sc, st, k).1;
          assert {} + leaks == leaks;
          if ThreadRows(clauses, res, vs, p + 1, a2, sc, st, k).0.Ok? {
            SameTrans(last, a2, a, st, k, {}, leaks);
          }
        }
      }
    }
  }

  // ----- meaning preserved -----

  /** Rewriting a comprehension preserves its meaning: the first run of the nested
      statement yields the denoted list, or raises the denoted exception. */
  lemma CompMeaning(n: nat, e: Expr, st: Store, k: nat)
    requires Good(st, k) && n > 0 && e.Comp? && e.clauses != [] && PureClauses(e.clauses) && Pure(e.res)
    requires Lookup(st, k, COMP_NAME).None? && WellScoped(e.clauses, e.res, {}, ScopeOf(e.clauses, st, k))
    ensures Eval(n, e, st, k).0 == AsList(Denote(e.clauses, e.res, map[], st, k))
  {
    hide WF, Eval, Thread, Denote, WellScoped, ScopeOf, Lookup;
    CompRun(n, e, st, k);
    SameSelf(map[], st, k, {});
    ThreadIs(e.clauses, e.res, map[], map[], {}, ScopeOf(e.clauses, st, k), st, k);
  }

  /** No two for clauses bind the same name. */
  ghost predicate Separate(clauses: seq<Clause>) {
    clauses == []
    || ((clauses[0].CompFor? ==> forall x | x in clauses[0].vars :: x !in LoopNames(clauses[1..]))
        && Separate(clauses[1..]))
  }

  lemma {:induction false} FreshScoped(clauses: seq<Clause>, res: Expr, sc: Scope)
    requires Separate(clauses) && LoopNames(clauses) !! sc.reach && LoopNames(clauses) !! sc.hidden
    ensures Leaks(clauses, sc) == {} && WellScoped(clauses, res, {}, sc)
    decreases |clauses|
  {
    if clauses != [] {
      if clauses[0].CompIf? {
        FreshScoped(clauses[1..], res, InIf(sc));
      } else {
        var vars := clauses[0].vars;
        assert forall x | x in vars :: x in LoopNames(clauses);
        FreshScoped(clauses[1..], res, InRow(vars, sc));
        assert Dirty(clauses, {}, sc) == {};
      }
    }
  }

  /** With separate loop names, none of them assignable outside, every comprehension means
      what it denotes, whatever its expressions mention. */
  lemma FreshMeaning(n: nat, e: Expr, st: Store, k: nat)
    requires Good(st, k) && n > 0 && e.Comp? && e.clauses != [] && PureClauses(e.clauses) && Pure(e.res)
    requires Lookup(st, k, COMP_NAME).None?
    requires Separate(e.clauses) && forall x | x in LoopNames(e.clauses) :: !Assignable(st, k, x)
    ensures Eval(n, e, st, k).0 == AsList(Denote(e.clauses, e.res, map[], st, k))
  {
    hide Eval, Denote, WellScoped, Lookup;
    FreshScoped(e.clauses, e.res, ScopeOf(e.clauses, st, k));
    CompMeaning(n, e, st, k);
  }

  // ----- meaning lost -----

  function Boxed(v: Value): Value { List([v]) }

  /** [x for y in [0, 1] for x in [[x]]] */
  function Inner(x: string): seq<Clause> { [CompFor([x], [ListLit([ListLit([Var(x)])])])] }

  function Outer(x: string, y: string): seq<Clause> {
    [CompFor([y], [ListLit([Lit(Int(0)), Lit(Int(1))])])] + Inner(x)
  }

  lemma ListOne(e: Expr, env: map<string, Value>, st: Store, k: nat, v: Value)
    requires Good(st, k) && Pure(e) && ValueOf(e, env, st, k) == Ok(v)
    ensures AllPure([e]) && ValuesOf([e], env, st, k) == Ok([v])
    ensures Pure(ListLit([e])) && ValueOf(ListLit([e]), env, st, k) == Ok(Boxed(v))
  {
    hide WF, Lookup;
    assert [e][1..] == [] && AllPure([]) && ValuesOf([], env, st, k) == Ok([]);
    assert AllPure([e]);
    assert [v] + [] == [v];
  }

  lemma InnerValues(x: string, env: map<string, Value>, st: Store, k: nat, v: Value)
    requires Good(st, k) && x != COMP_NAME && Read(env, st, k, x) == Some(v)
    ensures AllPure(Inner(x)[0].tests)
    ensures ValuesOf(Inner(x)[0].tests, env, st, k) == Ok([Boxed(Boxed(v))])
  {
    hide WF, Lookup, Pure, AllPure, ValuesOf;
    VarValue(x, env, st, k, v);
    ListOne(Var(x), env, st, k, v);
    ListOne(ListLit([Var(x)]), env, st, k, Boxed(v));
    ListOne(ListLit([ListLit([Var(x)])]), env, st, k, Boxed(Boxed(v)));
  }

  lemma VarValue(x: string, env: map<string, Value>, st: Store, k: nat, v: Value)
    requires Good(st, k) && x != COMP_NAME && Read(env, st, k, x) == Some(v)
    ensures Pure(Var(x)) && ValueOf(Var(x), env, st, k) == Ok(v)
  {
  }

  lemma InnerPure(x: string)
    requires x != COMP_NAME
    ensures PureClauses(Inner(x)) && Inner(x)[1..] == [] && PureClauses([]) && LoopNames(Inner(x)) == {x}
  {
    assert [Var(x)][1..] == [] && [ListLit([Var(x)])][1..] == [] && [ListLit([ListLit([Var(x)])])][1..] == [];
    assert AllPure([]);
    assert Pure(Var(x)) && AllPure([Var(x)]);
    assert Pure(ListLit([Var(x)])) && AllPure([ListLit([Var(x)])]);
    assert Pure(ListLit([ListLit([Var(x)])]));
    assert (set z | z in [x]) == {x} && LoopNames([]) == {};
  }

  lemma OneRow(x: string, v: Value)
    ensures var vs := [Boxed(v)];
            && AllLists(vs) && HasRow(vs, 0) && !HasRow(vs, 1) && Row(vs, 0) == [v]
            && RowValues([x], [v]) == Some([v])
  {
    assert [Boxed(v)][0].elems == [v];
  }

  /** The inner clause when x reads as v: what it yields and what x is left at. */
  lemma InnerThread(x: string, env: map<string, Value>, sc: Scope, st: Store, k: nat, v: Value)
    requires Good(st, k) && x != COMP_NAME && Read(env, st, k, x) == Some(v) && PureClauses(Inner(x))
    ensures Thread(Inner(x), Var(x), env, sc, st, k) ==
            if x in sc.hidden then (Ok([v]), env)
            else (Ok([Boxed(v)]), if x in sc.reach then env[x := Boxed(v)] else env)
  {
    hide WF, Lookup;
    var vs, c := [Boxed(Boxed(v))], Inner(x);
    InnerValues(x, env, st, k, v);
    InnerPure(x);
    OneRow(x, Boxed(v));
    var env1 := if x in sc.hidden then env else env[x := Boxed(v)];
    assert [x][1..] == [] && [Boxed(v)][1..] == [];
    assert BindSeen(env, [x], [Boxed(v)], sc.hidden) == env1;
    var now := if x in sc.hidden then v else Boxed(v);
    assert ThreadRow(c, Var(x), [Boxed(v)], env, sc, st, k) == (Ok([now]), env1) by {
      VarValue(x, env1, st, k, now);
    }
    assert ThreadRows(c, Var(x), vs, 1, env1, sc, st, k) == (Ok([]), env1);
    assert [now] + [] == [now];
    assert ThreadRows(c, Var(x), vs, 0, env, sc, st, k) == (Ok([now]), env1);
    assert Restore(env, env1, Own([x], sc)) == if x in sc.reach && x !in sc.hidden then env1 else env;
  }

  lemma InnerDenote(x: string, env: map<string, Value>, st: Store, k: nat, v: Value)
    requires Good(st, k) && x != COMP_NAME && Read(env, st, k, x) == Some(v) && PureClauses(Inner(x))
    ensures Denote(Inner(x), Var(x), env, st, k) == Ok([Boxed(v)])
  {
    hide WF, Lookup;
    var vs, c := [Boxed(Boxed(v))], Inner(x);
    InnerValues(x, env, st, k, v);
    InnerPure(x);
    OneRow(x, Boxed(v));
    assert [x][1..] == [] && [Boxed(v)][1..] == [];
    assert BindEach(env, [x], [Boxed(v)]) == env[x := Boxed(v)];
    VarValue(x, env[x := Boxed(v)], st, k, Boxed(v));
    assert Denote([], Var(x), env[x := Boxed(v)], st, k) == Ok([Boxed(v)]);
    assert DenoteRows(c, Var(x), vs, 1, env, st, k) == Ok([]);
    assert [Boxed(v)] + [] == [Boxed(v)];
  }

  const TWO := [List([Int(0), Int(1)])]

  lemma OuterPure(x: string, y: string)
    requires x != COMP_NAME && y != COMP_NAME
    ensures PureClauses(Outer(x, y)) && Outer(x, y)[1..] == Inner(x) && LoopNames(Outer(x, y)) == {x, y}
  {
    InnerPure(x);
    var es := [Lit(Int(0)), Lit(Int(1))];
    assert es[1..] == [Lit(Int(1))] && es[1..][1..] == [] && AllPure([]) && AllPure(es[1..]) && AllPure(es);
    assert [ListLit(es)][1..] == [] && AllPure([ListLit(es)]);
    assert Outer(x, y)[1..] == Inner(x);
    assert (set z | z in [y]) == {y};
    forall i | 0 <= i < |Outer(x, y)|
      ensures match Outer(x, y)[i]
              case CompIf(c) => Pure(c)
              case CompFor(vars, tests) => AllPure(tests) && COMP_NAME !in vars
    {
      if i == 1 { assert Outer(x, y)[1] == Inner(x)[0]; }
    }
  }

  lemma OuterValues(x: string, y: string, env: map<string, Value>, st: Store, k: nat)
    requires Good(st, k) && AllPure(Outer(x, y)[0].tests)
    ensures ValuesOf(Outer(x, y)[0].tests, env, st, k) == Ok(TWO)
    ensures AllLists(TWO) && HasRow(TWO, 0) && HasRow(TWO, 1) && !HasRow(TWO, 2)
    ensures Row(TWO, 0) == [Int(0)] && Row(TWO, 1) == [Int(1)]
    ensures forall v :: RowValues([y], [v]) == Some([v])
  {
    hide WF, Lookup;
    var es := [Lit(Int(0)), Lit(Int(1))];
    assert es[1..] == [Lit(Int(1))] && es[1..][1..] == [];
    assert AllPure([]) && ValuesOf([], env, st, k) == Ok([]) && AllPure(es[1..]) && AllPure(es);
    assert ValuesOf(es[1..], env, st, k) == Ok([Int(1)] + []);
    assert [Int(0)] + ([Int(1)] + []) == [Int(0), Int(1)];
    assert ValuesOf(es, env, st, k) == Ok([Int(0), Int(1)]);
    ListOne(ListLit(es), env, st, k, TWO[0]);
    assert TWO[0].elems == [Int(0), Int(1)];
  }

  /** One row of the outer clause. */
  lemma OuterRow(x: string, y: string, i: Value, env: map<string, Value>, sc: Scope, st: Store, k: nat, v: Value)
    requires Good(st, k) && x != y && x != COMP_NAME && PureClauses(Outer(x, y)) && Read(env, st, k, x) == Some(v)
    ensures var (d, last) := ThreadRow(Outer(x, y), Var(x), [i], env, sc, st, k);
            && d == Ok([if x in sc.hidden then v else Boxed(v)])
            && Read(last, st, k, x) == Some(if x in sc.reach && x !in sc.hidden then Boxed(v) else v)
  {
    hide WF, Lookup, Thread;
    InnerPure(x);
    assert Outer(x, y)[1..] == Inner(x) && [y][1..] == [] && [i][1..] == [];
    var env1 := if y in sc.hidden then env else env[y := i];
    assert BindSeen(env, [y], [i], sc.hidden) == env1;
    InnerThread(x, env1, InRow([y], sc), st, k, v);
  }

  /** What the rewritten comprehension gives, and what it denotes, for every value of x:
      they agree exactly when x is not assignable outside. */
  lemma AssignableNamesClobber(n: nat, st: Store, k: nat, x: string, y: string, w: Value)
    requires Good(st, k) && n > 0 && x != y && x != COMP_NAME && y != COMP_NAME
    requires Lookup(st, k, COMP_NAME).None? && Lookup(st, k, x) == Some(w)
    ensures PureClauses(Outer(x, y)) && Separate(Outer(x, y))
    ensures var r := Eval(n, Comp(Var(x), Outer(x, y)), st, k).0;
            var d := Denote(Outer(x, y), Var(x), map[], st, k);
            && r == Ok(List(if Hidden(st, k, x) then [w, w]
                            else if Assignable(st, k, x) then [Boxed(w), Boxed(Boxed(w))]
                            else [Boxed(w), Boxed(w)]))
            && d == Ok([Boxed(w), Boxed(w)])
            && (r == AsList(d) <==> !Assignable(st, k, x))
  {
    hide WF, Lookup, Eval, Assignable, Hidden, Thread, ThreadRows, Denote, DenoteRows;
    OuterPure(x, y);
    OuterSeparate(x, y);
    CompRun(n, Comp(Var(x), Outer(x, y)), st, k);
    OuterThread(st, k, x, y, w);
    OuterDenote(st, k, x, y, w);
    HiddenAssignable(st, k, x);
    NotOwnBox(w);
    NotOwnBox(Boxed(w));
    var seen := if Hidden(st, k, x) then [w, w]
                else if Assignable(st, k, x) then [Boxed(w), Boxed(Boxed(w))] else [Boxed(w), Boxed(w)];
    assert seen[1] == Boxed(w) <==> !Assignable(st, k, x);
  }

  lemma NotOwnBox(w: Value)
    ensures w != Boxed(w)
  {
    assert Boxed(w).elems[0] == w;
  }

  lemma HiddenAssignable(st: Store, k: nat, x: string)
    requires Good(st, k)
    ensures Hidden(st, k, x) ==> Assignable(st, k, x)
  {
  }

  lemma OuterSeparate(x: string, y: string)
    requires x != y && x != COMP_NAME
    ensures Separate(Outer(x, y))
  {
    InnerPure(x);
    assert Outer(x, y)[1..] == Inner(x);
    assert LoopNames([]) == {} && Separate([]) && Separate(Inner(x));
  }

  lemma OuterThread(st: Store, k: nat, x: string, y: string, w: Value)
    requires Good(st, k) && x != y && x != COMP_NAME && y != COMP_NAME && Lookup(st, k, x) == Some(w)
    requires PureClauses(Outer(x, y))
    ensures var c := Outer(x, y);
            Thread(c, Var(x), map[], ScopeOf(c, st, k), st, k).0 ==
            Ok(if Hidden(st, k, x) then [w, w]
               else if Assignable(st, k, x) then [Boxed(w), Boxed(Boxed(w))] else [Boxed(w), Boxed(w)])
  {
    hide WF, Lookup, Assignable, Hidden, ThreadRow;
    OuterPure(x, y);
    var c := Outer(x, y);
    var sc := ScopeOf(c, st, k);
    assert x in sc.hidden <==> Hidden(st, k, x);
    assert x in sc.reach <==> Assignable(st, k, x) && !Hidden(st, k, x);
    hide ScopeOf;
    OuterValues(x, y, map[], st, k);
    OuterRow(x, y, Int(0), map[], sc, st, k, w);
    var (d0, env1) := ThreadRow(c, Var(x), [Int(0)], map[], sc, st, k);
    var w1 := if x in sc.reach && x !in sc.hidden then Boxed(w) else w;
    OuterRow(x, y, Int(1), env1, sc, st, k, w1);
    var (d1, env2) := ThreadRow(c, Var(x), [Int(1)], env1, sc, st, k);
    assert ThreadRows(c, Var(x), TWO, 2, env2, sc, st, k) == (Ok([]), env2);
    assert d1.v + [] == d1.v;
    assert ThreadRows(c, Var(x), TWO, 1, env1, sc, st, k) == (d1, env2);
    assert ThreadRows(c, Var(x), TWO, 0, map[], sc, st, k) == (Ok(d0.v + d1.v), env2);
    assert ThreadFor(c, Var(x), map[], sc, st, k) == (Ok(d0.v + d1.v), env2);
    assert d0.v + d1.v == [d0.v[0], d1.v[0]];
    assert Thread(c, Var(x), map[], sc, st, k).0 == Ok([d0.v[0], d1.v[0]]);
  }

  lemma OuterDenote(st: Store, k: nat, x: string, y: string, w: Value)
    requires Good(st, k) && x != y && x != COMP_NAME && y != COMP_NAME && Lookup(st, k, x) == Some(w)
    requires PureClauses(Outer(x, y))
    ensures Denote(Outer(x, y), Var(x), map[], st, k) == Ok([Boxed(w), Boxed(w)])
  {
    hide WF, Lookup;
    OuterPure(x, y);
    OuterValues(x, y, map[], st, k);
    var c := Outer(x, y);
    forall i: Value ensures BindEach(map[], [y], [i]) == map[y := i]
                    ensures Denote(Inner(x), Var(x), map[y := i], st, k) == Ok([Boxed(w)])
    {
      assert [y][1..] == [] && [i][1..] == [];
      InnerDenote(x, map[y := i], st, k, w);
    }
    assert DenoteRows(c, Var(x), TWO, 2, map[], st, k) == Ok([]);
    assert [Boxed(w)] + [] == [Boxed(w)];
    assert DenoteRows(c, Var(x), TWO, 1, map[], st, k) == Ok([Boxed(w)]);
    assert [Boxed(w)] + [Boxed(w)] == [Boxed(w), Boxed(w)];
    assert DenoteRows(c, Var(x), TWO, 0, map[], st, k) == Ok([Boxed(w), Boxed(w)]);
  }

  /** A hidden name shows its old value inside its own clause: [x for x in [e]]. */
  lemma HiddenKeepsOldValue(n: nat, st: Store, k: nat, x: string, w: Value)
    requires Good(st, k) && n > 0 && x != COMP_NAME && Lookup(st, k, COMP_NAME).None? && Lookup(st, k, x) == Some(w)
    ensures PureClauses(Inner(x))
    ensures Eval(n, Comp(Var(x), Inner(x)), st, k).0 == Ok(List([if Hidden(st, k, x) then w else Boxed(w)]))
    ensures Denote(Inner(x), Var(x), map[], st, k) == Ok([Boxed(w)])
  {
    hide WF, Lookup, Eval, Assignable, Hidden, Thread, Denote;
    InnerPure(x);
    CompRun(n, Comp(Var(x), Inner(x)), st, k);
    InnerThread(x, map[], ScopeOf(Inner(x), st, k), st, k, w);
    InnerDenote(x, map[], st, k, w);
  }

  /** How a name gets hidden: a function on whose stack a call has pushed and popped a
      further function table assigns, from then on, only above where that table was. */
  lemma RecursionHides(st: Store, k: nat, x: string)
    requires Good(st, k)
    ensures var after := Pop(Push(st, k, FuncTable), k);
            && after.stacks[k].ids == st.stacks[k].ids
            && (Hidden(after, k, x) <==>
                x in st.tables[0].m && st.tables[0].m[x].global && Find(st.tables, st.stacks[k].ids, x, 0).Some?)
  {
    var after, ids := Pop(Push(st, k, FuncTable), k), st.stacks[k].ids;
    assert after.stacks[k].ids == ids && Stop(after, k) == |ids|;
    FindSame(st.tables, after.tables, ids, x, 0);
  }

  // ----- a program with a hidden name -----

  /** The body of f: if b { f(x, false); print [x for x in [[x]]] } */
  function Body(): seq<Stmt> {
    [If(Var("b"), [Do(Again()), Print(Comp(Var("x"), Inner("x")))], NoElse)]
  }

  function Again(): Expr { Call(Var("f"), [Var("x"), Lit(Bool(false))]) }

  const MAIN := Table(ScopeTable, map["x" := Entry(Int(9), true), "f" := Entry(Func(0), true)])

  function Params(b: bool): Table {
    Table(FuncTable, map["x" := Entry(Int(7), false), "b" := Entry(Bool(b), false)])
  }

  const NO_NAMES := Table(ScopeTable, map[])

  /** global x = 9; func f(x, b) { ... }; f(7, true), in the branch of the if. */
  const BRANCH := Store([MAIN, Params(true), NO_NAMES], [Stack([], -1), Stack([1, 2], 0)],
                        [FuncObj(["x", "b"], Body(), 1)], [], [])

  /** The same place when f(x, false) has returned. */
  const RECURSED := Store([MAIN, Params(true), NO_NAMES, Params(false), NO_NAMES],
                          [Stack([], -1), Stack([1, 2], 2)], [FuncObj(["x", "b"], Body(), 1)], [], [])

  lemma RecursionReturns(n: nat)
    requires n >= 2
    ensures Good(BRANCH, 1) && RunStmt(n, Do(Again()), BRANCH, 1, false) == (Normal, RECURSED)
  {
    hide *;
    BranchIs();
    var fo, args, s3 := FuncObj(["x", "b"], Body(), 1), [Int(7), Bool(false)], Enter(BRANCH, 1);
    ArgsAre(n, BRANCH);
    EntriesAre(s3);
    InnerCall(n - 1, Entered());
    NoReturn(Inside());
    ActivationEnds(n, fo, args, s3, Inside());
    CallReturns(n, BRANCH, args, Inside());
    LeaveInside();
  }

  lemma BranchIs()
    ensures Good(BRANCH, 1) && BRANCH.funcs == [FuncObj(["x", "b"], Body(), 1)]
    ensures Enter(BRANCH, 1).defers == [] && Inside().defers == []
    ensures Again() == Call(Var("f"), [Var("x"), Lit(Bool(false))])
  {
    hide Body;
    assert Good(BRANCH, 1);
  }

  lemma LeaveInside()
    requires Good(BRANCH, 1) && Good(Inside(), 1) && Ext(Enter(BRANCH, 1), Inside())
    ensures Leave(BRANCH, 1, Inside()) == RECURSED
  {
    hide Ext, WF;
    assert [1, 2, 3][..2] == [1, 2];
  }

  /** What the call makes of the end of its activation. */
  lemma CallReturns(n: nat, st: Store, args: seq<Value>, end: Store)
    requires Good(st, 1) && n > 0 && |st.funcs| > 0 && st.funcs[0].k == 1
    requires Eval(n, Again().f, st, 1) == (Ok(Func(0)), st) && EvalAll(n, Again().args, st, 1) == (Ok(args), st)
    requires Activate(n, Again(), st.funcs[0], args, Enter(st, 1)) == (Ok(Null), end)
    requires Good(end, 1) && Ext(Enter(st, 1), end)
    ensures RunStmt(n, Do(Again()), st, 1, false) == (Normal, Leave(st, 1, end))
  {
    hide WF, Ext, Activate, Enter, Leave, EvalAll;
    assert Invoke(n, Again(), Func(0), args, st) == (Ok(Null), Leave(st, 1, end));
    assert EvalCall(n, Again(), st, 1) == (Ok(Null), Leave(st, 1, end));
    assert Eval(n, Again(), st, 1) == (Ok(Null), Leave(st, 1, end));
  }

  lemma ActivationEnds(n: nat, fo: FuncObj, args: seq<Value>, s3: Store, end: Store)
    requires Good(s3, fo.k) && n > 0 && s3.defers == [] && |args| == |fo.params|
    requires RunList(n - 1, fo.ss, SetEntries(s3, fo.k, fo.params, args), fo.k, false) == (Normal, end)
    requires Good(end, fo.k) && end.defers == [] && LookupObj(end, fo.k, RETURN_NAME).None?
    ensures Ext(s3, end) && Activate(n, Again(), fo, args, s3) == (Ok(Null), end)
  {
    hide WF, RunList, Ext, LookupObj, SetEntries;
    ExtTrans(s3, SetEntries(s3, fo.k, fo.params, args), end);
    DefersNone(n - 1, end, false);
  }

  /** The store of the inner activation when its body is over. */
  function Inside(): Store { RECURSED.(stacks := [Stack([], -1), Stack([1, 2, 3], 2)]) }

  lemma NoReturn(s6: Store)
    requires s6 == Inside() && Good(s6, 1)
    ensures LookupObj(s6, 1, RETURN_NAME).None?
  {
    assert |RETURN_NAME| > 1;
    var ids := s6.stacks[1].ids;
    assert ids[..2] == [1, 2] && ids[..2][..1] == [1] && ids[..2][..1][..0] == [];
    assert Find(s6.tables, [], RETURN_NAME, 0) == None;
  }

  lemma ArgsAre(n: nat, st: Store)
    requires st == BRANCH && Good(st, 1)
    ensures Eval(n, Var("f"), st, 1) == (Ok(Func(0)), st)
    ensures EvalAll(n, [Var("x"), Lit(Bool(false))], st, 1) == (Ok([Int(7), Bool(false)]), st)
  {
    hide Ext, WF;
    var ids := st.stacks[1].ids;
    assert ids == [1, 2] && ids[..1] == [1] && ids[..1][..0] == [];
    assert Find(st.tables, [], "f", 0) == None && Find(st.tables, [1], "f", 0) == None;
    assert ReadSite(st, 1, "f") == Some(0);
    assert Find(st.tables, [1], "x", 0) == Some(1) && ReadSite(st, 1, "x") == Some(1);
    var es := [Var("x"), Lit(Bool(false))];
    assert es[1..] == [Lit(Bool(false))] && es[1..][1..] == [];
    assert EvalAll(n, [], st, 1) == (Ok([]), st);
    assert EvalAll(n, es[1..], st, 1) == (Ok([Bool(false)] + []), st);
    assert [Int(7)] + ([Bool(false)] + []) == [Int(7), Bool(false)];
  }

  /** The store in which the body of the inner activation runs. */
  function Entered(): Store {
    Store([MAIN, Params(true), NO_NAMES, Params(false)], [Stack([], -1), Stack([1, 2, 3], 2)],
          [FuncObj(["x", "b"], Body(), 1)], [], [])
  }

  lemma EntriesAre(s3: Store)
    requires Good(BRANCH, 1) && s3 == Enter(BRANCH, 1)
    ensures SetEntries(s3, 1, ["x", "b"], [Int(7), Bool(false)]) == Entered()
  {
    hide Ext;
    var xs, vs := ["x", "b"], [Int(7), Bool(false)];
    assert s3.stacks == [Stack([], -1), Stack([1, 2] + [3], 2)] && [1, 2] + [3] == [1, 2, 3];
    assert xs[1..] == ["b"] && vs[1..] == [Bool(false)] && xs[1..][1..] == [] && vs[1..][1..] == [];
    var s4 := SetEntry(s3, 1, "x", Int(7));
    assert s4.tables == [MAIN, Params(true), NO_NAMES, Table(FuncTable, map["x" := Entry(Int(7), false)])];
    var s5 := SetEntry(s4, 1, "b", Bool(false));
    assert s5.tables == [MAIN, Params(true), NO_NAMES, Params(false)];
    assert SetEntries(s5, 1, [], []) == s5;
  }

  /** The body of the inner activation, in which b is false. */
  lemma InnerCall(n: nat, s4: Store)
    requires s4 == Entered()
    ensures Good(s4, 1) && Good(Inside(), 1) && RunList(n, Body(), s4, 1, false) == (Normal, Inside())
  {
    assert Good(s4, 1) && Good(Inside(), 1);
    var s5 := Push(s4, 1, ScopeTable);
    assert s5.stacks == [Stack([], -1), Stack([1, 2, 3] + [4], 2)] && [1, 2, 3] + [4] == [1, 2, 3, 4];
    assert s5.tables == [MAIN, Params(true), NO_NAMES, Params(false), NO_NAMES];
    assert [1, 2, 3, 4][..3] == [1, 2, 3];
    assert Find(s5.tables, [1, 2, 3], "b", 0) == Some(3) && ReadSite(s5, 1, "b") == Some(3);
    assert Pop(s5, 1) == Inside();
    SkipBranch(n, s4, s5);
  }

  lemma SkipBranch(n: nat, s4: Store, s5: Store)
    requires Good(s4, 1) && s5 == Push(s4, 1, ScopeTable) && Lookup(s5, 1, "b") == Some(Bool(false))
    ensures RunList(n, Body(), s4, 1, false) == (Normal, Pop(s5, 1))
  {
    hide WF, Ext, Push, Pop, Lookup;
    var branch := Body()[0];
    assert EvalCond(n, branch.cond, s5, 1) == (Ok(false), s5);
    assert RunIf(n, branch, s5, 1) == (Normal, s5);
    ScopedIs(n, branch, s4, 1, false);
    RunSingle(n, branch, s4, 1);
    assert Body() == [branch];
  }

  /** There [x for x in [[x]]] gives [7] and not [[7]]. */
  lemma HiddenExample(n: nat)
    requires n > 0
    ensures Good(RECURSED, 1) && PureClauses(Inner("x")) && Hidden(RECURSED, 1, "x")
    ensures Eval(n, Comp(Var("x"), Inner("x")), RECURSED, 1).0 == Ok(List([Int(7)]))
    ensures Denote(Inner("x"), Var("x"), map[], RECURSED, 1) == Ok([List([Int(7)])])
  {
    var st := RECURSED;
    assert Good(st, 1);
    assert COMP_NAME != "x" && COMP_NAME !in {"b", "f"} by { assert |COMP_NAME| > 1; }
    FoundBelow(st, "x");
    FoundBelow(st, COMP_NAME);
    assert Lookup(st, 1, COMP_NAME).None? && Lookup(st, 1, "x") == Some(Int(7)) && Hidden(st, 1, "x");
    hide Eval, Denote, Lookup, Hidden, WF;
    HiddenKeepsOldValue(n, st, 1, "x", Int(7));
  }

  lemma FoundBelow(st: Store, x: string)
    requires st == RECURSED && Good(st, 1)
    ensures Find(st.tables, [1, 2], x, 0) == if x in Params(true).m then Some(1) else None
    ensures Find(st.tables, [1, 2], x, 2) == None
  {
    assert [1, 2][..1] == [1] && [1][..0] == [];
    assert Find(st.tables, [], x, 0) == None;
  }
}
