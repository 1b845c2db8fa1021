/** What a try statement does with an exception, the class names written out. */
module Catching {
  import opened Options
  import opened Syntax
  import opened SymbolTables
  import opened BigStep

  /** The object that a catch clause binds. */
  ghost function Caught(x: Exn): Value {
    if x.Internal? then Error(x.kind) else x.v
  }

  /** A clause naming the type t catches x: the type's own name, "object" for every value,
      and "Exception" for the errors. */
  ghost predicate Fits(x: Exn, t: string) {
    match x
    case Internal(kind) => t in {kind, "Exception", "object"}
    case Thrown(Null) => t in {"null_t", "object"}
    case Thrown(Bool(_)) => t in {"bool", "object"}
    case Thrown(Int(_)) => t in {"int", "object"}
    case Thrown(List(_)) => t in {"array", "object"}
    case Thrown(Func(_)) => t in {"function", "object"}
    case Thrown(TypeObj(_)) => t in {"type", "object"}
    case Thrown(Error(kind)) => t in {kind, "Exception", "object"}
  }

  /** One of the values names a fitting type. */
  ghost predicate Catches(x: Exn, ts: seq<Value>) {
    exists i :: 0 <= i < |ts| && ts[i].TypeObj? && Fits(x, ts[i].name)
  }

  lemma CatchesIs(x: Exn, ts: seq<Value>)
    ensures Catches(x, ts) <==> InstanceOfAny(ExnValue(x), ts)
  {
    forall i | 0 <= i < |ts| ensures InstanceOf(ExnValue(x), ts[i]) <==> ts[i].TypeObj? && Fits(x, ts[i].name) {
    }
  }

  /** The clauses before the last store of t were asked in order, from store to store, and
      none of them catches x. */
  ghost predicate Missed(n: nat, cs: seq<Catch>, x: Exn, t: seq<Store>, k: nat) {
    && 0 < |t| <= |cs| + 1
    && (forall i | 0 <= i < |t| :: Good(t[i], k))
    && forall i | 0 <= i < |t| - 1 :: MissedOne(n, cs[i], x, t[i], t[i + 1], k)
  }

  ghost predicate MissedOne(n: nat, c: Catch, x: Exn, st: Store, st': Store, k: nat)
    requires Good(st, k)
  {
    var (ts, e) := EvalAll(n, c.pats, st, k);
    ts.Ok? && !Catches(x, ts.v) && e == st'
  }

  /** What happens at the p-th clause, in st: behind the last one the exception leaves as it
      came; a clause that catches it binds the object, if it asks for it, and runs. */
  ghost predicate CatchEnd(n: nat, cs: seq<Catch>, p: nat, x: Exn, st: Store, k: nat, r: (Outcome, Store))
    requires Good(st, k) && p <= |cs|
  {
    if p == |cs| then r == (Raised(x), st)
    else
      var (ts, e) := EvalAll(n, cs[p].pats, st, k);
      match ts
      case Exc(y) => r == (Raised(y), e)
      case Halt(h) => r == (Stuck(h), e)
      case Ok(ts) => Catches(x, ts) && r == Handled(n, cs[p], x, e, k)
  }

  ghost function Handled(n: nat, c: Catch, x: Exn, st: Store, k: nat): (Outcome, Store)
    requires Good(st, k)
  {
    RunList(n, c.ss, if c.bind.Some? then InsertEntry(st, k, c.bind.value, Caught(x)) else st, k, false)
  }

  lemma ClauseIs(n: nat, s: Stmt, p: nat, x: Exn, st: Store, k: nat)
    requires Good(st, k) && s.Try? && p <= |s.catches|
    ensures forall r: (Outcome, Store) | CatchEnd(n, s.catches, p, x, st, k, r) :: RunCatches(n, s, p, x, st, k) == r
    ensures p < |s.catches| ==>
              forall e: Store | MissedOne(n, s.catches[p], x, st, e, k) ::
                Good(e, k) && RunCatches(n, s, p, x, st, k) == RunCatches(n, s, p + 1, x, e, k)
    ensures CatchEnd(n, s.catches, p, x, st, k, RunCatches(n, s, p, x, st, k))
            || (p < |s.catches| && exists e: Store :: Good(e, k) && MissedOne(n, s.catches[p], x, st, e, k))
  {
    hide WF, Ext, EvalAll, RunList, InsertEntry, Catches, InstanceOfAny, ExnValue, Caught;
    if p < |s.catches| {
      var ts := EvalAll(n, s.catches[p].pats, st, k).0;
      if ts.Ok? {
        CatchesIs(x, ts.v);
        assert Caught(x) == ExnValue(x) by { CaughtIs(x); }
      }
    }
  }

  lemma CaughtIs(x: Exn)
    ensures Caught(x) == ExnValue(x)
  {
  }

  lemma {:induction false} MissedRun(n: nat, s: Stmt, x: Exn, t: seq<Store>, k: nat)
    requires s.Try? && Missed(n, s.catches, x, t, k)
    ensures RunCatches(n, s, 0, x, t[0], k) == RunCatches(n, s, |t| - 1, x, t[|t| - 1], k)
    decreases |t|
  {
    hide WF, RunCatches, MissedOne;
    if |t| > 1 {
      var u, i := t[..|t| - 1], |t| - 2;
      forall j | 0 <= j < |u| - 1 ensures MissedOne(n, s.catches[j], x, u[j], u[j + 1], k) {
        assert MissedOne(n, s.catches[j], x, t[j], t[j + 1], k);
      }
      MissedRun(n, s, x, u, k);
      assert MissedOne(n, s.catches[i], x, t[i], t[i + 1], k);
      ClauseIs(n, s, i, x, t[i], k);
    }
  }

  lemma {:induction false} SomeMissed(n: nat, s: Stmt, x: Exn, t: seq<Store>, k: nat) returns (u: seq<Store>)
    requires s.Try? && Missed(n, s.catches, x, t, k)
    ensures Missed(n, s.catches, x, u, k) && t <= u
    ensures CatchEnd(n, s.catches, |u| - 1, x, u[|u| - 1], k,
                     RunCatches(n, s, |u| - 1, x, u[|u| - 1], k))
    decreases |s.catches| - |t| + 1
  {
    hide WF, RunCatches, MissedOne, CatchEnd;
    var p := |t| - 1;
    ClauseIs(n, s, p, x, t[p], k);
    if CatchEnd(n, s.catches, p, x, t[p], k, RunCatches(n, s, p, x, t[p], k)) {
      u := t;
    } else {
      var e :| Good(e, k) && MissedOne(n, s.catches[p], x, t[p], e, k);
      var more := t + [e];
      forall i | 0 <= i < |more| - 1 ensures MissedOne(n, s.catches[i], x, more[i], more[i + 1], k) {
        if i < p { assert MissedOne(n, s.catches[i], x, t[i], t[i + 1], k); }
      }
      u := SomeMissed(n, s, x, more, k);
    }
  }

  ghost predicate CatchTrace(n: nat, cs: seq<Catch>, x: Exn, s0: Store, k: nat, t: seq<Store>, r: (Outcome, Store)) {
    Missed(n, cs, x, t, k) && t[0] == s0 && CatchEnd(n, cs, |t| - 1, x, t[|t| - 1], k, r)
  }

  /** A try statement: without an exception in its block no clause is looked at; with one,
      the first clause that names a fitting type runs and no later one is looked at. */
  lemma TryMeaning(n: nat, s: Stmt, st: Store, k: nat, root: bool)
    requires Good(st, k) && s.Try?
    ensures var (o, s1) := RunList(n, s.ss, Push(st, k, ScopeTable), k, false);
            var whole := RunStmt(n, s, st, k, root);
            if !o.Raised? then Closes((o, s1), k, whole)
            else
              && (exists t, r :: CatchTrace(n, s.catches, o.x, s1, k, t, r) && Closes(r, k, whole))
              && forall t, r | CatchTrace(n, s.catches, o.x, s1, k, t, r) :: Closes(r, k, whole)
  {
    hide WF, Ext, RunCatches, RunStmt, RunList, Push, Missed, CatchEnd;
    var (o, s1) := RunList(n, s.ss, Push(st, k, ScopeTable), k, false);
    ScopedIs(n, s, st, k, root);
    if o.Raised? {
      forall t, r | CatchTrace(n, s.catches, o.x, s1, k, t, r) ensures r == RunCatches(n, s, 0, o.x, s1, k) {
        TraceRuns(n, s, o.x, s1, k, t, r);
      }
      var u, r := SomeTrace(n, s, o.x, s1, k);
    }
  }

  lemma TraceRuns(n: nat, s: Stmt, x: Exn, s0: Store, k: nat, t: seq<Store>, r: (Outcome, Store))
    requires Good(s0, k) && s.Try? && CatchTrace(n, s.catches, x, s0, k, t, r)
    ensures r == RunCatches(n, s, 0, x, s0, k)
  {
    hide WF, RunCatches, MissedOne, CatchEnd;
    MissedRun(n, s, x, t, k);
    ClauseIs(n, s, |t| - 1, x, t[|t| - 1], k);
  }

  lemma SomeTrace(n: nat, s: Stmt, x: Exn, s0: Store, k: nat) returns (t: seq<Store>, r: (Outcome, Store))
    requires Good(s0, k) && s.Try?
    ensures CatchTrace(n, s.catches, x, s0, k, t, r)
  {
    hide WF, RunCatches, MissedOne, CatchEnd;
    t := SomeMissed(n, s, x, [s0], k);
    r := RunCatches(n, s, |t| - 1, x, t[|t| - 1], k);
  }

  // ----- one clause -----

  lemma OneType(n: nat, t: string, st: Store, k: nat)
    requires Good(st, k)
    ensures EvalAll(n, [Lit(TypeObj(t))], st, k) == (Ok([TypeObj(t)]), st)
  {
    hide WF, Ext;
    var es := [Lit(TypeObj(t))];
    assert es[1..] == [] && EvalAll(n, [], st, k) == (Ok([]), st);
    assert [TypeObj(t)] + [] == [TypeObj(t)];
  }

  /** try { ... } catch t as b { ... }, whose block raises x: the clause runs exactly when t
      fits x, and otherwise x leaves as it came. */
  lemma OneClause(n: nat, ss: seq<Stmt>, t: string, b: Option<string>, cs: seq<Stmt>, st: Store, k: nat, root: bool)
    requires Good(st, k) && RunList(n, ss, Push(st, k, ScopeTable), k, false).0.Raised?
    ensures var (o, s1) := RunList(n, ss, Push(st, k, ScopeTable), k, false);
            var whole := RunStmt(n, Try(ss, [Catch([Lit(TypeObj(t))], b, cs)]), st, k, root);
            if Fits(o.x, t) then
              var s2 := if b.Some? then InsertEntry(s1, k, b.value, Caught(o.x)) else s1;
              Closes(RunList(n, cs, s2, k, false), k, whole)
            else Closes((Raised(o.x), s1), k, whole)
  {
    hide WF, Ext, RunStmt, RunList, Push, InsertEntry, Fits, Caught;
    var c := Catch([Lit(TypeObj(t))], b, cs);
    var s := Try(ss, [c]);
    var (o, s1) := RunList(n, ss, Push(st, k, ScopeTable), k, false);
    OneType(n, t, s1, k);
    TryMeaning(n, s, st, k, root);
    assert Catches(o.x, [TypeObj(t)]) <==> Fits(o.x, t) by {
      assert Fits(o.x, t) ==> [TypeObj(t)][0].TypeObj?;
    }
    hide Catches;
    if Fits(o.x, t) {
      assert CatchTrace(n, [c], o.x, s1, k, [s1], Handled(n, c, o.x, s1, k));
    } else {
      assert MissedOne(n, c, o.x, s1, s1, k);
      assert Missed(n, [c], o.x, [s1, s1], k);
      assert CatchTrace(n, [c], o.x, s1, k, [s1, s1], (Raised(o.x), s1));
    }
  }

  /** Inside the clause the bound name is the caught object, unless the block had already
      bound that name in the statement's own table. */
  lemma BoundObject(st: Store, k: nat, x: string, v: Value)
    requires Good(st, k)
    ensures Lookup(InsertEntry(st, k, x, v), k, x) ==
            Some(if x in st.tables[Top(st, k)].m then st.tables[Top(st, k)].m[x].v else v)
  {
    var s1 := InsertEntry(st, k, x, v);
    var ids := st.stacks[k].ids;
    assert s1.stacks[k].ids == ids && x in s1.tables[Top(st, k)].m;
    assert |ids| == 0 ==> Find(s1.tables, ids, x, 0) == None;
  }
}
