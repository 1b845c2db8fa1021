/** Assignment to nested tuple and array patterns. */
module Destructuring {

  /** A sequence value is a tuple or an array; anything else cannot be unpacked. */
  datatype Value = Atom(v: int) | Tuple(elems: seq<Value>) | Array(elems: seq<Value>)

  /** A tuple pattern and an array pattern accept the same values. */
  datatype Pattern = Name(x: string) | TuplePat(ps: seq<Pattern>) | ArrayPat(ps: seq<Pattern>)

  type Env = map<string, Value>

  /** The writes an assignment makes, in order; without ok it stops with an error there. */
  datatype Attempt = Attempt(writes: seq<(string, Value)>, ok: bool)

  function Try(p: Pattern, v: Value): Attempt
    decreases p
  {
    if p.Name? then Attempt([(p.x, v)], true)
    else if p.ps == [] || v.Atom? || |p.ps| != |v.elems| then Attempt([], false)
    else TryAll(p.ps, v.elems)
  }

  function TryAll(ps: seq<Pattern>, vs: seq<Value>): Attempt
    requires |ps| == |vs|
    decreases ps
  {
    if ps == [] then Attempt([], true)
    else
      var first := Try(ps[0], vs[0]);
      if !first.ok then first
      else
        var rest := TryAll(ps[1..], vs[1..]);
        Attempt(first.writes + rest.writes, rest.ok)
  }

  function Written(env: Env, writes: seq<(string, Value)>): Env
    decreases |writes|
  {
    if writes == [] then env else Written(env[writes[0].0 := writes[0].1], writes[1..])
  }

  /** An assignment list: one target takes all the values, one value is unpacked, or the
      sizes agree. */
  function TryList(ps: seq<Pattern>, vs: seq<Value>): Attempt {
    if |ps| != 1 && |vs| != 1 && |ps| != |vs| then Attempt([], false)
    else if |ps| == 1 then Try(ps[0], if |vs| == 1 then vs[0] else Tuple(vs))
    else if |vs| == 1 then
      if vs[0].Atom? || |ps| != |vs[0].elems| then Attempt([], false) else TryAll(ps, vs[0].elems)
    else TryAll(ps, vs)
  }

  function Values(rights: seq<Env -> Value>, env: Env): (vs: seq<Value>)
    ensures |vs| == |rights| && forall i | 0 <= i < |vs| :: vs[i] == rights[i](env)
    decreases |rights|
  {
    if rights == [] then [] else [rights[0](env)] + Values(rights[1..], env)
  }

  /** Several targets are a tuple pattern and several values a tuple. */
  lemma ListsAreTuples(ps: seq<Pattern>, vs: seq<Value>)
    requires ps != []
    ensures TryList(ps, vs) == Try(if |ps| == 1 then ps[0] else TuplePat(ps), if |vs| == 1 then vs[0] else Tuple(vs))
  {
  }

  /** One name takes one value as it is, and any other number of them as a tuple. */
  lemma OneName(x: string, vs: seq<Value>, env: Env)
    ensures TryList([Name(x)], vs).ok
    ensures Written(env, TryList([Name(x)], vs).writes) == env[x := if |vs| == 1 then vs[0] else Tuple(vs)]
  {
    var w := TryList([Name(x)], vs).writes;
    assert |w| == 1 && w[1..] == [];
  }

  lemma {:induction false} WrittenAppend(env: Env, a: seq<(string, Value)>, b: seq<(string, Value)>)
    ensures Written(env, a + b) == Written(Written(env, a), b)
    decreases |a|
  {
    if a == [] {
      assert a + b == b;
    } else {
      assert (a + b)[1..] == a[1..] + b;
      WrittenAppend(env[a[0].0 := a[0].1], a[1..], b);
    }
  }

  lemma TryAllStart(ps: seq<Pattern>, vs: seq<Value>)
    requires |ps| == |vs|
    ensures ps[0..] == ps && vs[0..] == vs && [] + TryAll(ps, vs).writes == TryAll(ps, vs).writes
  {
  }

  lemma TryAllStep(ps: seq<Pattern>, vs: seq<Value>, i: nat, done: seq<(string, Value)>)
    requires i <= |ps| == |vs|
    ensures var now := TryAll(ps[i..], vs[i..]);
            if i == |ps| then now.ok && done + now.writes == done
            else
              var first := Try(ps[i], vs[i]);
              var rest := TryAll(ps[i + 1..], vs[i + 1..]);
              if first.ok then now.ok == rest.ok && done + now.writes == done + first.writes + rest.writes
              else now == first
  {
    if i < |ps| { assert ps[i..][1..] == ps[i + 1..] && vs[i..][1..] == vs[i + 1..]; }
  }

  class AssignExecutor {
    var env: Env

    constructor (env: Env)
      ensures this.env == env
    {
      this.env := env;
    }

    method AssignIdentifier(x: string, v: Value)
      modifies this
      ensures env == old(env)[x := v]
    {
      env := env[x := v];
    }

    method AssignmentAcceptorExpr(p: Pattern, v: Value) returns (ok: bool)
      modifies this
      ensures ok == Try(p, v).ok && env == Written(old(env), Try(p, v).writes)
      decreases p, 1
    {
      if p.Name? {
        AssignIdentifier(p.x, v);
        assert [(p.x, v)][1..] == [];
        ok := true;
      } else {
        ok := AssignLeft(p, v);
      }
    }

    /** AssignLeftTuple and AssignLeftArray, which have the same body. */
    method AssignLeft(p: Pattern, v: Value) returns (ok: bool)
      requires !p.Name?
      modifies this
      ensures ok == Try(p, v).ok && env == Written(old(env), Try(p, v).writes)
      decreases p, 0
    {
      if p.ps == [] || v.Atom? {
        return false;
      }
      if |p.ps| != |v.elems| {
        return false;
      }
      ok := AssignEach(p.ps, v.elems);
    }

    /** The loop over targets and values; an error leaves what was written before it. */
    method AssignEach(ps: seq<Pattern>, vs: seq<Value>) returns (ok: bool)
      requires |ps| == |vs|
      modifies this
      ensures ok == TryAll(ps, vs).ok && env == Written(old(env), TryAll(ps, vs).writes)
      decreases ps, 0
    {
      ghost var done: seq<(string, Value)> := [];
      assert Written(env, done) == env;
      TryAllStart(ps, vs);
      hide Try, TryAll, Written;
      var i := 0;
      while i < |ps|
        invariant 0 <= i <= |ps| && env == Written(old(env), done)
        invariant TryAll(ps, vs).ok == TryAll(ps[i..], vs[i..]).ok
        invariant TryAll(ps, vs).writes == done + TryAll(ps[i..], vs[i..]).writes
      {
        ghost var first := Try(ps[i], vs[i]);
        TryAllStep(ps, vs, i, done);
        ok := AssignmentAcceptorExpr(ps[i], vs[i]);
        WrittenAppend(old(env), done, first.writes);
        done := done + first.writes;
        if !ok {
          return;
        }
        i := i + 1;
      }
      TryAllStep(ps, vs, i, done);
      ok := true;
    }

    method Assign(ps: seq<Pattern>, vs: seq<Value>) returns (ok: bool)
      modifies this
      ensures ok == TryList(ps, vs).ok && env == Written(old(env), TryList(ps, vs).writes)
    {
      if |ps| != 1 && |vs| != 1 && |ps| != |vs| {
        return false;
      }
      if |ps| == 1 && |vs| == 1 {
        ok := AssignmentAcceptorExpr(ps[0], vs[0]);
      } else if |ps| == 1 {
        ok := AssignmentAcceptorExpr(ps[0], Tuple(vs));
      } else if |vs| == 1 {
        if vs[0].Atom? || |ps| != |vs[0].elems| {
          return false;
        }
        ok := AssignEach(ps, vs[0].elems);
      } else {
        ok := AssignEach(ps, vs);
      }
    }

    /** The whole statement: every right-hand side is evaluated before the first write. */
    method Exec(ps: seq<Pattern>, rights: seq<Env -> Value>) returns (ok: bool)
      modifies this
      ensures var a := TryList(ps, Values(rights, old(env)));
              ok == a.ok && env == Written(old(env), a.writes)
    {
      hide Written, TryList;
      var values := [];
      var i := 0;
      while i < |rights|
        invariant 0 <= i <= |rights| && env == old(env)
        invariant values + Values(rights[i..], env) == Values(rights, env)
      {
        assert rights[i..][1..] == rights[i + 1..];
        values := values + [rights[i](env)];
        i := i + 1;
      }
      assert rights[i..] == [] && values + [] == values;
      ok := Assign(ps, values);
    }
  }

  // ----- when an assignment fails -----

  /** Every node of the pattern is not empty and has as many elements as the value there. */
  predicate Matches(p: Pattern, v: Value)
    decreases p
  {
    p.Name?
    || (p.ps != [] && !v.Atom? && |p.ps| == |v.elems| && forall i | 0 <= i < |p.ps| :: Matches(p.ps[i], v.elems[i]))
  }

  /** An assignment fails exactly when some node does not match. */
  lemma {:induction false} FailsIff(p: Pattern, v: Value)
    ensures Try(p, v).ok <==> Matches(p, v)
    decreases p, 1
  {
    if !p.Name? && !v.Atom? && |p.ps| == |v.elems| {
      FailsIffAll(p.ps, v.elems);
    }
  }

  lemma {:induction false} FailsIffAll(ps: seq<Pattern>, vs: seq<Value>)
    requires |ps| == |vs|
    ensures TryAll(ps, vs).ok <==> forall i | 0 <= i < |ps| :: Matches(ps[i], vs[i])
    decreases ps, 0
  {
    if ps != [] {
      FailsIff(ps[0], vs[0]);
      FailsIffAll(ps[1..], vs[1..]);
      assert forall i | 1 <= i < |ps| :: ps[i] == ps[1..][i - 1] && vs[i] == vs[1..][i - 1];
    }
  }

  // ----- reading a pattern back -----

  /** The names of a pattern from left to right. */
  function Names(p: Pattern): seq<string>
    decreases p, 1
  {
    if p.Name? then [p.x] else NamesAll(p.ps)
  }

  function NamesAll(ps: seq<Pattern>): seq<string>
    decreases ps, 0
  {
    if ps == [] then [] else Names(ps[0]) + NamesAll(ps[1..])
  }

  /** The values at the places of the names, from left to right. */
  function Leaves(p: Pattern, v: Value): seq<Value>
    requires Matches(p, v)
    decreases p, 1
  {
    if p.Name? then [v] else LeavesAll(p.ps, v.elems)
  }

  function LeavesAll(ps: seq<Pattern>, vs: seq<Value>): seq<Value>
    requires |ps| == |vs| && forall i | 0 <= i < |ps| :: Matches(ps[i], vs[i])
    decreases ps, 0
  {
    if ps == [] then [] else Leaves(ps[0], vs[0]) + LeavesAll(ps[1..], vs[1..])
  }

  /** A successful assignment writes the leaves to the names, pairwise and in order. */
  lemma {:induction false} WritesLeaves(p: Pattern, v: Value)
    requires Matches(p, v)
    ensures Try(p, v).ok && Zipped(Try(p, v).writes, Names(p), Leaves(p, v))
    decreases p, 1
  {
    FailsIff(p, v);
    if !p.Name? { WritesLeavesAll(p.ps, v.elems); }
  }

  predicate Zipped(writes: seq<(string, Value)>, names: seq<string>, values: seq<Value>) {
    |writes| == |names| == |values| && forall i | 0 <= i < |writes| :: writes[i] == (names[i], values[i])
  }

  lemma {:induction false} WritesLeavesAll(ps: seq<Pattern>, vs: seq<Value>)
    requires |ps| == |vs| && forall i | 0 <= i < |ps| :: Matches(ps[i], vs[i])
    ensures TryAll(ps, vs).ok && Zipped(TryAll(ps, vs).writes, NamesAll(ps), LeavesAll(ps, vs))
    decreases ps, 0
  {
    if ps != [] {
      WritesLeaves(ps[0], vs[0]);
      WritesLeavesAll(ps[1..], vs[1..]);
    }
  }

  ghost predicate Distinct(xs: seq<string>) {
    forall i, j | 0 <= i < j < |xs| :: xs[i] != xs[j]
  }

  /** A name that is not written keeps its value. */
  lemma {:induction false} NotWritten(env: Env, writes: seq<(string, Value)>, x: string)
    requires forall i | 0 <= i < |writes| :: writes[i].0 != x
    ensures x in Written(env, writes) <==> x in env
    ensures x in env ==> Written(env, writes)[x] == env[x]
    decreases |writes|
  {
    if writes != [] { NotWritten(env[writes[0].0 := writes[0].1], writes[1..], x); }
  }

  /** The last write of a name stays. */
  lemma {:induction false} LastWrite(env: Env, writes: seq<(string, Value)>, i: nat)
    requires i < |writes| && forall j | i < j < |writes| :: writes[j].0 != writes[i].0
    ensures writes[i].0 in Written(env, writes) && Written(env, writes)[writes[i].0] == writes[i].1
    decreases |writes|
  {
    var env', rest := env[writes[0].0 := writes[0].1], writes[1..];
    if i == 0 { NotWritten(env', rest, writes[0].0); } else { LastWrite(env', rest, i - 1); }
  }

  /** Destructuring and reading back: every name holds its leaf, every other name is as it
      was. */
  lemma RoundTrip(p: Pattern, v: Value, env: Env, k: nat, other: string)
    requires Matches(p, v) && Distinct(Names(p)) && k < |Names(p)| && other !in Names(p)
    ensures |Leaves(p, v)| == |Names(p)|
    ensures var after := Written(env, Try(p, v).writes);
            && Names(p)[k] in after && after[Names(p)[k]] == Leaves(p, v)[k]
            && (other in after <==> other in env) && (other in env ==> after[other] == env[other])
  {
    WritesLeaves(p, v);
    hide Try, Names, Leaves, Written, Matches;
    var writes := Try(p, v).writes;
    LastWrite(env, writes, k);
    NotWritten(env, writes, other);
  }

  /** Parallel assignment to distinct names is simultaneous: each name gets the value its
      right-hand side has before the statement. */
  lemma Simultaneous(xs: seq<string>, rights: seq<Env -> Value>, env: Env, k: nat)
    requires |xs| == |rights| >= 2 && Distinct(xs) && k < |xs|
    ensures var a := TryList(Targets(xs), Values(rights, env));
            var after := Written(env, a.writes);
            a.ok && xs[k] in after && after[xs[k]] == rights[k](env)
  {
    var ps, vs := Targets(xs), Values(rights, env);
    NamesWrite(ps, vs);
    LastWrite(env, TryAll(ps, vs).writes, k);
  }

  function Targets(xs: seq<string>): (ps: seq<Pattern>)
    ensures |ps| == |xs| && forall i | 0 <= i < |xs| :: ps[i] == Name(xs[i])
  {
    seq(|xs|, i requires 0 <= i < |xs| => Name(xs[i]))
  }

  lemma {:induction false} NamesWrite(ps: seq<Pattern>, vs: seq<Value>)
    requires |ps| == |vs| && forall i | 0 <= i < |ps| :: ps[i].Name?
    ensures TryAll(ps, vs).ok && |TryAll(ps, vs).writes| == |ps|
    ensures forall i | 0 <= i < |ps| :: TryAll(ps, vs).writes[i] == (ps[i].x, vs[i])
    decreases |ps|
  {
    if ps != [] {
      NamesWrite(ps[1..], vs[1..]);
    }
  }
}
