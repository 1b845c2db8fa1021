/** Binding call arguments to parameters: positional, keyword and default values. */
module Arguments {

  /** Nil is the null pointer that indexing the default table with an unknown name
      creates. */
  datatype Obj = Nil | Given(v: int) | Tuple(elems: seq<Obj>) | Dict(m: map<string, Obj>)

  datatype BindError = BadCount | Repeated(name: string) | Unexpected(name: string) | NotDefault(name: string)

  datatype Bound = Bound | Failed(e: BindError)

  type Keyword = (string, Obj)

  ghost predicate Distinct(xs: seq<string>) {
    forall i, j | 0 <= i < j < |xs| :: xs[i] != xs[j]
  }

  /** Keyword arguments come out of an unordered table: distinct names, in any order. */
  ghost predicate KeywordsOk(kw: seq<Keyword>) {
    forall i, j | 0 <= i < j < |kw| :: kw[i].0 != kw[j].0
  }

  ghost predicate IsKeyword(kw: seq<Keyword>, x: string) {
    exists j | 0 <= j < |kw| :: kw[j].0 == x
  }

  ghost function KeywordValue(kw: seq<Keyword>, x: string): Obj
    requires IsKeyword(kw, x)
  {
    var j :| 0 <= j < |kw| && kw[j].0 == x;
    kw[j].1
  }

  /** x is the name of a parameter at position from or later. */
  ghost predicate NamesFrom(ps: seq<string>, from: int, x: string) {
    exists i | 0 <= i < |ps| :: from <= i && ps[i] == x
  }

  /** The value the i-th parameter gets. */
  ghost function ValueFor(ps: seq<string>, defaults: map<string, Obj>, pos: seq<Obj>, kw: seq<Keyword>, i: nat): Obj
    requires i < |ps|
  {
    if i < |pos| then pos[i]
    else if IsKeyword(kw, ps[i]) then KeywordValue(kw, ps[i])
    else if ps[i] in defaults then defaults[ps[i]]
    else Nil
  }

  /** The argument count the function accepts. */
  predicate Counted(params: nat, defaults: nat, given: nat) {
    params - defaults <= given <= params
  }

  /** Difference of two sizes in unsigned 64-bit arithmetic. */
  function SizeSub(a: nat, b: nat): (d: nat)
    requires a < 0x1_0000_0000_0000_0000
    ensures b <= a ==> d == a - b
  {
    (a - b) % 0x1_0000_0000_0000_0000
  }

  /** What the positionals alone say about a name in variadic mode. */
  ghost function PositionalValue(ps: seq<string>, pos: seq<Obj>, was: map<string, Obj>, x: string): Obj
    requires 1 <= |ps| <= |pos| + 1
    requires x in ps || x in was
  {
    if x == ps[|ps| - 1] then Tuple(pos[|ps| - 1..])
    else if x in ps then var i :| 0 <= i < |ps| && ps[i] == x; pos[i]
    else was[x]
  }

  /** The value a name has after a variadic call: a default hides a positional. */
  ghost function VariadicValue(ps: seq<string>, defaults: map<string, Obj>, pos: seq<Obj>, kw: seq<Keyword>,
                               was: map<string, Obj>, x: string): Obj
    requires 1 <= |ps| <= |pos| + 1
    requires x in ps || x in was || x in defaults
  {
    if IsKeyword(kw, x) then KeywordValue(kw, x)
    else if x in defaults then defaults[x]
    else PositionalValue(ps, pos, was, x)
  }

  /** How many keywords name one of rs. */
  ghost function CountRegular(rs: seq<string>, kw: seq<Keyword>): nat {
    if kw == [] then 0
    else CountRegular(rs, kw[..|kw| - 1]) + if kw[|kw| - 1].0 in rs then 1 else 0
  }

  /** The keywords that name none of rs. */
  ghost function Extra(rs: seq<string>, kw: seq<Keyword>): map<string, Obj> {
    if kw == [] then map[]
    else
      var e := Extra(rs, kw[..|kw| - 1]);
      var k := kw[|kw| - 1];
      if k.0 in rs then e else e[k.0 := k.1]
  }

  /** The j-th keyword, x, is the first that is no default. */
  ghost predicate Stranger(kw: seq<Keyword>, defaults: map<string, Obj>, x: string, j: int) {
    0 <= j < |kw| && kw[j].0 == x && x !in defaults && forall m | 0 <= m < j :: kw[m].0 in defaults
  }

  /** The j-th keyword, x, is the first that repeats one of the names. */
  ghost predicate Repeats(names: seq<string>, kw: seq<Keyword>, x: string, j: int) {
    0 <= j < |kw| && kw[j].0 == x && x in names && forall m | 0 <= m < j :: kw[m].0 !in names
  }

  class FuncDecl {
    const params: seq<string>
    var defaults: map<string, Obj>
    var table: map<string, Obj>

    constructor (params: seq<string>, defaults: map<string, Obj>)
      ensures this.params == params && this.defaults == defaults && table == map[]
    {
      this.params := params;
      this.defaults := defaults;
      table := map[];
    }

    method InInterval(x: string, begin: nat, end: nat) returns (found: bool)
      requires end <= |params|
      ensures found <==> exists i :: begin <= i < end && params[i] == x
    {
      var i := begin;
      while i < end
        invariant begin <= i
        invariant forall j :: begin <= j < i && j < end ==> params[j] != x
      {
        if params[i] == x {
          return true;
        }
        i := i + 1;
      }
      found := false;
    }

    /** The first position that carries the name, or -1. */
    method PositionOf(x: string, end: nat) returns (p: int)
      requires end <= |params|
      ensures -1 <= p < end
      ensures p >= 0 ==> params[p] == x && forall j :: 0 <= j < p ==> params[j] != x
      ensures p < 0 ==> forall j :: 0 <= j < end ==> params[j] != x
    {
      p := 0;
      while p < end
        invariant 0 <= p <= end
        invariant forall j :: 0 <= j < p ==> params[j] != x
      {
        if params[p] == x {
          return;
        }
        p := p + 1;
      }
      p := -1;
    }

    /** The filled ones among the first parameters are those given by position or keyword,
        and the table holds their values. */
    ghost predicate Filled(fill: array<bool>, pos: seq<Obj>, kw: seq<Keyword>)
      reads this, fill
    {
      && fill.Length <= |params|
      && (forall m | 0 <= m < fill.Length :: fill[m] <==> m < |pos| || IsKeyword(kw, params[m]))
      && forall m | 0 <= m < fill.Length && fill[m] ::
           params[m] in table && table[params[m]] == ValueFor(params, defaults, pos, kw, m)
    }

    /** Two tables agree on the names that are not parameters. */
    ghost predicate OtherNames(was: map<string, Obj>)
      reads this`table
    {
      forall x | x !in params :: (x in table <==> x in was) && (x in was ==> table[x] == was[x])
    }

    /** Each of the first n parameters has the value the call and the defaults give it. */
    ghost predicate AllBound(n: nat, defs: map<string, Obj>, pos: seq<Obj>, kw: seq<Keyword>)
      reads this`table
      requires n <= |params|
    {
      forall m | 0 <= m < n :: params[m] in table && table[params[m]] == ValueFor(params, defs, pos, kw, m)
    }

    /** Positionals reach the parameters in order, keywords the parameters they name; what
        neither supplies has its default, or null when it had none. */
    ghost predicate Delivered(n: nat, defs: map<string, Obj>, pos: seq<Obj>, kw: seq<Keyword>)
      reads this`table
      requires |pos| <= n <= |params|
    {
      && (forall i | 0 <= i < |pos| :: params[i] in table && table[params[i]] == pos[i])
      && (forall j | 0 <= j < |kw| && kw[j].0 in params[..n] :: kw[j].0 in table && table[kw[j].0] == kw[j].1)
      && (forall i | |pos| <= i < n && (forall j | 0 <= j < |kw| :: kw[j].0 != params[i]) ::
            params[i] in table && table[params[i]] == if params[i] in defs then defs[params[i]] else Nil)
    }

    lemma BoundDelivers(n: nat, defs: map<string, Obj>, pos: seq<Obj>, kw: seq<Keyword>)
      requires |pos| <= n <= |params| && KeywordsOk(kw) && AllBound(n, defs, pos, kw)
      requires forall j | 0 <= j < |kw| :: kw[j].0 !in params[..|pos|]
      ensures Delivered(n, defs, pos, kw)
    {
      assert forall i | 0 <= i < |pos| :: params[..|pos|][i] == params[i];
      forall j | 0 <= j < |kw| && kw[j].0 in params[..n]
        ensures kw[j].0 in table && table[kw[j].0] == kw[j].1
      {
        var i :| 0 <= i < n && params[..n][i] == kw[j].0;
        assert IsKeyword(kw, params[i]);
      }
    }

    lemma FitApart(pos: seq<Obj>, kw: seq<Keyword>)
      requires Distinct(params) && |pos| <= |params| && KeywordsFit(params, pos, kw)
      ensures forall j | 0 <= j < |kw| :: kw[j].0 !in params[..|pos|]
    {
      forall j | 0 <= j < |kw| ensures kw[j].0 !in params[..|pos|] {
        assert NamesFrom(params, |pos|, kw[j].0);
      }
    }

    /** The error names the first keyword that does not name a parameter after the
        positionals: it repeats a positional, or names no parameter. */
    ghost predicate Blames(pos: seq<Obj>, kw: seq<Keyword>, e: BindError)
      requires |pos| <= |params|
    {
      exists j :: BlamesAt(pos, kw, e, j)
    }

    ghost predicate BlamesAt(pos: seq<Obj>, kw: seq<Keyword>, e: BindError, j: int)
      requires |pos| <= |params|
    {
      && 0 <= j < |kw|
      && (forall m | 0 <= m < j :: NamesFrom(params, |pos|, kw[m].0))
      && match e
         case Repeated(x) => x == kw[j].0 && x in params[..|pos|]
         case Unexpected(x) => x == kw[j].0 && x !in params
         case _ => false
    }

    /** HandleSimpleArguments. */
    method HandleSimple(pos: seq<Obj>, kw: seq<Keyword>) returns (r: Bound)
      requires Distinct(params) && KeywordsOk(kw) && |params| < 0x1_0000_0000_0000_0000
      requires forall x | x in defaults :: x in params
      modifies this
      ensures r.Bound? <==> Accepted(params, old(defaults), pos, kw)
      ensures r.Bound? ==> AllBound(|params|, old(defaults), pos, kw)
      ensures r.Bound? ==> |pos| <= |params| && Delivered(|params|, old(defaults), pos, kw)
      ensures OtherNames(old(table))
      ensures r == Failed(BadCount) <==> !Counted(|params|, |old(defaults)|, |pos| + |kw|)
      ensures r.Failed? && r.e != BadCount ==> Blames(pos, kw, r.e)
      ensures defaults == AfterCall(params, old(defaults), pos, kw)
    {
      hide ValueFor, IsKeyword, NamesFrom, Distinct, KeywordsOk, Unfilled, SizeSub, Filled, AllBound, Missing,
           FuncDecl.Delivered;
      DefaultsFit(params, defaults);
      var given := |pos| + |kw|;
      if given < SizeSub(|params|, |defaults|) || given > |params| {
        return Failed(BadCount);
      }
      assert Counted(|params|, |old(defaults)|, |pos| + |kw|);
      var fill := new bool[|params|](_ => false);
      BindPositional(pos, fill);
      r := BindKeywords(pos, kw, fill);
      if r.Bound? {
        Complete(pos, kw, fill);
        FitApart(pos, kw);
        BoundDelivers(|params|, old(defaults), pos, kw);
      }
    }

    /** The two last loops. */
    method Complete(pos: seq<Obj>, kw: seq<Keyword>, fill: array<bool>)
      requires Distinct(params) && Filled(fill, pos, kw) && |pos| <= fill.Length == |params|
      requires forall x | x in defaults :: x in params
      modifies this, fill
      ensures AllBound(|params|, old(defaults), pos, kw) && OtherNames(old(table))
      ensures defaults == WithNulls(old(defaults), Missing(params, old(defaults), pos, kw))
    {
      hide ValueFor, IsKeyword, Distinct, Unfilled, Filled, AllBound, Missing;
      assert params[..fill.Length] == params;
      FillRest(pos, kw, fill);
      StillNames(params, old(defaults), pos, kw);
      NoneUnfilled(fill[..]);
      label filled:
      RefillDefaults(fill);
      assert table == old@filled(table);
    }

    method BindPositional(pos: seq<Obj>, fill: array<bool>)
      requires Distinct(params) && |pos| <= fill.Length <= |params|
      requires forall m | 0 <= m < fill.Length :: !fill[m]
      modifies this`table, fill
      ensures Filled(fill, pos, []) && OtherNames(old(table))
    {
      var i := 0;
      while i < |pos|
        invariant 0 <= i <= |pos|
        invariant forall m | 0 <= m < fill.Length :: fill[m] <==> m < i
        invariant forall m | 0 <= m < i :: params[m] in table && table[params[m]] == pos[m]
        invariant OtherNames(old(table))
      {
        table := table[params[i] := pos[i]];
        fill[i] := true;
        i := i + 1;
      }
    }

    /** Binds one keyword to the parameter it names and marks that parameter filled. */
    method PutKeyword(pos: seq<Obj>, kw: seq<Keyword>, j: nat, p: nat, fill: array<bool>, ghost was: map<string, Obj>)
      requires Distinct(params) && KeywordsOk(kw) && j < |kw| && |pos| <= p < fill.Length
      requires Filled(fill, pos, kw[..j]) && params[p] == kw[j].0 && OtherNames(was)
      modifies this`table, fill
      ensures Filled(fill, pos, kw[..j + 1]) && OtherNames(was)
    {
      hide ValueFor, KeywordsOk, IsKeyword;
      KeywordStep(params, defaults, pos, kw, j);
      table := table[kw[j].0 := kw[j].1];
      fill[p] := true;
    }

    method BindKeywords(pos: seq<Obj>, kw: seq<Keyword>, fill: array<bool>) returns (r: Bound)
      requires Distinct(params) && KeywordsOk(kw) && |pos| <= |params| == fill.Length && Filled(fill, pos, [])
      modifies this`table, fill
      ensures OtherNames(old(table))
      ensures r.Bound? ==> Filled(fill, pos, kw)
      ensures r.Bound? <==> forall j | 0 <= j < |kw| :: NamesFrom(params, |pos|, kw[j].0)
      ensures r.Failed? ==> Blames(pos, kw, r.e)
    {
      assert kw[..0] == [] && OtherNames(table);
      hide ValueFor, KeywordsOk, IsKeyword, OtherNames;
      var j := 0;
      while j < |kw|
        invariant 0 <= j <= |kw|
        invariant Filled(fill, pos, kw[..j]) && OtherNames(old(table))
        invariant forall m | 0 <= m < j :: NamesFrom(params, |pos|, kw[m].0)
      {
        var x := kw[j].0;
        KeywordStep(params, defaults, pos, kw, j);
        var early := InInterval(x, 0, |pos|);
        if early {
          assert !NamesFrom(params, |pos|, x);
          assert BlamesAt(pos, kw, Repeated(x), j);
          return Failed(Repeated(x));
        }
        var known := InInterval(x, 0, |params|);
        if !known {
          assert BlamesAt(pos, kw, Unexpected(x), j);
          return Failed(Unexpected(x));
        }
        var p := PositionOf(x, |params|);
        assert NamesFrom(params, |pos|, x);
        PutKeyword(pos, kw, j, p, fill, old(table));
        j := j + 1;
      }
      assert kw[..j] == kw;
      r := Bound;
    }

    /** Every parameter that is still empty takes its default. */
    method FillRest(pos: seq<Obj>, kw: seq<Keyword>, fill: array<bool>)
      requires Distinct(params) && Filled(fill, pos, kw) && |pos| <= fill.Length
      modifies this, fill
      ensures AllBound(fill.Length, old(defaults), pos, kw) && OtherNames(old(table))
      ensures forall m | 0 <= m < fill.Length :: fill[m]
      ensures defaults == WithNulls(old(defaults), Missing(params[..fill.Length], old(defaults), pos, kw))
    {
      hide ValueFor, IsKeyword, Filled, Distinct, Missing, OtherNames, WithNulls, EmptyBelow, Holds, AllBound;
      FilledHolds(fill, pos, kw);
      ghost var was := fill[..];
      StartEmpty(params, old(defaults), was);
      var i := 0;
      while i < fill.Length
        invariant 0 <= i <= fill.Length
        invariant forall m | i <= m < fill.Length :: fill[m] == was[m]
        invariant forall m | 0 <= m < i :: fill[m]
        invariant Holds(fill, old(defaults), pos, kw) && OtherNames(old(table))
        invariant defaults == WithNulls(old(defaults), EmptyBelow(params, was, i))
      {
        EmptyStep(params, was, i);
        if !fill[i] {
          NotYet(params, old(defaults), was, i);
          TakeDefault(i, old(defaults), pos, kw, fill, old(table));
        }
        i := i + 1;
      }
      AllHold(fill, old(defaults), pos, kw);
      EmptyMissing(params, old(defaults), pos, kw, was);
    }

    /** The table holds the values of the filled ones among the first parameters. */
    ghost predicate Holds(fill: array<bool>, defs: map<string, Obj>, pos: seq<Obj>, kw: seq<Keyword>)
      reads this`table, fill
    {
      && fill.Length <= |params|
      && forall m | 0 <= m < fill.Length && fill[m] ::
           params[m] in table && table[params[m]] == ValueFor(params, defs, pos, kw, m)
    }

    lemma FilledHolds(fill: array<bool>, pos: seq<Obj>, kw: seq<Keyword>)
      requires Filled(fill, pos, kw)
      ensures Holds(fill, defaults, pos, kw) && OtherNames(table) && fill.Length <= |params|
      ensures forall m | 0 <= m < fill.Length :: !fill[m] <==> m >= |pos| && !IsKeyword(kw, params[m])
    {
    }

    lemma AllHold(fill: array<bool>, defs: map<string, Obj>, pos: seq<Obj>, kw: seq<Keyword>)
      requires Holds(fill, defs, pos, kw) && forall m | 0 <= m < fill.Length :: fill[m]
      ensures AllBound(fill.Length, defs, pos, kw)
    {
    }

    method TakeDefault(i: nat, ghost defs: map<string, Obj>, ghost pos: seq<Obj>, ghost kw: seq<Keyword>,
                       fill: array<bool>, ghost was: map<string, Obj>)
      requires Distinct(params) && |pos| <= i < fill.Length <= |params| && !fill[i] && !IsKeyword(kw, params[i])
      requires Holds(fill, defs, pos, kw) && OtherNames(was)
      requires params[i] in defaults <==> params[i] in defs
      requires params[i] in defs ==> defaults[params[i]] == defs[params[i]]
      modifies this`defaults, this`table, fill
      ensures Holds(fill, defs, pos, kw) && OtherNames(was)
      ensures fill[i] && forall m | 0 <= m < fill.Length && m != i :: fill[m] == old(fill[m])
      ensures defaults == if params[i] in old(defaults) then old(defaults) else old(defaults)[params[i] := Nil]
    {
      hide ValueFor, IsKeyword, Distinct;
      LeftToDefault(params, defs, pos, kw, i);
      OnlyOne(params, i);
      var v := DefaultOf(params[i]);
      table := table[params[i] := v];
      fill[i] := true;
    }

    /** The defaults the last loop writes again: those whose parameter is not filled. */
    ghost function Unfilled(fill: seq<bool>): (names: set<string>)
      reads this`defaults
      requires |fill| == |params|
    {
      set x | x in defaults && forall m | 0 <= m < |params| && params[m] == x :: !fill[m]
    }

    lemma NoneUnfilled(fill: seq<bool>)
      requires |fill| == |params| && forall m | 0 <= m < |params| :: fill[m]
      requires forall x | x in defaults :: x in params
      ensures Unfilled(fill) == {}
    {
      assert forall x | x in defaults :: exists m :: 0 <= m < |params| && params[m] == x && fill[m];
    }

    lemma FirstDecides(fill: seq<bool>, x: string, p: int)
      requires |fill| == |params| && Distinct(params) && x in defaults && -1 <= p < |params|
      requires if p < 0 then x !in params else params[p] == x
      ensures x in Unfilled(fill) <==> p < 0 || !fill[p]
    {
    }

    /** The last loop, over an unordered table. */
    method RefillDefaults(fill: array<bool>)
      requires fill.Length == |params| && Distinct(params)
      modifies this`table
      ensures table.Keys == old(table).Keys + Unfilled(fill[..])
      ensures forall x | x in table :: table[x] == if x in Unfilled(fill[..]) then defaults[x] else old(table)[x]
      ensures Unfilled(fill[..]) == {} ==> table == old(table)
    {
      hide Distinct;
      ghost var todo := Unfilled(fill[..]);
      hide Unfilled;
      var names := defaults.Keys;
      while names != {}
        invariant names <= defaults.Keys
        invariant todo == {} ==> table == old(table)
        invariant table.Keys == old(table).Keys + (todo - names)
        invariant forall x | x in table :: table[x] == if x in todo - names then defaults[x] else old(table)[x]
        decreases |names|
      {
        var x :| x in names;
        var p := PositionOf(x, |params|);
        FirstDecides(fill[..], x, p);
        if p < 0 || !fill[p] {
          table := table[x := defaults[x]];
        }
        names := names - {x};
      }
    }

    /** HandleVariadicArguments: the last parameter takes the positionals that are left. */
    method HandleVariadic(pos: seq<Obj>, kw: seq<Keyword>) returns (r: Bound)
      requires |params| >= 1 && Distinct(params) && KeywordsOk(kw)
      modifies this`table
      ensures r.Bound? <==> |pos| >= |params| - 1 && forall j | 0 <= j < |kw| :: kw[j].0 in defaults
      ensures r == Failed(BadCount) <==> |pos| < |params| - 1
      ensures r.Failed? && r.e != BadCount ==> r.e.NotDefault? && exists j :: Stranger(kw, defaults, r.e.name, j)
      ensures r.Bound? ==> table.Keys == old(table).Keys + defaults.Keys + set x | x in params
      ensures r.Bound? ==> forall x | x in table ::
                table[x] == VariadicValue(params, defaults, pos, kw, old(table), x)
      ensures r.Bound? ==> DeliveredVariadic(pos, kw, old(table))
    {
      hide Distinct, KeywordsOk;
      if |pos| < |params| - 1 {
        return Failed(BadCount);
      }
      BindRegular(pos);
      var rest := Remaining(pos);
      table := table[params[|params| - 1] := Tuple(rest)];
      ghost var bound := table;
      assert forall x | x in bound :: bound[x] == PositionalValue(params, pos, old(table), x);
      WriteDefaults();
      r := WriteKeywords(kw);
      if r.Bound? {
        VariadicDelivers(pos, kw, old(table));
      }
    }

    /** A keyword has its value and another default its own; of the other names a parameter
        has its positional, the last one the positionals left, and the rest is unchanged. */
    ghost predicate DeliveredVariadic(pos: seq<Obj>, kw: seq<Keyword>, was: map<string, Obj>)
      reads this
      requires 1 <= |params| <= |pos| + 1
    {
      && (forall j | 0 <= j < |kw| :: kw[j].0 in table && table[kw[j].0] == kw[j].1)
      && (forall x | x in defaults && (forall j | 0 <= j < |kw| :: kw[j].0 != x) ::
            x in table && table[x] == defaults[x])
      && (forall i | 0 <= i < |params| - 1 && params[i] !in defaults ::
            params[i] in table && table[params[i]] == pos[i])
      && (params[|params| - 1] !in defaults ==>
            params[|params| - 1] in table && table[params[|params| - 1]] == Tuple(pos[|params| - 1..]))
      && forall x | x !in params && x !in defaults :: (x in table <==> x in was) && (x in was ==> table[x] == was[x])
    }

    lemma VariadicDelivers(pos: seq<Obj>, kw: seq<Keyword>, was: map<string, Obj>)
      requires 1 <= |params| <= |pos| + 1 && Distinct(params) && KeywordsOk(kw)
      requires forall j | 0 <= j < |kw| :: kw[j].0 in defaults
      requires table.Keys == was.Keys + defaults.Keys + set x | x in params
      requires forall x | x in table :: table[x] == VariadicValue(params, defaults, pos, kw, was, x)
      ensures DeliveredVariadic(pos, kw, was)
    {
      forall j | 0 <= j < |kw| ensures kw[j].0 in table && table[kw[j].0] == kw[j].1 {
        assert IsKeyword(kw, kw[j].0);
      }
    }

    method Remaining(pos: seq<Obj>) returns (rest: seq<Obj>)
      requires 1 <= |params| <= |pos| + 1
      ensures rest == pos[|params| - 1..]
    {
      rest := [];
      var i := |params| - 1;
      while i < |pos|
        invariant |params| - 1 <= i <= |pos| && rest == pos[|params| - 1..i]
      {
        rest := rest + [pos[i]];
        i := i + 1;
      }
    }

    method BindRegular(pos: seq<Obj>)
      requires |params| >= 1 && Distinct(params) && |pos| >= |params| - 1
      modifies this`table
      ensures forall i | 0 <= i < |params| - 1 :: params[i] in table && table[params[i]] == pos[i]
      ensures forall x :: x in table <==> x in old(table) || x in params[..|params| - 1]
      ensures forall x | x in old(table) && x !in params[..|params| - 1] :: table[x] == old(table)[x]
    {
      var i := 0;
      while i < |params| - 1
        invariant 0 <= i <= |params| - 1
        invariant forall m | 0 <= m < i :: params[m] in table && table[params[m]] == pos[m]
        invariant forall x :: x in table <==> x in old(table) || x in params[..i]
        invariant forall x | x in old(table) && x !in params[..i] :: table[x] == old(table)[x]
      {
        assert params[..i + 1] == params[..i] + [params[i]];
        table := table[params[i] := pos[i]];
        i := i + 1;
      }
    }

    method WriteDefaults()
      modifies this`table
      ensures table == old(table) + defaults
    {
      var names := defaults.Keys;
      while names != {}
        invariant names <= defaults.Keys && table.Keys == old(table).Keys + (defaults.Keys - names)
        invariant forall x | x in table :: table[x] == if x in defaults.Keys - names then defaults[x] else old(table)[x]
        decreases |names|
      {
        var x :| x in names;
        table := table[x := defaults[x]];
        names := names - {x};
      }
    }

    method WriteKeywords(kw: seq<Keyword>) returns (r: Bound)
      requires KeywordsOk(kw) && defaults.Keys <= table.Keys
      modifies this`table
      ensures r.Bound? <==> forall j | 0 <= j < |kw| :: kw[j].0 in defaults
      ensures r.Failed? ==> r.e.NotDefault? && exists j :: Stranger(kw, defaults, r.e.name, j)
      ensures table.Keys == old(table).Keys
      ensures r.Bound? ==> forall x | x in table ::
                table[x] == if IsKeyword(kw, x) then KeywordValue(kw, x) else old(table)[x]
    {
      var j := 0;
      while j < |kw|
        invariant 0 <= j <= |kw| && table.Keys == old(table).Keys
        invariant forall m | 0 <= m < j :: kw[m].0 in defaults && table[kw[m].0] == kw[m].1
        invariant forall x | x in table && (forall m | 0 <= m < j :: kw[m].0 != x) :: table[x] == old(table)[x]
      {
        if kw[j].0 !in defaults {
          assert Stranger(kw, defaults, kw[j].0, j);
          return Failed(NotDefault(kw[j].0));
        }
        table := table[kw[j].0 := kw[j].1];
        j := j + 1;
      }
      r := Bound;
    }

    /** HandleKwargsArguments: the last parameter takes the keywords that name no other. */
    method HandleKwargs(pos: seq<Obj>, kw: seq<Keyword>) returns (r: Bound)
      requires 1 <= |params| < 0x1_0000_0000_0000_0000 && Distinct(params) && KeywordsOk(kw)
      requires |pos| <= |params| - 1
      modifies this
      ensures defaults == if r.Failed? then old(defaults)
                          else WithNulls(old(defaults), Missing(params[..|params| - 1], old(defaults), pos, kw))
      ensures r == Failed(BadCount) <==>
              |pos| + CountRegular(params[..|params| - 1], kw) < SizeSub(|params| - 1, |old(defaults)|)
      ensures r.Failed? && r.e != BadCount ==> r.e.Repeated? && exists j :: Repeats(params[..|pos|], kw, r.e.name, j)
      ensures r.Bound? ==> forall j | 0 <= j < |kw| :: kw[j].0 !in params[..|pos|]
      ensures r.Bound? ==> AllBound(|params| - 1, old(defaults), pos, kw)
      ensures r.Bound? ==> Delivered(|params| - 1, old(defaults), pos, kw)
      ensures r.Bound? ==> params[|params| - 1] in table
                           && table[params[|params| - 1]] == Dict(Extra(params[..|params| - 1], kw))
      ensures OtherNames(old(table))
    {
      hide ValueFor, IsKeyword, KeywordsOk, SizeSub, Distinct, Extra, CountRegular, Filled, Missing, WithNulls,
           FuncDecl.Delivered;
      var n := |params| - 1;
      var named := CountNamed(kw);
      if |pos| + named < SizeSub(n, |defaults|) {
        return Failed(BadCount);
      }
      var fill := new bool[n](_ => false);
      BindPositional(pos, fill);
      var extra;
      r, extra := SplitKeywords(pos, kw, fill);
      if r.Bound? {
        FillRest(pos, kw, fill);
        StoreExtra(old(defaults), pos, kw, extra);
        BoundDelivers(n, old(defaults), pos, kw);
      }
    }

    method StoreExtra(ghost defs: map<string, Obj>, ghost pos: seq<Obj>, ghost kw: seq<Keyword>,
                      extra: map<string, Obj>)
      requires |params| >= 1 && Distinct(params)
      modifies this`table
      ensures old(AllBound(|params| - 1, defs, pos, kw)) ==> AllBound(|params| - 1, defs, pos, kw)
      ensures params[|params| - 1] in table && table[params[|params| - 1]] == Dict(extra)
      ensures OtherNames(old(table))
    {
      hide ValueFor;
      table := table[params[|params| - 1] := Dict(extra)];
    }

    method CountNamed(kw: seq<Keyword>) returns (named: nat)
      requires |params| >= 1
      ensures named == CountRegular(params[..|params| - 1], kw)
    {
      var rs := params[..|params| - 1];
      named := 0;
      var j := 0;
      while j < |kw|
        invariant 0 <= j <= |kw| && named == CountRegular(rs, kw[..j])
      {
        assert kw[..j + 1][..j] == kw[..j];
        var p := PositionOf(kw[j].0, |params| - 1);
        assert kw[j].0 in rs <==> p >= 0 by {
          if p >= 0 { assert rs[p] == kw[j].0; }
        }
        if p >= 0 {
          named := named + 1;
        }
        j := j + 1;
      }
      assert kw[..j] == kw;
    }

    method SplitKeywords(pos: seq<Obj>, kw: seq<Keyword>, fill: array<bool>)
      returns (r: Bound, extra: map<string, Obj>)
      requires 1 <= |params| && Distinct(params) && KeywordsOk(kw) && fill.Length == |params| - 1
      requires |pos| <= fill.Length && Filled(fill, pos, [])
      modifies this`table, fill
      ensures OtherNames(old(table))
      ensures r.Bound? <==> forall j | 0 <= j < |kw| :: kw[j].0 !in params[..|pos|]
      ensures r.Bound? ==> Filled(fill, pos, kw) && extra == Extra(params[..|params| - 1], kw)
      ensures r.Failed? ==> r.e.Repeated? && exists j :: Repeats(params[..|pos|], kw, r.e.name, j)
    {
      ghost var rs := params[..|params| - 1];
      assert kw[..0] == [] && Extra(rs, []) == map[] && OtherNames(table);
      hide ValueFor, KeywordsOk, IsKeyword, Distinct, Extra, OtherNames;
      extra := map[];
      var j := 0;
      while j < |kw|
        invariant 0 <= j <= |kw|
        invariant Filled(fill, pos, kw[..j]) && OtherNames(old(table))
        invariant forall m | 0 <= m < j :: kw[m].0 !in params[..|pos|]
        invariant extra == Extra(rs, kw[..j])
      {
        var x := kw[j].0;
        KeywordStep(params, defaults, pos, kw, j);
        ExtraStep(rs, kw, j);
        var p := PositionOf(x, |params| - 1);
        InPrefix(params, |params| - 1, x, p);
        if p >= 0 {
          FreshKeyword(params, pos, kw, j, p);
          if fill[p] {
            assert x in params[..|pos|];
            assert Repeats(params[..|pos|], kw, x, j);
            return Failed(Repeated(x)), extra;
          }
          PutKeyword(pos, kw, j, p, fill, old(table));
        } else {
          extra := extra[x := kw[j].1];
        }
        j := j + 1;
      }
      assert kw[..j] == kw;
      r := Bound;
    }

    /** GetDefaultParam: indexing creates a null entry for an unknown name. */
    method DefaultOf(x: string) returns (v: Obj)
      modifies this`defaults
      ensures v == if x in old(defaults) then old(defaults)[x] else Nil
      ensures defaults == if x in old(defaults) then old(defaults) else old(defaults)[x := Nil]
    {
      if x !in defaults {
        defaults := defaults[x := Nil];
      }
      v := defaults[x];
    }
  }

  /** Indexing the default table with names leaves a null entry for the unknown ones. */
  ghost function WithNulls(defaults: map<string, Obj>, names: set<string>): (d: map<string, Obj>) {
    map x | x in defaults.Keys + names :: if x in defaults then defaults[x] else Nil
  }

  /** The empty ones among the first n parameters. */
  ghost function EmptyBelow(ps: seq<string>, fill: seq<bool>, n: nat): set<string>
    requires n <= |fill| <= |ps|
  {
    set m | 0 <= m < n && !fill[m] :: ps[m]
  }

  lemma EmptyStep(ps: seq<string>, fill: seq<bool>, n: nat)
    requires n < |fill| <= |ps|
    ensures EmptyBelow(ps, fill, n + 1) ==
            if fill[n] then EmptyBelow(ps, fill, n) else EmptyBelow(ps, fill, n) + {ps[n]}
  {
  }

  lemma StartEmpty(ps: seq<string>, defaults: map<string, Obj>, fill: seq<bool>)
    requires |fill| <= |ps|
    ensures WithNulls(defaults, EmptyBelow(ps, fill, 0)) == defaults
  {
  }

  /** The table when the n-th parameter, an empty one, is looked up. */
  lemma NotYet(ps: seq<string>, defaults: map<string, Obj>, fill: seq<bool>, n: nat)
    requires Distinct(ps) && n < |fill| <= |ps| && !fill[n]
    ensures var d := WithNulls(defaults, EmptyBelow(ps, fill, n));
            && (ps[n] in d <==> ps[n] in defaults) && (ps[n] in d ==> d[ps[n]] == defaults[ps[n]])
            && WithNulls(defaults, EmptyBelow(ps, fill, n + 1)) == if ps[n] in d then d else d[ps[n] := Nil]
  {
    EmptyStep(ps, fill, n);
  }

  lemma EmptyMissing(ps: seq<string>, defaults: map<string, Obj>, pos: seq<Obj>, kw: seq<Keyword>, fill: seq<bool>)
    requires Distinct(ps) && |pos| <= |fill| <= |ps|
    requires forall m | 0 <= m < |fill| :: !fill[m] <==> m >= |pos| && !IsKeyword(kw, ps[m])
    ensures WithNulls(defaults, EmptyBelow(ps, fill, |fill|)) ==
            WithNulls(defaults, Missing(ps[..|fill|], defaults, pos, kw))
  {
    var qs := ps[..|fill|];
    forall x | x !in defaults
      ensures x in EmptyBelow(ps, fill, |fill|) <==> x in Missing(qs, defaults, pos, kw)
    {
      assert forall i | 0 <= i < |pos| :: qs[..|pos|][i] == ps[i];
      IsName(kw, x);
      if x in EmptyBelow(ps, fill, |fill|) {
        var m :| 0 <= m < |fill| && !fill[m] && ps[m] == x;
        assert qs[m] == x;
      }
      if x in Missing(qs, defaults, pos, kw) {
        var m :| 0 <= m < |qs| && qs[m] == x;
        assert !fill[m];
      }
    }
  }

  lemma StillNames(ps: seq<string>, defaults: map<string, Obj>, pos: seq<Obj>, kw: seq<Keyword>)
    requires |pos| <= |ps| && forall x | x in defaults :: x in ps
    ensures forall x | x in WithNulls(defaults, Missing(ps, defaults, pos, kw)) :: x in ps
  {
  }

  lemma IsName(kw: seq<Keyword>, x: string)
    ensures x in KeywordNames(kw) <==> IsKeyword(kw, x)
  {
  }

  lemma OnlyOne(ps: seq<string>, i: nat)
    requires Distinct(ps) && i < |ps|
    ensures forall m | 0 <= m < |ps| && m != i :: ps[m] != ps[i]
  {
  }

  lemma LeftToDefault(ps: seq<string>, defaults: map<string, Obj>, pos: seq<Obj>, kw: seq<Keyword>, i: nat)
    requires |pos| <= i < |ps| && !IsKeyword(kw, ps[i])
    ensures ValueFor(ps, defaults, pos, kw, i) == if ps[i] in defaults then defaults[ps[i]] else Nil
  {
  }

  lemma InPrefix(ps: seq<string>, n: nat, x: string, p: int)
    requires n <= |ps| && -1 <= p < n
    requires if p >= 0 then ps[p] == x else forall j | 0 <= j < n :: ps[j] != x
    ensures x in ps[..n] <==> p >= 0
  {
    if p >= 0 { assert ps[..n][p] == x; }
  }

  lemma FreshKeyword(ps: seq<string>, pos: seq<Obj>, kw: seq<Keyword>, j: nat, p: nat)
    requires Distinct(ps) && KeywordsOk(kw) && j < |kw| && p < |ps| && ps[p] == kw[j].0 && |pos| <= |ps|
    ensures !IsKeyword(kw[..j], kw[j].0)
    ensures kw[j].0 in ps[..|pos|] <==> p < |pos|
    ensures forall m | 0 <= m < |ps| && m != p :: ps[m] != kw[j].0
  {
    if p < |pos| { assert ps[..|pos|][p] == ps[p]; }
  }

  lemma ExtraStep(rs: seq<string>, kw: seq<Keyword>, j: nat)
    requires j < |kw|
    ensures Extra(rs, []) == map[]
    ensures Extra(rs, kw[..j + 1]) ==
            if kw[j].0 in rs then Extra(rs, kw[..j]) else Extra(rs, kw[..j])[kw[j].0 := kw[j].1]
  {
    assert kw[..j + 1][..j] == kw[..j];
  }

  /** One more keyword: it fills the parameter it names and no other. */
  lemma KeywordStep(ps: seq<string>, defaults: map<string, Obj>, pos: seq<Obj>, kw: seq<Keyword>, j: nat)
    requires KeywordsOk(kw) && j < |kw|
    ensures forall x :: IsKeyword(kw[..j + 1], x) <==> IsKeyword(kw[..j], x) || x == kw[j].0
    ensures forall m | 0 <= m < |ps| && (m < |pos| || IsKeyword(kw[..j], ps[m])) ::
              ValueFor(ps, defaults, pos, kw[..j + 1], m) == ValueFor(ps, defaults, pos, kw[..j], m)
    ensures forall m | |pos| <= m < |ps| && ps[m] == kw[j].0 :: ValueFor(ps, defaults, pos, kw[..j + 1], m) == kw[j].1
    ensures IsKeyword(kw, kw[j].0)
  {
    var a, b := kw[..j], kw[..j + 1];
    assert b[j] == kw[j];
    forall x ensures IsKeyword(b, x) <==> IsKeyword(a, x) || x == kw[j].0
             ensures IsKeyword(a, x) ==> KeywordValue(b, x) == KeywordValue(a, x)
    {
      if IsKeyword(a, x) {
        var m :| 0 <= m < |a| && a[m].0 == x;
        assert b[m].0 == x;
      }
      if IsKeyword(b, x) {
        var m :| 0 <= m < |b| && b[m].0 == x;
        if m < j { assert a[m].0 == x; }
      }
    }
  }

  // ----- counting -----

  lemma {:induction false} SetSize(xs: seq<string>)
    requires Distinct(xs)
    ensures |set x | x in xs| == |xs|
  {
    var all := set x | x in xs;
    if xs == [] {
      assert all == {};
    } else {
      SetSize(xs[1..]);
      var rest := set x | x in xs[1..];
      assert xs[0] !in rest;
      assert all == {xs[0]} + rest;
    }
  }

  lemma {:induction false} SubsetSize(a: set<string>, b: set<string>)
    requires a <= b
    ensures |a| <= |b|
  {
    if a != {} {
      var x :| x in a;
      SubsetSize(a - {x}, b - {x});
    }
  }

  lemma DefaultsFit(ps: seq<string>, defaults: map<string, Obj>)
    requires Distinct(ps) && forall x | x in defaults :: x in ps
    ensures |defaults| <= |ps|
  {
    SetSize(ps);
    SubsetSize(defaults.Keys, set x | x in ps);
    assert |defaults.Keys| == |defaults|;
  }

  // ----- when a call is accepted -----

  /** The parameters a call supplies by position or by keyword. */
  ghost function Supplied(ps: seq<string>, pos: seq<Obj>, kw: seq<Keyword>): set<string>
    requires |pos| <= |ps|
  {
    (set x | x in ps[..|pos|]) + KeywordNames(kw)
  }

  ghost function KeywordNames(kw: seq<Keyword>): set<string> {
    set j | 0 <= j < |kw| :: kw[j].0
  }

  /** The parameters without default that a call leaves out. */
  ghost function Missing(ps: seq<string>, defaults: map<string, Obj>, pos: seq<Obj>, kw: seq<Keyword>): set<string>
    requires |pos| <= |ps|
  {
    set x | x in ps && x !in Supplied(ps, pos, kw) && x !in defaults
  }

  ghost predicate KeywordsFit(ps: seq<string>, pos: seq<Obj>, kw: seq<Keyword>) {
    forall j | 0 <= j < |kw| :: NamesFrom(ps, |pos|, kw[j].0)
  }

  /** The call binds, given the defaults as they are now. */
  ghost predicate Accepted(ps: seq<string>, defaults: map<string, Obj>, pos: seq<Obj>, kw: seq<Keyword>) {
    Counted(|ps|, |defaults|, |pos| + |kw|) && KeywordsFit(ps, pos, kw)
  }

  /** The default table as a call leaves it. */
  ghost function AfterCall(ps: seq<string>, defaults: map<string, Obj>, pos: seq<Obj>, kw: seq<Keyword>)
    : map<string, Obj>
  {
    if Accepted(ps, defaults, pos, kw) then WithNulls(defaults, Missing(ps, defaults, pos, kw)) else defaults
  }

  lemma {:induction false} KeywordNamesSize(kw: seq<Keyword>)
    requires KeywordsOk(kw)
    ensures |KeywordNames(kw)| == |kw|
  {
    if kw == [] {
      assert KeywordNames(kw) == {};
    } else {
      var most := kw[..|kw| - 1];
      KeywordNamesSize(most);
      NewKeyword(kw);
    }
  }

  lemma SuppliedSize(ps: seq<string>, pos: seq<Obj>, kw: seq<Keyword>)
    requires Distinct(ps) && KeywordsOk(kw) && |pos| <= |ps| && KeywordsFit(ps, pos, kw)
    ensures |Supplied(ps, pos, kw)| == |pos| + |kw|
    ensures forall x | x in Supplied(ps, pos, kw) :: x in ps
  {
    var first := set x | x in ps[..|pos|];
    SetSize(ps[..|pos|]);
    KeywordNamesSize(kw);
    forall x | x in KeywordNames(kw) ensures x !in first && x in ps {
      var j :| 0 <= j < |kw| && kw[j].0 == x;
      assert NamesFrom(ps, |pos|, kw[j].0);
    }
    assert first !! KeywordNames(kw);
  }

  lemma LeftOver(all: set<string>, given: set<string>, defaults: set<string>)
    requires given <= all && defaults <= all
    ensures |all - given - defaults| + |given| + |defaults| == |all| + |defaults * given|
  {
    assert all == given + (all - given);
    assert all - given == (all - given - defaults) + (defaults - given);
    assert defaults == (defaults - given) + (defaults * given);
  }

  /** The number of parameters missing, from the three counts the source compares. */
  lemma MissingCount(ps: seq<string>, defaults: map<string, Obj>, pos: seq<Obj>, kw: seq<Keyword>)
    requires Distinct(ps) && KeywordsOk(kw) && |pos| <= |ps| && KeywordsFit(ps, pos, kw)
    requires forall x | x in defaults :: x in ps
    ensures |Missing(ps, defaults, pos, kw)| + |pos| + |kw| + |defaults|
            == |ps| + |defaults.Keys * Supplied(ps, pos, kw)|
  {
    var all := set x | x in ps;
    var given := Supplied(ps, pos, kw);
    SetSize(ps);
    SuppliedSize(ps, pos, kw);
    assert Missing(ps, defaults, pos, kw) == all - given - defaults.Keys;
    hide Distinct, KeywordsOk, KeywordsFit, Supplied, Missing;
    LeftOver(all, given, defaults.Keys);
    assert |defaults| == |defaults.Keys|;
  }

  /** The count check accepts exactly the calls that override at least as many defaults
      as they leave parameters missing. */
  lemma CountAccepts(ps: seq<string>, defaults: map<string, Obj>, pos: seq<Obj>, kw: seq<Keyword>)
    requires Distinct(ps) && KeywordsOk(kw) && |pos| <= |ps| && KeywordsFit(ps, pos, kw)
    requires forall x | x in defaults :: x in ps
    ensures Counted(|ps|, |defaults|, |pos| + |kw|) <==>
            |Missing(ps, defaults, pos, kw)| <= |defaults.Keys * Supplied(ps, pos, kw)|
  {
    MissingCount(ps, defaults, pos, kw);
    SuppliedSize(ps, pos, kw);
    SetSize(ps);
    SubsetSize(Supplied(ps, pos, kw), set x | x in ps);
  }

  /** With every parameter supplied or defaulted, the count check adds nothing to the two
      natural conditions on positionals and keywords. */
  lemma ExactBinding(ps: seq<string>, defaults: map<string, Obj>, pos: seq<Obj>, kw: seq<Keyword>)
    requires Distinct(ps) && KeywordsOk(kw) && forall x | x in defaults :: x in ps
    requires forall i | 0 <= i < |ps| :: i < |pos| || IsKeyword(kw, ps[i]) || ps[i] in defaults
    ensures Counted(|ps|, |defaults|, |pos| + |kw|) && KeywordsFit(ps, pos, kw)
            <==> |pos| <= |ps| && KeywordsFit(ps, pos, kw)
  {
    if |pos| <= |ps| && KeywordsFit(ps, pos, kw) {
      forall x | x in ps ensures x in Supplied(ps, pos, kw) || x in defaults {
        var i :| 0 <= i < |ps| && ps[i] == x;
        if i < |pos| {
          assert ps[..|pos|][i] == x;
        } else if IsKeyword(kw, x) {
          var j :| 0 <= j < |kw| && kw[j].0 == x;
          assert x in KeywordNames(kw);
        }
      }
      assert Missing(ps, defaults, pos, kw) == {};
      CountAccepts(ps, defaults, pos, kw);
    }
  }

  /** A missing parameter of an accepted call is bound to null, and to nothing else. */
  lemma MissingIsNull(ps: seq<string>, defaults: map<string, Obj>, pos: seq<Obj>, kw: seq<Keyword>, i: nat)
    requires i < |ps| && |pos| <= |ps| && Distinct(ps)
    ensures ps[i] in Missing(ps, defaults, pos, kw) ==> ValueFor(ps, defaults, pos, kw, i) == Nil
    ensures ValueFor(ps, defaults, pos, kw, i) == Nil ==>
              ps[i] in Missing(ps, defaults, pos, kw) || Nil in pos || Nil in defaults.Values
              || exists j | 0 <= j < |kw| :: kw[j].1 == Nil
  {
    var x := ps[i];
    if i < |pos| { assert ps[..|pos|][i] == x; }
    if IsKeyword(kw, x) {
      var j :| 0 <= j < |kw| && kw[j].0 == x && kw[j].1 == KeywordValue(kw, x);
      assert x in KeywordNames(kw);
    }
    if x in KeywordNames(kw) {
      var j :| 0 <= j < |kw| && kw[j].0 == x;
      assert IsKeyword(kw, x);
    }
    if x in ps[..|pos|] {
      var m :| 0 <= m < |pos| && ps[m] == x;
    }
  }

  /** f(a, b = 2) called as f(b = 1) passes the count check with a missing. */
  lemma MissingParameterAccepted()
    ensures var ps, defaults, kw := ["a", "b"], map["b" := Given(2)], [("b", Given(1))];
            && Distinct(ps) && KeywordsOk(kw) && KeywordsFit(ps, [], kw)
            && Counted(|ps|, |defaults|, |kw|)
            && "a" in Missing(ps, defaults, [], kw) && ValueFor(ps, defaults, [], kw, 0) == Nil
  {
    var ps, defaults, kw: seq<Keyword> := ["a", "b"], map["b" := Given(2)], [("b", Given(1))];
    assert ps[0][0] != ps[1][0];
    assert ps[1] == kw[0].0;
    assert NamesFrom(ps, 0, kw[0].0);
    assert !IsKeyword(kw, "a") && KeywordNames(kw) == {"b"};
    assert |defaults| == 1;
    assert "a" !in defaults && ps[0] == "a";
  }

  // ----- earlier calls -----

  datatype Call = Call(pos: seq<Obj>, kw: seq<Keyword>)

  /** The default table after a sequence of calls. */
  ghost function AfterCalls(ps: seq<string>, defaults: map<string, Obj>, calls: seq<Call>): map<string, Obj> {
    if calls == [] then defaults
    else
      var d, c := AfterCalls(ps, defaults, calls[..|calls| - 1]), calls[|calls| - 1];
      AfterCall(ps, d, c.pos, c.kw)
  }

  /** The parameters without default that at least one of the accepted calls left out. */
  ghost function LeftOut(ps: seq<string>, defaults: map<string, Obj>, calls: seq<Call>): set<string> {
    set x | x in ps && x !in defaults && exists i :: LeavesOut(ps, defaults, calls, i, x)
  }

  ghost predicate LeavesOut(ps: seq<string>, defaults: map<string, Obj>, calls: seq<Call>, i: int, x: string) {
    && 0 <= i < |calls|
    && Accepted(ps, AfterCalls(ps, defaults, calls[..i]), calls[i].pos, calls[i].kw)
    && x !in Supplied(ps, calls[i].pos, calls[i].kw)
  }

  /** What calls leave behind: the given defaults and a null entry for each parameter that
      an accepted call left out. */
  lemma {:induction false} DefaultsAfter(ps: seq<string>, defaults: map<string, Obj>, calls: seq<Call>)
    ensures AfterCalls(ps, defaults, calls) == WithNulls(defaults, LeftOut(ps, defaults, calls))
  {
    if calls == [] {
      assert LeftOut(ps, defaults, calls) == {};
    } else {
      var n := |calls| - 1;
      var d, c, left := AfterCalls(ps, defaults, calls[..n]), calls[n], LeftOut(ps, defaults, calls[..n]);
      DefaultsAfter(ps, defaults, calls[..n]);
      LeftOutLast(ps, defaults, calls);
      if Accepted(ps, d, c.pos, c.kw) {
        hide LeftOut, AfterCalls, Missing, WithNulls;
        NullsTwice(defaults, left, Missing(ps, d, c.pos, c.kw), LeftOut(ps, defaults, calls));
        AfterLast(ps, defaults, calls);
      } else {
        assert LeftOut(ps, defaults, calls) == left;
      }
    }
  }

  /** What the last call adds. */
  lemma LeftOutLast(ps: seq<string>, defaults: map<string, Obj>, calls: seq<Call>)
    requires calls != []
    requires var most := calls[..|calls| - 1];
             AfterCalls(ps, defaults, most) == WithNulls(defaults, LeftOut(ps, defaults, most))
    ensures var most, c := calls[..|calls| - 1], calls[|calls| - 1];
            var d, left := AfterCalls(ps, defaults, most), LeftOut(ps, defaults, most);
            if Accepted(ps, d, c.pos, c.kw) then
              forall x | x !in defaults ::
                x in LeftOut(ps, defaults, calls) <==> x in left || x in Missing(ps, d, c.pos, c.kw)
            else LeftOut(ps, defaults, calls) == left
  {
    hide AfterCalls, KeywordsFit, Supplied;
    forall x ensures x in LeftOut(ps, defaults, calls) <==>
                     x in LeftOut(ps, defaults, calls[..|calls| - 1])
                     || (x in ps && x !in defaults && LeavesOut(ps, defaults, calls, |calls| - 1, x))
    {
      LeftOutStep(ps, defaults, calls, x);
    }
  }

  lemma AfterLast(ps: seq<string>, defaults: map<string, Obj>, calls: seq<Call>)
    requires calls != []
    ensures var c := calls[|calls| - 1];
            AfterCalls(ps, defaults, calls) ==
            AfterCall(ps, AfterCalls(ps, defaults, calls[..|calls| - 1]), c.pos, c.kw)
  {
  }

  lemma NullsTwice(defaults: map<string, Obj>, a: set<string>, b: set<string>, c: set<string>)
    requires forall x | x !in defaults :: x in c <==> x in a || x in b
    ensures WithNulls(WithNulls(defaults, a), b) == WithNulls(defaults, c)
  {
  }

  lemma LeftOutStep(ps: seq<string>, defaults: map<string, Obj>, calls: seq<Call>, x: string)
    requires calls != []
    ensures var most := calls[..|calls| - 1];
            (exists i :: LeavesOut(ps, defaults, calls, i, x)) <==>
            (exists i :: LeavesOut(ps, defaults, most, i, x)) || LeavesOut(ps, defaults, calls, |calls| - 1, x)
  {
    hide Accepted, AfterCalls, Supplied;
    var most := calls[..|calls| - 1];
    forall i | 0 <= i < |most| ensures LeavesOut(ps, defaults, calls, i, x) <==> LeavesOut(ps, defaults, most, i, x) {
      assert calls[..i] == most[..i];
    }
  }

  lemma WithNullsSize(defaults: map<string, Obj>, names: set<string>)
    requires names !! defaults.Keys
    ensures |WithNulls(defaults, names)| == |defaults| + |names|
  {
    var d := WithNulls(defaults, names);
    assert d.Keys == defaults.Keys + names && |d| == |d.Keys| && |defaults| == |defaults.Keys|;
  }

  /** Earlier calls never make a call fail, and they make a call that a fresh function
      rejects succeed exactly when its keywords fit and its shortfall is at most the number
      of parameters that accepted calls have left out. */
  lemma EarlierCallsCount(ps: seq<string>, defaults: map<string, Obj>, calls: seq<Call>, pos: seq<Obj>,
          kw: seq<Keyword>)
    ensures Accepted(ps, defaults, pos, kw) ==> Accepted(ps, AfterCalls(ps, defaults, calls), pos, kw)
    ensures Accepted(ps, AfterCalls(ps, defaults, calls), pos, kw) <==>
            && KeywordsFit(ps, pos, kw) && |pos| + |kw| <= |ps|
            && |ps| - |defaults| - (|pos| + |kw|) <= |LeftOut(ps, defaults, calls)|
  {
    DefaultsAfter(ps, defaults, calls);
    WithNullsSize(defaults, LeftOut(ps, defaults, calls));
  }

  /** f(a, b = 2): f() is rejected, and accepted after f(b = 1). */
  lemma RejectedThenAccepted()
    ensures var ps, defaults, calls := ["a", "b"], map["b" := Given(2)], [Call([], [("b", Given(1))])];
            && !Accepted(ps, defaults, [], [])
            && AfterCalls(ps, defaults, calls) == map["a" := Nil, "b" := Given(2)]
            && Accepted(ps, AfterCalls(ps, defaults, calls), [], [])
  {
    var ps, defaults, kw: seq<Keyword> := ["a", "b"], map["b" := Given(2)], [("b", Given(1))];
    MissingParameterAccepted();
    assert AfterCalls(ps, defaults, []) == defaults && [Call([], kw)][..0] == [];
    assert |defaults| == 1;
    assert Missing(ps, defaults, [], kw) == {"a"};
    var d := map["a" := Nil, "b" := Given(2)];
    assert |d| == 2;
  }

  // ----- nothing is lost -----

  /** In variadic mode, with defaults apart from the parameters, the bound prefix followed
      by the variadic tuple is the list of positionals. */
  lemma VariadicConserves(ps: seq<string>, defaults: map<string, Obj>, pos: seq<Obj>, kw: seq<Keyword>,
                          was: map<string, Obj>)
    requires 1 <= |ps| <= |pos| + 1 && Distinct(ps)
    requires forall x | x in defaults :: x !in ps
    requires forall j | 0 <= j < |kw| :: kw[j].0 in defaults
    ensures VariadicValue(ps, defaults, pos, kw, was, ps[|ps| - 1]).Tuple?
    ensures seq(|ps| - 1, i requires 0 <= i < |ps| - 1 => VariadicValue(ps, defaults, pos, kw, was, ps[i]))
            + VariadicValue(ps, defaults, pos, kw, was, ps[|ps| - 1]).elems == pos
  {
    forall i | 0 <= i < |ps| ensures !IsKeyword(kw, ps[i]) && ps[i] !in defaults {
    }
    forall i | 0 <= i < |ps| - 1 ensures VariadicValue(ps, defaults, pos, kw, was, ps[i]) == pos[i] {
    }
  }

  /** A default that carries a parameter's name hides the value given by position. */
  lemma DefaultHidesPositional(ps: seq<string>, defaults: map<string, Obj>, pos: seq<Obj>, kw: seq<Keyword>,
                               was: map<string, Obj>, i: nat)
    requires 1 <= |ps| <= |pos| + 1 && Distinct(ps) && KeywordsOk(kw) && i < |ps| - 1
    requires forall j | 0 <= j < |kw| :: kw[j].0 in defaults
    ensures VariadicValue(ps, defaults, pos, kw, was, ps[i]) == pos[i] <==>
            || ps[i] !in defaults
            || (IsKeyword(kw, ps[i]) && (ps[i], pos[i]) in kw)
            || (!IsKeyword(kw, ps[i]) && defaults[ps[i]] == pos[i])
  {
    if IsKeyword(kw, ps[i]) {
      var j :| 0 <= j < |kw| && kw[j].0 == ps[i] && kw[j].1 == KeywordValue(kw, ps[i]);
      if (ps[i], pos[i]) in kw {
        var m :| 0 <= m < |kw| && kw[m] == (ps[i], pos[i]);
        assert m == j;
      }
    }
  }

  /** In kwargs mode the keywords split into those that name a regular parameter and the
      extra ones: each is in exactly one part, with its value. */
  lemma {:induction false} KeywordsSplit(rs: seq<string>, kw: seq<Keyword>)
    requires KeywordsOk(kw)
    ensures CountRegular(rs, kw) + |Extra(rs, kw)| == |kw|
    ensures SplitBy(rs, kw, Extra(rs, kw))
  {
    if kw != [] {
      var most, k := kw[..|kw| - 1], kw[|kw| - 1];
      KeywordsSplit(rs, most);
      assert kw == most + [k];
      NewKeyword(kw);
      hide KeywordNames, SplitBy, KeywordsOk;
      SplitStep(rs, most, k, Extra(rs, most));
    }
  }

  /** The extra table e has exactly the keywords that name none of rs, with their values. */
  ghost predicate SplitBy(rs: seq<string>, kw: seq<Keyword>, e: map<string, Obj>) {
    && (forall x :: x in e <==> x in KeywordNames(kw) && x !in rs)
    && forall j | 0 <= j < |kw| :: kw[j].0 in e ==> e[kw[j].0] == kw[j].1
  }

  lemma SplitStep(rs: seq<string>, most: seq<Keyword>, k: Keyword, e: map<string, Obj>)
    requires SplitBy(rs, most, e) && k.0 !in KeywordNames(most)
    requires KeywordNames(most + [k]) == KeywordNames(most) + {k.0}
    ensures SplitBy(rs, most + [k], if k.0 in rs then e else e[k.0 := k.1])
    ensures k.0 !in e && |e[k.0 := k.1]| == |e| + 1
  {
    var names := KeywordNames(most);
    forall j | 0 <= j < |most| ensures most[j].0 in names {
    }
    hide KeywordNames;
    MapSize(e, k.0, k.1);
  }

  lemma MapSize(e: map<string, Obj>, x: string, v: Obj)
    requires x !in e
    ensures |e[x := v]| == |e| + 1
  {
    assert e[x := v].Keys == e.Keys + {x};
    assert |e[x := v]| == |e[x := v].Keys| && |e| == |e.Keys|;
  }

  lemma NewKeyword(kw: seq<Keyword>)
    requires KeywordsOk(kw) && kw != []
    ensures var most := kw[..|kw| - 1];
            KeywordsOk(most) && kw[|kw| - 1].0 !in KeywordNames(most)
            && KeywordNames(kw) == KeywordNames(most) + {kw[|kw| - 1].0}
  {
    var most := kw[..|kw| - 1];
    forall x | x in KeywordNames(kw) ensures x in KeywordNames(most) + {kw[|kw| - 1].0} {
      var j :| 0 <= j < |kw| && kw[j].0 == x;
      if j < |most| { assert most[j].0 == x; }
    }
    forall x | x in KeywordNames(most) ensures x in KeywordNames(kw) {
      var j :| 0 <= j < |most| && most[j].0 == x;
      assert kw[j].0 == x;
    }
  }

  lemma KeywordBinds(ps: seq<string>, defaults: map<string, Obj>, pos: seq<Obj>, kw: seq<Keyword>, j: nat, i: nat)
    requires KeywordsOk(kw) && |pos| <= |ps| && j < |kw| && i < |ps| && ps[i] == kw[j].0
    requires kw[j].0 !in ps[..|pos|]
    ensures ValueFor(ps, defaults, pos, kw, i) == kw[j].1
  {
    assert forall m | 0 <= m < |pos| :: ps[..|pos|][m] == ps[m];
    assert IsKeyword(kw, ps[i]);
  }

  /** Every keyword of an accepted kwargs call ends up in one place with its value: its
      regular parameter or the extra map. */
  lemma KeywordLands(ps: seq<string>, defaults: map<string, Obj>, pos: seq<Obj>, kw: seq<Keyword>, j: nat)
    requires |ps| >= 1 && Distinct(ps) && KeywordsOk(kw) && |pos| <= |ps| - 1 && j < |kw|
    requires forall m | 0 <= m < |kw| :: kw[m].0 !in ps[..|pos|]
    ensures var extra := Extra(ps[..|ps| - 1], kw);
            if kw[j].0 in extra then extra[kw[j].0] == kw[j].1 && kw[j].0 !in ps[..|ps| - 1]
            else exists i | 0 <= i < |ps| - 1 :: ps[i] == kw[j].0 && ValueFor(ps, defaults, pos, kw, i) == kw[j].1
  {
    var rs := ps[..|ps| - 1];
    KeywordsSplit(rs, kw);
    assert kw[j].0 in KeywordNames(kw);
    hide *;
    if kw[j].0 in rs {
      var i :| 0 <= i < |rs| && rs[i] == kw[j].0;
      KeywordBinds(ps, defaults, pos, kw, j, i);
    }
  }
}
