/** The two evaluators of AND-OR lists: one returns a status, the other also the output. */
module AndOr {

  datatype Cmd = Simple(id: nat) | AndOr(and: bool, left: Cmd, right: Cmd)

  /** What one simple command gives. */
  datatype Ran = Ran(status: int, out: string, err: string)

  /** The simple commands run so far, in order. */
  type Trace = seq<nat>

  /** A simple command may depend on all the commands run before it. */
  type Shell = (Trace, nat) -> Ran

  datatype Status = Status(status: int, trace: Trace)
  datatype Data = Data(status: int, out: string, err: string, trace: Trace)

  /** The status-only evaluator. */
  function ExecCmd(c: Cmd, h: Trace, shell: Shell): Status {
    match c
    case Simple(id) => Status(shell(h, id).status, h + [id])
    case AndOr(and, left, right) =>
      var l := ExecCmd(left, h, shell);
      if and then
        if l.status == 0 then ExecCmd(right, l.trace, shell) else l
      else
        if l.status == 0 then l else ExecCmd(right, l.trace, shell)
  }

  /** The evaluator that collects the output; a failed left side of && becomes -1. */
  function ExecCmdGetResult(c: Cmd, h: Trace, shell: Shell): Data {
    match c
    case Simple(id) => var r := shell(h, id); Data(r.status, r.out, r.err, h + [id])
    case AndOr(and, left, right) =>
      var l := ExecCmdGetResult(left, h, shell);
      if and == (l.status == 0) then
        var r := ExecCmdGetResult(right, l.trace, shell);
        Data(r.status, l.out + r.out, l.err + r.err, r.trace)
      else Data(if and then -1 else l.status, l.out, l.err, l.trace)
  }

  // ----- what a run of commands gives on its own -----

  ghost function Outs(h: Trace, cmds: Trace, shell: Shell): string
    decreases |cmds|
  {
    if cmds == [] then "" else shell(h, cmds[0]).out + Outs(h + [cmds[0]], cmds[1..], shell)
  }

  ghost function Errs(h: Trace, cmds: Trace, shell: Shell): string
    decreases |cmds|
  {
    if cmds == [] then "" else shell(h, cmds[0]).err + Errs(h + [cmds[0]], cmds[1..], shell)
  }

  lemma {:induction false} OutsAppend(h: Trace, a: Trace, b: Trace, shell: Shell)
    ensures Outs(h, a + b, shell) == Outs(h, a, shell) + Outs(h + a, b, shell)
    ensures Errs(h, a + b, shell) == Errs(h, a, shell) + Errs(h + a, b, shell)
    decreases |a|
  {
    if a == [] {
      assert a + b == b && h + a == h;
    } else {
      OutsAppend(h + [a[0]], a[1..], b, shell);
      assert (a + b)[1..] == a[1..] + b;
      assert h + [a[0]] + a[1..] == h + a;
    }
  }

  /** The commands that running c adds to the trace. */
  ghost function New(c: Cmd, h: Trace, shell: Shell): Trace {
    match c
    case Simple(id) => [id]
    case AndOr(and, left, right) =>
      var l := New(left, h, shell);
      if and == (ExecCmd(left, h, shell).status == 0) then l + New(right, h + l, shell) else l
  }

  /** Both evaluators run the same commands in the same order, and agree on success. The
      collected output is that of the commands run. */
  lemma {:induction false} Agree(c: Cmd, h: Trace, shell: Shell)
    ensures var e, d, new_ := ExecCmd(c, h, shell), ExecCmdGetResult(c, h, shell), New(c, h, shell);
            && e.trace == d.trace == h + new_
            && (e.status == 0 <==> d.status == 0)
            && (d.status != e.status ==> d.status == -1)
            && d.out == Outs(h, new_, shell) && d.err == Errs(h, new_, shell)
  {
    match c {
      case Simple(id) =>
        assert [id][1..] == [];
        assert Outs(h, [id], shell) == shell(h, id).out + Outs(h + [id], [], shell);
        assert Errs(h, [id], shell) == shell(h, id).err + Errs(h + [id], [], shell);
      case AndOr(and, left, right) =>
        Agree(left, h, shell);
        var l := New(left, h, shell);
        if and == (ExecCmd(left, h, shell).status == 0) {
          Agree(right, h + l, shell);
          var r := New(right, h + l, shell);
          OutsAppend(h, l, r, shell);
          assert h + l + r == h + (l + r);
        }
    }
  }

  /** The status is that of the last command run. */
  lemma {:induction false} LastStatus(c: Cmd, h: Trace, shell: Shell)
    ensures var e := ExecCmd(c, h, shell);
            |e.trace| > |h| && e.trace[..|h|] == h
            && e.status == shell(e.trace[..|e.trace| - 1], e.trace[|e.trace| - 1]).status
  {
    match c {
      case Simple(id) => assert (h + [id])[..|h|] == h;
      case AndOr(and, left, right) =>
        LastStatus(left, h, shell);
        var l := ExecCmd(left, h, shell);
        LastStatus(right, l.trace, shell);
        var r := ExecCmd(right, l.trace, shell);
        assert r.trace[..|h|] == r.trace[..|l.trace|][..|h|];
    }
  }

  /** The part that decides the result is an && whose left side failed, with a status other
      than -1. */
  ghost predicate FailsAtAnd(c: Cmd, h: Trace, shell: Shell) {
    c.AndOr?
    && var l := ExecCmd(c.left, h, shell);
       if c.and == (l.status == 0) then FailsAtAnd(c.right, l.trace, shell)
       else c.and && l.status != -1
  }

  /** Only then do the evaluators return different statuses. */
  lemma {:induction false} StatusDiffers(c: Cmd, h: Trace, shell: Shell)
    ensures ExecCmd(c, h, shell).status != ExecCmdGetResult(c, h, shell).status <==> FailsAtAnd(c, h, shell)
  {
    if c.AndOr? {
      Agree(c.left, h, shell);
      var l := ExecCmd(c.left, h, shell);
      StatusDiffers(c.right, l.trace, shell);
    }
  }

  // ----- chains of one operator -----

  function Leaves(c: Cmd): (ids: seq<nat>)
    ensures ids != []
  {
    if c.Simple? then [c.id] else Leaves(c.left) + Leaves(c.right)
  }

  predicate Uniform(c: Cmd, and: bool) {
    c.Simple? || (c.and == and && Uniform(c.left, and) && Uniform(c.right, and))
  }

  /** Running commands from the left until one fails (&&) or succeeds (||). */
  function Chain(ids: seq<nat>, and: bool, h: Trace, shell: Shell): Status
    requires ids != []
  {
    var first := Status(shell(h, ids[0]).status, h + [ids[0]]);
    if |ids| == 1 || and != (first.status == 0) then first else Chain(ids[1..], and, first.trace, shell)
  }

  lemma {:induction false} ChainAppend(a: seq<nat>, b: seq<nat>, and: bool, h: Trace, shell: Shell)
    requires a != [] && b != []
    ensures Chain(a + b, and, h, shell) ==
            var r := Chain(a, and, h, shell);
            if and == (r.status == 0) then Chain(b, and, r.trace, shell) else r
    decreases |a|
  {
    assert (a + b)[0] == a[0];
    if |a| == 1 {
      assert (a + b)[1..] == b;
    } else {
      assert (a + b)[1..] == a[1..] + b;
      ChainAppend(a[1..], b, and, h + [a[0]], shell);
    }
  }

  lemma {:induction false} UniformIsChain(c: Cmd, and: bool, h: Trace, shell: Shell)
    requires Uniform(c, and)
    ensures ExecCmd(c, h, shell) == Chain(Leaves(c), and, h, shell)
  {
    if c.AndOr? {
      UniformIsChain(c.left, and, h, shell);
      var l := ExecCmd(c.left, h, shell);
      UniformIsChain(c.right, and, l.trace, shell);
      ChainAppend(Leaves(c.left), Leaves(c.right), and, h, shell);
    }
  }

  /** Re-associating a chain of one operator changes neither the commands run, nor the
      success, nor the output, in either evaluator. */
  lemma Reassociate(c: Cmd, d: Cmd, and: bool, h: Trace, shell: Shell)
    requires Uniform(c, and) && Uniform(d, and) && Leaves(c) == Leaves(d)
    ensures ExecCmd(c, h, shell) == ExecCmd(d, h, shell)
    ensures var x, y := ExecCmdGetResult(c, h, shell), ExecCmdGetResult(d, h, shell);
            x.trace == y.trace && x.out == y.out && x.err == y.err && (x.status == 0 <==> y.status == 0)
  {
    UniformIsChain(c, and, h, shell);
    UniformIsChain(d, and, h, shell);
    Agree(c, h, shell);
    Agree(d, h, shell);
    var x, y := New(c, h, shell), New(d, h, shell);
    assert x == (h + x)[|h|..] && y == (h + y)[|h|..];
  }
}
