/** The executor objects: each statement runs in an executor that points at its parent,
    and break, continue and return are stop flags pushed up that parent chain. */
module Executors {
  import opened Syntax
  import opened SymbolTables

  datatype StopFlag = Go | StopReturn | StopBreak | StopContinue | StopThrow

  /** The executor classes that treat set_stop differently; PlainExec stands for the
      ones that only forward it. */
  datatype Kind =
    | RootExec
    | ListExec(root: bool)
    | StmtExec
    | BlockExec(main: bool)
    | WhileExec
    | ForExec
    | TryExec
    | CallExec
    | PlainExec

  /** The flags of an executor and its ancestors, innermost first. */
  datatype Chain = End | Link(kind: Kind, flag: StopFlag, up: Chain)

  /** What set_stop(f), called on the innermost executor, does to the whole chain. */
  function Propagate(c: Chain, f: StopFlag): Chain {
    match c
    case End => End
    case Link(kind, flag, up) =>
      match kind
      case RootExec => c
      case ListExec(_) => Link(kind, f, Propagate(up, f))
      case WhileExec => Link(kind, f, Propagate(up, if f == StopBreak || f == StopContinue then Go else f))
      case ForExec => Link(kind, f, if f == StopBreak || f == StopContinue then up else Propagate(up, f))
      case TryExec => Link(kind, flag, Propagate(up, if f == StopThrow then Go else f))
      case CallExec => if f == StopThrow then Link(kind, flag, Propagate(up, f)) else c
      case _ => Link(kind, flag, Propagate(up, f))
  }

  /** Nothing is stopped. A loop may still carry the continue of an earlier iteration. */
  predicate Live(c: Chain) {
    match c
    case End => true
    case Link(kind, flag, up) =>
      && (kind.ListExec? ==> flag == Go)
      && (kind.WhileExec? || kind.ForExec? ==> flag == Go || flag == StopContinue)
      && Live(up)
  }

  /** The flag f has been raised: it stops every statement list out to the construct that
      absorbs it, and nothing beyond that construct is stopped. */
  predicate Stopped(c: Chain, f: StopFlag) {
    match c
    case End => true
    case Link(kind, flag, up) =>
      match kind
      case RootExec => Live(up)
      case ListExec(_) => flag == f && Stopped(up, f)
      case WhileExec => flag == f && (if f == StopReturn then Stopped(up, f) else Live(up))
      case ForExec => flag == f && (if f == StopReturn then Stopped(up, f) else Live(up))
      case CallExec => Live(up)
      case _ => Stopped(up, f)
  }

  /** Clearing an unstopped chain, as a while loop does to its ancestors, stops nothing. */
  lemma {:induction false} PropagateGo(c: Chain)
    requires Live(c)
    ensures Live(Propagate(c, Go))
  {
    if c.Link? { PropagateGo(c.up); }
  }

  /** Raising break, continue or return on an unstopped chain stops exactly the
      statement lists inside the construct that absorbs it. */
  lemma {:induction false} PropagateStop(c: Chain, f: StopFlag)
    requires Live(c) && (f == StopBreak || f == StopContinue || f == StopReturn)
    ensures Stopped(Propagate(c, f), f)
  {
    if c.Link? {
      PropagateStop(c.up, f);
      PropagateGo(c.up);
    }
  }

  /** The chain of a main executor: the root, or a function block under its call. */
  predicate MainChain(c: Chain) {
    c.Link? && (c.kind.RootExec? || (c.kind.BlockExec? && c.up.Link? && c.up.kind.CallExec?))
  }

  /** Whatever flag was raised in the body of a main executor, nothing stays stopped. */
  lemma MainAbsorbs(c: Chain, f: StopFlag)
    requires MainChain(c) && Stopped(c, f)
    ensures Live(c)
  {
    if c.kind.BlockExec? {
      assert Stopped(c.up, f);
      assert Live(c.up.up);
    }
  }

  class Executor {
    const kind: Kind
    const parent: Executor?
    var flag: StopFlag
    var defers: seq<Deferred>
    ghost const depth: nat
    ghost const cells: set<Executor>
    ghost const mainExec: Executor

    /** The parent chain is finite and without repetition, and mainExec is the nearest
        executor on it that owns a stack of deferred statements. */
    ghost predicate Valid()
      decreases depth
    {
      && this in cells
      && mainExec in cells
      && (kind.RootExec? <==> parent == null)
      && (if parent == null then cells == {this} && mainExec == this
          else
            && parent.depth < depth
            && parent.Valid()
            && this !in parent.cells
            && cells == {this} + parent.cells
            && mainExec == if IsMain() then this else parent.mainExec)
    }

    /** Whether `global` is allowed in a statement run by this executor. */
    predicate InsideRootScope()
      requires Valid()
      decreases depth
    {
      match kind
      case RootExec => true
      case ListExec(root) => root
      case StmtExec => parent.InsideRootScope()
      case _ => false
    }

    predicate IsMain() {
      kind.RootExec? || (kind.BlockExec? && kind.main)
    }

    constructor (kind: Kind, parent: Executor)
      requires parent.Valid() && !kind.RootExec?
      ensures Valid() && fresh(this) && this.kind == kind && this.parent == parent
      ensures flag == Go && defers == [] && Flags() == Link(kind, Go, parent.Flags())
      ensures cells == {this} + parent.cells
      ensures mainExec == if IsMain() then this else parent.mainExec
      ensures InsideRootScope() == if kind.StmtExec? then parent.InsideRootScope() else kind.ListExec? && kind.root
    {
      this.kind := kind;
      this.parent := parent;
      flag := Go;
      defers := [];
      depth := parent.depth + 1;
      cells := {this} + parent.cells;
      mainExec := parent.mainExec;
      if kind.BlockExec? && kind.main {
        mainExec := this;
      }
    }

    constructor Root()
      ensures Valid() && fresh(this) && kind == RootExec && parent == null
      ensures flag == Go && defers == [] && mainExec == this && cells == {this}
    {
      kind := RootExec;
      parent := null;
      flag := Go;
      defers := [];
      depth := 0;
      cells := {this};
      mainExec := this;
    }

    ghost function Flags(): (c: Chain)
      requires Valid()
      reads cells`flag
      ensures c.Link? && c.kind == kind && c.flag == flag
      decreases depth
    {
      Link(kind, flag, if parent == null then End else parent.Flags())
    }

    /** The chain of an executor is its own flag on the chain of its parent. */
    lemma Unfold()
      requires Valid() && parent != null
      ensures parent.Valid() && Flags() == Link(kind, flag, parent.Flags())
    {
    }

    /** The main executor of a function body sits directly under the call. */
    ghost predicate ActsAsMain() {
      kind.RootExec? || (kind == BlockExec(true) && parent != null && parent.kind.CallExec?)
    }

    lemma MainFlags()
      requires Valid() && ActsAsMain()
      ensures MainChain(Flags())
    {
      if parent != null {
        assert Flags().up == parent.Flags();
      }
    }

    method SetStop(f: StopFlag)
      requires Valid()
      modifies cells`flag
      ensures Flags() == Propagate(old(Flags()), f)
      decreases depth
    {
      match kind {
        case RootExec =>
        case ListExec(_) =>
          flag := f;
          parent.SetStop(f);
        case WhileExec =>
          flag := f;
          parent.SetStop(if f == StopBreak || f == StopContinue then Go else f);
        case ForExec =>
          flag := f;
          if f != StopBreak && f != StopContinue {
            parent.SetStop(f);
          }
        case TryExec =>
          parent.SetStop(if f == StopThrow then Go else f);
        case CallExec =>
          if f == StopThrow {
            parent.SetStop(f);
          }
        case _ =>
          parent.SetStop(f);
      }
    }

    method GetMainExecutor() returns (e: Executor)
      requires Valid()
      ensures e == mainExec
      decreases depth
    {
      if IsMain() {
        e := this;
      } else {
        e := parent.GetMainExecutor();
      }
    }
  }
}
