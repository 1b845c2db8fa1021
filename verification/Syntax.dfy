/** The fragment of the Shell++ abstract syntax that the interpreter model runs:
    statement lists, blocks, if/else, while, for-in, break, continue, return, try/catch,
    throw, defer, function declarations and calls, and list comprehensions over a
    small expression language. */
module Syntax {
  import opened Options

  /** Run-time values. Error(kind) is the object that an internal error becomes when
      it is caught; TypeObj(name) is the type object named in a catch clause. */
  datatype Value =
    | Null
    | Bool(b: bool)
    | Int(i: int)
    | List(elems: seq<Value>)
    | Func(fid: nat)
    | TypeObj(name: string)
    | Error(kind: string)

  datatype Prim = Add | Less | Equal

  datatype Expr =
    | Lit(v: Value)
    | Var(x: string)
    | Op(op: Prim, l: Expr, r: Expr)
    | ListLit(es: seq<Expr>)
    | Call(f: Expr, args: seq<Expr>)
    | Comp(res: Expr, clauses: seq<Clause>)

  datatype Clause = CompFor(vars: seq<string>, tests: seq<Expr>) | CompIf(cond: Expr)

  datatype Else = NoElse | ElseBlock(ss: seq<Stmt>) | ElseIf(s: Stmt)

  datatype Catch = Catch(pats: seq<Expr>, bind: Option<string>, ss: seq<Stmt>)

  datatype Stmt =
    | Assign(vars: seq<string>, es: seq<Expr>)
    | Global(vars: seq<string>, es: seq<Expr>)
    | Do(e: Expr)
    | Print(e: Expr)
    | FuncDecl(name: string, params: seq<string>, ss: seq<Stmt>)
    | Return(e: Expr)
    | Break
    | Continue
    | If(cond: Expr, ss: seq<Stmt>, els: Else)
    | While(cond: Expr, ss: seq<Stmt>)
    | ForIn(vars: seq<string>, tests: seq<Expr>, ss: seq<Stmt>)
    | Try(ss: seq<Stmt>, catches: seq<Catch>)
    | Throw(e: Expr)
    | Defer(s: Stmt)
    | Block(ss: seq<Stmt>)
    // the append to the accumulator that the comprehension rewrite puts innermost
    | Append(e: Expr)

  /** A pending exception: raised by the runtime, or an object thrown by `throw`. */
  datatype Exn = Internal(kind: string) | Thrown(v: Value)

  datatype Reason = OutOfFuel | Terminated

  datatype Res<+T> = Ok(v: T) | Exc(x: Exn) | Halt(h: Reason)

  const TYPE_ERROR := "TypeException"
  const LOOKUP_ERROR := "LookupException"
  const PARAMS_ERROR := "FuncParamsException"
  const PLAIN_ERROR := "ErrorException"
  const RETURN_NAME := "%return"
  const COMP_NAME := "%list_comp_val"

  function ApplyPrim(op: Prim, a: Value, b: Value): (r: Res<Value>)
    ensures !r.Halt?
  {
    match op
    case Add =>
      if a.Int? && b.Int? then Ok(Int(a.i + b.i))
      else if a.List? && b.List? then Ok(List(a.elems + b.elems))
      else Exc(Internal(TYPE_ERROR))
    case Less => if a.Int? then Ok(Bool(b.Int? && a.i < b.i)) else Exc(Internal(TYPE_ERROR))
    case Equal =>
      var r := Equals(a, b);
      if r.Ok? then Ok(Bool(r.v)) else Exc(r.x)
  }

  /** The left operand decides: a bool asks the other for its bool, an int equals no other
      type, lists compare all their elements, functions and errors have no equality. */
  function Equals(a: Value, b: Value): (r: Res<bool>)
    ensures !r.Halt?
    decreases a, 1
  {
    match a
    case Null => Ok(b.Null?)
    case Bool(x) =>
      var y := Truth(b);
      if y.Ok? then Ok(x == y.v) else y
    case Int(_) => Ok(b == a)
    case List(vs) => if !b.List? || |vs| != |b.elems| then Ok(false) else EqualsAll(vs, b.elems)
    case TypeObj(_) => Ok(b == a)
    case _ => Exc(Internal(TYPE_ERROR))
  }

  function EqualsAll(vs: seq<Value>, ws: seq<Value>): (r: Res<bool>)
    requires |vs| == |ws|
    ensures !r.Halt?
    decreases vs, 0
  {
    if vs == [] then Ok(true)
    else
      var first := Equals(vs[0], ws[0]);
      if !first.Ok? then first
      else
        var rest := EqualsAll(vs[1..], ws[1..]);
        if rest.Ok? then Ok(first.v && rest.v) else rest
  }

  /** ObjBool: null is false, every int is true, lists and functions have no bool interface. */
  function Truth(v: Value): (r: Res<bool>)
    ensures !r.Halt?
  {
    match v
    case Null => Ok(false)
    case Bool(b) => Ok(b)
    case Int(_) => Ok(true)
    case _ => Exc(Internal(TYPE_ERROR))
  }

  /** The object a catch clause sees: a thrown object as is, an internal error mapped
      to an exception object of its class. */
  function ExnValue(x: Exn): Value {
    match x
    case Internal(kind) => Error(kind)
    case Thrown(v) => v
  }

  function TypeName(v: Value): string {
    match v
    case Null => "null_t"
    case Bool(_) => "bool"
    case Int(_) => "int"
    case List(_) => "array"
    case Func(_) => "function"
    case TypeObj(_) => "type"
    case Error(kind) => kind
  }

  /** Every type has the base object; the exception classes also have the base Exception. */
  predicate InstanceOf(v: Value, t: Value) {
    && t.TypeObj?
    && (t.name == TypeName(v) || t.name == "object" || (v.Error? && t.name == "Exception"))
  }

  predicate InstanceOfAny(v: Value, ts: seq<Value>) {
    exists i | 0 <= i < |ts| :: InstanceOf(v, ts[i])
  }

  /** A call rebuilds the error it lets through from its code alone, so an object
      thrown inside the callee is lost and only the catch-all error class is left. */
  function Rewrap(x: Exn): Exn {
    if x.Thrown? then Internal(PLAIN_ERROR) else x
  }

  /** The statement a comprehension is rewritten into, innermost clause first. */
  function Nest(clauses: seq<Clause>, res: Expr): Stmt
    requires clauses != []
  {
    var inner := if |clauses| == 1 then Append(res) else Nest(clauses[1..], res);
    match clauses[0]
    case CompIf(c) => If(c, [inner], NoElse)
    case CompFor(vars, tests) => ForIn(vars, tests, [inner])
  }
}
