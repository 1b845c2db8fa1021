/** Symbol tables. Tables are shared by several stacks, so they live in one sequence
    and a stack holds their positions there; position 0 is the main table. */
module SymbolTables {
  import opened Options
  import opened Syntax

  datatype Entry = Entry(v: Value, global: bool)
  datatype TableKind = ScopeTable | FuncTable
  datatype Table = Table(kind: TableKind, m: map<string, Entry>)

  /** One symbol-table stack; posFunc is the recorded position of the last function
      table pushed, and -1 when there was none. */
  datatype Stack = Stack(ids: seq<nat>, posFunc: int)

  /** A declared function owns the stack its activations run on. */
  datatype FuncObj = FuncObj(params: seq<string>, ss: seq<Stmt>, k: nat)

  datatype Deferred = Deferred(s: Stmt, k: nat)

  /** defers holds the deferred statements of the running activation, last one on top. */
  datatype Store = Store(
    tables: seq<Table>,
    stacks: seq<Stack>,
    funcs: seq<FuncObj>,
    out: seq<Value>,
    defers: seq<Deferred>)

  ghost predicate ValidIds(ids: seq<nat>, n: nat) {
    forall i | 0 <= i < |ids| :: 0 < ids[i] < n
  }

  ghost predicate WF(st: Store) {
    && 0 < |st.tables|
    && 0 < |st.stacks|
    && (forall j | 0 <= j < |st.stacks| :: ValidIds(st.stacks[j].ids, |st.tables|))
    && (forall f | 0 <= f < |st.funcs| :: st.funcs[f].k < |st.stacks|)
    && (forall d | 0 <= d < |st.defers| :: st.defers[d].k < |st.stacks|)
  }

  /** A store in which k is a stack to run on. */
  ghost predicate Good(st: Store, k: nat) {
    WF(st) && k < |st.stacks|
  }

  /** What a complete run leaves in place: every stack has the very tables it had, in
      the same order, and tables, stacks and functions are only ever added. */
  ghost predicate Ext(st: Store, st': Store) {
    && |st.tables| <= |st'.tables|
    && (forall i | 0 <= i < |st.tables| :: st'.tables[i].kind == st.tables[i].kind)
    && |st.stacks| <= |st'.stacks|
    && (forall j | 0 <= j < |st.stacks| ::
          st'.stacks[j].ids == st.stacks[j].ids && (st.stacks[j].posFunc >= 0 ==> st'.stacks[j].posFunc >= 0))
    && st.funcs <= st'.funcs
  }

  lemma ExtSelf(a: Store)
    ensures Ext(a, a)
  {
  }

  lemma ExtTrans(a: Store, b: Store, c: Store)
    requires Ext(a, b) && Ext(b, c)
    ensures Ext(a, c) && |a.stacks| <= |c.stacks|
  {
  }

  // ----- searching a stack -----

  /** The topmost table among ids[stop..] that binds x. */
  function Find(tables: seq<Table>, ids: seq<nat>, x: string, stop: int): (r: Option<nat>)
    requires ValidIds(ids, |tables|)
    ensures r.Some? ==> 0 < r.value < |tables| && x in tables[r.value].m && r.value in ids
  {
    if |ids| == 0 || |ids| - 1 < stop then None
    else if x in tables[ids[|ids| - 1]].m then Some(ids[|ids| - 1])
    else Find(tables, ids[..|ids| - 1], x, stop)
  }

  /** Where x is found depends only on which tables bind it. */
  lemma {:induction false} FindSame(a: seq<Table>, b: seq<Table>, ids: seq<nat>, x: string, stop: int)
    requires ValidIds(ids, |a|) && ValidIds(ids, |b|)
    requires forall i | 0 <= i < |ids| :: x in a[ids[i]].m <==> x in b[ids[i]].m
    ensures Find(a, ids, x, stop) == Find(b, ids, x, stop)
  {
    if |ids| > 0 {
      FindSame(a, b, ids[..|ids| - 1], x, stop);
    }
  }

  /** Where a name that is read comes from: the stack from the top, then the main table. */
  function ReadSite(st: Store, k: nat, x: string): (r: Option<nat>)
    requires Good(st, k)
    ensures r.Some? ==> r.value < |st.tables| && x in st.tables[r.value].m
  {
    match Find(st.tables, st.stacks[k].ids, x, 0)
    case Some(t) => Some(t)
    case None => if x in st.tables[0].m then Some(0) else None
  }

  function Lookup(st: Store, k: nat, x: string): Option<Value>
    requires Good(st, k)
  {
    match ReadSite(st, k, x)
    case Some(t) => Some(st.tables[t].m[x].v)
    case None => None
  }

  /** LookupObj: as Lookup, but a main-table entry counts only when it is global. */
  function LookupObj(st: Store, k: nat, x: string): Option<Value>
    requires Good(st, k)
  {
    match ReadSite(st, k, x)
    case Some(t) => if t == 0 && !st.tables[0].m[x].global then None else Some(st.tables[t].m[x].v)
    case None => None
  }

  function Top(st: Store, k: nat): (t: nat)
    requires Good(st, k)
    ensures t < |st.tables|
  {
    var ids := st.stacks[k].ids;
    if |ids| == 0 then 0 else ids[|ids| - 1]
  }

  /** The table an assignment to x writes. On a stack that ever held a function table
      the search stops at the recorded function table and a main-table entry is only
      taken when it is global; otherwise it is the table x is read from. */
  function WriteSite(st: Store, k: nat, x: string): (t: nat)
    requires Good(st, k)
    ensures t < |st.tables|
  {
    var stop := if st.stacks[k].posFunc >= 0 then st.stacks[k].posFunc else 0;
    match Find(st.tables, st.stacks[k].ids, x, stop)
    case Some(t) => t
    case None =>
      if x in st.tables[0].m && (st.stacks[k].posFunc < 0 || st.tables[0].m[x].global) then 0
      else Top(st, k)
  }

  // ----- changing tables -----

  function PutIn(m: map<string, Entry>, x: string, v: Value, global: bool): map<string, Entry> {
    m[x := Entry(v, if x in m then m[x].global else global)]
  }

  function Put(st: Store, t: nat, x: string, v: Value, global: bool): (st': Store)
    requires WF(st) && t < |st.tables|
    ensures WF(st') && Ext(st, st')
  {
    st.(tables := st.tables[t := st.tables[t].(m := PutIn(st.tables[t].m, x, v, global))])
  }

  /** Assignment to one name; `global` marks a binding created on an empty stack. */
  function SetVar(st: Store, k: nat, x: string, v: Value, global: bool): (st': Store)
    requires Good(st, k)
    ensures Good(st', k) && Ext(st, st')
  {
    Put(st, WriteSite(st, k, x), x, v, global && |st.stacks[k].ids| == 0 && st.stacks[k].posFunc < 0)
  }

  /** InsertEntry: an entry that already exists in the top table is left alone. */
  function InsertEntry(st: Store, k: nat, x: string, v: Value): (st': Store)
    requires Good(st, k)
    ensures Good(st', k) && Ext(st, st')
  {
    if x in st.tables[Top(st, k)].m then st else Put(st, Top(st, k), x, v, true)
  }

  function SetEntry(st: Store, k: nat, x: string, v: Value): (st': Store)
    requires Good(st, k)
    ensures Good(st', k) && Ext(st, st')
  {
    Put(st, Top(st, k), x, v, false)
  }

  function SetEntries(st: Store, k: nat, xs: seq<string>, vs: seq<Value>): (st': Store)
    requires Good(st, k) && |xs| == |vs|
    ensures Good(st', k) && Ext(st, st') && st'.stacks == st.stacks && st'.funcs == st.funcs
    ensures st'.defers == st.defers && st'.out == st.out
    decreases |xs|
  {
    if |xs| == 0 then st else SetEntries(SetEntry(st, k, xs[0], vs[0]), k, xs[1..], vs[1..])
  }

  /** SetEntryOnFunc: written into every function table of the stack, topmost first. */
  function PutOnFuncs(st: Store, ids: seq<nat>, x: string, v: Value): (st': Store)
    requires WF(st) && ValidIds(ids, |st.tables|)
    ensures WF(st') && Ext(st, st') && st'.stacks == st.stacks && st'.funcs == st.funcs
    ensures st'.defers == st.defers && st'.out == st.out && |st'.tables| == |st.tables|
    decreases |ids|
  {
    if |ids| == 0 then st
    else
      var t := ids[|ids| - 1];
      PutOnFuncs(if st.tables[t].kind == FuncTable then Put(st, t, x, v, false) else st, ids[..|ids| - 1], x, v)
  }

  // ----- pushing and popping -----

  function Push(st: Store, k: nat, kind: TableKind): (st': Store)
    requires Good(st, k)
    ensures Good(st', k) && |st'.stacks| == |st.stacks|
  {
    var s := st.stacks[k];
    var s' := Stack(s.ids + [|st.tables|], if kind == FuncTable then |s.ids| else s.posFunc);
    st.(tables := st.tables + [Table(kind, map[])], stacks := st.stacks[k := s'])
  }

  function Pop(st: Store, k: nat): (st': Store)
    requires Good(st, k) && |st.stacks[k].ids| > 0
    ensures Good(st', k)
  {
    var s := st.stacks[k];
    st.(stacks := st.stacks[k := s.(ids := s.ids[..|s.ids| - 1])])
  }

  /** Running on top of a pushed table and popping it afterwards is a complete run. */
  lemma PopExt(st: Store, k: nat, kind: TableKind, st': Store)
    requires Good(st, k) && WF(st')
    requires Ext(Push(st, k, kind), st')
    ensures |st'.stacks[k].ids| > 0 && Ext(st, Pop(st', k))
  {
    var s1 := Push(st, k, kind);
    assert st'.stacks[k].ids == s1.stacks[k].ids == st.stacks[k].ids + [|st.tables|];
    assert forall i | 0 <= i < |st.tables| :: s1.tables[i] == st.tables[i];
  }

  /** Entering an activation: a function table on top, and no deferred statements yet. */
  function Enter(st: Store, k: nat): (st': Store)
    requires Good(st, k)
    ensures Good(st', k)
  {
    Push(st, k, FuncTable).(defers := [])
  }

  lemma LeaveReady(st: Store, k: nat, st': Store)
    requires Good(st, k) && Good(st', k) && Ext(Enter(st, k), st')
    ensures |st'.stacks[k].ids| > 0 && Ext(st, Pop(st', k))
  {
    PopExt(st, k, FuncTable, st');
  }

  function Leave(st: Store, k: nat, st': Store): (st'': Store)
    requires Good(st, k) && Good(st', k) && Ext(Enter(st, k), st')
    ensures WF(st'') && Ext(st, st'') && st''.defers == st.defers
  {
    LeaveReady(st, k, st');
    Pop(st', k).(defers := st.defers)
  }

  // ----- deferred statements -----

  /** How many tables, from the bottom, up to and including the first function table. */
  function UntilFunc(tables: seq<Table>, ids: seq<nat>): (c: nat)
    requires ValidIds(ids, |tables|)
    ensures c <= |ids| && (c < |ids| ==> c > 0 && tables[ids[c - 1]].kind == FuncTable)
    ensures forall i | 0 <= i < c - 1 :: tables[ids[i]].kind != FuncTable
  {
    if |ids| == 0 then 0
    else if tables[ids[0]].kind == FuncTable then 1
    else 1 + UntilFunc(tables, ids[1..])
  }

  /** The stack a deferred statement gets: the tables of the current one, with copies of
      its bottom tables, up to the first function table, on top. */
  function PushDefer(st: Store, k: nat, s: Stmt): (st': Store)
    requires Good(st, k)
    ensures Good(st', k) && Ext(st, st')
    ensures st'.defers == st.defers + [Deferred(s, |st.stacks|)]
  {
    var ids := st.stacks[k].ids;
    var c := UntilFunc(st.tables, ids);
    var n := |st.tables|;
    st.(tables := st.tables + seq(c, i requires 0 <= i < c => st.tables[ids[i]]),
        stacks := st.stacks + [Stack(ids + seq(c, i requires 0 <= i < c => n + i), st.stacks[k].posFunc)],
        defers := st.defers + [Deferred(s, |st.stacks|)])
  }

  // ----- function objects -----

  function Declare(st: Store, k: nat, name: string, params: seq<string>, ss: seq<Stmt>): (st': Store)
    requires Good(st, k)
    ensures Good(st', k) && Ext(st, st') && st'.defers == st.defers
  {
    var s1 := st.(stacks := st.stacks + [Stack([], -1)],
                  funcs := st.funcs + [FuncObj(params, ss, |st.stacks|)]);
    InsertEntry(s1, k, name, Func(|st.funcs|))
  }
}
