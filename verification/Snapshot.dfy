/** What a deferred statement finds when its turn comes: the body has ended, and the
    statements deferred after it have run. */
module Snapshot {
  import opened Options
  import opened Syntax
  import opened SymbolTables
  import opened BigStep
  import opened Rebinding
  import D = Defers

  /** The store on which the i-th deferred statement is run, after all later ones. */
  ghost function Turn(n: nat, st: Store, i: nat, root: bool): (st': Store)
    requires WF(st)
    ensures WF(st') && Ext(st, st')
    decreases n
  {
    if |st.defers| <= i + 1 || n == 0 then st
    else
      var d := st.defers[|st.defers| - 1];
      var (o, s1) := RunStmt(n - 1, d.s, st, d.k, root);
      if o.Raised? || o.Stuck? then s1 else Turn(n - 1, D.Popped(n - 1, st, root), i, root)
  }

  /** How many rounds come before that turn. */
  ghost function Rounds(n: nat, st: Store, i: nat, root: bool): (rounds: nat)
    requires WF(st)
    ensures rounds <= n
    decreases n
  {
    if |st.defers| <= i + 1 || n == 0 then 0
    else
      var d := st.defers[|st.defers| - 1];
      var (o, s1) := RunStmt(n - 1, d.s, st, d.k, root);
      if o.Raised? || o.Stuck? then 1 else 1 + Rounds(n - 1, D.Popped(n - 1, st, root), i, root)
  }

  /** A round before the turn of the i-th in a run that comes to its end. */
  lemma TurnStep(n: nat, st: Store, i: nat, root: bool)
    requires WF(st) && i + 1 < |st.defers| && RunDefers(n, st, root).0.None?
    ensures n > 0
    ensures var s2 := D.Popped(n - 1, st, root);
            && Turn(n, st, i, root) == Turn(n - 1, s2, i, root)
            && Rounds(n, st, i, root) == 1 + Rounds(n - 1, s2, i, root)
            && RunDefers(n, st, root) == RunDefers(n - 1, s2, root)
            && |s2.defers| > i && s2.defers[..i + 1] == st.defers[..i + 1]
  {
    hide *;
    D.RoundExecutes(n, st, root);
    RoundKeepsFront(n - 1, st, i, root);
    TurnUnfold(n, st, i, root);
  }

  lemma TurnUnfold(n: nat, st: Store, i: nat, root: bool)
    requires WF(st) && i + 1 < |st.defers| && n > 0
    ensures var d := st.defers[|st.defers| - 1];
            var o := RunStmt(n - 1, d.s, st, d.k, root).0;
            !o.Raised? && !o.Stuck? ==>
              && Turn(n, st, i, root) == Turn(n - 1, D.Popped(n - 1, st, root), i, root)
              && Rounds(n, st, i, root) == 1 + Rounds(n - 1, D.Popped(n - 1, st, root), i, root)
  {
    hide Ext, WF, RunStmt;
  }

  lemma TurnNow(n: nat, st: Store, i: nat, root: bool)
    requires WF(st) && |st.defers| == i + 1
    ensures Turn(n, st, i, root) == st && Rounds(n, st, i, root) == 0 && st.defers[..i + 1] == st.defers
  {
    hide Ext, WF;
  }

  /** If the run of the deferred statements comes to its end, the turn of the i-th comes,
      with exactly the earlier ones still pending under it, and the run goes on from there. */
  lemma {:induction false} TurnComes(n: nat, st: Store, i: nat, root: bool)
    requires WF(st) && i < |st.defers| && RunDefers(n, st, root).0.None?
    ensures var t, rounds := Turn(n, st, i, root), Rounds(n, st, i, root);
            && t.defers == st.defers[..i + 1]
            && RunDefers(n, st, root) == RunDefers(n - rounds, t, root)
    decreases n
  {
    hide *;
    if |st.defers| > i + 1 {
      TurnStep(n, st, i, root);
      TurnComes(n - 1, D.Popped(n - 1, st, root), i, root);
    } else {
      TurnNow(n, st, i, root);
    }
  }

  lemma RoundKeepsFront(n: nat, st: Store, i: nat, root: bool)
    requires WF(st) && i + 1 < |st.defers|
    ensures var s2 := D.Popped(n, st, root); |s2.defers| > i && s2.defers[..i + 1] == st.defers[..i + 1]
  {
    hide Ext, RunStmt;
    D.RoundPops(n, st, root);
  }

  /** Statements that do not defer take one round each. */
  lemma {:induction false} PlainRounds(n: nat, st: Store, i: nat, root: bool)
    requires WF(st) && i < |st.defers| && RunDefers(n, st, root).0.None? && D.Plain(st.defers)
    ensures Rounds(n, st, i, root) == |st.defers| - i - 1
    decreases n
  {
    hide Ext, WF, RunStmt, RunDefers, D.NoDefer;
    DefersNone(n, st, root);
    if |st.defers| > i + 1 {
      DefersStep(n - 1, st, root);
      var d := st.defers[|st.defers| - 1];
      var (o, s1) := RunStmt(n - 1, d.s, st, d.k, root);
      D.StmtKeeps(n - 1, d.s, st, d.k, root);
      PlainRounds(n - 1, s1.(defers := s1.defers[..|s1.defers| - 1]), i, root);
    }
  }

  lemma DropTop(st: Store, c: nat, dk: nat)
    requires Outside(st, c, dk) && st.defers != []
    ensures Outside(st.(defers := st.defers[..|st.defers| - 1]), c, dk)
  {
  }

  /** A table that lies on no stack but the i-th deferred statement's own is as it was. */
  lemma {:induction false} TurnKeeps(n: nat, st: Store, i: nat, root: bool, c: nat, dk: nat)
    requires Outside(st, c, dk) && c > 0 && i < |st.defers|
    requires forall j | i < j < |st.defers| :: Elsewhere(st, c, dk, st.defers[j].k)
    ensures var t := Turn(n, st, i, root); c < |t.tables| && t.tables[c] == st.tables[c]
    decreases n
  {
    hide *;
    OutsideHas(st, c, dk);
    if |st.defers| > i + 1 && n > 0 {
      RoundOutside(n - 1, st, i, root, c, dk);
      OutsideHas(D.Popped(n - 1, st, root), c, dk);
      TurnEnds(n, st, i, root);
      var o := RunStmt(n - 1, st.defers[|st.defers| - 1].s, st, st.defers[|st.defers| - 1].k, root).0;
      if !o.Raised? && !o.Stuck? {
        TurnKeeps(n - 1, D.Popped(n - 1, st, root), i, root, c, dk);
        TurnUnfold(n, st, i, root);
      }
    } else {
      TurnStays(n, st, i, root);
    }
  }

  lemma OutsideHas(st: Store, c: nat, dk: nat)
    requires Outside(st, c, dk)
    ensures WF(st) && c < |st.tables| && (|st.defers| > 0 ==> Good(st, st.defers[|st.defers| - 1].k))
  {
  }

  lemma TurnStays(n: nat, st: Store, i: nat, root: bool)
    requires WF(st) && (|st.defers| <= i + 1 || n == 0)
    ensures Turn(n, st, i, root) == st
  {
    hide Ext, WF;
  }

  lemma TurnEnds(n: nat, st: Store, i: nat, root: bool)
    requires WF(st) && i + 1 < |st.defers| && n > 0
    ensures var d := st.defers[|st.defers| - 1];
            var o := RunStmt(n - 1, d.s, st, d.k, root).0;
            o.Raised? || o.Stuck? ==> Turn(n, st, i, root).tables == D.Popped(n - 1, st, root).tables
  {
    hide Ext, WF, RunStmt;
  }

  lemma RoundOutside(n: nat, st: Store, i: nat, root: bool, c: nat, dk: nat)
    requires Outside(st, c, dk) && c > 0 && i + 1 < |st.defers|
    requires forall j | i < j < |st.defers| :: Elsewhere(st, c, dk, st.defers[j].k)
    ensures var s2 := D.Popped(n, st, root);
            && Outside(s2, c, dk) && s2.tables[c] == st.tables[c] && i < |s2.defers|
            && forall j | i < j < |s2.defers| :: Elsewhere(s2, c, dk, s2.defers[j].k)
  {
    hide WF, Ext, RunStmt;
    var d := st.defers[|st.defers| - 1];
    var s1 := RunStmt(n, d.s, st, d.k, root).1;
    RunStmtLeft(n, d.s, st, d.k, root, c, dk);
    DropTop(s1, c, dk);
    D.RoundPops(n, st, root);
    var s2 := D.Popped(n, st, root);
    forall j | i < j < |s2.defers| ensures Elsewhere(s2, c, dk, s2.defers[j].k) {
      if j < |st.defers| {
        ElsewhereExt(st, s1, c, dk, st.defers[j].k);
      }
    }
  }

  // ----- what is read then -----

  /** The value x had in the tables that `defer` copies: those from the bottom of the stack
      up to the first function table. */
  ghost function Snapped(st: Store, k: nat, x: string): Option<Value>
    requires Good(st, k)
  {
    var ids := st.stacks[k].ids;
    match Find(st.tables, ids[..UntilFunc(st.tables, ids)], x, 0)
    case Some(t) => Some(st.tables[t].m[x].v)
    case None => None
  }

  /** The copies that `defer` makes are still what they were when the statement's turn
      comes. */
  lemma CopiesKept(n: nat, m: nat, d: Stmt, ss: seq<Stmt>, st: Store, k: nat, root: bool, j: nat)
    requires Good(st, k) && j < UntilFunc(st.tables, st.stacks[k].ids)
    ensures var t := Turn(m, RunList(n, ss, PushDefer(st, k, d), k, root).1, |st.defers|, root);
            && |st.tables| + j < |t.tables|
            && t.tables[|st.tables| + j] == st.tables[st.stacks[k].ids[j]]
  {
    hide RunList, RunStmt;
    var dk, c := |st.stacks|, |st.tables| + j;
    var s1 := PushDefer(st, k, d);
    assert Outside(s1, c, dk) && Elsewhere(s1, c, dk, k);
    RunListLeft(n, ss, s1, k, root, c, dk);
    TurnKeeps(m, RunList(n, ss, s1, k, root).1, |st.defers|, root, c, dk);
  }

  /** Searching tables with copies on top: first in the copies, then as without them. */
  lemma {:induction false} FindCopies(was: seq<Table>, now: seq<Table>, ids: seq<nat>, n: nat, c: nat, x: string)
    requires ValidIds(ids, |was|) && |was| <= |now| && c <= |ids| && 0 < n && n + c <= |now|
    requires forall j | 0 <= j < c :: now[n + j] == was[ids[j]]
    ensures var copies := Copies(n, c);
            && ValidIds(ids + copies, |now|)
            && match Find(was, ids[..c], x, 0)
               case Some(t) =>
                 var r := Find(now, ids + copies, x, 0); r.Some? && now[r.value].m[x].v == was[t].m[x].v
               case None => Find(now, ids + copies, x, 0) == Find(now, ids, x, 0)
    decreases c
  {
    hide Copies;
    if c == 0 {
      NoCopies(ids, n);
    } else {
      FindCopies(was, now, ids, n, c - 1, x);
      OneCopy(ids, n, c);
      TopCopy(was, now, ids, n, c, x);
    }
  }

  /** The places of c copies from n on. */
  function Copies(n: nat, c: nat): seq<nat> { seq(c, j requires 0 <= j < c => n + j) }

  lemma NoCopies(ids: seq<nat>, n: nat)
    ensures ids + Copies(n, 0) == ids && ids[..0] == []
  {
  }

  lemma OneCopy(ids: seq<nat>, n: nat, c: nat)
    requires 0 < c <= |ids|
    ensures ids + Copies(n, c) == ids + Copies(n, c - 1) + [n + c - 1]
    ensures ids[..c] == ids[..c - 1] + [ids[c - 1]]
  {
  }

  /** One more copy on top, of the table that is one further up. */
  lemma TopCopy(was: seq<Table>, now: seq<Table>, ids: seq<nat>, n: nat, c: nat, x: string)
    requires 0 < c <= |ids| && 0 < n && n + c <= |now| && ValidIds(ids, |was|)
    requires ValidIds(ids + Copies(n, c - 1), |now|) && now[n + c - 1] == was[ids[c - 1]]
    ensures ValidIds(ids + Copies(n, c), |now|)
    ensures var top := was[ids[c - 1]];
            && Find(was, ids[..c], x, 0) == (if x in top.m then Some(ids[c - 1]) else Find(was, ids[..c - 1], x, 0))
            && Find(now, ids + Copies(n, c), x, 0) ==
               if x in top.m then Some(n + c - 1) else Find(now, ids + Copies(n, c - 1), x, 0)
  {
    OneCopy(ids, n, c);
    var a, b := ids[..c], ids + Copies(n, c);
    assert a[|a| - 1] == ids[c - 1] && a[..|a| - 1] == ids[..c - 1];
    assert b[|b| - 1] == n + c - 1 && b[..|b| - 1] == ids + Copies(n, c - 1);
  }

  /** Deferred reads: when the turn of a deferred statement comes, whatever the rest of the
      body and the statements deferred later rebind, a name bound in the tables copied by
      `defer` is read with the value it had then, and every other name with the value that
      the activation's own stack gives it now. */
  lemma DeferredReads(n: nat, m: nat, d: Stmt, ss: seq<Stmt>, st: Store, k: nat, root: bool, x: string)
    requires Good(st, k)
    ensures var t := Turn(m, RunList(n, ss, PushDefer(st, k, d), k, root).1, |st.defers|, root);
            && Good(t, |st.stacks|) && Good(t, k)
            && Lookup(t, |st.stacks|, x) == if Snapped(st, k, x).Some? then Snapped(st, k, x) else Lookup(t, k, x)
  {
    var ids := st.stacks[k].ids;
    var c, dk, s1 := UntilFunc(st.tables, ids), |st.stacks|, PushDefer(st, k, d);
    hide *;
    DeferStack(st, k, d);
    var t := Turn(m, RunList(n, ss, s1, k, root).1, |st.defers|, root);
    TurnExt(n, m, ss, s1, k, |st.defers|, root);
    forall j | 0 <= j < c ensures |st.tables| + j < |t.tables| && t.tables[|st.tables| + j] == st.tables[ids[j]] {
      CopiesKept(n, m, d, ss, st, k, root, j);
    }
    ReadsCopies(st, t, k, dk, x);
  }

  lemma DeferStack(st: Store, k: nat, d: Stmt)
    requires Good(st, k)
    ensures var ids, s1 := st.stacks[k].ids, PushDefer(st, k, d);
            && |s1.stacks| > |st.stacks| && s1.stacks[k] == st.stacks[k] && |s1.defers| > |st.defers|
            && |st.tables| + UntilFunc(st.tables, ids) == |s1.tables|
            && s1.stacks[|st.stacks|].ids == ids + Copies(|st.tables|, UntilFunc(st.tables, ids))
  {
  }

  lemma TurnExt(n: nat, m: nat, ss: seq<Stmt>, s1: Store, k: nat, i: nat, root: bool)
    requires Good(s1, k)
    ensures var t := Turn(m, RunList(n, ss, s1, k, root).1, i, root);
            && |s1.tables| <= |t.tables| && |s1.stacks| <= |t.stacks|
            && forall j | 0 <= j < |s1.stacks| :: Good(t, j) && t.stacks[j].ids == s1.stacks[j].ids
  {
    hide RunList, Turn, WF;
    ExtTrans(s1, RunList(n, ss, s1, k, root).1, Turn(m, RunList(n, ss, s1, k, root).1, i, root));
  }

  /** Reading on a stack that has the tables of k and the kept copies. */
  lemma ReadsCopies(st: Store, t: Store, k: nat, dk: nat, x: string)
    requires Good(st, k) && Good(t, k) && Good(t, dk) && |st.tables| <= |t.tables|
    requires var ids := st.stacks[k].ids;
             var c := UntilFunc(st.tables, ids);
             && t.stacks[k].ids == ids && t.stacks[dk].ids == ids + Copies(|st.tables|, c)
             && |st.tables| + c <= |t.tables|
             && forall j | 0 <= j < c :: t.tables[|st.tables| + j] == st.tables[ids[j]]
    ensures Lookup(t, dk, x) == if Snapped(st, k, x).Some? then Snapped(st, k, x) else Lookup(t, k, x)
  {
    var ids := st.stacks[k].ids;
    var c := UntilFunc(st.tables, ids);
    hide Copies, UntilFunc;
    FindCopies(st.tables, t.tables, ids, |st.tables|, c, x);
  }

  /** In a recursive activation, whose stack still holds the function tables of the outer
      ones, the snapshot of a parameter is the outermost activation's, not its own. */
  lemma RecursiveSnapshot(n: nat, m: nat, d: Stmt, ss: seq<Stmt>, st: Store, k: nat, root: bool, x: string)
    requires Good(st, k) && |st.stacks[k].ids| > 1 && st.tables[st.stacks[k].ids[0]].kind == FuncTable
    requires x in st.tables[st.stacks[k].ids[0]].m && x in st.tables[Top(st, k)].m
    ensures Lookup(st, k, x) == Some(st.tables[Top(st, k)].m[x].v)
    ensures var t := Turn(m, RunList(n, ss, PushDefer(st, k, d), k, root).1, |st.defers|, root);
            Good(t, |st.stacks|) && Lookup(t, |st.stacks|, x) == Some(st.tables[st.stacks[k].ids[0]].m[x].v)
  {
    hide RunList, RunStmt, Turn;
    var ids := st.stacks[k].ids;
    assert UntilFunc(st.tables, ids) == 1 && ids[..1] == [ids[0]];
    DeferredReads(n, m, d, ss, st, k, root, x);
  }
}
