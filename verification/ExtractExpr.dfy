/** Replacing the ${...} parts of a command word by their values. */
module ExtractExpr {

  import opened Options

  /** The character past the end of a string is null. */
  function At(s: string, i: nat): char { if i < |s| then s[i] else '\0' }

  /** The scan from position i: the positions of the first opening brace and of the brace
      that closes it. A character after $ is not looked at again, and while a double quote
      is open no brace counts. */
  function Scan(s: string, i: nat, start: int, open: nat, valid: bool): (r: Option<(nat, nat)>)
    requires i <= |s| + 1 && start >= -1
    requires start >= 0 ==> 1 <= start < i && s[start - 1] == '$' && At(s, start) == '{'
    ensures r.Some? ==> 1 <= r.value.0 < r.value.1 < |s| && i <= r.value.1
    ensures r.Some? ==> s[r.value.0 - 1] == '$' && s[r.value.0] == '{' && s[r.value.1] == '}'
    ensures r.Some? && start >= 0 ==> r.value.0 == start
    decreases |s| + 1 - i
  {
    if i >= |s| then None
    else
      match s[i]
      case '$' =>
        if At(s, i + 1) == '{' && start == -1 then Scan(s, i + 2, i + 1, open + 1, valid)
        else Scan(s, i + 2, start, open, valid)
      case '}' =>
        if open > 1 && valid then Scan(s, i + 1, start, open - 1, valid)
        else if start >= 0 && valid then Some((start, i))
        else Scan(s, i + 1, start, open, valid)
      case '{' => Scan(s, i + 1, start, if open > 0 && valid then open + 1 else open, valid)
      case '"' => Scan(s, i + 1, start, open, !valid)
      case _ => Scan(s, i + 1, start, open, valid)
  }

  class ExtractExpr {
    const src: string
    var cursor: nat
    var c: char
    var start: int
    var end: int
    var open: nat
    var valid: bool

    constructor (src: string)
      requires src != ""
      ensures this.src == src && cursor == 0 && c == src[0] && start == -1 && end == -1 && open == 0 && valid
    {
      this.src := src;
      cursor, c, start, end, open, valid := 0, src[0], -1, -1, 0, true;
    }

    method Advance()
      requires cursor < |src|
      modifies this`cursor, this`c
      ensures cursor == old(cursor) + 1 && c == At(src, cursor)
    {
      cursor := cursor + 1;
      c := if cursor < |src| then src[cursor] else '\0';
    }

    /** The bounds of the first expression, or no end position. */
    method Extract()
      requires src != "" && cursor == 0 && c == src[0] && start == -1 && end == -1 && open == 0 && valid
      modifies this
      ensures var r := Scan(src, 0, -1, 0, true);
              if r.Some? then (start, end) == (r.value.0, r.value.1) else end == -1
    {
      while true
        invariant cursor < |src| && c == src[cursor] && start >= -1 && end == -1
        invariant start >= 0 ==> 1 <= start < cursor && src[start - 1] == '$' && src[start] == '{'
        invariant Scan(src, 0, -1, 0, true) == Scan(src, cursor, start, open, valid)
        decreases |src| - cursor
      {
        match c {
          case '$' =>
            Advance();
            if c == '{' && start == -1 {
              start := cursor;
              open := open + 1;
            }
          case '}' =>
            if open > 1 && valid {
              open := open - 1;
            } else if start >= 0 && valid {
              end := cursor;
              return;
            }
          case '{' =>
            if open > 0 && valid {
              open := open + 1;
            }
          case '"' =>
            valid := !valid;
          case _ =>
        }
        if cursor + 1 < |src| {
          Advance();
        } else {
          return;
        }
      }
    }
  }

  // ----- the whole string -----

  datatype Part = Gap(text: string) | Expr(text: string)

  /** The untouched gaps and the expressions of a string, in order. */
  function Parts(s: string): (ps: seq<Part>)
    decreases |s|
  {
    var r := Scan(s, 0, -1, 0, true);
    if r.None? then [Gap(s)]
    else
      var (start, end) := r.value;
      [Gap(s[..start - 1]), Expr(s[start - 1..end + 1])] + Parts(s[end + 1..])
  }

  function Source(ps: seq<Part>): string {
    if ps == [] then "" else ps[0].text + Source(ps[1..])
  }

  /** Every expression replaced by its value. */
  function Resolved(ps: seq<Part>, resolve: string -> string): string {
    if ps == [] then ""
    else (if ps[0].Gap? then ps[0].text else resolve(ps[0].text)) + Resolved(ps[1..], resolve)
  }

  method ExtractCmdExprFromString(str: string, resolve: string -> string) returns (result: string)
    requires str != ""
    ensures result == Resolved(Parts(str), resolve)
  {
    hide Scan, Parts;
    var hasExpr, src := true, str;
    result := "";
    ghost var rest := Parts(str);
    while hasExpr
      invariant hasExpr ==> src != "" && rest == Parts(src)
      invariant !hasExpr ==> rest == []
      invariant result + Resolved(rest, resolve) == Resolved(Parts(str), resolve)
      decreases hasExpr, |src|
    {
      var e := new ExtractExpr(src);
      e.Extract();
      if e.start != -1 && e.end != -1 {
        var start, end := e.start, e.end;
        var expr := src[start - 1..end + 1];
        TwoParts(src, start, end, resolve);
        var value := resolve(expr);
        Regroup(result, src[..start - 1], value, Resolved(Parts(src[end + 1..]), resolve));
        result := result + src[..start - 1] + value;
        if end >= |src| - 2 {
          hasExpr := false;
          OneChar(src[end + 1..], resolve);
          result := result + src[end + 1..];
          rest := [];
        } else {
          src := src[end + 1..];
          rest := Parts(src);
        }
      } else {
        hasExpr := false;
        LastPart(src, resolve);
        result := result + src;
        rest := [];
      }
    }
  }

  lemma TwoParts(s: string, start: nat, end: nat, resolve: string -> string)
    requires Scan(s, 0, -1, 0, true) == Some((start, end))
    ensures Resolved(Parts(s), resolve) ==
            s[..start - 1] + resolve(s[start - 1..end + 1]) + Resolved(Parts(s[end + 1..]), resolve)
  {
    hide Scan;
    var more := Parts(s[end + 1..]);
    var gap, expr := Gap(s[..start - 1]), Expr(s[start - 1..end + 1]);
    assert Parts(s) == [gap, expr] + more;
    hide Parts;
    Two(gap, expr, more, resolve);
  }

  lemma Two(gap: Part, expr: Part, more: seq<Part>, resolve: string -> string)
    requires gap.Gap? && expr.Expr?
    ensures Resolved([gap, expr] + more, resolve) == gap.text + resolve(expr.text) + Resolved(more, resolve)
    ensures Source([gap, expr] + more) == gap.text + expr.text + Source(more)
  {
    var ps := [gap, expr] + more;
    assert ps[1..] == [expr] + more && ([expr] + more)[1..] == more;
    Assoc(gap.text, resolve(expr.text), Resolved(more, resolve));
    Assoc(gap.text, expr.text, Source(more));
  }

  lemma Regroup(a: string, b: string, c: string, d: string)
    ensures a + (b + c + d) == a + b + c + d
  {
  }

  lemma Assoc(a: string, b: string, c: string)
    ensures a + (b + c) == a + b + c
  {
  }

  lemma LastPart(s: string, resolve: string -> string)
    requires Scan(s, 0, -1, 0, true).None?
    ensures Resolved(Parts(s), resolve) == s
  {
    assert Resolved(Parts(s), resolve) == s + Resolved([], resolve);
  }

  /** What is left after the last expression, when it is at most one character. */
  lemma OneChar(s: string, resolve: string -> string)
    requires |s| <= 1
    ensures Resolved(Parts(s), resolve) == s
  {
    LastPart(s, resolve);
  }

  // ----- nothing is lost -----

  /** The parts, one after the other, are the string. */
  lemma {:induction false} PartsPartition(s: string)
    ensures Source(Parts(s)) == s
    decreases |s|
  {
    hide Scan, Source;
    var r := Scan(s, 0, -1, 0, true);
    if r.None? {
      LastPartSource(s);
    } else {
      var (start, end) := r.value;
      var gap, expr, rest := s[..start - 1], s[start - 1..end + 1], s[end + 1..];
      PartsPartition(rest);
      FirstParts(s, start, end);
      Cut(s, start - 1, end + 1);
    }
  }

  lemma FirstParts(s: string, start: nat, end: nat)
    requires Scan(s, 0, -1, 0, true) == Some((start, end))
    ensures Source(Parts(s)) == s[..start - 1] + s[start - 1..end + 1] + Source(Parts(s[end + 1..]))
  {
    hide Scan, Source;
    var gap, expr, rest := s[..start - 1], s[start - 1..end + 1], s[end + 1..];
    Two(Gap(gap), Expr(expr), Parts(rest), x => x);
    assert Parts(s) == [Gap(gap), Expr(expr)] + Parts(rest);
  }

  lemma Cut(s: string, i: nat, j: nat)
    requires i <= j <= |s|
    ensures s[..i] + s[i..j] + s[j..] == s
  {
  }

  predicate Shaped(p: Part, i: nat) {
    if i % 2 == 0 then p.Gap?
    else p.Expr? && |p.text| >= 3 && p.text[0] == '$' && p.text[1] == '{' && p.text[|p.text| - 1] == '}'
  }

  lemma GapShaped(s: string)
    ensures Shaped(Gap(s), 0)
  {
  }

  lemma ExprShaped(s: string, start: nat, end: nat)
    requires 1 <= start < end < |s| && s[start - 1] == '$' && s[start] == '{' && s[end] == '}'
    ensures Shaped(Expr(s[start - 1..end + 1]), 1)
  {
  }

  lemma ShapedAfter(gap: Part, expr: Part, more: seq<Part>)
    requires Shaped(gap, 0) && Shaped(expr, 1) && forall i | 0 <= i < |more| :: Shaped(more[i], i)
    ensures var ps := [gap, expr] + more; forall i | 0 <= i < |ps| :: Shaped(ps[i], i)
  {
    var ps := [gap, expr] + more;
    forall i | 2 <= i < |ps| ensures Shaped(ps[i], i) {
      assert ps[i] == more[i - 2] && Shaped(more[i - 2], i - 2);
    }
  }

  /** Gaps and expressions alternate, starting and ending with a gap; an expression runs
      from ${ to }. */
  lemma {:induction false} PartsShape(s: string)
    ensures |Parts(s)| % 2 == 1 && forall i | 0 <= i < |Parts(s)| :: Shaped(Parts(s)[i], i)
    decreases |s|
  {
    hide Scan, Shaped;
    var r := Scan(s, 0, -1, 0, true);
    GapShaped(s);
    if r.Some? {
      var (start, end) := r.value;
      GapShaped(s[..start - 1]);
      var gap, expr, more := Gap(s[..start - 1]), Expr(s[start - 1..end + 1]), Parts(s[end + 1..]);
      PartsShape(s[end + 1..]);
      assert Parts(s) == [gap, expr] + more;
      ExprShaped(s, start, end);
      ShapedAfter(gap, expr, more);
    }
  }

  lemma LastPartSource(s: string)
    ensures Source([Gap(s)]) == s
  {
    assert Source([Gap(s)]) == s + Source([]);
  }

  lemma {:induction false} Identity(ps: seq<Part>, resolve: string -> string)
    requires forall i | 0 <= i < |ps| :: ps[i].Expr? ==> resolve(ps[i].text) == ps[i].text
    ensures Resolved(ps, resolve) == Source(ps)
  {
    if ps != [] { Identity(ps[1..], resolve); }
  }

  /** Only the expressions can change: when each of them stands for itself, what
      ExtractCmdExprFromString returns is the string it was given. */
  lemma Lossless(s: string, resolve: string -> string)
    requires forall i | 0 <= i < |Parts(s)| :: Parts(s)[i].Expr? ==> resolve(Parts(s)[i].text) == Parts(s)[i].text
    ensures Resolved(Parts(s), resolve) == s
  {
    hide Scan, Parts;
    Identity(Parts(s), resolve);
    PartsPartition(s);
  }

  // ----- which expressions are found -----

  /** The parity of the double quotes. */
  function Paired(s: string): bool {
    if s == "" then true else (s[0] == '"') != Paired(s[1..])
  }

  predicate Simple(s: string) { '$' !in s && '{' !in s && '}' !in s }

  ghost predicate Started(s: string, i: nat, start: int) {
    i <= |s| + 1 && start >= -1 && (start >= 0 ==> 1 <= start < i && s[start - 1] == '$' && At(s, start) == '{')
  }

  lemma ScanChar(s: string, i: nat, start: int, open: nat, valid: bool)
    requires i < |s| && Started(s, i, start)
    ensures s[i] == '"' ==> Scan(s, i, start, open, valid) == Scan(s, i + 1, start, open, !valid)
    ensures s[i] !in ['"', '$', '{', '}'] ==> Scan(s, i, start, open, valid) == Scan(s, i + 1, start, open, valid)
    ensures s[i] == '$' && At(s, i + 1) == '{' && start == -1 ==>
              Scan(s, i, start, open, valid) == Scan(s, i + 2, i + 1, open + 1, valid)
    ensures s[i] == '}' && open == 1 && start >= 0 ==>
              Scan(s, i, start, open, valid) == if valid then Some((start, i)) else Scan(s, i + 1, start, open, valid)
  {
  }

  lemma ScanEnd(s: string, start: int, open: nat, valid: bool)
    requires Started(s, |s|, start)
    ensures Scan(s, |s|, start, open, valid) == None
  {
  }

  /** Plain characters change only the quote state. */
  lemma {:induction false} ScanSimple(s: string, i: nat, x: string, start: int, open: nat, valid: bool)
    requires i + |x| <= |s| && s[i..i + |x|] == x && Simple(x) && Started(s, i, start)
    ensures Scan(s, i, start, open, valid) == Scan(s, i + |x|, start, open, valid == Paired(x))
    decreases |x|
  {
    hide Scan;
    if x != "" {
      assert s[i] == s[i..i + |x|][0] == x[0] && x[0] in x;
      assert s[i + 1..i + 1 + |x[1..]|] == x[1..];
      ScanChar(s, i, start, open, valid);
      ScanSimple(s, i + 1, x[1..], start, open, if x[0] == '"' then !valid else valid);
    }
  }

  /** An expression without inner braces is found exactly when the double quotes before
      its closing brace pair up. */
  lemma OneExpression(gap: string, x: string, rest: string)
    requires Simple(gap) && Simple(x) && Simple(rest)
    ensures Scan(gap + "${" + x + "}" + rest, 0, -1, 0, true) ==
            if Paired(gap) == Paired(x) then Some((|gap| + 1, |gap| + 2 + |x|)) else None
  {
    var s := gap + "${" + x + "}" + rest;
    hide *;
    Layout(gap, x, rest);
    Opens(s, gap);
    Closes(s, |gap|, x, Paired(gap));
    if Paired(gap) != Paired(x) {
      Ignored(s, |gap|, |gap| + 2 + |x|, rest);
    }
  }

  lemma Layout(gap: string, x: string, rest: string)
    ensures var s, p, q := gap + "${" + x + "}" + rest, |gap|, |gap| + 2 + |x|;
            && |s| == |gap| + 3 + |x| + |rest|
            && s[..p] == gap && s[p] == '$' && s[p + 1] == '{' && s[p + 2..q] == x && s[q] == '}'
            && s[q + 1..] == rest
  {
  }

  lemma Opens(s: string, gap: string)
    requires Simple(gap) && |gap| + 1 < |s| && s[..|gap|] == gap && s[|gap|] == '$' && s[|gap| + 1] == '{'
    ensures Scan(s, 0, -1, 0, true) == Scan(s, |gap| + 2, |gap| + 1, 1, Paired(gap))
  {
    hide Simple, Paired, Scan;
    assert s[0..0 + |gap|] == gap;
    ScanSimple(s, 0, gap, -1, 0, true);
    ScanChar(s, |gap|, -1, 0, true == Paired(gap));
  }

  lemma Closes(s: string, p: nat, x: string, valid: bool)
    requires Simple(x) && p + 2 + |x| < |s| && s[p] == '$' && s[p + 1] == '{'
    requires s[p + 2..p + 2 + |x|] == x && s[p + 2 + |x|] == '}'
    ensures Scan(s, p + 2, p + 1, 1, valid) ==
            if valid == Paired(x) then Some((p + 1, p + 2 + |x|)) else Scan(s, p + 3 + |x|, p + 1, 1, false)
  {
    hide Simple, Paired, Scan;
    ScanSimple(s, p + 2, x, p + 1, 1, valid);
    ScanChar(s, p + 2 + |x|, p + 1, 1, valid == Paired(x));
  }

  lemma Ignored(s: string, p: nat, q: nat, rest: string)
    requires Simple(rest) && p + 2 <= q < |s| && s[p] == '$' && s[p + 1] == '{' && s[q + 1..] == rest
    ensures Scan(s, q + 1, p + 1, 1, false) == None
  {
    hide Simple, Paired, Scan;
    assert s[q + 1..q + 1 + |rest|] == rest;
    ScanSimple(s, q + 1, rest, p + 1, 1, false);
    ScanEnd(s, p + 1, 1, false == Paired(rest));
  }

  // ----- nested braces -----

  /** The body of an expression with its braces balanced: ordinary characters, $ with the
      character after it, braces around a body, and double quotes around a text. */
  datatype Body =
    | Empty
    | Char(c: char, tail: Body)
    | Dollar(c: char, tail: Body)
    | Braces(inner: Body, tail: Body)
    | Quotes(text: string, tail: Body)

  predicate Proper(b: Body) {
    match b
    case Empty => true
    case Char(c, tail) => c !in ['"', '$', '{', '}'] && Proper(tail)
    case Dollar(_, tail) => Proper(tail)
    case Braces(inner, tail) => Proper(inner) && Proper(tail)
    case Quotes(text, tail) => '"' !in text && '$' !in text && Proper(tail)
  }

  function Text(b: Body): string {
    match b
    case Empty => ""
    case Char(c, tail) => [c] + Text(tail)
    case Dollar(c, tail) => ['$', c] + Text(tail)
    case Braces(inner, tail) => "{" + Text(inner) + "}" + Text(tail)
    case Quotes(text, tail) => "\"" + text + "\"" + Text(tail)
  }

  /** x stands in s at position i. */
  predicate Stands(s: string, i: nat, x: string) { i + |x| <= |s| && s[i..i + |x|] == x }

  lemma StandsApart(s: string, i: nat, a: string, b: string)
    requires Stands(s, i, a + b)
    ensures Stands(s, i, a) && Stands(s, i + |a|, b)
  {
    assert forall k | 0 <= k < |a| :: s[i + k] == s[i..i + |a + b|][k] == a[k];
    assert forall k | 0 <= k < |b| :: s[i + |a| + k] == s[i..i + |a + b|][|a| + k] == b[k];
  }

  lemma StandsHead(s: string, i: nat, x: string)
    requires Stands(s, i, x) && x != ""
    ensures i < |s| && s[i] == x[0] && Stands(s, i + 1, x[1..])
  {
    assert s[i] == s[i..i + |x|][0];
    assert x == [x[0]] + x[1..];
    StandsApart(s, i, [x[0]], x[1..]);
  }

  /** Between double quotes braces do not count. */
  lemma {:induction false} ScanQuoted(s: string, i: nat, x: string, start: int, open: nat)
    requires Stands(s, i, x) && '"' !in x && '$' !in x && Started(s, i, start)
    ensures Scan(s, i, start, open, false) == Scan(s, i + |x|, start, open, false)
    decreases |x|
  {
    if x != "" {
      StandsHead(s, i, x);
      assert x[0] in x;
      ScanQuoted(s, i + 1, x[1..], start, open);
    }
  }

  /** Before the first ${ braces do not count either. */
  lemma {:induction false} ScanGap(s: string, i: nat, x: string, valid: bool)
    requires Stands(s, i, x) && '$' !in x
    ensures Scan(s, i, -1, 0, valid) == Scan(s, i + |x|, -1, 0, valid == Paired(x))
    decreases |x|
  {
    if x != "" {
      StandsHead(s, i, x);
      assert x[0] in x;
      ScanGap(s, i + 1, x[1..], if x[0] == '"' then !valid else valid);
    }
  }

  lemma ScanBrace(s: string, i: nat, start: int, open: nat)
    requires i < |s| && Started(s, i, start) && start >= 0 && open > 0
    ensures s[i] == '{' ==> Scan(s, i, start, open, true) == Scan(s, i + 1, start, open + 1, true)
    ensures s[i] == '}' ==> Scan(s, i, start, open, true) ==
                            if open > 1 then Scan(s, i + 1, start, open - 1, true) else Some((start, i))
    ensures s[i] == '$' ==> Scan(s, i, start, open, true) == Scan(s, i + 2, start, open, true)
  {
  }

  /** A balanced body leaves the count of open braces as it was. */
  lemma {:induction false} ScanBody(s: string, i: nat, b: Body, start: int, open: nat)
    requires Proper(b) && Stands(s, i, Text(b)) && Started(s, i, start) && start >= 0 && open > 0
    ensures Scan(s, i, start, open, true) == Scan(s, i + |Text(b)|, start, open, true)
    decreases b
  {
    hide Scan, Stands, Started;
    match b
    case Empty =>
    case Char(c, tail) =>
      ScanPlain(s, i, b, start, open);
      ScanBody(s, i + 1, tail, start, open);
    case Dollar(c, tail) =>
      ScanPlain(s, i, b, start, open);
      ScanBody(s, i + 2, tail, start, open);
    case Braces(inner, tail) =>
      ScanBraces(s, i, inner, tail, start, open);
      ScanBody(s, i + 1, inner, start, open + 1);
      ScanBrace(s, i + 1 + |Text(inner)|, start, open + 1);
      ScanBody(s, i + 2 + |Text(inner)|, tail, start, open);
    case Quotes(text, tail) =>
      ScanQuotes(s, i, text, tail, start, open);
      ScanBody(s, i + |text| + 2, tail, start, open);
  }

  /** A character of a body, or two of them after a $. */
  lemma ScanPlain(s: string, i: nat, b: Body, start: int, open: nat)
    requires Proper(b) && (b.Char? || b.Dollar?)
    requires Stands(s, i, Text(b)) && Started(s, i, start) && start >= 0 && open > 0
    ensures var n := if b.Char? then 1 else 2;
            && |Text(b)| == n + |Text(b.tail)| && Stands(s, i + n, Text(b.tail)) && Started(s, i + n, start)
            && Scan(s, i, start, open, true) == Scan(s, i + n, start, open, true)
  {
    hide Scan, Stands;
    var head := if b.Char? then [b.c] else ['$', b.c];
    StandsApart(s, i, head, Text(b.tail));
    StandsHead(s, i, head);
    StandsFit(s, i, head);
    if b.Char? {
      ScanChar(s, i, start, open, true);
    } else {
      ScanBrace(s, i, start, open);
    }
  }

  lemma StandsFit(s: string, i: nat, x: string)
    requires Stands(s, i, x)
    ensures i + |x| <= |s|
  {
  }

  lemma ScanBraces(s: string, i: nat, inner: Body, tail: Body, start: int, open: nat)
    requires Stands(s, i, Text(Braces(inner, tail))) && Started(s, i, start) && start >= 0 && open > 0
    ensures var j := i + 1 + |Text(inner)|;
            && Stands(s, i + 1, Text(inner)) && j < |s| && s[j] == '}' && Stands(s, j + 1, Text(tail))
            && Started(s, i + 1, start) && Started(s, j, start) && Started(s, j + 1, start)
            && |Text(Braces(inner, tail))| == 2 + |Text(inner)| + |Text(tail)|
            && Scan(s, i, start, open, true) == Scan(s, i + 1, start, open + 1, true)
  {
    hide Scan, Stands;
    Enclosed(s, i, "{", Text(inner), "}", Text(tail));
    ScanBrace(s, i, start, open);
  }

  lemma Enclosed(s: string, i: nat, a: string, x: string, b: string, y: string)
    requires Stands(s, i, a + x + b + y) && |a| == |b| == 1
    ensures var j := i + 1 + |x|;
            j < |s| && s[i] == a[0] && s[j] == b[0] && Stands(s, i + 1, x) && Stands(s, j + 1, y)
  {
    hide Stands;
    StandsApart(s, i, a + x + b, y);
    StandsApart(s, i, a + x, b);
    StandsApart(s, i, a, x);
    StandsHead(s, i, a);
    StandsHead(s, i + 1 + |x|, b);
  }

  lemma ScanQuotes(s: string, i: nat, x: string, tail: Body, start: int, open: nat)
    requires '"' !in x && '$' !in x
    requires Stands(s, i, Text(Quotes(x, tail))) && Started(s, i, start) && start >= 0 && open > 0
    ensures Stands(s, i + |x| + 2, Text(tail)) && Started(s, i + |x| + 2, start)
    ensures |Text(Quotes(x, tail))| == 2 + |x| + |Text(tail)|
    ensures Scan(s, i, start, open, true) == Scan(s, i + |x| + 2, start, open, true)
  {
    hide Scan, Stands;
    Enclosed(s, i, "\"", x, "\"", Text(tail));
    ScanChar(s, i, start, open, true);
    ScanQuoted(s, i + 1, x, start, open);
    ScanChar(s, i + 1 + |x|, start, open, false);
  }

  /** A text before an expression: no $, and the double quotes pair up. */
  predicate Before(gap: string) { '$' !in gap && Paired(gap) }

  function Whole(b: Body): string { "${" + Text(b) + "}" }

  /** Whatever follows, a balanced expression is found with its own closing brace. */
  lemma BalancedExpression(gap: string, b: Body, rest: string)
    requires Before(gap) && Proper(b)
    ensures Scan(gap + Whole(b) + rest, 0, -1, 0, true) == Some((|gap| + 1, |gap| + 2 + |Text(b)|))
  {
    var s, x := gap + "${" + Text(b) + "}" + rest, Text(b);
    assert s == gap + Whole(b) + rest;
    hide *;
    Layout(gap, x, rest);
    IsThere(s, 0, gap);
    IsThere(s, |gap| + 2, x);
    Balanced(s, gap, b);
  }

  lemma Balanced(s: string, gap: string, b: Body)
    requires Before(gap) && Proper(b) && Stands(s, 0, gap) && Stands(s, |gap| + 2, Text(b))
    requires |gap| + 2 + |Text(b)| < |s| && s[|gap|] == '$' && s[|gap| + 1] == '{' && s[|gap| + 2 + |Text(b)|] == '}'
    ensures Scan(s, 0, -1, 0, true) == Some((|gap| + 1, |gap| + 2 + |Text(b)|))
  {
    hide Scan, Proper, Paired, Stands, Text;
    ScanGap(s, 0, gap, true);
    ScanChar(s, |gap|, -1, 0, true);
    ScanBody(s, |gap| + 2, b, |gap| + 1, 1);
    ScanBrace(s, |gap| + 2 + |Text(b)|, |gap| + 1, 1);
  }

  lemma IsThere(s: string, i: nat, x: string)
    requires i + |x| <= |s| && s[i..i + |x|] == x
    ensures Stands(s, i, x)
  {
  }

  /** Texts and balanced expressions in turn, with a last text. */
  function Join(items: seq<(string, Body)>, last: string): string {
    if items == [] then last else items[0].0 + Whole(items[0].1) + Join(items[1..], last)
  }

  function PartsOf(items: seq<(string, Body)>, last: string): seq<Part> {
    if items == [] then [Gap(last)]
    else [Gap(items[0].0), Expr(Whole(items[0].1))] + PartsOf(items[1..], last)
  }

  /** A string put together from texts and balanced expressions is taken apart into them. */
  lemma {:induction false} JoinedParts(items: seq<(string, Body)>, last: string)
    requires '$' !in last && forall i | 0 <= i < |items| :: Before(items[i].0) && Proper(items[i].1)
    ensures Parts(Join(items, last)) == PartsOf(items, last)
    decreases |items|
  {
    hide Scan, Proper, Before;
    if items == [] {
      assert Scan(last, 0, -1, 0, true) == None by {
        assert last[0..0 + |last|] == last;
        IsThere(last, 0, last);
        ScanGap(last, 0, last, true);
        ScanEnd(last, -1, 0, true == Paired(last));
      }
    } else {
      var gap, b, rest := items[0].0, items[0].1, Join(items[1..], last);
      JoinedParts(items[1..], last);
      BalancedExpression(gap, b, rest);
      Pieces(gap, Text(b), rest);
    }
  }

  lemma Pieces(gap: string, x: string, rest: string)
    ensures var s := gap + ("${" + x + "}") + rest;
            && s[..|gap|] == gap && s[|gap|..|gap| + 3 + |x|] == "${" + x + "}" && s[|gap| + 3 + |x|..] == rest
  {
  }

  /** An inner ${ is not counted, so the first inner brace already closes the expression. */
  lemma InnerExpressionCuts(x: string, y: string, rest: string)
    requires Simple(x) && Simple(y) && Paired(x) && Paired(y)
    ensures Scan("${" + x + "${" + y + "}" + rest, 0, -1, 0, true) == Some((1, 4 + |x| + |y|))
  {
    hide Scan, Simple, Paired;
    var s := "${" + x + "${" + y + "}" + rest;
    assert s[0] == '$' && s[1] == '{' && s[2..2 + |x|] == x && s[2 + |x|] == '$' && s[3 + |x|] == '{';
    assert s[4 + |x|..4 + |x| + |y|] == y && s[4 + |x| + |y|] == '}';
    ScanChar(s, 0, -1, 0, true);
    ScanSimple(s, 2, x, 1, 1, true);
    ScanBrace(s, 2 + |x|, 1, 1);
    ScanSimple(s, 4 + |x|, y, 1, 1, true);
    ScanBrace(s, 4 + |x| + |y|, 1, 1);
  }

  function Replaced(items: seq<(string, Body)>, last: string, resolve: string -> string): string {
    if items == [] then last
    else items[0].0 + resolve(Whole(items[0].1)) + Replaced(items[1..], last, resolve)
  }

  /** There each expression is replaced by its value, and the texts stay. */
  lemma {:induction false} JoinedResolves(items: seq<(string, Body)>, last: string, resolve: string -> string)
    requires '$' !in last && forall i | 0 <= i < |items| :: Before(items[i].0) && Proper(items[i].1)
    ensures Resolved(Parts(Join(items, last)), resolve) == Replaced(items, last, resolve)
    decreases |items|
  {
    hide Scan, Proper, Before, Parts, Whole, Join;
    JoinedParts(items, last);
    if items == [] {
      assert [Gap(last)][1..] == [] && Resolved([], resolve) == "" && last + "" == last;
    } else {
      JoinedResolves(items[1..], last, resolve);
      JoinedParts(items[1..], last);
      Two(Gap(items[0].0), Expr(Whole(items[0].1)), PartsOf(items[1..], last), resolve);
    }
  }
}
