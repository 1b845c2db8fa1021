/** Which {...} parts of a string literal are found, by the grammar of what stands in them. */
module LiteralBodies {
  import opened LiteralString

  /** The inside of a part with its braces balanced: ordinary characters, a dollar sign
      that starts no command, braces around a body, quoted texts and commands. */
  datatype Body =
    | Empty
    | Char(c: char, tail: Body)
    | Dollar(c: char, tail: Body)
    | Nested(inner: Body, tail: Body)
    | Quoted(open: char, text: string, close: char, tail: Body)
    | Command(text: string, tail: Body)

  /** A text without the characters given, except behind a backslash. */
  predicate Free(x: string, stops: seq<char>) {
    || x == ""
    || (x[0] == '\\' && |x| >= 2 && Free(x[2..], stops))
    || (x[0] != '\\' && x[0] !in stops && Free(x[1..], stops))
  }

  predicate Ordinary(c: char) { c !in ['\'', '"', '{', '}', '$'] }

  /** Either kind of quote closes either kind. */
  predicate Proper(b: Body) {
    match b
    case Empty => true
    case Char(c, tail) => Ordinary(c) && Proper(tail)
    case Dollar(c, tail) => Ordinary(c) && c != '(' && Proper(tail)
    case Nested(inner, tail) => Proper(inner) && Proper(tail)
    case Quoted(open, text, close, tail) =>
      open in ['\'', '"'] && close in ['\'', '"'] && Free(text, ['\'', '"', '$']) && Proper(tail)
    case Command(text, tail) => Free(text, [')', '$']) && Proper(tail)
  }

  function Spelled(b: Body): string {
    match b
    case Empty => ""
    case Char(c, tail) => [c] + Spelled(tail)
    case Dollar(c, tail) => ['$', c] + Spelled(tail)
    case Nested(inner, tail) => "{" + Spelled(inner) + "}" + Spelled(tail)
    case Quoted(open, text, close, tail) => [open] + text + [close] + Spelled(tail)
    case Command(text, tail) => "$(" + text + ")" + Spelled(tail)
  }

  lemma Stepped(s: string, k: nat, rest: string, m: Mode, m': Mode)
    requires m.braces > 0 && s != "" && Step(s, m) == Move(k, m') && s[k..] == rest && k <= |s| && m'.braces > 0
    ensures BraceEnd(s, m) == k + BraceEnd(rest, m')
  {
    hide Step;
    BraceEndStep(s, m);
  }

  lemma Apart(a: string, b: string, c: string)
    ensures a + (b + c) == a + b + c
    ensures (a + b)[|a|..] == b && (a + b + c)[|a|..] == b + c
  {
  }

  /** A free text inside quotes, or inside a command, changes nothing. */
  lemma {:induction false} FreeText(x: string, rest: string, m: Mode)
    requires m.braces > 0 && m.inString != m.inCmd && rest != ""
    requires Free(x, if m.inCmd then [')', '$'] else ['\'', '"', '$'])
    ensures BraceEnd(x + rest, m) == |x| + BraceEnd(rest, m)
    decreases |x|
  {
    if x == "" {
      assert x + rest == rest;
    } else if x[0] == '\\' {
      assert (x + rest)[0] == x[0] && (x + rest)[2..] == x[2..] + rest;
      Stepped(x + rest, 2, x[2..] + rest, m, m);
      FreeText(x[2..], rest, m);
    } else {
      assert (x + rest)[0] == x[0] && (x + rest)[1..] == x[1..] + rest;
      Stepped(x + rest, 1, x[1..] + rest, m, m);
      FreeText(x[1..], rest, m);
    }
  }

  /** A balanced body leaves the scan as it was, at any depth. */
  lemma {:induction false} BodyPassed(b: Body, rest: string, n: nat)
    requires Proper(b) && n > 0 && rest != ""
    ensures var m := Mode(n, false, false); BraceEnd(Spelled(b) + rest, m) == |Spelled(b)| + BraceEnd(rest, m)
    decreases b
  {
    hide BraceEnd, Step, Free;
    var m := Mode(n, false, false);
    match b
    case Empty => assert "" + rest == rest;
    case Char(c, tail) =>
      CharPassed(c, Spelled(tail) + rest, n);
      Apart([c], Spelled(tail), rest);
      BodyPassed(tail, rest, n);
    case Dollar(c, tail) =>
      DollarPassed(c, Spelled(tail) + rest, n);
      Apart(['$', c], Spelled(tail), rest);
      BodyPassed(tail, rest, n);
    case Nested(inner, tail) =>
      BodyPassed(inner, "}" + (Spelled(tail) + rest), n + 1);
      NestedPassed(inner, Spelled(tail) + rest, n);
      Apart("{" + Spelled(inner) + "}", Spelled(tail), rest);
      BodyPassed(tail, rest, n);
    case Quoted(open, text, close, tail) =>
      QuotedPassed(open, text, close, Spelled(tail) + rest, n);
      Apart([open] + text + [close], Spelled(tail), rest);
      BodyPassed(tail, rest, n);
    case Command(text, tail) =>
      CommandPassed(text, Spelled(tail) + rest, n);
      Apart("$(" + text + ")", Spelled(tail), rest);
      BodyPassed(tail, rest, n);
  }

  lemma CharPassed(c: char, rest: string, n: nat)
    requires Ordinary(c) && n > 0
    ensures var m := Mode(n, false, false); BraceEnd([c] + rest, m) == 1 + BraceEnd(rest, m)
  {
    hide BraceEnd;
    var m := Mode(n, false, false);
    assert ([c] + rest)[1..] == rest;
    Stepped([c] + rest, 1, rest, m, m);
  }

  lemma DollarPassed(c: char, rest: string, n: nat)
    requires Ordinary(c) && c != '(' && n > 0
    ensures var m := Mode(n, false, false); BraceEnd(['$', c] + rest, m) == 2 + BraceEnd(rest, m)
  {
    hide BraceEnd;
    var m := Mode(n, false, false);
    assert (['$', c] + rest)[1..] == [c] + rest && (['$', c] + rest)[1] == c;
    Stepped(['$', c] + rest, 1, [c] + rest, m, m);
    CharPassed(c, rest, n);
  }

  lemma NestedPassed(inner: Body, rest: string, n: nat)
    requires n > 0
    requires var s := "}" + rest;
             BraceEnd(Spelled(inner) + s, Mode(n + 1, false, false)) ==
             |Spelled(inner)| + BraceEnd(s, Mode(n + 1, false, false))
    ensures var x, m := "{" + Spelled(inner) + "}", Mode(n, false, false);
            BraceEnd(x + rest, m) == |x| + BraceEnd(rest, m)
  {
    hide BraceEnd;
    var x, m, m1 := Spelled(inner), Mode(n, false, false), Mode(n + 1, false, false);
    var s := "}" + rest;
    assert "{" + x + "}" + rest == "{" + (x + s) && ("{" + (x + s))[1..] == x + s && s[1..] == rest;
    Stepped("{" + (x + s), 1, x + s, m, m1);
    Stepped(s, 1, rest, m1, m);
  }

  lemma QuotedPassed(open: char, text: string, close: char, rest: string, n: nat)
    requires n > 0 && open in ['\'', '"'] && close in ['\'', '"'] && Free(text, ['\'', '"', '$'])
    ensures var x, m := [open] + text + [close], Mode(n, false, false);
            BraceEnd(x + rest, m) == |x| + BraceEnd(rest, m)
  {
    hide BraceEnd, Free;
    var m, m1 := Mode(n, false, false), Mode(n, true, false);
    var s := [close] + rest;
    assert [open] + text + [close] + rest == [open] + (text + s);
    assert ([open] + (text + s))[1..] == text + s && s[1..] == rest;
    Stepped([open] + (text + s), 1, text + s, m, m1);
    FreeText(text, s, m1);
    Stepped(s, 1, rest, m1, m);
  }

  lemma CommandPassed(text: string, rest: string, n: nat)
    requires n > 0 && Free(text, [')', '$'])
    ensures var x, m := "$(" + text + ")", Mode(n, false, false);
            BraceEnd(x + rest, m) == |x| + BraceEnd(rest, m)
  {
    hide BraceEnd, Free;
    var m, m1 := Mode(n, false, false), Mode(n, false, true);
    var s := ")" + rest;
    assert "$(" + text + ")" + rest == "$(" + (text + s);
    assert ("$(" + (text + s))[2..] == text + s && ("$(" + (text + s))[1] == '(' && s[1..] == rest;
    Stepped("$(" + (text + s), 2, text + s, m, m1);
    FreeText(text, s, m1);
    Stepped(s, 1, rest, m1, m);
  }

  // ----- whole literals -----

  lemma {:induction false} TextPassed(x: string, rest: string)
    requires Free(x, ['{']) && (rest == "" || rest[0] == '{')
    ensures TextEnd(x + rest) == |x|
    decreases |x|
  {
    if x == "" {
      assert x + rest == rest;
    } else if x[0] == '\\' {
      assert (x + rest)[0] == x[0] && (x + rest)[2..] == x[2..] + rest;
      TextPassed(x[2..], rest);
    } else {
      assert (x + rest)[0] == x[0] && (x + rest)[1..] == x[1..] + rest;
      TextPassed(x[1..], rest);
    }
  }

  /** A text without a bare opening brace, then a part with a balanced body: they are the
      first two tokens, whatever follows. */
  lemma PartFound(x: string, b: Body, rest: string)
    requires Free(x, ['{']) && Proper(b)
    ensures Split(x + "{" + Spelled(b) + "}" + rest) ==
            Prepend(Token(x, false), Prepend(Token(Spelled(b), true), Split(rest)))
  {
    hide Free, Proper, Spelled, TextEnd, BraceEnd, Split;
    var y, tail := Spelled(b), "}" + rest;
    var s := x + "{" + y + "}" + rest;
    assert s == x + ("{" + (y + tail)) && ("{" + (y + tail))[0] == '{';
    TextPassed(x, "{" + (y + tail));
    BodyPassed(b, tail, 1);
    Closes(tail);
    assert s[..|x|] == x && s[|x| + 1..] == y + tail;
    TextMoved(s, |x|);
    assert (y + tail)[..|y|] == y && (y + tail)[|y| + 1..] == rest;
    BracesMoved(y + tail, |y|);
  }

  lemma Closes(tail: string)
    requires tail != "" && tail[0] == '}'
    ensures BraceEnd(tail, START) == 0
  {
  }

  function Joined(items: seq<(string, Body)>, last: string): string {
    if items == [] then last
    else items[0].0 + "{" + Spelled(items[0].1) + "}" + Joined(items[1..], last)
  }

  function TokensOf(items: seq<(string, Body)>, last: string): seq<Token> {
    if items == [] then (if last == "" then [] else [Token(last, false)])
    else [Token(items[0].0, false), Token(Spelled(items[0].1), true)] + TokensOf(items[1..], last)
  }

  /** A literal put together from texts and parts splits into exactly these. */
  lemma {:induction false} JoinedSplits(items: seq<(string, Body)>, last: string)
    requires Free(last, ['{']) && forall i | 0 <= i < |items| :: Free(items[i].0, ['{']) && Proper(items[i].1)
    ensures Split(Joined(items, last)) == Ok(TokensOf(items, last))
    decreases |items|
  {
    hide Free, Proper, Split;
    if items == [] {
      TextPassed(last, "");
      assert last + "" == last;
      SplitText(last);
    } else {
      JoinedSplits(items[1..], last);
      PartFound(items[0].0, items[0].1, Joined(items[1..], last));
      var t, u, more := Token(items[0].0, false), Token(Spelled(items[0].1), true), TokensOf(items[1..], last);
      assert [t] + ([u] + more) == [t, u] + more;
    }
  }
}
