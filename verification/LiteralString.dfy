/** Splitting a string literal into plain text and the {...} parts that are interpreted. */
module LiteralString {

  function Min(a: nat, b: nat): nat { if a < b then a else b }

  datatype Token = Token(text: string, interpretable: bool)

  /** Thrown: the input ends inside an open brace. */
  datatype Result = Ok(tokens: seq<Token>) | Unclosed

  // ----- where the parts end -----

  /** The first brace that no backslash precedes, or the end. */
  function TextEnd(s: string): (q: nat)
    ensures q <= |s| && (q < |s| ==> s[q] == '{')
  {
    if s == "" then 0
    else if s[0] == '{' then 0
    else if s[0] == '\\' && |s| >= 2 then 2 + TextEnd(s[2..])
    else 1 + TextEnd(s[1..])
  }

  /** Inside a brace: how many are open, and whether within quotes or $(...). */
  datatype Mode = Mode(braces: nat, inString: bool, inCmd: bool)

  const START := Mode(1, false, false)

  datatype Move = Close | Move(length: nat, mode: Mode)

  function Step(s: string, m: Mode): (v: Move)
    requires s != "" && m.braces > 0
    ensures v.Move? ==> 1 <= v.length <= |s| && v.mode.braces > 0
    ensures v.Close? ==> s[0] == '}'
  {
    var quoted := m.inString || m.inCmd;
    match s[0]
    case '\'' => Move(1, if m.inCmd then m else m.(inString := !m.inString))
    case '"' => Move(1, if m.inCmd then m else m.(inString := !m.inString))
    case '\\' => Move(if quoted && |s| >= 2 then 2 else 1, m)
    case '{' => Move(1, if quoted then m else m.(braces := m.braces + 1))
    case '}' => if quoted then Move(1, m) else if m.braces == 1 then Close else Move(1, m.(braces := m.braces - 1))
    case '$' => if |s| >= 2 && s[1] == '(' then Move(2, m.(inCmd := true)) else Move(1, m)
    case ')' => Move(1, m.(inCmd := false))
    case _ => Move(1, m)
  }

  /** The brace that closes an interpreted part, or the end. */
  function BraceEnd(s: string, m: Mode): (e: nat)
    requires m.braces > 0
    ensures e <= |s| && (e < |s| ==> s[e] == '}')
  {
    if s == "" then 0
    else
      var v := Step(s, m);
      if v.Close? then 0 else v.length + BraceEnd(s[v.length..], v.mode)
  }

  // ----- the parts -----

  function Prepend(t: Token, r: Result): Result {
    if r.Ok? then Ok([t] + r.tokens) else r
  }

  /** The tokens of a literal. */
  function Split(s: string): Result
    decreases |s|, 2
  {
    Text("", s)
  }

  /** The tokens when some plain text has been read and s is left. */
  function Text(read: string, s: string): Result
    decreases |s|, 1
  {
    if s == "" then Ok([])
    else
      var q := TextEnd(s);
      if q == |s| then Ok([Token(read + s, false)])
      else Prepend(Token(read + s[..q], false), Braces("", s[q + 1..], START))
  }

  /** The tokens when part of an interpreted text has been read and s is left. */
  function Braces(read: string, s: string, m: Mode): Result
    requires m.braces > 0
    decreases |s|, 3
  {
    var e := BraceEnd(s, m);
    if e == |s| then Unclosed else Prepend(Token(read + s[..e], true), Split(s[e + 1..]))
  }

  // ----- the scanner -----

  function Joined(ts: seq<Token>, r: Result): Result {
    if r.Ok? then Ok(ts + r.tokens) else r
  }

  class ParserLiteralString {
    const str: string
    var interpreter: bool
    var token: string
    var braces: nat
    var inString: bool
    var inCmd: bool
    var pos: nat
    var tokens: seq<Token>

    constructor (str: string)
      ensures this.str == str && Valid() && Remaining() == Split(str) && tokens == [] && pos == 0
    {
      this.str := str;
      interpreter, token, braces, inString, inCmd, pos, tokens := false, "", 0, false, false, 0, [];
      new;
      assert str[0..] == str;
    }

    ghost predicate Valid()
      reads this
    {
      && pos <= |str|
      && (interpreter ==> braces > 0 && pos < |str|)
      && (!interpreter ==> braces == 0 && !inString && !inCmd && (pos == |str| ==> token == ""))
    }

    /** What the rest of the run still has to produce. */
    ghost function Remaining(): Result
      reads this
      requires Valid()
    {
      if interpreter then Braces(token, str[pos..], Mode(braces, inString, inCmd)) else Text(token, str[pos..])
    }

    predicate IsEnd()
      reads this
    {
      pos >= |str|
    }

    /** The null character past the end. */
    function GetChar(): char
      reads this
      requires pos <= |str|
    {
      if pos < |str| then str[pos] else '\0'
    }

    method NextAndPushChar()
      requires pos <= |str|
      modifies this`token, this`pos
      ensures pos == (if old(pos) < |str| then old(pos) + 1 else old(pos))
      ensures token == old(token) + str[old(pos)..pos]
    {
      if !IsEnd() {
        token := token + [str[pos]];
        pos := pos + 1;
      }
    }

    method PushStrToken(interpretable: bool)
      modifies this`token, this`tokens
      ensures tokens == old(tokens) + [Token(old(token), interpretable)] && token == ""
    {
      tokens := tokens + [Token(token, interpretable)];
      token := "";
    }

    /** The switch over one character outside braces. */
    method MoveInText()
      requires Valid() && !interpreter && pos < |str|
      modifies this
      ensures if str[old(pos)] == '{' then
                && interpreter && braces == 1 && pos == old(pos) + 1 && token == ""
                && tokens == old(tokens) + [Token(old(token), false)]
              else
                && !interpreter && braces == 0 && tokens == old(tokens)
                && pos == Min(old(pos) + (if str[old(pos)] == '\\' then 2 else 1), |str|)
                && token == old(token) + str[old(pos)..pos]
      ensures inString == old(inString) && inCmd == old(inCmd)
    {
      match GetChar() {
        case '\\' =>
          NextAndPushChar();
          NextAndPushChar();
        case '{' =>
          interpreter := true;
          braces := braces + 1;
          PushStrToken(false);
          pos := pos + 1;
        case _ =>
          NextAndPushChar();
      }
    }

    /** One round outside braces. */
    method ParserNotInterpretableStr() returns (ok: bool)
      requires Valid() && !interpreter && pos < |str|
      modifies this
      ensures ok ==> Valid() && pos > old(pos)
      ensures ok ==> Joined(tokens, Remaining()) == Joined(old(tokens), old(Remaining()))
      ensures !ok ==> old(Remaining()) == Unclosed
    {
      hide Text, Braces, TextEnd, BraceEnd, Split;
      ghost var rest, read := str[pos..], token;
      MoveInText();
      Slices(str, old(pos), pos);
      TextMove(read, rest);
      JoinedPrepend(old(tokens), Token(token, false), Ok([]));
      JoinedPrepend(old(tokens), Token(read, false), Braces("", rest[1..], START));
      if IsEnd() {
        Exhausted(START);
        if interpreter {
          return false;
        }
        PushStrToken(false);
      }
      ok := true;
    }

    /** The switch over one character inside braces. */
    method MoveInBraces()
      requires Valid() && interpreter
      modifies this
      ensures var v := Step(str[old(pos)..], Mode(old(braces), old(inString), old(inCmd)));
              if v.Close? then
                && pos == old(pos) + 1 && token == "" && tokens == old(tokens) + [Token(old(token), true)]
                && !interpreter && braces == 0 && !inString && !inCmd
              else
                && pos == old(pos) + v.length && token == old(token) + str[old(pos)..pos] && tokens == old(tokens)
                && interpreter && Mode(braces, inString, inCmd) == v.mode
    {
      ghost var rest := str[pos..];
      assert pos + 1 < |str| ==> rest[1] == str[pos + 1];
      match GetChar() {
        case '\'' =>
          if !inCmd {
            inString := !inString;
          }
          NextAndPushChar();
        case '"' =>
          if !inCmd {
            inString := !inString;
          }
          NextAndPushChar();
        case '\\' =>
          if inString || inCmd {
            NextAndPushChar();
          }
          NextAndPushChar();
        case '{' =>
          if !(inString || inCmd) {
            braces := braces + 1;
          }
          NextAndPushChar();
        case '}' =>
          if inString || inCmd {
            NextAndPushChar();
          } else {
            braces := braces - 1;
            if braces == 0 {
              interpreter := false;
              PushStrToken(true);
              pos := pos + 1;
            } else {
              NextAndPushChar();
            }
          }
        case '$' =>
          NextAndPushChar();
          if GetChar() == '(' {
            inCmd := true;
            NextAndPushChar();
          }
        case ')' =>
          inCmd := false;
          NextAndPushChar();
        case _ =>
          NextAndPushChar();
      }
    }

    /** One round inside braces. */
    method ParserInterpretableStr() returns (ok: bool)
      requires Valid() && interpreter
      modifies this
      ensures ok ==> Valid() && pos > old(pos)
      ensures ok ==> Joined(tokens, Remaining()) == Joined(old(tokens), old(Remaining()))
      ensures !ok ==> old(Remaining()) == Unclosed
    {
      hide Text, Braces, TextEnd, BraceEnd, Split, Step;
      ghost var rest, read, m := str[pos..], token, Mode(braces, inString, inCmd);
      MoveInBraces();
      Slices(str, old(pos), pos);
      BracesMove(read, rest, m);
      JoinedPrepend(old(tokens), Token(read, true), Text("", rest[1..]));
      ok := !(IsEnd() && interpreter);
      if !ok {
        Exhausted(Mode(braces, inString, inCmd));
      }
    }

    /** False when the source throws. */
    method Scanner() returns (ok: bool)
      requires Valid()
      modifies this
      ensures ok ==> Joined(old(tokens), old(Remaining())) == Ok(tokens)
      ensures !ok ==> old(Remaining()) == Unclosed
    {
      while !IsEnd()
        invariant Valid() && Joined(tokens, Remaining()) == Joined(old(tokens), old(Remaining()))
        decreases |str| - pos
      {
        if interpreter {
          ok := ParserInterpretableStr();
        } else {
          ok := ParserNotInterpretableStr();
        }
        if !ok {
          return;
        }
      }
      Exhausted(START);
      ok := true;
    }
  }

  lemma Slices(s: string, i: nat, j: nat)
    requires i < j <= |s|
    ensures s[i..][0] == s[i] && s[i..][j - i..] == s[j..] && s[i..][..j - i] == s[i..j]
    ensures j == |s| ==> s[i..j] == s[i..]
  {
  }

  lemma JoinedPrepend(ts: seq<Token>, t: Token, r: Result)
    ensures Joined(ts, Prepend(t, r)) == Joined(ts + [t], r)
    ensures Joined(ts, Ok([t])) == Joined(ts + [t], Ok([]))
  {
    if r.Ok? { assert ts + ([t] + r.tokens) == ts + [t] + r.tokens; }
  }

  lemma Exhausted(m: Mode)
    requires m.braces > 0
    ensures forall read :: Braces(read, "", m) == Unclosed
    ensures forall read :: Text(read, "") == Ok([])
  {
  }

  lemma TextMove(read: string, s: string)
    requires s != ""
    ensures s[0] == '{' ==> Text(read, s) == Prepend(Token(read, false), Braces("", s[1..], START))
    ensures s[0] != '{' ==>
              var k := if s[0] == '\\' && |s| >= 2 then 2 else 1;
              Text(read, s) == if k == |s| then Ok([Token(read + s, false)]) else Text(read + s[..k], s[k..])
  {
    hide Braces, BraceEnd, Split;
    assert read + s[..0] == read;
    if s[0] != '{' {
      hide Text;
      TextSkip(read, s, if s[0] == '\\' && |s| >= 2 then 2 else 1);
    }
  }

  lemma TextSkip(read: string, s: string, k: nat)
    requires s != "" && s[0] != '{' && k == if s[0] == '\\' && |s| >= 2 then 2 else 1
    ensures Text(read, s) == if k == |s| then Ok([Token(read + s, false)]) else Text(read + s[..k], s[k..])
  {
    EndSkip(s, k);
    hide *;
    TextFrom(read, s, k, TextEnd(s[k..]));
  }

  lemma TextFrom(read: string, s: string, k: nat, q: nat)
    requires s != "" && k <= |s| && q == TextEnd(s[k..]) && TextEnd(s) == k + q
    ensures Text(read, s) == if k == |s| then Ok([Token(read + s, false)]) else Text(read + s[..k], s[k..])
  {
    hide Text, TextEnd, Braces;
    TextIs(read, s);
    Rejoin(read, s, k, q);
    if k < |s| {
      TextIs(read + s[..k], s[k..]);
    }
  }

  lemma EndSkip(s: string, k: nat)
    requires s != "" && s[0] != '{' && k == if s[0] == '\\' && |s| >= 2 then 2 else 1
    ensures TextEnd(s) == k + TextEnd(s[k..]) && TextEnd(s[k..]) <= |s[k..]|
  {
  }

  lemma Rejoin(read: string, s: string, k: nat, q: nat)
    requires k <= |s| && q <= |s[k..]|
    ensures read + s[..k] + s[k..] == read + s && (k == |s| ==> s[k..] == "")
    ensures q < |s[k..]| ==> read + s[..k] + s[k..][..q] == read + s[..k + q] && s[k..][q + 1..] == s[k + q + 1..]
  {
  }

  lemma TextIs(read: string, s: string)
    ensures s != "" ==>
              var q := TextEnd(s);
              Text(read, s) == if q == |s| then Ok([Token(read + s, false)])
                               else Prepend(Token(read + s[..q], false), Braces("", s[q + 1..], START))
  {
  }

  lemma BracesMove(read: string, s: string, m: Mode)
    requires s != "" && m.braces > 0
    ensures var v := Step(s, m);
            Braces(read, s, m) ==
            if v.Close? then Prepend(Token(read, true), Text("", s[1..]))
            else Braces(read + s[..v.length], s[v.length..], v.mode)
  {
    hide Step, Text, TextEnd, BraceEnd, Braces, Split;
    BraceEndStep(s, m);
    BracesIs(read, s, m);
    SplitIs(s[1..]);
    var v := Step(s, m);
    if v.Close? {
      assert read + s[..0] == read;
    } else {
      var rest := s[v.length..];
      var e := BraceEnd(rest, v.mode);
      BracesIs(read + s[..v.length], rest, v.mode);
      if e < |rest| {
        CutInner(s, v.length, e);
        Assoc(read, s[..v.length], rest[..e]);
      }
    }
  }

  lemma SplitIs(s: string)
    ensures Split(s) == Text("", s)
  {
    hide Text;
  }

  lemma BracesIs(read: string, s: string, m: Mode)
    requires m.braces > 0
    ensures var e := BraceEnd(s, m);
            Braces(read, s, m) ==
            if e == |s| then Unclosed else Prepend(Token(read + s[..e], true), Split(s[e + 1..]))
  {
    hide BraceEnd, Split;
  }

  lemma BraceEndStep(s: string, m: Mode)
    requires s != "" && m.braces > 0
    ensures var v := Step(s, m);
            BraceEnd(s, m) == if v.Close? then 0 else v.length + BraceEnd(s[v.length..], v.mode)
  {
    hide Step;
  }

  lemma CutInner(s: string, k: nat, e: nat)
    requires k + e < |s|
    ensures s[..k] + s[k..][..e] == s[..k + e] && s[k..][e + 1..] == s[k + e + 1..]
  {
  }

  // ----- splitting and rendering -----

  function RenderToken(t: Token): string {
    if t.interpretable then "{" + t.text + "}" else t.text
  }

  function Render(ts: seq<Token>): string {
    if ts == [] then "" else RenderToken(ts[0]) + Render(ts[1..])
  }

  /** Plain text: a brace put after it is the first one that opens. */
  predicate Plain(x: string) { TextEnd(x + "{") == |x| }

  /** An interpreted text: a brace put after it is the one that closes. */
  predicate Balanced(x: string) { BraceEnd(x + "}", START) == |x| }

  predicate Pairs(ts: seq<Token>) {
    ts == []
    || (&& |ts| >= 2 && !ts[0].interpretable && Plain(ts[0].text) && ts[1].interpretable && Balanced(ts[1].text)
        && Pairs(ts[2..]))
  }

  /** Plain and interpreted tokens alternate; a last plain one is not empty. */
  predicate WellFormed(ts: seq<Token>) {
    if ts != [] && !ts[|ts| - 1].interpretable then
      var last := ts[|ts| - 1].text;
      last != "" && TextEnd(last) == |last| && Pairs(ts[..|ts| - 1])
    else Pairs(ts)
  }

  lemma {:induction false} TextLocal(a: string, b: string)
    requires TextEnd(a) < |a|
    ensures TextEnd(a + b) == TextEnd(a)
    decreases |a|
  {
    if a[0] != '{' {
      var k := if a[0] == '\\' && |a| >= 2 then 2 else 1;
      assert (a + b)[k..] == a[k..] + b;
      TextLocal(a[k..], b);
    }
  }

  lemma {:induction false} TextCut(s: string)
    requires TextEnd(s) < |s|
    ensures Plain(s[..TextEnd(s)])
    decreases |s|
  {
    var q := TextEnd(s);
    assert s[..q] + "{" == s[..q + 1];
    if s[0] != '{' {
      var k := if s[0] == '\\' && |s| >= 2 then 2 else 1;
      TextCut(s[k..]);
      assert s[k..][..q - k] + "{" == s[..q + 1][k..];
    }
  }

  lemma StepLocal(a: string, b: string, m: Mode)
    requires m.braces > 0 && a != "" && (|a| >= 2 || a[0] == '}')
    ensures Step(a + b, m) == Step(a, m)
  {
    assert (a + b)[0] == a[0] && (|a| >= 2 ==> (a + b)[1] == a[1]);
  }

  lemma {:induction false} BraceLocal(a: string, b: string, m: Mode)
    requires m.braces > 0 && BraceEnd(a, m) < |a|
    ensures BraceEnd(a + b, m) == BraceEnd(a, m)
    decreases |a|
  {
    hide Step;
    var v := Step(a, m);
    if v.Move? {
      assert (a + b)[v.length..] == a[v.length..] + b;
      BraceLocal(a[v.length..], b, v.mode);
    }
    StepLocal(a, b, m);
  }

  lemma {:induction false} BraceCut(s: string, m: Mode)
    requires m.braces > 0 && BraceEnd(s, m) < |s|
    ensures var e := BraceEnd(s, m); BraceEnd(s[..e + 1], m) == e
    decreases |s|
  {
    hide Step;
    var e := BraceEnd(s, m);
    var v := Step(s, m);
    assert s[..e + 1] + s[e + 1..] == s;
    StepLocal(s[..e + 1], s[e + 1..], m);
    if v.Move? {
      BraceCut(s[v.length..], v.mode);
      assert s[v.length..][..e - v.length + 1] == s[..e + 1][v.length..];
    }
  }

  // ----- one pair, and the last part -----

  lemma SplitPair(x: string, y: string, more: string)
    requires Plain(x) && Balanced(y)
    ensures Split(x + "{" + y + "}" + more) == Prepend(Token(x, false), Prepend(Token(y, true), Split(more)))
  {
    hide Plain, Balanced, Split, Braces;
    var inner := y + "}" + more;
    assert x + "{" + y + "}" + more == (x + "{") + inner;
    TextOpens(x, inner);
    BracesClose(y, more);
  }

  lemma TextOpens(x: string, inner: string)
    requires Plain(x)
    ensures Split((x + "{") + inner) == Prepend(Token(x, false), Braces("", inner, START))
  {
    var s := (x + "{") + inner;
    TextLocal(x + "{", inner);
    assert s[..|x|] == x && s[|x| + 1..] == inner;
    hide TextEnd, Braces, Split;
    TextMoved(s, |x|);
  }

  lemma BracesClose(y: string, more: string)
    requires Balanced(y)
    ensures Braces("", y + "}" + more, START) == Prepend(Token(y, true), Split(more))
  {
    var inner := (y + "}") + more;
    BraceLocal(y + "}", more, START);
    assert inner[..|y|] == y && inner[|y| + 1..] == more;
    hide BraceEnd, Braces, Split;
    BracesMoved(inner, |y|);
  }

  lemma TextMoved(s: string, q: nat)
    requires q == TextEnd(s) < |s|
    ensures Split(s) == Prepend(Token(s[..q], false), Braces("", s[q + 1..], START))
  {
    hide TextEnd, Braces;
    Nothing(s[..q]);
  }

  lemma Nothing(x: string)
    ensures "" + x == x
  {
  }

  lemma BracesMoved(s: string, e: nat)
    requires e == BraceEnd(s, START) < |s|
    ensures Braces("", s, START) == Prepend(Token(s[..e], true), Split(s[e + 1..]))
  {
    hide BraceEnd, Split, Text;
    Nothing(s[..e]);
  }

  lemma SplitText(x: string)
    requires TextEnd(x) == |x|
    ensures Split(x) == Ok(if x == "" then [] else [Token(x, false)])
  {
    assert "" + x == x;
  }

  lemma SplitOpen(x: string, inner: string)
    requires Plain(x) && BraceEnd(inner, START) == |inner|
    ensures Split(x + "{" + inner) == Unclosed
  {
    var s := (x + "{") + inner;
    TextLocal(x + "{", inner);
    assert s[|x| + 1..] == inner;
    TextMoved(s, |x|);
  }

  lemma RenderPair(t: Token, u: Token, ts: seq<Token>)
    ensures Render([t, u] + ts) == RenderToken(t) + RenderToken(u) + Render(ts)
  {
    var all := [t, u] + ts;
    assert all[1..] == [u] + ts && ([u] + ts)[1..] == ts;
    assert Render(all) == RenderToken(t) + (RenderToken(u) + Render(ts));
  }

  // ----- the whole input -----

  /** Complete pairs at the front of an input come out as they are. */
  lemma {:induction false} SplitPairs(ts: seq<Token>, rest: string)
    requires Pairs(ts)
    ensures Split(Render(ts) + rest) == Joined(ts, Split(rest))
    decreases |ts|
  {
    hide Split, Plain, Balanced;
    if ts == [] {
      assert Render(ts) + rest == rest;
      assert Split(rest).Ok? ==> [] + Split(rest).tokens == Split(rest).tokens;
    } else {
      var x, y, more := ts[0].text, ts[1].text, Render(ts[2..]) + rest;
      assert ts == [ts[0], ts[1]] + ts[2..];
      RenderPair(ts[0], ts[1], ts[2..]);
      assert Render(ts) + rest == x + "{" + y + "}" + more;
      SplitPair(x, y, more);
      SplitPairs(ts[2..], rest);
      JoinedPair(ts[0], ts[1], ts[2..], Split(rest));
    }
  }

  lemma JoinedPair(t: Token, u: Token, ts: seq<Token>, r: Result)
    ensures Prepend(t, Prepend(u, Joined(ts, r))) == Joined([t, u] + ts, r)
  {
    if r.Ok? { assert [t] + ([u] + (ts + r.tokens)) == [t, u] + ts + r.tokens; }
  }

  /** What is left after the pairs: it opens no brace, or one that is never closed. */
  predicate LastPart(s: string) {
    var q := TextEnd(s);
    q < |s| ==> BraceEnd(s[q + 1..], START) == |s| - q - 1
  }

  lemma SplitLast(s: string)
    requires LastPart(s)
    ensures Split(s) == if TextEnd(s) < |s| then Unclosed else Ok(if s == "" then [] else [Token(s, false)])
  {
    hide TextEnd, BraceEnd, Step;
    var q := TextEnd(s);
    if q < |s| {
      TextMoved(s, q);
    } else {
      SplitText(s);
    }
  }

  /** Every input is complete pairs followed by a last part. */
  lemma {:induction false} Decompose(s: string) returns (ts: seq<Token>, rest: string)
    ensures Pairs(ts) && s == Render(ts) + rest && LastPart(rest) && (ts == [] || ts[|ts| - 1].interpretable)
    decreases |s|
  {
    hide LastPart, Plain, Balanced, TextEnd;
    ts, rest := [], s;
    if !LastPart(s) {
      var x, y, more := FirstPair(s);
      var after;
      after, rest := Decompose(more);
      var t, u := Token(x, false), Token(y, true);
      RenderPair(t, u, after);
      Regroup(x, y, Render(after), rest);
      ts := [t, u] + after;
      assert ts[2..] == after;
    }
  }

  lemma Regroup(x: string, y: string, r: string, rest: string)
    ensures x + "{" + y + "}" + (r + rest) == x + ("{" + y + "}") + r + rest
  {
  }

  lemma CutAt(s: string, q: nat)
    requires q < |s|
    ensures s == s[..q] + [s[q]] + s[q + 1..]
  {
  }

  lemma FirstPair(s: string) returns (x: string, y: string, more: string)
    requires !LastPart(s)
    ensures Plain(x) && Balanced(y) && s == x + "{" + y + "}" + more
  {
    hide TextEnd, BraceEnd, Step;
    var q := TextEnd(s);
    var inner := s[q + 1..];
    var e := BraceEnd(inner, START);
    TextCut(s);
    BraceCut(inner, START);
    x, y, more := s[..q], inner[..e], inner[e + 1..];
    assert y + "}" == inner[..e + 1];
    CutAt(s, q);
    CutAt(inner, e);
    assert x + "{" + (y + "}" + more) == x + "{" + y + "}" + more;
  }

  /** What is split off renders back to the input and is well formed. */
  lemma SplitRenders(s: string)
    requires Split(s).Ok?
    ensures Render(Split(s).tokens) == s && WellFormed(Split(s).tokens)
  {
    hide Split, LastPart, Plain, Balanced, Pairs, Render;
    var ts, rest := Decompose(s);
    SplitPairs(ts, rest);
    SplitLast(rest);
    if rest == "" {
      assert ts + [] == ts && Render(ts) + rest == Render(ts);
    } else {
      RenderLast(ts, rest);
      assert (ts + [Token(rest, false)])[..|ts|] == ts;
    }
  }

  lemma {:induction false} RenderLast(ts: seq<Token>, x: string)
    ensures Render(ts + [Token(x, false)]) == Render(ts) + x
  {
    hide RenderToken;
    var all := ts + [Token(x, false)];
    if ts == [] {
      LastText(x);
      assert all == [Token(x, false)];
    } else {
      RenderLast(ts[1..], x);
      assert all[0] == ts[0] && all[1..] == ts[1..] + [Token(x, false)];
      Assoc(RenderToken(ts[0]), Render(ts[1..]), x);
    }
  }

  lemma LastText(x: string)
    ensures Render([Token(x, false)]) == "" + x
  {
    assert Render([Token(x, false)]) == x + Render([]);
  }

  lemma Assoc(a: string, b: string, c: string)
    ensures a + (b + c) == a + b + c
  {
  }

  /** Splitting undoes rendering of any well-formed list. */
  lemma RenderSplits(ts: seq<Token>)
    requires WellFormed(ts)
    ensures Split(Render(ts)) == Ok(ts)
  {
    hide Split, Render, Pairs, TextEnd;
    if ts != [] && !ts[|ts| - 1].interpretable {
      var front, x := ts[..|ts| - 1], ts[|ts| - 1].text;
      assert ts == front + [Token(x, false)];
      RenderLast(front, x);
      SplitPairs(front, x);
      SplitText(x);
    } else {
      SplitPairs(ts, "");
      NothingLeft();
      assert Render(ts) + "" == Render(ts);
      assert ts + [] == ts;
    }
  }

  lemma NothingLeft()
    ensures Split("") == Ok([])
  {
    SplitText("");
  }

  /** The input ends inside an open brace: complete pairs, plain text, a brace, and no
      brace that closes it. */
  ghost predicate EndsInside(s: string) {
    exists ts, x, inner :: OpensLast(s, ts, x, inner)
  }

  ghost predicate OpensLast(s: string, ts: seq<Token>, x: string, inner: string) {
    Pairs(ts) && Plain(x) && BraceEnd(inner, START) == |inner| && s == Render(ts) + (x + "{" + inner)
  }

  lemma LastOpens(s: string)
    requires LastPart(s) && TextEnd(s) < |s|
    ensures var q := TextEnd(s);
            Plain(s[..q]) && BraceEnd(s[q + 1..], START) == |s| - q - 1 && s == s[..q] + "{" + s[q + 1..]
  {
    hide TextEnd, BraceEnd, Plain;
    TextCut(s);
    CutAt(s, TextEnd(s));
  }

  /** The scanner throws exactly on the inputs that end inside an open brace. */
  lemma ThrowsIff(s: string)
    ensures Split(s) == Unclosed <==> EndsInside(s)
  {
    hide Split, LastPart, Plain, Pairs, Render, TextEnd, BraceEnd;
    if EndsInside(s) {
      var ts, x, inner :| OpensLast(s, ts, x, inner);
      SplitPairs(ts, x + "{" + inner);
      SplitOpen(x, inner);
    }
    if Split(s) == Unclosed {
      var ts, rest := Decompose(s);
      SplitPairs(ts, rest);
      SplitLast(rest);
      LastOpens(rest);
      assert OpensLast(s, ts, rest[..TextEnd(rest)], rest[TextEnd(rest) + 1..]);
    }
  }

  /** Tokens alternate, starting with plain text. */
  lemma {:induction false} Alternate(ts: seq<Token>)
    requires WellFormed(ts)
    ensures forall i | 0 <= i < |ts| :: ts[i].interpretable <==> i % 2 == 1
  {
    var n := if ts != [] && !ts[|ts| - 1].interpretable then |ts| - 1 else |ts|;
    assert ts[..|ts|] == ts;
    AlternatePairs(ts[..n]);
    assert forall i | 0 <= i < n :: ts[i] == ts[..n][i];
  }

  lemma {:induction false} AlternatePairs(ts: seq<Token>)
    requires Pairs(ts)
    ensures |ts| % 2 == 0 && forall i | 0 <= i < |ts| :: ts[i].interpretable <==> i % 2 == 1
  {
    if ts != [] {
      AlternatePairs(ts[2..]);
      assert forall i | 2 <= i < |ts| :: ts[i] == ts[2..][i - 2];
    }
  }
}
