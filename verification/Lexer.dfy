/** The main scanner: characters to tokens. */
module Lexer {

  /** The byte that marks the end of the input; an input must not contain it. */
  const END_OF_INPUT: char := '\U{00FF}'

  const INT_MAX: nat := 0x7FFF_FFFF

  /** An operator's kind and its spelling determine each other, and so do a keyword's. */
  datatype Token =
    | Operator(spelling: string)
    | Keyword(name: string)
    | Identifier(name: string)
    | VarEnv(name: string)
    | Word(text: string)
    | Int(value: nat)
    | Real(digits: string)
    | Str(text: string)
    | NewLine
    | Eos

  /** The keyword table, and the library conversions of numeric escapes. */
  datatype Config = Config(keywords: set<string>, octal: string -> char, utf8: string -> string)

  // ----- character classes -----

  predicate IsLetter(c: char) { 'a' <= c <= 'z' || 'A' <= c <= 'Z' }

  predicate IsDigit(c: char) { '0' <= c <= '9' }

  predicate IsOctalChar(c: char) { '0' <= c < '8' }

  predicate IsHexChar(c: char) { '0' <= c <= '9' || 'a' <= c <= 'f' || 'A' <= c <= 'F' }

  predicate IsIdentifierStart(c: char) { IsLetter(c) || c == '_' }

  predicate IsIdentifierPart(c: char) { IsLetter(c) || c == '_' || IsDigit(c) }

  predicate IsSpecialChar(c: char) {
    c != ' ' && c != '\t' && c != '\n' && c != ')' && c != ';' && c != '}' && c != '|' && c != '&' && c != '%'
    && c != END_OF_INPUT
  }

  // ----- the table of operators -----

  predicate IsOperator1(c: char) {
    || c == '<' || c == '>' || c == '=' || c == '!' || c == '+' || c == '-' || c == '*' || c == '/' || c == '%'
    || c == '&' || c == '|' || c == '^' || c == '~' || c == ';' || c == ':' || c == ',' || c == '$' || c == '('
    || c == ')' || c == '{' || c == '}' || c == '[' || c == ']' || c == '.' || c == '@'
  }

  predicate IsOperator2(c: char, d: char) {
    || (d == '=' && (c == '<' || c == '>' || c == '=' || c == '!' || c == '+' || c == '-' || c == '*' || c == '/'
                     || c == '%' || c == '&' || c == '|' || c == '^'))
    || (d == '&' && (c == '<' || c == '>'))
    || (d == c && (c == '<' || c == '>' || c == '*' || c == '%' || c == '&' || c == '|' || c == ':'))
    || (c == '-' && d == '>')
    || (c == '$' && (d == '(' || d == '{'))
  }

  predicate IsOperator3(c: char, d: char, e: char) {
    || (c == d && (c == '<' || c == '>') && (e == '=' || e == c))
    || (c == '.' && d == '.' && e == '.')
    || (c == '$' && d == '@' && e == '{')
  }

  predicate IsOperator(x: string) {
    || (|x| == 1 && IsOperator1(x[0]))
    || (|x| == 2 && IsOperator2(x[0], x[1]))
    || (|x| == 3 && IsOperator3(x[0], x[1], x[2]))
  }

  // ----- what each part of the input means -----

  function At(s: string, p: nat): char {
    if p < |s| then s[p] else END_OF_INPUT
  }

  function Min(a: nat, b: nat): nat { if a < b then a else b }

  /** A stretch of input: what it means and where it ends. */
  datatype Span = Span(text: string, next: nat)

  function Before(prefix: string, x: Span): Span { Span(prefix + x.text, x.next) }

  predicate Within(s: string, p: nat, x: Span) { p <= x.next <= |s| }

  /** The end of the longest stretch of characters of a class. */
  function EndOf(s: string, p: nat, f: char -> bool): (q: nat)
    requires p <= |s|
    ensures p <= q <= |s|
    ensures p < |s| && f(s[p]) ==> p < q
    decreases |s| - p
  {
    if p < |s| && f(s[p]) then EndOf(s, p + 1, f) else p
  }

  function WordEscape(c: char): char {
    match c
    case 'b' => '\U{0008}'
    case 'f' => '\U{000C}'
    case 'n' => '\n'
    case 'r' => '\r'
    case 't' => '\t'
    case _ => c
  }

  function WordFrom(s: string, p: nat): (x: Span)
    requires p <= |s|
    ensures Within(s, p, x) && (p < |s| && IsSpecialChar(s[p]) ==> p < x.next)
    decreases |s| - p
  {
    if p == |s| || !IsSpecialChar(s[p]) then Span("", p)
    else if s[p] == '\\' then Before([WordEscape(At(s, p + 1))], WordFrom(s, Min(p + 2, |s|)))
    else Before([s[p]], WordFrom(s, p + 1))
  }

  /** The escape whose backslash is at b. A numeric escape that reaches the end of the
      input resumes on its own last digit. */
  function EscapeAt(cfg: Config, s: string, b: nat): (x: Span)
    requires b < |s|
    ensures b < x.next <= |s|
  {
    var c := At(s, b + 1);
    var after := Min(b + 2, |s|);
    match c
    case '\'' => Span([c], after)
    case '"' => Span([c], after)
    case '\\' => Span([c], after)
    case '0' =>
      if IsOctalChar(At(s, b + 2)) then
        var q := EndOf(s, b + 1, IsOctalChar);
        Span([cfg.octal(s[b + 1..q])], Min(q, |s| - 1))
      else Span(['\0'], after)
    case 'u' =>
      if IsHexChar(At(s, b + 2)) then
        var q := EndOf(s, b + 2, IsHexChar);
        Span(cfg.utf8(s[b + 2..q]), Min(q, |s| - 1))
      else Span("\\u", after)
    case 'b' => Span(['\U{0008}'], after)
    case 'f' => Span(['\U{000C}'], after)
    case 'n' => Span(['\n'], after)
    case 'r' => Span(['\r'], after)
    case 't' => Span(['\t'], after)
    case _ => Span(['\\', c], after)
  }

  /** The string literal whose contents start at p. */
  function StringFrom(cfg: Config, s: string, p: nat, quote: char): (x: Span)
    requires p <= |s|
    ensures Within(s, p, x)
    decreases |s| - p
  {
    if p == |s| then Span("", p)
    else if s[p] == quote then Span("", p + 1)
    else if s[p] == '\\' then
      var e := EscapeAt(cfg, s, p);
      Before(e.text, StringFrom(cfg, s, e.next, quote))
    else Before([s[p]], StringFrom(cfg, s, p + 1, quote))
  }

  /** The string literal whose contents start at p ends with the input. */
  predicate Unterminated(cfg: Config, s: string, p: nat, quote: char)
    requires p <= |s|
    decreases |s| - p
  {
    p == |s|
    || (s[p] != quote && Unterminated(cfg, s, if s[p] == '\\' then EscapeAt(cfg, s, p).next else p + 1, quote))
  }

  function DigitValue(c: char): nat
    requires IsDigit(c)
  {
    c as nat - '0' as nat
  }

  function Value(digits: string): nat
    requires forall i | 0 <= i < |digits| :: IsDigit(digits[i])
  {
    if digits == "" then 0 else 10 * Value(digits[..|digits| - 1]) + DigitValue(digits[|digits| - 1])
  }

  /** One round of the scanner: the tokens it adds (none for blanks and comments), the
      position it reaches, the errors it reports. */
  datatype Round = Round(tokens: seq<Token>, next: nat, errors: nat)

  function Named(cfg: Config, name: string): Token {
    if name in cfg.keywords then Keyword(name) else Identifier(name)
  }

  lemma DigitsOnly(s: string, p: nat)
    requires p <= |s|
    ensures forall i | p <= i < EndOf(s, p, IsDigit) :: IsDigit(s[i])
    decreases |s| - p
  {
    if p < |s| && IsDigit(s[p]) { DigitsOnly(s, p + 1); }
  }

  function NumberAt(s: string, p: nat): (r: Round)
    requires p < |s| && IsDigit(s[p])
    ensures p < r.next <= |s| && r.errors == 0
  {
    var q := EndOf(s, p, IsDigit);
    DigitsOnly(s, p);
    if At(s, q) != '.' then Round([Int(Min(Value(s[p..q]), INT_MAX))], q, 0)
    else
      var q' := EndOf(s, q + 1, IsDigit);
      if At(s, q') != '.' then Round([Real(s[p..q'])], q', 0)
      else
        var w := Before(s[p..q'], WordFrom(s, q'));
        Round([Word(w.text)], w.next, 0)
  }

  function StringAt(cfg: Config, s: string, p: nat): (r: Round)
    requires p < |s|
    ensures p < r.next <= |s|
  {
    var x := StringFrom(cfg, s, p + 1, s[p]);
    Round([Str(x.text)], x.next, if Unterminated(cfg, s, p + 1, s[p]) then 1 else 0)
  }

  function WordRound(prefix: string, s: string, p: nat): Round
    requires p <= |s|
  {
    var w := WordFrom(s, p);
    Round([Word(prefix + w.text)], w.next, 0)
  }

  /** The longest operator of the table that starts at p. */
  function OperatorAt(s: string, p: nat): (r: Round)
    requires p < |s| && IsOperator1(s[p])
    ensures p < r.next <= |s|
  {
    var c, d, e := s[p], At(s, p + 1), At(s, p + 2);
    if IsOperator3(c, d, e) then Round([Operator([c, d, e])], p + 3, 0)
    else if IsOperator2(c, d) then Round([Operator([c, d])], p + 2, 0)
    else Round([Operator([c])], p + 1, 0)
  }

  function RoundAt(cfg: Config, s: string, p: nat): (r: Round)
    requires p < |s| && END_OF_INPUT !in s
    ensures p < r.next <= |s|
  {
    var c, d, e := s[p], At(s, p + 1), At(s, p + 2);
    if c == '#' then Round([], EndOf(s, p + 1, c => c != '\n'), 0)
    else if c == ' ' || c == '\t' then Round([], p + 1, 0)
    else if c == '\n' then Round([NewLine], p + 1, 0)
    else if c == '"' || c == '\'' then StringAt(cfg, s, p)
    else if c == '$' && IsIdentifierStart(d) then
      var q := EndOf(s, p + 1, IsIdentifierPart);
      Round([VarEnv(s[p + 1..q])], q, 0)
    else if c == '$' && d == '@' && e != '{' then WordRound("$@", s, p + 2)
    else if c == '.' && d == '.' && e != '.' then WordRound("..", s, p + 2)
    else if IsOperator1(c) then OperatorAt(s, p)
    else if IsIdentifierStart(c) then
      var q := EndOf(s, p, IsIdentifierPart);
      Round([Named(cfg, s[p..q])], q, 0)
    else if IsDigit(c) then NumberAt(s, p)
    else if c == '\\' && d == '\n' then Round([], p + 2, 0)
    else if c == '\\' then Round([Word([WordEscape(d)])], Min(p + 2, |s|), 0)
    else WordRound("", s, p)
  }

  /** All the tokens from position p on. */
  function Tokens(cfg: Config, s: string, p: nat): (ts: seq<Token>)
    requires p <= |s| && END_OF_INPUT !in s
    decreases |s| - p
  {
    if p == |s| then [Eos]
    else
      var r := RoundAt(cfg, s, p);
      r.tokens + Tokens(cfg, s, r.next)
  }

  /** The number of unterminated strings from position p on. */
  function Errors(cfg: Config, s: string, p: nat): nat
    requires p <= |s| && END_OF_INPUT !in s
    decreases |s| - p
  {
    if p == |s| then 0
    else
      var r := RoundAt(cfg, s, p);
      r.errors + Errors(cfg, s, r.next)
  }

  // ----- the scanner -----

  lemma StringStep(cfg: Config, s: string, b: nat, quote: char, text: string)
    requires b < |s| && s[b] != quote
    ensures s[b] == '\\' ==>
              var e := EscapeAt(cfg, s, b);
              && text + StringFrom(cfg, s, b, quote).text == (text + e.text) + StringFrom(cfg, s, e.next, quote).text
              && StringFrom(cfg, s, b, quote).next == StringFrom(cfg, s, e.next, quote).next
              && Unterminated(cfg, s, b, quote) == Unterminated(cfg, s, e.next, quote)
    ensures s[b] != '\\' ==>
              && text + StringFrom(cfg, s, b, quote).text == (text + [s[b]]) + StringFrom(cfg, s, b + 1, quote).text
              && StringFrom(cfg, s, b, quote).next == StringFrom(cfg, s, b + 1, quote).next
              && Unterminated(cfg, s, b, quote) == Unterminated(cfg, s, b + 1, quote)
  {
  }

  lemma WordStep(s: string, p: nat, word: string)
    requires p <= |s|
    ensures IsSpecialChar(At(s, p)) ==> p < |s|
    ensures !IsSpecialChar(At(s, p)) ==> word + WordFrom(s, p).text == word && WordFrom(s, p).next == p
    ensures IsSpecialChar(At(s, p)) ==>
              var e := if s[p] == '\\' then WordEscape(At(s, p + 1)) else s[p];
              var q := if s[p] == '\\' then Min(p + 2, |s|) else p + 1;
              && word + WordFrom(s, p).text == word + [e] + WordFrom(s, q).text
              && WordFrom(s, p).next == WordFrom(s, q).next
  {
  }

  lemma Extend(s: string, p: nat, q: nat)
    requires p <= q < |s|
    ensures s[p..q] + [s[q]] == s[p..q + 1]
  {
  }

  lemma EndStep(s: string, p: nat)
    requires p <= |s|
    ensures EndOf(s, p, IsDigit) == if IsDigit(At(s, p)) then EndOf(s, p + 1, IsDigit) else p
  {
  }

  lemma StringEnd(cfg: Config, s: string, p: nat, quote: char)
    requires p <= |s| && (p == |s| || s[p] == quote)
    ensures StringFrom(cfg, s, p, quote) == Span("", Min(p + 1, |s|))
    ensures Unterminated(cfg, s, p, quote) <==> p == |s|
  {
  }

  class Lexer {
    const cfg: Config
    const str: string
    var c: char
    var cursor: int
    var errors: nat

    constructor (cfg: Config, str: string)
      requires str != "" && END_OF_INPUT !in str
      ensures this.cfg == cfg && this.str == str && Valid() && Pos() == 0 && errors == 0
    {
      this.cfg := cfg;
      this.str := str;
      c := str[0];
      cursor := 0;
      errors := 0;
    }

    ghost predicate Valid()
      reads this
    {
      && 0 <= cursor < |str| && END_OF_INPUT !in str
      && (c == str[cursor] || (c == END_OF_INPUT && cursor == |str| - 1))
    }

    /** The position of the current character; past the last one it is the end of the
        input, although the cursor stays on the last character. */
    ghost function Pos(): (p: nat)
      reads this
      requires Valid()
      ensures c == At(str, p) && p <= |str|
    {
      if c == END_OF_INPUT then |str| else cursor
    }

    /** Moves from wherever the cursor is, which after Back is not where c is. */
    method Advance()
      requires 0 <= cursor < |str| && END_OF_INPUT !in str
      modifies this`c, this`cursor
      ensures Valid() && Pos() == old(cursor) + 1
      ensures old(Valid()) ==> Pos() == Min(old(Pos()) + 1, |str|)
    {
      if cursor == |str| - 1 {
        c := END_OF_INPUT;
        return;
      }
      cursor := cursor + 1;
      c := str[cursor];
    }

    method Back()
      modifies this`cursor
      ensures cursor == old(cursor) - 1
    {
      cursor := cursor - 1;
    }

    function PeekAhead(): (d: char)
      reads this
      requires Valid()
      ensures d == At(str, Pos() + 1)
    {
      if cursor + 1 == |str| then END_OF_INPUT else str[cursor + 1]
    }

    method Select(t: Token) returns (r: Token)
      requires Valid()
      modifies this`c, this`cursor
      ensures Valid() && Pos() == Min(old(Pos()) + 1, |str|) && r == t
    {
      Advance();
      r := t;
    }

    method SkipSingleLineComment()
      requires Valid() && Pos() < |str|
      modifies this`c, this`cursor
      ensures Valid() && Pos() == EndOf(str, old(Pos()) + 1, c => c != '\n')
    {
      Advance();
      while c != END_OF_INPUT && c != '\n'
        invariant Valid()
        invariant EndOf(str, Pos(), c => c != '\n') == EndOf(str, old(Pos()) + 1, c => c != '\n')
        decreases |str| - Pos()
      {
        Advance();
      }
    }

    /** Leaves the cursor one before the character that ended the digits, so that the
        caller's Advance returns to it, or to the last digit at the end of the input. */
    method ScanAnsiEscapeCode() returns (r: char)
      requires Valid() && Pos() + 1 < |str| && IsOctalChar(c)
      modifies this`c, this`cursor
      ensures var q := EndOf(str, old(Pos()), IsOctalChar);
              r == cfg.octal(str[old(Pos())..q]) && cursor == Min(q, |str| - 1) - 1
    {
      ghost var p := Pos();
      var number := "";
      while IsOctalChar(c)
        invariant Valid() && p <= Pos() && number == str[p..Pos()]
        invariant EndOf(str, Pos(), IsOctalChar) == EndOf(str, p, IsOctalChar)
        invariant number == "" ==> IsOctalChar(c)
        decreases |str| - Pos()
      {
        number := number + [c];
        Advance();
      }
      Back();
      r := cfg.octal(number);
    }

    method ScanUnicodeEscapeCode() returns (r: string)
      requires Valid() && Pos() + 1 < |str| && IsHexChar(str[Pos() + 1])
      modifies this`c, this`cursor
      ensures var q := EndOf(str, old(Pos()) + 1, IsHexChar);
              r == cfg.utf8(str[old(Pos()) + 1..q]) && cursor == Min(q, |str| - 1) - 1
    {
      Advance();
      ghost var p := Pos();
      var number := "";
      while IsHexChar(c)
        invariant Valid() && p <= Pos() && number == str[p..Pos()]
        invariant EndOf(str, Pos(), IsHexChar) == EndOf(str, p, IsHexChar)
        invariant number == "" ==> IsHexChar(c)
        decreases |str| - Pos()
      {
        number := number + [c];
        Advance();
      }
      Back();
      r := cfg.utf8(number);
    }

    /** From a backslash; the caller's Advance then reaches the end of the escape. */
    method ScanStringEscape() returns (r: string)
      requires Valid() && c == '\\'
      modifies this`c, this`cursor
      ensures var x := EscapeAt(cfg, str, old(Pos()));
              r == x.text && cursor == x.next - 1
    {
      var first := c;
      ghost var b := Pos();
      Advance();
      var c' := c;
      match c' {
      case '\'' =>
      case '"' =>
      case '\\' =>
      case '0' =>
        if IsOctalChar(PeekAhead()) {
          c' := ScanAnsiEscapeCode();
        } else {
          c' := '\0';
        }
      case 'u' =>
        if IsHexChar(PeekAhead()) {
          r := ScanUnicodeEscapeCode();
          return;
        } else {
          return "\\u";
        }
      case 'b' => c' := '\U{0008}';
      case 'f' => c' := '\U{000C}';
      case 'n' => c' := '\n';
      case 'r' => c' := '\r';
      case 't' => c' := '\t';
      case _ => return [first, c'];
      }
      r := [c'];
    }

    method ScanWordEscape() returns (r: char)
      requires Valid() && c == '\\'
      modifies this`c, this`cursor
      ensures Valid() && Pos() == old(Pos()) + 1 && r == WordEscape(c)
    {
      Advance();
      r := c;
      match c
      case 'b' => r := '\U{0008}';
      case 'f' => r := '\U{000C}';
      case 'n' => r := '\n';
      case 'r' => r := '\r';
      case 't' => r := '\t';
      case _ =>
    }

    method ScanString(quote: char) returns (t: Token)
      requires Valid() && Pos() < |str| && c == quote
      requires quote == '"' || quote == '\''
      modifies this
      ensures var r := StringAt(cfg, str, old(Pos()));
              Valid() && Pos() == r.next && [t] == r.tokens && errors == old(errors) + r.errors
    {
      hide EscapeAt, StringFrom, Unterminated;
      ghost var p := Pos() + 1;
      var text := "";
      Advance();
      while true
        invariant Valid() && errors == old(errors)
        invariant StringFrom(cfg, str, p, quote).text == text + StringFrom(cfg, str, Pos(), quote).text
        invariant StringFrom(cfg, str, p, quote).next == StringFrom(cfg, str, Pos(), quote).next
        invariant Unterminated(cfg, str, p, quote) == Unterminated(cfg, str, Pos(), quote)
        decreases |str| - Pos()
      {
        if c == END_OF_INPUT {
          StringEnd(cfg, str, Pos(), quote);
          errors := errors + 1;
          break;
        }
        if c == quote {
          StringEnd(cfg, str, Pos(), quote);
          Advance();
          break;
        }
        if c == '\\' {
          ghost var b := Pos();
          var e := ScanStringEscape();
          Advance();
          StringStep(cfg, str, b, quote, text);
          text := text + e;
          continue;
        }
        StringStep(cfg, str, Pos(), quote, text);
        text := text + [c];
        Advance();
      }
      assert text == StringFrom(cfg, str, p, quote).text;
      t := Str(text);
    }

    method ScanIdentifier(varenv: bool) returns (t: Token)
      requires Valid() && IsIdentifierStart(c)
      modifies this`c, this`cursor
      ensures var q := EndOf(str, old(Pos()), IsIdentifierPart);
              && Valid() && Pos() == q
              && t == if varenv then VarEnv(str[old(Pos())..q]) else Named(cfg, str[old(Pos())..q])
    {
      ghost var p := Pos();
      var id := [c];
      Advance();
      while IsLetter(c) || c == '_' || IsDigit(c)
        invariant Valid() && p < Pos() && id == str[p..Pos()]
        invariant EndOf(str, Pos(), IsIdentifierPart) == EndOf(str, p, IsIdentifierPart)
        decreases |str| - Pos()
      {
        id := id + [c];
        Advance();
      }
      if varenv {
        return VarEnv(id);
      }
      t := if id in cfg.keywords then Keyword(id) else Identifier(id);
    }

    method ScanWord(prefix: string) returns (t: Token)
      requires Valid()
      modifies this`c, this`cursor
      ensures var w := WordFrom(str, old(Pos()));
              Valid() && Pos() == w.next && t == Word(prefix + w.text)
    {
      hide WordFrom, IsSpecialChar, WordEscape;
      ghost var p := Pos();
      var word := prefix;
      while IsSpecialChar(c)
        invariant Valid()
        invariant prefix + WordFrom(str, p).text == word + WordFrom(str, Pos()).text
        invariant WordFrom(str, p).next == WordFrom(str, Pos()).next
        decreases |str| - Pos()
      {
        WordStep(str, Pos(), word);
        if c == '\\' {
          var e := ScanWordEscape();
          word := word + [e];
          Advance();
          continue;
        }
        word := word + [c];
        Advance();
      }
      WordStep(str, Pos(), word);
      t := Word(word);
    }

    method ScanNumber() returns (t: Token)
      requires Valid() && IsDigit(c)
      modifies this`c, this`cursor
      ensures var r := NumberAt(str, old(Pos()));
              Valid() && Pos() == r.next && [t] == r.tokens
    {
      hide WordFrom, EndOf, Value;
      ghost var p := Pos();
      ghost var q := EndOf(str, p, IsDigit);
      DigitsOnly(str, p);
      EndStep(str, p);
      var number := [c];
      var points := 0;
      Advance();
      while IsDigit(c) || c == '.'
        invariant Valid() && p < Pos() && number == str[p..Pos()]
        invariant points == 0 ==> EndOf(str, Pos(), IsDigit) == q
        invariant points == 1 ==> At(str, q) == '.' && EndOf(str, Pos(), IsDigit) == EndOf(str, q + 1, IsDigit)
        invariant 0 <= points <= 1
        decreases |str| - Pos()
      {
        EndStep(str, Pos());
        Extend(str, p, Pos());
        if c == '.' {
          points := points + 1;
          if points > 1 {
            t := ScanWord(number);
            return;
          }
        }
        number := number + [c];
        Advance();
      }
      EndStep(str, Pos());
      if points == 0 {
        assert number == str[p..q];
        t := Int(Min(Value(number), INT_MAX));
      } else {
        t := Real(number);
      }
    }

    method ScanAngle() returns (t: Token)
      requires Valid() && (c == '<' || c == '>')
      modifies this`c, this`cursor
      ensures var r := OperatorAt(str, old(Pos()));
              Valid() && Pos() == r.next && [t] == r.tokens
    {
      var first := c;
      Advance();
      if c == '=' {
        t := Select(Operator([first, '=']));
      } else if c == '&' {
        t := Select(Operator([first, '&']));
      } else if c == first {
        Advance();
        if c == '=' {
          t := Select(Operator([first, first, '=']));
        } else if c == first {
          t := Select(Operator([first, first, first]));
        } else {
          t := Operator([first, first]);
        }
      } else {
        t := Operator([first]);
      }
    }

    /** An operator of one character, or of two when the next one is a or b. */
    method ScanPair(a: char, b: char) returns (t: Token)
      requires Valid() && IsOperator1(c) && c !in ['<', '>', '.', '$']
      requires forall d :: IsOperator2(c, d) <==> d != ' ' && (d == a || d == b)
      modifies this`c, this`cursor
      ensures var r := OperatorAt(str, old(Pos()));
              Valid() && Pos() == r.next && [t] == r.tokens
    {
      var first := c;
      Advance();
      if c != ' ' && (c == a || c == b) {
        t := Select(Operator([first, c]));
      } else {
        t := Operator([first]);
      }
    }

    method ScanDollar() returns (t: Token)
      requires Valid() && c == '$'
      modifies this`c, this`cursor
      ensures var r := RoundAt(cfg, str, old(Pos()));
              Valid() && Pos() == r.next && [t] == r.tokens && r.errors == 0
    {
      Advance();
      if c == '(' {
        t := Select(Operator("$("));
      } else if c == '{' {
        t := Select(Operator("${"));
      } else if c == '@' {
        Advance();
        if c == '{' {
          t := Select(Operator("$@{"));
        } else {
          t := ScanWord("$@");
        }
      } else if IsIdentifierStart(c) {
        t := ScanIdentifier(true);
      } else {
        t := Operator("$");
      }
    }

    method ScanDot() returns (t: Token)
      requires Valid() && c == '.'
      modifies this`c, this`cursor
      ensures var r := RoundAt(cfg, str, old(Pos()));
              Valid() && Pos() == r.next && [t] == r.tokens && r.errors == 0
    {
      Advance();
      if c == '.' {
        Advance();
        if c == '.' {
          t := Select(Operator("..."));
        } else {
          t := ScanWord("..");
        }
      } else {
        t := Operator(".");
      }
    }

    method ScanBackslash() returns (ts: seq<Token>)
      requires Valid() && c == '\\'
      modifies this`c, this`cursor
      ensures var r := RoundAt(cfg, str, old(Pos()));
              Valid() && Pos() == r.next && ts == r.tokens && r.errors == 0
    {
      if PeekAhead() == '\n' {
        Advance();
        Advance();
        ts := [];
      } else {
        var e := ScanWordEscape();
        var t := Select(Word([e]));
        ts := [t];
      }
    }

    /** One round of the switch: no token for blanks and comments. */
    method ScanRound() returns (ts: seq<Token>)
      requires Valid() && Pos() < |str|
      modifies this
      ensures var r := RoundAt(cfg, str, old(Pos()));
              Valid() && Pos() == r.next && ts == r.tokens && errors == old(errors) + r.errors
    {
      hide StringAt, NumberAt, WordFrom, EndOf, Value;
      var t: Token;
      match c {
      case '#' => SkipSingleLineComment(); return [];
      case ' ' => Advance(); return [];
      case '\t' => Advance(); return [];
      case '\n' => t := Select(NewLine);
      case '"' => t := ScanString('"');
      case '\'' => t := ScanString('\'');
      case '<' => t := ScanAngle();
      case '>' => t := ScanAngle();
      case '=' => t := ScanPair('=', '=');
      case '!' => t := ScanPair('=', '=');
      case '+' => t := ScanPair('=', '=');
      case '-' => t := ScanPair('=', '>');
      case '*' => t := ScanPair('=', '*');
      case '/' => t := ScanPair('=', '=');
      case '%' => t := ScanPair('=', '%');
      case '&' => t := ScanPair('=', '&');
      case '|' => t := ScanPair('=', '|');
      case '^' => t := ScanPair('=', '=');
      case '~' => t := Select(Operator("~"));
      case ';' => t := Select(Operator(";"));
      case ':' => t := ScanPair(':', ':');
      case ',' => t := Select(Operator(","));
      case '$' => t := ScanDollar();
      case '(' => t := Select(Operator("("));
      case ')' => t := Select(Operator(")"));
      case '{' => t := Select(Operator("{"));
      case '}' => t := Select(Operator("}"));
      case '[' => t := Select(Operator("["));
      case ']' => t := Select(Operator("]"));
      case '.' => t := ScanDot();
      case '@' => t := Select(Operator("@"));
      case _ =>
        if IsIdentifierStart(c) {
          t := ScanIdentifier(false);
        } else if IsDigit(c) {
          t := ScanNumber();
        } else if c == '\\' {
          ts := ScanBackslash();
          return;
        } else {
          t := ScanWord("");
        }
      }
      ts := [t];
    }

    method Scanner() returns (ts: seq<Token>)
      requires Valid()
      modifies this
      ensures ts == Tokens(cfg, str, old(Pos()))
      ensures errors == old(errors) + Errors(cfg, str, old(Pos()))
      ensures Valid() && Pos() == |str|
    {
      hide RoundAt;
      ts := [];
      while c != END_OF_INPUT
        invariant Valid()
        invariant ts + Tokens(cfg, str, Pos()) == Tokens(cfg, str, old(Pos()))
        invariant errors + Errors(cfg, str, Pos()) == old(errors) + Errors(cfg, str, old(Pos()))
        decreases |str| - Pos()
      {
        ghost var p := Pos();
        var more := ScanRound();
        assert Tokens(cfg, str, p) == more + Tokens(cfg, str, Pos());
        ts := ts + more;
      }
      var eos := Select(Eos);
      ts := ts + [eos];
    }
  }

  // ----- every scan ends in exactly one end of input -----

  lemma {:induction false} OneEos(cfg: Config, s: string, p: nat)
    requires p <= |s| && END_OF_INPUT !in s
    ensures var ts := Tokens(cfg, s, p);
            ts != [] && ts[|ts| - 1] == Eos && forall i | 0 <= i < |ts| - 1 :: ts[i] != Eos
    decreases |s| - p
  {
    if p < |s| {
      var r := RoundAt(cfg, s, p);
      OneEos(cfg, s, r.next);
      NoEosInside(cfg, s, p);
    }
  }

  lemma NoEosInside(cfg: Config, s: string, p: nat)
    requires p < |s| && END_OF_INPUT !in s
    ensures Eos !in RoundAt(cfg, s, p).tokens
  {
    hide StringFrom, WordFrom, EndOf, Value, Unterminated, EscapeAt;
  }

  /** An octal escape that runs to the end of the input: the cursor steps back past the
      end mark, and the last digit is read a second time, as a character. */
  lemma LastDigitTwice(cfg: Config, s: string, b: nat, quote: char)
    requires b + 2 < |s| && s[b] == '\\' && s[b + 1] == '0' && quote == '"'
    requires forall i | b + 2 <= i < |s| :: IsOctalChar(s[i])
    ensures StringFrom(cfg, s, b, quote).text == [cfg.octal(s[b + 1..])] + [s[|s| - 1]]
    ensures Unterminated(cfg, s, b, quote)
  {
    EndAfter(s, b + 1, |s|, IsOctalChar);
    assert s[b + 1..|s|] == s[b + 1..];
    assert EscapeAt(cfg, s, b) == Span([cfg.octal(s[b + 1..])], |s| - 1);
    StringStep(cfg, s, b, quote, "");
    StringStep(cfg, s, |s| - 1, quote, "");
    StringEnd(cfg, s, |s|, quote);
  }

  // ----- operators are read by longest match -----

  /** An operator token is in the table, stands in the input, and no longer operator of
      the table stands there. */
  lemma LongestMatch(cfg: Config, s: string, p: nat, longer: string)
    requires p < |s| && END_OF_INPUT !in s
    requires |RoundAt(cfg, s, p).tokens| == 1 && RoundAt(cfg, s, p).tokens[0].Operator?
    ensures var r := RoundAt(cfg, s, p);
            var x := r.tokens[0].spelling;
            && IsOperator(x) && r.next == p + |x| && x == s[p..r.next]
            && (IsOperator(longer) && |longer| > |x| ==> !(longer <= s[p..]))
  {
    hide StringFrom, WordFrom, EndOf, Value, Unterminated, EscapeAt;
    PrefixAt(s, p, longer);
  }

  lemma PrefixAt(s: string, p: nat, x: string)
    requires p < |s|
    ensures x <= s[p..] ==> forall i | 0 <= i < |x| :: x[i] == At(s, p + i)
  {
    assert x <= s[p..] ==> forall i | 0 <= i < |x| :: x[i] == s[p..][i];
  }

  // ----- printing and scanning -----

  ghost predicate IsName(x: string) {
    x != "" && IsIdentifierStart(x[0]) && forall i | 0 <= i < |x| :: IsIdentifierPart(x[i])
  }

  /** The tokens that have a canonical spelling. */
  ghost predicate Printable(cfg: Config, t: Token) {
    match t
    case Operator(x) => IsOperator(x)
    case Keyword(x) => IsName(x) && x in cfg.keywords
    case Identifier(x) => IsName(x) && x !in cfg.keywords
    case VarEnv(x) => IsName(x)
    case Int(v) => v <= INT_MAX
    case Str(x) => END_OF_INPUT !in x
    case NewLine => true
    case _ => false
  }

  function Digits(n: nat): (d: string)
    ensures d != "" && forall i | 0 <= i < |d| :: IsDigit(d[i])
    ensures Value(d) == n
  {
    var last := ['0' + (n % 10) as char];
    if n < 10 then last else Digits(n / 10) + last
  }

  /** A text with its backslashes and double quotes escaped. */
  function Escaped(x: string): string {
    if x == "" then ""
    else EscapedChar(x[0]) + Escaped(x[1..])
  }

  function Spelling(t: Token): string {
    match t
    case Operator(x) => x
    case Keyword(x) => x
    case Identifier(x) => x
    case VarEnv(x) => "$" + x
    case Int(v) => Digits(v)
    case Str(x) => "\"" + Escaped(x) + "\""
    case NewLine => "\n"
    case _ => ""
  }

  function Print(ts: seq<Token>): string {
    if ts == [] then "" else if |ts| == 1 then Spelling(ts[0]) else Spelling(ts[0]) + " " + Print(ts[1..])
  }

  /** x stands in s at p. */
  ghost predicate Stands(s: string, p: nat, x: string) {
    p + |x| <= |s| && forall i | 0 <= i < |x| :: s[p + i] == x[i]
  }

  lemma StandsSplit(s: string, p: nat, a: string, b: string)
    ensures Stands(s, p, a + b) <==> Stands(s, p, a) && Stands(s, p + |a|, b)
    ensures Stands(s, p, a) ==> s[p..p + |a|] == a
  {
    if Stands(s, p, a) && Stands(s, p + |a|, b) {
      forall i | 0 <= i < |a + b| ensures s[p + i] == (a + b)[i] {
        if i >= |a| { assert s[p + |a| + (i - |a|)] == b[i - |a|]; }
      }
    }
    if Stands(s, p, a + b) {
      forall i | 0 <= i < |b| ensures s[p + |a| + i] == b[i] {
        assert s[p + (|a| + i)] == (a + b)[|a| + i];
      }
      forall i | 0 <= i < |a| ensures s[p + i] == a[i] {
        assert s[p + i] == (a + b)[i];
      }
    }
  }

  /** A blank or the end of the input is at p. */
  predicate Apart(s: string, p: nat) { p >= |s| || s[p] == ' ' }

  lemma {:induction false} EndAfter(s: string, p: nat, q: nat, f: char -> bool)
    requires p <= q <= |s|
    requires forall i | p <= i < q :: f(s[i])
    requires q < |s| ==> !f(s[q])
    ensures EndOf(s, p, f) == q
    decreases q - p
  {
    if p < q { EndAfter(s, p + 1, q, f); }
  }

  function EscapedChar(c: char): string {
    if c == '\\' || c == '"' then ['\\', c] else [c]
  }

  lemma {:induction false} StringAfter(cfg: Config, s: string, p: nat, x: string)
    requires Stands(s, p, Escaped(x)) && At(s, p + |Escaped(x)|) == '"'
    ensures StringFrom(cfg, s, p, '"') == Span(x, p + |Escaped(x)| + 1)
    ensures !Unterminated(cfg, s, p, '"')
    decreases |x|
  {
    hide Stands;
    if x == "" {
      StringEnd(cfg, s, p, '"');
    } else {
      var first := EscapedChar(x[0]);
      var next := p + |first|;
      StandsSplit(s, p, first, Escaped(x[1..]));
      StringAfter(cfg, s, next, x[1..]);
      CharRead(cfg, s, p, x[0]);
      StringStep(cfg, s, p, '"', "");
      assert x == [x[0]] + x[1..];
    }
  }

  lemma CharRead(cfg: Config, s: string, p: nat, c: char)
    requires Stands(s, p, EscapedChar(c))
    ensures p < |s| && s[p] != '"'
    ensures if s[p] == '\\' then EscapeAt(cfg, s, p) == Span([c], p + 2) && |EscapedChar(c)| == 2
            else s[p] == c && |EscapedChar(c)| == 1
  {
    assert s[p + 0] == EscapedChar(c)[0];
    assert |EscapedChar(c)| == 2 ==> s[p + 1] == EscapedChar(c)[1];
  }

  /** The scanner reads a spelling back as the token it came from. */
  lemma SpellingReads(cfg: Config, s: string, p: nat, t: Token)
    requires END_OF_INPUT !in s && Printable(cfg, t)
    requires Stands(s, p, Spelling(t)) && Apart(s, p + |Spelling(t)|)
    ensures p < |s| && RoundAt(cfg, s, p) == Round([t], p + |Spelling(t)|, 0)
  {
    hide Stands, IsName, StringAt, NumberAt, OperatorAt, WordFrom, EndOf, Escaped, Digits, IsOperator;
    if t.Str? {
      StringReads(cfg, s, p, t.text);
    } else if t.Operator? {
      OperatorReads(cfg, s, p, t.spelling);
    } else if t.Int? {
      NumberReads(cfg, s, p, t.value);
    } else if t.NewLine? {
      FirstChar(s, p, "\n");
    } else if t.VarEnv? {
      StandsSplit(s, p, "$", t.name);
      FirstChar(s, p, "$");
      NameReads(cfg, s, p + 1, t.name);
    } else if t.Keyword? || t.Identifier? {
      NameReads(cfg, s, p, t.name);
    }
  }

  lemma FirstChar(s: string, p: nat, x: string)
    requires x != "" && Stands(s, p, x)
    ensures p < |s| && s[p] == x[0]
  {
    assert s[p + 0] == x[0];
  }

  lemma {:induction false} ClassReads(s: string, p: nat, x: string, f: char -> bool)
    requires Stands(s, p, x) && (forall i | 0 <= i < |x| :: f(x[i])) && (p + |x| < |s| ==> !f(s[p + |x|]))
    ensures EndOf(s, p, f) == p + |x| && s[p..p + |x|] == x
  {
    forall i | p <= i < p + |x| ensures f(s[i]) {
      assert s[p + (i - p)] == x[i - p];
    }
    EndAfter(s, p, p + |x|, f);
  }

  lemma NameReads(cfg: Config, s: string, p: nat, x: string)
    requires END_OF_INPUT !in s && IsName(x) && Stands(s, p, x) && Apart(s, p + |x|)
    ensures p < |s| && IsIdentifierStart(s[p])
    ensures EndOf(s, p, IsIdentifierPart) == p + |x| && s[p..p + |x|] == x
    ensures RoundAt(cfg, s, p) == Round([Named(cfg, x)], p + |x|, 0)
  {
    hide Stands, EndOf, StringAt, NumberAt, OperatorAt, WordFrom;
    FirstChar(s, p, x);
    ClassReads(s, p, x, IsIdentifierPart);
  }

  lemma NumberReads(cfg: Config, s: string, p: nat, v: nat)
    requires END_OF_INPUT !in s && v <= INT_MAX && Stands(s, p, Digits(v)) && Apart(s, p + |Digits(v)|)
    ensures p < |s| && RoundAt(cfg, s, p) == Round([Int(v)], p + |Digits(v)|, 0)
  {
    hide Stands, EndOf, StringAt, OperatorAt, WordFrom, Digits, Value;
    FirstChar(s, p, Digits(v));
    ClassReads(s, p, Digits(v), IsDigit);
  }

  lemma StringReads(cfg: Config, s: string, p: nat, text: string)
    requires END_OF_INPUT !in s && Stands(s, p, Spelling(Str(text)))
    ensures p < |s| && RoundAt(cfg, s, p) == Round([Str(text)], p + |Spelling(Str(text))|, 0)
  {
    hide Stands, StringFrom, Unterminated, NumberAt, OperatorAt, WordFrom, EndOf, Escaped;
    StandsSplit(s, p, "\"" + Escaped(text), "\"");
    StandsSplit(s, p, "\"", Escaped(text));
    FirstChar(s, p, "\"");
    FirstChar(s, p + 1 + |Escaped(text)|, "\"");
    StringAfter(cfg, s, p + 1, text);
  }

  lemma OperatorReads(cfg: Config, s: string, p: nat, x: string)
    requires END_OF_INPUT !in s && IsOperator(x) && Stands(s, p, x) && Apart(s, p + |x|)
    ensures p < |s| && RoundAt(cfg, s, p) == Round([Operator(x)], p + |x|, 0)
  {
    hide StringFrom, WordFrom, EndOf, Value, Unterminated, EscapeAt;
    assert s[p + 0] == x[0];
    if |x| == 1 {
      assert x == [x[0]];
    } else if |x| == 2 {
      assert x == [x[0], x[1]];
    } else {
      assert x == [x[0], x[1], x[2]];
    }
  }

  /** Scanning what was printed gives the tokens back, then the end of the input. */
  lemma {:induction false} PrintThenScan(cfg: Config, s: string, p: nat, ts: seq<Token>)
    requires END_OF_INPUT !in s && Stands(s, p, Print(ts)) && p + |Print(ts)| == |s|
    requires forall t | t in ts :: Printable(cfg, t)
    ensures Tokens(cfg, s, p) == ts + [Eos] && Errors(cfg, s, p) == 0
    decreases |ts|
  {
    hide RoundAt, Stands, Spelling, Printable;
    if ts != [] {
      var x := Spelling(ts[0]);
      var q := p + |x|;
      assert ts == [ts[0]] + ts[1..];
      if |ts| == 1 {
        SpellingReads(cfg, s, p, ts[0]);
      } else {
        StandsSplit(s, p, x + " ", Print(ts[1..]));
        StandsSplit(s, p, x, " ");
        BlankReads(cfg, s, q);
        SpellingReads(cfg, s, p, ts[0]);
        PrintThenScan(cfg, s, q + 1, ts[1..]);
        assert Tokens(cfg, s, q) == Tokens(cfg, s, q + 1);
      }
    }
  }

  lemma BlankReads(cfg: Config, s: string, p: nat)
    requires END_OF_INPUT !in s && Stands(s, p, " ")
    ensures p < |s| && Apart(s, p) && RoundAt(cfg, s, p) == Round([], p + 1, 0)
  {
    FirstChar(s, p, " ");
  }

  /** Every printed list of tokens scans to itself. */
  lemma RoundTrip(cfg: Config, ts: seq<Token>)
    requires forall t | t in ts :: Printable(cfg, t)
    ensures END_OF_INPUT !in Print(ts)
    ensures Tokens(cfg, Print(ts), 0) == ts + [Eos] && Errors(cfg, Print(ts), 0) == 0
  {
    PrintedBytes(cfg, ts);
    PrintThenScan(cfg, Print(ts), 0, ts);
  }

  lemma {:induction false} EscapedBytes(x: string)
    requires END_OF_INPUT !in x
    ensures END_OF_INPUT !in Escaped(x)
  {
    if x != "" { EscapedBytes(x[1..]); }
  }

  lemma {:induction false} PrintedBytes(cfg: Config, ts: seq<Token>)
    requires forall t | t in ts :: Printable(cfg, t)
    ensures END_OF_INPUT !in Print(ts)
  {
    if ts != [] {
      assert END_OF_INPUT !in Spelling(ts[0]) by {
        assert Printable(cfg, ts[0]);
        if ts[0].Str? { EscapedBytes(ts[0].text); }
      }
      PrintedBytes(cfg, ts[1..]);
    }
  }
}
