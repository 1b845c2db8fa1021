/** Escapes, numbers, comments and operators of the scanner, by their spellings. */
module Escapes {
  import opened Options
  import opened Lexer

  // ----- strings with every escape -----

  /** What stands behind the backslash for a character that a printer escapes. */
  function Code(c: char): Option<char> {
    match c
    case '\n' => Some('n')
    case '\t' => Some('t')
    case '\r' => Some('r')
    case '\U{000C}' => Some('f')
    case '\U{0008}' => Some('b')
    case '\\' => Some('\\')
    case '"' => Some('"')
    case '\'' => Some('\'')
    case _ => None
  }

  function Coded(x: string): string {
    if x == "" then ""
    else (if Code(x[0]).Some? then ['\\', Code(x[0]).value] else [x[0]]) + Coded(x[1..])
  }

  lemma CodeRead(cfg: Config, s: string, b: nat, c: char, quote: char)
    requires b + 1 < |s| && s[b] == '\\' && Code(c) == Some(s[b + 1]) && quote in ['"', '\'']
    ensures StringFrom(cfg, s, b, quote) == Before([c], StringFrom(cfg, s, b + 2, quote))
    ensures Unterminated(cfg, s, b, quote) == Unterminated(cfg, s, b + 2, quote)
  {
  }

  /** Between quotes of either kind the coded text is read back as the text. */
  lemma {:induction false} CodedReads(cfg: Config, s: string, p: nat, x: string, quote: char)
    requires quote in ['"', '\''] && Stands(s, p, Coded(x)) && At(s, p + |Coded(x)|) == quote
    requires p + |Coded(x)| < |s|
    ensures StringFrom(cfg, s, p, quote) == Span(x, p + |Coded(x)| + 1)
    ensures !Unterminated(cfg, s, p, quote)
    decreases |x|
  {
    hide Stands, EscapeAt;
    if x == "" {
      StringEnd(cfg, s, p, quote);
    } else {
      var first := if Code(x[0]).Some? then ['\\', Code(x[0]).value] else [x[0]];
      StandsSplit(s, p, first, Coded(x[1..]));
      CodedReads(cfg, s, p + |first|, x[1..], quote);
      FirstStands(s, p, first);
      if Code(x[0]).Some? {
        CodeRead(cfg, s, p, x[0], quote);
      } else {
        StringStep(cfg, s, p, quote, "");
      }
      assert x == [x[0]] + x[1..];
    }
  }

  lemma FirstStands(s: string, p: nat, x: string)
    requires Stands(s, p, x) && 1 <= |x| <= 2
    ensures p < |s| && s[p] == x[0] && (|x| == 2 ==> p + 1 < |s| && s[p + 1] == x[1])
  {
    assert s[p + 0] == x[0];
    assert |x| == 2 ==> s[p + 1] == x[1];
  }

  lemma {:induction false} CodedBytes(x: string)
    requires END_OF_INPUT !in x
    ensures END_OF_INPUT !in Coded(x)
  {
    if x != "" { CodedBytes(x[1..]); }
  }

  /** A coded literal alone scans to the token of its text, without errors: every text
      without the end byte has a spelling in quotes of either kind. */
  lemma CodedRoundTrip(cfg: Config, x: string, quote: char)
    requires END_OF_INPUT !in x && quote in ['"', '\'']
    ensures var s := [quote] + Coded(x) + [quote];
            END_OF_INPUT !in s && Tokens(cfg, s, 0) == [Str(x), Eos] && Errors(cfg, s, 0) == 0
  {
    hide StringFrom, Unterminated;
    var s := [quote] + Coded(x) + [quote];
    CodedBytes(x);
    assert Stands(s, 1, Coded(x));
    CodedReads(cfg, s, 1, x, quote);
    assert RoundAt(cfg, s, 0) == Round([Str(x)], |s|, 0);
    assert Tokens(cfg, s, |s|) == [Eos] && [Str(x)] + [Eos] == [Str(x), Eos];
  }

  // ----- the other escapes of a string -----

  /** A backslash before any other character stays, and so does the character. */
  lemma UnknownEscape(cfg: Config, s: string, b: nat, quote: char)
    requires b + 1 < |s| && s[b] == '\\' && quote in ['"', '\'']
    requires s[b + 1] !in ['n', 't', 'r', 'f', 'b', '\\', '"', '\'', '0', 'u']
    ensures StringFrom(cfg, s, b, quote) == Before(['\\', s[b + 1]], StringFrom(cfg, s, b + 2, quote))
    ensures Unterminated(cfg, s, b, quote) == Unterminated(cfg, s, b + 2, quote)
  {
  }

  ghost predicate Octal(x: string) { forall i | 0 <= i < |x| :: '0' <= x[i] <= '7' }

  ghost predicate Hex(x: string) {
    forall i | 0 <= i < |x| :: '0' <= x[i] <= '9' || 'a' <= x[i] <= 'f' || 'A' <= x[i] <= 'F'
  }

  /** A zero takes all the octal digits behind it, up to the first other character; without
      any it is the null character. */
  lemma OctalEscape(cfg: Config, s: string, b: nat, d: string, quote: char)
    requires b + 1 < |s| && s[b] == '\\' && s[b + 1] == '0' && quote in ['"', '\'']
    requires Stands(s, b + 2, d) && Octal(d) && b + 2 + |d| < |s| && !('0' <= s[b + 2 + |d|] <= '7')
    ensures var rest := b + 2 + |d|;
            && StringFrom(cfg, s, b, quote) ==
               Before([if d == "" then '\0' else cfg.octal("0" + d)], StringFrom(cfg, s, rest, quote))
            && Unterminated(cfg, s, b, quote) == Unterminated(cfg, s, rest, quote)
  {
    var q := b + 2 + |d|;
    assert forall i | b + 2 <= i < q :: s[i] == d[i - (b + 2)];
    if d != "" {
      EndAfter(s, b + 1, q, IsOctalChar);
      assert s[b + 2] == d[0];
      assert s[b + 1..q] == "0" + d;
    }
  }

  /** \u takes all the hexadecimal digits behind it; without any both characters stay. */
  lemma UnicodeEscape(cfg: Config, s: string, b: nat, d: string, quote: char)
    requires b + 1 < |s| && s[b] == '\\' && s[b + 1] == 'u' && quote in ['"', '\'']
    requires Stands(s, b + 2, d) && Hex(d) && b + 2 + |d| < |s| && !Hex([s[b + 2 + |d|]])
    ensures var rest := b + 2 + |d|;
            && StringFrom(cfg, s, b, quote) ==
               Before(if d == "" then "\\u" else cfg.utf8(d), StringFrom(cfg, s, rest, quote))
            && Unterminated(cfg, s, b, quote) == Unterminated(cfg, s, rest, quote)
  {
    var q := b + 2 + |d|;
    assert forall i | b + 2 <= i < q :: s[i] == d[i - (b + 2)];
    assert [s[q]][0] == s[q];
    if d != "" {
      EndAfter(s, b + 2, q, IsHexChar);
      assert s[b + 2] == d[0];
      assert s[b + 2..q] == d;
    }
  }

  // ----- words -----

  /** The characters that end a word unless a backslash precedes them. */
  predicate Stops(c: char) { c in [' ', '\t', '\n', ')', ';', '}', '|', '&', '%'] }

  /** In a word the five control characters have letters, and every character that would
      end it, and the backslash, stands behind a backslash. */
  function WordCode(c: char): (x: string)
    ensures 1 <= |x| <= 2
  {
    if c in ['\n', '\t', '\r', '\U{000C}', '\U{0008}'] then ['\\', Code(c).value]
    else if Stops(c) || c == '\\' then ['\\', c]
    else [c]
  }

  function WordCoded(x: string): string {
    if x == "" then "" else WordCode(x[0]) + WordCoded(x[1..])
  }

  /** A coded word is read back as its text, up to a character that ends it. */
  lemma {:induction false} WordCodedReads(s: string, p: nat, x: string)
    requires Stands(s, p, WordCoded(x)) && END_OF_INPUT !in s
    requires p + |WordCoded(x)| < |s| ==> Stops(s[p + |WordCoded(x)|])
    ensures WordFrom(s, p) == Span(x, p + |WordCoded(x)|)
    decreases |x|
  {
    hide *;
    WordCodedIs(x);
    if x == "" {
      WordStops(s, p);
    } else {
      StandsSplit(s, p, WordCode(x[0]), WordCoded(x[1..]));
      WordCodedReads(s, p + |WordCode(x[0])|, x[1..]);
      OneCode(s, p, x[0]);
      assert x == [x[0]] + x[1..];
    }
  }

  lemma WordStops(s: string, p: nat)
    requires Stands(s, p, "") && END_OF_INPUT !in s && (p < |s| ==> Stops(s[p]))
    ensures p <= |s| && WordFrom(s, p) == Span("", p)
  {
  }

  lemma OneCode(s: string, p: nat, c: char)
    requires Stands(s, p, WordCode(c)) && END_OF_INPUT !in s
    ensures var q := p + |WordCode(c)|;
            q <= |s| && WordFrom(s, p).text == [c] + WordFrom(s, q).text && WordFrom(s, p).next == WordFrom(s, q).next
  {
    var first := WordCode(c);
    FirstStands(s, p, first);
    assert s[p] in s && (|first| == 2 ==> s[p + 1] in s);
    hide Stands, IsSpecialChar, WordEscape, WordCode;
    CodeEscapes(c);
  }

  lemma CodeEscapes(c: char)
    requires c != END_OF_INPUT
    ensures IsSpecialChar(WordCode(c)[0])
    ensures if WordCode(c)[0] == '\\' then |WordCode(c)| == 2 && WordEscape(WordCode(c)[1]) == c
            else WordCode(c) == [c]
  {
  }

  lemma WordCodedIs(x: string)
    ensures WordCoded(x) == if x == "" then "" else WordCode(x[0]) + WordCoded(x[1..])
  {
  }

  lemma StandsWithin(s: string, p: nat, x: string)
    requires Stands(s, p, x)
    ensures p + |x| <= |s|
  {
  }

  // ----- numbers, comments, operators -----

  ghost predicate Decimal(x: string) { x != "" && forall i | 0 <= i < |x| :: '0' <= x[i] <= '9' }

  /** A number above the largest int is read as the largest int. */
  lemma IntSaturates(cfg: Config, s: string, p: nat, v: nat)
    requires END_OF_INPUT !in s && Stands(s, p, Digits(v)) && Apart(s, p + |Digits(v)|)
    ensures p < |s| && RoundAt(cfg, s, p) ==
                       Round([Int(if v > 2147483647 then 2147483647 else v)], p + |Digits(v)|, 0)
  {
    hide Stands, EndOf, StringAt, OperatorAt, WordFrom, Digits, Value;
    FirstChar(s, p, Digits(v));
    ClassReads(s, p, Digits(v), IsDigit);
  }

  /** Digits, a point, digits or nothing: a real. */
  lemma RealReads(cfg: Config, s: string, p: nat, a: string, b: string)
    requires END_OF_INPUT !in s && Decimal(a) && (b == "" || Decimal(b)) && Stands(s, p, a + "." + b)
    requires var q := p + |a| + 1 + |b|; q < |s| ==> s[q] != '.' && !('0' <= s[q] <= '9')
    ensures p < |s| && RoundAt(cfg, s, p) == Round([Real(a + "." + b)], p + |a| + 1 + |b|, 0)
  {
    hide EndOf, StringAt, OperatorAt, WordFrom, Value, Stands;
    var q, end := p + |a|, p + |a| + 1 + |b|;
    StandsSplit(s, p, a + ".", b);
    StandsSplit(s, p, a, ".");
    StandsSplit(s, p, a + "." + b, "");
    FirstChar(s, p, a);
    FirstChar(s, q, ".");
    ClassReads(s, p, a, IsDigit);
    ClassReads(s, q + 1, b, IsDigit);
    assert a + "." + b + "" == a + "." + b;
    assert s[p..end] == a + "." + b;
  }

  /** A comment reaches to the end of its line. */
  lemma CommentSkipped(cfg: Config, s: string, p: nat, x: string)
    requires END_OF_INPUT !in s && Stands(s, p, "#" + x) && '\n' !in x
    requires p + 1 + |x| < |s| ==> s[p + 1 + |x|] == '\n'
    ensures p < |s| && RoundAt(cfg, s, p) == Round([], p + 1 + |x|, 0)
  {
    hide Stands;
    StandsSplit(s, p, "#", x);
    FirstChar(s, p, "#");
    ClassReads(s, p + 1, x, c => c != '\n');
  }

  /** The operators, one by one. */
  lemma OperatorTable(x: string)
    ensures IsOperator(x) <==>
            || x in {"<", ">", "=", "!", "+", "-", "*", "/", "%", "&", "|", "^", "~", ";", ":", ",", "$", "(", ")", "{",
                     "}", "[", "]", ".", "@"}
            || x in {"<=", ">=", "==", "!=", "+=", "-=", "*=", "/=", "%=", "&=", "|=", "^=", "<&", ">&", "<<", ">>",
                     "**", "%%", "&&", "||", "::", "->", "$(", "${"}
            || x in {"<<=", ">>=", "<<<", ">>>", "...", "$@{"}
  {
    if |x| == 1 {
      assert x == [x[0]];
    } else if |x| == 2 {
      assert x == [x[0], x[1]];
    } else if |x| == 3 {
      assert x == [x[0], x[1], x[2]];
    }
  }
}
