/** The input language of Sockets/unix_calc_server.c, stated without reference to any parser:
    token sequences derived from expression / term / factor rules, spelled out with optional
    white space before, between and after the tokens. */
module CalculatorGrammar {

  /** `isspace` in the C locale (section 7.4.1.10 of ISO C11). */
  predicate IsSpace(ch: char) {
    ch == ' ' || '\t' <= ch <= '\r'
  }

  predicate Blank(s: string) {
    forall i | 0 <= i < |s| :: IsSpace(s[i])
  }

  datatype Op = Add | Sub | Mul | Div

  datatype Tree = Num(literal: string) | Neg(arg: Tree) | Bin(op: Op, left: Tree, right: Tree)

  datatype Token = Open | Close | Minus | Infix(op: Op) | Number(literal: string)

  function OpSymbol(op: Op): char {
    match op
    case Add => '+'
    case Sub => '-'
    case Mul => '*'
    case Div => '/'
  }

  function Spelling(t: Token): string {
    match t
    case Open => "("
    case Close => ")"
    case Minus => "-"
    case Infix(op) => [OpSymbol(op)]
    case Number(literal) => literal
  }

  predicate Multiplicative(op: Op) { op == Mul || op == Div }

  // ----- numerals -----

  /** `strtod`, section 7.22.1.3 of ISO C11: which texts have the expected form, and which of
      those set `errno` to ERANGE. The function takes the longest prefix of the expected form. */
  datatype Strtod = Strtod(numeral: string -> bool, outOfRange: string -> bool)

  /** A character that may come right after a factor. */
  predicate Delimiter(ch: char) {
    IsSpace(ch) || ch == ')' || ch == '+' || ch == '-' || ch == '*' || ch == '/' || ch == '\0'
  }

  /** What the C standard fixes about the expected forms, and all that is assumed here: they are
      not empty, do not start with white space or a parenthesis, hold no NUL, and no numeral
      stays a numeral when extended by text that starts with a delimiter. */
  ghost predicate NumeralLanguage(lex: Strtod) {
    && (forall u :: lex.numeral(u) ==> u != "" && !IsSpace(u[0]) && u[0] != '(' && '\0' !in u)
    && (forall u, v :: lex.numeral(u) && lex.numeral(u + v) && v != "" ==> !Delimiter(v[0]))
  }

  /** A numeral that reaches `strtod`: a leading minus is taken by the factor rule first. */
  predicate IsLiteral(lex: Strtod, u: string) {
    lex.numeral(u) && u != "" && u[0] != '-'
  }

  // ----- derivations -----

  /** A derivation by the rules
        expression = term | expression ("+" | "-") term
        term       = factor | term ("*" | "/") factor
        factor     = "(" expression ")" | "-" factor | number          */
  datatype Derivation =
    | Literal(literal: string)
    | Negated(arg: Derivation)
    | Paren(inner: Derivation)
    | Binary(op: Op, left: Derivation, right: Derivation)

  datatype Level = FactorLevel | TermLevel | SumLevel

  predicate Derives(lex: Strtod, level: Level, d: Derivation)
    decreases d
  {
    match d
    case Literal(u) => IsLiteral(lex, u)
    case Negated(a) => Derives(lex, FactorLevel, a)
    case Paren(e) => Derives(lex, SumLevel, e)
    case Binary(op, l, r) =>
      if Multiplicative(op) then level != FactorLevel && Derives(lex, TermLevel, l) && Derives(lex, FactorLevel, r)
      else level == SumLevel && Derives(lex, SumLevel, l) && Derives(lex, TermLevel, r)
  }

  predicate IsFactor(lex: Strtod, d: Derivation) { Derives(lex, FactorLevel, d) }

  predicate IsTerm(lex: Strtod, d: Derivation) { Derives(lex, TermLevel, d) }

  predicate IsExpression(lex: Strtod, d: Derivation) { Derives(lex, SumLevel, d) }

  function Yield(d: Derivation): (r: seq<Token>)
    ensures |r| > 0
  {
    match d
    case Literal(u) => [Number(u)]
    case Negated(a) => [Minus] + Yield(a)
    case Paren(e) => [Open] + (Yield(e) + [Close])
    case Binary(op, l, r) => Yield(l) + ([Infix(op)] + Yield(r))
  }

  /** The tree a derivation stands for: parentheses leave no trace. */
  function Erase(d: Derivation): Tree {
    match d
    case Literal(u) => Num(u)
    case Negated(a) => Neg(Erase(a))
    case Paren(e) => Erase(e)
    case Binary(op, l, r) => Bin(op, Erase(l), Erase(r))
  }

  predicate InRange(lex: Strtod, e: Tree) {
    match e
    case Num(u) => !lex.outOfRange(u)
    case Neg(a) => InRange(lex, a)
    case Bin(_, l, r) => InRange(lex, l) && InRange(lex, r)
  }

  // ----- spelling tokens out with white space -----

  predicate Gaps(g: seq<string>, n: nat) {
    |g| == n + 1 && forall i | 0 <= i < |g| :: Blank(g[i])
  }

  /** Each token after its gap, and the last gap at the end. */
  function Render(g: seq<string>, ts: seq<Token>): string
    requires |g| == |ts| + 1
    decreases |ts|
  {
    if ts == [] then g[0] else g[0] + (Spelling(ts[0]) + Render(g[1..], ts[1..]))
  }

  function BeforeNul(text: string): (r: string)
    ensures r <= text && '\0' !in r
    ensures r == text || text[|r|] == '\0'
  {
    if text == "" || text[0] == '\0' then "" else [text[0]] + BeforeNul(text[1..])
  }

  /** The text up to its first NUL is a spelling of a derivation of the tree e. */
  ghost predicate Derivable(lex: Strtod, text: string, e: Tree) {
    exists d, g ::
      && IsExpression(lex, d) && Erase(d) == e && InRange(lex, e)
      && Gaps(g, |Yield(d)|) && BeforeNul(text) == Render(g, Yield(d))
  }

  function Join(g: seq<string>, h: seq<string>): seq<string>
    requires g != [] && h != []
  {
    g[..|g| - 1] + ([g[|g| - 1] + h[0]] + h[1..])
  }

  lemma JoinKeepsGaps(g: seq<string>, m: nat, h: seq<string>, n: nat)
    requires Gaps(g, m) && Gaps(h, n)
    ensures Gaps(Join(g, h), m + n)
  {
    var j := Join(g, h);
    forall i | 0 <= i < |j| ensures Blank(j[i]) {
      if i == m {
        assert j[i] == g[m] + h[0];
      } else {
        assert j[i] == if i < m then g[i] else h[i - m];
      }
    }
  }

  lemma JoinTail(g: seq<string>, h: seq<string>)
    requires |g| > 1 && h != []
    ensures Join(g, h)[0] == g[0] && Join(g, h)[1..] == Join(g[1..], h)
  {}

  /** Two spellings side by side spell the concatenated tokens. */
  lemma {:induction false} RenderJoin(g: seq<string>, ts: seq<Token>, h: seq<string>, us: seq<Token>)
    requires |g| == |ts| + 1 && |h| == |us| + 1
    ensures Render(g, ts) + Render(h, us) == Render(Join(g, h), ts + us)
    decreases |ts|
  {
    var j := Join(g, h);
    if ts == [] {
      assert ts + us == us && j[1..] == h[1..];
    } else {
      RenderJoin(g[1..], ts[1..], h, us);
      assert (ts + us)[1..] == ts[1..] + us;
      JoinTail(g, h);
    }
  }

  /** A spelling of concatenated tokens splits into spellings of the parts. */
  lemma {:induction false} RenderSplit(g: seq<string>, ts: seq<Token>, us: seq<Token>)
    requires Gaps(g, |ts + us|)
    ensures Gaps(g[..|ts| + 1], |ts|) && Gaps([""] + g[|ts| + 1..], |us|)
    ensures Render(g, ts + us) == Render(g[..|ts| + 1], ts) + Render([""] + g[|ts| + 1..], us)
  {
    var front, back := g[..|ts| + 1], [""] + g[|ts| + 1..];
    RenderJoin(front, ts, back, us);
    assert front[|ts|] + back[0] == g[|ts|];
    assert Join(front, back) == g;
  }
}
