/** What the evaluator of Sockets/unix_calc_server.c computes: it accepts exactly the texts of
    the grammar, rebuilds exactly the tree they stand for, and its running accumulation is the
    fold of that tree in any algebra. */
module CalculatorTheorems {
  import opened CalculatorGrammar
  import opened CalculatorParser

  function Trees(): Algebra<Tree> {
    Algebra(u => Num(u), e => Neg(e), (op, l, r) => Bin(op, l, r))
  }

  // ----- fusion -----

  function Fold<V>(alg: Algebra<V>, e: Tree): V {
    match e
    case Num(u) => alg.num(u)
    case Neg(a) => alg.neg(Fold(alg, a))
    case Bin(op, l, r) => alg.bin(op, Fold(alg, l), Fold(alg, r))
  }

  function FoldOutcome<V>(alg: Algebra<V>, o: Outcome<Tree>): Outcome<V> {
    match o
    case Died => Died
    case Parsed(e, rest) => Parsed(Fold(alg, e), rest)
  }

  lemma {:induction false} FactorFuses<V>(alg: Algebra<V>, lex: Strtod, s: string)
    ensures Factor(alg, lex, s) == FoldOutcome(alg, Factor(Trees(), lex, s))
    decreases |s|, 0
  {
    var u := SkipSpaces(s);
    if Head(u) == '(' {
      ExpressionFuses(alg, lex, u[1..]);
    } else if Head(u) == '-' {
      FactorFuses(alg, lex, u[1..]);
    }
  }

  lemma {:induction false} TermFuses<V>(alg: Algebra<V>, lex: Strtod, s: string)
    ensures Term(alg, lex, s) == FoldOutcome(alg, Term(Trees(), lex, s))
    decreases |s|, 2
  {
    FactorFuses(alg, lex, s);
    var o := Factor(Trees(), lex, s);
    if o.Parsed? {
      TermLoopFuses(alg, lex, o.value, o.rest);
    }
  }

  lemma {:induction false} TermLoopFuses<V>(alg: Algebra<V>, lex: Strtod, e: Tree, s: string)
    ensures TermLoop(alg, lex, Fold(alg, e), s) == FoldOutcome(alg, TermLoop(Trees(), lex, e, s))
    decreases |s|, 1
  {
    var u := SkipSpaces(s);
    if Head(u) == '*' || Head(u) == '/' {
      FactorFuses(alg, lex, u[1..]);
      var o := Factor(Trees(), lex, u[1..]);
      if o.Parsed? {
        TermLoopFuses(alg, lex, Bin(TermOp(Head(u)), e, o.value), o.rest);
      }
    }
  }

  lemma {:induction false} ExpressionFuses<V>(alg: Algebra<V>, lex: Strtod, s: string)
    ensures Expression(alg, lex, s) == FoldOutcome(alg, Expression(Trees(), lex, s))
    decreases |s|, 4
  {
    TermFuses(alg, lex, s);
    var o := Term(Trees(), lex, s);
    if o.Parsed? {
      SumLoopFuses(alg, lex, o.value, o.rest);
    }
  }

  lemma {:induction false} SumLoopFuses<V>(alg: Algebra<V>, lex: Strtod, e: Tree, s: string)
    ensures SumLoop(alg, lex, Fold(alg, e), s) == FoldOutcome(alg, SumLoop(Trees(), lex, e, s))
    decreases |s|, 3
  {
    var u := SkipSpaces(s);
    if Head(u) == '+' || Head(u) == '-' {
      TermFuses(alg, lex, u[1..]);
      var o := Term(Trees(), lex, u[1..]);
      if o.Parsed? {
        SumLoopFuses(alg, lex, Bin(SumOp(Head(u)), e, o.value), o.rest);
      }
    }
  }

  /** The value accumulated while parsing is the fold of the parsed tree, in any algebra. */
  lemma EvaluateFuses<V>(alg: Algebra<V>, lex: Strtod, input: string)
    ensures Evaluate(alg, lex, input) == FoldOutcome(alg, Evaluate(Trees(), lex, input))
  {
    ExpressionFuses(alg, lex, input);
  }

  // ----- white space and numerals -----

  /** The blanks in front of the cursor, and the text behind them. */
  lemma {:induction false} SkipSplits(s: string) returns (blank: string)
    ensures Blank(blank) && s == blank + SkipSpaces(s)
  {
    if IsSpace(Head(s)) {
      blank := SkipSplits(s[1..]);
      blank := [s[0]] + blank;
    } else {
      blank := "";
    }
  }

  lemma {:induction false} SkipOverBlank(blank: string, s: string)
    requires Blank(blank)
    ensures SkipSpaces(blank + s) == SkipSpaces(s)
  {
    if blank == "" {
      assert blank + s == s;
    } else {
      assert (blank + s)[1..] == blank[1..] + s;
      SkipOverBlank(blank[1..], s);
    }
  }

  lemma {:induction false} LongestIsNumeral(numeral: string -> bool, s: string, n: nat)
    requires n <= |s| && LongestMatch(numeral, s, n) > 0
    ensures numeral(s[..LongestMatch(numeral, s, n)])
  {
    if !numeral(s[..n]) {
      LongestIsNumeral(numeral, s, n - 1);
    }
  }

  /** Text that may follow a factor: nothing, or a delimiter. */
  predicate Ends(w: string) { w == "" || Delimiter(w[0]) }

  lemma {:induction false} LongestIsLiteral(lex: Strtod, u: string, w: string, n: nat)
    requires NumeralLanguage(lex) && lex.numeral(u) && Ends(w) && |u| <= n <= |u + w|
    ensures LongestMatch(lex.numeral, u + w, n) == |u|
  {
    if n == |u| {
      assert (u + w)[..n] == u;
    } else {
      assert (u + w)[..n] == u + w[..n - |u|];
      LongestIsLiteral(lex, u, w, n - 1);
    }
  }

  // ----- soundness: what is accepted is derivable -----

  /** s begins with a spelling of d and goes on with rest; d stands for the tree e. */
  ghost predicate Spelled(lex: Strtod, s: string, d: Derivation, g: seq<string>, e: Tree, rest: string) {
    && Gaps(g, |Yield(d)|) && s == Render(g, Yield(d)) + rest
    && Erase(d) == e && InRange(lex, e)
  }

  lemma PrependToken(b: string, t: Token, g: seq<string>, ts: seq<Token>)
    requires Blank(b) && Gaps(g, |ts|)
    ensures Gaps([b] + g, |[t] + ts|)
    ensures Render([b] + g, [t] + ts) == b + (Spelling(t) + Render(g, ts))
  {
    assert ([t] + ts)[1..] == ts && ([b] + g)[1..] == g;
  }

  /** The gaps of a spelling followed by one more token, or by blanks only. */
  lemma AppendRender(g: seq<string>, ts: seq<Token>, h: seq<string>, us: seq<Token>)
    requires Gaps(g, |ts|) && Gaps(h, |us|)
    ensures Gaps(Join(g, h), |ts + us|)
    ensures Render(Join(g, h), ts + us) == Render(g, ts) + Render(h, us)
  {
    JoinKeepsGaps(g, |ts|, h, |us|);
    RenderJoin(g, ts, h, us);
  }

  lemma Assoc(a: string, b: string, c: string)
    ensures (a + b) + c == a + (b + c)
  {}

  /** A token in front of a spelling: the text and the gaps. */
  lemma PrependSpelling(b: string, t: Token, u: string, g: seq<string>, ts: seq<Token>, rest: string)
    requires Blank(b) && Gaps(g, |ts|) && u == Spelling(t) + (Render(g, ts) + rest)
    ensures Gaps([b] + g, |[t] + ts|)
    ensures b + u == Render([b] + g, [t] + ts) + rest
  {
    PrependToken(b, t, g, ts);
    Assoc(Spelling(t), Render(g, ts), rest);
    Assoc(b, Spelling(t) + Render(g, ts), rest);
  }

  /** A spelling behind a spelling: the text and the gaps. */
  lemma AppendSpelling(g: seq<string>, ts: seq<Token>, h: seq<string>, us: seq<Token>, s: string, rest: string)
    requires Gaps(g, |ts|) && Gaps(h, |us|) && s == Render(h, us) + rest
    ensures Gaps(Join(g, h), |ts + us|)
    ensures Render(g, ts) + s == Render(Join(g, h), ts + us) + rest
  {
    AppendRender(g, ts, h, us);
    Assoc(Render(g, ts), Render(h, us), rest);
  }

  lemma RenderOne(b: string, t: Token)
    ensures Render([b, ""], [t]) == b + Spelling(t)
  {
    assert Spelling(t) + "" == Spelling(t);
  }

  lemma {:induction false} FactorSound(lex: Strtod, s: string) returns (d: Derivation, g: seq<string>)
    requires Factor(Trees(), lex, s).Parsed?
    ensures var o := Factor(Trees(), lex, s); IsFactor(lex, d) && Spelled(lex, s, d, g, o.value, o.rest)
    decreases |s|, 0
  {
    var u := SkipSpaces(s);
    var b := SkipSplits(s);
    if Head(u) == '(' {
      var inner := Expression(Trees(), lex, u[1..]);
      d, g := ExpressionSound(lex, u[1..]);
      d, g := ParenSpelled(lex, b, u, d, g, inner.rest);
    } else if Head(u) == '-' {
      var arg := Factor(Trees(), lex, u[1..]);
      d, g := FactorSound(lex, u[1..]);
      d, g := NegatedSpelled(lex, b, u, d, g, arg.rest);
    } else {
      d, g := NumberSound(lex, s, b, u);
    }
  }

  lemma NumberSound(lex: Strtod, s: string, b: string, u: string) returns (d: Derivation, g: seq<string>)
    requires Blank(b) && s == b + u && u == SkipSpaces(s) && Head(u) != '(' && Head(u) != '-'
    requires Factor(Trees(), lex, s).Parsed?
    ensures var o := Factor(Trees(), lex, s); IsFactor(lex, d) && Spelled(lex, s, d, g, o.value, o.rest)
  {
    var n := LongestMatch(lex.numeral, u, |u|);
    LongestIsNumeral(lex.numeral, u, |u|);
    d, g := Literal(u[..n]), [b, ""];
    NumberSpelled(b, u, n);
  }

  lemma NumberSpelled(b: string, u: string, n: nat)
    requires n <= |u|
    ensures b + u == Render([b, ""], [Number(u[..n])]) + u[n..]
  {
    RenderOne(b, Number(u[..n]));
    Assoc(b, u[..n], u[n..]);
    assert u == u[..n] + u[n..];
  }

  lemma NegatedSpelled(lex: Strtod, b: string, u: string, a: Derivation, h: seq<string>, w: string)
    returns (d: Derivation, g: seq<string>)
    requires Blank(b) && Head(u) == '-' && Spelled(lex, u[1..], a, h, Erase(a), w)
    ensures d == Negated(a) && Spelled(lex, b + u, d, g, Neg(Erase(a)), w)
  {
    assert u == "-" + u[1..];
    PrependSpelling(b, Minus, u, h, Yield(a), w);
    d, g := Negated(a), [b] + h;
  }

  lemma CloseText(c: string, rest: string)
    requires Blank(c)
    ensures Gaps([c, ""], 1) && c + (")" + rest) == Render([c, ""], [Close]) + rest
  {
    RenderOne(c, Close);
    Assoc(c, ")", rest);
  }

  lemma CloseSpelled(h: seq<string>, ts: seq<Token>, c: string, rest: string)
    requires Gaps(h, |ts|) && Blank(c)
    ensures Gaps(Join(h, [c, ""]), |ts + [Close]|)
    ensures Render(h, ts) + (c + (")" + rest)) == Render(Join(h, [c, ""]), ts + [Close]) + rest
  {
    CloseText(c, rest);
    AppendSpelling(h, ts, [c, ""], [Close], c + (")" + rest), rest);
  }

  lemma ParenSpelled(lex: Strtod, b: string, u: string, e: Derivation, h: seq<string>, w: string)
    returns (d: Derivation, g: seq<string>)
    requires Blank(b) && Head(u) == '(' && Head(SkipSpaces(w)) == ')'
    requires Spelled(lex, u[1..], e, h, Erase(e), w)
    ensures d == Paren(e) && Spelled(lex, b + u, d, g, Erase(e), SkipSpaces(w)[1..])
  {
    var c := SkipSplits(w);
    var rest := SkipSpaces(w)[1..];
    assert SkipSpaces(w) == ")" + rest && u == "(" + u[1..];
    CloseSpelled(h, Yield(e), c, rest);
    g := Join(h, [c, ""]);
    PrependSpelling(b, Open, u, g, Yield(e) + [Close], rest);
    d, g := Paren(e), [b] + g;
  }

  lemma TermSound(lex: Strtod, s: string) returns (d: Derivation, g: seq<string>)
    requires Term(Trees(), lex, s).Parsed?
    ensures var o := Term(Trees(), lex, s); IsTerm(lex, d) && Spelled(lex, s, d, g, o.value, o.rest)
    decreases |s|, 2
  {
    var o := Factor(Trees(), lex, s);
    d, g := FactorSound(lex, s);
    d, g := TermLoopSound(lex, d, g, o.rest);
  }

  /** One round of either loop: after the spelling of d come blanks, an operator and an operand. */
  lemma OperandExtends(lex: Strtod, d: Derivation, g: seq<string>, s: string, op: Op, d1: Derivation, g1: seq<string>, w: string)
    returns (h: seq<string>)
    requires Gaps(g, |Yield(d)|) && InRange(lex, Erase(d))
    requires Head(SkipSpaces(s)) == OpSymbol(op)
    requires Spelled(lex, SkipSpaces(s)[1..], d1, g1, Erase(d1), w)
    ensures Spelled(lex, Render(g, Yield(d)) + s, Binary(op, d, d1), h, Bin(op, Erase(d), Erase(d1)), w)
  {
    var b := SkipSplits(s);
    var u := SkipSpaces(s);
    assert u == [OpSymbol(op)] + u[1..];
    PrependSpelling(b, Infix(op), u, g1, Yield(d1), w);
    AppendSpelling(g, Yield(d), [b] + g1, [Infix(op)] + Yield(d1), s, w);
    h := Join(g, [b] + g1);
  }

  lemma BlanksExtend(lex: Strtod, d: Derivation, g: seq<string>, s: string) returns (h: seq<string>)
    requires Gaps(g, |Yield(d)|) && InRange(lex, Erase(d))
    ensures Spelled(lex, Render(g, Yield(d)) + s, d, h, Erase(d), SkipSpaces(s))
  {
    var b := SkipSplits(s);
    AppendSpelling(g, Yield(d), [b], [], s, SkipSpaces(s));
    assert Yield(d) + [] == Yield(d);
    h := Join(g, [b]);
  }

  lemma {:induction false} TermLoopSound(lex: Strtod, d0: Derivation, g0: seq<string>, s: string)
    returns (d: Derivation, g: seq<string>)
    requires IsTerm(lex, d0) && InRange(lex, Erase(d0)) && Gaps(g0, |Yield(d0)|)
    requires TermLoop(Trees(), lex, Erase(d0), s).Parsed?
    ensures var o := TermLoop(Trees(), lex, Erase(d0), s);
            IsTerm(lex, d) && Spelled(lex, Render(g0, Yield(d0)) + s, d, g, o.value, o.rest)
    decreases |s|, 1
  {
    var u := SkipSpaces(s);
    if Head(u) != '*' && Head(u) != '/' {
      d := d0;
      g := BlanksExtend(lex, d0, g0, s);
    } else {
      var op := TermOp(Head(u));
      var o1 := Factor(Trees(), lex, u[1..]);
      var d1, g1 := FactorSound(lex, u[1..]);
      var h := OperandExtends(lex, d0, g0, s, op, d1, g1, o1.rest);
      d, g := TermLoopSound(lex, Binary(op, d0, d1), h, o1.rest);
    }
  }

  lemma ExpressionSound(lex: Strtod, s: string) returns (d: Derivation, g: seq<string>)
    requires Expression(Trees(), lex, s).Parsed?
    ensures var o := Expression(Trees(), lex, s); IsExpression(lex, d) && Spelled(lex, s, d, g, o.value, o.rest)
    decreases |s|, 4
  {
    var o := Term(Trees(), lex, s);
    d, g := TermSound(lex, s);
    d, g := SumLoopSound(lex, d, g, o.rest);
  }

  lemma {:induction false} SumLoopSound(lex: Strtod, d0: Derivation, g0: seq<string>, s: string)
    returns (d: Derivation, g: seq<string>)
    requires IsExpression(lex, d0) && InRange(lex, Erase(d0)) && Gaps(g0, |Yield(d0)|)
    requires SumLoop(Trees(), lex, Erase(d0), s).Parsed?
    ensures var o := SumLoop(Trees(), lex, Erase(d0), s);
            IsExpression(lex, d) && Spelled(lex, Render(g0, Yield(d0)) + s, d, g, o.value, o.rest)
    decreases |s|, 3
  {
    var u := SkipSpaces(s);
    if Head(u) != '+' && Head(u) != '-' {
      d := d0;
      g := BlanksExtend(lex, d0, g0, s);
    } else {
      var op := SumOp(Head(u));
      var o1 := Term(Trees(), lex, u[1..]);
      var d1, g1 := TermSound(lex, u[1..]);
      var h := OperandExtends(lex, d0, g0, s, op, d1, g1, o1.rest);
      d, g := SumLoopSound(lex, Binary(op, d0, d1), h, o1.rest);
    }
  }

  // ----- completeness: what is derivable is accepted -----

  function Last(g: seq<string>): string
    requires g != []
  {
    g[|g| - 1]
  }

  /** The text of a binary derivation: the left operand, the operator, the right operand. */
  lemma BinarySpelling(d: Derivation, g: seq<string>, rest: string)
    requires d.Binary? && Gaps(g, |Yield(d)|)
    ensures var n := |Yield(d.left)|;
            && Gaps(g[..n + 1], n) && Gaps(g[n + 1..], |Yield(d.right)|) && Last(g[n + 1..]) == Last(g)
            && Render(g, Yield(d)) + rest
               == Render(g[..n + 1], Yield(d.left)) + ([OpSymbol(d.op)] + (Render(g[n + 1..], Yield(d.right)) + rest))
  {
    var n := |Yield(d.left)|;
    var k := g[n + 1..];
    var sym := [OpSymbol(d.op)];
    RenderSplit(g, Yield(d.left), [Infix(d.op)] + Yield(d.right));
    PrependToken("", Infix(d.op), k, Yield(d.right));
    assert "" + (sym + Render(k, Yield(d.right))) == sym + Render(k, Yield(d.right));
    Assoc(Render(g[..n + 1], Yield(d.left)), sym + Render(k, Yield(d.right)), rest);
    Assoc(sym, Render(k, Yield(d.right)), rest);
  }

  lemma PrefixSpelling(t: Token, g: seq<string>, ts: seq<Token>, rest: string)
    requires Gaps(g, |[t] + ts|) && Spelling(t) != "" && !IsSpace(Spelling(t)[0])
    ensures Gaps(g[1..], |ts|) && Last(g[1..]) == Last(g)
    ensures SkipSpaces(Render(g, [t] + ts) + rest) == Spelling(t) + (Render(g[1..], ts) + rest)
  {
    PrependToken(g[0], t, g[1..], ts);
    assert g == [g[0]] + g[1..];
    Assoc(g[0], Spelling(t) + Render(g[1..], ts), rest);
    Assoc(Spelling(t), Render(g[1..], ts), rest);
    SkipOverBlank(g[0], Spelling(t) + (Render(g[1..], ts) + rest));
  }

  lemma LiteralComplete(lex: Strtod, u: string, g: seq<string>, rest: string)
    requires NumeralLanguage(lex) && IsLiteral(lex, u) && !lex.outOfRange(u)
    requires Gaps(g, 1) && Ends(Last(g) + rest)
    ensures Factor(Trees(), lex, Render(g, [Number(u)]) + rest) == Parsed(Num(u), Last(g) + rest)
  {
    var w := Last(g) + rest;
    assert [Number(u)] + [] == [Number(u)];
    PrefixSpelling(Number(u), g, [], rest);
    LongestIsLiteral(lex, u, w, |u + w|);
    assert (u + w)[..|u|] == u && (u + w)[|u|..] == w;
  }

  lemma ParenSpelling(e: Derivation, g: seq<string>, rest: string)
    requires Gaps(g, |Yield(Paren(e))|)
    ensures var n := |Yield(e)|;
            && Gaps(g[1..n + 2], n)
            && SkipSpaces(Render(g, Yield(Paren(e))) + rest)
               == "(" + (Render(g[1..n + 2], Yield(e)) + (")" + (Last(g) + rest)))
  {
    var n := |Yield(e)|;
    PrefixSpelling(Open, g, Yield(e) + [Close], rest);
    var h := g[1..];
    RenderSplit(h, Yield(e), [Close]);
    assert h[..n + 1] == g[1..n + 2];
    assert [""] + h[n + 1..] == ["", Last(g)];
    assert Render(["", Last(g)], [Close]) == ")" + Last(g);
    Assoc(Render(h[..n + 1], Yield(e)), ")" + Last(g), rest);
    Assoc(")", Last(g), rest);
  }

  lemma ParenComplete(lex: Strtod, e: Derivation, g: seq<string>, rest: string)
    requires NumeralLanguage(lex) && IsExpression(lex, e) && InRange(lex, Erase(e))
    requires Gaps(g, |Yield(Paren(e))|)
    ensures Factor(Trees(), lex, Render(g, Yield(Paren(e))) + rest) == Parsed(Erase(e), Last(g) + rest)
    decreases e, 6
  {
    var f := g[1..|Yield(e)| + 2];
    var w := ")" + (Last(g) + rest);
    ParenSpelling(e, g, rest);
    BlankThen(Last(f), w);
    ExpressionComplete(lex, e, f, w);
    ParenCloses(lex, Render(g, Yield(Paren(e))) + rest, Render(f, Yield(e)) + w, Erase(e), Last(g) + rest);
  }

  lemma ParenCloses(lex: Strtod, s: string, inner: string, e: Tree, rest: string)
    requires SkipSpaces(s) == "(" + inner && Expression(Trees(), lex, inner) == Parsed(e, ")" + rest)
    ensures Factor(Trees(), lex, s) == Parsed(e, rest)
  {
    assert ("(" + inner)[1..] == inner && (")" + rest)[1..] == rest;
  }

  lemma BlankThen(b: string, w: string)
    requires Blank(b) && w != "" && Delimiter(w[0]) && !IsSpace(w[0])
    ensures Ends(b + w) && SkipSpaces(b + w) == w
  {
    SkipOverBlank(b, w);
  }

  lemma {:induction false} FactorComplete(lex: Strtod, d: Derivation, g: seq<string>, rest: string)
    requires NumeralLanguage(lex) && IsFactor(lex, d) && InRange(lex, Erase(d))
    requires Gaps(g, |Yield(d)|) && Ends(Last(g) + rest)
    ensures Factor(Trees(), lex, Render(g, Yield(d)) + rest) == Parsed(Erase(d), Last(g) + rest)
    decreases d, 0
  {
    match d
    case Literal(u) => LiteralComplete(lex, u, g, rest);
    case Paren(e) => ParenComplete(lex, e, g, rest);
    case Negated(a) =>
      PrefixSpelling(Minus, g, Yield(a), rest);
      FactorComplete(lex, a, g[1..], rest);
  }

  /** One round of the term loop over blanks, an operator and a factor. */
  lemma TermLoopStep(lex: Strtod, e: Tree, b: string, op: Op, s: string, v: Tree, w: string)
    requires Blank(b) && Multiplicative(op) && Factor(Trees(), lex, s) == Parsed(v, w)
    ensures TermLoop(Trees(), lex, e, b + ([OpSymbol(op)] + s)) == TermLoop(Trees(), lex, Bin(op, e, v), w)
  {
    BlankThen(b, [OpSymbol(op)] + s);
    assert ([OpSymbol(op)] + s)[1..] == s;
  }

  lemma SumLoopStep(lex: Strtod, e: Tree, b: string, op: Op, s: string, v: Tree, w: string)
    requires Blank(b) && !Multiplicative(op) && Term(Trees(), lex, s) == Parsed(v, w)
    ensures SumLoop(Trees(), lex, e, b + ([OpSymbol(op)] + s)) == SumLoop(Trees(), lex, Bin(op, e, v), w)
  {
    BlankThen(b, [OpSymbol(op)] + s);
    assert ([OpSymbol(op)] + s)[1..] == s;
  }

  /** The text of a binary derivation, cut into its parts. */
  lemma BinarySplit(d: Derivation, g: seq<string>, rest: string) returns (f: seq<string>, k: seq<string>, s: string)
    requires d.Binary? && Gaps(g, |Yield(d)|)
    ensures Gaps(f, |Yield(d.left)|) && Gaps(k, |Yield(d.right)|) && Last(k) == Last(g)
    ensures s == Render(k, Yield(d.right)) + rest
    ensures Render(g, Yield(d)) + rest == Render(f, Yield(d.left)) + ([OpSymbol(d.op)] + s)
    ensures Blank(Last(f)) && Ends(Last(f) + ([OpSymbol(d.op)] + s))
    ensures SkipSpaces(Last(f) + ([OpSymbol(d.op)] + s)) == [OpSymbol(d.op)] + s
  {
    f, k := g[..|Yield(d.left)| + 1], g[|Yield(d.left)| + 1..];
    s := Render(k, Yield(d.right)) + rest;
    BinarySpelling(d, g, rest);
    BlankThen(Last(f), [OpSymbol(d.op)] + s);
  }

  lemma {:induction false} TermComplete(lex: Strtod, d: Derivation, g: seq<string>, rest: string)
    requires NumeralLanguage(lex) && IsTerm(lex, d) && InRange(lex, Erase(d))
    requires Gaps(g, |Yield(d)|) && Ends(Last(g) + rest)
    ensures Term(Trees(), lex, Render(g, Yield(d)) + rest) == TermLoop(Trees(), lex, Erase(d), Last(g) + rest)
    decreases d, 1
  {
    if IsFactor(lex, d) {
      FactorComplete(lex, d, g, rest);
    } else {
      var f, k, s := BinarySplit(d, g, rest);
      TermComplete(lex, d.left, f, [OpSymbol(d.op)] + s);
      FactorComplete(lex, d.right, k, rest);
      TermLoopStep(lex, Erase(d.left), Last(f), d.op, s, Erase(d.right), Last(g) + rest);
    }
  }

  /** No factor follows: white space aside, the text does not go on with * or /. */
  predicate EndsTerm(w: string) {
    Ends(w) && Head(SkipSpaces(w)) != '*' && Head(SkipSpaces(w)) != '/'
  }

  lemma WholeTerm(lex: Strtod, d: Derivation, g: seq<string>, rest: string)
    requires NumeralLanguage(lex) && IsTerm(lex, d) && InRange(lex, Erase(d))
    requires Gaps(g, |Yield(d)|) && EndsTerm(Last(g) + rest)
    ensures Term(Trees(), lex, Render(g, Yield(d)) + rest) == Parsed(Erase(d), SkipSpaces(Last(g) + rest))
    decreases d, 2
  {
    TermComplete(lex, d, g, rest);
  }

  lemma SumLoopSkips(lex: Strtod, e: Tree, s: string)
    ensures SumLoop(Trees(), lex, e, SkipSpaces(s)) == SumLoop(Trees(), lex, e, s)
  {}

  lemma {:induction false} ExpressionComplete(lex: Strtod, d: Derivation, g: seq<string>, rest: string)
    requires NumeralLanguage(lex) && IsExpression(lex, d) && InRange(lex, Erase(d))
    requires Gaps(g, |Yield(d)|) && EndsTerm(Last(g) + rest)
    ensures Expression(Trees(), lex, Render(g, Yield(d)) + rest) == SumLoop(Trees(), lex, Erase(d), Last(g) + rest)
    decreases d, 4
  {
    SumLoopSkips(lex, Erase(d), Last(g) + rest);
    if IsTerm(lex, d) {
      WholeTerm(lex, d, g, rest);
    } else {
      SumComplete(lex, d, g, rest);
    }
  }

  lemma SumComplete(lex: Strtod, d: Derivation, g: seq<string>, rest: string)
    requires NumeralLanguage(lex) && InRange(lex, Erase(d)) && d.Binary? && !Multiplicative(d.op)
    requires IsExpression(lex, d.left) && IsTerm(lex, d.right)
    requires Gaps(g, |Yield(d)|) && EndsTerm(Last(g) + rest)
    ensures Expression(Trees(), lex, Render(g, Yield(d)) + rest)
            == SumLoop(Trees(), lex, Erase(d), SkipSpaces(Last(g) + rest))
    decreases d, 3
  {
    var f, k, s := BinarySplit(d, g, rest);
    ExpressionComplete(lex, d.left, f, [OpSymbol(d.op)] + s);
    WholeTerm(lex, d.right, k, rest);
    SumLoopStep(lex, Erase(d.left), Last(f), d.op, s, Erase(d.right), SkipSpaces(Last(g) + rest));
  }

  // ----- the language of the evaluator -----

  ghost predicate Accepts(lex: Strtod, text: string, e: Tree) {
    var o := Evaluate(Trees(), lex, text);
    o.Parsed? && o.value == e
  }

  lemma {:induction false} RenderHasNoNul(g: seq<string>, ts: seq<Token>)
    requires Gaps(g, |ts|) && forall t | t in ts :: '\0' !in Spelling(t)
    ensures '\0' !in Render(g, ts)
    decreases |ts|
  {
    assert '\0' !in g[0];
    if ts != [] {
      RenderHasNoNul(g[1..], ts[1..]);
      assert ts[0] in ts;
    }
  }

  lemma {:induction false} YieldHasNoNul(lex: Strtod, level: Level, d: Derivation)
    requires NumeralLanguage(lex) && Derives(lex, level, d)
    ensures forall t | t in Yield(d) :: '\0' !in Spelling(t)
    decreases d
  {
    match d
    case Literal(_) =>
    case Negated(a) => YieldHasNoNul(lex, FactorLevel, a);
    case Paren(e) => YieldHasNoNul(lex, SumLevel, e);
    case Binary(op, l, r) =>
      YieldHasNoNul(lex, if Multiplicative(op) then TermLevel else SumLevel, l);
      YieldHasNoNul(lex, if Multiplicative(op) then FactorLevel else TermLevel, r);
  }

  lemma {:induction false} BeforeNulOfAppend(s: string, rest: string)
    requires '\0' !in s && Head(rest) == '\0'
    ensures BeforeNul(s + rest) == s
  {
    if s == "" {
      assert s + rest == rest;
    } else {
      assert (s + rest)[1..] == s[1..] + rest;
      BeforeNulOfAppend(s[1..], rest);
    }
  }

  lemma AcceptedIsDerivable(lex: Strtod, text: string, e: Tree)
    requires NumeralLanguage(lex) && Accepts(lex, text, e)
    ensures Derivable(lex, text, e)
  {
    var o := Expression(Trees(), lex, text);
    var d, g := ExpressionSound(lex, text);
    g := BlanksExtend(lex, d, g, o.rest);
    YieldHasNoNul(lex, SumLevel, d);
    RenderHasNoNul(g, Yield(d));
    BeforeNulOfAppend(Render(g, Yield(d)), SkipSpaces(o.rest));
  }

  lemma SpelledIsAccepted(lex: Strtod, d: Derivation, g: seq<string>, rest: string)
    requires NumeralLanguage(lex) && IsExpression(lex, d) && InRange(lex, Erase(d)) && Gaps(g, |Yield(d)|)
    requires Head(rest) == '\0'
    ensures Evaluate(Trees(), lex, Render(g, Yield(d)) + rest) == Parsed(Erase(d), rest)
  {
    SkipOverBlank(Last(g), rest);
    ExpressionComplete(lex, d, g, rest);
  }

  lemma DerivableIsAccepted(lex: Strtod, text: string, e: Tree)
    requires NumeralLanguage(lex) && Derivable(lex, text, e)
    ensures Accepts(lex, text, e)
  {
    var d, g :|
      && IsExpression(lex, d) && Erase(d) == e && InRange(lex, e)
      && Gaps(g, |Yield(d)|) && BeforeNul(text) == Render(g, Yield(d));
    var rest := text[|BeforeNul(text)|..];
    assert text == BeforeNul(text) + rest;
    SpelledIsAccepted(lex, d, g, rest);
  }

  /** The evaluator succeeds with the tree e exactly when the text before the first NUL is a
      spelling of a derivation of e with every numeral in range. */
  lemma EvaluateIsExact(lex: Strtod, text: string, e: Tree)
    requires NumeralLanguage(lex)
    ensures Accepts(lex, text, e) <==> Derivable(lex, text, e)
  {
    if Accepts(lex, text, e) {
      AcceptedIsDerivable(lex, text, e);
    }
    if Derivable(lex, text, e) {
      DerivableIsAccepted(lex, text, e);
    }
  }

  /** The server's `evaluate`: it returns exactly on derivable texts, with the fold of the tree. */
  method EvaluateText<V>(alg: Algebra<V>, lex: Strtod, text: string) returns (status: Status<V>)
    requires NumeralLanguage(lex)
    ensures status.Value? <==> exists e :: Derivable(lex, text, e)
    ensures forall e :: Derivable(lex, text, e) ==> status == Value(Fold(alg, e))
  {
    var evaluator := new Evaluator(alg, lex, text);
    status := evaluator.Run();
    EvaluateFuses(alg, lex, text);
    forall e ensures Accepts(lex, text, e) <==> Derivable(lex, text, e) {
      EvaluateIsExact(lex, text, e);
    }
    ghost var o := Evaluate(Trees(), lex, text);
    assert o.Parsed? ==> Accepts(lex, text, o.value);
  }

  /** Two derivations with the same spelling stand for the same tree. */
  lemma GrammarIsUnambiguous(lex: Strtod, d: Derivation, g: seq<string>, d': Derivation, g': seq<string>)
    requires NumeralLanguage(lex) && IsExpression(lex, d) && IsExpression(lex, d')
    requires Gaps(g, |Yield(d)|) && Gaps(g', |Yield(d')|) && Render(g, Yield(d)) == Render(g', Yield(d'))
    ensures Erase(d) == Erase(d')
  {
    var all := Strtod(lex.numeral, _ => false);
    RangeDoesNotMatter(lex, all, SumLevel, d);
    RangeDoesNotMatter(lex, all, SumLevel, d');
    SpelledIsAccepted(all, d, g, "");
    SpelledIsAccepted(all, d', g', "");
  }

  lemma {:induction false} RangeDoesNotMatter(lex: Strtod, all: Strtod, level: Level, d: Derivation)
    requires lex.numeral == all.numeral && forall u :: !all.outOfRange(u)
    ensures Derives(lex, level, d) ==> Derives(all, level, d)
    ensures InRange(all, Erase(d))
    decreases d
  {
    match d
    case Literal(_) =>
    case Negated(a) => RangeDoesNotMatter(lex, all, FactorLevel, a);
    case Paren(e) => RangeDoesNotMatter(lex, all, SumLevel, e);
    case Binary(op, l, r) =>
      RangeDoesNotMatter(lex, all, if Multiplicative(op) then TermLevel else SumLevel, l);
      RangeDoesNotMatter(lex, all, if Multiplicative(op) then FactorLevel else TermLevel, r);
  }

  // ----- white space -----

  /** The characters `skip_spaces` passes over: tab, line feed, vertical tab, form feed, carriage
      return and blank. */
  lemma WhiteSpaceIsExact(ch: char, s: string)
    ensures |SkipSpaces([ch] + s)| <= |s| <==> ch as int in {9, 10, 11, 12, 13, 32}
    ensures IsSpace(ch) <==> ch as int in {9, 10, 11, 12, 13, 32}
  {
    assert ([ch] + s)[1..] == s;
  }

  lemma SpelledHasNoNul(lex: Strtod, d: Derivation, g: seq<string>)
    requires NumeralLanguage(lex) && IsExpression(lex, d) && Gaps(g, |Yield(d)|)
    ensures BeforeNul(Render(g, Yield(d))) == Render(g, Yield(d))
  {
    YieldHasNoNul(lex, SumLevel, d);
    RenderHasNoNul(g, Yield(d));
  }

  lemma DerivableTreeIsUnique(lex: Strtod, d: Derivation, g: seq<string>, text: string, e: Tree)
    requires NumeralLanguage(lex) && IsExpression(lex, d) && Gaps(g, |Yield(d)|)
    requires BeforeNul(text) == Render(g, Yield(d)) && Derivable(lex, text, e)
    ensures e == Erase(d) && InRange(lex, e)
  {
    var d', g' :|
      && IsExpression(lex, d') && Erase(d') == e && InRange(lex, e)
      && Gaps(g', |Yield(d')|) && BeforeNul(text) == Render(g', Yield(d'));
    GrammarIsUnambiguous(lex, d, g, d', g');
  }

  /** A well-formed text with a numeral out of range is refused. */
  lemma OutOfRangeDies(lex: Strtod, d: Derivation, g: seq<string>)
    requires NumeralLanguage(lex) && IsExpression(lex, d) && Gaps(g, |Yield(d)|) && !InRange(lex, Erase(d))
    ensures Evaluate(Trees(), lex, Render(g, Yield(d))).Died?
  {
    var text := Render(g, Yield(d));
    var o := Evaluate(Trees(), lex, text);
    if o.Parsed? {
      SpelledHasNoNul(lex, d, g);
      EvaluateIsExact(lex, text, o.value);
      DerivableTreeIsUnique(lex, d, g, text, o.value);
    }
  }

  lemma SpacedOutcome<V>(alg: Algebra<V>, lex: Strtod, d: Derivation, g: seq<string>)
    requires NumeralLanguage(lex) && IsExpression(lex, d) && Gaps(g, |Yield(d)|)
    ensures Evaluate(alg, lex, Render(g, Yield(d)))
            == if InRange(lex, Erase(d)) then Parsed(Fold(alg, Erase(d)), "") else Died
  {
    var text := Render(g, Yield(d));
    if InRange(lex, Erase(d)) {
      SpelledIsAccepted(lex, d, g, "");
      assert text + "" == text;
    } else {
      OutOfRangeDies(lex, d, g);
    }
    EvaluateFuses(alg, lex, text);
  }

  /** However white space is put before, between and after the tokens of an expression, the
      outcome is the same, in or out of range. */
  lemma SpacingDoesNotMatter<V>(alg: Algebra<V>, lex: Strtod, d: Derivation, g: seq<string>, h: seq<string>)
    requires NumeralLanguage(lex) && IsExpression(lex, d) && |g| == |h| == |Yield(d)| + 1
    requires forall i, j | 0 <= i < |g| && 0 <= j < |g[i]| :: g[i][j] as int in {9, 10, 11, 12, 13, 32}
    requires forall i, j | 0 <= i < |h| && 0 <= j < |h[i]| :: h[i][j] as int in {9, 10, 11, 12, 13, 32}
    ensures Evaluate(alg, lex, Render(g, Yield(d))) == Evaluate(alg, lex, Render(h, Yield(d)))
  {
    SpacedOutcome(alg, lex, d, g);
    SpacedOutcome(alg, lex, d, h);
  }

  // ----- expressions read as they are written -----

  /** The tokens with nothing between them. */
  function Tight(ts: seq<Token>): string {
    if ts == [] then "" else Spelling(ts[0]) + Tight(ts[1..])
  }

  lemma {:induction false} TightIsSpelling(ts: seq<Token>)
    ensures Tight(ts) == Render(seq(|ts| + 1, _ => ""), ts)
  {
    if ts != [] {
      TightIsSpelling(ts[1..]);
      assert seq(|ts| + 1, _ => "")[1..] == seq(|ts|, _ => "");
    }
  }

  lemma TightHead(t: Token, ts: seq<Token>)
    ensures Tight([t] + ts) == Spelling(t) + Tight(ts)
  {
    assert ([t] + ts)[1..] == ts;
  }

  lemma {:induction false} TightJoin(ts: seq<Token>, us: seq<Token>)
    ensures Tight(ts + us) == Tight(ts) + Tight(us)
  {
    if ts == [] {
      assert ts + us == us;
    } else {
      TightJoin(ts[1..], us);
      TightHead(ts[0], ts[1..] + us);
      assert [ts[0]] + (ts[1..] + us) == ts + us;
      Assoc(Spelling(ts[0]), Tight(ts[1..]), Tight(us));
    }
  }

  /** The text is the tight spelling of the derivation d, at that level, of a tree e in range. */
  ghost predicate Spells(lex: Strtod, level: Level, d: Derivation, text: string, e: Tree) {
    Derives(lex, level, d) && Erase(d) == e && InRange(lex, e) && Tight(Yield(d)) == text
  }

  lemma SpelledReads<V>(alg: Algebra<V>, lex: Strtod, d: Derivation, text: string, e: Tree)
    requires NumeralLanguage(lex) && Spells(lex, SumLevel, d, text, e)
    ensures Evaluate(alg, lex, text) == Parsed(Fold(alg, e), "")
  {
    TightIsSpelling(Yield(d));
    SpacedOutcome(alg, lex, d, seq(|Yield(d)| + 1, _ => ""));
  }

  ghost predicate Readable(lex: Strtod, u: string) {
    IsLiteral(lex, u) && !lex.outOfRange(u)
  }

  lemma LiteralSpells(lex: Strtod, level: Level, u: string)
    requires Readable(lex, u)
    ensures Spells(lex, level, Literal(u), u, Num(u))
  {
    assert Tight([Number(u)]) == u + Tight([]);
  }

  lemma NegatedSpells(lex: Strtod, a: Derivation, s: string, e: Tree)
    requires Spells(lex, FactorLevel, a, s, e)
    ensures Spells(lex, SumLevel, Negated(a), "-" + s, Neg(e))
  {
    TightJoin([Minus], Yield(a));
  }

  lemma ParenSpells(lex: Strtod, level: Level, d: Derivation, s: string, e: Tree)
    requires Spells(lex, SumLevel, d, s, e)
    ensures Spells(lex, level, Paren(d), "(" + s + ")", e)
  {
    TightJoin(Yield(d), [Close]);
    TightJoin([Open], Yield(d) + [Close]);
    assert "(" + (s + ")") == "(" + s + ")";
  }

  lemma TightBinary(op: Op, l: Derivation, r: Derivation)
    ensures Tight(Yield(Binary(op, l, r))) == Tight(Yield(l)) + [OpSymbol(op)] + Tight(Yield(r))
  {
    TightJoin([Infix(op)], Yield(r));
    TightJoin(Yield(l), [Infix(op)] + Yield(r));
    Assoc(Tight(Yield(l)), [OpSymbol(op)], Tight(Yield(r)));
  }

  lemma ProductSpells(lex: Strtod, op: Op, l: Derivation, s: string, e: Tree, r: Derivation, t: string, f: Tree)
    requires Multiplicative(op) && Spells(lex, TermLevel, l, s, e) && Spells(lex, FactorLevel, r, t, f)
    ensures Spells(lex, TermLevel, Binary(op, l, r), s + [OpSymbol(op)] + t, Bin(op, e, f))
    ensures Spells(lex, SumLevel, Binary(op, l, r), s + [OpSymbol(op)] + t, Bin(op, e, f))
  {
    TightBinary(op, l, r);
  }

  lemma SumSpells(lex: Strtod, op: Op, l: Derivation, s: string, e: Tree, r: Derivation, t: string, f: Tree)
    requires !Multiplicative(op) && Spells(lex, SumLevel, l, s, e) && Spells(lex, TermLevel, r, t, f)
    ensures Spells(lex, SumLevel, Binary(op, l, r), s + [OpSymbol(op)] + t, Bin(op, e, f))
  {
    TightBinary(op, l, r);
  }

  /** What the signs mean, for any two numerals. */
  lemma OperatorsReadAsWritten<V>(alg: Algebra<V>, lex: Strtod, u: string, v: string)
    requires NumeralLanguage(lex) && Readable(lex, u) && Readable(lex, v)
    ensures Evaluate(alg, lex, u + "+" + v) == Parsed(alg.bin(Add, alg.num(u), alg.num(v)), "")
    ensures Evaluate(alg, lex, u + "-" + v) == Parsed(alg.bin(Sub, alg.num(u), alg.num(v)), "")
    ensures Evaluate(alg, lex, u + "*" + v) == Parsed(alg.bin(Mul, alg.num(u), alg.num(v)), "")
    ensures Evaluate(alg, lex, u + "/" + v) == Parsed(alg.bin(Div, alg.num(u), alg.num(v)), "")
    ensures Evaluate(alg, lex, "-" + u) == Parsed(alg.neg(alg.num(u)), "")
    ensures Evaluate(alg, lex, "(" + u + ")") == Parsed(alg.num(u), "")
  {
    BinaryReadsAsWritten(alg, lex, Add, u, v);
    BinaryReadsAsWritten(alg, lex, Sub, u, v);
    BinaryReadsAsWritten(alg, lex, Mul, u, v);
    BinaryReadsAsWritten(alg, lex, Div, u, v);
    PrefixReadsAsWritten(alg, lex, u);
  }

  lemma BinaryReadsAsWritten<V>(alg: Algebra<V>, lex: Strtod, op: Op, u: string, v: string)
    requires NumeralLanguage(lex) && Readable(lex, u) && Readable(lex, v)
    ensures Evaluate(alg, lex, u + [OpSymbol(op)] + v) == Parsed(alg.bin(op, alg.num(u), alg.num(v)), "")
  {
    var l, r := Literal(u), Literal(v);
    if Multiplicative(op) {
      LiteralSpells(lex, TermLevel, u);
      LiteralSpells(lex, FactorLevel, v);
      ProductSpells(lex, op, l, u, Num(u), r, v, Num(v));
    } else {
      LiteralSpells(lex, SumLevel, u);
      LiteralSpells(lex, TermLevel, v);
      SumSpells(lex, op, l, u, Num(u), r, v, Num(v));
    }
    SpelledReads(alg, lex, Binary(op, l, r), u + [OpSymbol(op)] + v, Bin(op, Num(u), Num(v)));
  }

  lemma PrefixReadsAsWritten<V>(alg: Algebra<V>, lex: Strtod, u: string)
    requires NumeralLanguage(lex) && Readable(lex, u)
    ensures Evaluate(alg, lex, "-" + u) == Parsed(alg.neg(alg.num(u)), "")
    ensures Evaluate(alg, lex, "(" + u + ")") == Parsed(alg.num(u), "")
  {
    LiteralSpells(lex, FactorLevel, u);
    NegatedSpells(lex, Literal(u), u, Num(u));
    SpelledReads(alg, lex, Negated(Literal(u)), "-" + u, Neg(Num(u)));
    LiteralSpells(lex, SumLevel, u);
    ParenSpells(lex, SumLevel, Literal(u), u, Num(u));
    SpelledReads(alg, lex, Paren(Literal(u)), "(" + u + ")", Num(u));
  }

  /** How the operators bind, for any three numerals: * and / before + and -, otherwise from the
      left, and parentheses before both. */
  lemma OperatorsBindAsWritten<V>(alg: Algebra<V>, lex: Strtod, u: string, v: string, w: string)
    requires NumeralLanguage(lex) && Readable(lex, u) && Readable(lex, v) && Readable(lex, w)
    ensures Evaluate(alg, lex, (u + "-" + v) + "-" + w)
            == Parsed(alg.bin(Sub, alg.bin(Sub, alg.num(u), alg.num(v)), alg.num(w)), "")
    ensures Evaluate(alg, lex, (u + "/" + v) + "/" + w)
            == Parsed(alg.bin(Div, alg.bin(Div, alg.num(u), alg.num(v)), alg.num(w)), "")
    ensures Evaluate(alg, lex, u + "+" + (v + "*" + w))
            == Parsed(alg.bin(Add, alg.num(u), alg.bin(Mul, alg.num(v), alg.num(w))), "")
    ensures Evaluate(alg, lex, ("(" + (u + "+" + v) + ")") + "*" + w)
            == Parsed(alg.bin(Mul, alg.bin(Add, alg.num(u), alg.num(v)), alg.num(w)), "")
  {
    DifferenceBindsLeft(alg, lex, u, v, w);
    QuotientBindsLeft(alg, lex, u, v, w);
    ProductBindsFirst(alg, lex, u, v, w);
    ParenBindsFirst(alg, lex, u, v, w);
  }

  lemma DifferenceBindsLeft<V>(alg: Algebra<V>, lex: Strtod, u: string, v: string, w: string)
    requires NumeralLanguage(lex) && Readable(lex, u) && Readable(lex, v) && Readable(lex, w)
    ensures Evaluate(alg, lex, (u + "-" + v) + "-" + w)
            == Parsed(alg.bin(Sub, alg.bin(Sub, alg.num(u), alg.num(v)), alg.num(w)), "")
  {
    LiteralSpells(lex, SumLevel, u);
    LiteralSpells(lex, TermLevel, v);
    LiteralSpells(lex, TermLevel, w);
    var l, e := Binary(Sub, Literal(u), Literal(v)), Bin(Sub, Num(u), Num(v));
    SumSpells(lex, Sub, Literal(u), u, Num(u), Literal(v), v, Num(v));
    SumSpells(lex, Sub, l, u + "-" + v, e, Literal(w), w, Num(w));
    SpelledReads(alg, lex, Binary(Sub, l, Literal(w)), (u + "-" + v) + "-" + w, Bin(Sub, e, Num(w)));
    assert Fold(alg, e) == alg.bin(Sub, alg.num(u), alg.num(v));
  }

  lemma QuotientBindsLeft<V>(alg: Algebra<V>, lex: Strtod, u: string, v: string, w: string)
    requires NumeralLanguage(lex) && Readable(lex, u) && Readable(lex, v) && Readable(lex, w)
    ensures Evaluate(alg, lex, (u + "/" + v) + "/" + w)
            == Parsed(alg.bin(Div, alg.bin(Div, alg.num(u), alg.num(v)), alg.num(w)), "")
  {
    LiteralSpells(lex, TermLevel, u);
    LiteralSpells(lex, FactorLevel, v);
    LiteralSpells(lex, FactorLevel, w);
    var l, e := Binary(Div, Literal(u), Literal(v)), Bin(Div, Num(u), Num(v));
    ProductSpells(lex, Div, Literal(u), u, Num(u), Literal(v), v, Num(v));
    ProductSpells(lex, Div, l, u + "/" + v, e, Literal(w), w, Num(w));
    SpelledReads(alg, lex, Binary(Div, l, Literal(w)), (u + "/" + v) + "/" + w, Bin(Div, e, Num(w)));
    assert Fold(alg, e) == alg.bin(Div, alg.num(u), alg.num(v));
  }

  lemma ProductBindsFirst<V>(alg: Algebra<V>, lex: Strtod, u: string, v: string, w: string)
    requires NumeralLanguage(lex) && Readable(lex, u) && Readable(lex, v) && Readable(lex, w)
    ensures Evaluate(alg, lex, u + "+" + (v + "*" + w))
            == Parsed(alg.bin(Add, alg.num(u), alg.bin(Mul, alg.num(v), alg.num(w))), "")
  {
    LiteralSpells(lex, SumLevel, u);
    LiteralSpells(lex, TermLevel, v);
    LiteralSpells(lex, FactorLevel, w);
    var r, f := Binary(Mul, Literal(v), Literal(w)), Bin(Mul, Num(v), Num(w));
    ProductSpells(lex, Mul, Literal(v), v, Num(v), Literal(w), w, Num(w));
    SumSpells(lex, Add, Literal(u), u, Num(u), r, v + "*" + w, f);
    SpelledReads(alg, lex, Binary(Add, Literal(u), r), u + "+" + (v + "*" + w), Bin(Add, Num(u), f));
    assert Fold(alg, f) == alg.bin(Mul, alg.num(v), alg.num(w));
  }

  lemma ParenBindsFirst<V>(alg: Algebra<V>, lex: Strtod, u: string, v: string, w: string)
    requires NumeralLanguage(lex) && Readable(lex, u) && Readable(lex, v) && Readable(lex, w)
    ensures Evaluate(alg, lex, ("(" + (u + "+" + v) + ")") + "*" + w)
            == Parsed(alg.bin(Mul, alg.bin(Add, alg.num(u), alg.num(v)), alg.num(w)), "")
  {
    LiteralSpells(lex, SumLevel, u);
    LiteralSpells(lex, TermLevel, v);
    LiteralSpells(lex, FactorLevel, w);
    var l, e, s := Binary(Add, Literal(u), Literal(v)), Bin(Add, Num(u), Num(v)), u + "+" + v;
    SumSpells(lex, Add, Literal(u), u, Num(u), Literal(v), v, Num(v));
    ParenSpells(lex, TermLevel, l, s, e);
    ProductSpells(lex, Mul, Paren(l), "(" + s + ")", e, Literal(w), w, Num(w));
    SpelledReads(alg, lex, Binary(Mul, Paren(l), Literal(w)), ("(" + s + ")") + "*" + w, Bin(Mul, e, Num(w)));
    assert Fold(alg, e) == alg.bin(Add, alg.num(u), alg.num(v));
  }

  /** The comparison with newline after the last `skip_spaces` never decides the outcome. */
  lemma NewlineTestIsDead<V>(alg: Algebra<V>, lex: Strtod, input: string)
    ensures var o := Expression(alg, lex, input);
            o.Parsed? ==>
              Evaluate(alg, lex, input)
              == (if Head(SkipSpaces(o.rest)) == '\0' then Parsed(o.value, SkipSpaces(o.rest)) else Died)
  {}

  // ----- printing with the fewest parentheses -----

  /** The derivation of e at a level, with parentheses only where precedence or left
      associativity asks for them. */
  function Print(level: Level, e: Tree): Derivation
    decreases e
  {
    match e
    case Num(u) => Literal(u)
    case Neg(a) => Negated(Print(FactorLevel, a))
    case Bin(op, l, r) =>
      if Multiplicative(op) then
        var core := Binary(op, Print(TermLevel, l), Print(FactorLevel, r));
        if level == FactorLevel then Paren(core) else core
      else
        var core := Binary(op, Print(SumLevel, l), Print(TermLevel, r));
        if level == SumLevel then core else Paren(core)
  }

  predicate Lexable(lex: Strtod, e: Tree) {
    match e
    case Num(u) => IsLiteral(lex, u)
    case Neg(a) => Lexable(lex, a)
    case Bin(_, l, r) => Lexable(lex, l) && Lexable(lex, r)
  }

  lemma {:induction false} PrintDerives(lex: Strtod, level: Level, e: Tree)
    requires Lexable(lex, e)
    ensures Derives(lex, level, Print(level, e)) && Erase(Print(level, e)) == e
    decreases e
  {
    match e
    case Num(_) =>
    case Neg(a) => PrintDerives(lex, FactorLevel, a);
    case Bin(op, l, r) =>
      if Multiplicative(op) {
        PrintDerives(lex, TermLevel, l);
        PrintDerives(lex, FactorLevel, r);
      } else {
        PrintDerives(lex, SumLevel, l);
        PrintDerives(lex, TermLevel, r);
      }
  }

  /** No derivation of e at that level has fewer tokens. */
  lemma {:induction false} PrintIsShortest(lex: Strtod, level: Level, d: Derivation)
    requires Derives(lex, level, d)
    ensures |Yield(Print(level, Erase(d)))| <= |Yield(d)|
    decreases d
  {
    match d
    case Literal(_) =>
    case Negated(a) => PrintIsShortest(lex, FactorLevel, a);
    case Paren(e) => PrintIsShortest(lex, SumLevel, e);
    case Binary(op, l, r) =>
      if Multiplicative(op) {
        PrintIsShortest(lex, TermLevel, l);
        PrintIsShortest(lex, FactorLevel, r);
      } else {
        PrintIsShortest(lex, SumLevel, l);
        PrintIsShortest(lex, TermLevel, r);
      }
  }

  /** Printing a tree with the fewest parentheses and any white space, then evaluating, gives
      the tree back; in any algebra it gives the fold of the tree. */
  lemma RoundTrip<V>(alg: Algebra<V>, lex: Strtod, e: Tree, g: seq<string>)
    requires NumeralLanguage(lex) && Lexable(lex, e) && InRange(lex, e)
    requires Gaps(g, |Yield(Print(SumLevel, e))|)
    ensures var text := Render(g, Yield(Print(SumLevel, e)));
            && Evaluate(Trees(), lex, text) == Parsed(e, "")
            && Evaluate(alg, lex, text) == Parsed(Fold(alg, e), "")
  {
    var text := Render(g, Yield(Print(SumLevel, e)));
    PrintDerives(lex, SumLevel, e);
    SpelledIsAccepted(lex, Print(SumLevel, e), g, "");
    assert text + "" == text;
    EvaluateFuses(alg, lex, text);
  }

  // ----- unsigned decimal literals -----

  predicate IsDigit(ch: char) { '0' <= ch <= '9' }

  /** Digits with at most one point and at least one digit. */
  predicate Decimal(u: string) {
    && (forall i | 0 <= i < |u| :: IsDigit(u[i]) || u[i] == '.')
    && (forall i, j | 0 <= i < j < |u| :: !(u[i] == '.' && u[j] == '.'))
    && (exists i | 0 <= i < |u| :: IsDigit(u[i]))
  }

  /** Decimal literals meet every assumption made about `strtod`. */
  lemma DecimalsAreNumerals(outOfRange: string -> bool)
    ensures NumeralLanguage(Strtod(u => Decimal(u), outOfRange))
    ensures forall u :: Decimal(u) ==> IsLiteral(Strtod(u => Decimal(u), outOfRange), u)
    ensures forall u :: u != "" && (forall i | 0 <= i < |u| :: 48 <= u[i] as int <= 57) ==> Decimal(u)
  {
    forall u, v | Decimal(u + v) && v != "" ensures !Delimiter(v[0]) {
      assert (u + v)[|u|] == v[0];
    }
    forall u: string | u != "" && (forall i | 0 <= i < |u| :: 48 <= u[i] as int <= 57) ensures Decimal(u) {
      assert IsDigit(u[0]);
    }
  }
}
