/** The recursive-descent evaluator of Sockets/unix_calc_server.c, first as functions on the
    text that is left, then as the object with a moving cursor that the server runs. Values
    are taken from an arbitrary algebra, so one definition covers both building the tree and
    accumulating the result. */
module CalculatorParser {
  import opened CalculatorGrammar

  datatype Algebra<!V> = Algebra(num: string -> V, neg: V -> V, bin: (Op, V, V) -> V)

  /** `die` ends the process; otherwise a value and the text after the cursor. */
  datatype Outcome<+V> = Died | Parsed(value: V, rest: string)

  /** `*expr` at the start of s: NUL at the end of the text. */
  function Head(s: string): char {
    if s == "" then '\0' else s[0]
  }

  function SkipSpaces(s: string): (r: string)
    ensures |r| <= |s| && !IsSpace(Head(r))
  {
    if IsSpace(Head(s)) then SkipSpaces(s[1..]) else s
  }

  /** Length of the longest prefix of s, of at most n characters, that is a numeral; 0 for none. */
  function LongestMatch(numeral: string -> bool, s: string, n: nat): (r: nat)
    requires n <= |s|
    ensures r <= n
  {
    if n == 0 then 0 else if numeral(s[..n]) then n else LongestMatch(numeral, s, n - 1)
  }

  function TermOp(ch: char): (op: Op) {
    if ch == '*' then Mul else Div
  }

  function SumOp(ch: char): (op: Op) {
    if ch == '+' then Add else Sub
  }

  function Factor<V>(alg: Algebra<V>, lex: Strtod, s: string): (r: Outcome<V>)
    ensures r.Parsed? ==> |r.rest| < |s|
    decreases |s|, 0
  {
    var u := SkipSpaces(s);
    if Head(u) == '(' then
      match Expression(alg, lex, u[1..])
      case Died => Died
      case Parsed(v, w) =>
        var x := SkipSpaces(w);
        if Head(x) != ')' then Died else Parsed(v, x[1..])
    else if Head(u) == '-' then
      match Factor(alg, lex, u[1..])
      case Died => Died
      case Parsed(v, w) => Parsed(alg.neg(v), w)
    else
      var n := LongestMatch(lex.numeral, u, |u|);
      if n == 0 || lex.outOfRange(u[..n]) then Died else Parsed(alg.num(u[..n]), u[n..])
  }

  function Term<V>(alg: Algebra<V>, lex: Strtod, s: string): (r: Outcome<V>)
    ensures r.Parsed? ==> |r.rest| < |s|
    decreases |s|, 2
  {
    match Factor(alg, lex, s)
    case Died => Died
    case Parsed(v, w) => TermLoop(alg, lex, v, w)
  }

  function TermLoop<V>(alg: Algebra<V>, lex: Strtod, value: V, s: string): (r: Outcome<V>)
    ensures r.Parsed? ==> |r.rest| <= |s|
    decreases |s|, 1
  {
    var u := SkipSpaces(s);
    if Head(u) != '*' && Head(u) != '/' then Parsed(value, u) else
    match Factor(alg, lex, u[1..])
    case Died => Died
    case Parsed(v, w) => TermLoop(alg, lex, alg.bin(TermOp(Head(u)), value, v), w)
  }

  function Expression<V>(alg: Algebra<V>, lex: Strtod, s: string): (r: Outcome<V>)
    ensures r.Parsed? ==> |r.rest| < |s|
    decreases |s|, 4
  {
    match Term(alg, lex, s)
    case Died => Died
    case Parsed(v, w) => SumLoop(alg, lex, v, w)
  }

  function SumLoop<V>(alg: Algebra<V>, lex: Strtod, value: V, s: string): (r: Outcome<V>)
    ensures r.Parsed? ==> |r.rest| <= |s|
    decreases |s|, 3
  {
    var u := SkipSpaces(s);
    if Head(u) != '+' && Head(u) != '-' then Parsed(value, u) else
    match Term(alg, lex, u[1..])
    case Died => Died
    case Parsed(v, w) => SumLoop(alg, lex, alg.bin(SumOp(Head(u)), value, v), w)
  }

  function Evaluate<V>(alg: Algebra<V>, lex: Strtod, input: string): Outcome<V> {
    match Expression(alg, lex, input)
    case Died => Died
    case Parsed(v, w) =>
      var x := SkipSpaces(w);
      if Head(x) != '\0' && Head(x) != '\n' then Died else Parsed(v, x)
  }

  // ----- the evaluator with its cursor -----

  datatype Status<+V> = Dead | Value(value: V)

  class Evaluator<V> {
    const alg: Algebra<V>
    const lex: Strtod
    const text: string
    var cursor: nat

    constructor (alg: Algebra<V>, lex: Strtod, text: string)
      ensures this.alg == alg && this.lex == lex && this.text == text && cursor == 0
    {
      this.alg, this.lex, this.text, this.cursor := alg, lex, text, 0;
    }

    ghost predicate Valid()
      reads this
    {
      cursor <= |text|
    }

    ghost function Rest(): string
      requires Valid()
      reads this
    {
      text[cursor..]
    }

    /** The result and the cursor are those of an outcome. */
    ghost predicate Reports(status: Status<V>, outcome: Outcome<V>)
      reads this
    {
      match outcome
      case Died => status == Dead
      case Parsed(v, rest) => status == Value(v) && Valid() && Rest() == rest
    }

    function Peek(): (ch: char)
      requires Valid()
      reads this
      ensures ch == Head(Rest())
    {
      if cursor == |text| then '\0' else text[cursor]
    }

    method Advance()
      requires Valid() && Peek() != '\0'
      modifies this`cursor
      ensures Valid() && cursor == old(cursor) + 1 && Rest() == old(Rest())[1..]
    {
      cursor := cursor + 1;
    }

    method SkipBlanks()
      requires Valid()
      modifies this`cursor
      ensures Valid() && cursor >= old(cursor) && Rest() == SkipSpaces(old(Rest()))
      ensures forall i | old(cursor) <= i < cursor :: text[i] as int in {9, 10, 11, 12, 13, 32}
      ensures cursor < |text| ==> text[cursor] as int !in {9, 10, 11, 12, 13, 32}
    {
      while IsSpace(Peek())
        invariant Valid() && cursor >= old(cursor)
        invariant SkipSpaces(Rest()) == SkipSpaces(old(Rest()))
        invariant forall i | old(cursor) <= i < cursor :: text[i] as int in {9, 10, 11, 12, 13, 32}
        decreases |text| - cursor
      {
        Advance();
      }
    }

    method ParseNumber() returns (status: Status<V>)
      requires Valid() && !IsSpace(Peek()) && Peek() != '(' && Peek() != '-'
      modifies this`cursor
      ensures Reports(status, Factor(alg, lex, old(Rest())))
      ensures status.Value? ==> cursor > old(cursor)
    {
      var u := text[cursor..];
      var n := LongestMatch(lex.numeral, u, |u|);
      if n == 0 || lex.outOfRange(u[..n]) {
        return Dead;
      }
      cursor := cursor + n;
      assert Rest() == u[n..];
      return Value(alg.num(u[..n]));
    }

    method ParseFactor() returns (status: Status<V>)
      requires Valid()
      modifies this`cursor
      ensures Reports(status, Factor(alg, lex, old(Rest())))
      ensures status.Value? ==> cursor > old(cursor)
      decreases |text| - cursor, 0
    {
      SkipBlanks();
      if Peek() == '(' {
        Advance();
        status := ParseExpression();
        if status.Value? {
          SkipBlanks();
          if Peek() != ')' {
            return Dead;
          }
          Advance();
        }
      } else if Peek() == '-' {
        Advance();
        status := ParseFactor();
        if status.Value? {
          status := Value(alg.neg(status.value));
        }
      } else {
        FactorSkips(alg, lex, old(Rest()));
        status := ParseNumber();
      }
    }

    method ParseTerm() returns (status: Status<V>)
      requires Valid()
      modifies this`cursor
      ensures Reports(status, Term(alg, lex, old(Rest())))
      ensures status.Value? ==> cursor > old(cursor)
      decreases |text| - cursor, 2
    {
      status := ParseFactor();
      if status.Dead? {
        return;
      }
      while true
        invariant Valid() && cursor > old(cursor) && status.Value?
        invariant Term(alg, lex, old(Rest())) == TermLoop(alg, lex, status.value, Rest())
        decreases |text| - cursor
      {
        SkipBlanks();
        var op := Peek();
        if op != '*' && op != '/' {
          return;
        }
        Advance();
        var rhs := ParseFactor();
        if rhs.Dead? {
          return rhs;
        }
        status := Value(alg.bin(TermOp(op), status.value, rhs.value));
      }
    }

    method ParseExpression() returns (status: Status<V>)
      requires Valid()
      modifies this`cursor
      ensures Reports(status, Expression(alg, lex, old(Rest())))
      ensures status.Value? ==> cursor > old(cursor)
      decreases |text| - cursor, 4
    {
      status := ParseTerm();
      if status.Dead? {
        return;
      }
      while true
        invariant Valid() && cursor > old(cursor) && status.Value?
        invariant Expression(alg, lex, old(Rest())) == SumLoop(alg, lex, status.value, Rest())
        decreases |text| - cursor
      {
        SkipBlanks();
        var op := Peek();
        if op != '+' && op != '-' {
          return;
        }
        Advance();
        var rhs := ParseTerm();
        if rhs.Dead? {
          return rhs;
        }
        status := Value(alg.bin(SumOp(op), status.value, rhs.value));
      }
    }

    method Run() returns (status: Status<V>)
      modifies this`cursor
      ensures Reports(status, Evaluate(alg, lex, text))
    {
      cursor := 0;
      assert Rest() == text;
      status := ParseExpression();
      if status.Value? {
        SkipBlanks();
        if Peek() != '\0' && Peek() != '\n' {
          return Dead;
        }
      }
    }
  }

  lemma FactorSkips<V>(alg: Algebra<V>, lex: Strtod, s: string)
    ensures Factor(alg, lex, s) == Factor(alg, lex, SkipSpaces(s))
  {}
}
