/** What shunting_yard makes of an infix formula: the postorder of its tree,
    exactly when the operator stack never fills up before the last character. */
module CalcCompile {
  import opened CalcSyntax
  import opened ShuntingYard

  // ----- the operators left on the stack

  /** The operators of the right edge, root first: still on the stack when the
      last character of the formula has been read. */
  function Pending(e: Expr): string {
    if e.Bin? then [e.op] + Pending(e.r) else []
  }

  /** What has gone to the output by then. */
  function Written(e: Expr): string {
    match e
    case Atom(c) => [c]
    case Paren(x) => Postorder(x)
    case Bin(op, l, r) => Postorder(l) + Written(r)
  }

  function Reverse(s: string): string {
    if s == [] then [] else Reverse(s[1..]) + [s[0]]
  }

  lemma {:induction false} WrittenAndPending(e: Expr)
    ensures Postorder(e) == Written(e) + Reverse(Pending(e))
    decreases e
  {
    if e.Bin? {
      WrittenAndPending(e.r);
      assert Pending(e)[1..] == Pending(e.r);
      assert Postorder(e) == Postorder(e.l) + (Written(e.r) + Reverse(Pending(e.r))) + [e.op];
    } else {
      assert Reverse([]) == [];
      assert Written(e) + [] == Written(e);
    }
  }

  function Max(a: nat, b: nat): nat { if a < b then b else a }

  /** The height of the operator stack over its height at the start, at its
      highest in front of any character of the formula. */
  function Height(e: Expr): nat {
    match e
    case Atom(c) => 0
    case Paren(x) => Max(1 + Height(x), 1 + |Pending(x)|)
    case Bin(op, l, r) => Max(Max(Height(l), |Pending(l)|), 1 + Height(r))
  }

  // ----- precedence along the edges of a tree

  /** `op` sends every operator of `s` to the output. */
  predicate PopsAll(op: char, s: string) { forall k | 0 <= k < |s| :: Pops(op, s[k]) }

  lemma PopsTrans(op: char, a: char, b: char)
    requires IsBinary(op) && IsBinary(a) && IsBinary(b)
    requires Pops(op, a) && !Pops(b, a)
    ensures Pops(op, b)
  {
  }

  lemma {:induction false} PendingPops(op: char, e: Expr)
    requires WellFormed(e) && e.Bin? && IsBinary(op) && Pops(op, e.op)
    ensures PopsAll(op, Pending(e))
    decreases e
  {
    hide Pops;
    if e.r.Bin? {
      PopsTrans(op, e.op, e.r.op);
      PendingPops(op, e.r);
    }
  }

  /** No operator on the left edge of the tree sends `top` to the output. */
  predicate Keeps(e: Expr, top: char) {
    e.Bin? ==> !Pops(e.op, top) && Keeps(e.l, top)
  }

  lemma KeepsTrans(a: char, b: char, top: char)
    requires IsBinary(a) && IsBinary(b) && Pops(a, b) && !Pops(a, top)
    ensures !Pops(b, top)
  {
  }

  lemma {:induction false} LeftEdgeKeeps(e: Expr, top: char)
    requires WellFormed(e) && (e.Bin? ==> !Pops(e.op, top))
    ensures Keeps(e, top)
    decreases e
  {
    hide Pops;
    if e.Bin? && e.l.Bin? {
      KeepsTrans(e.op, e.l.op, top);
      LeftEdgeKeeps(e.l, top);
    }
  }

  // ----- the run over a formula

  /** The formula may start on this stack. */
  predicate Ready(s: State, e: Expr) {
    s.stack != [] ==> !IsFunction(Top(s)) && Keeps(e, Top(s))
  }

  lemma {:induction false} ReverseLast(p: string)
    requires p != []
    ensures Reverse(p) == [p[|p| - 1]] + Reverse(p[..|p| - 1])
    decreases |p|
  {
    if |p| == 1 {
      assert p[1..] == [] && p[..0] == [];
    } else {
      ReverseLast(p[1..]);
      assert p[1..][..|p| - 2] == p[..|p| - 1][1..];
    }
  }

  lemma {:induction false} PopAll(s: State, p: string, op: char)
    requires PopsAll(op, p) && (s.stack != [] ==> !Pops(op, Top(s)))
    ensures PopOperators(State(s.stack + p, s.out), op) == State(s.stack, s.out + Reverse(p))
    decreases |p|
  {
    hide Pops;
    if p == [] {
      assert s.stack + p == s.stack && s.out + Reverse(p) == s.out;
    } else {
      var t := State(s.stack + p, s.out);
      var q := p[..|p| - 1];
      assert Emit(t) == State(s.stack + q, s.out + [p[|p| - 1]]) by {
        assert t.stack[..|t.stack| - 1] == s.stack + q;
      }
      PopAll(State(s.stack, s.out + [p[|p| - 1]]), q, op);
      ReverseLast(p);
      assert s.out + [p[|p| - 1]] + Reverse(q) == s.out + Reverse(p);
    }
  }

  /** No parenthesis. */
  predicate Open(p: string) { forall k | 0 <= k < |p| :: p[k] != '(' && p[k] != ')' }

  lemma {:induction false} PendingOpen(e: Expr)
    requires WellFormed(e)
    ensures Open(Pending(e))
    decreases e
  {
    hide Pops;
    if e.Bin? {
      PendingOpen(e.r);
    }
  }

  lemma {:induction false} PopToMark(s: State, p: string)
    requires Open(p) && s.stack != [] && Top(s) == '('
    ensures PopToParen(State(s.stack + p, s.out)) == Some(State(s.stack, s.out + Reverse(p)))
    decreases |p|
  {
    if p == [] {
      assert s.stack + p == s.stack && s.out + Reverse(p) == s.out;
    } else {
      var t := State(s.stack + p, s.out);
      var q := p[..|p| - 1];
      assert Emit(t) == State(s.stack + q, s.out + [p[|p| - 1]]) by {
        assert t.stack[..|t.stack| - 1] == s.stack + q;
      }
      PopToMark(State(s.stack, s.out + [p[|p| - 1]]), q);
      ReverseLast(p);
      assert s.out + [p[|p| - 1]] + Reverse(q) == s.out + Reverse(p);
    }
  }

  lemma {:induction false} DrainAll(p: string, out: string)
    requires Open(p)
    ensures Drain(State(p, out)) == Some(out + Reverse(p))
    decreases |p|
  {
    if p == [] {
      assert out + Reverse(p) == out;
    } else {
      var q := p[..|p| - 1];
      DrainAll(q, out + [p[|p| - 1]]);
      ReverseLast(p);
      assert out + [p[|p| - 1]] + Reverse(q) == out + Reverse(p);
    }
  }

  /** The state after the formula. */
  function After(s: State, e: Expr): State {
    State(s.stack + Pending(e), s.out + Written(e))
  }

  /** One character. */
  lemma RunStep(s: State, c: char, rest: string)
    ensures Run(s, [c] + rest)
         == if |s.stack| >= STACK_SIZE then None
            else if Token(s, c).Some? then Run(Token(s, c).value, rest) else None
  {
    hide Token;
    assert ([c] + rest)[1..] == rest;
  }

  lemma AtomToken(s: State, c: char)
    requires IsIdent(c)
    ensures Token(s, c) == Some(After(s, Atom(c)))
  {
    assert s.stack + Pending(Atom(c)) == s.stack;
  }

  /** The run over a well-formed formula: it fails for want of stack, or it
      leaves the pending operators and the rest of the postorder. */
  lemma {:induction false} RunFormula(e: Expr, s: State, rest: string)
    requires WellFormed(e) && Ready(s, e)
    ensures Run(s, Text(e) + rest)
         == if |s.stack| + Height(e) >= STACK_SIZE then None else Run(After(s, e), rest)
    decreases e, 1
  {
    hide Run, Token, Keeps, Pops;
    match e
    case Atom(c) =>
      RunStep(s, c, rest);
      AtomToken(s, c);
    case Paren(x) =>
      RunParen(x, s, rest);
    case Bin(op, l, r) =>
      RunBin(op, l, r, s, rest);
  }

  lemma OpenToken(s: State)
    ensures Token(s, '(') == Some(Push(s, '('))
  {
  }

  lemma ParenKeeps(x: Expr)
    requires WellFormed(x)
    ensures Keeps(x, '(')
  {
    hide Keeps;
    LeftEdgeKeeps(x, '(');
  }

  lemma CloseToken(s: State, x: Expr)
    requires WellFormed(x) && Ready(s, Paren(x))
    ensures Token(After(Push(s, '('), x), ')') == Some(After(s, Paren(x)))
  {
    hide PopToParen, WellFormed;
    var t := Push(s, '(');
    var u := State(t.stack, t.out + Written(x));
    PendingOpen(x);
    PopToMark(u, Pending(x));
    WrittenAndPending(x);
    var v := State(u.stack, u.out + Reverse(Pending(x)));
    assert v.out == s.out + Postorder(x);
    assert v.stack[..|v.stack| - 1] == s.stack;
    assert CloseParen(v) == State(s.stack, v.out);
    assert s.stack + Pending(Paren(x)) == s.stack;
  }

  lemma RunParen(x: Expr, s: State, rest: string)
    requires WellFormed(x) && Ready(s, Paren(x))
    ensures Run(s, Text(Paren(x)) + rest)
         == if |s.stack| + Height(Paren(x)) >= STACK_SIZE then None else Run(After(s, Paren(x)), rest)
    decreases Paren(x), 0
  {
    hide Run, Token, Pops;
    var t := Push(s, '(');
    assert Text(Paren(x)) + rest == ['('] + (Text(x) + ([')'] + rest));
    RunStep(s, '(', Text(x) + ([')'] + rest));
    OpenToken(s);
    ParenKeeps(x);
    RunFormula(x, t, [')'] + rest);
    RunStep(After(t, x), ')', rest);
    CloseToken(s, x);
  }

  lemma BinText(op: char, l: Expr, r: Expr, rest: string)
    ensures Text(Bin(op, l, r)) + rest == Text(l) + ([op] + (Text(r) + rest))
  {
  }

  lemma BinAfter(op: char, l: Expr, r: Expr, s: State)
    ensures After(Push(State(s.stack, s.out + Postorder(l)), op), r) == After(s, Bin(op, l, r))
  {
    var e := Bin(op, l, r);
    assert s.stack + [op] + Pending(r) == s.stack + Pending(e);
    assert s.out + Postorder(l) + Written(r) == s.out + Written(e);
  }

  lemma KeepsLeft(op: char, l: Expr, r: Expr, top: char)
    requires Keeps(Bin(op, l, r), top)
    ensures Keeps(l, top) && !Pops(op, top)
  {
    hide Pops;
  }

  lemma BinaryIsOperator(op: char)
    requires IsBinary(op)
    ensures IsOperator(op) && !IsFunction(op)
  {
  }

  lemma BinReady(op: char, l: Expr, r: Expr, s: State)
    requires WellFormed(Bin(op, l, r)) && Ready(s, Bin(op, l, r))
    ensures WellFormed(l) && WellFormed(r) && Ready(s, l)
    ensures Ready(Push(State(s.stack, s.out + Postorder(l)), op), r)
  {
    hide Pops, Keeps, Postorder;
    LeftEdgeKeeps(r, op);
    if s.stack != [] {
      KeepsLeft(op, l, r, Top(s));
    }
    BinaryIsOperator(op);
  }

  /** The formula, the state after it and the stack it needs, from those of its
      parts. */
  lemma BinParts(op: char, l: Expr, r: Expr, s: State, rest: string)
    requires WellFormed(Bin(op, l, r)) && Ready(s, Bin(op, l, r))
    ensures var e := Bin(op, l, r); var u := Push(State(s.stack, s.out + Postorder(l)), op);
            Text(e) + rest == Text(l) + ([op] + (Text(r) + rest)) && After(u, r) == After(s, e)
            && Height(e) == Max(Max(Height(l), |Pending(l)|), 1 + Height(r))
            && |After(s, l).stack| == |s.stack| + |Pending(l)|
            && WellFormed(l) && WellFormed(r) && Ready(s, l) && Ready(u, r)
  {
    hide Pops, Keeps, WellFormed, Ready;
    BinText(op, l, r, rest);
    BinAfter(op, l, r, s);
    BinReady(op, l, r, s);
  }

  lemma OperatorToken(s: State, op: char, l: Expr, r: Expr)
    requires WellFormed(Bin(op, l, r)) && Ready(s, Bin(op, l, r))
    ensures Token(After(s, l), op) == Some(Push(State(s.stack, s.out + Postorder(l)), op))
  {
    hide PopOperators, Pops;
    if l.Bin? {
      PendingPops(op, l);
    }
    PopAll(State(s.stack, s.out + Written(l)), Pending(l), op);
    WrittenAndPending(l);
    assert s.out + Written(l) + Reverse(Pending(l)) == s.out + Postorder(l);
  }

  lemma RunBin(op: char, l: Expr, r: Expr, s: State, rest: string)
    requires WellFormed(Bin(op, l, r)) && Ready(s, Bin(op, l, r))
    ensures Run(s, Text(Bin(op, l, r)) + rest)
         == if |s.stack| + Height(Bin(op, l, r)) >= STACK_SIZE then None else Run(After(s, Bin(op, l, r)), rest)
    decreases Bin(op, l, r), 0
  {
    hide Run, Token, Pops, Text, Height, After, WellFormed, Keeps;
    var e := Bin(op, l, r);
    var u := Push(State(s.stack, s.out + Postorder(l)), op);
    BinParts(op, l, r, s, rest);
    RunFormula(l, s, [op] + (Text(r) + rest));
    RunStep(After(s, l), op, Text(r) + rest);
    OperatorToken(s, op, l, r);
    RunFormula(r, u, rest);
  }

  // ----- blanks

  function Strip(s: string): string {
    if s == [] then [] else if s[0] == ' ' then Strip(s[1..]) else [s[0]] + Strip(s[1..])
  }

  lemma BlankToken(s: State)
    ensures Token(s, ' ') == Some(s)
  {
  }

  /** A blank does nothing but ask for room on the stack, so only blanks behind
      the formula can make a difference. */
  lemma {:induction false} RunStrips(s: State, input: string)
    ensures Run(s, input) ==
            var t := Run(s, Strip(input));
            if t.Some? && input != [] && input[|input| - 1] == ' ' && |t.value.stack| >= STACK_SIZE then None else t
    decreases |input|
  {
    hide Token;
    if input != [] {
      var rest := input[1..];
      assert rest != [] ==> rest[|rest| - 1] == input[|input| - 1];
      if input[0] == ' ' {
        assert Token(s, ' ') == Some(s) by { BlankToken(s); }
        RunStrips(s, rest);
      } else {
        assert ([input[0]] + Strip(rest))[1..] == Strip(rest);
        if |s.stack| < STACK_SIZE && Token(s, input[0]).Some? {
          RunStrips(Token(s, input[0]).value, rest);
        }
      }
    }
  }

  /** A formula's own last character needs as much room as anything behind it. */
  lemma {:induction false} HeightCoversPending(e: Expr)
    ensures |Pending(e)| <= Height(e)
    decreases e
  {
    if e.Bin? {
      HeightCoversPending(e.r);
    }
  }

  /** What the translation of a well-formed formula is, blanks anywhere. */
  function Compiled(e: Expr): Option<string> {
    if Height(e) >= STACK_SIZE then None else Some(Postorder(e))
  }

  lemma RunNothing(s: State)
    ensures Run(s, []) == Some(s)
  {
  }

  /** shunting_yard emits the postorder of the tree, if and only if the stack
      has room in front of every character; blanks anywhere change nothing. */
  lemma TranslateIsPostorder(e: Expr, input: string)
    requires WellFormed(e) && Strip(input) == Text(e)
    ensures Translate(input) == Compiled(e)
  {
    hide Run, Drain, Strip, Text, Height, Postorder, Written;
    var s := State("", "");
    RunStrips(s, input);
    assert Text(e) + [] == Text(e);
    RunFormula(e, s, []);
    assert Run(After(s, e), []) == Some(After(s, e)) by { RunNothing(After(s, e)); }
    assert s.stack + Pending(e) == Pending(e) && s.out + Written(e) == Written(e);
    HeightCoversPending(e);
    PendingOpen(e);
    DrainAll(Pending(e), Written(e));
    WrittenAndPending(e);
  }

  // ----- outside the formulas

  /** `n` exclamation marks. */
  function Marks(n: nat): (s: string)
    ensures |s| == n && forall k | 0 <= k < n :: s[k] == '!'
  {
    seq(n, _ => '!')
  }

  lemma MarkToken(k: nat)
    ensures Token(State(Marks(k), "a"), '!') == Some(State(Marks(k + 1), "a"))
  {
    assert Marks(k) + ['!'] == Marks(k + 1);
  }

  /** Marks pile up on the stack: `!` does not pop itself. */
  lemma {:induction false} MarksPile(k: nat, n: nat, rest: string)
    requires k + n <= STACK_SIZE
    ensures Run(State(Marks(k), "a"), Marks(n) + rest) == Run(State(Marks(k + n), "a"), rest)
    decreases n
  {
    if n == 0 {
      assert Marks(0) + rest == rest;
    } else {
      hide Run;
      assert Marks(n) + rest == ['!'] + (Marks(n - 1) + rest);
      RunStep(State(Marks(k), "a"), '!', Marks(n - 1) + rest);
      MarkToken(k);
      MarksPile(k + 1, n - 1, rest);
    }
  }

  lemma FirstToken()
    ensures Token(State("", ""), 'a') == Some(State(Marks(0), "a"))
  {
    assert [] + ['a'] == "a";
  }

  lemma {:induction false} ReverseMarks(n: nat)
    ensures Reverse(Marks(n)) == Marks(n)
    decreases n
  {
    if n > 0 {
      assert Marks(n)[1..] == Marks(n - 1);
      ReverseMarks(n - 1);
      assert Marks(n - 1) + ['!'] == Marks(n);
    }
  }

  /** With `!`, which no formula above has, a blank at the end can make the
      difference: an operand and 32 marks are accepted, with a blank behind
      them they are not. */
  lemma BlankCanFail()
    ensures Translate(['a'] + Marks(32)) == Some(['a'] + Marks(32))
    ensures Translate(['a'] + Marks(32) + [' ']) == None
  {
    hide Run, Drain, Reverse;
    var s := State("", "");
    var t := State(Marks(32), "a");
    RunStep(s, 'a', Marks(32));
    RunStep(s, 'a', Marks(32) + [' ']);
    assert Token(s, 'a') == Some(State(Marks(0), "a")) by { FirstToken(); }
    MarksPile(0, 32, []);
    MarksPile(0, 32, [' ']);
    assert Marks(32) + [] == Marks(32) && ['a'] + Marks(32) + [' '] == ['a'] + (Marks(32) + [' ']);
    RunNothing(t);
    RunStep(t, ' ', []);
    assert [' '] + [] == [' '];
    DrainAll(Marks(32), "a");
    ReverseMarks(32);
  }
}
