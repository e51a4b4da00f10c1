/** The formulas of calc.cpp: characters, precedence, and the trees that
    precedence and associativity fix for an infix formula. */
module CalcSyntax {

  // ----- characters

  predicate IsOperator(c: char) { c == '+' || c == '-' || c == '/' || c == '*' || c == '!' || c == '%' || c == '=' }

  predicate IsFunction(c: char) { 'A' <= c <= 'Z' }

  predicate IsIdent(c: char) { '0' <= c <= '9' || 'a' <= c <= 'z' }

  /** Operators with two arguments. */
  predicate IsBinary(c: char) { IsOperator(c) && c != '!' }

  /** op_preced */
  function Precedence(c: char): nat {
    match c
    case '!' => 4
    case '*' => 3 case '/' => 3 case '\\' => 3 case '%' => 3
    case '+' => 2 case '-' => 2
    case '=' => 1
    case _ => 0
  }

  /** op_left_assoc */
  predicate LeftAssociative(c: char) { c == '*' || c == '/' || c == '%' || c == '+' || c == '-' }

  /** Operator `c` sends operator `sc`, which came before it, to the output. */
  predicate Pops(c: char, sc: char) {
    IsOperator(sc)
    && if LeftAssociative(c) then Precedence(c) <= Precedence(sc) else Precedence(c) < Precedence(sc)
  }

  // ----- trees

  datatype Expr = Atom(c: char) | Paren(e: Expr) | Bin(op: char, l: Expr, r: Expr)

  /** The tree groups its operators as precedence and associativity say: its
      left argument is complete when the operator comes, its right argument
      binds tighter. */
  predicate WellFormed(e: Expr) {
    match e
    case Atom(c) => IsIdent(c)
    case Paren(x) => WellFormed(x)
    case Bin(op, l, r) =>
      IsBinary(op) && WellFormed(l) && WellFormed(r)
      && (l.Bin? ==> Pops(op, l.op)) && (r.Bin? ==> !Pops(r.op, op))
  }

  /** The formula as it is written. */
  function Text(e: Expr): string {
    match e
    case Atom(c) => [c]
    case Paren(x) => ['('] + Text(x) + [')']
    case Bin(op, l, r) => Text(l) + ([op] + Text(r))
  }

  function Postorder(e: Expr): string {
    match e
    case Atom(c) => [c]
    case Paren(x) => Postorder(x)
    case Bin(op, l, r) => Postorder(l) + Postorder(r) + [op]
  }

  // ----- every infix formula has its tree

  /** Operands and groups in parentheses, joined by operators from left to
      right: what a user writes, before any precedence. */
  datatype Infix = One(f: Factor) | More(e: Infix, op: char, f: Factor)
  datatype Factor = Operand(c: char) | Group(e: Infix)

  predicate ProperInfix(i: Infix) {
    match i
    case One(f) => ProperFactor(f)
    case More(e, op, f) => ProperInfix(e) && IsBinary(op) && ProperFactor(f)
  }

  predicate ProperFactor(f: Factor) {
    match f
    case Operand(c) => IsIdent(c)
    case Group(e) => ProperInfix(e)
  }

  function InfixText(i: Infix): string {
    match i
    case One(f) => FactorText(f)
    case More(e, op, f) => InfixText(e) + ([op] + FactorText(f))
  }

  function FactorText(f: Factor): string {
    match f
    case Operand(c) => [c]
    case Group(e) => ['('] + InfixText(e) + [')']
  }

  /** One more operand: the operator takes over as much of the right edge of
      the tree as it pops. */
  function Attach(e: Expr, op: char, f: Expr): (t: Expr)
    ensures t.Bin?
  {
    if e.Bin? && !Pops(op, e.op) then Bin(e.op, e.l, Attach(e.r, op, f)) else Bin(op, e, f)
  }

  function TreeOf(i: Infix): Expr {
    match i
    case One(f) => FactorTree(f)
    case More(e, op, f) => Attach(TreeOf(e), op, FactorTree(f))
  }

  function FactorTree(f: Factor): (t: Expr)
    ensures !t.Bin?
  {
    match f
    case Operand(c) => Atom(c)
    case Group(e) => Paren(TreeOf(e))
  }

  lemma {:induction false} AttachWellFormed(e: Expr, op: char, f: Expr)
    requires WellFormed(e) && IsBinary(op) && WellFormed(f) && !f.Bin?
    ensures WellFormed(Attach(e, op, f)) && Text(Attach(e, op, f)) == Text(e) + ([op] + Text(f))
    ensures Attach(e, op, f).op == if e.Bin? && !Pops(op, e.op) then e.op else op
  {
    if e.Bin? && !Pops(op, e.op) {
      AttachWellFormed(e.r, op, f);
      assert Text(e) + ([op] + Text(f)) == Text(e.l) + ([e.op] + (Text(e.r) + ([op] + Text(f))));
    }
  }

  /** Every infix formula is the text of a well-formed tree. */
  lemma {:induction false} TreeExists(i: Infix)
    requires ProperInfix(i)
    ensures WellFormed(TreeOf(i)) && Text(TreeOf(i)) == InfixText(i)
    decreases i
  {
    match i
    case One(f) => FactorTreeExists(f);
    case More(e, op, f) =>
      TreeExists(e);
      FactorTreeExists(f);
      AttachWellFormed(TreeOf(e), op, FactorTree(f));
  }

  lemma {:induction false} FactorTreeExists(f: Factor)
    requires ProperFactor(f)
    ensures WellFormed(FactorTree(f)) && Text(FactorTree(f)) == FactorText(f)
    decreases f
  {
    if f.Group? {
      TreeExists(f.e);
    }
  }
}
