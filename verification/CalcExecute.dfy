/** execution_order of calc.cpp: evaluation of postfix on a stack of 32 values,
    and the whole way from a formula to its value. The four operations on
    doubles, and what a single character stands for, stay uninterpreted. */
module CalcExecute {
  import opened CalcSyntax
  import opened ShuntingYard
  import opened CalcCompile

  /** Doubles: the value of an operand character, docalcx, and 0. */
  datatype Arithmetic<!V> = Arithmetic(operand: char -> V, apply: (char, V, V) -> V, zero: V)

  /** A stack entry: a character not yet looked up, or a result. */
  datatype Slot<V> = Ident(c: char) | Result(v: V)

  /** The value stack, and `val`, which keeps the last result. */
  datatype Machine<V> = Machine(stack: seq<Slot<V>>, val: V)

  /** stacktoval */
  function ValueOf<V>(a: Arithmetic<V>, s: Slot<V>): V {
    match s
    case Ident(c) => a.operand(c)
    case Result(v) => v
  }

  /** op_arg_count */
  function Arguments(c: char): nat
    requires IsOperator(c) || IsFunction(c)
  {
    if IsBinary(c) then 2 else if c == '!' then 1 else (c - 'A') as nat
  }

  /** The value an operator leaves; a function leaves the last one there was. */
  function Computed<V>(a: Arithmetic<V>, m: Machine<V>, c: char): V
    requires (IsOperator(c) || IsFunction(c)) && |m.stack| >= Arguments(c)
  {
    var n := |m.stack|;
    if IsFunction(c) then m.val
    else if c == '!' then a.apply(c, ValueOf(a, m.stack[n - 1]), m.val)
    else a.apply(c, ValueOf(a, m.stack[n - 2]), ValueOf(a, m.stack[n - 1]))
  }

  /** What one character does; other characters are passed over. */
  function Act<V>(a: Arithmetic<V>, m: Machine<V>, c: char): Option<Machine<V>> {
    if IsIdent(c) then Some(Machine(m.stack + [Ident(c)], m.val))
    else if IsOperator(c) || IsFunction(c) then
      if |m.stack| < Arguments(c) then None
      else
        var v := Computed(a, m, c);
        Some(Machine(m.stack[..|m.stack| - Arguments(c)] + [Result(v)], v))
    else Some(m)
  }

  /** What ! and the functions A to Z take off the stack: one value, and as many
      as the letter stands behind A. */
  lemma MarkActs<V>(a: Arithmetic<V>, m: Machine<V>)
    ensures Act(a, m, '!')
         == if m.stack == [] then None
            else var v := a.apply('!', ValueOf(a, m.stack[|m.stack| - 1]), m.val);
                 Some(Machine(m.stack[..|m.stack| - 1] + [Result(v)], v))
  {
  }

  lemma FunctionActs<V>(a: Arithmetic<V>, m: Machine<V>, n: nat)
    requires n <= 25
    ensures Act(a, m, 'A' + n as char)
         == if |m.stack| < n then None else Some(Machine(m.stack[..|m.stack| - n] + [Result(m.val)], m.val))
  {
  }

  function Exec<V>(a: Arithmetic<V>, m: Machine<V>, input: string): Option<Machine<V>>
    decreases |input|
  {
    if input == [] then Some(m)
    else if |m.stack| >= STACK_SIZE then None
    else
      var t := Act(a, m, input[0]);
      if t.Some? then Exec(a, t.value, input[1..]) else None
  }

  /** The result is `val` if one value is left on the stack. */
  function Execute<V>(a: Arithmetic<V>, input: string): Option<V> {
    var m := Exec(a, Machine([], a.zero), input);
    if m.Some? && |m.value.stack| == 1 then Some(m.value.val) else None
  }

  // ----- the routine

  method ActInPlace<V>(a: Arithmetic<V>, stack: array<Slot<V>>, sl0: nat, val0: V, c: char)
    returns (ok: bool, sl: nat, val: V)
    requires stack.Length == STACK_SIZE && sl0 < STACK_SIZE
    modifies stack
    ensures sl <= STACK_SIZE && ok == Act(a, Machine(old(stack[..sl0]), val0), c).Some?
    ensures ok ==> Machine(stack[..sl], val) == Act(a, Machine(old(stack[..sl0]), val0), c).value
  {
    ok, sl, val := true, sl0, val0;
    if IsIdent(c) {
      stack[sl] := Ident(c);
      sl := sl + 1;
    } else if IsOperator(c) || IsFunction(c) {
      var nargs := Arguments(c);
      if sl < nargs {
        return false, sl, val;
      }
      if IsFunction(c) {
        sl := sl - nargs;
      } else if nargs == 1 {
        val := a.apply(c, ValueOf(a, stack[sl - 1]), val);
        sl := sl - 1;
      } else {
        val := a.apply(c, ValueOf(a, stack[sl - 2]), ValueOf(a, stack[sl - 1]));
        sl := sl - 2;
      }
      stack[sl] := Result(val);
      sl := sl + 1;
    }
  }

  method ExecutionOrder<V>(a: Arithmetic<V>, input: string) returns (ok: bool, outval: V)
    ensures ok == Execute(a, input).Some?
    ensures ok ==> outval == Execute(a, input).value
  {
    hide Act;
    outval := a.zero;
    var stack := new Slot<V>[STACK_SIZE](_ => Ident('0'));
    var sl, val := 0, a.zero;
    ghost var start := Machine([], a.zero);
    var k := 0;
    while k < |input|
      invariant 0 <= k <= |input| && 0 <= sl <= STACK_SIZE
      invariant Exec(a, Machine(stack[..sl], val), input[k..]) == Exec(a, start, input)
    {
      if sl >= STACK_SIZE {
        return false, outval;
      }
      assert input[k..][1..] == input[k + 1..];
      ok, sl, val := ActInPlace(a, stack, sl, val, input[k]);
      if !ok {
        return;
      }
      k := k + 1;
    }
    ok := sl == 1;
    outval := val;
  }

  // ----- the value of a tree

  function Eval<V>(a: Arithmetic<V>, e: Expr): V {
    match e
    case Atom(c) => a.operand(c)
    case Paren(x) => Eval(a, x)
    case Bin(op, l, r) => a.apply(op, Eval(a, l), Eval(a, r))
  }

  predicate HasOperator(e: Expr) {
    match e
    case Atom(_) => false
    case Paren(x) => HasOperator(x)
    case Bin(_, _, _) => true
  }

  /** The height of the value stack in front of any character of the postorder. */
  function Values(e: Expr): nat {
    match e
    case Atom(_) => 0
    case Paren(x) => Values(x)
    case Bin(_, l, r) => Max(Max(Values(l), 1 + Values(r)), 2)
  }

  /** The value stack is at most one higher than the operator stack was. */
  lemma {:induction false} ValuesFit(e: Expr)
    ensures Values(e) <= Height(e) + 1
    decreases e
  {
    match e
    case Atom(_) =>
    case Paren(x) => ValuesFit(x);
    case Bin(_, l, r) =>
      ValuesFit(l);
      ValuesFit(r);
  }

  function SlotOf<V>(a: Arithmetic<V>, e: Expr): Slot<V> {
    match e
    case Atom(c) => Ident(c)
    case Paren(x) => SlotOf(a, x)
    case Bin(_, _, _) => Result(Eval(a, e))
  }

  lemma {:induction false} SlotHasValue<V>(a: Arithmetic<V>, e: Expr)
    ensures ValueOf(a, SlotOf(a, e)) == Eval(a, e)
    decreases e
  {
    if e.Paren? {
      SlotHasValue(a, e.e);
    }
  }

  function Done<V>(a: Arithmetic<V>, m: Machine<V>, e: Expr): Machine<V> {
    Machine(m.stack + [SlotOf(a, e)], if HasOperator(e) then Eval(a, e) else m.val)
  }

  lemma ExecStep<V>(a: Arithmetic<V>, m: Machine<V>, c: char, rest: string)
    ensures Exec(a, m, [c] + rest)
         == if |m.stack| >= STACK_SIZE then None
            else if Act(a, m, c).Some? then Exec(a, Act(a, m, c).value, rest) else None
  {
    hide Act;
    assert ([c] + rest)[1..] == rest;
  }

  lemma AtomAct<V>(a: Arithmetic<V>, m: Machine<V>, c: char)
    requires IsIdent(c)
    ensures Act(a, m, c) == Some(Done(a, m, Atom(c)))
  {
  }

  lemma ParenDone<V>(a: Arithmetic<V>, m: Machine<V>, x: Expr)
    ensures Done(a, m, Paren(x)) == Done(a, m, x)
  {
  }

  lemma BinSlot<V>(a: Arithmetic<V>, op: char, l: Expr, r: Expr)
    ensures SlotOf(a, Bin(op, l, r)) == Result(Eval(a, Bin(op, l, r))) && HasOperator(Bin(op, l, r))
    ensures Eval(a, Bin(op, l, r)) == a.apply(op, Eval(a, l), Eval(a, r))
  {
  }

  lemma BinAct<V>(a: Arithmetic<V>, m: Machine<V>, op: char, l: Expr, r: Expr)
    requires IsBinary(op)
    ensures Act(a, Done(a, Done(a, m, l), r), op) == Some(Done(a, m, Bin(op, l, r)))
  {
    hide SlotOf, HasOperator;
    var t := Done(a, Done(a, m, l), r);
    SlotHasValue(a, l);
    SlotHasValue(a, r);
    assert t.stack == m.stack + [SlotOf(a, l), SlotOf(a, r)];
    assert t.stack[..|t.stack| - 2] == m.stack;
    BinSlot(a, op, l, r);
    assert !IsIdent(op) && !IsFunction(op) && IsOperator(op) && Arguments(op) == 2;
    assert Computed(a, t, op) == a.apply(op, Eval(a, l), Eval(a, r));
  }

  /** Executing the postorder of a tree leaves its value, or runs out of stack. */
  lemma {:induction false} ExecTree<V>(a: Arithmetic<V>, m: Machine<V>, e: Expr, rest: string)
    requires WellFormed(e)
    ensures Exec(a, m, Postorder(e) + rest)
         == if |m.stack| + Values(e) >= STACK_SIZE then None else Exec(a, Done(a, m, e), rest)
    decreases e
  {
    hide Exec, Act, Pops, Eval;
    match e
    case Atom(c) =>
      ExecStep(a, m, c, rest);
      assert Act(a, m, c) == Some(Done(a, m, e)) by { AtomAct(a, m, c); }
    case Paren(x) =>
      ExecTree(a, m, x, rest);
      assert Done(a, m, e) == Done(a, m, x) by { ParenDone(a, m, x); }
    case Bin(op, l, r) =>
      assert Postorder(e) + rest == Postorder(l) + (Postorder(r) + ([op] + rest));
      ExecTree(a, m, l, Postorder(r) + ([op] + rest));
      var t := Done(a, m, l);
      ExecTree(a, t, r, [op] + rest);
      ExecStep(a, Done(a, t, r), op, rest);
      assert Act(a, Done(a, t, r), op) == Some(Done(a, m, e)) by { BinAct(a, m, op, l, r); }
  }

  // ----- from the formula to its value

  /** calc, once the numbers are replaced by letters. */
  function Calculate<V>(a: Arithmetic<V>, input: string): Option<V> {
    var rpn := Translate(input);
    if rpn.Some? then Execute(a, rpn.value) else None
  }

  /** What calc answers for a well-formed formula. Without an operator it is not
      the operand, but the 0 that `val` starts with. */
  function Answer<V>(a: Arithmetic<V>, e: Expr): Option<V> {
    if Compiled(e).None? || Values(e) >= STACK_SIZE then None
    else Some(if HasOperator(e) then Eval(a, e) else a.zero)
  }

  lemma ExecuteTree<V>(a: Arithmetic<V>, e: Expr)
    requires WellFormed(e)
    ensures Execute(a, Postorder(e))
         == if Values(e) >= STACK_SIZE then None else Some(if HasOperator(e) then Eval(a, e) else a.zero)
  {
    hide Postorder, Eval, Values;
    var m := Machine([], a.zero);
    assert Postorder(e) + [] == Postorder(e);
    ExecTree(a, m, e, []);
  }

  /** Every infix formula, with blanks anywhere, evaluates to the value of its
      tree, exactly when both stacks have room. */
  lemma CalcIsEval<V>(a: Arithmetic<V>, i: Infix, input: string)
    requires ProperInfix(i) && Strip(input) == InfixText(i)
    ensures Calculate(a, input) == Answer(a, TreeOf(i))
  {
    hide Translate, Execute, Eval, Values, HasOperator, Height, Pending, Strip, InfixText, Text;
    TreeExists(i);
    TranslateIsPostorder(TreeOf(i), input);
    ExecuteTree(a, TreeOf(i));
  }

  /** A formula without an operator: the answer does not depend on it. */
  lemma LoneOperandIsLost<V>(a: Arithmetic<V>, c: char)
    requires IsIdent(c)
    ensures Calculate(a, [c]) == Some(a.zero)
  {
    hide Translate, Execute;
    var i := One(Operand(c));
    assert Strip([c][1..]) == [];
    assert Strip([c]) == [c] + [];
    CalcIsEval(a, i, [c]);
  }

  /** a=a=...=a with `n` operators, which group to the right. */
  function Chain(n: nat): (e: Expr)
    ensures e.Bin? ==> e.op == '='
  {
    if n == 0 then Atom('a') else Bin('=', Atom('a'), Chain(n - 1))
  }

  lemma {:induction false} ChainFacts(n: nat)
    ensures var e := Chain(n);
            WellFormed(e) && Height(e) == n && |Pending(e)| == n && Values(e) == (if n == 0 then 0 else n + 1)
    decreases n
  {
    if n > 0 {
      ChainFacts(n - 1);
    }
  }

  lemma {:induction false} StripAppend(s: string, t: string)
    ensures Strip(s + t) == Strip(s) + Strip(t)
    decreases |s|
  {
    if s == [] {
      assert s + t == t;
    } else {
      assert (s + t)[1..] == s[1..] + t;
      StripAppend(s[1..], t);
    }
  }

  /** The text of a formula has no blanks. */
  lemma {:induction false} NoBlanks(e: Expr)
    requires WellFormed(e)
    ensures Strip(Text(e)) == Text(e)
    decreases e
  {
    hide Pops;
    match e
    case Atom(c) => assert [c][1..] == [];
    case Paren(x) =>
      NoBlanks(x);
      StripAppend(['('], Text(x) + [')']);
      StripAppend(Text(x), [')']);
      assert Text(e) == ['('] + (Text(x) + [')']);
      assert ['('][1..] == [] && [')'][1..] == [];
    case Bin(op, l, r) =>
      NoBlanks(l);
      NoBlanks(r);
      StripAppend(Text(l), [op] + Text(r));
      StripAppend([op], Text(r));
      assert [op][1..] == [];
  }

  /** The value stack is a limit of its own: 31 assignments in a row translate,
      and fail to evaluate. */
  lemma ChainFails<V>(a: Arithmetic<V>)
    ensures Translate(Text(Chain(31))) == Some(Postorder(Chain(31)))
    ensures Calculate(a, Text(Chain(31))) == None
  {
    hide Translate, Execute, Eval, Values, HasOperator, Height, Pending, Strip, Text, WellFormed, Chain, Postorder;
    var e := Chain(31);
    ChainFacts(31);
    NoBlanks(e);
    TranslateIsPostorder(e, Text(e));
    ExecuteTree(a, e);
  }
}
