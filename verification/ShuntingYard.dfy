/** shunting_yard of calc.cpp: infix to postfix with a stack of 32 characters. */
module ShuntingYard {
  import opened CalcSyntax

  const STACK_SIZE := 32

  datatype Option<T> = None | Some(value: T)

  /** The operator stack, bottom first, and the output. */
  datatype State = State(stack: string, out: string)

  function Top(s: State): char
    requires s.stack != []
  {
    s.stack[|s.stack| - 1]
  }

  /** The top of the stack goes to the output. */
  function Emit(s: State): State
    requires s.stack != []
  {
    State(s.stack[..|s.stack| - 1], s.out + [Top(s)])
  }

  function Push(s: State, c: char): State { State(s.stack + [c], s.out) }

  function PopOperators(s: State, c: char): State
    decreases |s.stack|
  {
    if s.stack != [] && Pops(c, Top(s)) then PopOperators(Emit(s), c) else s
  }

  /** Everything above the next left parenthesis goes to the output. */
  function PopToParen(s: State): Option<State>
    decreases |s.stack|
  {
    if s.stack == [] then None
    else if Top(s) == '(' then Some(s)
    else PopToParen(Emit(s))
  }

  function CloseParen(s: State): State
    requires s.stack != []
  {
    var t := State(s.stack[..|s.stack| - 1], s.out);
    if t.stack != [] && IsFunction(Top(t)) then Emit(t) else t
  }

  /** What one character does. */
  function Token(s: State, c: char): Option<State> {
    if c == ' ' then Some(s)
    else if IsIdent(c) then Some(State(s.stack, s.out + [c]))
    else if IsFunction(c) then Some(Push(s, c))
    else if c == ',' then PopToParen(s)
    else if IsOperator(c) then Some(Push(PopOperators(s, c), c))
    else if c == '(' then Some(Push(s, c))
    else if c == ')' then
      var t := PopToParen(s);
      if t.Some? && t.value.stack != [] then Some(CloseParen(t.value)) else None
    else None
  }

  /** The characters one after another; a full stack stops at the next one. */
  function Run(s: State, input: string): Option<State>
    decreases |input|
  {
    if input == [] then Some(s)
    else if |s.stack| >= STACK_SIZE then None
    else
      var t := Token(s, input[0]);
      if t.Some? then Run(t.value, input[1..]) else None
  }

  function Drain(s: State): Option<string>
    decreases |s.stack|
  {
    if s.stack == [] then Some(s.out)
    else if Top(s) == '(' || Top(s) == ')' then None
    else Drain(Emit(s))
  }

  function Translate(input: string): Option<string> {
    var s := Run(State("", ""), input);
    if s.Some? then Drain(s.value) else None
  }

  // ----- nothing is lost

  /** What has to appear in the output. */
  function Kept(s: string): multiset<char> {
    if s == [] then multiset{}
    else if s[0] == ' ' || s[0] == '(' || s[0] == ')' || s[0] == ',' then Kept(s[1..])
    else multiset{s[0]} + Kept(s[1..])
  }

  /** Output and stack together. */
  function Held(s: State): multiset<char> { Kept(s.stack) + multiset(s.out) }

  predicate Plain(c: char) { c != ' ' && c != '(' && c != ')' && c != ',' }

  lemma {:induction false} KeptLast(s: string, c: char)
    ensures Kept(s + [c]) == Kept(s) + if Plain(c) then multiset{c} else multiset{}
    decreases |s|
  {
    if s == [] {
      assert Kept([]) == multiset{};
      assert [c][1..] == [];
    } else {
      assert (s + [c])[1..] == s[1..] + [c];
      KeptLast(s[1..], c);
    }
  }

  lemma PushKeeps(s: State, c: char)
    ensures Held(Push(s, c)) == Held(s) + if Plain(c) then multiset{c} else multiset{}
  {
    hide Kept;
    KeptLast(s.stack, c);
  }

  lemma EmitKeeps(s: State)
    requires s.stack != [] && Plain(Top(s))
    ensures Held(Emit(s)) == Held(s)
  {
    hide Kept;
    var t := s.stack[..|s.stack| - 1];
    assert s.stack == t + [Top(s)];
    KeptLast(t, Top(s));
  }

  /** The stack holds operators, functions and left parentheses. */
  predicate Stacked(s: State) {
    forall k | 0 <= k < |s.stack| :: IsOperator(s.stack[k]) || IsFunction(s.stack[k]) || s.stack[k] == '('
  }

  lemma PopsOperator(c: char, sc: char)
    requires Pops(c, sc)
    ensures IsOperator(sc)
  {
  }

  lemma {:induction false} PopOperatorsKeeps(s: State, c: char)
    requires Stacked(s)
    ensures var t := PopOperators(s, c); Stacked(t) && Held(t) == Held(s)
    decreases |s.stack|
  {
    hide Held, Pops;
    if s.stack != [] && Pops(c, Top(s)) {
      assert IsOperator(Top(s)) by { PopsOperator(c, Top(s)); }
      EmitKeeps(s);
      PopOperatorsKeeps(Emit(s), c);
    }
  }

  lemma {:induction false} PopToParenKeeps(s: State)
    requires Stacked(s)
    ensures var t := PopToParen(s);
            t.Some? ==> Stacked(t.value) && Held(t.value) == Held(s) && t.value.stack != [] && Top(t.value) == '('
    decreases |s.stack|
  {
    hide Held;
    if s.stack != [] && Top(s) != '(' {
      EmitKeeps(s);
      PopToParenKeeps(Emit(s));
    }
  }

  lemma CloseParenKeeps(s: State)
    requires Stacked(s) && s.stack != [] && Top(s) == '('
    ensures Stacked(CloseParen(s)) && Held(CloseParen(s)) == Held(s)
  {
    hide Kept;
    var t := State(s.stack[..|s.stack| - 1], s.out);
    assert s == Push(t, '(');
    PushKeeps(t, '(');
    if t.stack != [] && IsFunction(Top(t)) {
      EmitKeeps(t);
    }
  }

  lemma WriteKeeps(s: State, c: char)
    requires Plain(c)
    ensures Held(State(s.stack, s.out + [c])) == Held(s) + multiset{c}
  {
    hide Kept;
  }

  lemma TokenKeeps(s: State, c: char)
    requires Stacked(s)
    ensures var t := Token(s, c);
            t.Some? ==> Stacked(t.value) && Held(t.value) == Held(s) + if Plain(c) then multiset{c} else multiset{}
  {
    hide Kept, Held, Pops, PopToParen, PopOperators, CloseParen;
    if c == ',' || c == ')' {
      PopToParenKeeps(s);
      if c == ')' && PopToParen(s).Some? {
        CloseParenKeeps(PopToParen(s).value);
      }
    } else if IsOperator(c) {
      PopOperatorsKeeps(s, c);
      PushKeeps(PopOperators(s, c), c);
    } else if IsIdent(c) {
      WriteKeeps(s, c);
    } else if c != ' ' {
      PushKeeps(s, c);
    }
  }

  lemma {:induction false} RunKeeps(s: State, input: string)
    requires Stacked(s)
    ensures var t := Run(s, input); t.Some? ==> Stacked(t.value) && Held(t.value) == Held(s) + Kept(input)
    decreases |input|
  {
    hide Held, Token, Stacked;
    if input == [] {
      assert Kept([]) == multiset{};
    } else if |s.stack| < STACK_SIZE && Token(s, input[0]).Some? {
      TokenKeeps(s, input[0]);
      RunKeeps(Token(s, input[0]).value, input[1..]);
    }
  }

  lemma KeptNothing()
    ensures Kept([]) == multiset{}
  {
  }

  lemma {:induction false} DrainKeeps(s: State)
    requires Stacked(s)
    ensures var t := Drain(s); t.Some? ==> multiset(t.value) == Held(s)
    decreases |s.stack|
  {
    hide Kept;
    if s.stack == [] {
      assert Kept([]) == multiset{} by { KeptNothing(); }
    } else if Top(s) != '(' {
      EmitKeeps(s);
      DrainKeeps(Emit(s));
    }
  }

  /** Whatever the input, an accepted translation has the same operands,
      operators and functions, each as often. */
  lemma TranslationConserves(input: string)
    ensures var t := Translate(input); t.Some? ==> multiset(t.value) == Kept(input)
  {
    hide Kept, Run, Drain;
    var s := State("", "");
    KeptNothing();
    RunKeeps(s, input);
    if Run(s, input).Some? {
      DrainKeeps(Run(s, input).value);
    }
  }

  // ----- the routine

  /** The translation in place: characters on an array of 32, `sl` of them. */
  class Translator {
    const stack: array<char>
    var sl: nat
    var out: string

    ghost predicate Valid()
      reads this, stack
    {
      stack.Length == STACK_SIZE && sl <= STACK_SIZE
    }

    ghost function Contents(): State
      requires Valid()
      reads this, stack
    {
      State(stack[..sl], out)
    }

    constructor ()
      ensures Valid() && fresh(stack) && Contents() == State("", "")
    {
      stack := new char[STACK_SIZE](_ => ' ');
      sl := 0;
      out := "";
    }

    method Put(c: char)
      requires Valid() && sl < STACK_SIZE
      modifies this`sl, stack
      ensures Valid() && Contents() == Push(old(Contents()), c)
    {
      stack[sl] := c;
      sl := sl + 1;
    }

    method ToOutput()
      requires Valid() && sl > 0
      modifies this`sl, this`out
      ensures Valid() && sl == old(sl) - 1 && Contents() == Emit(old(Contents()))
    {
      out := out + [stack[sl - 1]];
      sl := sl - 1;
    }

    method OperatorsOut(c: char)
      requires Valid()
      modifies this`sl, this`out
      ensures Valid() && sl <= old(sl) && Contents() == PopOperators(old(Contents()), c)
    {
      hide Pops;
      while sl > 0
        invariant Valid() && sl <= old(sl)
        invariant PopOperators(Contents(), c) == PopOperators(old(Contents()), c)
        decreases sl
      {
        var sc := stack[sl - 1];
        assert sc == Top(Contents());
        if Pops(c, sc) {
          ToOutput();
        } else {
          break;
        }
      }
    }

    method ToParen() returns (pe: bool)
      requires Valid()
      modifies this`sl, this`out
      ensures Valid() && sl <= old(sl)
      ensures pe == PopToParen(old(Contents())).Some?
      ensures pe ==> sl > 0 && Contents() == PopToParen(old(Contents())).value
    {
      pe := false;
      while sl > 0
        invariant Valid() && !pe && sl <= old(sl)
        invariant PopToParen(Contents()) == PopToParen(old(Contents()))
        decreases sl
      {
        var sc := stack[sl - 1];
        assert sc == Top(Contents());
        if sc == '(' {
          pe := true;
          break;
        } else {
          ToOutput();
        }
      }
    }

    method Close()
      requires Valid() && sl > 0
      modifies this`sl, this`out
      ensures Valid() && Contents() == CloseParen(old(Contents()))
    {
      sl := sl - 1;
      if sl > 0 {
        var sc := stack[sl - 1];
        if IsFunction(sc) {
          ToOutput();
        }
      }
    }

    method Step(c: char) returns (ok: bool)
      requires Valid() && sl < STACK_SIZE
      modifies this`sl, this`out, stack
      ensures Valid() && ok == Token(old(Contents()), c).Some?
      ensures ok ==> Contents() == Token(old(Contents()), c).value
    {
      hide PopOperators, PopToParen, CloseParen;
      ok := true;
      if c != ' ' {
        if IsIdent(c) {
          out := out + [c];
        } else if IsFunction(c) {
          Put(c);
        } else if c == ',' {
          ok := ToParen();
        } else if IsOperator(c) {
          OperatorsOut(c);
          Put(c);
        } else if c == '(' {
          Put(c);
        } else if c == ')' {
          ok := ToParen();
          if ok {
            Close();
          }
        } else {
          ok := false;
        }
      }
    }

    method Rest() returns (ok: bool)
      requires Valid()
      modifies this`sl, this`out
      ensures ok == Drain(old(Contents())).Some?
      ensures ok ==> out == Drain(old(Contents())).value
    {
      while sl > 0
        invariant Valid()
        invariant Drain(Contents()) == Drain(old(Contents()))
        decreases sl
      {
        var sc := stack[sl - 1];
        assert sc == Top(Contents());
        if sc == '(' || sc == ')' {
          return false;
        }
        ToOutput();
      }
      return true;
    }
  }

  method ShuntingYard(input: string) returns (ok: bool, output: string)
    ensures ok == Translate(input).Some?
    ensures ok ==> output == Translate(input).value
  {
    hide Token, Drain;
    var t := new Translator();
    ghost var start := t.Contents();
    var k := 0;
    output := "";
    while k < |input|
      invariant 0 <= k <= |input| && t.Valid() && fresh(t) && fresh(t.stack)
      invariant Run(t.Contents(), input[k..]) == Run(start, input)
    {
      if t.sl >= STACK_SIZE {
        return false, output;
      }
      ok := t.Step(input[k]);
      assert input[k..][1..] == input[k + 1..];
      if !ok {
        return;
      }
      k := k + 1;
    }
    ok := t.Rest();
    output := t.out;
  }
}
