/** The grammar of the formulas: an assignment joins sums, a sum products, a
    product operands and groups.  What calc answers is the value that the
    grammar gives, without a word about precedence. */
module CalcGrammar {
  import opened CalcSyntax
  import opened ShuntingYard
  import opened CalcCompile
  import opened CalcExecute

  /** sum, or sum = assignment */
  datatype Assignment = Plain(s: Sum) | Assign(s: Sum, rest: Assignment)

  /** product, or sum + product, or sum - product */
  datatype Sum = OneProduct(p: Product) | AddTo(s: Sum, op: char, p: Product)

  /** operand, or product * operand, product / operand, product % operand */
  datatype Product = OneOperand(f: Primary) | Times(p: Product, op: char, f: Primary)

  datatype Primary = Name(c: char) | Inside(g: Assignment)

  predicate ProperAssignment(g: Assignment) {
    match g
    case Plain(s) => ProperSum(s)
    case Assign(s, rest) => ProperSum(s) && ProperAssignment(rest)
  }

  predicate ProperSum(s: Sum) {
    match s
    case OneProduct(p) => ProperProduct(p)
    case AddTo(t, op, p) => ProperSum(t) && (op == '+' || op == '-') && ProperProduct(p)
  }

  predicate ProperProduct(p: Product) {
    match p
    case OneOperand(f) => ProperPrimary(f)
    case Times(q, op, f) => ProperProduct(q) && (op == '*' || op == '/' || op == '%') && ProperPrimary(f)
  }

  predicate ProperPrimary(f: Primary) {
    match f
    case Name(c) => '0' <= c <= '9' || 'a' <= c <= 'z'
    case Inside(g) => ProperAssignment(g)
  }

  function AssignmentText(g: Assignment): string {
    match g
    case Plain(s) => SumText(s)
    case Assign(s, rest) => SumText(s) + ("=" + AssignmentText(rest))
  }

  function SumText(s: Sum): string {
    match s
    case OneProduct(p) => ProductText(p)
    case AddTo(t, op, p) => SumText(t) + ([op] + ProductText(p))
  }

  function ProductText(p: Product): string {
    match p
    case OneOperand(f) => PrimaryText(f)
    case Times(q, op, f) => ProductText(q) + ([op] + PrimaryText(f))
  }

  function PrimaryText(f: Primary): string {
    match f
    case Name(c) => [c]
    case Inside(g) => "(" + AssignmentText(g) + ")"
  }

  // ----- the value

  function AssignmentValue<V>(a: Arithmetic<V>, g: Assignment): V {
    match g
    case Plain(s) => SumValue(a, s)
    case Assign(s, rest) => a.apply('=', SumValue(a, s), AssignmentValue(a, rest))
  }

  function SumValue<V>(a: Arithmetic<V>, s: Sum): V {
    match s
    case OneProduct(p) => ProductValue(a, p)
    case AddTo(t, op, p) => a.apply(op, SumValue(a, t), ProductValue(a, p))
  }

  function ProductValue<V>(a: Arithmetic<V>, p: Product): V {
    match p
    case OneOperand(f) => PrimaryValue(a, f)
    case Times(q, op, f) => a.apply(op, ProductValue(a, q), PrimaryValue(a, f))
  }

  function PrimaryValue<V>(a: Arithmetic<V>, f: Primary): V {
    match f
    case Name(c) => a.operand(c)
    case Inside(g) => AssignmentValue(a, g)
  }

  // ----- the tree

  function AssignmentTree(g: Assignment): Expr {
    match g
    case Plain(s) => SumTree(s)
    case Assign(s, rest) => Bin('=', SumTree(s), AssignmentTree(rest))
  }

  function SumTree(s: Sum): Expr {
    match s
    case OneProduct(p) => ProductTree(p)
    case AddTo(t, op, p) => Bin(op, SumTree(t), ProductTree(p))
  }

  function ProductTree(p: Product): Expr {
    match p
    case OneOperand(f) => PrimaryTree(f)
    case Times(q, op, f) => Bin(op, ProductTree(q), PrimaryTree(f))
  }

  function PrimaryTree(f: Primary): Expr {
    match f
    case Name(c) => Atom(c)
    case Inside(g) => Paren(AssignmentTree(g))
  }

  /** The tree stands for the phrase: well-formed, with its text and value. */
  ghost predicate StandsFor<V>(a: Arithmetic<V>, e: Expr, text: string, v: V) {
    WellFormed(e) && Text(e) == text && Eval(a, e) == v
  }

  lemma {:induction false} AssignmentStands<V>(a: Arithmetic<V>, g: Assignment)
    requires ProperAssignment(g)
    ensures StandsFor(a, AssignmentTree(g), AssignmentText(g), AssignmentValue(a, g))
    decreases g
  {
    match g
    case Plain(s) => SumStands(a, s);
    case Assign(s, rest) =>
      SumStands(a, s);
      AssignmentStands(a, rest);
      assert ['='] == "=";
  }

  lemma {:induction false} SumStands<V>(a: Arithmetic<V>, s: Sum)
    requires ProperSum(s)
    ensures var e := SumTree(s);
            StandsFor(a, e, SumText(s), SumValue(a, s)) && (e.Bin? ==> e.op in "+-*/%")
    decreases s
  {
    match s
    case OneProduct(p) => ProductStands(a, p);
    case AddTo(t, op, p) =>
      SumStands(a, t);
      ProductStands(a, p);
  }

  lemma {:induction false} ProductStands<V>(a: Arithmetic<V>, p: Product)
    requires ProperProduct(p)
    ensures var e := ProductTree(p);
            StandsFor(a, e, ProductText(p), ProductValue(a, p)) && (e.Bin? ==> e.op in "*/%")
    decreases p
  {
    match p
    case OneOperand(f) => PrimaryStands(a, f);
    case Times(q, op, f) =>
      ProductStands(a, q);
      PrimaryStands(a, f);
  }

  lemma {:induction false} PrimaryStands<V>(a: Arithmetic<V>, f: Primary)
    requires ProperPrimary(f)
    ensures var e := PrimaryTree(f);
            StandsFor(a, e, PrimaryText(f), PrimaryValue(a, f)) && !e.Bin?
    decreases f
  {
    if f.Inside? {
      AssignmentStands(a, f.g);
      assert ['('] == "(" && [')'] == ")";
    }
  }

  /** Every formula of the grammar, blanks anywhere: if the stacks have room,
      calc answers the value that the grammar gives; a formula without an
      operator answers 0. */
  lemma CalcIsGrammar<V>(a: Arithmetic<V>, g: Assignment, input: string)
    requires ProperAssignment(g) && Strip(input) == AssignmentText(g)
    ensures var e := AssignmentTree(g);
            Calculate(a, input)
            == if Height(e) >= STACK_SIZE || Values(e) >= STACK_SIZE then None
               else Some(if HasOperator(e) then AssignmentValue(a, g) else a.zero)
  {
    hide Translate, Execute, Eval, Values, HasOperator, Height, Strip, Text, AssignmentTree, AssignmentText,
         AssignmentValue, WellFormed;
    AssignmentStands(a, g);
    TranslateIsPostorder(AssignmentTree(g), input);
    ExecuteTree(a, AssignmentTree(g));
  }

  // ----- every infix formula is one of the grammar

  function ExtendSum(s: Sum, op: char, f: Primary): Sum {
    if op == '+' || op == '-' then AddTo(s, op, OneOperand(f))
    else match s
      case OneProduct(p) => OneProduct(Times(p, op, f))
      case AddTo(t, o, p) => AddTo(t, o, Times(p, op, f))
  }

  /** One more operator and operand. */
  function Extend(g: Assignment, op: char, f: Primary): Assignment {
    match g
    case Plain(s) =>
      if op == '=' then Assign(s, Plain(OneProduct(OneOperand(f)))) else Plain(ExtendSum(s, op, f))
    case Assign(s, rest) => Assign(s, Extend(rest, op, f))
  }

  function Read(i: Infix): Assignment {
    match i
    case One(f) => Plain(OneProduct(OneOperand(ReadFactor(f))))
    case More(e, op, f) => Extend(Read(e), op, ReadFactor(f))
  }

  function ReadFactor(f: Factor): Primary {
    match f
    case Operand(c) => Name(c)
    case Group(e) => Inside(Read(e))
  }

  lemma ExtendsSum(s: Sum, op: char, f: Primary)
    requires ProperSum(s) && ProperPrimary(f) && op in "+-*/%"
    ensures ProperSum(ExtendSum(s, op, f)) && SumText(ExtendSum(s, op, f)) == SumText(s) + ([op] + PrimaryText(f))
  {
    if s.AddTo? {
      assert SumText(s.s) + ([s.op] + (ProductText(s.p) + ([op] + PrimaryText(f))))
          == SumText(s) + ([op] + PrimaryText(f));
    }
  }

  lemma OneText(f: Primary)
    ensures var s := OneProduct(OneOperand(f)); SumText(s) == PrimaryText(f) && (ProperSum(s) <==> ProperPrimary(f))
  {
  }

  lemma {:induction false} Extends(g: Assignment, op: char, f: Primary)
    requires ProperAssignment(g) && ProperPrimary(f) && op in "+-*/%="
    ensures var h := Extend(g, op, f);
            ProperAssignment(h) && AssignmentText(h) == AssignmentText(g) + ([op] + PrimaryText(f))
    decreases g
  {
    hide PrimaryText, SumText, ProperSum, ExtendSum, ProperPrimary;
    match g
    case Plain(s) =>
      if op == '=' {
        OneText(f);
        assert ['='] == "=";
      } else {
        ExtendsSum(s, op, f);
      }
    case Assign(s, rest) =>
      Extends(rest, op, f);
      assert SumText(s) + ("=" + (AssignmentText(rest) + ([op] + PrimaryText(f))))
          == AssignmentText(g) + ([op] + PrimaryText(f));
  }

  lemma {:induction false} Reads(i: Infix)
    requires ProperInfix(i)
    ensures ProperAssignment(Read(i)) && AssignmentText(Read(i)) == InfixText(i)
    decreases i
  {
    hide Extend, SumText, ProperSum;
    match i
    case One(f) =>
      ReadsFactor(f);
      OneText(ReadFactor(f));
    case More(e, op, f) =>
      Reads(e);
      ReadsFactor(f);
      Extends(Read(e), op, ReadFactor(f));
  }

  lemma {:induction false} ReadsFactor(f: Factor)
    requires ProperFactor(f)
    ensures ProperPrimary(ReadFactor(f)) && PrimaryText(ReadFactor(f)) == FactorText(f)
    decreases f
  {
    if f.Group? {
      Reads(f.e);
      assert ['('] == "(" && [')'] == ")";
    }
  }

  // ----- two operators

  predicate GroupsRight(o1: char, o2: char) {
    o1 == '=' || ((o1 == '+' || o1 == '-') && (o2 == '*' || o2 == '/' || o2 == '%'))
  }

  /** The tree of three operands. */
  function Three(x: char, o1: char, y: char, o2: char, z: char): Expr {
    if GroupsRight(o1, o2) then Bin(o1, Atom(x), Bin(o2, Atom(y), Atom(z)))
    else Bin(o2, Bin(o1, Atom(x), Atom(y)), Atom(z))
  }

  lemma ThreeGroups<V>(a: Arithmetic<V>, x: char, o1: char, y: char, o2: char, z: char)
    requires IsIdent(x) && IsIdent(y) && IsIdent(z) && o1 in "+-*/%=" && o2 in "+-*/%="
    ensures var e := Three(x, o1, y, o2, z); var u, v, w := a.operand(x), a.operand(y), a.operand(z);
            && WellFormed(e) && Text(e) == [x, o1, y, o2, z]
            && Eval(a, e) == if GroupsRight(o1, o2) then a.apply(o1, u, a.apply(o2, v, w))
                             else a.apply(o2, a.apply(o1, u, v), w)
  {
    var e, f := Bin(o1, Atom(x), Atom(y)), Bin(o2, Atom(y), Atom(z));
    assert forall c: char ::
        WellFormed(Atom(c)) == IsIdent(c) && Text(Atom(c)) == [c] && Eval(a, Atom(c)) == a.operand(c);
    assert WellFormed(e) && Text(e) == [x, o1, y] && WellFormed(f) && Text(f) == [y, o2, z];
    assert Eval(a, e) == a.apply(o1, a.operand(x), a.operand(y));
    assert Eval(a, f) == a.apply(o2, a.operand(y), a.operand(z));
  }

  lemma ThreeFits(x: char, o1: char, y: char, o2: char, z: char)
    ensures var e := Three(x, o1, y, o2, z); Height(e) <= 2 && Values(e) <= 3 && HasOperator(e)
  {
    hide GroupsRight;
    var e, f := Bin(o1, Atom(x), Atom(y)), Bin(o2, Atom(y), Atom(z));
    assert forall c: char :: Height(Atom(c)) == 0 && Pending(Atom(c)) == [] && Values(Atom(c)) == 0;
    assert Height(e) == 1 && |Pending(e)| == 1 && Values(e) == 2;
    assert Height(f) == 1 && |Pending(f)| == 1 && Values(f) == 2;
  }

  lemma {:induction false} StripNothing(s: string)
    requires forall k :: 0 <= k < |s| ==> s[k] != ' '
    ensures Strip(s) == s
    decreases |s|
  {
    if s != [] {
      StripNothing(s[1..]);
    }
  }

  /** Three operands: grouped to the right exactly behind =, and behind + or -
      if * / or % follows. */
  lemma ThreeOperands<V>(a: Arithmetic<V>, x: char, o1: char, y: char, o2: char, z: char)
    requires IsIdent(x) && IsIdent(y) && IsIdent(z) && o1 in "+-*/%=" && o2 in "+-*/%="
    ensures var u, v, w := a.operand(x), a.operand(y), a.operand(z);
            Calculate(a, [x, o1, y, o2, z])
            == Some(if GroupsRight(o1, o2) then a.apply(o1, u, a.apply(o2, v, w))
                    else a.apply(o2, a.apply(o1, u, v), w))
  {
    hide Translate, Execute, Three, Strip, Height, Values, HasOperator, WellFormed, Text, Eval, GroupsRight, Postorder;
    var e := Three(x, o1, y, o2, z);
    ThreeGroups(a, x, o1, y, o2, z);
    ThreeFits(x, o1, y, o2, z);
    StripNothing([x, o1, y, o2, z]);
    TranslateIsPostorder(e, [x, o1, y, o2, z]);
    ExecuteTree(a, e);
  }
}
