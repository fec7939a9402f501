/** The operator-precedence stack parser of esprima, with opaque operands, against two independent
    accounts of its result: a declarative one (which trees are right) and a recursive one (split at the
    last operator that binds least). */
module BinaryExpression {
  import opened Basics

  // The values of the tokens that have a precedence, each by its name; every other value is Other.
  datatype Operator =
    | OrOr | AndAnd | Bar | Caret | Amp
    | EqEq | NotEq | EqEqEq | NotEqEq
    | Lt | Gt | LtEq | GtEq | InstanceOf | In
    | Shl | Shr | UShr
    | Plus | Minus
    | Star | Slash | Percent
    | Other(text: string)

  datatype Token = Operand(name: string) | Punctuator(value: Operator) | Keyword(value: Operator) | End

  // `start` is the place of the token where the node begins.
  datatype Expr = Atom(start: nat, name: string) | Binary(start: nat, operator: Operator, left: Expr, right: Expr)

  // ---------------------------------------------------------------- precedence

  function OperatorPrecedence(op: Operator): nat {
    match op
    case OrOr => 1
    case AndAnd => 2
    case Bar => 3
    case Caret => 4
    case Amp => 5
    case EqEq | NotEq | EqEqEq | NotEqEq => 6
    case Lt | Gt | LtEq | GtEq => 7
    case Shl | Shr | UShr => 8
    case Plus | Minus => 9
    case Star | Slash | Percent => 11
    case InstanceOf | In | Other(_) => 0
  }

  function BinaryPrecedence(t: Token, allowIn: bool): nat {
    match t
    case Punctuator(value) => OperatorPrecedence(value)
    case Keyword(value) => if value == InstanceOf || (allowIn && value == In) then 7 else 0
    case _ => 0
  }

  /** The productions of ECMA-262, sections 12.6 to 12.13, from the one that binds least. */
  const PRODUCTIONS: seq<set<Operator>> :=
    [{OrOr}, {AndAnd}, {Bar}, {Caret}, {Amp}, {EqEq, NotEq, EqEqEq, NotEqEq}, {Lt, Gt, LtEq, GtEq, InstanceOf, In},
     {Shl, Shr, UShr}, {Plus, Minus}, {Star, Slash, Percent}]

  function TokenOf(op: Operator): Token {
    if op == InstanceOf || op == In then Keyword(op) else Punctuator(op)
  }

  /** The numbers order the operators as the productions do; where `in` is not allowed it is no operator. */
  lemma PrecedenceFollowsGrammar(a: Operator, b: Operator, j: nat, k: nat, allowIn: bool)
    requires j < |PRODUCTIONS| && k < |PRODUCTIONS| && a in PRODUCTIONS[j] && b in PRODUCTIONS[k]
    requires allowIn || (a != In && b != In)
    ensures 0 < BinaryPrecedence(TokenOf(a), allowIn)
    ensures BinaryPrecedence(TokenOf(a), allowIn) < BinaryPrecedence(TokenOf(b), allowIn) <==> j < k
    ensures BinaryPrecedence(Keyword(In), false) == 0
  {
    Numbered(a, j, allowIn);
    Numbered(b, k, allowIn);
  }

  /** One of the operators of the productions, `in` only where it is allowed. */
  ghost predicate IsOperator(t: Token, allowIn: bool) {
    exists j, op :: 0 <= j < |PRODUCTIONS| && op in PRODUCTIONS[j] && t == TokenOf(op) && (allowIn || op != In)
  }

  function ProductionOf(op: Operator): (j: nat)
    ensures !op.Other? ==> j < |PRODUCTIONS| && op in PRODUCTIONS[j]
  {
    match op
    case OrOr => 0
    case AndAnd => 1
    case Bar => 2
    case Caret => 3
    case Amp => 4
    case EqEq | NotEq | EqEqEq | NotEqEq => 5
    case Lt | Gt | LtEq | GtEq | InstanceOf | In => 6
    case Shl | Shr | UShr => 7
    case Plus | Minus => 8
    case Star | Slash | Percent => 9
    case Other(_) => 10
  }

  /** A token has a precedence exactly when it is such an operator. */
  lemma PrecedenceIffOperator(t: Token, allowIn: bool)
    ensures BinaryPrecedence(t, allowIn) > 0 <==> IsOperator(t, allowIn)
    ensures IsOperator(t, allowIn) ==> t == TokenOf(ValueOf(t))
  {
    if BinaryPrecedence(t, allowIn) > 0 {
      var op := ValueOf(t);
      assert op in PRODUCTIONS[ProductionOf(op)] && t == TokenOf(op);
    }
    if j, op :| 0 <= j < |PRODUCTIONS| && op in PRODUCTIONS[j] && t == TokenOf(op) && (allowIn || op != In) {
      Numbered(op, j, allowIn);
    }
  }

  lemma Numbered(op: Operator, k: nat, allowIn: bool)
    requires k < |PRODUCTIONS| && op in PRODUCTIONS[k] && (allowIn || op != In)
    ensures BinaryPrecedence(TokenOf(op), allowIn) == if k < 9 then k + 1 else 11
  {
  }

  // ---------------------------------------------------------------- which trees are right

  // The operands and the operators of an expression, in order; operator k stands between operand k
  // and operand k + 1. `prec` gives the precedence of operator k, `lo` the place of operand 0.
  datatype Input = Input(terms: seq<Token>, ops: seq<Operator>, prec: seq<nat>, lo: nat) {
    predicate Valid() {
      |terms| == |ops| + 1 && |prec| == |ops|
    }
  }

  /** The number of operators of a tree. */
  function Size(t: Expr): nat {
    match t
    case Atom(_, _) => 0
    case Binary(_, _, l, r) => Size(l) + 1 + Size(r)
  }

  /** Read in order, the tree is operand i, operator i, operand i + 1, ..., and every node starts where
      its leftmost operand starts. */
  predicate Reads(input: Input, t: Expr, i: nat)
    requires input.Valid()
  {
    && i + Size(t) <= |input.ops|
    && t.start == input.lo + 2 * i
    && match t
       case Atom(_, name) => input.terms[i] == Operand(name)
       case Binary(_, op, l, r) =>
         Reads(input, l, i) && op == input.ops[i + Size(l)] && Reads(input, r, i + Size(l) + 1)
  }

  /** A left operand binds at least as tightly as its operator, a right operand more tightly. */
  predicate Grouped(input: Input, t: Expr, i: nat)
    requires input.Valid() && i + Size(t) <= |input.ops|
  {
    t.Binary? ==>
      var m := i + Size(t.left);
      && Grouped(input, t.left, i)
      && Grouped(input, t.right, m + 1)
      && (t.left.Binary? ==> input.prec[i + Size(t.left.left)] >= input.prec[m])
      && (t.right.Binary? ==> input.prec[m + 1 + Size(t.right.left)] > input.prec[m])
  }

  predicate RightTree(input: Input, t: Expr, i: nat, j: nat)
    requires input.Valid()
  {
    Reads(input, t, i) && Grouped(input, t, i) && i + Size(t) == j
  }

  // ---------------------------------------------------------------- the recursive account

  /** Operator m is the last of those from i to j that bind least. */
  predicate LastWeakest(prec: seq<nat>, i: nat, j: nat, m: nat)
    requires j <= |prec|
  {
    && i <= m < j
    && (forall k :: i <= k < m ==> prec[m] <= prec[k])
    && (forall k :: m < k < j ==> prec[m] < prec[k])
  }

  function Weakest(prec: seq<nat>, i: nat, j: nat): (m: nat)
    requires i < j <= |prec|
    ensures i <= m < j
    decreases j
  {
    if i + 1 == j then i
    else
      var m := Weakest(prec, i, j - 1);
      if prec[j - 1] <= prec[m] then j - 1 else m
  }

  lemma {:induction false} WeakestIsLast(prec: seq<nat>, i: nat, j: nat)
    requires i < j <= |prec|
    ensures LastWeakest(prec, i, j, Weakest(prec, i, j))
    decreases j
  {
    if i + 1 < j {
      WeakestIsLast(prec, i, j - 1);
    }
  }

  lemma OneWeakest(prec: seq<nat>, i: nat, j: nat, x: nat)
    requires i < j <= |prec| && LastWeakest(prec, i, j, x)
    ensures Weakest(prec, i, j) == x
  {
    WeakestIsLast(prec, i, j);
  }

  function NameOf(t: Token): string {
    if t.Operand? then t.name else ""
  }

  function Reference(input: Input, i: nat, j: nat): (t: Expr)
    requires input.Valid() && i <= j <= |input.ops|
    decreases j - i
  {
    if i == j then Atom(input.lo + 2 * i, NameOf(input.terms[i]))
    else
      var m := Weakest(input.prec, i, j);
      Binary(input.lo + 2 * i, input.ops[m], Reference(input, i, m), Reference(input, m + 1, j))
  }

  /** The root of a grouped tree is the last of its weakest operators. */
  lemma {:induction false} RootIsWeakest(input: Input, t: Expr, i: nat)
    requires input.Valid() && i + Size(t) <= |input.ops| && Grouped(input, t, i)
    ensures t.Binary? ==> LastWeakest(input.prec, i, i + Size(t), i + Size(t.left))
  {
    if t.Binary? {
      RootIsWeakest(input, t.left, i);
      RootIsWeakest(input, t.right, i + Size(t.left) + 1);
    }
  }

  lemma RootIsSplit(input: Input, t: Expr, i: nat)
    requires input.Valid() && i + Size(t) <= |input.ops| && Grouped(input, t, i) && t.Binary?
    ensures Weakest(input.prec, i, i + Size(t)) == i + Size(t.left)
  {
    RootIsWeakest(input, t, i);
    OneWeakest(input.prec, i, i + Size(t), i + Size(t.left));
  }

  /** The two sides of a right tree are right trees, and its root is where the recursive account splits. */
  lemma RightTreeSides(input: Input, t: Expr, i: nat, j: nat)
    requires input.Valid() && RightTree(input, t, i, j) && t.Binary?
    ensures var m := i + Size(t.left);
            && i <= m < j <= |input.ops| && Weakest(input.prec, i, j) == m
            && RightTree(input, t.left, i, m) && RightTree(input, t.right, m + 1, j)
            && t.start == input.lo + 2 * i && t.operator == input.ops[m]
  {
    RootIsSplit(input, t, i);
  }

  lemma ReferenceSplit(input: Input, i: nat, j: nat)
    requires input.Valid() && i < j <= |input.ops|
    ensures var m := Weakest(input.prec, i, j);
            Reference(input, i, j)
            == Binary(input.lo + 2 * i, input.ops[m], Reference(input, i, m), Reference(input, m + 1, j))
  {
  }

  lemma AtomIsReference(input: Input, t: Expr, i: nat, j: nat)
    requires input.Valid() && RightTree(input, t, i, j) && t.Atom?
    ensures i == j <= |input.ops| && t == Reference(input, i, j)
  {
  }

  lemma BinaryIsReference(input: Input, t: Expr, i: nat, j: nat, m: nat)
    requires input.Valid() && t.Binary? && i <= m < j <= |input.ops| && Weakest(input.prec, i, j) == m
    requires t.start == input.lo + 2 * i && t.operator == input.ops[m]
    requires t.left == Reference(input, i, m) && t.right == Reference(input, m + 1, j)
    ensures t == Reference(input, i, j)
  {
    ReferenceSplit(input, i, j);
  }

  /** A right tree is what the recursive account builds. */
  lemma {:induction false} RightTreeIsReference(input: Input, t: Expr, i: nat, j: nat)
    requires input.Valid() && RightTree(input, t, i, j)
    ensures i <= j <= |input.ops| && t == Reference(input, i, j)
  {
    if t.Atom? {
      AtomIsReference(input, t, i, j);
    } else {
      var m := i + Size(t.left);
      RightTreeSides(input, t, i, j);
      RightTreeIsReference(input, t.left, i, m);
      RightTreeIsReference(input, t.right, m + 1, j);
      BinaryIsReference(input, t, i, j, m);
    }
  }

  /** There is one right tree for a sequence of operands and operators. */
  lemma OneRightTree(input: Input, t: Expr, u: Expr, i: nat, j: nat)
    requires input.Valid() && RightTree(input, t, i, j) && RightTree(input, u, i, j)
    ensures t == u
  {
    RightTreeIsReference(input, t, i, j);
    RightTreeIsReference(input, u, i, j);
  }

  lemma RightTreeOfSides(input: Input, i: nat, j: nat, m: nat, l: Expr, r: Expr)
    requires input.Valid() && j <= |input.ops| && LastWeakest(input.prec, i, j, m)
    requires RightTree(input, l, i, m) && RightTree(input, r, m + 1, j)
    ensures RightTree(input, Binary(input.lo + 2 * i, input.ops[m], l, r), i, j)
  {
  }

  /** The recursive account is a right tree, so there is one for every sequence. */
  lemma {:induction false} ReferenceIsRight(input: Input, i: nat, j: nat)
    requires input.Valid() && i <= j <= |input.ops|
    requires forall k :: i <= k <= j ==> input.terms[k].Operand?
    ensures RightTree(input, Reference(input, i, j), i, j)
    decreases j - i
  {
    if i < j {
      var m := Weakest(input.prec, i, j);
      ReferenceIsRight(input, i, m);
      ReferenceIsRight(input, m + 1, j);
      ReferenceOfSides(input, i, j);
    } else {
      AtomIsRight(input, i);
    }
  }

  lemma AtomIsRight(input: Input, i: nat)
    requires input.Valid() && i <= |input.ops| && input.terms[i].Operand?
    ensures RightTree(input, Reference(input, i, i), i, i)
  {
  }

  lemma ReferenceOfSides(input: Input, i: nat, j: nat)
    requires input.Valid() && i < j <= |input.ops|
    requires var m := Weakest(input.prec, i, j);
             RightTree(input, Reference(input, i, m), i, m) && RightTree(input, Reference(input, m + 1, j), m + 1, j)
    ensures RightTree(input, Reference(input, i, j), i, j)
  {
    var m := Weakest(input.prec, i, j);
    WeakestIsLast(input.prec, i, j);
    RightTreeOfSides(input, i, j, m, Reference(input, i, m), Reference(input, m + 1, j));
    ReferenceSplit(input, i, j);
  }

  // ---------------------------------------------------------------- what the parser is to read

  /** Past the input there is only the end. */
  function TokenAt(tokens: seq<Token>, p: nat): Token {
    if p < |tokens| then tokens[p] else End
  }

  function PrecAt(tokens: seq<Token>, p: nat, allowIn: bool): nat {
    BinaryPrecedence(TokenAt(tokens, p), allowIn)
  }

  function ValueOf(t: Token): Operator {
    if t.Punctuator? || t.Keyword? then t.value else Other("")
  }

  predicate IsView(input: Input, tokens: seq<Token>, p: nat, allowIn: bool) {
    && input.Valid() && |input.ops| == |tokens| && input.lo == p
    && (forall k :: 0 <= k <= |tokens| ==> input.terms[k] == TokenAt(tokens, p + 2 * k))
    && (forall k :: 0 <= k < |tokens| ==> input.ops[k] == ValueOf(TokenAt(tokens, p + 2 * k + 1)))
    && (forall k :: 0 <= k < |tokens| ==> input.prec[k] == PrecAt(tokens, p + 2 * k + 1, allowIn))
  }

  /** The tokens from `p` taken in turn as operands and operators. */
  function View(tokens: seq<Token>, p: nat, allowIn: bool): (input: Input)
    ensures IsView(input, tokens, p, allowIn)
  {
    Input(seq(|tokens| + 1, k requires 0 <= k <= |tokens| => TokenAt(tokens, p + 2 * k)),
          seq(|tokens|, k requires 0 <= k < |tokens| => ValueOf(TokenAt(tokens, p + 2 * k + 1))),
          seq(|tokens|, k requires 0 <= k < |tokens| => PrecAt(tokens, p + 2 * k + 1, allowIn)),
          p)
  }

  /** How many operators follow from operator k on, each with its operand; none if an operand is missing. */
  function Following(input: Input, k: nat): Option<nat>
    requires input.Valid()
    decreases |input.ops| - k
  {
    if k >= |input.ops| || input.prec[k] == 0 then Some(0)
    else if !input.terms[k + 1].Operand? then None
    else AddTo(1, Following(input, k + 1))
  }

  function AddTo(n: nat, more: Option<nat>): Option<nat> {
    match more
    case None => None
    case Some(k) => Some(n + k)
  }

  lemma FollowingStep(input: Input, n: nat)
    requires input.Valid() && n < |input.ops| && input.prec[n] > 0
    ensures AddTo(n, Following(input, n))
         == if input.terms[n + 1].Operand? then AddTo(n + 1, Following(input, n + 1)) else None
  {
  }

  /** The number of operators of the expression. */
  function Operators(input: Input): Option<nat>
    requires input.Valid()
  {
    if input.terms[0].Operand? then Following(input, 0) else None
  }

  // The number of operators as counted from any of them, so that the main loop need not look into the count.
  ghost predicate IsCount(input: Input, count: nat -> Option<nat>)
    requires input.Valid()
  {
    forall k: nat {:trigger Following(input, k)} :: count(k) == AddTo(k, Following(input, k))
  }

  ghost function CountOf(input: Input): nat -> Option<nat>
    requires input.Valid()
  {
    (k: nat) => AddTo(k, Following(input, k))
  }

  lemma CountsOn(input: Input, n: nat, count: nat -> Option<nat>)
    requires input.Valid() && IsCount(input, count) && n < |input.ops| && input.prec[n] > 0
    ensures count(n) == if input.terms[n + 1].Operand? then count(n + 1) else None
  {
    FollowingStep(input, n);
    assert count(n) == AddTo(n, Following(input, n)) && count(n + 1) == AddTo(n + 1, Following(input, n + 1));
  }

  lemma CountEnds(input: Input, n: nat, count: nat -> Option<nat>)
    requires input.Valid() && IsCount(input, count) && n <= |input.ops|
    requires n < |input.ops| ==> input.prec[n] == 0
    ensures count(n) == Some(n)
  {
    assert count(n) == AddTo(n, Following(input, n));
  }

  lemma CountStarts(input: Input)
    requires input.Valid() && 0 < |input.ops| && input.prec[0] > 0
    ensures IsCount(input, CountOf(input))
    ensures input.terms[0].Operand? ==>
              Operators(input) == if input.terms[1].Operand? then CountOf(input)(1) else None
  {
    FollowingStep(input, 0);
    assert AddTo(0, Following(input, 0)) == Following(input, 0);
  }

  // ---------------------------------------------------------------- what is read, in terms of the tokens

  /** The token in the place of operand k of an expression that starts at p. */
  function OperandAt(tokens: seq<Token>, p: nat, k: nat): Token {
    TokenAt(tokens, p + 2 * k)
  }

  function OperatorAt(tokens: seq<Token>, p: nat, k: nat): Token {
    TokenAt(tokens, p + 2 * k + 1)
  }

  /** From p on n operands stand in turn with n operators. */
  ghost predicate Alternates(tokens: seq<Token>, p: nat, n: nat, allowIn: bool) {
    && (forall k :: 0 <= k < n ==> OperandAt(tokens, p, k).Operand?)
    && (forall k :: 0 <= k < n ==> IsOperator(OperatorAt(tokens, p, k), allowIn))
  }

  /** n operators with their operands, and no further operator. */
  ghost predicate IsWhole(tokens: seq<Token>, p: nat, n: nat, allowIn: bool) {
    && Alternates(tokens, p, n, allowIn)
    && OperandAt(tokens, p, n).Operand?
    && !IsOperator(OperatorAt(tokens, p, n), allowIn)
  }

  /** At the start or behind an operator there is no operand. */
  ghost predicate LacksOperand(tokens: seq<Token>, p: nat, allowIn: bool) {
    exists n: nat :: Alternates(tokens, p, n, allowIn) && !OperandAt(tokens, p, n).Operand?
  }

  lemma {:induction false} FollowingMeans(input: Input, k: nat) returns (n: nat)
    requires input.Valid() && k <= |input.ops| && input.terms[k].Operand?
    ensures k + n <= |input.ops|
    ensures forall j :: k <= j < k + n ==> input.prec[j] > 0
    ensures forall j :: k <= j <= k + n ==> input.terms[j].Operand?
    ensures match Following(input, k)
            case Some(m) => n == m && (k + n < |input.ops| ==> input.prec[k + n] == 0)
            case None => k + n < |input.ops| && input.prec[k + n] > 0 && !input.terms[k + n + 1].Operand?
    decreases |input.ops| - k
  {
    if k >= |input.ops| || input.prec[k] == 0 || !input.terms[k + 1].Operand? {
      n := 0;
    } else {
      n := FollowingMeans(input, k + 1);
      n := n + 1;
    }
  }

  lemma ViewTokens(input: Input, tokens: seq<Token>, p: nat, allowIn: bool, k: nat)
    requires IsView(input, tokens, p, allowIn) && k < |input.ops|
    ensures input.prec[k] > 0 <==> IsOperator(OperatorAt(tokens, p, k), allowIn)
    ensures input.prec[k] > 0 ==> OperatorAt(tokens, p, k) == TokenOf(input.ops[k])
  {
    PrecedenceIffOperator(OperatorAt(tokens, p, k), allowIn);
  }

  /** The tokens behind the first n operators and their operands. */
  ghost predicate ReadsTokens(input: Input, tokens: seq<Token>, p: nat, n: nat)
    requires input.Valid()
  {
    && n <= |input.ops|
    && (forall k :: 0 <= k <= n ==> input.terms[k] == OperandAt(tokens, p, k))
    && (forall k :: 0 <= k < n ==> TokenOf(input.ops[k]) == OperatorAt(tokens, p, k))
  }

  lemma AlternatesTo(input: Input, tokens: seq<Token>, p: nat, allowIn: bool, n: nat)
    requires IsView(input, tokens, p, allowIn) && n <= |input.ops|
    requires forall j :: 0 <= j < n ==> input.prec[j] > 0
    requires forall j :: 0 <= j <= n ==> input.terms[j].Operand?
    ensures Alternates(tokens, p, n, allowIn) && OperandAt(tokens, p, n).Operand? && ReadsTokens(input, tokens, p, n)
  {
    assert forall k :: 0 <= k <= n ==> OperandAt(tokens, p, k) == input.terms[k];
    forall k | 0 <= k < n
      ensures IsOperator(OperatorAt(tokens, p, k), allowIn) && TokenOf(input.ops[k]) == OperatorAt(tokens, p, k)
    {
      ViewTokens(input, tokens, p, allowIn, k);
    }
  }

  lemma EndIsNone(tokens: seq<Token>, p: nat, allowIn: bool)
    ensures !IsOperator(OperatorAt(tokens, p, |tokens|), allowIn)
  {
    PrecedenceIffOperator(End, allowIn);
  }

  lemma AlternatesMore(tokens: seq<Token>, p: nat, n: nat, allowIn: bool)
    requires Alternates(tokens, p, n, allowIn) && OperandAt(tokens, p, n).Operand?
    requires IsOperator(OperatorAt(tokens, p, n), allowIn) && !OperandAt(tokens, p, n + 1).Operand?
    ensures LacksOperand(tokens, p, allowIn)
  {
    assert Alternates(tokens, p, n + 1, allowIn);
  }

  /** The count of the operators is that of a whole expression, and there is none exactly when an operand lacks. */
  lemma OperatorsMean(input: Input, tokens: seq<Token>, p: nat, allowIn: bool)
    requires IsView(input, tokens, p, allowIn)
    ensures match Operators(input)
            case Some(n) => IsWhole(tokens, p, n, allowIn) && ReadsTokens(input, tokens, p, n)
            case None => LacksOperand(tokens, p, allowIn)
  {
    assert input.terms[0] == OperandAt(tokens, p, 0);
    if !input.terms[0].Operand? {
      assert Alternates(tokens, p, 0, allowIn);
    } else {
      var n := FollowingMeans(input, 0);
      AlternatesTo(input, tokens, p, allowIn, n);
      if n < |input.ops| {
        ViewTokens(input, tokens, p, allowIn, n);
        assert input.terms[n + 1] == OperandAt(tokens, p, n + 1);
        if Operators(input).None? {
          AlternatesMore(tokens, p, n, allowIn);
        }
      } else {
        EndIsNone(tokens, p, allowIn);
      }
    }
  }

  /** A whole expression lacks no operand. */
  lemma WholeLacksNone(tokens: seq<Token>, p: nat, m: nat, allowIn: bool)
    requires IsWhole(tokens, p, m, allowIn)
    ensures !LacksOperand(tokens, p, allowIn)
  {
    forall n: nat | Alternates(tokens, p, n, allowIn) ensures n <= m && OperandAt(tokens, p, n).Operand? {
    }
  }

  lemma OperatorsMeanIff(input: Input, tokens: seq<Token>, p: nat, allowIn: bool)
    requires IsView(input, tokens, p, allowIn)
    ensures Operators(input).None? <==> LacksOperand(tokens, p, allowIn)
    ensures Operators(input).Some? ==>
              var n := Operators(input).value;
              IsWhole(tokens, p, n, allowIn) && ReadsTokens(input, tokens, p, n) && p + 2 * n < |tokens|
  {
    OperatorsMean(input, tokens, p, allowIn);
    if Operators(input).Some? {
      WholeLacksNone(tokens, p, Operators(input).value, allowIn);
    }
  }

  // ---------------------------------------------------------------- the stack

  // The stack of the parser holds nodes and operator tokens in turn, a token with its `prec` field.
  datatype Entry = Node(node: Expr) | Op(value: Operator, prec: nat)

  /** The stack in terms of its nodes and of the numbers of the operators between them. */
  function Weave(input: Input, nodes: seq<Expr>, at: seq<nat>): (stack: seq<Entry>)
    requires input.Valid() && |nodes| == |at| + 1
    requires forall k :: 0 <= k < |at| ==> at[k] < |input.ops|
    ensures |stack| == 2 * |nodes| - 1
  {
    if at == [] then [Node(nodes[0])]
    else
      var k := |at| - 1;
      Weave(input, nodes[..k + 1], at[..k]) + [Op(input.ops[at[k]], input.prec[at[k]]), Node(nodes[k + 1])]
  }

  /** Whether the root of `t`, which begins at operand i, may stand left of operator m. */
  predicate MayBeLeft(input: Input, t: Expr, i: nat, m: nat)
    requires input.Valid() && i + Size(t) <= |input.ops| && m < |input.ops|
  {
    t.Binary? ==> input.prec[i + Size(t.left)] >= input.prec[m]
  }

  predicate MayBeRight(input: Input, t: Expr, i: nat, m: nat)
    requires input.Valid() && i + Size(t) <= |input.ops| && m < |input.ops|
  {
    t.Binary? ==> input.prec[i + Size(t.left)] > input.prec[m]
  }

  function Low(at: seq<nat>): nat {
    if at == [] then 0 else at[|at| - 1] + 1
  }

  /** The nodes are right trees that together read the first n operators; the operators between them
      bind more and more tightly, and each node suits the operators on its two sides. */
  predicate StackOk(input: Input, nodes: seq<Expr>, at: seq<nat>, n: nat)
    requires input.Valid()
  {
    && |nodes| == |at| + 1
    && RightTree(input, nodes[|at|], Low(at), n)
    && n <= |input.ops|
    && (at != [] ==>
          var k := |at| - 1;
          && at[k] < |input.ops|
          && StackOk(input, nodes[..k + 1], at[..k], at[k])
          && MayBeRight(input, nodes[k + 1], at[k] + 1, at[k])
          && MayBeLeft(input, nodes[k], Low(at[..k]), at[k])
          && (k > 0 ==> input.prec[at[k - 1]] < input.prec[at[k]]))
  }

  lemma {:induction false} StackBounds(input: Input, nodes: seq<Expr>, at: seq<nat>, n: nat)
    requires input.Valid() && StackOk(input, nodes, at, n)
    ensures forall k :: 0 <= k < |at| ==> at[k] < n
  {
    if at != [] {
      StackBounds(input, nodes[..|at|], at[..|at| - 1], at[|at| - 1]);
    }
  }

  /** A fresh operand goes on top, after an operator that binds more tightly than those below. */
  lemma Push(input: Input, nodes: seq<Expr>, at: seq<nat>, n: nat, t: Expr)
    requires input.Valid() && StackOk(input, nodes, at, n) && n < |input.ops|
    requires MayBeLeft(input, nodes[|at|], Low(at), n)
    requires at != [] ==> input.prec[at[|at| - 1]] < input.prec[n]
    requires t.Atom? && t.start == input.lo + 2 * (n + 1) && input.terms[n + 1] == Operand(t.name)
    ensures StackOk(input, nodes + [t], at + [n], n + 1)
  {
    assert (nodes + [t])[..|at| + 1] == nodes;
    assert (at + [n])[..|at|] == at;
  }

  /** The two top nodes become one. */
  function Joined(input: Input, nodes: seq<Expr>, at: seq<nat>): Expr
    requires input.Valid() && |nodes| == |at| + 1 && at != [] && at[|at| - 1] < |input.ops|
  {
    var k := |at| - 1;
    Binary(nodes[k].start, input.ops[at[k]], nodes[k], nodes[k + 1])
  }

  lemma JoinedIsRight(input: Input, nodes: seq<Expr>, at: seq<nat>, n: nat)
    requires input.Valid() && StackOk(input, nodes, at, n) && at != []
    ensures var k, t := |at| - 1, Joined(input, nodes, at);
            RightTree(input, t, Low(at[..k]), n) && Low(at[..k]) + Size(t.left) == at[k]
  {
    var k := |at| - 1;
    assert StackOk(input, nodes[..k + 1], at[..k], at[k]);
  }

  /** Another right tree in the place of the top node. */
  lemma ReplaceTop(input: Input, nodes: seq<Expr>, at: seq<nat>, m: nat, t: Expr, n: nat)
    requires input.Valid() && StackOk(input, nodes, at, m)
    requires RightTree(input, t, Low(at), n) && n <= |input.ops|
    requires at != [] ==> at[|at| - 1] < |input.ops| && MayBeRight(input, t, at[|at| - 1] + 1, at[|at| - 1])
    ensures StackOk(input, nodes[..|at|] + [t], at, n)
  {
    var nodes' := nodes[..|at|] + [t];
    if at != [] {
      assert nodes'[..|at|] == nodes[..|at|];
    }
  }

  lemma Reduce(input: Input, nodes: seq<Expr>, at: seq<nat>, n: nat)
    requires input.Valid() && StackOk(input, nodes, at, n) && at != []
    ensures var k, t := |at| - 1, Joined(input, nodes, at);
            && StackOk(input, nodes[..k] + [t], at[..k], n)
            && Low(at[..k]) + Size(t.left) == at[k]
  {
    var k, t := |at| - 1, Joined(input, nodes, at);
    JoinedIsRight(input, nodes, at, n);
    RootBindsMore(input, nodes, at, n);
    assert nodes[..k + 1][..k] == nodes[..k];
    ReplaceTop(input, nodes[..k + 1], at[..k], at[k], t, n);
  }

  lemma RootBindsMore(input: Input, nodes: seq<Expr>, at: seq<nat>, n: nat)
    requires input.Valid() && StackOk(input, nodes, at, n) && at != []
    requires Low(at[..|at| - 1]) + Size(nodes[|at| - 1]) == at[|at| - 1]
    ensures var k, t := |at| - 1, Joined(input, nodes, at);
            && n <= |input.ops| && StackOk(input, nodes[..k + 1], at[..k], at[k])
            && (k > 0 ==> at[k - 1] < |input.ops| && at[k - 1] + 1 + Size(t) <= |input.ops|
                          && MayBeRight(input, t, at[k - 1] + 1, at[k - 1]))
  {
    JoinedIsRight(input, nodes, at, n);
  }

  /** Popping the top operator and node off the stack. */
  lemma WeaveTop(input: Input, nodes: seq<Expr>, at: seq<nat>)
    requires input.Valid() && |nodes| == |at| + 1
    requires forall k :: 0 <= k < |at| ==> at[k] < |input.ops|
    ensures var stack, h := Weave(input, nodes, at), 2 * |at|;
            && stack[h] == Node(nodes[|at|])
            && (at != [] ==>
                  var k := |at| - 1;
                  && stack[h - 1] == Op(input.ops[at[k]], input.prec[at[k]])
                  && stack[h - 2] == Node(nodes[k])
                  && stack[..h - 1] == Weave(input, nodes[..k + 1], at[..k]))
  {
    if |at| > 0 {
      WeaveTop(input, nodes[..|at|], at[..|at| - 1]);
    }
  }

  /** Only the top node of the stack differs. */
  lemma WeaveSwap(input: Input, nodes: seq<Expr>, at: seq<nat>, t: Expr)
    requires input.Valid() && |nodes| == |at| + 1
    requires forall k :: 0 <= k < |at| ==> at[k] < |input.ops|
    ensures Weave(input, nodes[..|at|] + [t], at) == Weave(input, nodes, at)[..2 * |at|] + [Node(t)]
  {
    if at != [] {
      var k := |at| - 1;
      assert (nodes[..k + 1] + [t])[..k + 1] == nodes[..k + 1];
    }
  }

  /** The stack and the marker stack hold the nodes, and one marker a node: where it starts. */
  predicate Holds(input: Input, stack: seq<Entry>, markers: seq<nat>, nodes: seq<Expr>, at: seq<nat>, n: nat)
    requires input.Valid()
  {
    && StackOk(input, nodes, at, n)
    && (forall k :: 0 <= k < |at| ==> at[k] < |input.ops|)
    && stack == Weave(input, nodes, at)
    && |markers| == |nodes|
    && (forall k :: 0 <= k < |nodes| ==> markers[k] == nodes[k].start)
  }

  /** The number of operators on the stack, and what its top three entries are. */
  lemma HeldTop(input: Input, stack: seq<Entry>, markers: seq<nat>, nodes: seq<Expr>, at: seq<nat>, n: nat)
    requires input.Valid() && Holds(input, stack, markers, nodes, at, n)
    ensures |stack| == 2 * |at| + 1 && |markers| == |at| + 1
    ensures stack[2 * |at|] == Node(nodes[|at|])
    ensures at != [] ==> stack[2 * |at| - 1] == Op(input.ops[at[|at| - 1]], input.prec[at[|at| - 1]])
    ensures at != [] ==> stack[2 * |at| - 2] == Node(nodes[|at| - 1])
  {
    WeaveTop(input, nodes, at);
  }

  /** What the stack and the markers are after the two top nodes were joined. */
  lemma ReduceHolds(input: Input, stack: seq<Entry>, markers: seq<nat>, nodes: seq<Expr>, at: seq<nat>, n: nat,
                    t: Expr)
    returns (nodes': seq<Expr>, at': seq<nat>)
    requires input.Valid() && Holds(input, stack, markers, nodes, at, n) && at != []
    requires var h := 2 * |at|;
             |stack| == h + 1 && |markers| == |at| + 1 && stack[h].Node? && stack[h - 1].Op? && stack[h - 2].Node?
             && t == Binary(markers[|at| - 1], stack[h - 1].value, stack[h - 2].node, stack[h].node)
    ensures Holds(input, stack[..2 * |at| - 2] + [Node(t)], markers[..|at|], nodes', at', n)
    ensures at' == at[..|at| - 1] && nodes'[|at'|] == t
    ensures MayBeLeft(input, t, Low(at'), at[|at| - 1])
  {
    var k := |at| - 1;
    HeldTop(input, stack, markers, nodes, at, n);
    assert t == Joined(input, nodes, at);
    Reduce(input, nodes, at, n);
    WeaveTop(input, nodes, at);
    nodes', at' := nodes[..k] + [t], at[..k];
    WeaveSwap(input, nodes[..k + 1], at', t);
    assert nodes[..k + 1][..k] == nodes[..k];
    assert stack[..2 * k + 1][..2 * k] == stack[..2 * k];
  }

  lemma PushHolds(input: Input, stack: seq<Entry>, markers: seq<nat>, nodes: seq<Expr>, at: seq<nat>, n: nat, t: Expr)
    requires input.Valid() && Holds(input, stack, markers, nodes, at, n) && n < |input.ops|
    requires MayBeLeft(input, nodes[|at|], Low(at), n)
    requires at != [] ==> input.prec[at[|at| - 1]] < input.prec[n]
    requires t.Atom? && t.start == input.lo + 2 * (n + 1) && input.terms[n + 1] == Operand(t.name)
    ensures Holds(input, stack + [Op(input.ops[n], input.prec[n]), Node(t)], markers + [t.start],
                  nodes + [t], at + [n], n + 1)
  {
    Push(input, nodes, at, n, t);
    WeavePush(input, nodes, at, n, t);
    StackBounds(input, nodes + [t], at + [n], n + 1);
    assert t.start == (nodes + [t])[|nodes|].start;
  }

  lemma WeavePush(input: Input, nodes: seq<Expr>, at: seq<nat>, n: nat, t: Expr)
    requires input.Valid() && |nodes| == |at| + 1 && n < |input.ops|
    requires forall k :: 0 <= k < |at| ==> at[k] < |input.ops|
    ensures Weave(input, nodes + [t], at + [n])
         == Weave(input, nodes, at) + [Op(input.ops[n], input.prec[n]), Node(t)]
  {
    assert (nodes + [t])[..|at| + 1] == nodes;
    assert (at + [n])[..|at|] == at;
  }

  lemma Three<T>(a: T, b: T, c: T)
    ensures [a] + [b, c] == [a, b, c]
  {
  }

  lemma Two<T>(a: T, b: T)
    ensures [a] + [b] == [a, b] && [] + [a] == [a]
  {
  }

  lemma HoldsFirst(input: Input, t: Expr)
    requires input.Valid() && t.Atom? && t.start == input.lo && input.terms[0] == Operand(t.name)
    ensures Holds(input, [Node(t)], [t.start], [t], [], 0)
  {
  }

  lemma FirstTwo(input: Input, t: Expr, o: Expr)
    requires input.Valid() && 0 < |input.ops|
    requires t.Atom? && t.start == input.lo && input.terms[0] == Operand(t.name)
    requires o.Atom? && o.start == input.lo + 2 && input.terms[1] == Operand(o.name)
    ensures Holds(input, [Node(t), Op(input.ops[0], input.prec[0]), Node(o)], [t.start, o.start], [t, o], [0], 1)
  {
    HoldsFirst(input, t);
    PushHolds(input, [Node(t)], [t.start], [t], [], 0, o);
    Three(Node(t), Op(input.ops[0], input.prec[0]), Node(o));
    Two(t.start, o.start);
    Two(t, o);
    Two(0 as nat, 0 as nat);
  }

  // ---------------------------------------------------------------- the parser

  class Parser {
    const tokens: seq<Token>
    const allowIn: bool
    var pos: nat

    constructor (tokens: seq<Token>, allowIn: bool)
      ensures this.tokens == tokens && this.allowIn == allowIn && pos == 0
    {
      this.tokens, this.allowIn, pos := tokens, allowIn, 0;
    }

    function Lookahead(): Token
      reads this
    {
      TokenAt(tokens, pos)
    }

    method NextToken() returns (t: Token)
      modifies this
      ensures t == old(Lookahead()) && pos == old(pos) + 1
    {
      t := Lookahead();
      pos := pos + 1;
    }

    /** The operand parser: one token here, and none is an unexpected-token error. */
    method ParseOperand() returns (r: Option<Expr>)
      modifies this
      ensures old(Lookahead()).Operand? ==> r == Some(Atom(old(pos), old(Lookahead()).name)) && pos == old(pos) + 1
      ensures !old(Lookahead()).Operand? ==> r == None && pos == old(pos)
    {
      var t := Lookahead();
      if t.Operand? {
        r := Some(Atom(pos, t.name));
        pos := pos + 1;
      } else {
        r := None;
      }
    }

    /** Joins the nodes on top while their operator binds at least as tightly as the next one. */
    method ReduceWhile(stack0: seq<Entry>, markers0: seq<nat>, i: nat,
                       ghost input: Input, ghost nodes0: seq<Expr>, ghost at0: seq<nat>, ghost n: nat)
      returns (stack: seq<Entry>, markers: seq<nat>, ghost nodes: seq<Expr>, ghost at: seq<nat>)
      requires input.Valid() && Holds(input, stack0, markers0, nodes0, at0, n)
      requires n < |input.ops| && input.prec[n] == i && nodes0[|at0|].Atom?
      ensures Holds(input, stack, markers, nodes, at, n)
      ensures MayBeLeft(input, nodes[|at|], Low(at), n)
      ensures at != [] ==> input.prec[at[|at| - 1]] < i
    {
      stack, markers, nodes, at := stack0, markers0, nodes0, at0;
      HeldTop(input, stack, markers, nodes, at, n);
      while |stack| > 2 && i <= stack[|stack| - 2].prec
        invariant Holds(input, stack, markers, nodes, at, n)
        invariant |stack| == 2 * |at| + 1 && |markers| == |at| + 1
        invariant |stack| > 2 ==> stack[|stack| - 2] == Op(input.ops[at[|at| - 1]], input.prec[at[|at| - 1]])
        invariant MayBeLeft(input, nodes[|at|], Low(at), n)
      {
        HeldTop(input, stack, markers, nodes, at, n);
        var h := |stack| - 1;
        var t := Binary(markers[|markers| - 2], stack[h - 1].value, stack[h - 2].node, stack[h].node);
        nodes, at := ReduceHolds(input, stack, markers, nodes, at, n, t);
        stack, markers := stack[..h - 2] + [Node(t)], markers[..|markers| - 1];
        HeldTop(input, stack, markers, nodes, at, n);
      }
    }

    /** Joins the node t, which stands for the top of the stack from h on, to the entries below it. */
    method FoldOne(stack: seq<Entry>, h: nat, t: Expr, markers: seq<nat>,
                   ghost input: Input, ghost nodes: seq<Expr>, ghost at: seq<nat>, ghost n: nat)
      returns (joined: Expr, ghost nodes': seq<Expr>, ghost at': seq<nat>)
      requires input.Valid() && 1 < h == 2 * |at| < |stack| && |markers| == |at|
      requires Holds(input, stack[..h] + [Node(t)], markers + [t.start], nodes, at, n)
      ensures h - 2 == 2 * |at'| && |at'| == |at| - 1
      ensures Holds(input, stack[..h - 2] + [Node(joined)], markers[..|markers| - 1] + [joined.start], nodes', at', n)
    {
      ghost var whole, marks := stack[..h] + [Node(t)], markers + [t.start];
      HeldTop(input, whole, marks, nodes, at, n);
      assert whole[h - 1] == stack[h - 1] && whole[h - 2] == stack[h - 2];
      joined := Binary(markers[|markers| - 1], stack[h - 1].value, stack[h - 2].node, t);
      nodes', at' := ReduceHolds(input, whole, marks, nodes, at, n, joined);
      assert whole[..h - 2] == stack[..h - 2];
      assert marks[..|markers|] == markers[..|markers| - 1] + [joined.start];
    }

    /** Joins what is left on the stack from the top down. */
    method Fold(stack: seq<Entry>, markers0: seq<nat>,
                ghost input: Input, ghost nodes0: seq<Expr>, ghost at0: seq<nat>, ghost n: nat)
      returns (t: Expr)
      requires input.Valid() && Holds(input, stack, markers0, nodes0, at0, n)
      ensures RightTree(input, t, 0, n)
    {
      HeldTop(input, stack, markers0, nodes0, at0, n);
      var h := |stack| - 1;
      t := stack[h].node;
      var markers := markers0[..|markers0| - 1];
      ghost var nodes: seq<Expr>, at: seq<nat> := nodes0, at0;
      assert stack[..h] + [Node(t)] == stack && markers + [t.start] == markers0;
      while h > 1
        invariant h == 2 * |at| < |stack| && |markers| == |at|
        invariant Holds(input, stack[..h] + [Node(t)], markers + [t.start], nodes, at, n)
      {
        t, nodes, at := FoldOne(stack, h, t, markers, input, nodes, at, n);
        markers, h := markers[..|markers| - 1], h - 2;
      }
      HeldTop(input, stack[..h] + [Node(t)], markers + [t.start], nodes, at, n);
    }

    /** One round of the main loop: reduce, then shift the operator and its operand. */
    method Shift(stack0: seq<Entry>, markers0: seq<nat>, i: nat,
                 ghost input: Input, ghost nodes0: seq<Expr>, ghost at0: seq<nat>, ghost n: nat)
      returns (ok: bool, stack: seq<Entry>, markers: seq<nat>, ghost nodes: seq<Expr>, ghost at: seq<nat>)
      requires input.Valid() && Holds(input, stack0, markers0, nodes0, at0, n) && nodes0[|at0|].Atom?
      requires n < |input.ops| && input.prec[n] == i && input.ops[n] == ValueOf(Lookahead())
      requires pos + 1 == input.lo + 2 * (n + 1) && input.terms[n + 1] == TokenAt(tokens, pos + 1)
      modifies this
      ensures ok == TokenAt(tokens, old(pos) + 1).Operand?
      ensures ok ==> pos == old(pos) + 2 && Holds(input, stack, markers, nodes, at, n + 1) && nodes[|at|].Atom?
    {
      stack, markers, nodes, at := ReduceWhile(stack0, markers0, i, input, nodes0, at0, n);
      var r := NextToken();
      var start := pos;
      var o := ParseOperand();
      ok := o.Some?;
      if ok {
        PushHolds(input, stack, markers, nodes, at, n, o.value);
        markers := markers + [start];
        stack := stack + [Op(ValueOf(r), i), Node(o.value)];
        nodes, at := nodes + [o.value], at + [n];
      }
    }

    /** The rest of the parse after the first operand, when an operator follows it. */
    method ParseOperators(e: nat, first: Expr, prec: nat, ghost input: Input) returns (r: Option<Expr>)
      requires IsView(input, tokens, e, allowIn) && pos == e + 1
      requires first.Atom? && first.start == e && input.terms[0] == Operand(first.name)
      requires |input.ops| > 0 && prec == input.prec[0] > 0
      modifies this
      ensures var n := Operators(input);
              && (r.Some? <==> n.Some?)
              && (n.Some? ==> n.value <= |input.ops| && pos == e + 2 * n.value + 1
                              && RightTree(input, r.value, 0, n.value))
    {
      var i := prec;
      var r0 := NextToken();
      var markers := [e, pos];
      var o := ParseOperand();
      CountStarts(input);
      if o.None? { return None; }
      var stack := [Node(first), Op(ValueOf(r0), i), Node(o.value)];
      FirstTwo(input, first, o.value);
      i := LookaheadPrecedence(input, 1);
      r := ParseMore(stack, markers, i, input, [first, o.value], [0], 1, CountOf(input));
    }

    /** The parser stands before operator n, or before a token that is none, with precedence i. */
    ghost predicate Before(input: Input, n: nat, i: nat)
      reads this
    {
      && IsView(input, tokens, input.lo, allowIn) && n <= |input.ops| && pos == input.lo + 2 * n + 1
      && i == (if n < |input.ops| then input.prec[n] else 0)
      && (n < |input.ops| ==>
            input.ops[n] == ValueOf(Lookahead()) && input.terms[n + 1] == TokenAt(tokens, pos + 1))
    }

    method ShiftNext(stack0: seq<Entry>, markers0: seq<nat>, i: nat,
                     ghost input: Input, ghost nodes0: seq<Expr>, ghost at0: seq<nat>, ghost n: nat)
      returns (ok: bool, stack: seq<Entry>, markers: seq<nat>, ghost nodes: seq<Expr>, ghost at: seq<nat>)
      requires Before(input, n, i) && i > 0
      requires Holds(input, stack0, markers0, nodes0, at0, n) && nodes0[|at0|].Atom?
      modifies this
      ensures n < |input.ops| && input.prec[n] > 0 && ok == input.terms[n + 1].Operand?
      ensures ok ==> pos == input.lo + 2 * (n + 1) + 1 && Holds(input, stack, markers, nodes, at, n + 1) && nodes[|at|].Atom?
    {
      ok, stack, markers, nodes, at := Shift(stack0, markers0, i, input, nodes0, at0, n);
    }

    /** One round of the main loop, with the operators counted. */
    method Round(stack0: seq<Entry>, markers0: seq<nat>, i0: nat, ghost input: Input, ghost nodes0: seq<Expr>,
                 ghost at0: seq<nat>, ghost n: nat, ghost count: nat -> Option<nat>)
      returns (ok: bool, stack: seq<Entry>, markers: seq<nat>, i: nat, ghost nodes: seq<Expr>, ghost at: seq<nat>)
      requires Before(input, n, i0) && i0 > 0 && IsCount(input, count)
      requires Holds(input, stack0, markers0, nodes0, at0, n) && nodes0[|at0|].Atom?
      modifies this
      ensures ok ==> n < |input.ops| && Before(input, n + 1, i) && count(n + 1) == count(n)
      ensures ok ==> Holds(input, stack, markers, nodes, at, n + 1) && nodes[|at|].Atom?
      ensures !ok ==> count(n) == None
    {
      i := 0;
      ok, stack, markers, nodes, at := ShiftNext(stack0, markers0, i0, input, nodes0, at0, n);
      CountsOn(input, n, count);
      if ok {
        i := LookaheadPrecedence(input, n + 1);
      }
    }

    /** The main loop, once two operands are on the stack, and the fold after it. */
    method ParseMore(stack0: seq<Entry>, markers0: seq<nat>, i0: nat,
                     ghost input: Input, ghost nodes0: seq<Expr>, ghost at0: seq<nat>, ghost n0: nat,
                     ghost count: nat -> Option<nat>)
      returns (r: Option<Expr>)
      requires Before(input, n0, i0) && IsCount(input, count)
      requires Holds(input, stack0, markers0, nodes0, at0, n0) && nodes0[|at0|].Atom?
      modifies this
      ensures var n := count(n0);
              && (r.Some? <==> n.Some?)
              && (n.Some? ==> n.value <= |input.ops| && pos == input.lo + 2 * n.value + 1
                              && RightTree(input, r.value, 0, n.value))
    {
      var stack, markers, i := stack0, markers0, i0;
      ghost var nodes, at, n := nodes0, at0, n0;
      while i > 0
        invariant Before(input, n, i) && count(n) == count(n0)
        invariant Holds(input, stack, markers, nodes, at, n) && nodes[|at|].Atom?
        decreases |input.ops| - n
      {
        var ok: bool;
        ok, stack, markers, i, nodes, at := Round(stack, markers, i, input, nodes, at, n, count);
        if !ok { return None; }
        n := n + 1;
      }
      CountEnds(input, n, count);
      var t := Fold(stack, markers, input, nodes, at, n);
      return Some(t);
    }

    method LookaheadPrecedence(ghost input: Input, ghost n: nat) returns (i: nat)
      requires IsView(input, tokens, input.lo, allowIn) && n <= |input.ops| && pos == input.lo + 2 * n + 1
      ensures Before(input, n, i)
    {
      i := BinaryPrecedence(Lookahead(), allowIn);
    }

    /** The parse in terms of the numbered operands and operators. */
    method ParseCounted(ghost input: Input) returns (r: Option<Expr>)
      requires IsView(input, tokens, pos, allowIn)
      modifies this
      ensures var n := Operators(input);
              && (r.Some? <==> n.Some?)
              && (n.Some? ==>
                    n.value <= |input.ops| && pos == old(pos) + 2 * n.value + 1 && RightTree(input, r.value, 0, n.value))
    {
      var e := pos;
      var first := ParseOperand();
      if first.None? { return None; }
      var i := LookaheadPrecedence(input, 0);
      if i > 0 {
        r := ParseOperators(e, first.value, i, input);
      } else {
        r := first;
      }
    }

    /** The longest run of operands with operators between them is consumed: the tokens taken are operands and
        operators in turn, and the token the parser stops before is no operator. The tree is the right one. The
        parse fails exactly when an operand is missing. */
    method ParseBinaryExpression() returns (r: Option<Expr>)
      modifies this
      ensures r.None? <==> LacksOperand(tokens, old(pos), allowIn)
      ensures r.Some? ==>
                var n, input := Size(r.value), View(tokens, old(pos), allowIn);
                && pos == old(pos) + 2 * n + 1 <= |tokens|
                && IsWhole(tokens, old(pos), n, allowIn) && ReadsTokens(input, tokens, old(pos), n)
                && RightTree(input, r.value, 0, n) && r.value == Reference(input, 0, n)
    {
      ghost var input := View(tokens, pos, allowIn);
      OperatorsMeanIff(input, tokens, pos, allowIn);
      r := ParseCounted(input);
      if r.Some? {
        RightTreeIsReference(input, r.value, 0, Operators(input).value);
      }
    }
  }
}
