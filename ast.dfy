// The abstract syntax tree of src/ast.rs. Boxes and vectors of boxes
// become plain fields and sequences; leaf expressions keep the Token the
// parser put in them, whatever its variant.
module Ast {
  import opened Wrappers
  import Tokens

  datatype Statement =
    | Assignment(target: Expression, value: Expression)
    | If(condition: Expression, body: Statement, elifs: seq<Statement>, orElse: Option<Statement>)
    | ElIf(condition: Expression, body: Statement)
    | While(condition: Expression, body: Statement)
    | Block(statements: seq<Statement>)
    | Break

  datatype Expression =
    | Identifier(token: Tokens.Token)
    | Integer(token: Tokens.Token)
    | Float(token: Tokens.Token)
    | Multiply(left: Expression, right: Expression)
    | Divide(left: Expression, right: Expression)
    | Add(left: Expression, right: Expression)
    | Subtract(left: Expression, right: Expression)
    | Boolean(token: Tokens.Token)
    | And(left: Expression, right: Expression)
    | Or(left: Expression, right: Expression)
    | Equal(left: Expression, right: Expression)
    | NotEqual(left: Expression, right: Expression)
    | Negate(operand: Expression)
    | LT(left: Expression, right: Expression)
    | GT(left: Expression, right: Expression)
    | LTE(left: Expression, right: Expression)
    | GTE(left: Expression, right: Expression)

  // One statement or one expression.
  datatype Node = Stmt(statement: Statement) | Expr(expression: Expression)

  predicate IsLeaf(e: Expression)
  {
    e.Identifier? || e.Integer? || e.Float? || e.Boolean?
  }

  predicate IsBinary(e: Expression)
  {
    !IsLeaf(e) && !e.Negate?
  }

  // ---------------------------------------------------------------------
  // Sizes: the number of nodes in a tree, the tree itself included

  function ExpressionSize(e: Expression): (r: nat)
    ensures r >= 1
  {
    if IsLeaf(e) then 1
    else if e.Negate? then 1 + ExpressionSize(e.operand)
    else 1 + ExpressionSize(e.left) + ExpressionSize(e.right)
  }

  function StatementSize(s: Statement): (r: nat)
    ensures r >= 1
  {
    match s
    case Assignment(target, value) => 1 + ExpressionSize(target) + ExpressionSize(value)
    case If(condition, body, elifs, orElse) =>
      1 + ExpressionSize(condition) + StatementSize(body) + StatementsSize(elifs)
        + (if orElse.Some? then StatementSize(orElse.value) else 0)
    case ElIf(condition, body) => 1 + ExpressionSize(condition) + StatementSize(body)
    case While(condition, body) => 1 + ExpressionSize(condition) + StatementSize(body)
    case Block(statements) => 1 + StatementsSize(statements)
    case Break => 1
  }

  function StatementsSize(ss: seq<Statement>): nat
  {
    if |ss| == 0 then 0 else StatementsSize(ss[..|ss| - 1]) + StatementSize(ss[|ss| - 1])
  }

  function Size(n: Node): (r: nat)
    ensures r >= 1
  {
    match n
    case Stmt(s) => StatementSize(s)
    case Expr(e) => ExpressionSize(e)
  }

  function SizeOfAll(ns: seq<Node>): nat
  {
    if |ns| == 0 then 0 else SizeOfAll(ns[..|ns| - 1]) + Size(ns[|ns| - 1])
  }

  // ---------------------------------------------------------------------
  // Children, in the order the fields are declared

  function Statements(ss: seq<Statement>): (ns: seq<Node>)
    ensures |ns| == |ss| && forall i :: 0 <= i < |ss| ==> ns[i] == Stmt(ss[i])
  {
    seq(|ss|, i requires 0 <= i < |ss| => Stmt(ss[i]))
  }

  function Children(n: Node): seq<Node>
  {
    match n
    case Stmt(s) => (
      match s
      case Assignment(target, value) => [Expr(target), Expr(value)]
      case If(condition, body, elifs, orElse) =>
        [Expr(condition), Stmt(body)] + Statements(elifs) + (if orElse.Some? then [Stmt(orElse.value)] else [])
      case ElIf(condition, body) => [Expr(condition), Stmt(body)]
      case While(condition, body) => [Expr(condition), Stmt(body)]
      case Block(statements) => Statements(statements)
      case Break => [])
    case Expr(e) =>
      if IsLeaf(e) then []
      else if e.Negate? then [Expr(e.operand)]
      else [Expr(e.left), Expr(e.right)]
  }

  // The children of an expression are expressions: none for the four
  // leaves, one for Negate, two (left, then right) for every other one.
  lemma ExpressionArity(e: Expression)
    ensures |Children(Expr(e))| == 0 <==> IsLeaf(e)
    ensures |Children(Expr(e))| == 1 <==> e.Negate?
    ensures |Children(Expr(e))| == 2 <==> IsBinary(e)
    ensures forall c :: c in Children(Expr(e)) ==> c.Expr?
    ensures IsBinary(e) ==> Children(Expr(e)) == [Expr(e.left), Expr(e.right)]
  {
  }

  // The children of a statement: a condition expression first for If,
  // ElIf and While, then only statements; exactly two expressions for
  // Assignment; only statements for Block; none for Break.
  lemma StatementArity(s: Statement)
    ensures s.Assignment? ==> Children(Stmt(s)) == [Expr(s.target), Expr(s.value)]
    ensures (s.If? || s.ElIf? || s.While?) ==>
      |Children(Stmt(s))| >= 2 && Children(Stmt(s))[0] == Expr(s.condition) && Children(Stmt(s))[1] == Stmt(s.body)
    ensures (s.If? || s.ElIf? || s.While? || s.Block?) ==>
      forall i :: (if s.Block? then 0 else 1) <= i < |Children(Stmt(s))| ==> Children(Stmt(s))[i].Stmt?
    ensures s.If? ==> |Children(Stmt(s))| == 2 + |s.elifs| + (if s.orElse.Some? then 1 else 0)
    ensures s.Block? ==> |Children(Stmt(s))| == |s.statements|
    ensures !s.Block? ==> (s.Break? <==> Children(Stmt(s)) == [])
  {
  }

  // A node is one more than all its children together.
  lemma ChildrenSize(n: Node)
    ensures SizeOfAll(Children(n)) == Size(n) - 1
  {
    match n
    case Stmt(s) =>
      match s {
        case Assignment(target, value) =>
          SizeOfPair(Expr(target), Expr(value));
        case If(condition, body, elifs, orElse) =>
          var head := [Expr(condition), Stmt(body)];
          var tail := if orElse.Some? then [Stmt(orElse.value)] else [];
          SizeOfPair(Expr(condition), Stmt(body));
          if orElse.Some? {
            assert tail[..0] == [];
          }
          SizeOfAllAppend(head, Statements(elifs));
          SizeOfAllAppend(head + Statements(elifs), tail);
          StatementsSizeOfAll(elifs);
        case ElIf(condition, body) =>
          SizeOfPair(Expr(condition), Stmt(body));
        case While(condition, body) =>
          SizeOfPair(Expr(condition), Stmt(body));
        case Block(statements) =>
          StatementsSizeOfAll(statements);
        case Break =>
      }
    case Expr(e) =>
      if IsBinary(e) {
        SizeOfPair(Expr(e.left), Expr(e.right));
      }
  }

  lemma SizeOfPair(a: Node, b: Node)
    ensures SizeOfAll([a, b]) == Size(a) + Size(b)
  {
    assert [a, b][..1] == [a];
    assert [a][..0] == [];
    assert SizeOfAll([a]) == SizeOfAll([]) + Size(a);
    assert SizeOfAll([a, b]) == SizeOfAll([a]) + Size(b);
  }

  lemma {:induction false} SizeOfAllAppend(a: seq<Node>, b: seq<Node>)
    ensures SizeOfAll(a + b) == SizeOfAll(a) + SizeOfAll(b)
    decreases |b|
  {
    if |b| == 0 {
      assert a + b == a;
    } else {
      assert (a + b)[..|a + b| - 1] == a + b[..|b| - 1];
      SizeOfAllAppend(a, b[..|b| - 1]);
    }
  }

  lemma {:induction false} StatementsSizeOfAll(ss: seq<Statement>)
    ensures SizeOfAll(Statements(ss)) == StatementsSize(ss)
    decreases |ss|
  {
    if |ss| > 0 {
      assert Statements(ss)[..|ss| - 1] == Statements(ss[..|ss| - 1]);
      StatementsSizeOfAll(ss[..|ss| - 1]);
    }
  }

  // Each statement of a sequence is at most as large as all of them.
  lemma {:induction false} ElementSize(ss: seq<Statement>, i: int)
    requires 0 <= i < |ss|
    ensures StatementSize(ss[i]) <= StatementsSize(ss)
    decreases |ss|
  {
    if i < |ss| - 1 {
      ElementSize(ss[..|ss| - 1], i);
    }
  }
}
