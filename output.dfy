// The tree-numbering visitor `output` of src/main.rs:14-154. It numbers
// the nodes of a tree in pre-order, starting from the number it is given,
// prints one edge line from the parent to each node that has a parent and
// one label line per node, except a leaf whose token has another variant,
// which prints none, and returns the next free number. The printed
// lines are modelled as a sequence of records, in the order printed.
module Digraph {
  import opened Wrappers
  import Tokens
  import opened Ast

  // The text of a label line: a fixed name, or a leaf's payload.
  datatype Label =
    | Named(name: string)
    | IdentifierIs(name: string)
    | IntegerIs(number: Tokens.i32)
    | FloatIs(text: string)
    | BooleanIs(flag: bool)

  // `a{from} -> a{to};` and `a{id} [label = "..."];`
  datatype Record = Edge(from: int, to: int) | Labelled(id: int, text: Label)

  // What was printed, and the number returned.
  datatype Rendered = Rendered(records: seq<Record>, next: int)

  // The edge line printed first when there is a parent (src/main.rs:16-18).
  function EdgeTo(parent: Option<int>, id: int): seq<Record>
  {
    if parent.Some? then [Edge(parent.value, id)] else []
  }

  // The label name of a binary expression.
  function BinaryName(e: Expression): string
    requires IsBinary(e)
  {
    match e
    case Multiply(_, _) => "Multiply"
    case Divide(_, _) => "Divide"
    case Add(_, _) => "Add"
    case Subtract(_, _) => "Subtract"
    case And(_, _) => "And"
    case Or(_, _) => "Or"
    case Equal(_, _) => "Equal"
    case NotEqual(_, _) => "NotEqual"
    case LT(_, _) => "LT"
    case GT(_, _) => "GT"
    case LTE(_, _) => "LTE"
    case GTE(_, _) => "GTE"
  }

  // ---------------------------------------------------------------------
  // The visitor, arm by arm

  // output(node, parent, n): the records printed and the number returned.
  // Every child is given the number its previous sibling returned, the
  // first one n + 1.
  function Render(node: Node, parent: Option<int>, n: int): (r: Rendered)
    decreases Size(node), 1
  {
    match node
    case Stmt(s) => RenderStatement(s, parent, n)
    case Expr(e) => RenderExpression(e, parent, n)
  }

  // The arms for statements (src/main.rs:20-60).
  function RenderStatement(s: Statement, parent: Option<int>, n: int): (r: Rendered)
    decreases StatementSize(s), 0
  {
    var head := EdgeTo(parent, n);
    match s
    case Assignment(e1, e2) =>
      var first := Render(Expr(e1), Some(n), n + 1);
      var second := Render(Expr(e2), Some(n), first.next);
      Rendered(head + [Labelled(n, Named("Assignment"))] + first.records + second.records, second.next)
    case If(cond, block, elifs, elblock) =>
      var c := Render(Expr(cond), Some(n), n + 1);
      var b := Render(Stmt(block), Some(n), c.next);
      var ei := RenderStatements(elifs, Some(n), b.next);
      var el := if elblock.Some? then Render(Stmt(elblock.value), Some(n), ei.next) else Rendered([], ei.next);
      Rendered(head + [Labelled(n, Named("If"))] + c.records + b.records + ei.records + el.records, el.next)
    case ElIf(cond, block) =>
      var c := Render(Expr(cond), Some(n), n + 1);
      var b := Render(Stmt(block), Some(n), c.next);
      Rendered(head + [Labelled(n, Named("ElseIf"))] + c.records + b.records, b.next)
    case While(cond, block) =>
      var c := Render(Expr(cond), Some(n), n + 1);
      var b := Render(Stmt(block), Some(n), c.next);
      Rendered(head + [Labelled(n, Named("While"))] + c.records + b.records, b.next)
    case Block(statements) =>
      var all := RenderStatements(statements, Some(n), n + 1);
      Rendered(head + [Labelled(n, Named("Block"))] + all.records, all.next)
    case Break =>
      Rendered(head + [Labelled(n, Named("Break"))], n + 1)
  }

  // The `for` loops over the elifs of an If and the statements of a Block:
  // each statement is visited with the number the previous one returned.
  function RenderStatements(ss: seq<Statement>, parent: Option<int>, n: int): (r: Rendered)
    decreases StatementsSize(ss), 2
  {
    if |ss| == 0 then Rendered([], n)
    else
      var init := RenderStatements(ss[..|ss| - 1], parent, n);
      var last := Render(Stmt(ss[|ss| - 1]), parent, init.next);
      Rendered(init.records + last.records, last.next)
  }

  // The arms for expressions (src/main.rs:61-152), grouped: the four
  // leaves, Negate, and the twelve binary operators, whose arms differ only
  // in the label.
  function RenderExpression(e: Expression, parent: Option<int>, n: int): (r: Rendered)
    decreases ExpressionSize(e), 0
  {
    var head := EdgeTo(parent, n);
    if IsLeaf(e) then
      Rendered(head + LeafRecords(e, n), n + 1)
    else if e.Negate? then
      var only := Render(Expr(e.operand), Some(n), n + 1);
      Rendered(head + [Labelled(n, Named("Negate"))] + only.records, only.next)
    else
      var first := Render(Expr(e.left), Some(n), n + 1);
      var second := Render(Expr(e.right), Some(n), first.next);
      Rendered(head + [Labelled(n, Named(BinaryName(e)))] + first.records + second.records, second.next)
  }

  // The `if let` of a leaf arm: a label only when the token has the
  // variant the leaf names.
  function LeafRecords(e: Expression, n: int): seq<Record>
    requires IsLeaf(e)
  {
    match e
    case Identifier(t) => if t.Identifier? then [Labelled(n, IdentifierIs(t.name))] else []
    case Integer(t) => if t.Integer? then [Labelled(n, IntegerIs(t.number))] else []
    case Float(t) => if t.Float? then [Labelled(n, FloatIs(t.text))] else []
    case Boolean(t) => if t.Boolean? then [Labelled(n, BooleanIs(t.flag))] else []
  }

  // ---------------------------------------------------------------------
  // The same visitor stated once for all arms: the edge, the label, then
  // the children in declaration order with the counter threaded through

  function StatementName(s: Statement): string
  {
    match s
    case Assignment(_, _) => "Assignment"
    case If(_, _, _, _) => "If"
    case ElIf(_, _) => "ElseIf"
    case While(_, _) => "While"
    case Block(_) => "Block"
    case Break => "Break"
  }

  // A leaf is labelled only when its token is of the variant the leaf
  // names (src/main.rs:62-79, src/main.rs:102-107).
  predicate TokenMatches(e: Expression)
    requires IsLeaf(e)
  {
    match e
    case Identifier(t) => t.Identifier?
    case Integer(t) => t.Integer?
    case Float(t) => t.Float?
    case Boolean(t) => t.Boolean?
  }

  function LeafLabel(e: Expression): Label
    requires IsLeaf(e) && TokenMatches(e)
  {
    match e
    case Identifier(t) => IdentifierIs(t.name)
    case Integer(t) => IntegerIs(t.number)
    case Float(t) => FloatIs(t.text)
    case Boolean(t) => BooleanIs(t.flag)
  }

  // The label line printed for a node numbered n, if any.
  function LabelOf(node: Node, n: int): seq<Record>
  {
    match node
    case Stmt(s) => [Labelled(n, Named(StatementName(s)))]
    case Expr(e) =>
      if IsLeaf(e) then (if TokenMatches(e) then [Labelled(n, LeafLabel(e))] else [])
      else if e.Negate? then [Labelled(n, Named("Negate"))]
      else [Labelled(n, Named(BinaryName(e)))]
  }

  // Visiting a sequence of siblings, each from the number the previous
  // one returned.
  function RenderChildren(ns: seq<Node>, parent: Option<int>, n: int): (r: Rendered)
    decreases |ns|
  {
    if |ns| == 0 then Rendered([], n)
    else
      var init := RenderChildren(ns[..|ns| - 1], parent, n);
      var last := Render(ns[|ns| - 1], parent, init.next);
      Rendered(init.records + last.records, last.next)
  }

  // Visiting a + b visits a, then b from the number a returned.
  lemma {:induction false} ChildrenAppend(a: seq<Node>, b: seq<Node>, parent: Option<int>, n: int)
    ensures var ra := RenderChildren(a, parent, n);
      var rb := RenderChildren(b, parent, ra.next);
      RenderChildren(a + b, parent, n) == Rendered(ra.records + rb.records, rb.next)
    decreases |b|
  {
    var ra := RenderChildren(a, parent, n);
    if |b| == 0 {
      assert a + b == a;
      assert ra.records + [] == ra.records;
    } else {
      var front := b[..|b| - 1];
      assert (a + b)[..|a + b| - 1] == a + front;
      assert (a + b)[|a + b| - 1] == b[|b| - 1];
      ChildrenAppend(a, front, parent, n);
      var rf := RenderChildren(front, parent, ra.next);
      var last := Render(b[|b| - 1], parent, rf.next);
      assert ra.records + rf.records + last.records == ra.records + (rf.records + last.records);
    }
  }

  lemma ChildrenPair(a: Node, b: Node, parent: Option<int>, n: int)
    ensures var ra := Render(a, parent, n);
      var rb := Render(b, parent, ra.next);
      RenderChildren([a, b], parent, n) == Rendered(ra.records + rb.records, rb.next)
  {
    assert [a, b][..1] == [a];
    assert [a][..0] == [];
    assert RenderChildren([a], parent, n) == Rendered([] + Render(a, parent, n).records, Render(a, parent, n).next);
  }

  lemma ChildrenSingle(a: Node, parent: Option<int>, n: int)
    ensures RenderChildren([a], parent, n) == Render(a, parent, n)
  {
    assert [a][..0] == [];
    assert [] + Render(a, parent, n).records == Render(a, parent, n).records;
  }

  // The loops over statements are the visit of their nodes.
  lemma {:induction false} RenderStatementsAsChildren(ss: seq<Statement>, parent: Option<int>, n: int)
    ensures RenderStatements(ss, parent, n) == RenderChildren(Statements(ss), parent, n)
    decreases |ss|
  {
    if |ss| > 0 {
      assert Statements(ss)[..|ss| - 1] == Statements(ss[..|ss| - 1]);
      RenderStatementsAsChildren(ss[..|ss| - 1], parent, n);
    }
  }

  // Every arm of the visitor prints the edge from the parent, then the
  // node's label (none for a leaf holding a token of the wrong variant),
  // then visits the node's children in declaration order from n + 1.
  lemma RenderByChildren(node: Node, parent: Option<int>, n: int)
    ensures var kids := RenderChildren(Children(node), Some(n), n + 1);
      Render(node, parent, n) == Rendered(EdgeTo(parent, n) + LabelOf(node, n) + kids.records, kids.next)
  {
    match node
    case Stmt(s) => StatementByChildren(s, parent, n);
    case Expr(e) => ExpressionByChildren(e, parent, n);
  }

  lemma StatementByChildren(s: Statement, parent: Option<int>, n: int)
    ensures var kids := RenderChildren(Children(Stmt(s)), Some(n), n + 1);
      RenderStatement(s, parent, n) == Rendered(EdgeTo(parent, n) + LabelOf(Stmt(s), n) + kids.records, kids.next)
  {
    match s
    case Assignment(e1, e2) => AssignmentByChildren(e1, e2, parent, n);
    case If(cond, block, elifs, elblock) => IfByChildren(cond, block, elifs, elblock, parent, n);
    case ElIf(cond, block) => ElIfByChildren(cond, block, parent, n);
    case While(cond, block) => WhileByChildren(cond, block, parent, n);
    case Block(statements) => BlockByChildren(statements, parent, n);
    case Break => BreakByChildren(parent, n);
  }

  lemma AssignmentByChildren(e1: Expression, e2: Expression, parent: Option<int>, n: int)
    ensures var s := Assignment(e1, e2);
      var kids := RenderChildren(Children(Stmt(s)), Some(n), n + 1);
      RenderStatement(s, parent, n) == Rendered(EdgeTo(parent, n) + LabelOf(Stmt(s), n) + kids.records, kids.next)
  {
    var first := Render(Expr(e1), Some(n), n + 1);
    var second := Render(Expr(e2), Some(n), first.next);
    ChildrenPair(Expr(e1), Expr(e2), Some(n), n + 1);
    AppendAssoc(EdgeTo(parent, n) + [Labelled(n, Named("Assignment"))], first.records, second.records);
  }

  lemma ElIfByChildren(cond: Expression, block: Statement, parent: Option<int>, n: int)
    ensures var s := ElIf(cond, block);
      var kids := RenderChildren(Children(Stmt(s)), Some(n), n + 1);
      RenderStatement(s, parent, n) == Rendered(EdgeTo(parent, n) + LabelOf(Stmt(s), n) + kids.records, kids.next)
  {
    var c := Render(Expr(cond), Some(n), n + 1);
    var b := Render(Stmt(block), Some(n), c.next);
    ChildrenPair(Expr(cond), Stmt(block), Some(n), n + 1);
    AppendAssoc(EdgeTo(parent, n) + [Labelled(n, Named("ElseIf"))], c.records, b.records);
  }

  lemma WhileByChildren(cond: Expression, block: Statement, parent: Option<int>, n: int)
    ensures var s := While(cond, block);
      var kids := RenderChildren(Children(Stmt(s)), Some(n), n + 1);
      RenderStatement(s, parent, n) == Rendered(EdgeTo(parent, n) + LabelOf(Stmt(s), n) + kids.records, kids.next)
  {
    var c := Render(Expr(cond), Some(n), n + 1);
    var b := Render(Stmt(block), Some(n), c.next);
    ChildrenPair(Expr(cond), Stmt(block), Some(n), n + 1);
    AppendAssoc(EdgeTo(parent, n) + [Labelled(n, Named("While"))], c.records, b.records);
  }

  lemma BlockByChildren(ss: seq<Statement>, parent: Option<int>, n: int)
    ensures var kids := RenderChildren(Children(Stmt(Block(ss))), Some(n), n + 1);
      RenderStatement(Block(ss), parent, n) == Rendered(EdgeTo(parent, n) + LabelOf(Stmt(Block(ss)), n) + kids.records, kids.next)
  {
    RenderStatementsAsChildren(ss, Some(n), n + 1);
  }

  lemma BreakByChildren(parent: Option<int>, n: int)
    ensures var kids := RenderChildren(Children(Stmt(Break)), Some(n), n + 1);
      RenderStatement(Break, parent, n) == Rendered(EdgeTo(parent, n) + LabelOf(Stmt(Break), n) + kids.records, kids.next)
  {
    var head := EdgeTo(parent, n);
    assert head + [Labelled(n, Named("Break"))] + [] == head + [Labelled(n, Named("Break"))];
  }

  lemma IfByChildren(cond: Expression, block: Statement, elifs: seq<Statement>, elblock: Option<Statement>, parent: Option<int>, n: int)
    ensures var s := If(cond, block, elifs, elblock);
      var kids := RenderChildren(Children(Stmt(s)), Some(n), n + 1);
      RenderStatement(s, parent, n) == Rendered(EdgeTo(parent, n) + LabelOf(Stmt(s), n) + kids.records, kids.next)
  {
    var pair := [Expr(cond), Stmt(block)];
    var tail := if elblock.Some? then [Stmt(elblock.value)] else [];
    var c := Render(Expr(cond), Some(n), n + 1);
    var b := Render(Stmt(block), Some(n), c.next);
    var ei := RenderStatements(elifs, Some(n), b.next);
    var el := if elblock.Some? then Render(Stmt(elblock.value), Some(n), ei.next) else Rendered([], ei.next);
    ChildrenPair(Expr(cond), Stmt(block), Some(n), n + 1);
    assert RenderChildren(pair, Some(n), n + 1) == Rendered(c.records + b.records, b.next);
    RenderStatementsAsChildren(elifs, Some(n), b.next);
    assert RenderChildren(Statements(elifs), Some(n), b.next) == ei;
    if elblock.Some? {
      ChildrenSingle(Stmt(elblock.value), Some(n), ei.next);
    }
    assert RenderChildren(tail, Some(n), ei.next) == el;
    ChildrenAppend(pair, Statements(elifs), Some(n), n + 1);
    ChildrenAppend(pair + Statements(elifs), tail, Some(n), n + 1);
    IfRecords(EdgeTo(parent, n), [Labelled(n, Named("If"))], c.records, b.records, ei.records, el.records);
  }

  lemma IfRecords(head: seq<Record>, mark: seq<Record>, c: seq<Record>, b: seq<Record>, ei: seq<Record>, el: seq<Record>)
    ensures head + mark + c + b + ei + el == head + mark + ((c + b) + ei + el)
  {
  }

  lemma ExpressionByChildren(e: Expression, parent: Option<int>, n: int)
    ensures var kids := RenderChildren(Children(Expr(e)), Some(n), n + 1);
      RenderExpression(e, parent, n) == Rendered(EdgeTo(parent, n) + LabelOf(Expr(e), n) + kids.records, kids.next)
  {
    if IsLeaf(e) {
      LeafByChildren(e, parent, n);
    } else if e.Negate? {
      NegateByChildren(e.operand, parent, n);
    } else {
      BinaryByChildren(e, parent, n);
    }
  }

  lemma NegateByChildren(e1: Expression, parent: Option<int>, n: int)
    ensures var kids := RenderChildren(Children(Expr(Negate(e1))), Some(n), n + 1);
      RenderExpression(Negate(e1), parent, n) == Rendered(EdgeTo(parent, n) + LabelOf(Expr(Negate(e1)), n) + kids.records, kids.next)
  {
    ChildrenSingle(Expr(e1), Some(n), n + 1);
  }

  lemma BinaryByChildren(e: Expression, parent: Option<int>, n: int)
    requires IsBinary(e)
    ensures var kids := RenderChildren(Children(Expr(e)), Some(n), n + 1);
      RenderExpression(e, parent, n) == Rendered(EdgeTo(parent, n) + LabelOf(Expr(e), n) + kids.records, kids.next)
  {
    var first := Render(Expr(e.left), Some(n), n + 1);
    var second := Render(Expr(e.right), Some(n), first.next);
    ChildrenPair(Expr(e.left), Expr(e.right), Some(n), n + 1);
    AppendAssoc(EdgeTo(parent, n) + [Labelled(n, Named(BinaryName(e)))], first.records, second.records);
  }

  lemma LeafByChildren(e: Expression, parent: Option<int>, n: int)
    requires IsLeaf(e)
    ensures var kids := RenderChildren(Children(Expr(e)), Some(n), n + 1);
      RenderExpression(e, parent, n) == Rendered(EdgeTo(parent, n) + LabelOf(Expr(e), n) + kids.records, kids.next)
  {
    var head := EdgeTo(parent, n);
    assert head + LabelOf(Expr(e), n) + [] == head + LabelOf(Expr(e), n);
  }

  // ---------------------------------------------------------------------
  // Numbering: a tree of k nodes uses the numbers n .. n + k - 1

  // output returns n plus the number of nodes of the tree; a leaf returns
  // n + 1 (src/main.rs:14-15).
  lemma {:induction false} RenderNext(node: Node, parent: Option<int>, n: int)
    ensures Render(node, parent, n).next == n + Size(node)
    decreases Size(node), 0
  {
    RenderByChildren(node, parent, n);
    ChildrenSize(node);
    ChildrenNext(Children(node), Some(n), n + 1);
  }

  lemma {:induction false} ChildrenNext(ns: seq<Node>, parent: Option<int>, n: int)
    ensures RenderChildren(ns, parent, n).next == n + SizeOfAll(ns)
    decreases SizeOfAll(ns), 1
  {
    if |ns| > 0 {
      var front := ns[..|ns| - 1];
      ChildrenNext(front, parent, n);
      RenderNext(ns[|ns| - 1], parent, RenderChildren(front, parent, n).next);
    }
  }

  // ---------------------------------------------------------------------
  // Pre-order: records come in the order of the nodes they are about

  // The node a record is about: the child of an edge, the node of a label.
  function Subject(r: Record): int
  {
    if r.Edge? then r.to else r.id
  }

  // Every record is about a node in lo .. hi - 1, and the records come in
  // order of those nodes.
  ghost predicate InOrder(rs: seq<Record>, lo: int, hi: int)
  {
    && (forall i :: 0 <= i < |rs| ==> lo <= Subject(rs[i]) < hi)
    && (forall i, j :: 0 <= i < j < |rs| ==> Subject(rs[i]) <= Subject(rs[j]))
  }

  lemma InOrderAppend(a: seq<Record>, b: seq<Record>, lo: int, mid: int, hi: int)
    requires lo <= mid <= hi && InOrder(a, lo, mid) && InOrder(b, mid, hi)
    ensures InOrder(a + b, lo, hi)
  {
    forall i, j | 0 <= i < j < |a + b| ensures Subject((a + b)[i]) <= Subject((a + b)[j]) {
      if j < |a| {
        assert (a + b)[i] == a[i] && (a + b)[j] == a[j];
      } else if i >= |a| {
        assert (a + b)[i] == b[i - |a|] && (a + b)[j] == b[j - |a|];
      } else {
        assert (a + b)[i] == a[i] && (a + b)[j] == b[j - |a|];
      }
    }
    forall i | 0 <= i < |a + b| ensures lo <= Subject((a + b)[i]) < hi {
      if i < |a| {
        assert (a + b)[i] == a[i];
      } else {
        assert (a + b)[i] == b[i - |a|];
      }
    }
  }

  // Numbers are handed out in pre-order: what is printed about a tree
  // numbered from n is about the nodes n .. n + Size - 1, the node itself
  // first, each subtree in turn after it.
  lemma {:induction false} RenderInOrder(node: Node, parent: Option<int>, n: int)
    ensures InOrder(Render(node, parent, n).records, n, n + Size(node))
    decreases Size(node), 0
  {
    RenderByChildren(node, parent, n);
    ChildrenSize(node);
    ChildrenInOrder(Children(node), Some(n), n + 1);
    OwnThenKids(node, parent, n, RenderChildren(Children(node), Some(n), n + 1).records, n + Size(node));
  }

  // A node's own records, about n, come before those of its subtrees.
  lemma OwnThenKids(node: Node, parent: Option<int>, n: int, kids: seq<Record>, hi: int)
    requires n + 1 <= hi && InOrder(kids, n + 1, hi)
    ensures InOrder(EdgeTo(parent, n) + LabelOf(node, n) + kids, n, hi)
  {
    var own := EdgeTo(parent, n) + LabelOf(node, n);
    assert forall i :: 0 <= i < |own| ==> Subject(own[i]) == n;
    InOrderAppend(own, kids, n, n + 1, hi);
  }

  lemma {:induction false} ChildrenInOrder(ns: seq<Node>, parent: Option<int>, n: int)
    ensures InOrder(RenderChildren(ns, parent, n).records, n, n + SizeOfAll(ns))
    decreases SizeOfAll(ns), 1
  {
    if |ns| > 0 {
      var front := ns[..|ns| - 1];
      var init := RenderChildren(front, parent, n);
      ChildrenInOrder(front, parent, n);
      ChildrenNext(front, parent, n);
      RenderInOrder(ns[|ns| - 1], parent, init.next);
      InOrderAppend(init.records, Render(ns[|ns| - 1], parent, init.next).records, n, init.next, n + SizeOfAll(ns));
    }
  }

  // ---------------------------------------------------------------------
  // Edges and labels: a tree, each node labelled at most once

  // The number of records satisfying p.
  function Count(rs: seq<Record>, p: Record -> bool): nat
  {
    if |rs| == 0 then 0 else Count(rs[..|rs| - 1], p) + (if p(rs[|rs| - 1]) then 1 else 0)
  }

  lemma {:induction false} CountAppend(a: seq<Record>, b: seq<Record>, p: Record -> bool)
    ensures Count(a + b, p) == Count(a, p) + Count(b, p)
    decreases |b|
  {
    if |b| == 0 {
      assert a + b == a;
    } else {
      assert (a + b)[..|a + b| - 1] == a + b[..|b| - 1];
      CountAppend(a, b[..|b| - 1], p);
    }
  }

  function EdgeInto(c: int): Record -> bool
  {
    (r: Record) => r.Edge? && r.to == c
  }

  function LabelFor(c: int): Record -> bool
  {
    (r: Record) => r.Labelled? && r.id == c
  }

  lemma CountSingle(x: Record, p: Record -> bool)
    ensures Count([x], p) == if p(x) then 1 else 0
  {
    assert [x][..0] == [];
  }

  // What a node prints about itself: the edge from its parent, if any,
  // and its label, if any; both about n.
  lemma OwnRecords(node: Node, parent: Option<int>, n: int, c: int)
    ensures var own := EdgeTo(parent, n) + LabelOf(node, n);
      && Count(own, EdgeInto(c)) == (if c == n && parent.Some? then 1 else 0)
      && Count(own, LabelFor(c)) == (if c == n && LabelOf(node, n) != [] then 1 else 0)
      && (forall i :: 0 <= i < |own| && own[i].Edge? ==> parent.Some? && own[i].from == parent.value && own[i].to == n)
  {
    var head := EdgeTo(parent, n);
    var mark := LabelOf(node, n);
    CountAppend(head, mark, EdgeInto(c));
    CountAppend(head, mark, LabelFor(c));
    if parent.Some? {
      CountSingle(Edge(parent.value, n), EdgeInto(c));
      CountSingle(Edge(parent.value, n), LabelFor(c));
    }
    if mark != [] {
      CountSingle(mark[0], EdgeInto(c));
      CountSingle(mark[0], LabelFor(c));
    }
  }

  // Every edge but the one from the parent goes from a smaller number to a
  // larger one (src/main.rs:14-154).
  lemma {:induction false} RenderEdgesDown(node: Node, parent: Option<int>, n: int)
    ensures var rs := Render(node, parent, n).records;
      forall i :: 0 <= i < |rs| && rs[i].Edge? ==>
        (parent.Some? && rs[i].from == parent.value && rs[i].to == n) || n <= rs[i].from < rs[i].to
    decreases Size(node), 0
  {
    RenderByChildren(node, parent, n);
    ChildrenSize(node);
    ChildrenEdgesDown(Children(node), n, n + 1);
    ChildrenInOrder(Children(node), Some(n), n + 1);
    OwnRecords(node, parent, n, n);
    EdgesDownJoin(EdgeTo(parent, n) + LabelOf(node, n), RenderChildren(Children(node), Some(n), n + 1).records, parent, n);
  }

  // The edges of a node's own records and of its children's together.
  lemma EdgesDownJoin(own: seq<Record>, kids: seq<Record>, parent: Option<int>, n: int)
    requires forall i :: 0 <= i < |own| && own[i].Edge? ==> parent.Some? && own[i].from == parent.value && own[i].to == n
    requires forall i :: 0 <= i < |kids| && kids[i].Edge? ==> kids[i].from == n || n + 1 <= kids[i].from < kids[i].to
    requires forall i :: 0 <= i < |kids| ==> n + 1 <= Subject(kids[i])
    ensures var rs := own + kids;
      forall i :: 0 <= i < |rs| && rs[i].Edge? ==>
        (parent.Some? && rs[i].from == parent.value && rs[i].to == n) || n <= rs[i].from < rs[i].to
  {
    var rs := own + kids;
    forall i | 0 <= i < |rs| && rs[i].Edge?
      ensures (parent.Some? && rs[i].from == parent.value && rs[i].to == n) || n <= rs[i].from < rs[i].to
    {
      if i >= |own| {
        assert rs[i] == kids[i - |own|];
      } else {
        assert rs[i] == own[i];
      }
    }
  }

  lemma {:induction false} ChildrenEdgesDown(ns: seq<Node>, parent: int, n: int)
    ensures var rs := RenderChildren(ns, Some(parent), n).records;
      forall i :: 0 <= i < |rs| && rs[i].Edge? ==> rs[i].from == parent || n <= rs[i].from < rs[i].to
    decreases SizeOfAll(ns), 1
  {
    if |ns| > 0 {
      var front := ns[..|ns| - 1];
      var init := RenderChildren(front, Some(parent), n);
      ChildrenEdgesDown(front, parent, n);
      ChildrenNext(front, Some(parent), n);
      var k := init.next;
      var last := Render(ns[|ns| - 1], Some(parent), k).records;
      RenderEdgesDown(ns[|ns| - 1], Some(parent), k);
      assert var rs := Render(ns[|ns| - 1], Some(parent), k).records;
      forall i :: 0 <= i < |rs| && rs[i].Edge? ==>
        (Some(parent).Some? && rs[i].from == Some(parent).value && rs[i].to == k) || k <= rs[i].from < rs[i].to;
      var rs := init.records + last;
      assert RenderChildren(ns, Some(parent), n).records == rs;
      forall i | 0 <= i < |rs| && rs[i].Edge? ensures rs[i].from == parent || n <= rs[i].from < rs[i].to {
        if i < |init.records| {
          assert rs[i] == init.records[i];
        } else {
          assert rs[i] == last[i - |init.records|];
        }
      }
    }
  }

  // The node numbered n has an incoming edge exactly when there is a
  // parent, and every other node of the tree exactly one: the root of the
  // whole output (parent None) has none (src/main.rs:16-18).
  lemma {:induction false} RenderEdgeCounts(node: Node, parent: Option<int>, n: int)
    ensures forall c ::
      Count(Render(node, parent, n).records, EdgeInto(c)) ==
        (if c == n then (if parent.Some? then 1 else 0) else if n < c < n + Size(node) then 1 else 0)
    decreases Size(node), 0
  {
    RenderByChildren(node, parent, n);
    ChildrenSize(node);
    var own := EdgeTo(parent, n) + LabelOf(node, n);
    var kids := RenderChildren(Children(node), Some(n), n + 1).records;
    ChildrenEdgeCounts(Children(node), Some(n), n + 1);
    forall c ensures Count(own + kids, EdgeInto(c)) ==
      (if c == n then (if parent.Some? then 1 else 0) else if n < c < n + Size(node) then 1 else 0)
    {
      CountAppend(own, kids, EdgeInto(c));
      OwnRecords(node, parent, n, c);
    }
  }

  lemma {:induction false} ChildrenEdgeCounts(ns: seq<Node>, parent: Option<int>, n: int)
    requires parent.Some?
    ensures forall c ::
      Count(RenderChildren(ns, parent, n).records, EdgeInto(c)) == (if n <= c < n + SizeOfAll(ns) then 1 else 0)
    decreases SizeOfAll(ns), 1
  {
    if |ns| == 0 {
      forall c ensures Count(RenderChildren(ns, parent, n).records, EdgeInto(c)) == 0 {
      }
    } else {
      var front := ns[..|ns| - 1];
      var init := RenderChildren(front, parent, n);
      ChildrenEdgeCounts(front, parent, n);
      ChildrenNext(front, parent, n);
      var last := Render(ns[|ns| - 1], parent, init.next).records;
      RenderEdgeCounts(ns[|ns| - 1], parent, init.next);
      assert RenderChildren(ns, parent, n).records == init.records + last;
      forall c ensures Count(init.records + last, EdgeInto(c)) == (if n <= c < n + SizeOfAll(ns) then 1 else 0) {
        CountAppend(init.records, last, EdgeInto(c));
      }
    }
  }

  // Each number is labelled at most once, and only numbers of the tree
  // are labelled.
  lemma {:induction false} RenderLabels(node: Node, parent: Option<int>, n: int)
    ensures forall c ::
      Count(Render(node, parent, n).records, LabelFor(c)) <= if n <= c < n + Size(node) then 1 else 0
    decreases Size(node), 0
  {
    RenderByChildren(node, parent, n);
    ChildrenSize(node);
    var own := EdgeTo(parent, n) + LabelOf(node, n);
    var kids := RenderChildren(Children(node), Some(n), n + 1).records;
    ChildrenLabels(Children(node), Some(n), n + 1);
    forall c ensures Count(own + kids, LabelFor(c)) <= if n <= c < n + Size(node) then 1 else 0 {
      CountAppend(own, kids, LabelFor(c));
      OwnRecords(node, parent, n, c);
    }
  }

  lemma {:induction false} ChildrenLabels(ns: seq<Node>, parent: Option<int>, n: int)
    ensures forall c ::
      Count(RenderChildren(ns, parent, n).records, LabelFor(c)) <= if n <= c < n + SizeOfAll(ns) then 1 else 0
    decreases SizeOfAll(ns), 1
  {
    if |ns| > 0 {
      var front := ns[..|ns| - 1];
      var init := RenderChildren(front, parent, n);
      ChildrenLabels(front, parent, n);
      ChildrenNext(front, parent, n);
      var last := Render(ns[|ns| - 1], parent, init.next).records;
      RenderLabels(ns[|ns| - 1], parent, init.next);
      assert RenderChildren(ns, parent, n).records == init.records + last;
      forall c ensures Count(init.records + last, LabelFor(c)) <= if n <= c < n + SizeOfAll(ns) then 1 else 0 {
        CountAppend(init.records, last, LabelFor(c));
      }
    }
  }

  // ---------------------------------------------------------------------
  // The numbers each arm gives its children

  lemma {:induction false} RenderStatementsNext(ss: seq<Statement>, parent: Option<int>, n: int)
    ensures RenderStatements(ss, parent, n).next == n + StatementsSize(ss)
  {
    RenderStatementsAsChildren(ss, parent, n);
    ChildrenNext(Statements(ss), parent, n);
    StatementsSizeOfAll(ss);
  }

  // A binary expression numbers its left operand n + 1 and its right
  // operand with the number the left one returned, n + 1 plus the size of
  // the left operand (src/main.rs:80-84 and the arms like it).
  lemma BinaryNumbering(e: Expression, parent: Option<int>, n: int)
    requires IsBinary(e)
    ensures RenderExpression(e, parent, n) == Rendered(
      EdgeTo(parent, n) + [Labelled(n, Named(BinaryName(e)))]
        + Render(Expr(e.left), Some(n), n + 1).records
        + Render(Expr(e.right), Some(n), n + 1 + ExpressionSize(e.left)).records,
      n + ExpressionSize(e))
  {
    RenderNext(Expr(e.left), Some(n), n + 1);
    RenderNext(Expr(e.right), Some(n), n + 1 + ExpressionSize(e.left));
  }

  // Negate has a single child, numbered n + 1 (src/main.rs:128-131).
  lemma NegateNumbering(operand: Expression, parent: Option<int>, n: int)
    ensures RenderExpression(Negate(operand), parent, n) == Rendered(
      EdgeTo(parent, n) + [Labelled(n, Named("Negate"))] + Render(Expr(operand), Some(n), n + 1).records,
      n + 1 + ExpressionSize(operand))
  {
    RenderNext(Expr(operand), Some(n), n + 1);
  }

  // A child between siblings a and b is visited from where a ended, and b
  // from where the child ended.
  lemma ChildrenAroundThreaded(a: seq<Node>, x: Node, b: seq<Node>, parent: Option<int>, n: int)
    ensures var before := RenderChildren(a, parent, n);
      var at := Render(x, parent, before.next);
      var after := RenderChildren(b, parent, at.next);
      RenderChildren(a + [x] + b, parent, n) == Rendered(before.records + at.records + after.records, after.next)
  {
    var before := RenderChildren(a, parent, n);
    ChildrenAppend(a + [x], b, parent, n);
    ChildrenAppend(a, [x], parent, n);
    ChildrenSingle(x, parent, before.next);
  }

  // With the numbers written out: a sibling is visited from n plus the
  // sizes of the siblings before it.
  lemma ChildrenAround(a: seq<Node>, x: Node, b: seq<Node>, parent: Option<int>, n: int)
    ensures var before := RenderChildren(a, parent, n);
      var at := Render(x, parent, n + SizeOfAll(a));
      var after := RenderChildren(b, parent, n + SizeOfAll(a) + Size(x));
      RenderChildren(a + [x] + b, parent, n) == Rendered(before.records + at.records + after.records, n + SizeOfAll(a) + Size(x) + SizeOfAll(b))
  {
    ChildrenAroundThreaded(a, x, b, parent, n);
    ChildrenNext(a, parent, n);
    RenderNext(x, parent, n + SizeOfAll(a));
    ChildrenNext(b, parent, n + SizeOfAll(a) + Size(x));
  }

  // Every child is visited between its earlier and its later siblings,
  // from n + 1 plus the sizes of the siblings before it: the `output` calls
  // of each arm run in declaration order, each from the number the
  // previous one returned (src/main.rs:20-152).
  lemma ChildNumbering(node: Node, parent: Option<int>, n: int, i: int)
    requires 0 <= i < |Children(node)|
    ensures var kids := Children(node);
      var before := RenderChildren(kids[..i], Some(n), n + 1);
      var at := Render(kids[i], Some(n), n + 1 + SizeOfAll(kids[..i]));
      var after := RenderChildren(kids[i + 1..], Some(n), n + 1 + SizeOfAll(kids[..i]) + Size(kids[i]));
      Render(node, parent, n).records == EdgeTo(parent, n) + LabelOf(node, n) + (before.records + at.records + after.records)
  {
    var kids := Children(node);
    var all := RenderChildren(kids, Some(n), n + 1);
    RenderByChildren(node, parent, n);
    assert Render(node, parent, n).records == EdgeTo(parent, n) + LabelOf(node, n) + all.records;
    ChildAt(kids, i, Some(n), n + 1);
  }

  lemma ChildAt(kids: seq<Node>, i: int, parent: Option<int>, n: int)
    requires 0 <= i < |kids|
    ensures var before := RenderChildren(kids[..i], parent, n);
      var at := Render(kids[i], parent, n + SizeOfAll(kids[..i]));
      var after := RenderChildren(kids[i + 1..], parent, n + SizeOfAll(kids[..i]) + Size(kids[i]));
      RenderChildren(kids, parent, n).records == before.records + at.records + after.records
  {
    assert kids == kids[..i] + [kids[i]] + kids[i + 1..];
    ChildrenAround(kids[..i], kids[i], kids[i + 1..], parent, n);
  }

  lemma AppendAssoc(a: seq<Record>, b: seq<Record>, c: seq<Record>)
    ensures a + (b + c) == a + b + c
  {
  }

  // A leaf consumes one number; it is labelled with its payload when its
  // token has the variant the leaf names and is not labelled at all
  // otherwise (src/main.rs:62-66 and the arms like it).
  lemma LeafNumbering(e: Expression, parent: Option<int>, n: int)
    requires IsLeaf(e)
    ensures RenderExpression(e, parent, n).next == n + 1
    ensures TokenMatches(e) ==> RenderExpression(e, parent, n).records == EdgeTo(parent, n) + [Labelled(n, LeafLabel(e))]
    ensures !TokenMatches(e) ==> RenderExpression(e, parent, n).records == EdgeTo(parent, n)
  {
  }

  // The call in main: the program is numbered from 0 with no parent, so
  // its numbers are 0 .. Size - 1, 0 has no incoming edge and every other
  // number exactly one, from a smaller number (src/main.rs:164).
  lemma ProgramNumbering(program: Statement)
    ensures var r := Render(Stmt(program), None, 0);
      && r.next == StatementSize(program)
      && InOrder(r.records, 0, StatementSize(program))
      && (forall c :: Count(r.records, EdgeInto(c)) == (if 0 < c < StatementSize(program) then 1 else 0))
      && (forall i :: 0 <= i < |r.records| && r.records[i].Edge? ==> r.records[i].from < r.records[i].to)
      && (forall c :: Count(r.records, LabelFor(c)) <= (if 0 <= c < StatementSize(program) then 1 else 0))
  {
    RenderNext(Stmt(program), None, 0);
    RenderInOrder(Stmt(program), None, 0);
    RenderEdgeCounts(Stmt(program), None, 0);
    RenderEdgesDown(Stmt(program), None, 0);
    RenderLabels(Stmt(program), None, 0);
  }

  // ---------------------------------------------------------------------
  // The visitor itself, as the source writes it: print the edge from the
  // parent and the label, then visit the children one after the other,
  // the elifs of an If and the statements of a Block in a `for` loop
  // (src/main.rs:14-154). What it prints is returned as records.

  method Output(node: Node, parent: Option<int>, n: int) returns (printed: seq<Record>, next: int)
    ensures Rendered(printed, next) == Render(node, parent, n)
    decreases Size(node), 1
  {
    match node
    case Stmt(s) =>
      printed, next := OutputStatement(s, parent, n);
    case Expr(e) =>
      printed, next := OutputExpression(e, parent, n);
  }

  method OutputStatement(s: Statement, parent: Option<int>, n: int) returns (printed: seq<Record>, next: int)
    ensures Rendered(printed, next) == RenderStatement(s, parent, n)
    decreases StatementSize(s), 0
  {
    next := n + 1;
    printed := EdgeTo(parent, n);
    match s
    case Assignment(e1, e2) =>
      printed := printed + [Labelled(n, Named("Assignment"))];
      var first, second;
      first, next := Output(Expr(e1), Some(n), next);
      second, next := Output(Expr(e2), Some(n), next);
      printed := printed + first + second;
    case If(cond, block, elifs, elblock) =>
      printed := printed + [Labelled(n, Named("If"))];
      var c, b;
      c, next := Output(Expr(cond), Some(n), next);
      b, next := Output(Stmt(block), Some(n), next);
      printed := printed + c + b;
      var loop;
      loop, next := OutputEach(elifs, n, next);
      printed := printed + loop;
      if elblock.Some? {
        var el;
        el, next := Output(Stmt(elblock.value), Some(n), next);
        printed := printed + el;
      } else {
        assert printed + [] == printed;
      }
    case ElIf(cond, block) =>
      printed := printed + [Labelled(n, Named("ElseIf"))];
      var c, b;
      c, next := Output(Expr(cond), Some(n), next);
      b, next := Output(Stmt(block), Some(n), next);
      printed := printed + c + b;
    case While(cond, block) =>
      printed := printed + [Labelled(n, Named("While"))];
      var c, b;
      c, next := Output(Expr(cond), Some(n), next);
      b, next := Output(Stmt(block), Some(n), next);
      printed := printed + c + b;
    case Block(statements) =>
      printed := printed + [Labelled(n, Named("Block"))];
      var loop;
      loop, next := OutputEach(statements, n, next);
      printed := printed + loop;
    case Break =>
      printed := printed + [Labelled(n, Named("Break"))];
  }

  // `for s in ...`: the statements of a Block or the elifs of an If, each
  // visited from the number the previous one returned.
  method OutputEach(ss: seq<Statement>, parent: int, n: int) returns (printed: seq<Record>, next: int)
    ensures Rendered(printed, next) == RenderStatements(ss, Some(parent), n)
    decreases StatementsSize(ss), 2
  {
    printed, next := [], n;
    for i := 0 to |ss|
      invariant Rendered(printed, next) == RenderStatements(ss[..i], Some(parent), n)
    {
      ElementSize(ss, i);
      assert ss[..i + 1][..i] == ss[..i];
      var one;
      one, next := Output(Stmt(ss[i]), Some(parent), next);
      printed := printed + one;
    }
    assert ss[..|ss|] == ss;
  }

  method OutputExpression(e: Expression, parent: Option<int>, n: int) returns (printed: seq<Record>, next: int)
    ensures Rendered(printed, next) == RenderExpression(e, parent, n)
    decreases ExpressionSize(e), 0
  {
    next := n + 1;
    printed := EdgeTo(parent, n);
    if IsLeaf(e) {
      printed := printed + LeafRecords(e, n);
    } else if e.Negate? {
      printed := printed + [Labelled(n, Named("Negate"))];
      var only;
      only, next := Output(Expr(e.operand), Some(n), next);
      printed := printed + only;
    } else {
      printed := printed + [Labelled(n, Named(BinaryName(e)))];
      var first, second;
      first, next := Output(Expr(e.left), Some(n), next);
      second, next := Output(Expr(e.right), Some(n), next);
      printed := printed + first + second;
    }
  }
}
