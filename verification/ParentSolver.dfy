/** The parent pointers of the syntax tree, and finding the function around a node with them. */
module ParentSolvers {
  /** The kinds of node, and what each owns as its class declares it. */
  datatype Members =
    | If(condition: Node, ifBlock: Node, elseBlock: Node)
    | For(init: Node, end: Node, step: Node, block: Node)
    | Foreach(iteratee: Node, variable: Node, block: Node)
    | While(condition: Node, block: Node)
    | Import(importee: Node)
    | Module(moduleName: Node)
    | EmptyExpr
    | Identifier
    | VariableRef
    | VariableDefinition(typename: Node, name: Node, init: Node)
    | GlobalVariableDefinition(definition: Node)
    | FunctionParameter(definition: Node)
    | FunctionPrototype(name: Node, returnType: Node, params: seq<Node>)
    | FunctionDefinition(proto: Node, body: Node)
    | Return(returnValue: Node)
    | IntegerLiteral(typename: Node)
    | FloatLiteral(typename: Node)
    | StringLiteral(typename: Node)
    | CharLiteral(typename: Node)
    | BoolLiteral(typename: Node)
    | Binary(lhs: Node, rhs: Node)
    | Unary(operand: Node)
    | Assignment(lhs: Node, rhs: Node)
    | ArbitraryOperand(operands: seq<Node>)
    | EmptyStmt
    | Block(nodes: seq<Node>)
    | ExprStmt(expr: Node)
    | Alias(alias: Node, aliasee: Node)

  /** The nodes owned, in the order of the declarations. */
  function Owned(members: Members): seq<Node> {
    match members
    case If(condition, ifBlock, elseBlock) => [condition, ifBlock, elseBlock]
    case For(init, end, step, block) => [init, end, step, block]
    case Foreach(iteratee, variable, block) => [iteratee, variable, block]
    case While(condition, block) => [condition, block]
    case Import(importee) => [importee]
    case Module(moduleName) => [moduleName]
    case EmptyExpr => []
    case Identifier => []
    case VariableRef => []
    case VariableDefinition(typename, name, init) => [typename, name, init]
    case GlobalVariableDefinition(definition) => [definition]
    case FunctionParameter(definition) => [definition]
    case FunctionPrototype(name, returnType, params) => [name, returnType] + params
    case FunctionDefinition(proto, body) => [proto, body]
    case Return(returnValue) => [returnValue]
    case IntegerLiteral(typename) => [typename]
    case FloatLiteral(typename) => [typename]
    case StringLiteral(typename) => [typename]
    case CharLiteral(typename) => [typename]
    case BoolLiteral(typename) => [typename]
    case Binary(lhs, rhs) => [lhs, rhs]
    case Unary(operand) => [operand]
    case Assignment(lhs, rhs) => [lhs, rhs]
    case ArbitraryOperand(operands) => operands
    case EmptyStmt => []
    case Block(nodes) => nodes
    case ExprStmt(expr) => [expr]
    case Alias(alias, aliasee) => [alias, aliasee]
  }

  class Node {
    const members: Members
    var parent: Node?

    constructor (members: Members)
      ensures this.members == members && parent == null
    {
      this.members := members;
      parent := null;
    }

    /** The chain of parents, from this node to one without a parent. */
    ghost predicate Chain(path: seq<Node>)
      reads path
    {
      Leads(path, null) && path[0] == this
    }

    /** The function definition around this node. It ends where the chain of parents ends. */
    function GetFunction(ghost path: seq<Node>): (r: Node?)
      requires Chain(path)
      reads path
      ensures r == FirstFunction(path)
      decreases |path|
    {
      if members.FunctionDefinition? then this
      else if parent == null then null
      else parent.GetFunction(path[1..])
    }
  }

  /** Each node of the path has the next one as its parent, and the last one has p. */
  ghost predicate Leads(path: seq<Node>, p: Node?)
    reads path
  {
    path != [] && path[|path| - 1].parent == p && forall i :: 0 <= i < |path| - 1 ==> path[i].parent == path[i + 1]
  }

  ghost function FirstFunction(path: seq<Node>): Node? {
    if path == [] then null
    else if path[0].members.FunctionDefinition? then path[0]
    else FirstFunction(path[1..])
  }

  /** The shape of the tree below a node, which is owned by it. */
  datatype Tree = Tree(node: Node, subs: seq<Tree>)

  ghost function Nodes(t: Tree): set<Node> {
    {t.node} + set j, x | 0 <= j < |t.subs| && x in Nodes(t.subs[j]) :: x
  }

  /** The tree has all that every node owns, and no node has two owners. */
  ghost predicate Owns(t: Tree) {
    |Owned(t.node.members)| == |t.subs|
    && (forall j :: 0 <= j < |t.subs| ==>
          Owned(t.node.members)[j] == t.subs[j].node && Owns(t.subs[j]) && t.node !in Nodes(t.subs[j]))
    && (forall j, k :: 0 <= j < k < |t.subs| ==> Nodes(t.subs[j]) !! Nodes(t.subs[k]))
  }

  /** In m, every node's parent is its direct container, and p is the one of the root. */
  ghost predicate Fits(t: Tree, p: Node?, m: map<Node, Node?>) {
    t.node in m && m[t.node] == p && forall j :: 0 <= j < |t.subs| ==> Fits(t.subs[j], t.node, m)
  }

  ghost function Parents(t: Tree): map<Node, Node?>
    reads Nodes(t)
  {
    map n | n in Nodes(t) :: n.parent
  }

  ghost predicate Solved(t: Tree, p: Node?)
    reads Nodes(t)
  {
    Fits(t, p, Parents(t))
  }

  lemma {:induction false} FitsElsewhere(t: Tree, p: Node?, m: map<Node, Node?>, k: map<Node, Node?>)
    requires Fits(t, p, m) && forall n :: n in Nodes(t) ==> n in m && n in k && m[n] == k[n]
    ensures Fits(t, p, k)
  {
    forall j | 0 <= j < |t.subs| ensures Fits(t.subs[j], t.node, k) {
      FitsElsewhere(t.subs[j], t.node, m, k);
    }
  }

  lemma SubNodes(t: Tree, i: nat)
    requires i < |t.subs|
    ensures Nodes(t.subs[i]) <= Nodes(t)
  {
  }

  /** A visit to one child leaves the parents below the others alone. */
  lemma AfterVisit(t: Tree, i: nat, before: map<Node, Node?>, after: map<Node, Node?>)
    requires Owns(t) && i < |t.subs| && before.Keys == after.Keys == Nodes(t)
    requires forall n :: n in Nodes(t) && n !in Nodes(t.subs[i]) ==> after[n] == before[n]
    requires forall j :: 0 <= j < i ==> Fits(t.subs[j], t.node, before)
    requires Fits(t.subs[i], t.node, after)
    ensures forall j :: 0 <= j <= i ==> Fits(t.subs[j], t.node, after)
  {
    forall j | 0 <= j < i ensures Fits(t.subs[j], t.node, after) {
      assert Nodes(t.subs[j]) !! Nodes(t.subs[i]);
      SubNodes(t, j);
      FitsElsewhere(t.subs[j], t.node, before, after);
    }
  }

  /** t is the tree of the node; `all` holds its nodes. */
  ghost predicate Visitable(node: Node, t: Tree, all: set<Node>) {
    t.node == node && Owns(t) && Nodes(t) <= all
  }

  /** The root and the trees of its first n members are solved. */
  ghost predicate Progress(t: Tree, parent: Node?, n: nat)
    reads Nodes(t)
  {
    n <= |t.subs| && t.node.parent == parent && forall j :: 0 <= j < n ==> Fits(t.subs[j], t.node, Parents(t))
  }

  class ParentSolverVisitor {
    method Run(root: Node, ghost t: Tree)
      requires t.node == root && Owns(t)
      modifies Nodes(t)`parent
      ensures Solved(t, null)
    {
      Visit(root, null, t, Nodes(t));
    }

    /** Sets the parents in the whole tree, and changes nothing else: every kind of node has a visit
        of its own. */
    method Visit(node: Node, parent: Node?, ghost t: Tree, ghost all: set<Node>)
      requires Visitable(node, t, all)
      modifies Nodes(t)`parent
      ensures Solved(t, parent)
      decreases t, 2
    {
      match node.members {
        case If(_, _, _) => VisitIf(node, parent, t, all);
        case For(_, _, _, _) => VisitFor(node, parent, t, all);
        case Foreach(_, _, _) => VisitForeach(node, parent, t, all);
        case While(_, _) => VisitWhile(node, parent, t, all);
        case Import(_) => VisitImport(node, parent, t, all);
        case Module(_) => VisitModule(node, parent, t, all);
        case EmptyExpr => VisitLeaf(node, parent, t, all);
        case Identifier => VisitLeaf(node, parent, t, all);
        case VariableRef => VisitLeaf(node, parent, t, all);
        case VariableDefinition(_, _, _) => VisitVariableDefinition(node, parent, t, all);
        case GlobalVariableDefinition(_) => VisitGlobalVariableDefinition(node, parent, t, all);
        case FunctionParameter(_) => VisitFunctionParameter(node, parent, t, all);
        case FunctionPrototype(_, _, _) => VisitFunctionPrototype(node, parent, t, all);
        case FunctionDefinition(_, _) => VisitFunctionDefinition(node, parent, t, all);
        case Return(_) => VisitReturn(node, parent, t, all);
        case IntegerLiteral(_) => VisitIntegerLiteral(node, parent, t, all);
        case FloatLiteral(_) => VisitFloatLiteral(node, parent, t, all);
        case StringLiteral(_) => VisitStringLiteral(node, parent, t, all);
        case CharLiteral(_) => VisitCharLiteral(node, parent, t, all);
        case BoolLiteral(_) => VisitBoolLiteral(node, parent, t, all);
        case Binary(_, _) => VisitBinary(node, parent, t, all);
        case Unary(_) => VisitUnary(node, parent, t, all);
        case Assignment(_, _) => VisitAssignment(node, parent, t, all);
        case ArbitraryOperand(_) => VisitArbitraryOperand(node, parent, t, all);
        case EmptyStmt => VisitLeaf(node, parent, t, all);
        case Block(_) => VisitBlock(node, parent, t, all);
        case ExprStmt(_) => VisitExprStmt(node, parent, t, all);
        case Alias(_, _) => VisitAlias(node, parent, t, all);
      }
    }

    /** An empty expression or statement, an identifier or a variable reference. */
    method VisitLeaf(node: Node, parent: Node?, ghost t: Tree, ghost all: set<Node>)
      requires Visitable(node, t, all) && Owned(node.members) == []
      modifies Nodes(t)`parent
      ensures Solved(t, parent)
      decreases t, 1
    {
      node.parent := parent;
    }

    /** The visit of the i-th member, with the node as its parent. */
    method VisitMember(member: Node, ghost i: nat, owner: Node, ghost parent: Node?,
       ghost t: Tree, ghost all: set<Node>)
      requires Visitable(owner, t, all) && i < |t.subs| && t.subs[i].node == member && Progress(t, parent, i)
      modifies Nodes(t.subs[i])`parent
      ensures Progress(t, parent, i + 1)
      decreases t, 0
    {
      ghost var before := Parents(t);
      ghost var sub := Nodes(t.subs[i]);
      SubNodes(t, i);
      label L:
      Visit(member, owner, t.subs[i], all);
      assert forall n :: n in all && n !in sub ==> n.parent == old@L(n.parent);
      FitsElsewhere(t.subs[i], owner, Parents(t.subs[i]), Parents(t));
      AfterVisit(t, i, before, Parents(t));
    }

    method VisitIf(node: Node, parent: Node?, ghost t: Tree, ghost all: set<Node>)
      requires Visitable(node, t, all) && node.members.If?
      modifies Nodes(t)`parent
      ensures Solved(t, parent)
      decreases t, 1
    {
      node.parent := parent;
      VisitMember(node.members.condition, 0, node, parent, t, all);
      VisitMember(node.members.ifBlock, 1, node, parent, t, all);
      VisitMember(node.members.elseBlock, 2, node, parent, t, all);
    }

    method VisitFor(node: Node, parent: Node?, ghost t: Tree, ghost all: set<Node>)
      requires Visitable(node, t, all) && node.members.For?
      modifies Nodes(t)`parent
      ensures Solved(t, parent)
      decreases t, 1
    {
      node.parent := parent;
      VisitMember(node.members.init, 0, node, parent, t, all);
      VisitMember(node.members.end, 1, node, parent, t, all);
      VisitMember(node.members.step, 2, node, parent, t, all);
      VisitMember(node.members.block, 3, node, parent, t, all);
    }

    method VisitForeach(node: Node, parent: Node?, ghost t: Tree, ghost all: set<Node>)
      requires Visitable(node, t, all) && node.members.Foreach?
      modifies Nodes(t)`parent
      ensures Solved(t, parent)
      decreases t, 1
    {
      node.parent := parent;
      VisitMember(node.members.iteratee, 0, node, parent, t, all);
      VisitMember(node.members.variable, 1, node, parent, t, all);
      VisitMember(node.members.block, 2, node, parent, t, all);
    }

    method VisitWhile(node: Node, parent: Node?, ghost t: Tree, ghost all: set<Node>)
      requires Visitable(node, t, all) && node.members.While?
      modifies Nodes(t)`parent
      ensures Solved(t, parent)
      decreases t, 1
    {
      node.parent := parent;
      VisitMember(node.members.condition, 0, node, parent, t, all);
      VisitMember(node.members.block, 1, node, parent, t, all);
    }

    method VisitImport(node: Node, parent: Node?, ghost t: Tree, ghost all: set<Node>)
      requires Visitable(node, t, all) && node.members.Import?
      modifies Nodes(t)`parent
      ensures Solved(t, parent)
      decreases t, 1
    {
      node.parent := parent;
      VisitMember(node.members.importee, 0, node, parent, t, all);
    }

    method VisitModule(node: Node, parent: Node?, ghost t: Tree, ghost all: set<Node>)
      requires Visitable(node, t, all) && node.members.Module?
      modifies Nodes(t)`parent
      ensures Solved(t, parent)
      decreases t, 1
    {
      node.parent := parent;
      VisitMember(node.members.moduleName, 0, node, parent, t, all);
    }

    method VisitVariableDefinition(node: Node, parent: Node?, ghost t: Tree, ghost all: set<Node>)
      requires Visitable(node, t, all) && node.members.VariableDefinition?
      modifies Nodes(t)`parent
      ensures Solved(t, parent)
      decreases t, 1
    {
      node.parent := parent;
      VisitMember(node.members.typename, 0, node, parent, t, all);
      VisitMember(node.members.name, 1, node, parent, t, all);
      VisitMember(node.members.init, 2, node, parent, t, all);
    }

    method VisitGlobalVariableDefinition(node: Node, parent: Node?, ghost t: Tree, ghost all: set<Node>)
      requires Visitable(node, t, all) && node.members.GlobalVariableDefinition?
      modifies Nodes(t)`parent
      ensures Solved(t, parent)
      decreases t, 1
    {
      node.parent := parent;
      VisitMember(node.members.definition, 0, node, parent, t, all);
    }

    method VisitFunctionParameter(node: Node, parent: Node?, ghost t: Tree, ghost all: set<Node>)
      requires Visitable(node, t, all) && node.members.FunctionParameter?
      modifies Nodes(t)`parent
      ensures Solved(t, parent)
      decreases t, 1
    {
      node.parent := parent;
      VisitMember(node.members.definition, 0, node, parent, t, all);
    }

    method VisitFunctionPrototype(node: Node, parent: Node?, ghost t: Tree, ghost all: set<Node>)
      requires Visitable(node, t, all) && node.members.FunctionPrototype?
      modifies Nodes(t)`parent
      ensures Solved(t, parent)
      decreases t, 1
    {
      node.parent := parent;
      VisitMember(node.members.name, 0, node, parent, t, all);
      VisitMember(node.members.returnType, 1, node, parent, t, all);
      var params := node.members.params;
      for i := 0 to |params|
        invariant Progress(t, parent, 2 + i)
      {
        VisitMember(params[i], 2 + i, node, parent, t, all);
      }
    }

    method VisitFunctionDefinition(node: Node, parent: Node?, ghost t: Tree, ghost all: set<Node>)
      requires Visitable(node, t, all) && node.members.FunctionDefinition?
      modifies Nodes(t)`parent
      ensures Solved(t, parent)
      decreases t, 1
    {
      node.parent := parent;
      VisitMember(node.members.proto, 0, node, parent, t, all);
      VisitMember(node.members.body, 1, node, parent, t, all);
    }

    method VisitReturn(node: Node, parent: Node?, ghost t: Tree, ghost all: set<Node>)
      requires Visitable(node, t, all) && node.members.Return?
      modifies Nodes(t)`parent
      ensures Solved(t, parent)
      decreases t, 1
    {
      node.parent := parent;
      VisitMember(node.members.returnValue, 0, node, parent, t, all);
    }

    method VisitIntegerLiteral(node: Node, parent: Node?, ghost t: Tree, ghost all: set<Node>)
      requires Visitable(node, t, all) && node.members.IntegerLiteral?
      modifies Nodes(t)`parent
      ensures Solved(t, parent)
      decreases t, 1
    {
      node.parent := parent;
      VisitMember(node.members.typename, 0, node, parent, t, all);
    }

    method VisitFloatLiteral(node: Node, parent: Node?, ghost t: Tree, ghost all: set<Node>)
      requires Visitable(node, t, all) && node.members.FloatLiteral?
      modifies Nodes(t)`parent
      ensures Solved(t, parent)
      decreases t, 1
    {
      node.parent := parent;
      VisitMember(node.members.typename, 0, node, parent, t, all);
    }

    method VisitStringLiteral(node: Node, parent: Node?, ghost t: Tree, ghost all: set<Node>)
      requires Visitable(node, t, all) && node.members.StringLiteral?
      modifies Nodes(t)`parent
      ensures Solved(t, parent)
      decreases t, 1
    {
      node.parent := parent;
      VisitMember(node.members.typename, 0, node, parent, t, all);
    }

    method VisitCharLiteral(node: Node, parent: Node?, ghost t: Tree, ghost all: set<Node>)
      requires Visitable(node, t, all) && node.members.CharLiteral?
      modifies Nodes(t)`parent
      ensures Solved(t, parent)
      decreases t, 1
    {
      node.parent := parent;
      VisitMember(node.members.typename, 0, node, parent, t, all);
    }

    method VisitBoolLiteral(node: Node, parent: Node?, ghost t: Tree, ghost all: set<Node>)
      requires Visitable(node, t, all) && node.members.BoolLiteral?
      modifies Nodes(t)`parent
      ensures Solved(t, parent)
      decreases t, 1
    {
      node.parent := parent;
      VisitMember(node.members.typename, 0, node, parent, t, all);
    }

    method VisitBinary(node: Node, parent: Node?, ghost t: Tree, ghost all: set<Node>)
      requires Visitable(node, t, all) && node.members.Binary?
      modifies Nodes(t)`parent
      ensures Solved(t, parent)
      decreases t, 1
    {
      node.parent := parent;
      VisitMember(node.members.lhs, 0, node, parent, t, all);
      VisitMember(node.members.rhs, 1, node, parent, t, all);
    }

    method VisitUnary(node: Node, parent: Node?, ghost t: Tree, ghost all: set<Node>)
      requires Visitable(node, t, all) && node.members.Unary?
      modifies Nodes(t)`parent
      ensures Solved(t, parent)
      decreases t, 1
    {
      node.parent := parent;
      VisitMember(node.members.operand, 0, node, parent, t, all);
    }

    method VisitAssignment(node: Node, parent: Node?, ghost t: Tree, ghost all: set<Node>)
      requires Visitable(node, t, all) && node.members.Assignment?
      modifies Nodes(t)`parent
      ensures Solved(t, parent)
      decreases t, 1
    {
      node.parent := parent;
      VisitMember(node.members.lhs, 0, node, parent, t, all);
      VisitMember(node.members.rhs, 1, node, parent, t, all);
    }

    method VisitArbitraryOperand(node: Node, parent: Node?, ghost t: Tree, ghost all: set<Node>)
      requires Visitable(node, t, all) && node.members.ArbitraryOperand?
      modifies Nodes(t)`parent
      ensures Solved(t, parent)
      decreases t, 1
    {
      node.parent := parent;
      var operands := node.members.operands;
      for i := 0 to |operands|
        invariant Progress(t, parent, i)
      {
        VisitMember(operands[i], i, node, parent, t, all);
      }
    }

    method VisitBlock(node: Node, parent: Node?, ghost t: Tree, ghost all: set<Node>)
      requires Visitable(node, t, all) && node.members.Block?
      modifies Nodes(t)`parent
      ensures Solved(t, parent)
      decreases t, 1
    {
      node.parent := parent;
      var nodes := node.members.nodes;
      for i := 0 to |nodes|
        invariant Progress(t, parent, i)
      {
        VisitMember(nodes[i], i, node, parent, t, all);
      }
    }

    method VisitExprStmt(node: Node, parent: Node?, ghost t: Tree, ghost all: set<Node>)
      requires Visitable(node, t, all) && node.members.ExprStmt?
      modifies Nodes(t)`parent
      ensures Solved(t, parent)
      decreases t, 1
    {
      node.parent := parent;
      VisitMember(node.members.expr, 0, node, parent, t, all);
    }

    method VisitAlias(node: Node, parent: Node?, ghost t: Tree, ghost all: set<Node>)
      requires Visitable(node, t, all) && node.members.Alias?
      modifies Nodes(t)`parent
      ensures Solved(t, parent)
      decreases t, 1
    {
      node.parent := parent;
      VisitMember(node.members.alias, 0, node, parent, t, all);
      VisitMember(node.members.aliasee, 1, node, parent, t, all);
    }
  }

  /** In a solved tree every member of every node has the node that owns it as its parent. */
  lemma {:induction false} MembersHaveOwners(t: Tree, p: Node?, n: Node, m: Node)
    requires Owns(t) && Solved(t, p) && n in Nodes(t) && m in Owned(n.members)
    ensures t.node.parent == p && m in Nodes(t) && m.parent == n
    decreases t
  {
    if n == t.node {
      var j :| 0 <= j < |t.subs| && Owned(n.members)[j] == m;
      SubNodes(t, j);
      assert Fits(t.subs[j], t.node, Parents(t));
    } else {
      var j :| 0 <= j < |t.subs| && n in Nodes(t.subs[j]);
      SubNodes(t, j);
      FitsElsewhere(t.subs[j], t.node, Parents(t), Parents(t.subs[j]));
      MembersHaveOwners(t.subs[j], t.node, n, m);
    }
  }

  /** The parent of everything that is stored in a field of n is n. */
  ghost predicate FieldsPointTo(n: Node)
    reads *
  {
    match n.members
    case If(condition, ifBlock, elseBlock) => condition.parent == n && ifBlock.parent == n && elseBlock.parent == n
    case For(init, end, step, block) => init.parent == n && end.parent == n && step.parent == n && block.parent == n
    case Foreach(iteratee, variable, block) => iteratee.parent == n && variable.parent == n && block.parent == n
    case While(condition, block) => condition.parent == n && block.parent == n
    case Import(importee) => importee.parent == n
    case Module(moduleName) => moduleName.parent == n
    case EmptyExpr => true
    case Identifier => true
    case VariableRef => true
    case VariableDefinition(typename, name, init) => typename.parent == n && name.parent == n && init.parent == n
    case GlobalVariableDefinition(definition) => definition.parent == n
    case FunctionParameter(definition) => definition.parent == n
    case FunctionPrototype(name, returnType, params) =>
      name.parent == n && returnType.parent == n && forall i :: 0 <= i < |params| ==> params[i].parent == n
    case FunctionDefinition(proto, body) => proto.parent == n && body.parent == n
    case Return(returnValue) => returnValue.parent == n
    case IntegerLiteral(typename) => typename.parent == n
    case FloatLiteral(typename) => typename.parent == n
    case StringLiteral(typename) => typename.parent == n
    case CharLiteral(typename) => typename.parent == n
    case BoolLiteral(typename) => typename.parent == n
    case Binary(lhs, rhs) => lhs.parent == n && rhs.parent == n
    case Unary(operand) => operand.parent == n
    case Assignment(lhs, rhs) => lhs.parent == n && rhs.parent == n
    case ArbitraryOperand(operands) => forall i :: 0 <= i < |operands| ==> operands[i].parent == n
    case EmptyStmt => true
    case Block(nodes) => forall i :: 0 <= i < |nodes| ==> nodes[i].parent == n
    case ExprStmt(expr) => expr.parent == n
    case Alias(alias, aliasee) => alias.parent == n && aliasee.parent == n
  }

  /** The same, field by field. */
  lemma FieldsHaveOwners(t: Tree, p: Node?, n: Node)
    requires Owns(t) && Solved(t, p) && n in Nodes(t)
    ensures FieldsPointTo(n)
  {
    forall m | m in Owned(n.members) ensures m.parent == n {
      MembersHaveOwners(t, p, n, m);
    }
    OwnedPointTo(n);
  }

  lemma OwnedPointTo(n: Node)
    requires forall m :: m in Owned(n.members) ==> m.parent == n
    ensures FieldsPointTo(n)
  {
    match n.members {
      case FunctionPrototype(name, returnType, params) =>
        forall i | 0 <= i < |params| ensures params[i] in Owned(n.members) {
          assert Owned(n.members)[i + 2] == params[i];
        }
        assert Owned(n.members)[0] == name && Owned(n.members)[1] == returnType;
      case _ =>
    }
  }

  /** The nodes from n up to the root of t. */
  ghost function Containers(t: Tree, n: Node): (path: seq<Node>)
    requires n in Nodes(t)
    ensures path != [] && path[0] == n && path[|path| - 1] == t.node
  {
    if n == t.node then [n]
    else
      var j :| 0 <= j < |t.subs| && n in Nodes(t.subs[j]);
      Containers(t.subs[j], n) + [t.node]
  }

  /** The innermost function definition on the way from the root of t down to n, or else the
      one around t. */
  ghost function Innermost(t: Tree, n: Node, outer: Node?): Node?
    requires n in Nodes(t)
  {
    var here := if t.node.members.FunctionDefinition? then t.node else outer;
    if n == t.node then here
    else
      var j :| 0 <= j < |t.subs| && n in Nodes(t.subs[j]);
      Innermost(t.subs[j], n, here)
  }

  lemma LeadsOn(path: seq<Node>, x: Node, p: Node?)
    requires Leads(path, x) && x.parent == p
    ensures Leads(path + [x], p)
  {
  }

  lemma {:induction false} ContainersAreParents(t: Tree, n: Node, p: Node?)
    requires Owns(t) && Solved(t, p) && n in Nodes(t)
    ensures Leads(Containers(t, n), p)
  {
    if n != t.node {
      var j :| 0 <= j < |t.subs| && n in Nodes(t.subs[j]) && Containers(t, n) == Containers(t.subs[j], n) + [t.node];
      FitsElsewhere(t.subs[j], t.node, Parents(t), Parents(t.subs[j]));
      ContainersAreParents(t.subs[j], n, t.node);
      LeadsOn(Containers(t.subs[j], n), t.node, p);
    }
  }

  lemma {:induction false} FirstFunctionOf(a: seq<Node>, x: Node)
    ensures FirstFunction(a + [x]) == if FirstFunction(a) != null then FirstFunction(a)
                                      else if x.members.FunctionDefinition? then x else null
  {
    if a != [] {
      assert (a + [x])[1..] == a[1..] + [x];
      FirstFunctionOf(a[1..], x);
    }
  }

  lemma OneSub(t: Tree, n: Node, j: nat, k: nat)
    requires Owns(t) && j < |t.subs| && k < |t.subs| && n in Nodes(t.subs[j]) && n in Nodes(t.subs[k])
    ensures j == k
  {
  }

  lemma {:induction false} InnermostIsFirst(t: Tree, n: Node, outer: Node?)
    requires Owns(t) && n in Nodes(t)
    ensures Innermost(t, n, outer) == if FirstFunction(Containers(t, n)) != null then FirstFunction(Containers(t, n)) else outer
  {
    hide Owned;
    if n != t.node {
      var j :| 0 <= j < |t.subs| && n in Nodes(t.subs[j]) && Containers(t, n) == Containers(t.subs[j], n) + [t.node];
      var here := if t.node.members.FunctionDefinition? then t.node else outer;
      var k :| 0 <= k < |t.subs| && n in Nodes(t.subs[k]) && Innermost(t, n, outer) == Innermost(t.subs[k], n, here);
      OneSub(t, n, j, k);
      InnermostIsFirst(t.subs[j], n, here);
      FirstFunctionOf(Containers(t.subs[j], n), t.node);
    }
  }

  /** In a solved tree the search ends for every node, and finds the innermost function
      definition that is the node or contains it, or null when there is none. */
  lemma GetFunctionIsInnermost(root: Tree, n: Node)
    requires Owns(root) && Solved(root, null) && n in Nodes(root)
    ensures n.Chain(Containers(root, n))
    ensures n.GetFunction(Containers(root, n)) == Innermost(root, n, null)
  {
    ContainersAreParents(root, n, null);
    InnermostIsFirst(root, n, null);
  }
}
