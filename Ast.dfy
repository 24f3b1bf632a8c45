/**
 * The abstract syntax tree that code generation consumes (node.h).
 *
 * Every node class of node.h becomes a constructor of a datatype.  The
 * references between nodes become owned children.  The one place where the
 * source relies on node identity, `_then != _else` in the if-statement, is
 * kept explicit: an else-block of `None` stands for an if whose `_else`
 * pointer is the very node `_then` points to.
 */
module Ast {

  datatype Option<T> = None | Some(value: T)

  /** A `long long` literal value. */
  type Int64 = x: int | -0x8000_0000_0000_0000 <= x < 0x8000_0000_0000_0000

  /**
   * Operator tokens of a binary operator node.  The numeric token codes come
   * from the generated parser header, which is not part of this model; every
   * token other than the four arithmetic ones is an `OtherToken`.
   */
  datatype Token = TPLUS | TMINUS | TMUL | TDIV | OtherToken(code: int)

  /** Expression nodes (NExpression and its subclasses; NBlock is one). */
  datatype Expr =
    | Long(value: Int64)
    | Identifier(name: string)
    | MethodCall(id: string, arguments: seq<Expr>)
    | BinaryOperator(op: Token, lhs: Expr, rhs: Expr)
    | Assignment(target: string, rhs: Expr)
    | BlockExpr(block: Block)

  /** NBlock: an ordered list of statements. */
  datatype Block = Block(statements: seq<Stmt>)

  /** NVariableDeclaration: type name, identifier and optional initializer. */
  datatype VariableDeclaration =
    VariableDeclaration(typeName: string, id: string, assignmentExpr: Option<Expr>)

  /** Statement nodes (NStatement and its subclasses). */
  datatype Stmt =
    | ExpressionStatement(expression: Expr)
    | ReturnStatement(expression: Expr)
    | Declaration(decl: VariableDeclaration)
    | FunctionDeclaration(returnType: string, name: string,
                          arguments: seq<VariableDeclaration>, body: Block)
    | IfStatement(cond: Expr, thenBlock: Block, elseBlock: Option<Block>)
    | WhileStatement(loopCond: Expr, loopBody: Block)

  // ---- The constructors of node.h ----

  /** NMethodCall(id, arguments): keeps the arguments in the given order. */
  function MethodCallWith(id: string, arguments: seq<Expr>): (r: Expr)
    ensures r.MethodCall? && r.id == id && r.arguments == arguments
    ensures |r.arguments| == |arguments| &&
            forall i :: 0 <= i < |arguments| ==> r.arguments[i] == arguments[i]
  {
    MethodCall(id, arguments)
  }

  /** NMethodCall(id): an empty argument list. */
  function MethodCallOf(id: string): (r: Expr)
    ensures r.MethodCall? && r.id == id && |r.arguments| == 0
  {
    MethodCall(id, [])
  }

  /**
   * NVariableDeclaration(type, id): the source leaves `assignmentExpr`
   * uninitialised; the model reads it as "no initializer".
   */
  function DeclarationOf(typeName: string, id: string): (r: VariableDeclaration)
    ensures r.typeName == typeName && r.id == id && r.assignmentExpr.None?
  {
    VariableDeclaration(typeName, id, None)
  }

  /** NVariableDeclaration(type, id, assignmentExpr): a null pointer is `None`. */
  function DeclarationWith(typeName: string, id: string, assignmentExpr: Option<Expr>): (r: VariableDeclaration)
    ensures r.typeName == typeName && r.id == id && r.assignmentExpr == assignmentExpr
  {
    VariableDeclaration(typeName, id, assignmentExpr)
  }

  /** NIfStatement(cond, NStatement*, NStatement*): each statement gets its own fresh block. */
  function IfOfStatements(cond: Expr, then_: Stmt, else_: Stmt): (r: Stmt)
    ensures r.IfStatement? && r.cond == cond
    ensures r.thenBlock == Block([then_]) && r.elseBlock == Some(Block([else_]))
  {
    IfStatement(cond, Block([then_]), Some(Block([else_])))
  }

  /** NIfStatement(cond, NBlock*, NStatement*): the block as is, the statement wrapped. */
  function IfOfBlockAndStatement(cond: Expr, then_: Block, else_: Stmt): (r: Stmt)
    ensures r.IfStatement? && r.cond == cond
    ensures r.thenBlock == then_ && r.elseBlock == Some(Block([else_]))
  {
    IfStatement(cond, then_, Some(Block([else_])))
  }

  /** NIfStatement(cond, NStatement*, NBlock*): the statement wrapped, the block as is. */
  function IfOfStatementAndBlock(cond: Expr, then_: Stmt, else_: Block): (r: Stmt)
    ensures r.IfStatement? && r.cond == cond
    ensures r.thenBlock == Block([then_]) && r.elseBlock == Some(else_)
  {
    IfStatement(cond, Block([then_]), Some(else_))
  }

  /** NIfStatement(cond, NBlock*, NBlock*) given two distinct block nodes. */
  function IfOfBlocks(cond: Expr, then_: Block, else_: Block): (r: Stmt)
    ensures r.IfStatement? && r.cond == cond
    ensures r.thenBlock == then_ && r.elseBlock == Some(else_)
  {
    IfStatement(cond, then_, Some(else_))
  }

  /**
   * NIfStatement(cond, b, b): the same block node passed for both branches,
   * the only way to obtain `_then == _else`, meaning "no else".
   */
  function IfOfSharedBlock(cond: Expr, b: Block): (r: Stmt)
    ensures r.IfStatement? && r.cond == cond
    ensures r.thenBlock == b && r.elseBlock.None?
  {
    IfStatement(cond, b, None)
  }

  /** NWhileStatement(cond, NBlock*): the block is the body. */
  function WhileOfBlock(cond: Expr, body: Block): (r: Stmt)
    ensures r.WhileStatement? && r.loopCond == cond && r.loopBody == body
  {
    WhileStatement(cond, body)
  }

  /** NWhileStatement(cond, NStatement*): the statement wrapped into a fresh block. */
  function WhileOfStatement(cond: Expr, body: Stmt): (r: Stmt)
    ensures r.WhileStatement? && r.loopCond == cond && r.loopBody == Block([body])
  {
    WhileStatement(cond, Block([body]))
  }
}
