/**
  The slice of the JavaScript syntax tree that the scanner inspects.

  The tree is produced by an external parser; this module only names the
  node shapes the scanner distinguishes. `Literal`, `Expr`, `Decl` and
  `Stmt` each carry a catch-all variant for the shapes the scanner ignores;
  `ProgramPart` names the directive case explicitly. Literal texts are kept raw,
  exactly as written in the source, quote characters included.
 */
module Ast {

  datatype Option<T> = None | Some(value: T)

  /** A literal token. Only `Str` is ever consulted; `raw` keeps its quotes. */
  datatype Literal =
    | Null
    | Boolean(truth: bool)
    | Number(raw: string)
    | Str(raw: string)
    | OtherLiteral

  /** An expression. `Member` stands for `object.property` (or `object[property]`). */
  datatype Expr =
    | Ident(name: string)
    | LiteralExpr(lit: Literal)
    | Call(call: CallExpr)
    | Member(object: Expr, property: Expr, computed: bool)
    | OtherExpr

  /** A call `callee(arguments...)`. */
  datatype CallExpr = CallExpr(callee: Expr, arguments: seq<Expr>)

  /** The binding forms of a static import: `_`, `* as n`, `{ imported as local }`. */
  datatype ImportSpecifier =
    | Default(local: string)
    | Namespace(local: string)
    | Normal(local: string, imported: string)

  /** `import <specifiers> from <source>`. */
  datatype ModImport = ModImport(specifiers: seq<ImportSpecifier>, source: Literal)

  datatype VarKind = Var | Let | Const

  /** One declarator `id = init` of a variable declaration; `init` is optional. */
  datatype VariableDecl = VariableDecl(id: string, init: Option<Expr>)

  datatype Decl =
    | Variable(kind: VarKind, decls: seq<VariableDecl>)
    | Import(modImport: ModImport)
    | OtherDecl

  datatype Stmt = ExprStmt(expr: Expr) | OtherStmt

  /** A top-level part of a program. */
  datatype ProgramPart =
    | Directive(text: string)
    | PartDecl(decl: Decl)
    | PartStmt(stmt: Stmt)

  /** The parser's error value; its contents are opaque to the scanner. */
  datatype ParseError = ParseError(message: string)

  datatype Result<T> = Ok(value: T) | Err(error: ParseError)

  /**
    What the parser gives the scanner: either it could not be constructed
    for the text at all, or it yields the top-level parts one by one, each
    of which is a part or a per-part error.
   */
  datatype ParserOutput =
    | ConstructionFailed(failure: ParseError)
    | Parts(parts: seq<Result<ProgramPart>>)
}
