/**
  The dependency-specifier scanner (packages/scanner/src/lib.rs).

  The scan walks the top-level parts of a parsed program once and collects
  the string specifiers of static `import ... from 'x'` declarations, of
  `require('x')` calls that initialise a declared variable, and of bare
  `require('x');` statements, in source order, duplicates kept.

  As in the source, the growing list is threaded through each helper by
  value: every helper takes the list so far and returns it with its own
  finds appended. The functions `...Specifiers` say what each node adds;
  each method is proved to append exactly that.
 */
module Scanner {
  import opened Ast
  import opened Quotes

  // ---------------------------------------------------------------------
  // What each node contributes

  /** A call adds the trimmed text of argument 0 if the callee is the identifier `require` and that argument a string literal. */
  function CallSpecifiers(c: CallExpr): (r: seq<string>)
    ensures |r| <= 1
  {
    match c.callee
    case Ident(name) =>
      if name == "require" && |c.arguments| > 0 then
        match c.arguments[0]
        case LiteralExpr(Str(raw)) => [TrimQuotes(raw)]
        case _ => []
      else []
    case _ => []
  }

  /** An import declaration adds its source, whatever its bindings, when that is a string literal. */
  function ImportSpecifiers(m: ModImport): (r: seq<string>)
    ensures |r| <= 1
  {
    match m.source
    case Str(raw) => [TrimQuotes(raw)]
    case _ => []
  }

  /** A declarator adds what its initializer adds when that is a call, and nothing otherwise. */
  function DeclaratorSpecifiers(d: VariableDecl): (r: seq<string>)
    ensures |r| <= 1
  {
    match d.init
    case Some(Call(c)) => CallSpecifiers(c)
    case _ => []
  }

  /** The declarators' contributions, in declarator order. */
  function DeclaratorsSpecifiers(ds: seq<VariableDecl>): (r: seq<string>)
    ensures |r| <= |ds|
  {
    if ds == [] then []
    else DeclaratorSpecifiers(ds[0]) + DeclaratorsSpecifiers(ds[1..])
  }

  /** A declaration adds its import's source, or its declarators' finds, or nothing. */
  function DeclSpecifiers(d: Decl): (r: seq<string>)
    ensures |r| <= if d.Variable? then |d.decls| else 1
  {
    match d
    case Import(m) => ImportSpecifiers(m)
    case Variable(_, ds) => DeclaratorsSpecifiers(ds)
    case OtherDecl => []
  }

  /** The number of declarators a part holds: zero unless it is a variable declaration. */
  function Declarators(p: Result<ProgramPart>): (n: nat) {
    match p
    case Ok(PartDecl(Variable(_, ds))) => |ds|
    case _ => 0
  }

  function TotalDeclarators(parts: seq<Result<ProgramPart>>): (n: nat) {
    if parts == [] then 0
    else Declarators(parts[0]) + TotalDeclarators(parts[1..])
  }

  /**
    A top-level part adds what its declaration adds, or what its call adds
    when it is an expression statement whose expression is a call. Per-part
    parse errors, directives and other statements add nothing.
   */
  function PartSpecifiers(p: Result<ProgramPart>): (r: seq<string>)
    ensures |r| <= if p.Ok? && p.value.PartDecl? && p.value.decl.Variable? then Declarators(p) else 1
  {
    match p
    case Err(_) => []
    case Ok(PartDecl(d)) => DeclSpecifiers(d)
    case Ok(PartStmt(ExprStmt(Call(c)))) => CallSpecifiers(c)
    case Ok(_) => []
  }

  /** The scan of a sequence of parts: their contributions, in part order. */
  function ScanParts(parts: seq<Result<ProgramPart>>): (r: seq<string>)
    ensures |r| <= |parts| + TotalDeclarators(parts)
  {
    if parts == [] then []
    else PartSpecifiers(parts[0]) + ScanParts(parts[1..])
  }

  /** The whole scan: the parser's construction error, or the list of specifiers. */
  function Scan(input: ParserOutput): (r: Result<seq<string>>)
    ensures r.Err? <==> input.ConstructionFailed?
    ensures r.Err? ==> r.error == input.failure
  {
    match input
    case ConstructionFailed(e) => Err(e)
    case Parts(parts) => Ok(ScanParts(parts))
  }

  lemma AppendAssoc<T>(a: seq<T>, b: seq<T>, c: seq<T>)
    ensures (a + b) + c == a + (b + c)
  {
  }

  /** Declarator order: the contributions of two runs of declarators concatenate. */
  lemma {:induction false} DeclaratorsAppend(a: seq<VariableDecl>, b: seq<VariableDecl>)
    ensures DeclaratorsSpecifiers(a + b) == DeclaratorsSpecifiers(a) + DeclaratorsSpecifiers(b)
  {
    if a == [] {
      assert a + b == b;
    } else {
      assert (a + b)[0] == a[0] && (a + b)[1..] == a[1..] + b;
      calc {
        DeclaratorsSpecifiers(a + b);
        == DeclaratorSpecifiers(a[0]) + DeclaratorsSpecifiers(a[1..] + b);
        == { DeclaratorsAppend(a[1..], b); }
        DeclaratorSpecifiers(a[0]) + (DeclaratorsSpecifiers(a[1..]) + DeclaratorsSpecifiers(b));
        == { AppendAssoc(DeclaratorSpecifiers(a[0]), DeclaratorsSpecifiers(a[1..]), DeclaratorsSpecifiers(b)); }
        DeclaratorsSpecifiers(a) + DeclaratorsSpecifiers(b);
      }
    }
  }

  /** Part order: the scans of two runs of parts concatenate. */
  lemma {:induction false} ScanPartsAppend(a: seq<Result<ProgramPart>>, b: seq<Result<ProgramPart>>)
    ensures ScanParts(a + b) == ScanParts(a) + ScanParts(b)
  {
    if a == [] {
      assert a + b == b;
    } else {
      assert (a + b)[0] == a[0] && (a + b)[1..] == a[1..] + b;
      calc {
        ScanParts(a + b);
        == PartSpecifiers(a[0]) + ScanParts(a[1..] + b);
        == { ScanPartsAppend(a[1..], b); }
        PartSpecifiers(a[0]) + (ScanParts(a[1..]) + ScanParts(b));
        == { AppendAssoc(PartSpecifiers(a[0]), ScanParts(a[1..]), ScanParts(b)); }
        ScanParts(a) + ScanParts(b);
      }
    }
  }

  /** One more declarator appends its own contribution. */
  lemma DeclaratorsStep(ds: seq<VariableDecl>, i: int)
    requires 0 <= i < |ds|
    ensures DeclaratorsSpecifiers(ds[..i + 1]) == DeclaratorsSpecifiers(ds[..i]) + DeclaratorSpecifiers(ds[i])
  {
    assert ds[..i + 1] == ds[..i] + [ds[i]];
    DeclaratorsAppend(ds[..i], [ds[i]]);
    assert [ds[i]][1..] == [];
  }

  /** One more part appends its own contribution. */
  lemma ScanPartsStep(parts: seq<Result<ProgramPart>>, i: int)
    requires 0 <= i < |parts|
    ensures ScanParts(parts[..i + 1]) == ScanParts(parts[..i]) + PartSpecifiers(parts[i])
  {
    assert parts[..i + 1] == parts[..i] + [parts[i]];
    ScanPartsAppend(parts[..i], [parts[i]]);
    assert [parts[i]][1..] == [];
  }

  // ---------------------------------------------------------------------
  // The scanner's helpers, each appending to the list it is given

  /** `match_expr`: appends the specifier of a `require` call, if any. */
  method MatchExpr(expression: CallExpr, pd: seq<string>) returns (res: seq<string>)
    ensures res == pd + CallSpecifiers(expression)
  {
    res := pd;
    match expression.callee {
      case Ident(callee) =>
        if callee == "require" {
          if |expression.arguments| > 0 {
            var argument := expression.arguments[0];
            match argument {
              case LiteralExpr(literal) =>
                match literal {
                  case Str(stringArg) =>
                    res := res + [TrimQuotes(stringArg)];
                  case _ =>
                }
              case _ =>
            }
          }
        }
      case _ =>
    }
  }

  /** `match_import`: appends the import's source, if it is a string literal. */
  method MatchImport(modImport: ModImport, pd: seq<string>) returns (res: seq<string>)
    ensures res == pd + ImportSpecifiers(modImport)
  {
    res := pd;
    var source := modImport.source;
    if source.Str? {
      res := res + [TrimQuotes(source.raw)];
    }
  }

  /** `match_variable`: walks the declarators in order, matching each call initializer. */
  method MatchVariable(variableVec: seq<VariableDecl>, pd: seq<string>) returns (res: seq<string>)
    ensures res == pd + DeclaratorsSpecifiers(variableVec)
  {
    res := pd;
    var i := 0;
    while i < |variableVec|
      invariant 0 <= i <= |variableVec|
      invariant res == pd + DeclaratorsSpecifiers(variableVec[..i])
    {
      var v := variableVec[i];
      ghost var before := res;
      match v.init {
        case Some(variableInit) =>
          match variableInit {
            case Call(call) => res := MatchExpr(call, res);
            case _ =>
          }
        case None =>
      }
      assert res == before + DeclaratorSpecifiers(v);
      DeclaratorsStep(variableVec, i);
      AppendAssoc(pd, DeclaratorsSpecifiers(variableVec[..i]), DeclaratorSpecifiers(v));
      i := i + 1;
    }
    assert variableVec[..i] == variableVec;
  }

  /** `match_declaration`: dispatches on the declaration kind. */
  method MatchDeclaration(declaration: Decl, pd: seq<string>) returns (res: seq<string>)
    ensures res == pd + DeclSpecifiers(declaration)
  {
    res := pd;
    match declaration {
      case Import(modImport) => res := MatchImport(modImport, res);
      case Variable(_, variableVec) => res := MatchVariable(variableVec, res);
      case OtherDecl =>
    }
  }

  /**
    `parse_js`: the scan. The parser is given as its output: a
    construction error is returned as it is; otherwise every part is
    visited once, in order, and the collected list is returned.
   */
  method ParseJs(input: ParserOutput) returns (r: Result<seq<string>>)
    ensures r == Scan(input)
  {
    if input.ConstructionFailed? {
      return Err(input.failure);
    }
    var p := input.parts;
    var pd: seq<string> := [];
    var i := 0;
    while i < |p|
      invariant 0 <= i <= |p|
      invariant pd == ScanParts(p[..i])
    {
      var part := p[i];
      ghost var before := pd;
      match part {
        case Ok(thePart) =>
          match thePart {
            case PartDecl(somePart) => pd := MatchDeclaration(somePart, pd);
            case PartStmt(somePart) =>
              if somePart.ExprStmt? && somePart.expr.Call? {
                pd := MatchExpr(somePart.expr.call, pd);
              }
            case Directive(_) =>
          }
        case Err(_) =>
      }
      assert pd == before + PartSpecifiers(part);
      ScanPartsStep(p, i);
      i := i + 1;
    }
    assert p[..i] == p;
    return Ok(pd);
  }
}
