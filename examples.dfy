/**
  The scanner's unit tests, and a mixed program, as
  lemmas about concrete syntax trees. Each tree is the one the parser builds
  for the JavaScript text quoted in the comment above it.
 */
module ScannerExamples {
  import opened Ast
  import opened Quotes
  import opened Scanner

  function RequireCall(raw: string): (e: Expr) {
    Call(CallExpr(Ident("require"), [LiteralExpr(Str(raw))]))
  }

  function ConstDecl(name: string, init: Expr): (p: Result<ProgramPart>) {
    Ok(PartDecl(Variable(Const, [VariableDecl(name, Some(init))])))
  }

  function ImportFrom(specifiers: seq<ImportSpecifier>, raw: string): (p: Result<ProgramPart>) {
    Ok(PartDecl(Import(ModImport(specifiers, Str(raw)))))
  }

  function Bare(e: Expr): (p: Result<ProgramPart>) {
    Ok(PartStmt(ExprStmt(e)))
  }

  lemma ScanOne(p: Result<ProgramPart>)
    ensures ScanParts([p]) == PartSpecifiers(p)
  {
    assert [p][1..] == [];
  }

  lemma DeclaratorsOne(d: VariableDecl)
    ensures DeclaratorsSpecifiers([d]) == DeclaratorSpecifiers(d)
  {
    assert [d][1..] == [];
  }

  lemma LodashSingle()
    ensures TrimQuotes("'lodash'") == "lodash"
  {
    TrimQuotesOfQuoted('\'', "lodash", '\'');
    assert "'lodash'" == ['\''] + "lodash" + ['\''];
  }

  lemma MomentSingle()
    ensures TrimQuotes("'moment'") == "moment"
  {
    TrimQuotesOfQuoted('\'', "moment", '\'');
    assert "'moment'" == ['\''] + "moment" + ['\''];
  }

  lemma LodashDouble()
    ensures TrimQuotes("\"lodash\"") == "lodash"
  {
    TrimQuotesOfQuoted('"', "lodash", '"');
    assert "\"lodash\"" == ['"'] + "lodash" + ['"'];
  }

  // const _ = require('lodash');
  lemma TopLevelRequireSingleQuotes()
    ensures Scan(Parts([ConstDecl("_", RequireCall("'lodash'"))])) == Ok(["lodash"])
  {
    ScanOne(ConstDecl("_", RequireCall("'lodash'")));
    DeclaratorsOne(VariableDecl("_", Some(RequireCall("'lodash'"))));
    LodashSingle();
  }

  // const _ = require("lodash");
  lemma TopLevelRequireDoubleQuotes()
    ensures Scan(Parts([ConstDecl("_", RequireCall("\"lodash\""))])) == Ok(["lodash"])
  {
    ScanOne(ConstDecl("_", RequireCall("\"lodash\"")));
    DeclaratorsOne(VariableDecl("_", Some(RequireCall("\"lodash\""))));
    LodashDouble();
  }

  // require("lodash");
  lemma TopLevelRequireStatement()
    ensures Scan(Parts([Bare(RequireCall("\"lodash\""))])) == Ok(["lodash"])
  {
    ScanOne(Bare(RequireCall("\"lodash\"")));
    LodashDouble();
  }

  // import _ from 'lodash';
  lemma TopLevelDefaultImport()
    ensures Scan(Parts([ImportFrom([Default("_")], "'lodash'")])) == Ok(["lodash"])
  {
    ScanOne(ImportFrom([Default("_")], "'lodash'"));
    LodashSingle();
  }

  // import * as lodash from "lodash";
  lemma TopLevelImportAlias()
    ensures Scan(Parts([ImportFrom([Namespace("lodash")], "\"lodash\"")])) == Ok(["lodash"])
  {
    ScanOne(ImportFrom([Namespace("lodash")], "\"lodash\""));
    LodashDouble();
  }

  // import { map } from "lodash";
  lemma TopLevelImportNamed()
    ensures Scan(Parts([ImportFrom([Normal("map", "map")], "\"lodash\"")])) == Ok(["lodash"])
  {
    ScanOne(ImportFrom([Normal("map", "map")], "\"lodash\""));
    LodashDouble();
  }

  // The parts of the mixed example below, one at a time.
  lemma FivePart()
    ensures PartSpecifiers(ConstDecl("five", LiteralExpr(Number("5")))) == []
  {
    DeclaratorsOne(VariableDecl("five", Some(LiteralExpr(Number("5")))));
  }

  lemma MomentPart()
    ensures PartSpecifiers(ConstDecl("moment", RequireCall("'moment'"))) == ["moment"]
  {
    DeclaratorsOne(VariableDecl("moment", Some(RequireCall("'moment'"))));
    MomentSingle();
  }

  lemma LodashImportPart()
    ensures PartSpecifiers(ImportFrom([Default("_")], "'lodash'")) == ["lodash"]
  {
    LodashSingle();
  }

  // const five = 5; / const moment = require('moment'); / import _ from 'lodash'; / start();
  lemma MixedProgram()
    ensures Scan(Parts([
      ConstDecl("five", LiteralExpr(Number("5"))),
      ConstDecl("moment", RequireCall("'moment'")),
      ImportFrom([Default("_")], "'lodash'"),
      Bare(Call(CallExpr(Ident("start"), [])))
    ])) == Ok(["moment", "lodash"])
  {
    var a, b, c, d := ConstDecl("five", LiteralExpr(Number("5"))), ConstDecl("moment", RequireCall("'moment'")),
      ImportFrom([Default("_")], "'lodash'"), Bare(Call(CallExpr(Ident("start"), [])));
    FivePart();
    MomentPart();
    LodashImportPart();
    assert PartSpecifiers(d) == [];
    calc {
      ScanParts([a, b, c, d]);
      == { assert [a, b, c, d][1..] == [b, c, d]; }
      PartSpecifiers(a) + ScanParts([b, c, d]);
      == { assert [b, c, d][1..] == [c, d]; }
      PartSpecifiers(a) + (PartSpecifiers(b) + ScanParts([c, d]));
      == { assert [c, d][1..] == [d]; ScanOne(d); }
      PartSpecifiers(a) + (PartSpecifiers(b) + (PartSpecifiers(c) + PartSpecifiers(d)));
      == [] + (["moment"] + (["lodash"] + []));
      == ["moment", "lodash"];
    }
  }

  // require('lodash'); require('lodash');  -- duplicates are kept
  lemma DuplicatesKept()
    ensures Scan(Parts([Bare(RequireCall("'lodash'")), Bare(RequireCall("'lodash'"))])) == Ok(["lodash", "lodash"])
  {
    var p := Bare(RequireCall("'lodash'"));
    LodashSingle();
    assert PartSpecifiers(p) == ["lodash"];
    calc {
      ScanParts([p, p]);
      == { assert [p, p][1..] == [p]; ScanOne(p); }
      PartSpecifiers(p) + PartSpecifiers(p);
      == ["lodash", "lodash"];
    }
  }

  // import('lodash');  -- the callee `import` is not matched
  lemma DynamicImportNotMatched()
    ensures Scan(Parts([Bare(Call(CallExpr(Ident("import"), [LiteralExpr(Str("'lodash'"))])))])) == Ok([])
  {
    ScanOne(Bare(Call(CallExpr(Ident("import"), [LiteralExpr(Str("'lodash'"))]))));
  }

  // loader.require('lodash'); require(name); require();  -- none of these is matched
  lemma OtherCallShapesNotMatched()
    ensures Scan(Parts([
      Bare(Call(CallExpr(Member(Ident("loader"), Ident("require"), false), [LiteralExpr(Str("'lodash'"))]))),
      Bare(Call(CallExpr(Ident("require"), [Ident("name")]))),
      Bare(Call(CallExpr(Ident("require"), [])))
    ])) == Ok([])
  {
    var a := Bare(Call(CallExpr(Member(Ident("loader"), Ident("require"), false), [LiteralExpr(Str("'lodash'"))])));
    var b := Bare(Call(CallExpr(Ident("require"), [Ident("name")])));
    var c := Bare(Call(CallExpr(Ident("require"), [])));
    assert PartSpecifiers(a) == [] && PartSpecifiers(b) == [] && PartSpecifiers(c) == [];
    calc {
      ScanParts([a, b, c]);
      == { assert [a, b, c][1..] == [b, c]; }
      PartSpecifiers(a) + ScanParts([b, c]);
      == { assert [b, c][1..] == [c]; ScanOne(c); }
      PartSpecifiers(a) + (PartSpecifiers(b) + PartSpecifiers(c));
      == [];
    }
  }

  // A part the parser could not build is skipped, and the scan goes on.
  lemma PartErrorSkipped(e: ParseError)
    ensures Scan(Parts([Err(e), Bare(RequireCall("'lodash'"))])) == Ok(["lodash"])
  {
    var p := Bare(RequireCall("'lodash'"));
    LodashSingle();
    assert PartSpecifiers(p) == ["lodash"];
    calc {
      ScanParts([Err(e), p]);
      == { assert [Err(e), p][1..] == [p]; ScanOne(p); }
      PartSpecifiers(Err(e)) + PartSpecifiers(p);
      == ["lodash"];
    }
  }

  // Text the parser cannot even start on: its error, and no list.
  lemma ConstructionErrorPropagated(e: ParseError)
    ensures Scan(ConstructionFailed(e)) == Err(e)
  {
  }

  // Every leading and trailing quote goes, in any mix: "'x'" gives x, and '"' gives the empty text.
  lemma TrimIsNotPairwise()
    ensures TrimQuotes("\"'x'\"") == "x"
    ensures TrimQuotes("'\"") == ""
  {
    assert TrimStart("\"'x'\"") == "x'\"";
    assert TrimEnd("x'\"") == "x";
    assert TrimStart("'\"") == "";
  }
}
