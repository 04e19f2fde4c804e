/**
  Properties of the scan: source order and append-only growth, which node
  shapes produce a specifier (and that all of them do), and that every
  other shape is skipped without ending the scan.
 */
module ScannerProperties {
  import opened Ast
  import opened Quotes
  import opened Scanner

  // ---------------------------------------------------------------------
  // Which shapes name a module

  /** `c` is `require(<string literal raw>, ...)` with the plain identifier `require` as callee. */
  ghost predicate RequireOf(c: CallExpr, raw: string) {
    c.callee == Ident("require") && |c.arguments| > 0 && c.arguments[0] == LiteralExpr(Str(raw))
  }

  /** The declarator is initialised by such a `require` call. */
  ghost predicate DeclaratorNames(d: VariableDecl, raw: string) {
    d.init.Some? && d.init.value.Call? && RequireOf(d.init.value.call, raw)
  }

  /**
    The part names the module `raw`: an import declaration whose source is
    that string literal, a variable declaration one of whose declarators is
    initialised by `require(raw)`, or a bare `require(raw);` statement.
   */
  ghost predicate PartNames(p: Result<ProgramPart>, raw: string) {
    match p
    case Ok(PartDecl(Import(m))) => m.source == Str(raw)
    case Ok(PartDecl(Variable(_, ds))) => exists k :: 0 <= k < |ds| && DeclaratorNames(ds[k], raw)
    case Ok(PartStmt(ExprStmt(Call(c)))) => RequireOf(c, raw)
    case _ => false
  }

  /** The shapes that add nothing and are passed over. */
  ghost predicate Inert(p: Result<ProgramPart>) {
    match p
    case Err(_) => true
    case Ok(Directive(_)) => true
    case Ok(PartDecl(d)) => d.OtherDecl?
    case Ok(PartStmt(s)) => !(s.ExprStmt? && s.expr.Call?)
  }

  // ---------------------------------------------------------------------
  // Calls and imports

  /** A call yields a specifier exactly when it is a `require` of a string literal, and then its trimmed text. */
  lemma CallSpecifiersExact(c: CallExpr)
    ensures CallSpecifiers(c) != [] <==> exists raw :: RequireOf(c, raw)
    ensures forall raw :: RequireOf(c, raw) ==> CallSpecifiers(c) == [TrimQuotes(raw)]
  {
    if CallSpecifiers(c) != [] {
      assert RequireOf(c, c.arguments[0].lit.raw);
    }
  }

  /** Any other callee, such as `import` or a member access, yields nothing. */
  lemma OtherCalleeYieldsNothing(c: CallExpr)
    requires c.callee != Ident("require")
    ensures CallSpecifiers(c) == []
  {
  }

  /** An import yields the same, at most one, specifier whatever its bindings. */
  lemma ImportBindingsIrrelevant(m: ModImport, specifiers: seq<ImportSpecifier>)
    ensures ImportSpecifiers(ModImport(specifiers, m.source)) == ImportSpecifiers(m)
    ensures m.source.Str? ==> ImportSpecifiers(m) == [TrimQuotes(m.source.raw)]
    ensures !m.source.Str? ==> ImportSpecifiers(m) == []
  {
  }

  // ---------------------------------------------------------------------
  // Order: the scan is the concatenation of the parts' contributions

  /** The scan splits at any part into what comes before, that part's own contribution, and what comes after. */
  lemma ScanAt(parts: seq<Result<ProgramPart>>, i: int)
    requires 0 <= i < |parts|
    ensures ScanParts(parts) == ScanParts(parts[..i]) + PartSpecifiers(parts[i]) + ScanParts(parts[i + 1..])
  {
    assert parts == parts[..i] + parts[i..];
    ScanPartsAppend(parts[..i], parts[i..]);
    assert parts[i..][0] == parts[i] && parts[i..][1..] == parts[i + 1..];
    AppendAssoc(ScanParts(parts[..i]), PartSpecifiers(parts[i]), ScanParts(parts[i + 1..]));
  }

  /** Append-only: the list after the first `i` parts is a prefix of the list after the first `j`. */
  lemma ScanPrefix(parts: seq<Result<ProgramPart>>, i: int, j: int)
    requires 0 <= i <= j <= |parts|
    ensures ScanParts(parts[..i]) <= ScanParts(parts[..j])
    ensures ScanParts(parts[..j]) == ScanParts(parts[..i]) + ScanParts(parts[i..j])
  {
    assert parts[..j] == parts[..i] + parts[i..j];
    ScanPartsAppend(parts[..i], parts[i..j]);
  }

  /** Within a variable declaration, the declarator at `k` contributes between those before and after it. */
  lemma DeclaratorsAt(ds: seq<VariableDecl>, k: int)
    requires 0 <= k < |ds|
    ensures DeclaratorsSpecifiers(ds)
         == DeclaratorsSpecifiers(ds[..k]) + DeclaratorSpecifiers(ds[k]) + DeclaratorsSpecifiers(ds[k + 1..])
  {
    assert ds == ds[..k] + ds[k..];
    DeclaratorsAppend(ds[..k], ds[k..]);
    assert ds[k..][0] == ds[k] && ds[k..][1..] == ds[k + 1..];
    AppendAssoc(DeclaratorsSpecifiers(ds[..k]), DeclaratorSpecifiers(ds[k]), DeclaratorsSpecifiers(ds[k + 1..]));
  }

  // ---------------------------------------------------------------------
  // Skipped shapes do not end the scan

  /** A part that is an error, a directive, another declaration or a non-call statement changes nothing. */
  lemma InertPartSkipped(parts: seq<Result<ProgramPart>>, i: int)
    requires 0 <= i < |parts| && Inert(parts[i])
    ensures PartSpecifiers(parts[i]) == []
    ensures ScanParts(parts) == ScanParts(parts[..i] + parts[i + 1..])
  {
    var before, after := ScanParts(parts[..i]), ScanParts(parts[i + 1..]);
    calc {
      ScanParts(parts);
      == { ScanAt(parts, i); }
      before + PartSpecifiers(parts[i]) + after;
      == { assert PartSpecifiers(parts[i]) == []; assert before + [] == before; }
      before + after;
      == { ScanPartsAppend(parts[..i], parts[i + 1..]); }
      ScanParts(parts[..i] + parts[i + 1..]);
    }
  }

  /** A declarator with no initializer, or one that is not a call, changes nothing. */
  lemma NonCallDeclaratorSkipped(ds: seq<VariableDecl>, k: int)
    requires 0 <= k < |ds| && !(ds[k].init.Some? && ds[k].init.value.Call?)
    ensures DeclaratorsSpecifiers(ds) == DeclaratorsSpecifiers(ds[..k] + ds[k + 1..])
  {
    var before, after := DeclaratorsSpecifiers(ds[..k]), DeclaratorsSpecifiers(ds[k + 1..]);
    calc {
      DeclaratorsSpecifiers(ds);
      == { DeclaratorsAt(ds, k); }
      before + DeclaratorSpecifiers(ds[k]) + after;
      == { assert DeclaratorSpecifiers(ds[k]) == []; assert before + [] == before; }
      before + after;
      == { DeclaratorsAppend(ds[..k], ds[k + 1..]); }
      DeclaratorsSpecifiers(ds[..k] + ds[k + 1..]);
    }
  }

  // ---------------------------------------------------------------------
  // Soundness: every specifier comes from a shape that names a module

  lemma {:induction false} DeclaratorsSound(ds: seq<VariableDecl>, s: string)
    requires s in DeclaratorsSpecifiers(ds)
    ensures exists k, raw :: 0 <= k < |ds| && DeclaratorNames(ds[k], raw) && s == TrimQuotes(raw)
    decreases |ds|
  {
    if s in DeclaratorSpecifiers(ds[0]) {
      var raw := ds[0].init.value.call.arguments[0].lit.raw;
      assert DeclaratorNames(ds[0], raw) && s == TrimQuotes(raw);
    } else {
      var rest := ds[1..];
      DeclaratorsSound(rest, s);
      var k, raw :| 0 <= k < |rest| && DeclaratorNames(rest[k], raw) && s == TrimQuotes(raw);
      assert ds[k + 1] == rest[k];
    }
  }

  lemma PartSound(p: Result<ProgramPart>, s: string)
    requires s in PartSpecifiers(p)
    ensures exists raw :: PartNames(p, raw) && s == TrimQuotes(raw)
  {
    match p
    case Ok(PartDecl(Import(m))) =>
      assert PartNames(p, m.source.raw);
    case Ok(PartDecl(Variable(_, ds))) =>
      DeclaratorsSound(ds, s);
      var k, raw :| 0 <= k < |ds| && DeclaratorNames(ds[k], raw) && s == TrimQuotes(raw);
      assert PartNames(p, raw);
    case Ok(PartStmt(ExprStmt(Call(c)))) =>
      assert PartNames(p, c.arguments[0].lit.raw);
  }

  /**
    Every specifier the scan returns is the trimmed text of a string literal
    that is an import's source or argument 0 of a `require` call in some part.
   */
  lemma {:induction false} ScanSound(parts: seq<Result<ProgramPart>>, s: string)
    requires s in ScanParts(parts)
    ensures exists i, raw :: 0 <= i < |parts| && PartNames(parts[i], raw) && s == TrimQuotes(raw)
    decreases |parts|
  {
    if s in PartSpecifiers(parts[0]) {
      PartSound(parts[0], s);
    } else {
      var rest := parts[1..];
      ScanSound(rest, s);
      var i, raw :| 0 <= i < |rest| && PartNames(rest[i], raw) && s == TrimQuotes(raw);
      assert parts[i + 1] == rest[i];
    }
  }

  // ---------------------------------------------------------------------
  // Completeness: every shape that names a module yields its specifier

  lemma DeclaratorsComplete(ds: seq<VariableDecl>, k: int, raw: string)
    requires 0 <= k < |ds| && DeclaratorNames(ds[k], raw)
    ensures TrimQuotes(raw) in DeclaratorsSpecifiers(ds)
  {
    DeclaratorsAt(ds, k);
    assert DeclaratorSpecifiers(ds[k]) == [TrimQuotes(raw)];
  }

  /** A naming part yields its specifier; an import or a bare call yields exactly that one. */
  lemma PartComplete(p: Result<ProgramPart>, raw: string)
    requires PartNames(p, raw)
    ensures TrimQuotes(raw) in PartSpecifiers(p)
    ensures (!p.value.PartDecl? || p.value.decl.Import?) ==> PartSpecifiers(p) == [TrimQuotes(raw)]
  {
    match p
    case Ok(PartDecl(Import(m))) =>
    case Ok(PartDecl(Variable(_, ds))) =>
      var k :| 0 <= k < |ds| && DeclaratorNames(ds[k], raw);
      DeclaratorsComplete(ds, k, raw);
    case Ok(PartStmt(ExprStmt(Call(c)))) =>
  }

  /** Nothing that names a module is missed: its specifier is in the scan, placed after all earlier parts' specifiers. */
  lemma ScanComplete(parts: seq<Result<ProgramPart>>, i: int, raw: string)
    requires 0 <= i < |parts| && PartNames(parts[i], raw)
    ensures TrimQuotes(raw) in PartSpecifiers(parts[i])
    ensures TrimQuotes(raw) in ScanParts(parts)
    ensures ScanParts(parts[..i]) + PartSpecifiers(parts[i]) <= ScanParts(parts)
  {
    PartComplete(parts[i], raw);
    ScanAt(parts, i);
  }

  /** The specifier of a naming part sits at a position after every specifier of the earlier parts. */
  lemma ScanCompleteAfterEarlier(parts: seq<Result<ProgramPart>>, i: int, raw: string)
    requires 0 <= i < |parts| && PartNames(parts[i], raw)
    ensures exists k :: |ScanParts(parts[..i])| <= k < |ScanParts(parts)| && ScanParts(parts)[k] == TrimQuotes(raw)
  {
    ScanComplete(parts, i, raw);
    var before, own := ScanParts(parts[..i]), PartSpecifiers(parts[i]);
    var m :| 0 <= m < |own| && own[m] == TrimQuotes(raw);
    assert (before + own)[|before| + m] == own[m];
    assert ScanParts(parts)[|before| + m] == TrimQuotes(raw);
  }

  lemma Regroup<T>(u: seq<T>, v: seq<T>, w: seq<T>, x: seq<T>)
    ensures u + (v + w + x) == u + v + w + x
  {
  }

  lemma SlicesOfRest<T>(s: seq<T>, i: int, j: int)
    requires 0 <= i < j < |s|
    ensures s[i + 1..][..j - i - 1] == s[i + 1..j]
    ensures s[i + 1..][j - i - 1] == s[j]
    ensures s[i + 1..][j - i..] == s[j + 1..]
  {
  }

  /** The scan of the parts after `i` splits at a later part `j`. */
  lemma ScanAfterAt(parts: seq<Result<ProgramPart>>, i: int, j: int)
    requires 0 <= i < j < |parts|
    ensures ScanParts(parts[i + 1..])
         == ScanParts(parts[i + 1..j]) + PartSpecifiers(parts[j]) + ScanParts(parts[j + 1..])
  {
    ScanAt(parts[i + 1..], j - i - 1);
    SlicesOfRest(parts, i, j);
  }

  /** The scan splits at two parts `i < j` into five consecutive blocks. */
  lemma ScanBetween(parts: seq<Result<ProgramPart>>, i: int, j: int)
    requires 0 <= i < j < |parts|
    ensures ScanParts(parts)
         == ScanParts(parts[..i]) + PartSpecifiers(parts[i])
          + ScanParts(parts[i + 1..j]) + PartSpecifiers(parts[j]) + ScanParts(parts[j + 1..])
  {
    var before, pi, middle, pj, after :=
      ScanParts(parts[..i]), PartSpecifiers(parts[i]), ScanParts(parts[i + 1..j]),
      PartSpecifiers(parts[j]), ScanParts(parts[j + 1..]);
    calc {
      ScanParts(parts);
      == { ScanAt(parts, i); }
      before + pi + ScanParts(parts[i + 1..]);
      == { ScanAfterAt(parts, i, j); }
      before + pi + (middle + pj + after);
      == { Regroup(before + pi, middle, pj, after); }
      before + pi + middle + pj + after;
    }
  }

  /**
    Source order: between two naming parts, the scan is what comes before
    the first, its specifiers (among them its module), what lies between
    them, the second's specifiers (among them its module), and what comes after.
   */
  lemma SourceOrder(parts: seq<Result<ProgramPart>>, i: int, j: int, ri: string, rj: string)
    requires 0 <= i < j < |parts|
    requires PartNames(parts[i], ri) && PartNames(parts[j], rj)
    ensures TrimQuotes(ri) in PartSpecifiers(parts[i]) && TrimQuotes(rj) in PartSpecifiers(parts[j])
    ensures ScanParts(parts)
         == ScanParts(parts[..i]) + PartSpecifiers(parts[i])
          + ScanParts(parts[i + 1..j]) + PartSpecifiers(parts[j]) + ScanParts(parts[j + 1..])
  {
    ScanBetween(parts, i, j);
    PartComplete(parts[i], ri);
    PartComplete(parts[j], rj);
  }

  // ---------------------------------------------------------------------
  // One-part programs

  /** A program that is only `require(<q>x<q>);`, with either quote on each side and `x` unquoted at its ends, scans to exactly `[x]`. */
  lemma SingleRequireStatement(open: char, x: string, close: char)
    requires IsQuote(open) && IsQuote(close) && NoOuterQuote(x)
    ensures Scan(Parts([Ok(PartStmt(ExprStmt(Call(CallExpr(Ident("require"), [LiteralExpr(Str([open] + x + [close]))])))))]))
         == Ok([x])
  {
    var p := Ok(PartStmt(ExprStmt(Call(CallExpr(Ident("require"), [LiteralExpr(Str([open] + x + [close]))])))));
    TrimQuotesOfQuoted(open, x, close);
    assert PartSpecifiers(p) == [x];
    assert [p][1..] == [];
    assert ScanParts([p]) == PartSpecifiers(p) + ScanParts([]);
    assert ScanParts([p]) == [x];
    assert Scan(Parts([p])) == Ok([x]);
  }

  /** A program that is only `import <specifiers> from <q>x<q>;` scans to exactly `[x]`, whatever the bindings. */
  lemma SingleImport(specifiers: seq<ImportSpecifier>, open: char, x: string, close: char)
    requires IsQuote(open) && IsQuote(close) && NoOuterQuote(x)
    ensures Scan(Parts([Ok(PartDecl(Import(ModImport(specifiers, Str([open] + x + [close])))))])) == Ok([x])
  {
    var p := Ok(PartDecl(Import(ModImport(specifiers, Str([open] + x + [close])))));
    TrimQuotesOfQuoted(open, x, close);
    assert PartSpecifiers(p) == [x];
    assert [p][1..] == [];
    assert ScanParts([p]) == PartSpecifiers(p) + ScanParts([]);
    assert ScanParts([p]) == [x];
    assert Scan(Parts([p])) == Ok([x]);
  }

  /** A program that is only `<kind> id = require(<q>x<q>);` scans to exactly `[x]`, whatever the declaration kind. */
  lemma SingleRequireDeclaration(kind: VarKind, id: string, open: char, x: string, close: char)
    requires IsQuote(open) && IsQuote(close) && NoOuterQuote(x)
    ensures Scan(Parts([Ok(PartDecl(Variable(kind, [VariableDecl(id, Some(Call(CallExpr(Ident("require"), [LiteralExpr(Str([open] + x + [close]))]))))])))]))
         == Ok([x])
  {
    var d := VariableDecl(id, Some(Call(CallExpr(Ident("require"), [LiteralExpr(Str([open] + x + [close]))]))));
    var p := Ok(PartDecl(Variable(kind, [d])));
    TrimQuotesOfQuoted(open, x, close);
    assert [d][1..] == [];
    assert DeclaratorsSpecifiers([d]) == [x];
    assert [p][1..] == [];
    assert ScanParts([p]) == [x];
  }
}
