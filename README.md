# Dependency-specifier scanner

A Dafny model of the scanner in `packages/scanner/src/lib.rs`. The scanner
takes a parsed JavaScript program and lists the modules that the program's
top level names. `parse_js` walks the program's top-level parts once, in order,
and recognises three forms:

- a static `import … from 'x'` declaration, in any binding form (default,
  namespace `* as n`, or named `{ a }`);
- a variable declarator whose initializer is `require('x')`;
- a bare `require('x');` expression statement.

For each form found it appends the text of the string literal with its
quotes trimmed. The list keeps source order and keeps duplicates.

The model has five modules:

- `Ast` (`ast.dfy`) holds the part of the syntax tree the scanner looks at.
  `Literal`, `Expr`, `Decl` and `Stmt` each have a catch-all variant for
  the shapes the scanner ignores; `ProgramPart` names the directive case
  explicitly.
  The parser is a parameter: `ParserOutput` is either the error from
  building the parser, or the sequence of per-part results. Each result is a
  part or a per-part error.
- `Quotes` (`quotes.dfy`) models `trim_matches(&['\'', '"'])`.
  - `TrimStart` and `TrimEnd` strip one quote at a time.
  - `IsQuoteTrimOf` is an independent description of the result: the slice
    between a cut that has only quotes outside it and no quote at either
    inner end.
  - Lemmas prove that trimming is exactly this slice, that the slice is
    unique, and that trimming twice equals trimming once.
- `Scanner` (`scanner.dfy`) has one method per Rust function.
  - Each method has the same branches and the same loops as the Rust code.
  - As in the source, each helper takes the list so far by value and returns
    it with its own finds appended.
  - Each method is proved to return its input list followed by exactly what
    a pure specification function says the node contributes.
  - `ParseJs` is proved equal to the fold `Scan`.
- `ScannerProperties` (`properties.dfy`) proves the following about the
  specification functions:
  - soundness: every specifier comes from an import source or from argument
    0 of a `require`;
  - completeness: every such shape yields its specifier;
  - source order, with earlier results staying a prefix;
  - ignored shapes are skipped without stopping the scan;
  - the exact result of a program that is only a bare `require`, only a
    `require` declaration, or only an import.
- `ScannerExamples` (`examples.dfy`) restates the source's unit tests as
  lemmas about the trees the parser builds for them. It adds a mixed
  program, duplicates, dynamic `import`, and the other call shapes that are
  not matched.

Two details of the code are easy to misread:

- **Dynamic import.** `match_expr` accepts only the callee identifier
  `require` (`packages/scanner/src/lib.rs:64`), so a dynamic `import('x')`
  call yields nothing: see `ScannerExamples.DynamicImportNotMatched`.
- **Quote trimming.** `trim_matches` removes every leading and every
  trailing `'` or `"`, in any mix, not one matching pair: see
  `ScannerExamples.TrimIsNotPairwise`.
  A body that has no quote at either end, between one quote on each side,
  comes back unchanged (`Quotes.TrimQuotesOfQuoted`).

## Model

| member | source | states |
|---|---|---|
| Scanner.ParseJs | packages/scanner/src/lib.rs:6-27 | Returns the parser's construction error unchanged when no parser can be built. Otherwise it visits every part in order and returns Ok of the fold `Scan`: each part's contribution, in part order. |
| Scanner.MatchDeclaration | packages/scanner/src/lib.rs:29-36 | Returns the given list plus the import's or the variable declaration's contribution; any other declaration adds nothing. |
| Scanner.MatchImport | packages/scanner/src/lib.rs:38-45 | Returns the given list plus the trimmed source when the source is a string literal, and the list unchanged otherwise. |
| Scanner.MatchVariable | packages/scanner/src/lib.rs:47-60 | Returns the given list plus each declarator's contribution, in declarator order. |
| Scanner.MatchExpr | packages/scanner/src/lib.rs:62-76 | Returns the given list plus the trimmed argument 0 when the callee is the identifier `require` and that argument is a string literal, and the list unchanged otherwise. |
| Scanner.DeclSpecifiers | packages/scanner/src/lib.rs:29-36 | A variable declaration contributes at most one specifier per declarator; an import, or any other declaration, at most one. |
| Scanner.CallSpecifiers | packages/scanner/src/lib.rs:65-69 | A call contributes at most one specifier, since only argument 0 is looked at. |
| Scanner.ImportSpecifiers | packages/scanner/src/lib.rs:38-45 | An import contributes at most one specifier. |
| Scanner.DeclaratorSpecifiers | packages/scanner/src/lib.rs:52-55 | A declarator contributes at most one specifier. |
| Scanner.DeclaratorsSpecifiers | packages/scanner/src/lib.rs:51-58 | A declaration contributes at most as many specifiers as it has declarators. |
| Scanner.PartSpecifiers | packages/scanner/src/lib.rs:10-23 | A variable declaration contributes at most one specifier per declarator; any other part contributes at most one. |
| Scanner.ScanParts | packages/scanner/src/lib.rs:9-25 | The result has at most (number of parts + total number of declarators) entries. |
| Scanner.Scan | packages/scanner/src/lib.rs:6-27 | The result is an error exactly when building the parser failed, and then it is that error. |
| Scanner.DeclaratorsAppend | packages/scanner/src/lib.rs:51-58 | The contribution of two runs of declarators is the first run's contribution followed by the second's. |
| Scanner.ScanPartsAppend | packages/scanner/src/lib.rs:9-25 | The scan of two runs of parts is the first run's scan followed by the second's. |
| Scanner.DeclaratorsStep | packages/scanner/src/lib.rs:51-58 | One more declarator appends its own contribution after those of the earlier declarators. |
| Scanner.ScanPartsStep | packages/scanner/src/lib.rs:9-25 | One more part appends its own contribution after those of the earlier parts. |
| Quotes.TrimStart | packages/scanner/src/lib.rs:41-42 | Strips leading quotes one at a time; the result is never longer than the input (its full description is `Quotes.TrimStartSpec`). |
| Quotes.TrimEnd | packages/scanner/src/lib.rs:41-42 | Strips trailing quotes one at a time; the result is never longer than the input (its full description is `Quotes.TrimEndSpec`). |
| Quotes.TrimQuotes | packages/scanner/src/lib.rs:68-69 | The model of `trim_matches` on `'` and `"`; its own contract is only that the result is never longer than the input, and `Quotes.TrimQuotesCharacterized` says exactly what it returns. |
| Quotes.TrimStartSpec | packages/scanner/src/lib.rs:41-42 | Leading trimming removes a run of quotes from the front and leaves a suffix that has no quote in front. |
| Quotes.TrimEndSpec | packages/scanner/src/lib.rs:41-42 | Trailing trimming removes a run of quotes from the back and leaves a prefix that has no quote at the end. |
| Quotes.TrimQuotesIsQuoteTrim | packages/scanner/src/lib.rs:41-42 | The trimmed text is the slice between a quote-trim cut: only quotes lie outside it, and no quote sits at either end of it. |
| Quotes.TrimCutUnique | packages/scanner/src/lib.rs:41-42 | Any two quote-trim cuts of the same text give the same slice. |
| Quotes.QuoteTrimUnique | packages/scanner/src/lib.rs:41-42 | A text has only one quote trim. |
| Quotes.TrimQuotesCharacterized | packages/scanner/src/lib.rs:41-42 | A string is the quote trim of a text if and only if it is what trimming that text gives. |
| Quotes.TrimQuotesShape | packages/scanner/src/lib.rs:41-42 | The trimmed text is a contiguous slice of the raw text, and it neither begins nor ends with `'` or `"`. |
| Quotes.TrimQuotesKeepsUnquoted | packages/scanner/src/lib.rs:41-42 | A text with no quote at either end is left unchanged. |
| Quotes.TrimQuotesIdempotent | packages/scanner/src/lib.rs:41-42 | Trimming twice gives the same as trimming once. |
| Quotes.TrimQuotesOfQuoted | packages/scanner/src/lib.rs:41-42 | A body with no quote at either end, wrapped in one quote of either kind on each side, comes back as the body. |
| ScannerProperties.CallSpecifiersExact | packages/scanner/src/lib.rs:63-67 | A call yields a specifier if and only if it is `require` applied to a string literal as argument 0, and then that specifier is the literal's trimmed text. |
| ScannerProperties.OtherCalleeYieldsNothing | packages/scanner/src/lib.rs:63 | A call whose callee is anything other than the identifier `require`, such as `import` or a member access, yields nothing. |
| ScannerProperties.ImportBindingsIrrelevant | packages/scanner/src/lib.rs:38-45 | An import's contribution depends only on its source, not on its bindings: the trimmed text for a string literal, and nothing otherwise. |
| ScannerProperties.ScanAt | packages/scanner/src/lib.rs:9-25 | At any part, the scan is the scan of the earlier parts, then that part's contribution, then the scan of the later parts. |
| ScannerProperties.ScanPrefix | packages/scanner/src/lib.rs:9-25 | Append-only: the list after the first i parts is a prefix of the list after the first j parts, for i <= j, and the difference is the scan of the parts in between. |
| ScannerProperties.DeclaratorsAt | packages/scanner/src/lib.rs:51-58 | Within a declaration, declarator k's contribution lies between those of the declarators before it and those after it. |
| ScannerProperties.InertPartSkipped | packages/scanner/src/lib.rs:9-35 | A per-part error, a directive, another kind of declaration or a statement that is not a call contributes nothing. Removing it leaves the scan of the whole program unchanged. |
| ScannerProperties.NonCallDeclaratorSkipped | packages/scanner/src/lib.rs:52-55 | A declarator with no initializer, or with one that is not a call, can be removed without changing the declaration's contribution. |
| ScannerProperties.DeclaratorsSound | packages/scanner/src/lib.rs:51-58 | Every specifier of a declaration is the trimmed text of some declarator's `require` argument. |
| ScannerProperties.PartSound | packages/scanner/src/lib.rs:9-25 | Every specifier of a part is the trimmed text of a literal that the part names. |
| ScannerProperties.ScanSound | packages/scanner/src/lib.rs:9-25 | Every specifier in the scan is the trimmed text of a string literal that is an import's source, or argument 0 of a `require` call, in some part. |
| ScannerProperties.DeclaratorsComplete | packages/scanner/src/lib.rs:51-58 | A declarator initialised by `require` of a string literal puts that literal's trimmed text in the declaration's contribution. |
| ScannerProperties.PartComplete | packages/scanner/src/lib.rs:12-20 | A part that names a module yields its specifier. An import or a bare call yields exactly that one specifier. |
| ScannerProperties.ScanComplete | packages/scanner/src/lib.rs:9-25 | The specifier of every naming part is in that part's own contribution and in the scan, and the scan begins with the earlier parts' specifiers followed by that contribution. |
| ScannerProperties.ScanCompleteAfterEarlier | packages/scanner/src/lib.rs:9-25 | The specifier of every naming part occurs in the scan at a position after all the specifiers of the earlier parts. |
| ScannerProperties.ScanAfterAt | packages/scanner/src/lib.rs:9-25 | The scan of the parts after part i splits at a later part j into the parts between, part j's contribution, and the parts after j. |
| ScannerProperties.ScanBetween | packages/scanner/src/lib.rs:9-25 | For parts i < j, the scan is five consecutive blocks: before i, part i's contribution, between i and j, part j's contribution, and after j. |
| ScannerProperties.SourceOrder | packages/scanner/src/lib.rs:9-25 | For naming parts i < j, part i's specifier comes in the block before the block holding part j's specifier. |
| ScannerProperties.SingleRequireStatement | packages/scanner/src/lib.rs:15-20 | A program that is only a bare `require` of a name with no quote at either end, between one quote on each side, scans to exactly that name. |
| ScannerProperties.SingleRequireDeclaration | packages/scanner/src/lib.rs:47-60 | A program that is only a declaration `v = require(...)` of a name with no quote at either end, between one quote on each side, scans to exactly that name, for any kind (`var`, `let`, `const`). |
| ScannerProperties.SingleImport | packages/scanner/src/lib.rs:38-45 | A program that is only an import from a name with no quote at either end, between one quote on each side, scans to exactly that name, whatever the bindings. |
| ScannerExamples.TopLevelRequireSingleQuotes | packages/scanner/src/lib.rs:82-85 | `const _ = require('lodash');` scans to `["lodash"]`. |
| ScannerExamples.TopLevelRequireDoubleQuotes | packages/scanner/src/lib.rs:87-90 | `const _ = require("lodash");` scans to `["lodash"]`. |
| ScannerExamples.TopLevelRequireStatement | packages/scanner/src/lib.rs:92-95 | `require("lodash");` scans to `["lodash"]`. |
| ScannerExamples.TopLevelDefaultImport | packages/scanner/src/lib.rs:97-100 | `import _ from 'lodash';` scans to `["lodash"]`. |
| ScannerExamples.TopLevelImportAlias | packages/scanner/src/lib.rs:102-105 | `import * as lodash from "lodash";` scans to `["lodash"]`. |
| ScannerExamples.TopLevelImportNamed | packages/scanner/src/lib.rs:107-110 | `import { map } from "lodash";` scans to `["lodash"]`. |
| ScannerExamples.MixedProgram | packages/scanner/src/lib.rs:9-25 | A constant, a `require` declaration, an import and a non-`require` call scan to `["moment", "lodash"]`, in source order. |
| ScannerExamples.DuplicatesKept | packages/scanner/src/lib.rs:9-25 | Two identical `require('lodash');` statements give `lodash` twice. |
| ScannerExamples.DynamicImportNotMatched | packages/scanner/src/lib.rs:63-64 | `import('lodash');` scans to the empty list. |
| ScannerExamples.OtherCallShapesNotMatched | packages/scanner/src/lib.rs:63-67 | A member callee `loader.require`, a non-literal argument, and a call with no argument all scan to the empty list. |
| ScannerExamples.PartErrorSkipped | packages/scanner/src/lib.rs:10 | A per-part error is skipped and the scan goes on to the next part. |
| ScannerExamples.ConstructionErrorPropagated | packages/scanner/src/lib.rs:7 | When the parser cannot be built, the result is its error. |
| ScannerExamples.TrimIsNotPairwise | packages/scanner/src/lib.rs:41-42 | Quotes are trimmed in any mix and number: `"'x'"` gives `x`, and `'"` gives the empty text. |

## Left out

- The `ressa`/`resast` parser and lexer are a foreign library. The model
  takes their output as input (`Ast.ParserOutput`), so tokenisation and
  syntax-error detection are not modelled.
- The model assumes that `Parser::new` fails or succeeds once, and that
  iterating the parser yields a finite sequence of per-part results.
  Lazy, on-demand parsing is not modelled.
- Rust lifetimes and borrowed `&str` views are not modelled. Specifiers are
  owned strings (`seq<char>`), so the model does not say that they are
  slices into the input text beyond `Quotes.TrimQuotesShape`.
- Nested scopes, function bodies and nested expressions are not visited by
  the code and are therefore not in the model. The syntax tree keeps only
  the shapes the scan distinguishes, and the rest are catch-all variants.
- `src/localization.rs` is file-system reads, the Fluent bundle and locale
  negotiation: I/O and foreign calls.
- `src/main.rs` is command-line parsing, reading `Cargo.toml` and printing.
- `packages/scanner/src/main.rs` is an earlier draft of the same walk that
  only prints and returns nothing.
