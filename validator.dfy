/**
 * The query validator (`src/parser/validator.py`).
 *
 * The validator parses a query and, on success, checks what the
 * derivation tree yields: at least one projected column (or `*`), a
 * table, no repeated column; then two style checks on the raw text.
 * Errors make a query invalid, warnings do not. The Lark parser behind
 * `SQLParser.parse` is an oracle from query text to an optional tree.
 */
module Validator {

  import opened Wrappers
  import opened Text
  import opened ParseTrees

  /**
   * Lark's `parse` as `SQLParser.parse` calls it: the tree of a query, or
   * `None` when Lark raises or could not be built. The blank-query guard
   * of `SQLParser.parse` and its wrapping in `ParseTree` are written out
   * where the parser is used.
   */
  type Parser = string -> Option<Node>

  /** The messages the validator emits. */
  datatype Message =
    | EmptyQuery
    | SyntaxError
    | NoColumns
    | NoTable
    | DuplicateColumns(duplicates: seq<string>)
    | UppercaseAdvice(keyword: string)
    | TooLong
  {
    /** Errors invalidate a query; the two style remarks are warnings. */
    predicate IsError() {
      !(UppercaseAdvice? || TooLong?)
    }

    /** The text of the message. */
    function Text(): string {
      match this
      case EmptyQuery => "Consulta vac\U{ED}a"
      case SyntaxError => "Error de sintaxis en la consulta"
      case NoColumns => "SELECT debe especificar al menos una columna"
      case NoTable => "Debe especificar una tabla en FROM"
      case DuplicateColumns(names) => "Columnas duplicadas en SELECT: " + Join(", ", Distinct(names))
      case UppercaseAdvice(keyword) => "Recomendaci\U{F3}n: usar '" + keyword + "' en may\U{FA}sculas"
      case TooLong => "Query muy larga, considere dividirla"
    }
  }

  /** The elements of a list, each once, in order of first occurrence. */
  function Distinct(s: seq<string>): seq<string> {
    if s == [] then []
    else
      var rest := Distinct(s[..|s| - 1]);
      if s[|s| - 1] in s[..|s| - 1] then rest else rest + [s[|s| - 1]]
  }

  // ---------------------------------------------------------------------
  // Semantic checks: _validate_semantics
  // ---------------------------------------------------------------------

  /** `set(columns)`. */
  function Elements(s: seq<string>): set<string> {
    set x | x in s
  }

  /** Some element occurs twice. */
  predicate HasRepeat(s: seq<string>) {
    exists i, j :: 0 <= i < j < |s| && s[i] == s[j]
  }

  lemma {:induction false} ElementsBound(s: seq<string>)
    ensures |Elements(s)| <= |s|
  {
    if s != [] {
      ElementsBound(s[1..]);
      assert Elements(s) == {s[0]} + Elements(s[1..]);
    }
  }

  /** `len(columns) != len(set(columns))` holds exactly when some column is repeated. */
  lemma {:induction false} SizeDropMeansRepeat(s: seq<string>)
    ensures |Elements(s)| != |s| <==> HasRepeat(s)
  {
    if s != [] {
      SizeDropMeansRepeat(s[1..]);
      assert Elements(s) == {s[0]} + Elements(s[1..]);
      if s[0] in s[1..] {
        var j :| 0 <= j < |s[1..]| && s[1..][j] == s[0];
        assert s[0] == s[j + 1];
        ElementsBound(s[1..]);
        assert Elements(s) == Elements(s[1..]);
      } else {
        assert |Elements(s)| == 1 + |Elements(s[1..])|;
        if HasRepeat(s) {
          var i, j :| 0 <= i < j < |s| && s[i] == s[j];
          assert i != 0;
          assert s[1..][i - 1] == s[1..][j - 1];
        }
        if HasRepeat(s[1..]) {
          var i, j :| 0 <= i < j < |s[1..]| && s[1..][i] == s[1..][j];
          assert s[i + 1] == s[j + 1];
        }
      }
    }
  }

  /** `[col for col in columns if columns.count(col) > 1]`. */
  function Repeated(columns: seq<string>): seq<string> {
    RepeatedAmong(columns, columns)
  }

  function RepeatedAmong(s: seq<string>, columns: seq<string>): (r: seq<string>)
    ensures forall x :: x in r <==> x in s && multiset(columns)[x] > 1
  {
    if s == [] then []
    else RepeatedAmong(s[..|s| - 1], columns) + (if multiset(columns)[s[|s| - 1]] > 1 then [s[|s| - 1]] else [])
  }

  /** The errors `_validate_semantics` reports, in order. */
  function SemanticErrors(tree: ParseTree, query: string): (r: seq<Message>)
    ensures |r| <= 3
    ensures forall m :: m in r ==> m.IsError()
  {
    var columns := ColumnsAt(tree, 0);
    var table := ExtractTable(tree, 0);
    (if columns == [] && '*' !in query then [NoColumns] else [])
    + (if !IsTruthyText(table) then [NoTable] else [])
    + (if |columns| != |Elements(columns)| then [DuplicateColumns(Repeated(columns))] else [])
  }

  /** `_validate_semantics`. */
  method ValidateSemantics(tree: ParseTree, query: string) returns (errors: seq<Message>)
    ensures errors == SemanticErrors(tree, query)
  {
    errors := [];
    var columns := ExtractColumns(tree, 0);
    if columns == [] && '*' !in query {
      errors := errors + [NoColumns];
    }
    var table := ExtractTable(tree, 0);
    if !IsTruthyText(table) {
      errors := errors + [NoTable];
    }
    if |columns| != |Elements(columns)| {
      var duplicates := Repeated(columns);
      errors := errors + [DuplicateColumns(duplicates)];
    }
  }

  /**
   * What the semantic checks report: the column error exactly when no
   * column is extracted and the text has no `*`; the table error exactly
   * when no (non-empty) table is extracted; the duplicate error exactly
   * when a column repeats, naming precisely the columns that occur more
   * than once. Hence at most three messages, all errors.
   */
  lemma SemanticErrorsSpec(tree: ParseTree, query: string)
    ensures var errors := SemanticErrors(tree, query);
      var columns := ColumnsAt(tree, 0);
      && (NoColumns in errors <==> columns == [] && '*' !in query)
      && (NoTable in errors <==> !IsTruthyText(ExtractTable(tree, 0)))
      && ((exists m :: m in errors && m.DuplicateColumns?) <==> HasRepeat(columns))
      && (forall m :: m in errors && m.DuplicateColumns? ==>
            forall x :: x in m.duplicates <==> x in columns && multiset(columns)[x] > 1)
      && |errors| <= 3
      && (forall m :: m in errors ==> m.IsError())
  {
    var columns := ColumnsAt(tree, 0);
    SizeDropMeansRepeat(columns);
    var a := if columns == [] && '*' !in query then [NoColumns] else [];
    var b := if !IsTruthyText(ExtractTable(tree, 0)) then [NoTable] else [];
    var c := if |columns| != |Elements(columns)| then [DuplicateColumns(Repeated(columns))] else [];
    var errors := a + b + c;
    assert SemanticErrors(tree, query) == errors;
    assert NoColumns in errors <==> columns == [] && '*' !in query;
    assert NoTable in errors <==> !IsTruthyText(ExtractTable(tree, 0));
    if HasRepeat(columns) {
      assert DuplicateColumns(Repeated(columns)) in errors;
    }
    assert (exists m :: m in errors && m.DuplicateColumns?) <==> HasRepeat(columns);
    assert forall m :: m in errors && m.DuplicateColumns? ==> m == DuplicateColumns(Repeated(columns));
    assert forall m :: m in errors ==> m.IsError();
  }

  // ---------------------------------------------------------------------
  // Style checks: _validate_style
  // ---------------------------------------------------------------------

  /** The keywords whose casing is checked, in the order they are tried. */
  const Keywords: seq<string> := ["SELECT", "FROM", "WHERE", "AND", "OR", "NOT", "ORDER", "BY"]

  /** The casing condition as written: the keyword occurs ignoring case, but not in the upper-cased text. */
  predicate Miscased(query: string, keyword: string) {
    Contains(Lower(query), Lower(keyword)) && !Contains(Upper(query), keyword)
  }

  /** The casing advice for the first keyword from position `i` on that meets the condition. */
  function CasingAdvice(query: string, i: nat): seq<Message>
    requires i <= |Keywords|
    decreases |Keywords| - i
  {
    if i == |Keywords| then []
    else if Miscased(query, Keywords[i]) then [UppercaseAdvice(Keywords[i])]
    else CasingAdvice(query, i + 1)
  }

  /** The warnings `_validate_style` reports, in order. */
  function StyleWarnings(query: string): (r: seq<Message>)
    ensures |r| <= 2
    ensures forall m :: m in r ==> !m.IsError()
  {
    CasingAdviceBound(query, 0);
    CasingAdvice(query, 0) + (if |query| > 500 then [TooLong] else [])
  }

  /** `_validate_style`: the keyword loop stops at the first advice. */
  method ValidateStyle(query: string) returns (warnings: seq<Message>)
    ensures warnings == StyleWarnings(query)
  {
    warnings := [];
    var queryUpper := Upper(query);
    var i := 0;
    while i < |Keywords|
      invariant 0 <= i <= |Keywords|
      invariant warnings == []
      invariant CasingAdvice(query, 0) == CasingAdvice(query, i)
    {
      var keyword := Keywords[i];
      if Contains(Lower(query), Lower(keyword)) && !Contains(queryUpper, keyword) {
        warnings := warnings + [UppercaseAdvice(keyword)];
        break;
      }
      i := i + 1;
    }
    if |query| > 500 {
      warnings := warnings + [TooLong];
    }
  }

  /**
   * Under ASCII case mapping the casing condition can never hold: a
   * keyword found in the lower-cased text is always found in the
   * upper-cased text.
   */
  lemma MiscasedNever(query: string, keyword: string)
    requires keyword in Keywords
    ensures !Miscased(query, keyword)
  {
    assert IsUpperAscii(keyword);
    if Contains(Lower(query), Lower(keyword)) {
      LowerOccurrenceGivesUpperOccurrence(query, keyword);
    }
  }

  lemma {:induction false} CasingAdviceNever(query: string, i: nat)
    requires i <= |Keywords|
    ensures CasingAdvice(query, i) == []
    decreases |Keywords| - i
  {
    if i < |Keywords| {
      MiscasedNever(query, Keywords[i]);
      CasingAdviceNever(query, i + 1);
    }
  }

  /**
   * The style checks reduce to the length check: the only warning ever
   * emitted is the long-query one, exactly when the text exceeds 500
   * characters.
   */
  lemma StyleWarningsOnlyLength(query: string)
    ensures StyleWarnings(query) == if |query| > 500 then [TooLong] else []
  {
    CasingAdviceNever(query, 0);
  }

  /** The keyword loop yields at most one advice, naming a checked keyword. */
  lemma {:induction false} CasingAdviceBound(query: string, i: nat)
    requires i <= |Keywords|
    ensures |CasingAdvice(query, i)| <= 1
    ensures forall m :: m in CasingAdvice(query, i) ==> m.UppercaseAdvice? && m.keyword in Keywords[i..]
    decreases |Keywords| - i
  {
    if i < |Keywords| && !Miscased(query, Keywords[i]) {
      CasingAdviceBound(query, i + 1);
    }
  }

  // ---------------------------------------------------------------------
  // The verdict: validate_query, validate_batch, check_ambiguity
  // ---------------------------------------------------------------------

  /** What `validate_query` returns: validity, the messages, and the parse tree when there is one. */
  datatype Verdict = Verdict(isValid: bool, messages: seq<Message>, tree: Option<ParseTree>)

  /** The verdict on a query, given the parser. */
  function Validate(parser: Parser, query: string): (r: Verdict)
    ensures r.tree.Some? <==> !IsBlank(query) && parser(query).Some?
    ensures r.tree.None? ==> !r.isValid && |r.messages| == 1 && r.messages[0].IsError()
    ensures r.tree.Some? ==> r.tree.value.originalQuery == query
  {
    if IsBlank(query) then Verdict(false, [EmptyQuery], None)
    else match parser(query)
      case None => Verdict(false, [SyntaxError], None)
      case Some(larkTree) =>
        var tree := NewParseTree(larkTree, query);
        var errors := SemanticErrors(tree, query);
        Verdict(errors == [], errors + StyleWarnings(query), Some(tree))
  }

  /** `validate_query`. */
  method ValidateQuery(parser: Parser, query: string) returns (isValid: bool, messages: seq<Message>, tree: Option<ParseTree>)
    ensures Verdict(isValid, messages, tree) == Validate(parser, query)
  {
    var errors: seq<Message> := [];
    var warnings: seq<Message> := [];
    if IsBlank(query) {
      errors := errors + [EmptyQuery];
      return false, errors, None;
    }
    var larkTree := parser(query);
    if larkTree.None? {
      errors := errors + [SyntaxError];
      return false, errors, None;
    }
    var parsed := NewParseTree(larkTree.value, query);
    var semanticErrors := ValidateSemantics(parsed, query);
    errors := errors + semanticErrors;
    var styleWarnings := ValidateStyle(query);
    warnings := warnings + styleWarnings;
    isValid := |errors| == 0;
    messages := errors + warnings;
    tree := Some(parsed);
  }

  /**
   * An empty or blank query is rejected with the single message "Consulta
   * vacía" and no tree, whatever the parser would say.
   */
  lemma BlankQueryRejected(parser: Parser, other: Parser, query: string)
    requires IsBlank(query)
    ensures Validate(parser, query) == Verdict(false, [EmptyQuery], None)
    ensures Validate(parser, query) == Validate(other, query)
    ensures Validate(parser, query).messages[0].Text() == "Consulta vac\U{ED}a"
  {
  }

  /** A query the parser rejects gets the single syntax error and no tree. */
  lemma UnparsableQueryRejected(parser: Parser, query: string)
    requires !IsBlank(query) && parser(query).None?
    ensures Validate(parser, query) == Verdict(false, [SyntaxError], None)
  {
  }

  /**
   * Warnings never make a query invalid: a query is valid exactly when
   * none of its messages is an error. On a successful parse, the messages
   * are the semantic errors followed by the length warning, if any.
   */
  lemma ValidIffNoErrors(parser: Parser, query: string)
    ensures Validate(parser, query).isValid <==> forall m :: m in Validate(parser, query).messages ==> !m.IsError()
    ensures Validate(parser, query).isValid ==> Validate(parser, query).tree.Some?
    ensures Validate(parser, query).tree.Some? ==>
      var tree := Validate(parser, query).tree.value;
      Validate(parser, query).messages == SemanticErrors(tree, query) + (if |query| > 500 then [TooLong] else [])
  {
    StyleWarningsOnlyLength(query);
    if !IsBlank(query) && parser(query).Some? {
      var tree := NewParseTree(parser(query).value, query);
      SemanticErrorsSpec(tree, query);
      var errors := SemanticErrors(tree, query);
      var messages := Validate(parser, query).messages;
      assert messages == errors + StyleWarnings(query);
      if errors != [] {
        assert errors[0] in messages && errors[0].IsError();
      } else {
        assert messages == StyleWarnings(query);
      }
    } else {
      assert Validate(parser, query).messages[0] in Validate(parser, query).messages;
    }
  }

  /** `validate_batch`: one `(query, is_valid, messages)` entry per query, in input order. */
  method ValidateBatch(parser: Parser, queries: seq<string>) returns (results: seq<(string, bool, seq<Message>)>)
    ensures |results| == |queries|
    ensures forall i :: 0 <= i < |queries| ==>
      results[i] == (queries[i], Validate(parser, queries[i]).isValid, Validate(parser, queries[i]).messages)
  {
    results := [];
    for k := 0 to |queries|
      invariant |results| == k
      invariant forall i :: 0 <= i < k ==>
        results[i] == (queries[i], Validate(parser, queries[i]).isValid, Validate(parser, queries[i]).messages)
    {
      var isValid, messages, _ := ValidateQuery(parser, queries[k]);
      results := results + [(queries[k], isValid, messages)];
    }
  }

  /**
   * `check_ambiguity`: parses with the ambiguous grammar and explicit
   * ambiguity; `(False, 0)` for a blank query, which `SQLParser.parse`
   * turns away before Lark, and when parsing fails; otherwise the tree's
   * ambiguity flag and derivation count.
   */
  function CheckAmbiguity(ambiguousParser: Parser, query: string): (r: (bool, nat))
    ensures (!r.0 && r.1 == 0) <==> IsBlank(query) || ambiguousParser(query).None?
    ensures !r.0 ==> r.1 <= 1
  {
    if IsBlank(query) then (false, 0)
    else match ambiguousParser(query)
    case None => (false, 0)
    case Some(larkTree) =>
      var tree := NewParseTree(larkTree, query);
      (tree.isAmbiguous, DerivationCount(tree))
  }

  /**
   * A blank query or a failed parse answers `(False, 0)`, whatever Lark
   * would make of a blank text. A parsed query is reported
   * ambiguous exactly when its tree holds an `_ambig` node; an unambiguous
   * one has exactly one derivation, and, when every `_ambig` node has two
   * or more children, an ambiguous one has at least two.
   */
  lemma CheckAmbiguitySpec(ambiguousParser: Parser, query: string)
    ensures IsBlank(query) ==> CheckAmbiguity(ambiguousParser, query) == (false, 0)
    ensures ambiguousParser(query).None? ==> CheckAmbiguity(ambiguousParser, query) == (false, 0)
    ensures !IsBlank(query) && ambiguousParser(query).Some? ==>
      var larkTree := ambiguousParser(query).value;
      var (ambiguous, count) := CheckAmbiguity(ambiguousParser, query);
      && (ambiguous <==> exists i :: 0 <= i < |Preorder(larkTree)| && IsAmbigNode(Preorder(larkTree)[i]))
      && (!ambiguous ==> count == 1)
      && ((ambiguous <==> count >= 2) <==> (FirstAmbig(Preorder(larkTree)).None? || |FirstAmbig(Preorder(larkTree)).value.children| >= 2))
      && (WellFormedForest(larkTree) ==> (ambiguous <==> count >= 2))
  {
    if !IsBlank(query) && ambiguousParser(query).Some? {
      var larkTree := ambiguousParser(query).value;
      AmbiguousIffSeveralDerivations(larkTree, query);
      if WellFormedForest(larkTree) {
        WellFormedForestSeveralDerivations(larkTree, query);
      }
    }
  }
}
