# SQL-Parser derivation trees and validator, in Dafny

This project models the analysis core of a small SQL parser. The parser
itself is Lark's Earley parser, configured with either an ambiguous
grammar (AND/OR without precedence) or a layered, unambiguous one. The
model starts from what Lark hands back:

- **Derivation trees** (`src/parser/parse_tree.py`, module `ParseTrees`).
  A Lark result is a tagged tree: `Tree(data, children)` or
  `Token(type, value)`. With explicit ambiguity, a node labelled `_ambig`
  holds the alternative derivations as its children. `ParseTree` detects
  such a node, takes the children of the first one as its derivations, and
  offers per-derivation queries. These are: depth, node count, the
  projected columns (a scoped search that never enters `ORDER BY`), the
  table name, and a nested dictionary form. Every index past the last
  derivation is answered without failing. The standalone `TreeNode` record
  and its terminal/non-terminal tests are modelled too.
- **Validation** (`src/parser/validator.py`, module `Validator`). A query
  is rejected when it is blank or does not parse. Otherwise it is checked
  for at least one column (or `*`), a table, and no repeated column (the
  errors), and then for keyword casing and length (the warnings). The
  parser is an oracle `string -> Option<Node>`. The batch entry point
  reuses that oracle. `check_ambiguity` takes a second oracle, which
  stands for the parser built with the ambiguous grammar and explicit
  ambiguity.

Files: `wrappers.dfy` (Python's `Optional`), `text.dfy` (the Python
string operations used: `strip`, ASCII `lower`/`upper`, substring `in`,
`join`, integer formatting), `parse_tree.dfy`, `validator.dfy`.

Modelling choices:

- A Lark `Tree` is always truthy in Python. A `Token` is a `str`, so it is
  falsy when empty. `IsTruthy` and `IsTruthyText` carry this into
  `if result:` and `if tree:`.
- `ParseTree`'s fields are set once in `__init__`. So `ParseTree` is a
  datatype and `NewParseTree` is its constructor. The source ignores the
  `is_ambiguous` argument and recomputes the flag, so it is not a parameter.
- `_extract_columns_from_select` appends to a list shared by every
  recursive call. `ExtractColumnsFromSelect` is a recursive method with
  the source's loop over children. Its nested loops at a `columns` node
  sit in `AppendColumnTokens` (outer) and `AppendTokenValues` (inner).
  Each takes that list in and hands the extended list back.
- `SQLValidator` keeps no mutable state beyond its parser. Its methods
  are module-level methods that take the parser as an argument.
- Messages are a datatype. `Message.Text` gives the source's exact Spanish
  texts.

Facts about the code worth knowing:

- The derivations are the children of the first `_ambig` node in
  preorder. Ambiguity nested inside them is not multiplied in
  (`DerivationCountSpec`).
- "Ambiguous exactly when at least two derivations" holds exactly when
  the tree has no `_ambig` node or its first one in preorder has at least
  two children (`AmbiguousIffSeveralDerivations`). Later `_ambig` nodes
  are never consulted (`LaterSingleAlternativeIgnored`). Assuming every
  `_ambig` node has two or more children is enough
  (`WellFormedForestSeveralDerivations`). An `_ambig` root with one child
  breaks the equivalence (`SingleAlternativeAmbiguity`).
- The keyword casing check can never fire under ASCII case mapping
  (`MiscasedNever`, `StyleWarningsOnlyLength`).

## Model

| member | source | states |
|---|---|---|
| `ParseTrees.NewTreeNode` | src/parser/parse_tree.py:10-13 | a missing child list becomes empty; name and value are kept |
| `ParseTrees.TerminalClassification` | src/parser/parse_tree.py:15-21 | `is_terminal` and `is_nonterminal` never both hold; neither holds exactly for a childless node without a value |
| `ParseTrees.FindAmbigNode` | src/parser/parse_tree.py:69-78 | whatever the search returns is a tree node labelled `_ambig` |
| `ParseTrees.FindAmbigIsFirstInPreorder` | src/parser/parse_tree.py:69-78 | the search returns exactly the first `_ambig` node in preorder, or `None` when there is none |
| `ParseTrees.DetectAmbiguity` | src/parser/parse_tree.py:48-56 | a node labelled `_ambig` is detected; a token never is |
| `ParseTrees.DetectAmbiguityMeansAmbigNode` | src/parser/parse_tree.py:48-56 | detection holds exactly when some node of the tree is labelled `_ambig` |
| `ParseTrees.DetectAgreesWithFind` | src/parser/parse_tree.py:48-78 | the search finds a node exactly when detection holds, and the node found is an `_ambig` node occurring in the tree |
| `ParseTrees.NewParseTree` | src/parser/parse_tree.py:31-67 | the flag is set exactly when the tree holds an `_ambig` node; the derivations are then the children of the first such node in preorder, and otherwise the tree alone |
| `ParseTrees.DerivationCountSpec` | src/parser/parse_tree.py:58-82 | without ambiguity the derivations are `[tree]` and the count is 1; with it, the count is the child count of the first `_ambig` node, with nested ambiguity not multiplied in |
| `ParseTrees.AmbiguousIffSeveralDerivations` | src/parser/parse_tree.py:58-82 | the flag agrees with "at least two derivations" exactly when there is no `_ambig` node or the first one in preorder has at least two children |
| `ParseTrees.WellFormedForestSeveralDerivations` | src/parser/parse_tree.py:58-82 | assuming every `_ambig` node has at least two children, the tree is ambiguous exactly when it has at least two derivations |
| `ParseTrees.LaterSingleAlternativeIgnored` | src/parser/parse_tree.py:58-82 | a tree whose second `_ambig` node has one child breaks that assumption, yet is ambiguous with two derivations |
| `ParseTrees.SingleAlternativeAmbiguity` | src/parser/parse_tree.py:58-82 | an `_ambig` root with one child is flagged ambiguous yet counts one derivation |
| `ParseTrees.CalculateDepth` | src/parser/parse_tree.py:150-159 | the depth never falls below the depth the walk starts from |
| `ParseTrees.DepthIsOffsetHeight` | src/parser/parse_tree.py:150-159 | the depth computed from offset `d` is `d` plus the tree's height |
| `ParseTrees.DepthOffset` | src/parser/parse_tree.py:150-159 | the depth from offset `d` is `d` plus the depth from offset 0 |
| `ParseTrees.DepthShape` | src/parser/parse_tree.py:150-159 | a token or a childless tree has depth 0; any other tree is exactly one deeper than its deepest child |
| `ParseTrees.GetDepth` | src/parser/parse_tree.py:144-148 | 0 for an index out of range, otherwise the height of the chosen derivation |
| `ParseTrees.CountNodes` | src/parser/parse_tree.py:167-173 | every node counts itself, so the count is at least 1 |
| `ParseTrees.CountIsPreorderLength` | src/parser/parse_tree.py:167-173 | the node count is the number of nodes a preorder walk visits |
| `ParseTrees.CountExceedsHeight` | src/parser/parse_tree.py:150-173 | the node count is at least the height plus one |
| `ParseTrees.GetNodeCount` | src/parser/parse_tree.py:161-165 | the count is 0 exactly when the index is out of range |
| `ParseTrees.NodeCountExceedsDepth` | src/parser/parse_tree.py:144-173 | for an index in range, the count is the number of nodes of that derivation and exceeds its depth |
| `ParseTrees.AppendTokenValues` | src/parser/parse_tree.py:191-193 | at a `column` node, the list gains the text of each token child, left to right |
| `ParseTrees.AppendColumnTokens` | src/parser/parse_tree.py:188-194 | at a `columns` node, the list gains the token texts of each `column` child, children and tokens left to right |
| `ParseTrees.ExtractColumnsFromSelect` | src/parser/parse_tree.py:184-199 | the shared list ends as the list it started with followed by the columns the scoped search collects from the node |
| `ParseTrees.ExtractColumns` | src/parser/parse_tree.py:175-182 | the columns of the chosen derivation, or an empty list for an index out of range |
| `ParseTrees.SelectColumnsIsScopedSearch` | src/parser/parse_tree.py:184-199 | the columns are the tokens of the `column` children of the `columns` nodes reached without entering `order_clause` or a found `columns` node, in preorder |
| `ParseTrees.OrderClauseNeverCollected` | src/parser/parse_tree.py:184-199 | emptying every `order_clause` node leaves the extracted columns unchanged |
| `ParseTrees.OrderedSelectColumns` | src/parser/parse_tree.py:175-199 | for `SELECT name, age FROM users ORDER BY name ASC` the columns are exactly `["name", "age"]` |
| `ParseTrees.ExtractTable` | src/parser/parse_tree.py:201-219 | a table found implies an index in range, and it is the text of a token child of a `table` node of that derivation |
| `ParseTrees.TableIsFirstNonEmptyCandidate` | src/parser/parse_tree.py:208-219 | a table is found (truthy) exactly when some candidate, the first token of a `table` node in preorder, is non-empty; it is the first such candidate; below the root an empty one is skipped |
| `ParseTrees.TableComesFromTableNode` | src/parser/parse_tree.py:208-219 | a table found is the text of a token child of a `table` node of the tree |
| `ParseTrees.TreeToDict` | src/parser/parse_tree.py:123-138 | the `"type"` entry is `"token"` for a token and `"tree"` for a tree, and a tree keeps its number of children |
| `ParseTrees.TreeToDictRoundTrip` | src/parser/parse_tree.py:123-138 | the dictionary form keeps every name, token text and child in order: reading it back gives the tree |
| `ParseTrees.DictToTreeRoundTrip` | src/parser/parse_tree.py:123-138 | every dictionary of that shape is the form of exactly one tree |
| `ParseTrees.ToDict` | src/parser/parse_tree.py:103-121 | an error exactly for an index out of range; otherwise the query, the flag and the derivation count |
| `ParseTrees.ToDictPreservesDerivation` | src/parser/parse_tree.py:103-121 | for an index in range, `to_dict` carries the chosen derivation whole and the derivation count |
| `ParseTrees.GetPrettyString` | src/parser/parse_tree.py:84-97 | an error text exactly for an index out of range; otherwise the chosen derivation |
| `ParseTrees.OutOfRangeAccess` | src/parser/parse_tree.py:84-206 | past the last derivation: depth and count 0, no columns, no table, an error dictionary and an error string |
| `Text.LowerOccurrenceGivesUpperOccurrence` | src/parser/validator.py:84-90 | under ASCII case mapping, an upper-case word found in the lower-cased text is found in the upper-cased text |
| `Validator.SizeDropMeansRepeat` | src/parser/validator.py:73-75 | `len(columns) != len(set(columns))` exactly when some column occurs twice |
| `Validator.SemanticErrors` | src/parser/validator.py:58-77 | at most three messages, every one of them an error |
| `Validator.ValidateSemantics` | src/parser/validator.py:58-77 | the errors reported are the semantic errors of the tree and query, in order |
| `Validator.SemanticErrorsSpec` | src/parser/validator.py:58-77 | column error iff no columns and no `*`; table error iff no truthy table; duplicate error iff a column repeats, naming exactly the columns that occur more than once; at most 3 messages, all errors |
| `Validator.StyleWarnings` | src/parser/validator.py:79-96 | at most two messages, none of them an error |
| `Validator.ValidateStyle` | src/parser/validator.py:79-96 | the loop stops at the first keyword advice; the warnings are that advice, if any, then the length warning iff the text exceeds 500 characters |
| `Validator.MiscasedNever` | src/parser/validator.py:84-90 | for each checked keyword, the casing condition is unsatisfiable |
| `Validator.StyleWarningsOnlyLength` | src/parser/validator.py:79-96 | the only warning ever emitted is the length one, exactly for texts over 500 characters |
| `Validator.CasingAdviceBound` | src/parser/validator.py:84-90 | the keyword loop from any position yields at most one advice, naming a keyword from that position on |
| `Validator.Validate` | src/parser/validator.py:20-56 | a tree exactly when the query is not blank and parses, carrying the query; without a tree, invalid with a single error |
| `Validator.ValidateQuery` | src/parser/validator.py:20-56 | validity, messages and tree are the verdict on the query |
| `Validator.BlankQueryRejected` | src/parser/validator.py:34-37 | a blank query gets `(False, ["Consulta vacía"], None)`, whatever the parser |
| `Validator.UnparsableQueryRejected` | src/parser/validator.py:39-43 | a query the parser rejects gets `(False, [syntax error], None)` |
| `Validator.ValidIffNoErrors` | src/parser/validator.py:45-56 | valid exactly when no message is an error, so warnings never invalidate; the messages are the errors followed by the length warning |
| `Validator.ValidateBatch` | src/parser/validator.py:98-112 | one entry per query, in input order, each the query with its verdict and messages |
| `Validator.CheckAmbiguity` | src/parser/validator.py:114-130 | `(False, 0)` exactly for a blank query or a failed parse; unambiguous means at most one derivation |
| `Validator.CheckAmbiguitySpec` | src/parser/validator.py:114-130 | `(False, 0)` for a blank query or a failed parse; otherwise ambiguous iff the tree holds an `_ambig` node, one derivation when unambiguous, flag and count agreeing exactly when the first `_ambig` node has at least two children |

## Left out

- The Earley parser, tokenizer and grammar handling live inside Lark and are reduced to the parser oracle. The rest of `SQLParser.parse` (`src/parser/sql_parser.py:60-80`) is modelled where it is used: `None` when Lark could not be built or raises is the oracle's `None`; the blank-query guard is written out in `Validate` and `CheckAmbiguity`; the wrapping in `ParseTree` is `NewParseTree`. Its Lark configuration and its logging are not modelled.
- `src/grammar/grammar_loader.py` builds Lark objects and caches them under Python `hash()` keys. These are foreign calls and are not modelled.
- `src/grammar/sql_grammar.py` and `src/grammar/grammar_examples.py` hold grammar text and example strings. They are data, not logic.
- The print-based harness `test_grammar.py` is not modelled. The re-export-only `__init__.py` files are not modelled either.
- `Tree.pretty()` is Lark's formatting. `GetPrettyString` returns `Pretty(tree)` in its place and gives the out-of-range error text exactly.
- Other pure formatting is not modelled: `get_all_pretty_strings`, `to_json` (`json.dumps`), `__str__`, and the `__repr__` of both classes.
- The `Validator.Message.Text` of the duplicate-columns message joins `set(duplicates)` in Python's set iteration order, which is unspecified. The model joins the names in order of first occurrence.
- `str.lower`, `str.upper` and `str.strip` are modelled with ASCII case mapping and Python's whitespace set. Unicode case mappings beyond ASCII are not modelled.
- Tree indices are natural numbers. Python's negative indices (counting from the end) are not modelled.
- The `"unknown"` fallbacks of `_tree_to_dict`, `_count_nodes` and `_calculate_depth` cannot arise with a two-variant tree type.
- `TreeNode.value` is typed `Any`. It becomes a type parameter.
- `ParseTrees.ExtractColumnsFromSelect` threads the shared list in and out instead of aliasing one Python list. The appends and their order are kept.
- All logging is left out.
