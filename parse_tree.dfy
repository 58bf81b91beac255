/**
 * The derivation tree of a query (`src/parser/parse_tree.py`).
 *
 * Lark, which runs the Earley parser, hands back a tagged tree: an inner
 * node `Tree(data, children)` labelled by its grammar rule, or a leaf
 * `Token(type, value)`. With explicit ambiguity, a node labelled `_ambig`
 * holds one child per alternative derivation. Everything `ParseTree` does
 * is a walk over that tree.
 */
module ParseTrees {

  import opened Wrappers
  import opened Text

  // ---------------------------------------------------------------------
  // TreeNode: a standalone node record
  // ---------------------------------------------------------------------

  /** A node with a name, its children and an optional leaf value. */
  datatype TreeNode<V> = TreeNode(name: string, children: seq<TreeNode<V>>, value: Option<V>)

  /** `TreeNode(name, children, value)`: a missing or empty child list becomes `[]`. */
  function NewTreeNode<V>(name: string, children: Option<seq<TreeNode<V>>>, value: Option<V>): (t: TreeNode<V>)
    ensures t.name == name && t.value == value
    ensures children.Some? ==> t.children == children.value
    ensures children.None? ==> t.children == []
  {
    TreeNode(name, if children.Some? && children.value != [] then children.value else [], value)
  }

  /** `is_terminal`: a leaf that carries a value. */
  predicate IsTerminal<V>(t: TreeNode<V>) {
    |t.children| == 0 && t.value.Some?
  }

  /** `is_nonterminal`: a node with at least one child. */
  predicate IsNonterminal<V>(t: TreeNode<V>) {
    |t.children| > 0
  }

  /**
   * The two classifications never overlap, and a node is neither exactly
   * when it has no children and no value.
   */
  lemma TerminalClassification<V>(t: TreeNode<V>)
    ensures !(IsTerminal(t) && IsNonterminal(t))
    ensures !IsTerminal(t) && !IsNonterminal(t) <==> t.children == [] && t.value.None?
  {
  }

  // ---------------------------------------------------------------------
  // Lark trees
  // ---------------------------------------------------------------------

  /** A Lark parse result: `Tree(data, children)` or `Token(type, value)`. */
  datatype Node = Tree(data: string, children: seq<Node>) | Token(kind: string, value: string)

  /** The label Lark gives a node whose children are alternative derivations. */
  const AmbigLabel := "_ambig"

  predicate IsAmbigNode(n: Node) {
    n.Tree? && n.data == AmbigLabel
  }

  /**
   * Python truthiness of a node: a Lark `Tree` is always true, a `Token`
   * is a `str` and is false when its text is empty.
   */
  predicate IsTruthy(n: Node) {
    n.Tree? || n.value != ""
  }

  /** Python truthiness of an optional string: neither `None` nor `""`. */
  predicate IsTruthyText(r: Option<string>) {
    r.Some? && r.value != ""
  }

  /** Every node of the tree in preorder (a node before its children, children left to right). */
  function Preorder(n: Node): (s: seq<Node>)
    ensures |s| >= 1 && s[0] == n
  {
    match n
    case Token(_, _) => [n]
    case Tree(_, cs) => [n] + PreorderAll(cs)
  }

  function PreorderAll(cs: seq<Node>): seq<Node> {
    if cs == [] then [] else Preorder(cs[0]) + PreorderAll(cs[1..])
  }

  /** The first `_ambig` node of a list of nodes. */
  function FirstAmbig(s: seq<Node>): (r: Option<Node>)
    ensures r.Some? ==> IsAmbigNode(r.value) && r.value in s
    ensures r.None? <==> forall i :: 0 <= i < |s| ==> !IsAmbigNode(s[i])
  {
    if s == [] then None
    else if IsAmbigNode(s[0]) then Some(s[0])
    else FirstAmbig(s[1..])
  }

  lemma {:induction false} FirstAmbigAppend(a: seq<Node>, b: seq<Node>)
    ensures FirstAmbig(a + b) == if FirstAmbig(a).Some? then FirstAmbig(a) else FirstAmbig(b)
  {
    if a == [] {
      assert a + b == b;
    } else {
      assert (a + b)[1..] == a[1..] + b;
      FirstAmbigAppend(a[1..], b);
    }
  }

  // ---------------------------------------------------------------------
  // Ambiguity: _detect_ambiguity, _find_ambig_node, _extract_ambiguous_trees
  // ---------------------------------------------------------------------

  /** `_detect_ambiguity`: the tree holds an `_ambig` node. */
  predicate DetectAmbiguity(n: Node)
    ensures IsAmbigNode(n) ==> DetectAmbiguity(n)
    ensures n.Token? ==> !DetectAmbiguity(n)
  {
    match n
    case Token(_, _) => false
    case Tree(d, cs) => d == AmbigLabel || AnyAmbiguity(cs)
  }

  predicate AnyAmbiguity(cs: seq<Node>) {
    cs != [] && (DetectAmbiguity(cs[0]) || AnyAmbiguity(cs[1..]))
  }

  /**
   * `_find_ambig_node`: the node itself when it is `_ambig`, otherwise the
   * first result found among its children, left to right. A Lark tree is
   * always truthy, so `if result:` only skips `None`.
   */
  function FindAmbigNode(n: Node): (r: Option<Node>)
    ensures r.Some? ==> IsAmbigNode(r.value)
  {
    match n
    case Token(_, _) => None
    case Tree(d, cs) => if d == AmbigLabel then Some(n) else FindAmbigIn(cs)
  }

  function FindAmbigIn(cs: seq<Node>): (r: Option<Node>)
    ensures r.Some? ==> IsAmbigNode(r.value)
  {
    if cs == [] then None
    else
      var r := FindAmbigNode(cs[0]);
      if r.Some? then r else FindAmbigIn(cs[1..])
  }

  /** The search finds exactly the first `_ambig` node in preorder. */
  lemma {:induction false} FindAmbigIsFirstInPreorder(n: Node)
    ensures FindAmbigNode(n) == FirstAmbig(Preorder(n))
  {
    match n
    case Token(_, _) =>
    case Tree(d, cs) =>
      if d != AmbigLabel {
        FindAmbigInIsFirstInPreorder(cs);
        assert Preorder(n)[1..] == PreorderAll(cs);
      }
  }

  lemma {:induction false} FindAmbigInIsFirstInPreorder(cs: seq<Node>)
    ensures FindAmbigIn(cs) == FirstAmbig(PreorderAll(cs))
  {
    if cs != [] {
      FindAmbigIsFirstInPreorder(cs[0]);
      FindAmbigInIsFirstInPreorder(cs[1..]);
      FirstAmbigAppend(Preorder(cs[0]), PreorderAll(cs[1..]));
    }
  }

  /** Detection holds exactly when some node of the tree, in preorder, is `_ambig`. */
  lemma {:induction false} DetectAmbiguityMeansAmbigNode(n: Node)
    ensures DetectAmbiguity(n) <==> FirstAmbig(Preorder(n)).Some?
  {
    match n
    case Token(_, _) =>
    case Tree(d, cs) =>
      if d != AmbigLabel {
        AnyAmbiguityMeansAmbigNode(cs);
        assert Preorder(n)[1..] == PreorderAll(cs);
      }
  }

  lemma {:induction false} AnyAmbiguityMeansAmbigNode(cs: seq<Node>)
    ensures AnyAmbiguity(cs) <==> FirstAmbig(PreorderAll(cs)).Some?
  {
    if cs != [] {
      DetectAmbiguityMeansAmbigNode(cs[0]);
      AnyAmbiguityMeansAmbigNode(cs[1..]);
      FirstAmbigAppend(Preorder(cs[0]), PreorderAll(cs[1..]));
    }
  }

  /**
   * Detection and search agree: `_find_ambig_node` returns a node exactly
   * when `_detect_ambiguity` holds, and what it returns is an `_ambig`
   * node of the tree.
   */
  lemma DetectAgreesWithFind(n: Node)
    ensures DetectAmbiguity(n) <==> FindAmbigNode(n).Some?
    ensures FindAmbigNode(n).Some? ==> IsAmbigNode(FindAmbigNode(n).value) && FindAmbigNode(n).value in Preorder(n)
  {
    FindAmbigIsFirstInPreorder(n);
    DetectAmbiguityMeansAmbigNode(n);
  }

  /**
   * `_extract_ambiguous_trees`: the children of the first `_ambig` node are
   * the alternative derivations; without one, the tree is its only derivation.
   */
  function ExtractAmbiguousTrees(n: Node): seq<Node> {
    match FindAmbigNode(n)
    case Some(m) => if IsAmbigNode(m) then m.children else [n]
    case None => [n]
  }

  // ---------------------------------------------------------------------
  // ParseTree
  // ---------------------------------------------------------------------

  /** A parsed query: Lark's tree, the query text, and what `__init__` computes once. */
  datatype ParseTree = ParseTree(larkTree: Node, originalQuery: string, isAmbiguous: bool, trees: seq<Node>)

  /**
   * `ParseTree(lark_tree, original_query, is_ambiguous)`. The flag passed in
   * is ignored: `__init__` recomputes it from the tree.
   */
  function NewParseTree(larkTree: Node, originalQuery: string): (pt: ParseTree)
    ensures pt.larkTree == larkTree && pt.originalQuery == originalQuery
    ensures pt.isAmbiguous <==> FirstAmbig(Preorder(larkTree)).Some?
    ensures pt.isAmbiguous ==> pt.trees == FirstAmbig(Preorder(larkTree)).value.children
    ensures !pt.isAmbiguous ==> pt.trees == [larkTree]
  {
    FindAmbigIsFirstInPreorder(larkTree);
    DetectAmbiguityMeansAmbigNode(larkTree);
    ParseTree(larkTree, originalQuery, DetectAmbiguity(larkTree), ExtractAmbiguousTrees(larkTree))
  }

  /** `get_derivation_count`. */
  function DerivationCount(pt: ParseTree): nat {
    |pt.trees|
  }

  /**
   * Without an `_ambig` node there is one derivation, the tree itself.
   * Otherwise the count is the number of children of the first `_ambig`
   * node in preorder; ambiguity nested inside those children does not
   * multiply it.
   */
  lemma DerivationCountSpec(larkTree: Node, query: string)
    ensures var pt := NewParseTree(larkTree, query);
      && (!pt.isAmbiguous ==> pt.trees == [larkTree] && DerivationCount(pt) == 1)
      && (pt.isAmbiguous ==> DerivationCount(pt) == |FirstAmbig(Preorder(larkTree)).value.children|)
      && (IsAmbigNode(larkTree) ==> pt.trees == larkTree.children)
  {
  }

  /**
   * Whether the flag and the count agree depends on the first `_ambig`
   * node in preorder alone: "ambiguous exactly when two or more
   * derivations" holds just when there is no such node or it has at least
   * two children. `_ambig` nodes further on are never consulted.
   */
  lemma AmbiguousIffSeveralDerivations(larkTree: Node, query: string)
    ensures var pt := NewParseTree(larkTree, query);
      (pt.isAmbiguous <==> DerivationCount(pt) >= 2)
      <==> (FirstAmbig(Preorder(larkTree)).None? || |FirstAmbig(Preorder(larkTree)).value.children| >= 2)
  {
  }

  /**
   * An assumption about the parser's output, not checked here: every
   * `_ambig` node of the tree offers at least two alternatives.
   */
  predicate WellFormedForest(n: Node) {
    forall i :: 0 <= i < |Preorder(n)| && IsAmbigNode(Preorder(n)[i]) ==> |Preorder(n)[i].children| >= 2
  }

  /** Under that assumption, the tree is ambiguous exactly when it has two or more derivations. */
  lemma WellFormedForestSeveralDerivations(larkTree: Node, query: string)
    requires WellFormedForest(larkTree)
    ensures NewParseTree(larkTree, query).isAmbiguous <==> DerivationCount(NewParseTree(larkTree, query)) >= 2
  {
    AmbiguousIffSeveralDerivations(larkTree, query);
    var first := FirstAmbig(Preorder(larkTree));
    if first.Some? {
      var i :| 0 <= i < |Preorder(larkTree)| && Preorder(larkTree)[i] == first.value;
    }
  }

  /** Without the assumption the two can disagree: an `_ambig` root with one child counts one derivation. */
  lemma SingleAlternativeAmbiguity()
    ensures var t := Tree(AmbigLabel, [Token("CNAME", "a")]);
      NewParseTree(t, "a").isAmbiguous && DerivationCount(NewParseTree(t, "a")) == 1
  {
    DerivationCountSpec(Tree(AmbigLabel, [Token("CNAME", "a")]), "a");
  }

  /** A query tree with two `_ambig` nodes: the first with two alternatives, the second with one. */
  function LaterSingleExample(): Node {
    Tree("query", [Tree(AmbigLabel, [Token("CNAME", "a"), Token("CNAME", "b")]), Tree(AmbigLabel, [Token("CNAME", "c")])])
  }

  /**
   * The assumption is sufficient, not necessary: a second `_ambig` node
   * with a single child leaves the flag and the count in agreement.
   */
  lemma LaterSingleAlternativeIgnored()
    ensures !WellFormedForest(LaterSingleExample())
    ensures NewParseTree(LaterSingleExample(), "a").isAmbiguous
    ensures DerivationCount(NewParseTree(LaterSingleExample(), "a")) == 2
  {
    var t := LaterSingleExample();
    var a := t.children[0];
    var c := t.children[1];
    assert t.children[1..] == [c];
    assert PreorderAll([c]) == Preorder(c);
    assert PreorderAll(t.children) == Preorder(a) + Preorder(c);
    assert Preorder(t) == [t] + Preorder(a) + Preorder(c);
    assert Preorder(t)[1] == a;
    assert Preorder(t)[|Preorder(a)| + 1] == c;
    assert FirstAmbig(Preorder(t)[1..]) == Some(a);
  }

  // ---------------------------------------------------------------------
  // Depth and node count
  // ---------------------------------------------------------------------

  function Max(a: nat, b: nat): nat {
    if a >= b then a else b
  }

  /**
   * `_calculate_depth(node, current_depth)`: a token or a childless tree
   * stays at the current depth; otherwise the deepest child, one level down.
   */
  function CalculateDepth(n: Node, currentDepth: nat): (r: nat)
    ensures r >= currentDepth
  {
    match n
    case Token(_, _) => currentDepth
    case Tree(_, cs) => if cs == [] then currentDepth else MaxChildDepth(cs, currentDepth + 1)
  }

  /** `max(_calculate_depth(child, d) for child in cs)`. */
  function MaxChildDepth(cs: seq<Node>, d: nat): (r: nat)
    requires cs != []
    ensures r >= d
  {
    if |cs| == 1 then CalculateDepth(cs[0], d)
    else Max(CalculateDepth(cs[0], d), MaxChildDepth(cs[1..], d))
  }

  /** The height of a tree, defined without an accumulator. */
  function Height(n: Node): nat {
    match n
    case Token(_, _) => 0
    case Tree(_, cs) => if cs == [] then 0 else 1 + MaxHeight(cs)
  }

  function MaxHeight(cs: seq<Node>): nat
    requires cs != []
  {
    if |cs| == 1 then Height(cs[0]) else Max(Height(cs[0]), MaxHeight(cs[1..]))
  }

  /** Starting from offset `d` adds exactly `d` to the height. */
  lemma {:induction false} DepthIsOffsetHeight(n: Node, d: nat)
    ensures CalculateDepth(n, d) == d + Height(n)
  {
    match n
    case Token(_, _) =>
    case Tree(_, cs) =>
      if cs != [] {
        MaxChildDepthIsOffsetHeight(cs, d + 1);
      }
  }

  lemma {:induction false} MaxChildDepthIsOffsetHeight(cs: seq<Node>, d: nat)
    requires cs != []
    ensures MaxChildDepth(cs, d) == d + MaxHeight(cs)
  {
    DepthIsOffsetHeight(cs[0], d);
    if |cs| > 1 {
      MaxChildDepthIsOffsetHeight(cs[1..], d);
    }
  }

  /** Depth from offset `d` is `d` plus the depth from offset 0. */
  lemma DepthOffset(n: Node, d: nat)
    ensures CalculateDepth(n, d) == d + CalculateDepth(n, 0)
  {
    DepthIsOffsetHeight(n, d);
    DepthIsOffsetHeight(n, 0);
  }

  lemma {:induction false} MaxHeightIsMaximum(cs: seq<Node>)
    requires cs != []
    ensures forall i :: 0 <= i < |cs| ==> Height(cs[i]) <= MaxHeight(cs)
    ensures exists i :: 0 <= i < |cs| && Height(cs[i]) == MaxHeight(cs)
  {
    if |cs| == 1 {
      assert Height(cs[0]) == MaxHeight(cs);
    } else {
      MaxHeightIsMaximum(cs[1..]);
      var k :| 0 <= k < |cs[1..]| && Height(cs[1..][k]) == MaxHeight(cs[1..]);
      assert Height(cs[k + 1]) == MaxHeight(cs[1..]);
      forall i | 1 <= i < |cs| ensures Height(cs[i]) <= MaxHeight(cs) {
        assert cs[i] == cs[1..][i - 1];
      }
      if Height(cs[0]) >= MaxHeight(cs[1..]) {
        assert Height(cs[0]) == MaxHeight(cs);
      } else {
        assert Height(cs[k + 1]) == MaxHeight(cs);
      }
    }
  }

  /**
   * The depth from offset 0: a token or a childless tree has depth 0; any
   * other tree is one deeper than its deepest child.
   */
  lemma DepthShape(n: Node)
    ensures n.Token? ==> CalculateDepth(n, 0) == 0
    ensures n.Tree? && n.children == [] ==> CalculateDepth(n, 0) == 0
    ensures n.Tree? && n.children != [] ==>
      && (forall i :: 0 <= i < |n.children| ==> CalculateDepth(n.children[i], 0) + 1 <= CalculateDepth(n, 0))
      && (exists i :: 0 <= i < |n.children| && CalculateDepth(n.children[i], 0) + 1 == CalculateDepth(n, 0))
  {
    DepthIsOffsetHeight(n, 0);
    if n.Tree? && n.children != [] {
      MaxHeightIsMaximum(n.children);
      forall i | 0 <= i < |n.children| ensures CalculateDepth(n.children[i], 0) == Height(n.children[i]) {
        DepthIsOffsetHeight(n.children[i], 0);
      }
    }
  }

  /** `_count_nodes`: one for a token, one plus the children's counts for a tree. */
  function CountNodes(n: Node): (r: nat)
    ensures r >= 1
  {
    match n
    case Token(_, _) => 1
    case Tree(_, cs) => 1 + SumCounts(cs)
  }

  function SumCounts(cs: seq<Node>): nat {
    if cs == [] then 0 else CountNodes(cs[0]) + SumCounts(cs[1..])
  }

  /** The node count is the number of nodes a preorder walk visits. */
  lemma {:induction false} CountIsPreorderLength(n: Node)
    ensures CountNodes(n) == |Preorder(n)|
  {
    match n
    case Token(_, _) =>
    case Tree(_, cs) => SumIsPreorderAllLength(cs);
  }

  lemma {:induction false} SumIsPreorderAllLength(cs: seq<Node>)
    ensures SumCounts(cs) == |PreorderAll(cs)|
  {
    if cs != [] {
      CountIsPreorderLength(cs[0]);
      SumIsPreorderAllLength(cs[1..]);
    }
  }

  /** A tree has more nodes than levels: the count is at least the height plus one. */
  lemma {:induction false} CountExceedsHeight(n: Node)
    ensures CountNodes(n) >= Height(n) + 1
  {
    match n
    case Token(_, _) =>
    case Tree(_, cs) =>
      if cs != [] {
        MaxHeightIsMaximum(cs);
        var i :| 0 <= i < |cs| && Height(cs[i]) == MaxHeight(cs);
        CountExceedsHeight(cs[i]);
        SumCountsCoversChild(cs, i);
      }
  }

  lemma {:induction false} SumCountsCoversChild(cs: seq<Node>, i: nat)
    requires i < |cs|
    ensures SumCounts(cs) >= CountNodes(cs[i])
  {
    if i > 0 {
      SumCountsCoversChild(cs[1..], i - 1);
    }
  }

  /** `get_depth(tree_index)`: 0 for an index out of range. */
  function GetDepth(pt: ParseTree, treeIndex: nat): (r: nat)
    ensures treeIndex >= |pt.trees| ==> r == 0
    ensures treeIndex < |pt.trees| ==> r == Height(pt.trees[treeIndex])
  {
    if treeIndex >= |pt.trees| then 0
    else
      DepthIsOffsetHeight(pt.trees[treeIndex], 0);
      CalculateDepth(pt.trees[treeIndex], 0)
  }

  /** `get_node_count(tree_index)`: 0 for an index out of range, never 0 otherwise. */
  function GetNodeCount(pt: ParseTree, treeIndex: nat): (r: nat)
    ensures r == 0 <==> treeIndex >= |pt.trees|
  {
    if treeIndex >= |pt.trees| then 0 else CountNodes(pt.trees[treeIndex])
  }

  /**
   * For an index in range, the node count is the number of nodes of that
   * derivation and exceeds its depth.
   */
  lemma NodeCountExceedsDepth(pt: ParseTree, treeIndex: nat)
    requires treeIndex < |pt.trees|
    ensures GetNodeCount(pt, treeIndex) == |Preorder(pt.trees[treeIndex])|
    ensures GetNodeCount(pt, treeIndex) >= GetDepth(pt, treeIndex) + 1
  {
    CountIsPreorderLength(pt.trees[treeIndex]);
    CountExceedsHeight(pt.trees[treeIndex]);
    DepthIsOffsetHeight(pt.trees[treeIndex], 0);
  }

  // ---------------------------------------------------------------------
  // Column extraction: extract_columns, _extract_columns_from_select
  // ---------------------------------------------------------------------

  const ColumnsLabel := "columns"
  const ColumnLabel := "column"
  const OrderClauseLabel := "order_clause"

  /** The texts of the tokens among `cs`, left to right. */
  function TokenValues(cs: seq<Node>): seq<string> {
    if cs == [] then []
    else TokenValues(cs[..|cs| - 1]) + (if cs[|cs| - 1].Token? then [cs[|cs| - 1].value] else [])
  }

  /** The token texts of the `column` nodes among `cs`, left to right. */
  function ColumnTokens(cs: seq<Node>): seq<string> {
    if cs == [] then []
    else
      var last := cs[|cs| - 1];
      ColumnTokens(cs[..|cs| - 1]) + (if last.Tree? && last.data == ColumnLabel then TokenValues(last.children) else [])
  }

  /**
   * What `_extract_columns_from_select` appends for a node: at a `columns`
   * node, the tokens of its `column` children and nothing deeper; at an
   * `order_clause` node, nothing; at any other tree, what its children
   * give, left to right.
   */
  function SelectColumns(n: Node): seq<string> {
    match n
    case Token(_, _) => []
    case Tree(d, cs) =>
      if d == ColumnsLabel then ColumnTokens(cs)
      else if d == OrderClauseLabel then []
      else SelectColumnsAll(cs)
  }

  function SelectColumnsAll(cs: seq<Node>): seq<string> {
    if cs == [] then [] else SelectColumnsAll(cs[..|cs| - 1]) + SelectColumns(cs[|cs| - 1])
  }

  /** The inner loop at a `column` node: the text of every token child is appended, left to right. */
  method AppendTokenValues(cs: seq<Node>, columns: seq<string>) returns (result: seq<string>)
    ensures result == columns + TokenValues(cs)
  {
    result := columns;
    var j := 0;
    while j < |cs|
      invariant 0 <= j <= |cs|
      invariant result == columns + TokenValues(cs[..j])
    {
      var subchild := cs[j];
      assert cs[..j + 1][..j] == cs[..j];
      if subchild.Token? {
        result := result + [subchild.value];
      }
      j := j + 1;
    }
    assert cs[..j] == cs;
  }

  /**
   * The loops of `_extract_columns_from_select` at a `columns` node: the
   * tokens of every `column` child are appended, left to right.
   */
  method AppendColumnTokens(cs: seq<Node>, columns: seq<string>) returns (result: seq<string>)
    ensures result == columns + ColumnTokens(cs)
  {
    result := columns;
    var i := 0;
    while i < |cs|
      invariant 0 <= i <= |cs|
      invariant result == columns + ColumnTokens(cs[..i])
    {
      var child := cs[i];
      assert cs[..i + 1][..i] == cs[..i];
      if child.Tree? && child.data == ColumnLabel {
        result := AppendTokenValues(child.children, result);
      }
      i := i + 1;
    }
    assert cs[..i] == cs;
  }

  /**
   * `_extract_columns_from_select(node, columns)`: appends to the shared
   * list `columns`, here threaded in and handed back. The search stops at
   * a `columns` node and never enters an `order_clause` node.
   */
  method ExtractColumnsFromSelect(node: Node, columns: seq<string>) returns (result: seq<string>)
    ensures result == columns + SelectColumns(node)
    decreases node
  {
    result := columns;
    if node.Tree? {
      var cs := node.children;
      if node.data == ColumnsLabel {
        result := AppendColumnTokens(cs, result);
        return;
      }
      if node.data != OrderClauseLabel {
        var i := 0;
        while i < |cs|
          invariant 0 <= i <= |cs|
          invariant result == columns + SelectColumnsAll(cs[..i])
        {
          assert cs[..i + 1][..i] == cs[..i];
          result := ExtractColumnsFromSelect(cs[i], result);
          i := i + 1;
        }
        assert cs[..i] == cs;
      }
    }
  }

  /** The column list `extract_columns(tree_index)` returns. */
  function ColumnsAt(pt: ParseTree, treeIndex: nat): seq<string> {
    if treeIndex < |pt.trees| then SelectColumns(pt.trees[treeIndex]) else []
  }

  /** `extract_columns(tree_index)`: empty for an index out of range. */
  method ExtractColumns(pt: ParseTree, treeIndex: nat) returns (columns: seq<string>)
    ensures columns == ColumnsAt(pt, treeIndex)
    ensures treeIndex >= |pt.trees| ==> columns == []
  {
    columns := [];
    if treeIndex < |pt.trees| {
      var tree := pt.trees[treeIndex];
      if IsTruthy(tree) {
        columns := ExtractColumnsFromSelect(tree, columns);
      }
    }
  }

  /**
   * The nodes labelled `target` that a depth-first search reaches without
   * entering a node labelled `boundary` and without looking inside a
   * `target` node it has found, in preorder.
   */
  function ScopedNodes(n: Node, target: string, boundary: string): seq<Node> {
    match n
    case Token(_, _) => []
    case Tree(d, cs) =>
      if d == target then [n]
      else if d == boundary then []
      else ScopedNodesAll(cs, target, boundary)
  }

  function ScopedNodesAll(cs: seq<Node>, target: string, boundary: string): seq<Node> {
    if cs == [] then [] else ScopedNodesAll(cs[..|cs| - 1], target, boundary) + ScopedNodes(cs[|cs| - 1], target, boundary)
  }

  /** The column tokens of each node in turn, concatenated. */
  function ColumnTokensOfEach(ns: seq<Node>): seq<string> {
    if ns == [] then [] else ColumnTokensOfEach(ns[..|ns| - 1]) + (if ns[|ns| - 1].Tree? then ColumnTokens(ns[|ns| - 1].children) else [])
  }

  lemma {:induction false} ColumnTokensOfEachAppend(a: seq<Node>, b: seq<Node>)
    ensures ColumnTokensOfEach(a + b) == ColumnTokensOfEach(a) + ColumnTokensOfEach(b)
    decreases |b|
  {
    if b == [] {
      assert a + b == a;
    } else {
      assert (a + b)[..|a + b| - 1] == a + b[..|b| - 1];
      ColumnTokensOfEachAppend(a, b[..|b| - 1]);
    }
  }

  /**
   * Column extraction is a scoped search: find the `columns` nodes reached
   * without passing through an `order_clause` node, then take the tokens
   * of their `column` children.
   */
  lemma {:induction false} SelectColumnsIsScopedSearch(n: Node)
    ensures SelectColumns(n) == ColumnTokensOfEach(ScopedNodes(n, ColumnsLabel, OrderClauseLabel))
  {
    match n
    case Token(_, _) =>
    case Tree(d, cs) =>
      if d == ColumnsLabel {
        assert ColumnTokensOfEach([n]) == ColumnTokensOfEach([]) + ColumnTokens(cs);
      } else if d != OrderClauseLabel {
        SelectColumnsAllIsScopedSearch(cs);
      }
  }

  lemma {:induction false} SelectColumnsAllIsScopedSearch(cs: seq<Node>)
    ensures SelectColumnsAll(cs) == ColumnTokensOfEach(ScopedNodesAll(cs, ColumnsLabel, OrderClauseLabel))
  {
    if cs != [] {
      SelectColumnsAllIsScopedSearch(cs[..|cs| - 1]);
      SelectColumnsIsScopedSearch(cs[|cs| - 1]);
      ColumnTokensOfEachAppend(ScopedNodesAll(cs[..|cs| - 1], ColumnsLabel, OrderClauseLabel), ScopedNodes(cs[|cs| - 1], ColumnsLabel, OrderClauseLabel));
    }
  }

  /** The tree with the contents of every `order_clause` node removed. */
  function PruneOrderClauses(n: Node): (r: Node)
    ensures r.Tree? <==> n.Tree?
    ensures r.Tree? ==> r.data == n.data
    ensures r.Token? ==> r == n
  {
    match n
    case Token(_, _) => n
    case Tree(d, cs) => if d == OrderClauseLabel then Tree(d, []) else Tree(d, PruneAll(cs))
  }

  function PruneAll(cs: seq<Node>): (r: seq<Node>)
    ensures |r| == |cs|
    ensures forall i :: 0 <= i < |cs| ==> r[i] == PruneOrderClauses(cs[i])
  {
    if cs == [] then [] else PruneAll(cs[..|cs| - 1]) + [PruneOrderClauses(cs[|cs| - 1])]
  }

  lemma {:induction false} TokenValuesOfPruned(cs: seq<Node>)
    ensures TokenValues(PruneAll(cs)) == TokenValues(cs)
  {
    if cs != [] {
      TokenValuesOfPruned(cs[..|cs| - 1]);
      assert PruneAll(cs)[..|cs| - 1] == PruneAll(cs[..|cs| - 1]);
    }
  }

  lemma {:induction false} ColumnTokensOfPruned(cs: seq<Node>)
    ensures ColumnTokens(PruneAll(cs)) == ColumnTokens(cs)
  {
    if cs != [] {
      ColumnTokensOfPruned(cs[..|cs| - 1]);
      assert PruneAll(cs)[..|cs| - 1] == PruneAll(cs[..|cs| - 1]);
      var last := cs[|cs| - 1];
      if last.Tree? && last.data == ColumnLabel {
        TokenValuesOfPruned(last.children);
      }
    }
  }

  /**
   * Nothing under an `order_clause` node is ever collected: emptying every
   * `order_clause` node leaves the extracted columns unchanged.
   */
  lemma {:induction false} OrderClauseNeverCollected(n: Node)
    ensures SelectColumns(PruneOrderClauses(n)) == SelectColumns(n)
  {
    match n
    case Token(_, _) =>
    case Tree(d, cs) =>
      if d == ColumnsLabel {
        ColumnTokensOfPruned(cs);
      } else if d != OrderClauseLabel {
        OrderClauseNeverCollectedAll(cs);
      }
  }

  lemma {:induction false} OrderClauseNeverCollectedAll(cs: seq<Node>)
    ensures SelectColumnsAll(PruneAll(cs)) == SelectColumnsAll(cs)
  {
    if cs != [] {
      OrderClauseNeverCollectedAll(cs[..|cs| - 1]);
      OrderClauseNeverCollected(cs[|cs| - 1]);
      assert PruneAll(cs)[..|cs| - 1] == PruneAll(cs[..|cs| - 1]);
    }
  }

  /** The tree Lark builds for `SELECT name, age FROM users ORDER BY name ASC`. */
  function OrderedSelectExample(): Node {
    Tree("query", [
      Tree(ColumnsLabel, [Tree(ColumnLabel, [Token("CNAME", "name")]), Tree(ColumnLabel, [Token("CNAME", "age")])]),
      Tree("table", [Token("CNAME", "users")]),
      Tree(OrderClauseLabel, [Tree(ColumnLabel, [Token("CNAME", "name")])])
    ])
  }

  /** The projected columns of the example, without the `ORDER BY` column. */
  lemma OrderedSelectColumns()
    ensures SelectColumns(OrderedSelectExample()) == ["name", "age"]
  {
    var cs := OrderedSelectExample().children;
    var cols := cs[0].children;
    assert cols[..1][..0] == [];
    assert TokenValues(cols[0].children) == ["name"];
    assert TokenValues(cols[1].children) == ["age"];
    assert ColumnTokens(cols[..1]) == ["name"];
    assert cols[..2][..1] == cols[..1];
    assert ColumnTokens(cols) == ["name", "age"];
    assert SelectColumns(cs[0]) == ["name", "age"];
    assert SelectColumns(cs[1]) == [];
    assert SelectColumns(cs[2]) == [];
    assert cs[..1][..0] == [];
    assert SelectColumnsAll(cs[..1]) == ["name", "age"];
    assert cs[..2][..1] == cs[..1];
    assert SelectColumnsAll(cs[..2]) == ["name", "age"];
    assert cs[..3][..2] == cs[..2];
    assert cs[..3] == cs;
  }

  // ---------------------------------------------------------------------
  // Table extraction: extract_table, _extract_table_recursive
  // ---------------------------------------------------------------------

  const TableLabel := "table"

  /** The text of the first token among `cs`. */
  function FirstToken(cs: seq<Node>): (r: Option<string>)
    ensures r.Some? <==> exists i :: 0 <= i < |cs| && cs[i].Token?
    ensures r.Some? ==> exists i :: 0 <= i < |cs| && cs[i].Token? && cs[i].value == r.value
  {
    if cs == [] then None
    else if cs[0].Token? then Some(cs[0].value)
    else
      var r := FirstToken(cs[1..]);
      assert forall i :: 1 <= i < |cs| ==> cs[i] == cs[1..][i - 1];
      r
  }

  /** A `table` node with a token child: where `_extract_table_recursive` answers. */
  predicate IsTableWithToken(n: Node) {
    n.Tree? && n.data == TableLabel && FirstToken(n.children).Some?
  }

  /**
   * `_extract_table_recursive`: at a `table` node with a token child, that
   * child's text; otherwise the first truthy (not `None`, not `""`) result
   * among the children, left to right.
   */
  function ExtractTableRecursive(n: Node): Option<string> {
    match n
    case Token(_, _) => None
    case Tree(_, cs) => if IsTableWithToken(n) then FirstToken(cs) else FirstTableIn(cs)
  }

  function FirstTableIn(cs: seq<Node>): Option<string> {
    if cs == [] then None
    else
      var r := ExtractTableRecursive(cs[0]);
      if IsTruthyText(r) then r else FirstTableIn(cs[1..])
  }

  /** `extract_table(tree_index)`: `None` for an index out of range. */
  function ExtractTable(pt: ParseTree, treeIndex: nat): (r: Option<string>)
    ensures r.Some? ==> treeIndex < |pt.trees|
    ensures r.Some? ==> var t := pt.trees[treeIndex];
      exists i :: 0 <= i < |Preorder(t)| && Preorder(t)[i].Tree? && Preorder(t)[i].data == TableLabel
        && r.value in TokenValues(Preorder(t)[i].children)
  {
    if treeIndex < |pt.trees| && IsTruthy(pt.trees[treeIndex]) then
      TableComesFromTableNode(pt.trees[treeIndex]);
      ExtractTableRecursive(pt.trees[treeIndex])
    else None
  }

  /**
   * The candidate table names, in preorder: the first token text of each
   * `table` node that has a token child, without looking inside such a node.
   */
  function TableCandidates(n: Node): seq<string> {
    match n
    case Token(_, _) => []
    case Tree(_, cs) => if IsTableWithToken(n) then [FirstToken(cs).value] else TableCandidatesAll(cs)
  }

  function TableCandidatesAll(cs: seq<Node>): seq<string> {
    if cs == [] then [] else TableCandidates(cs[0]) + TableCandidatesAll(cs[1..])
  }

  /** The first non-empty text of a list. */
  function FirstNonEmpty(s: seq<string>): (r: Option<string>)
    ensures r.Some? ==> r.value != "" && r.value in s
    ensures r.None? <==> forall i :: 0 <= i < |s| ==> s[i] == ""
  {
    if s == [] then None
    else if s[0] != "" then Some(s[0])
    else FirstNonEmpty(s[1..])
  }

  lemma {:induction false} FirstNonEmptyAppend(a: seq<string>, b: seq<string>)
    ensures FirstNonEmpty(a + b) == if FirstNonEmpty(a).Some? then FirstNonEmpty(a) else FirstNonEmpty(b)
  {
    if a == [] {
      assert a + b == b;
    } else {
      assert (a + b)[1..] == a[1..] + b;
      FirstNonEmptyAppend(a[1..], b);
    }
  }

  /**
   * Below the root, a table is the first non-empty candidate in preorder;
   * an empty one is passed over as falsy. Only at the root does an empty
   * token text come back as `""`.
   */
  lemma {:induction false} TableIsFirstNonEmptyCandidate(n: Node)
    ensures IsTruthyText(ExtractTableRecursive(n)) <==> FirstNonEmpty(TableCandidates(n)).Some?
    ensures IsTruthyText(ExtractTableRecursive(n)) ==> ExtractTableRecursive(n) == FirstNonEmpty(TableCandidates(n))
    ensures !IsTableWithToken(n) ==> ExtractTableRecursive(n) == FirstNonEmpty(TableCandidates(n))
  {
    match n
    case Token(_, _) =>
    case Tree(_, cs) =>
      if !IsTableWithToken(n) {
        FirstTableInIsFirstNonEmpty(cs);
      }
  }

  lemma {:induction false} FirstTableInIsFirstNonEmpty(cs: seq<Node>)
    ensures FirstTableIn(cs) == FirstNonEmpty(TableCandidatesAll(cs))
  {
    if cs != [] {
      TableIsFirstNonEmptyCandidate(cs[0]);
      FirstTableInIsFirstNonEmpty(cs[1..]);
      FirstNonEmptyAppend(TableCandidates(cs[0]), TableCandidatesAll(cs[1..]));
    }
  }

  /**
   * A table found is the text of a token child of a `table` node of the
   * tree, and nothing is found when the tree has no such token.
   */
  lemma {:induction false} TableComesFromTableNode(n: Node)
    ensures ExtractTableRecursive(n).Some? ==>
      exists i :: 0 <= i < |Preorder(n)| && Preorder(n)[i].Tree? && Preorder(n)[i].data == TableLabel
        && ExtractTableRecursive(n).value in TokenValues(Preorder(n)[i].children)
  {
    match n
    case Token(_, _) =>
    case Tree(_, cs) =>
      if IsTableWithToken(n) {
        var j :| 0 <= j < |cs| && cs[j].Token? && cs[j].value == FirstToken(cs).value;
        TokenValuesContains(cs, j);
        assert Preorder(n)[0] == n;
      } else {
        FirstTableInComesFromTableNode(cs);
        assert Preorder(n)[1..] == PreorderAll(cs);
        if FirstTableIn(cs).Some? {
          var i :| 0 <= i < |PreorderAll(cs)| && PreorderAll(cs)[i].Tree? && PreorderAll(cs)[i].data == TableLabel
            && FirstTableIn(cs).value in TokenValues(PreorderAll(cs)[i].children);
          assert Preorder(n)[i + 1] == PreorderAll(cs)[i];
        }
      }
  }

  lemma {:induction false} FirstTableInComesFromTableNode(cs: seq<Node>)
    ensures FirstTableIn(cs).Some? ==>
      exists i :: 0 <= i < |PreorderAll(cs)| && PreorderAll(cs)[i].Tree? && PreorderAll(cs)[i].data == TableLabel
        && FirstTableIn(cs).value in TokenValues(PreorderAll(cs)[i].children)
  {
    if cs != [] {
      var r := ExtractTableRecursive(cs[0]);
      var pre := Preorder(cs[0]);
      var rest := PreorderAll(cs[1..]);
      assert PreorderAll(cs) == pre + rest;
      if IsTruthyText(r) {
        TableComesFromTableNode(cs[0]);
        var i :| 0 <= i < |pre| && pre[i].Tree? && pre[i].data == TableLabel && r.value in TokenValues(pre[i].children);
        assert PreorderAll(cs)[i] == pre[i];
      } else {
        FirstTableInComesFromTableNode(cs[1..]);
        if FirstTableIn(cs[1..]).Some? {
          var i :| 0 <= i < |rest| && rest[i].Tree? && rest[i].data == TableLabel
            && FirstTableIn(cs[1..]).value in TokenValues(rest[i].children);
          assert PreorderAll(cs)[|pre| + i] == rest[i];
        }
      }
    }
  }

  lemma {:induction false} TokenValuesContains(cs: seq<Node>, j: nat)
    requires j < |cs| && cs[j].Token?
    ensures cs[j].value in TokenValues(cs)
  {
    if j < |cs| - 1 {
      TokenValuesContains(cs[..|cs| - 1], j);
    }
  }

  // ---------------------------------------------------------------------
  // Dictionary form: _tree_to_dict, to_dict
  // ---------------------------------------------------------------------

  /** The nested record `_tree_to_dict` builds: `{"type", "name", "value"}` or `{"type", "name", "children"}`. */
  datatype NodeDict = TokenDict(name: string, value: string) | TreeDict(name: string, children: seq<NodeDict>) {
    /** The `"type"` entry. */
    function Type(): string {
      if TokenDict? then "token" else "tree"
    }
  }

  /** `_tree_to_dict`: a token keeps its type name and text, a tree its rule name and its children in order. */
  function TreeToDict(n: Node): (r: NodeDict)
    ensures r.Type() == (if n.Token? then "token" else "tree")
    ensures r.TreeDict? ==> |r.children| == |n.children|
  {
    match n
    case Token(kind, value) => TokenDict(kind, value)
    case Tree(data, cs) => TreeDict(data, TreesToDicts(cs))
  }

  function TreesToDicts(cs: seq<Node>): (r: seq<NodeDict>)
    ensures |r| == |cs|
  {
    if cs == [] then [] else [TreeToDict(cs[0])] + TreesToDicts(cs[1..])
  }

  /** Reads a dictionary back as a tree. */
  function DictToTree(d: NodeDict): Node {
    match d
    case TokenDict(name, value) => Token(name, value)
    case TreeDict(name, cs) => Tree(name, DictsToTrees(cs))
  }

  function DictsToTrees(ds: seq<NodeDict>): seq<Node> {
    if ds == [] then [] else [DictToTree(ds[0])] + DictsToTrees(ds[1..])
  }

  /** The dictionary form loses nothing: reading it back gives the tree. */
  lemma {:induction false} TreeToDictRoundTrip(n: Node)
    ensures DictToTree(TreeToDict(n)) == n
  {
    match n
    case Token(_, _) =>
    case Tree(_, cs) => TreesToDictsRoundTrip(cs);
  }

  lemma {:induction false} TreesToDictsRoundTrip(cs: seq<Node>)
    ensures DictsToTrees(TreesToDicts(cs)) == cs
  {
    if cs != [] {
      TreeToDictRoundTrip(cs[0]);
      TreesToDictsRoundTrip(cs[1..]);
    }
  }

  /** Every dictionary of this shape is the form of exactly one tree. */
  lemma {:induction false} DictToTreeRoundTrip(d: NodeDict)
    ensures TreeToDict(DictToTree(d)) == d
  {
    match d
    case TokenDict(_, _) =>
    case TreeDict(_, ds) => DictsToTreesRoundTrip(ds);
  }

  lemma {:induction false} DictsToTreesRoundTrip(ds: seq<NodeDict>)
    ensures TreesToDicts(DictsToTrees(ds)) == ds
  {
    if ds != [] {
      DictToTreeRoundTrip(ds[0]);
      DictsToTreesRoundTrip(ds[1..]);
    }
  }

  /** The result of `to_dict`: an error entry, or the query, the flags and the tree. */
  datatype TreeReport =
    | ErrorReport(error: string)
    | Report(query: string, isAmbiguous: bool, derivationCount: nat, tree: NodeDict)

  /** `to_dict(tree_index)`. */
  function ToDict(pt: ParseTree, treeIndex: nat): (r: TreeReport)
    ensures r.ErrorReport? <==> treeIndex >= |pt.trees|
    ensures r.Report? ==> r.query == pt.originalQuery && r.isAmbiguous == pt.isAmbiguous && r.derivationCount == |pt.trees|
  {
    if treeIndex >= |pt.trees| then ErrorReport("\U{CD}ndice " + NatToString(treeIndex) + " fuera de rango")
    else Report(pt.originalQuery, pt.isAmbiguous, DerivationCount(pt), TreeToDict(pt.trees[treeIndex]))
  }

  /** For an index in range, the report carries the chosen derivation whole, and reading it back gives that derivation. */
  lemma ToDictPreservesDerivation(pt: ParseTree, treeIndex: nat)
    requires treeIndex < |pt.trees|
    ensures ToDict(pt, treeIndex).Report?
    ensures DictToTree(ToDict(pt, treeIndex).tree) == pt.trees[treeIndex]
    ensures ToDict(pt, treeIndex).derivationCount == |pt.trees|
  {
    TreeToDictRoundTrip(pt.trees[treeIndex]);
  }

  // ---------------------------------------------------------------------
  // Pretty string
  // ---------------------------------------------------------------------

  /** The result of `get_pretty_string`: Lark's `pretty()` rendering of a derivation, or an error text. */
  datatype PrettyText = Pretty(tree: Node) | ErrorText(text: string)

  /** `get_pretty_string(tree_index)`. */
  function GetPrettyString(pt: ParseTree, treeIndex: nat): (r: PrettyText)
    ensures r.ErrorText? <==> treeIndex >= |pt.trees|
    ensures r.Pretty? ==> r.tree == pt.trees[treeIndex]
  {
    if treeIndex >= |pt.trees| then
      ErrorText("Error: \U{ED}ndice " + NatToString(treeIndex) + " fuera de rango (hay " + NatToString(|pt.trees|) + " \U{E1}rboles)")
    else Pretty(pt.trees[treeIndex])
  }

  /**
   * An index past the last derivation never fails: depth and count are 0,
   * no columns and no table are found, and `to_dict` and
   * `get_pretty_string` answer with an error.
   */
  lemma OutOfRangeAccess(pt: ParseTree, treeIndex: nat)
    requires treeIndex >= |pt.trees|
    ensures GetDepth(pt, treeIndex) == 0
    ensures GetNodeCount(pt, treeIndex) == 0
    ensures ColumnsAt(pt, treeIndex) == []
    ensures ExtractTable(pt, treeIndex) == None
    ensures ToDict(pt, treeIndex) == ErrorReport("\U{CD}ndice " + NatToString(treeIndex) + " fuera de rango")
    ensures GetPrettyString(pt, treeIndex)
      == ErrorText("Error: \U{ED}ndice " + NatToString(treeIndex) + " fuera de rango (hay " + NatToString(|pt.trees|) + " \U{E1}rboles)")
  {
  }
}
