/**
 * The hand-written SGF reader of src/utils/sgfParser.ts.  It is a tolerant
 * subset of the SGF FF[4] grammar: a GameTree is `(` Sequence GameTree* `)`,
 * a Node is `;` followed by properties, a property is an upper-case key and
 * bracketed values, and inside a value `\` makes the next character literal.
 *
 * The parser object of the source is a closure over the text with two
 * shared counters, `index` and `nodeId`; it is modelled by class Parser.
 * Nodes are objects that later steps update (children are pushed, properties
 * assigned), so they live in an arena, `nodes`, where a node is referred to
 * by its position; the position is also its `id`.
 *
 * Every step is first written as a function on the text and a position
 * (SkipWs, KeyEnd, ValueScan, ValuesScan, Property, NodeLoop, TreeLoop,
 * Parse), and each method of Parser is proved to do what its function says.
 */
module SgfParser {
  import opened Wrappers

  type Props = map<string, seq<string>>

  /** A node: its id, its property table, its children's ids in order, its parent's id. */
  datatype Node = Node(id: nat, props: Props, children: seq<nat>, parent: Option<nat>)

  /** The characters matched by the regular expression `\s`. */
  predicate IsWhitespace(c: char) {
    c == ' ' || c == '\t' || c == '\n' || c == '\r' || c == '\U{000B}' || c == '\U{000C}' ||
    c == '\U{00A0}' || c == '\U{1680}' || ('\U{2000}' <= c <= '\U{200A}') ||
    c == '\U{2028}' || c == '\U{2029}' || c == '\U{202F}' || c == '\U{205F}' ||
    c == '\U{3000}' || c == '\U{FEFF}'
  }

  predicate IsUpper(c: char) {
    'A' <= c <= 'Z'
  }

  /** `skipWhitespace`: the first position at or after i that is not whitespace. */
  function SkipWs(s: string, i: nat): (j: nat)
    ensures i <= j && (j == i || j <= |s|)
    decreases |s| - i
  {
    if i < |s| && IsWhitespace(s[i]) then SkipWs(s, i + 1) else i
  }

  /** SkipWs passes whitespace only, and stops at a non-blank character or the end. */
  lemma {:induction false} SkipWsStops(s: string, i: nat)
    ensures forall k :: i <= k < SkipWs(s, i) ==> IsWhitespace(s[k])
    ensures SkipWs(s, i) < |s| ==> !IsWhitespace(s[SkipWs(s, i)])
    decreases |s| - i
  {
    if i < |s| && IsWhitespace(s[i]) {
      SkipWsStops(s, i + 1);
    }
  }

  /** The end of the run of upper-case letters that starts at i. */
  function KeyEnd(s: string, i: nat): (e: nat)
    requires i <= |s|
    ensures i <= e <= |s|
    decreases |s| - i
  {
    if i < |s| && IsUpper(s[i]) then KeyEnd(s, i + 1) else i
  }

  /** A key is a maximal run of upper-case letters. */
  lemma {:induction false} KeyEndMaximal(s: string, i: nat)
    requires i <= |s|
    ensures forall k :: i <= k < KeyEnd(s, i) ==> IsUpper(s[k])
    ensures KeyEnd(s, i) < |s| ==> !IsUpper(s[KeyEnd(s, i)])
    decreases |s| - i
  {
    if i < |s| && IsUpper(s[i]) {
      KeyEndMaximal(s, i + 1);
    }
  }

  /**
   * The body of one value, read from i (just after `[`): the characters
   * gathered so far and whether the previous one was an unused `\`.  It
   * stops at an unescaped `]`, whose position it returns, or at the end.
   */
  function ValueScan(s: string, i: nat, val: string, escaped: bool): (r: (string, nat))
    requires i <= |s|
    ensures i <= r.1 <= |s|
    ensures r.1 < |s| ==> s[r.1] == ']'
    decreases |s| - i
  {
    if i >= |s| then (val, i)
    else if escaped then ValueScan(s, i + 1, val + [s[i]], false)
    else if s[i] == '\\' then ValueScan(s, i + 1, val, true)
    else if s[i] == ']' then (val, i)
    else ValueScan(s, i + 1, val + [s[i]], false)
  }

  /**
   * The bracketed values that follow a key, each followed by whitespace.  A
   * value left open at the end of the text is still taken.
   */
  function ValuesScan(s: string, i: nat, vals: seq<string>): (r: (seq<string>, nat))
    requires i <= |s|
    ensures i <= r.1 <= |s|
    ensures r.1 < |s| ==> s[r.1] != '['
    ensures |vals| <= |r.0| && (|vals| < |r.0| <==> i < |s| && s[i] == '[')
    decreases |s| - i
  {
    if i < |s| && s[i] == '[' then
      var value := ValueScan(s, i + 1, "", false);
      var k := if value.1 < |s| then value.1 + 1 else value.1;
      var r := ValuesScan(s, SkipWs(s, k), vals + [value.0]);
      r
    else (vals, i)
  }

  /** One round of ValuesScan, unfolded. */
  lemma ValuesScanStep(s: string, i: nat, vals: seq<string>, v: string, j: nat)
    requires i < |s| && s[i] == '[' && (v, j) == ValueScan(s, i + 1, "", false)
    ensures ValuesScan(s, i, vals) == ValuesScan(s, SkipWs(s, if j < |s| then j + 1 else j), vals + [v])
  {
  }

  datatype PropResult = PropResult(ok: bool, props: Props, index: nat)

  /**
   * `parseProperty`: no key means failure with nothing consumed; otherwise
   * the key's values replace any earlier ones, and a key without values
   * leaves the table as it was.
   */
  function Property(s: string, i: nat, props: Props): (r: PropResult)
    requires i <= |s|
    ensures r.index <= |s|
    ensures r.ok <==> i < |s| && IsUpper(s[i])
    ensures r.ok ==> i < r.index
    ensures !r.ok ==> r.index == i && r.props == props
    ensures r.ok ==>
              var e := KeyEnd(s, i);
              var j := SkipWs(s, e);
              var (vals, k) := ValuesScan(s, j, []);
              && r.index == k
              && (vals == [] <==> !(j < |s| && s[j] == '['))
              && (vals == [] ==> r.props == props)
              && (vals != [] ==> r.props == props[s[i..e] := vals])
  {
    var e := KeyEnd(s, i);
    if e == i then PropResult(false, props, i)
    else
      var (vals, k) := ValuesScan(s, SkipWs(s, e), []);
      PropResult(true, if |vals| > 0 then props[s[i..e] := vals] else props, k)
  }

  /** Stops a node's property list. */
  predicate IsNodeEnd(c: char) {
    c == ';' || c == '(' || c == ')'
  }

  /**
   * `parseNode`'s loop: properties are read until `;`, `(`, `)` or the end;
   * a character that cannot start a key is skipped.
   */
  function NodeLoop(s: string, i: nat, props: Props): (r: (Props, nat))
    requires i <= |s|
    ensures i <= r.1 <= |s|
    decreases |s| - i
  {
    if i >= |s| then (props, i)
    else
      var j := SkipWs(s, i);
      if j < |s| && IsNodeEnd(s[j]) then (props, j)
      else
        var r := Property(s, j, props);
        if r.ok then NodeLoop(s, r.index, r.props)
        else if j < |s| && !IsUpper(s[j]) then NodeLoop(s, j + 1, props)
        else (props, j)
  }

  /** NodeLoop stops at a node-ending character after the blanks. */
  lemma NodeLoopEnd(s: string, i: nat, props: Props)
    requires i < |s| && SkipWs(s, i) < |s| && IsNodeEnd(s[SkipWs(s, i)])
    ensures NodeLoop(s, i, props) == (props, SkipWs(s, i))
  {
  }

  /** Otherwise NodeLoop reads a property, or skips one character when none starts there. */
  lemma NodeLoopNext(s: string, i: nat, props: Props)
    requires i < |s| && !(SkipWs(s, i) < |s| && IsNodeEnd(s[SkipWs(s, i)]))
    ensures var j := SkipWs(s, i);
            var r := Property(s, j, props);
            NodeLoop(s, i, props) ==
              if r.ok then NodeLoop(s, r.index, r.props)
              else if j < |s| && !IsUpper(s[j]) then NodeLoop(s, j + 1, props)
              else (props, j)
  {
  }

  /** Appends child to the children of cur, when cur names a node. */
  function AddChild(nodes: seq<Node>, cur: Option<nat>, child: nat): (r: seq<Node>)
    ensures |r| == |nodes|
  {
    if cur.Some? && cur.value < |nodes| then
      nodes[cur.value := nodes[cur.value].(children := nodes[cur.value].children + [child])]
    else nodes
  }

  datatype TreeResult = TreeResult(nodes: seq<Node>, index: nat, first: Option<nat>)

  /**
   * `parseTree`'s loop from position i: `;` makes a node that becomes the
   * parent of the next one, `(` reads a variation hanging from the current
   * node, `)` ends this tree, anything else is skipped.  `first` is the first
   * node made by this tree.  The position may pass the end by one, as the
   * source's counter does when it skips past the last character.
   */
  function TreeLoop(s: string, i: nat, nodes: seq<Node>, cur: Option<nat>, first: Option<nat>): (r: TreeResult)
    requires i <= |s| + 1
    ensures i <= r.index <= |s| + 1
    ensures |nodes| <= |r.nodes|
    decreases |s| + 1 - i
  {
    if i >= |s| then TreeResult(nodes, i, first)
    else
      var j := SkipWs(s, i);
      if j < |s| && s[j] == ';' then
        var id := |nodes|;
        var node := NodeLoop(s, j + 1, map[]);
        TreeLoop(s, node.1, Made(nodes, node.0, cur), Some(id), if first.None? then Some(id) else first)
      else if j < |s| && s[j] == '(' then
        var r := TreeLoop(s, j + 1, nodes, cur, None);
        TreeLoop(s, r.index, r.nodes, cur, first)
      else if j < |s| && s[j] == ')' then TreeResult(nodes, j + 1, first)
      else TreeLoop(s, j + 1, nodes, cur, first)
  }

  /** A `;` makes a node under cur and continues from it. */
  lemma TreeLoopNode(s: string, i: nat, nodes: seq<Node>, cur: Option<nat>, first: Option<nat>,
                     props: Props, k: nat)
    requires i < |s| && SkipWs(s, i) < |s| && s[SkipWs(s, i)] == ';'
    requires props == NodeLoop(s, SkipWs(s, i) + 1, map[]).0 && k == NodeLoop(s, SkipWs(s, i) + 1, map[]).1
    ensures TreeLoop(s, i, nodes, cur, first) ==
            TreeLoop(s, k, Made(nodes, props, cur), Some(|nodes|), if first.None? then Some(|nodes|) else first)
  {
  }

  /** A `(` reads a variation under cur, then the loop goes on with the same cur. */
  lemma TreeLoopVariation(s: string, i: nat, nodes: seq<Node>, cur: Option<nat>, first: Option<nat>,
                          nodes': seq<Node>, k: nat)
    requires i < |s| && SkipWs(s, i) < |s| && s[SkipWs(s, i)] == '('
    requires nodes' == TreeLoop(s, SkipWs(s, i) + 1, nodes, cur, None).nodes
    requires k == TreeLoop(s, SkipWs(s, i) + 1, nodes, cur, None).index
    ensures k <= |s| + 1
    ensures TreeLoop(s, i, nodes, cur, first) == TreeLoop(s, k, nodes', cur, first)
  {
  }

  /** A `)` ends the tree; any other character is skipped. */
  lemma TreeLoopOther(s: string, i: nat, nodes: seq<Node>, cur: Option<nat>, first: Option<nat>)
    requires i < |s| && !(SkipWs(s, i) < |s| && (s[SkipWs(s, i)] == ';' || s[SkipWs(s, i)] == '('))
    ensures TreeLoop(s, i, nodes, cur, first) ==
            if SkipWs(s, i) < |s| && s[SkipWs(s, i)] == ')' then TreeResult(nodes, SkipWs(s, i) + 1, first)
            else TreeLoop(s, SkipWs(s, i) + 1, nodes, cur, first)
  {
  }

  /** What `parseSGF` returns: the root's id, if any, over the nodes made. */
  datatype ParseResult = ParseResult(nodes: seq<Node>, root: Option<nat>)

  /** `parseSGF`: nothing unless the text's first non-blank character is `(`. */
  function Parse(s: string): ParseResult {
    var j := SkipWs(s, 0);
    if j < |s| && s[j] == '(' then
      var r := TreeLoop(s, j + 1, [], None, None);
      ParseResult(r.nodes, r.first)
    else ParseResult([], None)
  }

  /**
   * The parser's shared state: the text, the read position `index`, the
   * counter `nodeId` that numbers nodes, and the nodes made so far.
   */
  class Parser {
    const content: string
    var index: nat
    var nodeId: nat
    var nodes: seq<Node>

    constructor(content: string)
      ensures this.content == content && index == 0 && nodeId == 0 && nodes == []
    {
      this.content := content;
      index := 0;
      nodeId := 0;
      nodes := [];
    }

    /** `skipWhitespace`. */
    method SkipWhitespace()
      modifies this
      ensures index == SkipWs(content, old(index))
      ensures nodes == old(nodes) && nodeId == old(nodeId)
    {
      while index < |content| && IsWhitespace(content[index])
        invariant SkipWs(content, index) == SkipWs(content, old(index))
        invariant nodes == old(nodes) && nodeId == old(nodeId)
        decreases |content| - index
      {
        index := index + 1;
      }
    }

    /** Reads one value's body, from just after its `[`. */
    method ReadValue() returns (val: string)
      requires index <= |content|
      modifies this
      ensures val == ValueScan(content, old(index), "", false).0
      ensures index == ValueScan(content, old(index), "", false).1
      ensures nodes == old(nodes) && nodeId == old(nodeId)
    {
      val := "";
      var escaped := false;
      while index < |content|
        invariant index <= |content|
        invariant ValueScan(content, index, val, escaped) == ValueScan(content, old(index), "", false)
        invariant nodes == old(nodes) && nodeId == old(nodeId)
        decreases |content| - index
      {
        var ch := content[index];
        if escaped {
          val := val + [ch];
          escaped := false;
        } else if ch == '\\' {
          escaped := true;
        } else if ch == ']' {
          break;
        } else {
          val := val + [ch];
        }
        index := index + 1;
      }
    }

    /** The key loop of `parseProperty`: the run of upper-case letters at `index`. */
    method ReadKey() returns (key: string)
      requires index <= |content|
      modifies this
      ensures index == KeyEnd(content, old(index)) && key == content[old(index)..index]
      ensures nodes == old(nodes) && nodeId == old(nodeId)
    {
      key := "";
      while index < |content| && IsUpper(content[index])
        invariant old(index) <= index <= |content| && key == content[old(index)..index]
        invariant KeyEnd(content, index) == KeyEnd(content, old(index))
        invariant nodes == old(nodes) && nodeId == old(nodeId)
        decreases |content| - index
      {
        key := key + [content[index]];
        index := index + 1;
      }
    }

    /** The value loop of `parseProperty`: bracketed values, each followed by whitespace. */
    method ReadValues() returns (values: seq<string>)
      requires index <= |content|
      modifies this
      ensures (values, index) == ValuesScan(content, old(index), [])
      ensures nodes == old(nodes) && nodeId == old(nodeId)
    {
      values := [];
      while index < |content| && content[index] == '['
        invariant index <= |content|
        invariant ValuesScan(content, index, values) == ValuesScan(content, old(index), [])
        invariant nodes == old(nodes) && nodeId == old(nodeId)
        decreases |content| - index
      {
        ghost var start, prior := index, values;
        index := index + 1;
        var val := ReadValue();
        ValuesScanStep(content, start, prior, val, index);
        if index < |content| {
          index := index + 1;
        }
        values := values + [val];
        SkipWhitespace();
      }
    }

    /** `parseProperty` on node n. */
    method ParseProperty(n: nat) returns (ok: bool)
      requires n < |nodes| && index <= |content|
      modifies this
      ensures var r := Property(content, old(index), old(nodes)[n].props);
              ok == r.ok && index == r.index &&
              nodes == old(nodes)[n := old(nodes)[n].(props := r.props)]
      ensures nodeId == old(nodeId)
    {
      var key := ReadKey();
      if key == "" {
        return false;
      }
      SkipWhitespace();
      var values := ReadValues();
      if |values| > 0 {
        nodes := nodes[n := nodes[n].(props := nodes[n].props[key := values])];
      }
      return true;
    }

    /** One round of `parseNode`'s loop on node n; done when a node-ending character is reached. */
    method NodeStep(n: nat) returns (done: bool)
      requires n < |nodes| && index < |content|
      modifies this
      ensures nodeId == old(nodeId) && |nodes| == |old(nodes)|
      ensures nodes == old(nodes)[n := old(nodes)[n].(props := nodes[n].props)]
      ensures index <= |content|
      ensures done ==> NodeLoop(content, old(index), old(nodes)[n].props) == (nodes[n].props, index)
      ensures !done ==> old(index) < index &&
                        NodeLoop(content, old(index), old(nodes)[n].props) == NodeLoop(content, index, nodes[n].props)
    {
      ghost var i, props := index, nodes[n].props;
      SkipWhitespace();
      if index < |content| && IsNodeEnd(content[index]) {
        NodeLoopEnd(content, i, props);
        return true;
      }
      NodeLoopNext(content, i, props);
      var ok := ParseProperty(n);
      if !ok {
        if index < |content| && !IsUpper(content[index]) {
          index := index + 1;
        }
      }
      return false;
    }

    /** `parseNode`: makes node number `nodeId` under parent and reads its properties. */
    method ParseNode(parent: Option<nat>) returns (n: nat)
      requires index <= |content| && nodeId == |nodes|
      modifies this
      ensures var r := NodeLoop(content, old(index), map[]);
              n == old(nodeId) && nodes == old(nodes) + [Node(n, r.0, [], parent)] && index == r.1
      ensures nodeId == old(nodeId) + 1
    {
      n := nodeId;
      nodeId := nodeId + 1;
      nodes := nodes + [Node(n, map[], [], parent)];
      while index < |content|
        invariant index <= |content| && |nodes| == n + 1 && nodeId == n + 1
        invariant nodes == old(nodes) + [Node(n, nodes[n].props, [], parent)]
        invariant NodeLoop(content, index, nodes[n].props) == NodeLoop(content, old(index), map[])
        decreases |content| - index
      {
        var done := NodeStep(n);
        if done {
          break;
        }
      }
    }

    /** The `;` case of `parseTree`: a node made under cur and pushed onto its children. */
    method TreeNode(cur: Option<nat>) returns (node: nat)
      requires index < |content| && content[index] == ';' && nodeId == |nodes| && Names(nodes, cur)
      modifies this
      ensures var r := NodeLoop(content, old(index) + 1, map[]);
              node == old(|nodes|) && nodes == Made(old(nodes), r.0, cur) && index == r.1
      ensures nodeId == |nodes|
    {
      index := index + 1;
      ghost var nodes0 := nodes;
      node := ParseNode(cur);
      ghost var props := nodes[node].props;
      if cur.Some? {
        nodes := nodes[cur.value := nodes[cur.value].(children := nodes[cur.value].children + [node])];
      }
      assert nodes == Made(nodes0, props, cur);
    }

    /** The `(` case of `parseTree`: a whole variation read under cur. */
    method TreeVariation(cur: Option<nat>)
      requires index < |content| && content[index] == '(' && nodeId == |nodes| && Names(nodes, cur)
      modifies this
      ensures var r := TreeLoop(content, old(index) + 1, old(nodes), cur, None);
              nodes == r.nodes && index == r.index
      ensures nodeId == |nodes|
      decreases |content| + 1 - index, 0
    {
      index := index + 1;
      var unusedFirst := ParseTree(cur);
    }

    /** A `;` met after the blanks from i: the node is made under cur and becomes current. */
    method StepNode(ghost i: nat, cur: Option<nat>, first: Option<nat>) returns (cur': Option<nat>, first': Option<nat>)
      requires i < |content| && index == SkipWs(content, i) && index < |content| && content[index] == ';'
      requires nodeId == |nodes| && Names(nodes, cur)
      modifies this
      ensures nodeId == |nodes| && Names(nodes, cur') && old(index) < index <= |content| + 1
      ensures TreeLoop(content, i, old(nodes), cur, first) == TreeLoop(content, index, nodes, cur', first')
    {
      ghost var j, nodes0 := index, nodes;
      var node := TreeNode(cur);
      ghost var props := NodeLoop(content, j + 1, map[]).0;
      assert nodes == Made(nodes0, props, cur) && node == |nodes0|;
      TreeLoopNode(content, i, nodes0, cur, first, props, index);
      MadeShape(nodes0, props, cur);
      first' := if first.None? then Some(node) else first;
      cur' := Some(node);
    }

    /** A `(` met after the blanks from i: the variation is read under cur, which stays current. */
    method StepVariation(ghost i: nat, cur: Option<nat>, ghost first: Option<nat>)
      requires i < |content| && index == SkipWs(content, i) && index < |content| && content[index] == '('
      requires nodeId == |nodes| && Names(nodes, cur)
      modifies this
      ensures nodeId == |nodes| && Names(nodes, cur) && old(index) < index <= |content| + 1
      ensures TreeLoop(content, i, old(nodes), cur, first) == TreeLoop(content, index, nodes, cur, first)
      decreases |content| + 1 - index, 1
    {
      ghost var nodes0 := nodes;
      TreeVariation(cur);
      TreeLoopVariation(content, i, nodes0, cur, first, nodes, index);
    }

    /**
     * One round of `parseTree`'s loop: a node, a whole variation, the
     * closing `)` (done), or a skipped character.
     */
    method TreeStep(cur: Option<nat>, first: Option<nat>) returns (cur': Option<nat>, first': Option<nat>, done: bool)
      requires index < |content| && nodeId == |nodes| && Names(nodes, cur)
      modifies this
      ensures nodeId == |nodes| && Names(nodes, cur')
      ensures old(index) < index <= |content| + 1
      ensures done ==> TreeLoop(content, old(index), old(nodes), cur, first) == TreeResult(nodes, index, first')
      ensures !done ==> TreeLoop(content, old(index), old(nodes), cur, first) == TreeLoop(content, index, nodes, cur', first')
      decreases |content| + 1 - index, 2
    {
      ghost var i, nodes0 := index, nodes;
      cur', first', done := cur, first, false;
      SkipWhitespace();
      if index < |content| && content[index] == ';' {
        cur', first' := StepNode(i, cur, first);
      } else if index < |content| && content[index] == '(' {
        StepVariation(i, cur, first);
      } else if index < |content| && content[index] == ')' {
        TreeLoopOther(content, i, nodes0, cur, first);
        index := index + 1;
        done := true;
      } else {
        TreeLoopOther(content, i, nodes0, cur, first);
        index := index + 1;
      }
    }

    /**
     * `parseTree`: reads nodes and variations hanging from parent up to the
     * closing `)` or the end of the text, and returns the first node made.
     */
    method ParseTree(parent: Option<nat>) returns (first: Option<nat>)
      requires index <= |content| + 1 && nodeId == |nodes|
      requires parent.None? || parent.value < |nodes|
      modifies this
      ensures var r := TreeLoop(content, old(index), old(nodes), parent, None);
              nodes == r.nodes && index == r.index && first == r.first
      ensures nodeId == |nodes|
      decreases |content| + 1 - index, 3
    {
      first := None;
      var cur: Option<nat> := parent;
      while index < |content|
        invariant old(index) <= index <= |content| + 1 && nodeId == |nodes|
        invariant cur.None? || cur.value < |nodes|
        invariant TreeLoop(content, index, nodes, cur, first) == TreeLoop(content, old(index), old(nodes), parent, None)
        decreases |content| + 1 - index
      {
        var done;
        cur, first, done := TreeStep(cur, first);
        if done {
          return;
        }
      }
    }
  }

  /** `parseSGF`: the nodes made and the root returned, if any. */
  method ParseSgf(content: string) returns (nodes: seq<Node>, root: Option<nat>)
    ensures ParseResult(nodes, root) == Parse(content)
  {
    var p := new Parser(content);
    p.SkipWhitespace();
    if p.index < |content| && content[p.index] == '(' {
      p.index := p.index + 1;
      root := p.ParseTree(None);
      nodes := p.nodes;
    } else {
      nodes, root := [], None;
    }
  }

  /**
   * The links between nodes as the parser leaves them: each node's id is its
   * position; a node's parent comes before it and lists it as a child; each
   * child comes after its parent and names it as parent; and children are
   * listed in the order they were made.
   */
  predicate WellLinked(nodes: seq<Node>) {
    IdsArePositions(nodes) && ParentsListChild(nodes) && ChildrenNameParent(nodes) && ChildrenInOrder(nodes)
  }

  predicate IdsArePositions(nodes: seq<Node>) {
    forall k :: 0 <= k < |nodes| ==> nodes[k].id == k
  }

  predicate ParentsListChild(nodes: seq<Node>) {
    forall k :: 0 <= k < |nodes| && nodes[k].parent.Some? ==>
      nodes[k].parent.value < k && k in nodes[nodes[k].parent.value].children
  }

  predicate ChildrenNameParent(nodes: seq<Node>) {
    forall k, j :: 0 <= k < |nodes| && 0 <= j < |nodes[k].children| ==>
      k < nodes[k].children[j] < |nodes| && nodes[nodes[k].children[j]].parent == Some(k)
  }

  predicate ChildrenInOrder(nodes: seq<Node>) {
    forall k, j1, j2 :: 0 <= k < |nodes| && 0 <= j1 < j2 < |nodes[k].children| ==>
      nodes[k].children[j1] < nodes[k].children[j2]
  }

  predicate Names(nodes: seq<Node>, n: Option<nat>) {
    n.None? || n.value < |nodes|
  }

  /** b only adds nodes to a, and changes no parent and no property table. */
  predicate Extends(a: seq<Node>, b: seq<Node>) {
    |a| <= |b| && forall k :: 0 <= k < |a| ==> b[k].parent == a[k].parent && b[k].props == a[k].props
  }

  lemma ExtendsTrans(a: seq<Node>, b: seq<Node>, c: seq<Node>)
    requires Extends(a, b) && Extends(b, c)
    ensures Extends(a, c)
  {
  }

  function Made(nodes: seq<Node>, props: Props, cur: Option<nat>): seq<Node> {
    AddChild(nodes + [Node(|nodes|, props, [], cur)], cur, |nodes|)
  }

  lemma MadeShape(nodes: seq<Node>, props: Props, cur: Option<nat>)
    requires Names(nodes, cur)
    ensures var m := Made(nodes, props, cur);
            |m| == |nodes| + 1 && m[|nodes|].parent == cur && m[|nodes|].props == props &&
            m[|nodes|].children == [] && m[|nodes|].id == |nodes| && Extends(nodes, m) &&
            forall k :: 0 <= k < |nodes| ==>
              (m[k].id == nodes[k].id &&
               m[k].children == if cur == Some(k) then nodes[k].children + [|nodes|] else nodes[k].children)
  {
  }

  lemma MadeIds(nodes: seq<Node>, props: Props, cur: Option<nat>)
    requires IdsArePositions(nodes) && Names(nodes, cur)
    ensures IdsArePositions(Made(nodes, props, cur))
  {
    MadeShape(nodes, props, cur);
  }

  lemma MadeParents(nodes: seq<Node>, props: Props, cur: Option<nat>)
    requires ParentsListChild(nodes) && Names(nodes, cur)
    ensures ParentsListChild(Made(nodes, props, cur))
  {
    var m := Made(nodes, props, cur);
    MadeShape(nodes, props, cur);
    forall k | 0 <= k < |m| && m[k].parent.Some?
      ensures m[k].parent.value < k && k in m[m[k].parent.value].children
    {
      if k < |nodes| {
        assert k in nodes[nodes[k].parent.value].children;
      }
    }
  }

  lemma MadeChildren(nodes: seq<Node>, props: Props, cur: Option<nat>)
    requires ChildrenNameParent(nodes) && Names(nodes, cur)
    ensures ChildrenNameParent(Made(nodes, props, cur))
  {
    var m := Made(nodes, props, cur);
    MadeShape(nodes, props, cur);
    forall k, j | 0 <= k < |m| && 0 <= j < |m[k].children|
      ensures k < m[k].children[j] < |m| && m[m[k].children[j]].parent == Some(k)
    {
      if j < |nodes[k].children| {
        assert m[k].children[j] == nodes[k].children[j];
      }
    }
  }

  lemma MadeOrder(nodes: seq<Node>, props: Props, cur: Option<nat>)
    requires ChildrenNameParent(nodes) && ChildrenInOrder(nodes) && Names(nodes, cur)
    ensures ChildrenInOrder(Made(nodes, props, cur))
  {
    var m := Made(nodes, props, cur);
    MadeShape(nodes, props, cur);
    forall k, j1, j2 | 0 <= k < |m| && 0 <= j1 < j2 < |m[k].children|
      ensures m[k].children[j1] < m[k].children[j2]
    {
      assert m[k].children[j1] == nodes[k].children[j1];
      if j2 < |nodes[k].children| {
        assert m[k].children[j2] == nodes[k].children[j2];
      }
    }
  }

  /** Making a node under cur and pushing it onto cur's children keeps the links right. */
  lemma MadeLinked(nodes: seq<Node>, props: Props, cur: Option<nat>)
    requires WellLinked(nodes) && Names(nodes, cur)
    ensures WellLinked(Made(nodes, props, cur))
  {
    MadeIds(nodes, props, cur);
    MadeParents(nodes, props, cur);
    MadeChildren(nodes, props, cur);
    MadeOrder(nodes, props, cur);
  }

  /**
   * r is a run of TreeLoop from nodes under cur: the links stay right, no
   * parent or property table changes, and the first node it makes, if it
   * had none yet, is new and hangs from cur.
   */
  predicate Grew(nodes: seq<Node>, cur: Option<nat>, first: Option<nat>, r: TreeResult) {
    && WellLinked(r.nodes) && Names(r.nodes, r.first) && Extends(nodes, r.nodes)
    && (first.Some? ==> r.first == first)
    && (first.None? && r.first.Some? ==> |nodes| <= r.first.value && r.nodes[r.first.value].parent == cur)
  }

  lemma {:induction false} TreeLoopLinked(s: string, i: nat, nodes: seq<Node>, cur: Option<nat>, first: Option<nat>)
    requires i <= |s| + 1 && WellLinked(nodes) && Names(nodes, cur) && Names(nodes, first)
    ensures Grew(nodes, cur, first, TreeLoop(s, i, nodes, cur, first))
    decreases |s| + 1 - i, 1
  {
    if i < |s| {
      var j := SkipWs(s, i);
      if j < |s| && s[j] == ';' {
        TreeLoopLinkedNode(s, i, nodes, cur, first);
      } else if j < |s| && s[j] == '(' {
        TreeLoopLinkedVariation(s, i, nodes, cur, first);
      } else {
        TreeLoopOther(s, i, nodes, cur, first);
        if !(j < |s| && s[j] == ')') {
          TreeLoopLinked(s, j + 1, nodes, cur, first);
        }
      }
    }
  }

  lemma {:induction false} TreeLoopLinkedNode(s: string, i: nat, nodes: seq<Node>, cur: Option<nat>, first: Option<nat>)
    requires i < |s| && SkipWs(s, i) < |s| && s[SkipWs(s, i)] == ';'
    requires WellLinked(nodes) && Names(nodes, cur) && Names(nodes, first)
    ensures Grew(nodes, cur, first, TreeLoop(s, i, nodes, cur, first))
    decreases |s| + 1 - i, 0
  {
    var node := NodeLoop(s, SkipWs(s, i) + 1, map[]);
    var nodes' := Made(nodes, node.0, cur);
    MadeLinked(nodes, node.0, cur);
    MadeShape(nodes, node.0, cur);
    TreeLoopNode(s, i, nodes, cur, first, node.0, node.1);
    var first' := if first.None? then Some(|nodes|) else first;
    TreeLoopLinked(s, node.1, nodes', Some(|nodes|), first');
    var r := TreeLoop(s, node.1, nodes', Some(|nodes|), first');
    ExtendsTrans(nodes, nodes', r.nodes);
    if first.None? {
      assert r.first == Some(|nodes|);
      assert r.nodes[|nodes|].parent == nodes'[|nodes|].parent;
    }
  }

  lemma {:induction false} TreeLoopLinkedVariation(s: string, i: nat, nodes: seq<Node>, cur: Option<nat>,
                                                   first: Option<nat>)
    requires i < |s| && SkipWs(s, i) < |s| && s[SkipWs(s, i)] == '('
    requires WellLinked(nodes) && Names(nodes, cur) && Names(nodes, first)
    ensures Grew(nodes, cur, first, TreeLoop(s, i, nodes, cur, first))
    decreases |s| + 1 - i, 0
  {
    var inner := TreeLoop(s, SkipWs(s, i) + 1, nodes, cur, None);
    TreeLoopLinked(s, SkipWs(s, i) + 1, nodes, cur, None);
    TreeLoopVariation(s, i, nodes, cur, first, inner.nodes, inner.index);
    TreeLoopLinked(s, inner.index, inner.nodes, cur, first);
    ExtendsTrans(nodes, inner.nodes, TreeLoop(s, inner.index, inner.nodes, cur, first).nodes);
  }

  /**
   * `parseSGF` yields nothing unless the first non-blank character is `(`;
   * the nodes it makes are well linked and the root, if any, has no parent.
   */
  lemma ParseShape(s: string)
    ensures var r := Parse(s);
            && (r.root.Some? ==> SkipWs(s, 0) < |s| && s[SkipWs(s, 0)] == '(')
            && WellLinked(r.nodes) && Names(r.nodes, r.root)
            && (r.root.Some? ==> r.nodes[r.root.value].parent.None?)
  {
    var j := SkipWs(s, 0);
    if j < |s| && s[j] == '(' {
      TreeLoopLinked(s, j + 1, [], None, None);
    }
  }

  /** Children come after their parent in the arena, as the parser makes them. */
  predicate Forward(nodes: seq<Node>) {
    forall k, j :: 0 <= k < |nodes| && 0 <= j < |nodes[k].children| ==> k < nodes[k].children[j] < |nodes|
  }

  lemma WellLinkedForward(nodes: seq<Node>)
    requires WellLinked(nodes)
    ensures Forward(nodes)
  {
  }
}
