/**
 * The SGF game trees the parser is meant for, their text, and the proof that
 * the parser reads that text back into the intended node structure.
 *
 * A GameTree is a non-empty sequence of nodes followed by its variations,
 * as in the EBNF of the SGF FF[4] definition; a node is a list of properties
 * with an upper-case key and at least one value.  BuildSeq/BuildForest give
 * the nodes the parser should make, in the order it should make them: the
 * nodes of a sequence form a chain, each the parent of the next, and every
 * variation hangs, in order, from the last node of the sequence before it.
 */
module SgfRoundTrip {
  import opened Wrappers
  import opened SgfParser

  datatype Prop = Prop(key: string, values: seq<string>)

  datatype GameTree = GameTree(sequence: seq<seq<Prop>>, variations: seq<GameTree>)

  predicate IsKey(k: string) {
    |k| > 0 && forall c :: 0 <= c < |k| ==> IsUpper(k[c])
  }

  predicate PropOk(p: Prop) {
    IsKey(p.key) && |p.values| > 0
  }

  predicate NodeOk(ps: seq<Prop>) {
    forall i :: 0 <= i < |ps| ==> PropOk(ps[i])
  }

  predicate TreeOk(t: GameTree) {
    && |t.sequence| > 0
    && (forall i :: 0 <= i < |t.sequence| ==> NodeOk(t.sequence[i]))
    && (forall i :: 0 <= i < |t.variations| ==> TreeOk(t.variations[i]))
  }

  /** The Text escaping of SGF: `\` and `]` are written with a `\` before them. */
  function Escape(v: string): string {
    if v == [] then []
    else (if v[0] == '\\' || v[0] == ']' then ['\\', v[0]] else [v[0]]) + Escape(v[1..])
  }

  function PrintValues(vs: seq<string>): string {
    if vs == [] then [] else ['['] + Escape(vs[0]) + [']'] + PrintValues(vs[1..])
  }

  function PrintProps(ps: seq<Prop>): string {
    if ps == [] then [] else ps[0].key + PrintValues(ps[0].values) + PrintProps(ps[1..])
  }

  function PrintSequence(ns: seq<seq<Prop>>): string {
    if ns == [] then [] else [';'] + PrintProps(ns[0]) + PrintSequence(ns[1..])
  }

  function PrintTree(t: GameTree): string
    decreases t
  {
    ['('] + PrintSequence(t.sequence) + PrintForest(t.variations) + [')']
  }

  function PrintForest(vs: seq<GameTree>): string
    decreases vs
  {
    if vs == [] then [] else PrintTree(vs[0]) + PrintForest(vs[1..])
  }

  /** A node's property table: each property in turn, a later key replacing an earlier one. */
  function PropsOf(ps: seq<Prop>, acc: Props): Props {
    if ps == [] then acc else PropsOf(ps[1..], acc[ps[0].key := ps[0].values])
  }

  /** The nodes made for a sequence ns and its variations vs, hanging from cur. */
  function BuildSeq(ns: seq<seq<Prop>>, vs: seq<GameTree>, nodes: seq<Node>, cur: Option<nat>): seq<Node>
    decreases vs, 1, |ns|
  {
    if ns == [] then BuildForest(vs, nodes, cur)
    else BuildSeq(ns[1..], vs, Made(nodes, PropsOf(ns[0], map[]), cur), Some(|nodes|))
  }

  function BuildForest(vs: seq<GameTree>, nodes: seq<Node>, cur: Option<nat>): seq<Node>
    decreases vs, 0, 0
  {
    if vs == [] then nodes
    else BuildForest(vs[1..], BuildSeq(vs[0].sequence, vs[0].variations, nodes, cur), cur)
  }

  lemma ConsSplit<T>(acc: seq<T>, vs: seq<T>)
    requires vs != []
    ensures acc + [vs[0]] + vs[1..] == acc + vs
  {
    assert [vs[0]] + vs[1..] == vs;
  }

  // Where printed text sits in a longer string: one predicate per printer,
  // stated position by position so that the scanning proofs need no
  // reasoning about concatenation.

  /** The characters of t occur in s from position i on. */
  predicate LitAt(s: string, i: nat, t: string)
    decreases |t|
  {
    t == [] || (i < |s| && s[i] == t[0] && LitAt(s, i + 1, t[1..]))
  }

  /** The escaped form of v occurs in s from position i on. */
  predicate EscAt(s: string, i: nat, v: string)
    decreases |v|
  {
    if v == [] then true
    else if v[0] == '\\' || v[0] == ']' then
      i + 1 < |s| && s[i] == '\\' && s[i + 1] == v[0] && EscAt(s, i + 2, v[1..])
    else i < |s| && s[i] == v[0] && EscAt(s, i + 1, v[1..])
  }

  predicate ValuesAt(s: string, i: nat, vs: seq<string>)
    decreases |vs|
  {
    vs == [] ||
    (var j := i + 1 + |Escape(vs[0])|;
     i < |s| && s[i] == '[' && EscAt(s, i + 1, vs[0]) && j < |s| && s[j] == ']' && ValuesAt(s, j + 1, vs[1..]))
  }

  predicate PropsAt(s: string, i: nat, ps: seq<Prop>)
    decreases |ps|
  {
    ps == [] ||
    (PropOk(ps[0]) && LitAt(s, i, ps[0].key) && ValuesAt(s, i + |ps[0].key|, ps[0].values)
     && PropsAt(s, i + |ps[0].key| + |PrintValues(ps[0].values)|, ps[1..]))
  }

  predicate SeqAt(s: string, i: nat, ns: seq<seq<Prop>>)
    decreases |ns|
  {
    ns == [] ||
    (i < |s| && s[i] == ';' && PropsAt(s, i + 1, ns[0]) && SeqAt(s, i + 1 + |PrintProps(ns[0])|, ns[1..]))
  }

  predicate TreeAt(s: string, i: nat, t: GameTree)
    decreases t
  {
    var e := i + 1 + |PrintSequence(t.sequence)| + |PrintForest(t.variations)|;
    |t.sequence| > 0 && i < |s| && s[i] == '(' && SeqAt(s, i + 1, t.sequence)
    && ForestAt(s, i + 1 + |PrintSequence(t.sequence)|, t.variations) && e < |s| && s[e] == ')'
  }

  predicate ForestAt(s: string, i: nat, vs: seq<GameTree>)
    decreases vs
  {
    vs == [] || (TreeAt(s, i, vs[0]) && ForestAt(s, i + |PrintTree(vs[0])|, vs[1..]))
  }

  // ---- Scanning text that is known to be there.

  /** An escaped value followed by `]` reads back as the value, stopping at that `]`. */
  lemma {:induction false} ValueRound(s: string, i: nat, v: string, acc: string)
    requires i <= |s| && EscAt(s, i, v)
    requires i + |Escape(v)| < |s| && s[i + |Escape(v)|] == ']'
    ensures ValueScan(s, i, acc, false) == (acc + v, i + |Escape(v)|)
    decreases |v|
  {
    if v == [] {
      assert Escape(v) == [] && acc + v == acc;
    } else {
      var c := v[0];
      var n := if c == '\\' || c == ']' then 2 else 1;
      assert |Escape(v)| == n + |Escape(v[1..])|;
      ValueRound(s, i + n, v[1..], acc + [c]);
      assert acc + [c] + v[1..] == acc + v;
    }
  }

  /** Whether a scan for values stops at e: the end of the text, or a character that is neither `[` nor blank. */
  predicate StopsValues(s: string, e: nat) {
    e >= |s| || (s[e] != '[' && !IsWhitespace(s[e]))
  }

  /** Printed values read back as themselves, in order. */
  lemma {:induction false} ValuesRound(s: string, i: nat, vs: seq<string>, acc: seq<string>)
    requires i <= |s| && ValuesAt(s, i, vs) && i + |PrintValues(vs)| <= |s|
    requires StopsValues(s, i + |PrintValues(vs)|)
    ensures ValuesScan(s, i, acc) == (acc + vs, i + |PrintValues(vs)|)
    decreases |vs|
  {
    if vs == [] {
      assert PrintValues(vs) == [] && acc + vs == acc;
    } else {
      var j := i + 1 + |Escape(vs[0])|;
      ValueRound(s, i + 1, vs[0], "");
      assert "" + vs[0] == vs[0];
      assert |PrintValues(vs)| == j + 1 - i + |PrintValues(vs[1..])|;
      assert SkipWs(s, j + 1) == j + 1 by {
        if j + 1 < |s| && vs[1..] != [] {
          assert s[j + 1] == '[';
        }
      }
      ValuesScanStep(s, i, acc, vs[0], j);
      ValuesRound(s, j + 1, vs[1..], acc + [vs[0]]);
      ConsSplit(acc, vs);
    }
  }

  /** A printed key, followed by a character that is not upper-case, ends where it should. */
  lemma {:induction false} KeyRound(s: string, i: nat, key: string)
    requires i <= |s| && LitAt(s, i, key)
    requires forall c :: 0 <= c < |key| ==> IsUpper(key[c])
    requires i + |key| >= |s| || !IsUpper(s[i + |key|])
    ensures KeyEnd(s, i) == i + |key|
    decreases |key|
  {
    if key != [] {
      KeyRound(s, i + 1, key[1..]);
    }
  }

  lemma {:induction false} LitAtSlice(s: string, i: nat, t: string)
    requires i <= |s| && LitAt(s, i, t)
    ensures i + |t| <= |s| && s[i..i + |t|] == t
    decreases |t|
  {
    if t != [] {
      LitAtSlice(s, i + 1, t[1..]);
      assert s[i..i + |t|] == [s[i]] + s[i + 1..i + |t|];
      assert [t[0]] + t[1..] == t;
    }
  }

  /** A printed property reads back as its key and values, and is stored. */
  lemma PropRound(s: string, i: nat, p: Prop, acc: Props)
    requires i <= |s| && PropOk(p) && LitAt(s, i, p.key) && ValuesAt(s, i + |p.key|, p.values)
    requires i + |p.key| + |PrintValues(p.values)| <= |s| && StopsValues(s, i + |p.key| + |PrintValues(p.values)|)
    ensures Property(s, i, acc) == PropResult(true, acc[p.key := p.values], i + |p.key| + |PrintValues(p.values)|)
  {
    var e := i + |p.key|;
    LitAtSlice(s, i, p.key);
    assert s[e] == '[';
    KeyRound(s, i, p.key);
    assert SkipWs(s, e) == e;
    ValuesRound(s, e, p.values, []);
    assert [] + p.values == p.values;
  }

  /** Characters that may follow a node's properties. */
  predicate EndsNode(s: string, e: nat) {
    e < |s| && IsNodeEnd(s[e])
  }

  /** A printed property list that is not empty starts with an upper-case letter. */
  lemma PropsAtStart(s: string, i: nat, ps: seq<Prop>)
    requires PropsAt(s, i, ps) && ps != []
    ensures i < |s| && IsUpper(s[i])
  {
  }

  lemma NodeOkTail(ps: seq<Prop>)
    requires NodeOk(ps) && ps != []
    ensures PropOk(ps[0]) && NodeOk(ps[1..])
  {
    assert forall k :: 0 <= k < |ps[1..]| ==> ps[1..][k] == ps[k + 1];
  }

  /**
   * What the property reader finds for a property list from i, on the table
   * acc: each property read where it is printed, adding its values to the
   * table, with no blank or node end before it; after the last, a `;`, `(`
   * or `)` at e.
   */
  predicate PropsRead(s: string, i: nat, ps: seq<Prop>, acc: Props, e: nat)
    decreases |ps|
  {
    if ps == [] then i == e && EndsNode(s, e)
    else
      var f := i + |ps[0].key| + |PrintValues(ps[0].values)|;
      var acc' := acc[ps[0].key := ps[0].values];
      i < |s| && SkipWs(s, i) == i && !IsNodeEnd(s[i]) && f <= |s| &&
      Property(s, i, acc) == PropResult(true, acc', f) && PropsRead(s, f, ps[1..], acc', e)
  }

  /**
   * What PropsAt says about a property list that is not empty, printed up
   * to a node end at e, its first property ending at f.
   */
  lemma PropsAtHead(s: string, i: nat, ps: seq<Prop>, f: nat, e: nat)
    requires ps != [] && PropsAt(s, i, ps) && f == i + |ps[0].key| + |PrintValues(ps[0].values)|
    requires e == i + |PrintProps(ps)| && EndsNode(s, e)
    ensures PropOk(ps[0]) && LitAt(s, i, ps[0].key) && ValuesAt(s, i + |ps[0].key|, ps[0].values)
    ensures f <= |s| && StopsValues(s, f) && i < |s| && SkipWs(s, i) == i && !IsNodeEnd(s[i])
    ensures PropsAt(s, i + |ps[0].key| + |PrintValues(ps[0].values)|, ps[1..]) && e == f + |PrintProps(ps[1..])|
  {
    assert IsUpper(s[i]);
    if ps[1..] != [] {
      PropsAtStart(s, f, ps[1..]);
    }
  }

  /** A printed property list, followed by `;`, `(` or `)`, is read as PropsRead says. */
  lemma {:induction false} PropsReads(s: string, i: nat, ps: seq<Prop>, acc: Props)
    requires i <= |s| && PropsAt(s, i, ps) && EndsNode(s, i + |PrintProps(ps)|)
    ensures PropsRead(s, i, ps, acc, i + |PrintProps(ps)|)
    decreases |ps|
  {
    if ps == [] {
      assert PrintProps(ps) == [];
    } else {
      var p := ps[0];
      var f := i + |p.key| + |PrintValues(p.values)|;
      var e := i + |PrintProps(ps)|;
      PropsAtHead(s, i, ps, f, e);
      PropRound(s, i, p, acc);
      PropsReads(s, f, ps[1..], acc[p.key := p.values]);
      PropsReadIntro(s, i, ps, acc, e, f);
    }
  }

  /** A first property read, then the rest: the whole list read. */
  lemma PropsReadIntro(s: string, i: nat, ps: seq<Prop>, acc: Props, e: nat, f: nat)
    requires ps != [] && f == i + |ps[0].key| + |PrintValues(ps[0].values)|
    requires i < |s| && SkipWs(s, i) == i && !IsNodeEnd(s[i]) && f <= |s|
    requires Property(s, i, acc) == PropResult(true, acc[ps[0].key := ps[0].values], f)
    requires PropsRead(s, f, ps[1..], acc[ps[0].key := ps[0].values], e)
    ensures PropsRead(s, i, ps, acc, e)
  {
  }

  /** Properties read as PropsRead says take the node loop to e, with their table. */
  lemma {:induction false} PropsSteps(s: string, i: nat, ps: seq<Prop>, acc: Props, e: nat)
    requires i <= |s| && PropsRead(s, i, ps, acc, e)
    ensures NodeLoop(s, i, acc) == (PropsOf(ps, acc), e)
    decreases |ps|
  {
    if ps == [] {
      assert SkipWs(s, i) == i;
      NodeLoopEnd(s, i, acc);
    } else {
      var f := i + |ps[0].key| + |PrintValues(ps[0].values)|;
      NodeLoopNext(s, i, acc);
      PropsSteps(s, f, ps[1..], acc[ps[0].key := ps[0].values], e);
    }
  }

  /** A printed property list, followed by `;`, `(` or `)`, reads back as its table. */
  lemma PropsRound(s: string, i: nat, ps: seq<Prop>, acc: Props)
    requires i <= |s| && PropsAt(s, i, ps) && EndsNode(s, i + |PrintProps(ps)|)
    ensures NodeLoop(s, i, acc) == (PropsOf(ps, acc), i + |PrintProps(ps)|)
  {
    PropsReads(s, i, ps, acc);
    PropsSteps(s, i, ps, acc, i + |PrintProps(ps)|);
  }

  predicate NodesOk(ns: seq<seq<Prop>>) {
    forall k :: 0 <= k < |ns| ==> NodeOk(ns[k])
  }

  predicate TreesOk(vs: seq<GameTree>) {
    forall k :: 0 <= k < |vs| ==> TreeOk(vs[k])
  }

  lemma NodesOkTail(ns: seq<seq<Prop>>)
    requires NodesOk(ns) && ns != []
    ensures NodeOk(ns[0]) && NodesOk(ns[1..])
  {
    assert forall k :: 0 <= k < |ns[1..]| ==> ns[1..][k] == ns[k + 1];
  }

  lemma TreesOkTail(vs: seq<GameTree>)
    requires TreesOk(vs) && vs != []
    ensures TreeOk(vs[0]) && TreesOk(vs[1..])
  {
    assert forall k :: 0 <= k < |vs[1..]| ==> vs[1..][k] == vs[k + 1];
  }

  /** What SeqAt says about a sequence that is not empty and is followed by `;`, `(` or `)`. */
  lemma SeqAtHead(s: string, i: nat, ns: seq<seq<Prop>>, e: nat)
    requires ns != [] && SeqAt(s, i, ns) && e == i + |PrintSequence(ns)| && EndsNode(s, e)
    ensures i < |s| && s[i] == ';' && PropsAt(s, i + 1, ns[0])
    ensures SeqAt(s, i + 1 + |PrintProps(ns[0])|, ns[1..])
    ensures e == i + 1 + |PrintProps(ns[0])| + |PrintSequence(ns[1..])|
    ensures EndsNode(s, i + 1 + |PrintProps(ns[0])|)
  {
    if ns[1..] == [] {
      assert PrintSequence(ns[1..]) == [];
    }
  }

  /** The first node made so far: the one noted already, or else the sequence's first node, if any. */
  function FirstAfter(first: Option<nat>, ns: seq<seq<Prop>>, nodes: seq<Node>): Option<nat> {
    if first.None? && ns != [] then Some(|nodes|) else first
  }

  /** The nodes made for a sequence alone: each node under the one before, the first under cur. */
  function Chain(ns: seq<seq<Prop>>, nodes: seq<Node>, cur: Option<nat>): seq<Node>
    decreases |ns|
  {
    if ns == [] then nodes else Chain(ns[1..], Made(nodes, PropsOf(ns[0], map[]), cur), Some(|nodes|))
  }

  /** The current node after a sequence: its last node, or cur when it is empty. */
  function ChainCur(ns: seq<seq<Prop>>, nodes: seq<Node>, cur: Option<nat>): Option<nat>
    decreases |ns|
  {
    if ns == [] then cur else ChainCur(ns[1..], Made(nodes, PropsOf(ns[0], map[]), cur), Some(|nodes|))
  }

  /** BuildSeq makes the sequence's nodes, then its variations under the last of them. */
  lemma {:induction false} BuildSeqForm(ns: seq<seq<Prop>>, vs: seq<GameTree>, nodes: seq<Node>, cur: Option<nat>)
    ensures BuildSeq(ns, vs, nodes, cur) == BuildForest(vs, Chain(ns, nodes, cur), ChainCur(ns, nodes, cur))
    decreases |ns|
  {
    if ns != [] {
      BuildSeqForm(ns[1..], vs, Made(nodes, PropsOf(ns[0], map[]), cur), Some(|nodes|));
    }
  }

  /**
   * What the node loop reads for a sequence starting at i: each node a `;`
   * whose properties the loop reads as that node's table, the last one
   * ending at e, where a `;`, `(` or `)` follows.
   */
  predicate NodesRead(s: string, i: nat, ns: seq<seq<Prop>>, e: nat)
    decreases |ns|
  {
    if ns == [] then i == e && EndsNode(s, e)
    else
      i < |s| && s[i] == ';' &&
      var r := NodeLoop(s, i + 1, map[]);
      r.0 == PropsOf(ns[0], map[]) && NodesRead(s, r.1, ns[1..], e)
  }

  /** A printed sequence followed by `;`, `(` or `)` is read node by node. */
  lemma {:induction false} SeqReads(s: string, i: nat, ns: seq<seq<Prop>>, e: nat)
    requires i <= |s| && SeqAt(s, i, ns) && e == i + |PrintSequence(ns)| && EndsNode(s, e)
    ensures NodesRead(s, i, ns, e)
    decreases |ns|
  {
    if ns == [] {
      assert PrintSequence(ns) == [];
    } else {
      SeqAtHead(s, i, ns, e);
      PropsRound(s, i + 1, ns[0], map[]);
      SeqReads(s, i + 1 + |PrintProps(ns[0])|, ns[1..], e);
    }
  }

  /** One node step, then the rest of the sequence: the loop over the whole sequence. */
  lemma SeqStepJoin(s: string, i: nat, ns: seq<seq<Prop>>, g: nat, e: nat,
                     nodes: seq<Node>, cur: Option<nat>, first: Option<nat>, m: seq<Node>, f: Option<nat>)
    requires ns != [] && i <= |s| && g <= |s| && e <= |s|
    requires m == Made(nodes, PropsOf(ns[0], map[]), cur) && f == if first.None? then Some(|nodes|) else first
    requires TreeLoop(s, i, nodes, cur, first) == TreeLoop(s, g, m, Some(|nodes|), f)
    requires TreeLoop(s, g, m, Some(|nodes|), f) ==
             TreeLoop(s, e, Chain(ns[1..], m, Some(|nodes|)), ChainCur(ns[1..], m, Some(|nodes|)), FirstAfter(f, ns[1..], m))
    ensures TreeLoop(s, i, nodes, cur, first) ==
            TreeLoop(s, e, Chain(ns, nodes, cur), ChainCur(ns, nodes, cur), FirstAfter(first, ns, nodes))
  {
  }

  /** A sequence read node by node makes its nodes one after another; the first made is noted. */
  lemma {:induction false} SeqSteps(s: string, i: nat, ns: seq<seq<Prop>>, e: nat,
                                    nodes: seq<Node>, cur: Option<nat>, first: Option<nat>)
    requires i <= |s| && e < |s| && NodesRead(s, i, ns, e)
    ensures TreeLoop(s, i, nodes, cur, first) ==
            TreeLoop(s, e, Chain(ns, nodes, cur), ChainCur(ns, nodes, cur), FirstAfter(first, ns, nodes))
    decreases |ns|
  {
    if ns != [] {
      var g := NodeLoop(s, i + 1, map[]).1;
      var f: Option<nat> := if first.None? then Some(|nodes|) else first;
      var m := Made(nodes, PropsOf(ns[0], map[]), cur);
      assert SkipWs(s, i) == i;
      TreeLoopNode(s, i, nodes, cur, first, PropsOf(ns[0], map[]), g);
      SeqSteps(s, g, ns[1..], e, m, Some(|nodes|), f);
      SeqStepJoin(s, i, ns, g, e, nodes, cur, first, m, f);
    }
  }

  /** Printed variations closed by a `)` start with `(` or `)`. */
  lemma ForestStart(s: string, e: nat, vs: seq<GameTree>, c: nat)
    requires ForestAt(s, e, vs) && c == e + |PrintForest(vs)| && c < |s| && s[c] == ')'
    ensures EndsNode(s, e)
  {
    if vs != [] {
      assert TreeAt(s, e, vs[0]);
    } else {
      assert PrintForest(vs) == [];
    }
  }

  /** The length of a printed sequence, counted node by node. */
  function SeqLen(ns: seq<seq<Prop>>): nat {
    if ns == [] then 0 else 1 + |PrintProps(ns[0])| + SeqLen(ns[1..])
  }

  /** The length of a printed tree: its brackets, its sequence and its variations. */
  function TreeLen(t: GameTree): nat
    decreases t
  {
    SeqLen(t.sequence) + ForestLen(t.variations) + 2
  }

  /** The length of printed variations, tree by tree. */
  function ForestLen(vs: seq<GameTree>): nat
    decreases vs
  {
    if vs == [] then 0 else TreeLen(vs[0]) + ForestLen(vs[1..])
  }

  lemma {:induction false} SeqLenPrint(ns: seq<seq<Prop>>)
    ensures SeqLen(ns) == |PrintSequence(ns)|
  {
    if ns != [] {
      SeqLenPrint(ns[1..]);
    }
  }

  lemma {:induction false} TreeLenPrint(t: GameTree)
    ensures TreeLen(t) == |PrintTree(t)|
    decreases t, 1
  {
    SeqLenPrint(t.sequence);
    ForestLenPrint(t.variations);
  }

  lemma {:induction false} ForestLenPrint(vs: seq<GameTree>)
    ensures ForestLen(vs) == |PrintForest(vs)|
    decreases vs, 0
  {
    if vs != [] {
      TreeLenPrint(vs[0]);
      ForestLenPrint(vs[1..]);
    }
  }

  /**
   * What the tree loop reads for printed variations at i, tree by tree: a
   * `(`, the tree's sequence read node by node, its own variations, the `)`
   * after them, and then the next tree.
   */
  predicate ForestRead(s: string, i: nat, vs: seq<GameTree>)
    decreases vs
  {
    vs == [] ||
    (var e := i + 1 + SeqLen(vs[0].sequence);
     var c := e + ForestLen(vs[0].variations);
     i < |s| && s[i] == '(' && NodesRead(s, i + 1, vs[0].sequence, e) && ForestRead(s, e, vs[0].variations) &&
     c < |s| && s[c] == ')' && ForestRead(s, i + TreeLen(vs[0]), vs[1..]))
  }

  /** What TreeAt says about a tree's parts, its sequence ending at e and its `)` at c. */
  lemma TreeAtParts(s: string, i: nat, t: GameTree, e: nat, c: nat)
    requires TreeAt(s, i, t) && e == i + 1 + |PrintSequence(t.sequence)| && c == e + |PrintForest(t.variations)|
    ensures i < |s| && s[i] == '(' && SeqAt(s, i + 1, t.sequence) && ForestAt(s, e, t.variations)
    ensures c < |s| && s[c] == ')'
  {
  }

  /** The first tree read, then the rest: the variations read. */
  lemma ForestReadIntro(s: string, i: nat, vs: seq<GameTree>, e: nat, c: nat)
    requires vs != [] && e == i + 1 + SeqLen(vs[0].sequence) && c == e + ForestLen(vs[0].variations)
    requires i < |s| && s[i] == '('
    requires NodesRead(s, i + 1, vs[0].sequence, e)
    requires ForestRead(s, e, vs[0].variations)
    requires c < |s| && s[c] == ')'
    requires ForestRead(s, i + TreeLen(vs[0]), vs[1..])
    ensures ForestRead(s, i, vs)
  {
  }

  /** What ForestAt says about the first tree of printed variations, its sequence ending at e and its `)` at c. */
  lemma ForestAtParts(s: string, i: nat, vs: seq<GameTree>, e: nat, c: nat)
    requires vs != [] && ForestAt(s, i, vs)
    requires e == i + 1 + SeqLen(vs[0].sequence) && c == e + ForestLen(vs[0].variations)
    ensures i < |s| && s[i] == '(' && SeqAt(s, i + 1, vs[0].sequence) && EndsNode(s, e)
    ensures e == i + 1 + |PrintSequence(vs[0].sequence)| && ForestAt(s, e, vs[0].variations)
    ensures c < |s| && s[c] == ')' && ForestAt(s, i + TreeLen(vs[0]), vs[1..])
  {
    var t := vs[0];
    SeqLenPrint(t.sequence);
    ForestLenPrint(t.variations);
    TreeLenPrint(t);
    assert TreeAt(s, i, t) && ForestAt(s, i + |PrintTree(t)|, vs[1..]);
    TreeAtParts(s, i, t, e, c);
    ForestStart(s, e, t.variations, c);
  }

  /** Printed variations are read as ForestRead says. */
  lemma {:induction false} ForestReads(s: string, i: nat, vs: seq<GameTree>)
    requires ForestAt(s, i, vs)
    ensures ForestRead(s, i, vs)
    decreases vs
  {
    if vs != [] {
      var t, rest := vs[0], vs[1..];
      var e := i + 1 + SeqLen(t.sequence);
      var c := e + ForestLen(t.variations);
      var j := i + TreeLen(t);
      ForestAtParts(s, i, vs, e, c);
      assert ForestAt(s, j, rest) && ForestAt(s, e, t.variations);
      SeqReads(s, i + 1, t.sequence, e);
      ForestReads(s, e, t.variations);
      ForestReads(s, j, rest);
      assert NodesRead(s, i + 1, vs[0].sequence, e);
      assert ForestRead(s, e, vs[0].variations);
      assert c < |s| && s[c] == ')';
      assert ForestRead(s, i + TreeLen(vs[0]), vs[1..]);
      ForestReadIntro(s, i, vs, e, c);
    }
  }

  /**
   * A sequence and its variations, read up to e, then closed by the `)` at c,
   * make exactly the nodes BuildSeq gives; the first node made is the
   * sequence's first, and the loop stops just past the `)`.
   */
  lemma SeqRound(s: string, i: nat, ns: seq<seq<Prop>>, vs: seq<GameTree>, e: nat, c: nat,
                 nodes: seq<Node>, cur: Option<nat>, first: Option<nat>)
    requires i <= |s| && NodesRead(s, i, ns, e) && ForestRead(s, e, vs)
    requires c == e + ForestLen(vs) && c < |s| && s[c] == ')'
    ensures TreeLoop(s, i, nodes, cur, first) ==
            TreeResult(BuildSeq(ns, vs, nodes, cur), c + 1, if first.None? && ns != [] then Some(|nodes|) else first)
    decreases vs, 6
  {
    SeqSteps(s, i, ns, e, nodes, cur, first);
    ForestRound(s, e, vs, c, Chain(ns, nodes, cur), ChainCur(ns, nodes, cur), FirstAfter(first, ns, nodes));
    BuildSeqForm(ns, vs, nodes, cur);
  }

  /** TreeLoop at a `(`: the variation is read, then the loop goes on from where it stopped. */
  lemma VariationAt(s: string, i: nat, nodes: seq<Node>, cur: Option<nat>, first: Option<nat>)
    requires i < |s| && s[i] == '('
    ensures TreeLoop(s, i, nodes, cur, first) ==
            TreeLoop(s, TreeLoop(s, i + 1, nodes, cur, None).index, TreeLoop(s, i + 1, nodes, cur, None).nodes, cur, first)
  {
  }

  /** At a `(`, the loop reads the variation to where it stops, then goes on from there. */
  lemma VariationJoin(s: string, i: nat, nodes: seq<Node>, cur: Option<nat>, first: Option<nat>,
                      nodes': seq<Node>, k: nat, f: Option<nat>)
    requires i < |s| && s[i] == '(' && TreeLoop(s, i + 1, nodes, cur, None) == TreeResult(nodes', k, f)
    ensures k <= |s| + 1
    ensures TreeLoop(s, i, nodes, cur, first) == TreeLoop(s, k, nodes', cur, first)
  {
    VariationAt(s, i, nodes, cur, first);
  }

  /** Past the `(` of the first tree read, the loop makes its nodes and stops just past its `)`. */
  lemma TreeRound(s: string, i: nat, vs: seq<GameTree>, nodes: seq<Node>, cur: Option<nat>)
    requires i <= |s| && vs != [] && ForestRead(s, i, vs)
    ensures i < |s| && s[i] == '(' && i + TreeLen(vs[0]) <= |s|
    ensures TreeLoop(s, i + 1, nodes, cur, None) ==
            TreeResult(BuildSeq(vs[0].sequence, vs[0].variations, nodes, cur), i + TreeLen(vs[0]),
                       if vs[0].sequence != [] then Some(|nodes|) else None)
    decreases vs, 2
  {
    var t := vs[0];
    var e := i + 1 + SeqLen(t.sequence);
    var c := e + ForestLen(t.variations);
    ForestReadHead(s, i, vs, e, c);
    SeqRound(s, i + 1, t.sequence, t.variations, e, c, nodes, cur, None);
  }

  /** The first variation read: its `(`, its sequence up to e, its variations and its `)` at c. */
  lemma ForestReadHead(s: string, i: nat, vs: seq<GameTree>, e: nat, c: nat)
    requires vs != [] && ForestRead(s, i, vs)
    requires e == i + 1 + SeqLen(vs[0].sequence) && c == e + ForestLen(vs[0].variations)
    ensures i < |s| && s[i] == '(' && NodesRead(s, i + 1, vs[0].sequence, e) && ForestRead(s, e, vs[0].variations)
    ensures c < |s| && s[c] == ')' && c + 1 == i + TreeLen(vs[0])
  {
  }

  /** A `(` and the first tree read: its nodes are made under cur, which stays current. */
  lemma ForestRoundStep(s: string, i: nat, vs: seq<GameTree>, nodes: seq<Node>, cur: Option<nat>, first: Option<nat>)
    requires i <= |s| && vs != [] && ForestRead(s, i, vs)
    ensures i + TreeLen(vs[0]) <= |s|
    ensures TreeLoop(s, i, nodes, cur, first) ==
            TreeLoop(s, i + TreeLen(vs[0]), BuildSeq(vs[0].sequence, vs[0].variations, nodes, cur), cur, first)
    decreases vs, 3
  {
    TreeRound(s, i, vs, nodes, cur);
    VariationJoin(s, i, nodes, cur, first, BuildSeq(vs[0].sequence, vs[0].variations, nodes, cur), i + TreeLen(vs[0]),
                  if vs[0].sequence != [] then Some(|nodes|) else None);
  }

  /** No variations: the `)` at c ends the tree. */
  lemma ForestRoundEmpty(s: string, c: nat, nodes: seq<Node>, cur: Option<nat>, first: Option<nat>)
    requires c < |s| && s[c] == ')'
    ensures TreeLoop(s, c, nodes, cur, first) == TreeResult(nodes, c + 1, first)
  {
    assert SkipWs(s, c) == c;
    TreeLoopOther(s, c, nodes, cur, first);
  }

  /** Variations read up to the `)` at c make exactly the nodes BuildForest gives. */
  lemma ForestRound(s: string, i: nat, vs: seq<GameTree>, c: nat,
                    nodes: seq<Node>, cur: Option<nat>, first: Option<nat>)
    requires i <= |s| && ForestRead(s, i, vs) && c == i + ForestLen(vs) && c < |s| && s[c] == ')'
    ensures TreeLoop(s, i, nodes, cur, first) == TreeResult(BuildForest(vs, nodes, cur), c + 1, first)
    decreases vs, 5
  {
    if vs == [] {
      ForestRoundEmpty(s, c, nodes, cur, first);
    } else {
      ForestRoundCons(s, i, vs, c, nodes, cur, first);
    }
  }

  /** The first variation, then the rest. */
  lemma {:induction false} ForestRoundCons(s: string, i: nat, vs: seq<GameTree>, c: nat,
                                           nodes: seq<Node>, cur: Option<nat>, first: Option<nat>)
    requires vs != [] && i <= |s| && ForestRead(s, i, vs) && c == i + ForestLen(vs) && c < |s| && s[c] == ')'
    ensures TreeLoop(s, i, nodes, cur, first) == TreeResult(BuildForest(vs, nodes, cur), c + 1, first)
    decreases vs, 4
  {
    BuildForestCons(vs, nodes, cur);
    ForestReadTail(s, i, vs, c);
    ForestRoundStep(s, i, vs, nodes, cur, first);
    ForestRound(s, i + TreeLen(vs[0]), vs[1..], c, BuildSeq(vs[0].sequence, vs[0].variations, nodes, cur), cur, first);
  }

  /** The nodes made for variations: those of the first, then those of the rest. */
  lemma BuildForestCons(vs: seq<GameTree>, nodes: seq<Node>, cur: Option<nat>)
    requires vs != []
    ensures BuildForest(vs, nodes, cur) == BuildForest(vs[1..], BuildSeq(vs[0].sequence, vs[0].variations, nodes, cur), cur)
  {
  }

  /** The variations after the first are read from where the first ends. */
  lemma ForestReadTail(s: string, i: nat, vs: seq<GameTree>, c: nat)
    requires vs != [] && ForestRead(s, i, vs) && c == i + ForestLen(vs)
    ensures ForestRead(s, i + TreeLen(vs[0]), vs[1..]) && c == i + TreeLen(vs[0]) + ForestLen(vs[1..])
  {
  }

  /** A text whose one tree, read from its start, has nodes parses to the nodes BuildSeq gives, rooted at node 0. */
  lemma ParseTreeRead(s: string, t: GameTree)
    requires ForestRead(s, 0, [t]) && t.sequence != []
    ensures Parse(s) == ParseResult(BuildSeq(t.sequence, t.variations, [], None), Some(0))
  {
    TreeRound(s, 0, [t], [], None);
    assert SkipWs(s, 0) == 0;
  }

  /** A text holding a printed game tree at its start parses to the nodes BuildSeq gives, rooted at node 0. */
  lemma ParseTreeAt(s: string, t: GameTree)
    requires TreeAt(s, 0, t)
    ensures Parse(s) == ParseResult(BuildSeq(t.sequence, t.variations, [], None), Some(0))
  {
    assert [t][0] == t && [t][1..] == [];
    ForestReads(s, 0, [t]);
    ParseTreeRead(s, t);
  }

  // ---- Printed text is where the position predicates say.

  lemma {:induction false} LitSplit(s: string, i: nat, a: string, b: string)
    requires LitAt(s, i, a + b)
    ensures LitAt(s, i, a) && LitAt(s, i + |a|, b)
    decreases |a|
  {
    if a == [] {
      assert a + b == b;
    } else {
      assert (a + b)[0] == a[0] && (a + b)[1..] == a[1..] + b;
      LitSplit(s, i + 1, a[1..], b);
    }
  }

  lemma {:induction false} LitSuffix(s: string, i: nat)
    requires i <= |s|
    ensures LitAt(s, i, s[i..])
    decreases |s| - i
  {
    if i < |s| {
      assert s[i..][0] == s[i] && s[i..][1..] == s[i + 1..];
      LitSuffix(s, i + 1);
    }
  }

  lemma {:induction false} EscText(s: string, i: nat, v: string)
    requires LitAt(s, i, Escape(v))
    ensures EscAt(s, i, v)
    decreases |v|
  {
    if v != [] {
      var head := if v[0] == '\\' || v[0] == ']' then ['\\', v[0]] else [v[0]];
      assert Escape(v) == head + Escape(v[1..]);
      LitSplit(s, i, head, Escape(v[1..]));
      if |head| == 2 {
        assert head[1..] == [v[0]];
      }
      EscText(s, i + |head|, v[1..]);
    }
  }

  lemma {:induction false} ValuesText(s: string, i: nat, vs: seq<string>)
    requires LitAt(s, i, PrintValues(vs))
    ensures ValuesAt(s, i, vs)
    decreases |vs|
  {
    if vs != [] {
      var e := Escape(vs[0]);
      var j := i + 1 + |e|;
      assert PrintValues(vs) == ['['] + e + [']'] + PrintValues(vs[1..]);
      LitSplit(s, i, ['['] + e + [']'], PrintValues(vs[1..]));
      LitSplit(s, i, ['['] + e, [']']);
      LitSplit(s, i, ['['], e);
      EscText(s, i + 1, vs[0]);
      ValuesText(s, j + 1, vs[1..]);
    }
  }

  lemma {:induction false} PropsText(s: string, i: nat, ps: seq<Prop>)
    requires LitAt(s, i, PrintProps(ps)) && NodeOk(ps)
    ensures PropsAt(s, i, ps)
    decreases |ps|
  {
    if ps != [] {
      NodeOkTail(ps);
      var p := ps[0];
      var pv := PrintValues(p.values);
      assert PrintProps(ps) == p.key + pv + PrintProps(ps[1..]);
      LitSplit(s, i, p.key + pv, PrintProps(ps[1..]));
      LitSplit(s, i, p.key, pv);
      ValuesText(s, i + |p.key|, p.values);
      PropsText(s, i + |p.key| + |pv|, ps[1..]);
    }
  }

  lemma {:induction false} SeqText(s: string, i: nat, ns: seq<seq<Prop>>)
    requires LitAt(s, i, PrintSequence(ns)) && NodesOk(ns)
    ensures SeqAt(s, i, ns)
    decreases |ns|
  {
    if ns != [] {
      NodesOkTail(ns);
      var pp := PrintProps(ns[0]);
      assert PrintSequence(ns) == [';'] + pp + PrintSequence(ns[1..]);
      LitSplit(s, i, [';'] + pp, PrintSequence(ns[1..]));
      LitSplit(s, i, [';'], pp);
      PropsText(s, i + 1, ns[0]);
      SeqText(s, i + 1 + |PrintProps(ns[0])|, ns[1..]);
    }
  }

  lemma {:induction false} TreeText(s: string, i: nat, t: GameTree)
    requires LitAt(s, i, PrintTree(t)) && TreeOk(t)
    ensures TreeAt(s, i, t)
    decreases t, 1
  {
    var ps := PrintSequence(t.sequence);
    var pf := PrintForest(t.variations);
    assert PrintTree(t) == ['('] + ps + pf + [')'];
    LitSplit(s, i, ['('] + ps + pf, [')']);
    LitSplit(s, i, ['('] + ps, pf);
    LitSplit(s, i, ['('], ps);
    assert NodesOk(t.sequence) && TreesOk(t.variations);
    SeqText(s, i + 1, t.sequence);
    ForestText(s, i + 1 + |ps|, t.variations);
  }

  lemma {:induction false} ForestText(s: string, i: nat, vs: seq<GameTree>)
    requires LitAt(s, i, PrintForest(vs)) && TreesOk(vs)
    ensures ForestAt(s, i, vs)
    decreases vs, 0
  {
    if vs != [] {
      TreesOkTail(vs);
      assert PrintForest(vs) == PrintTree(vs[0]) + PrintForest(vs[1..]);
      LitSplit(s, i, PrintTree(vs[0]), PrintForest(vs[1..]));
      TreeText(s, i, vs[0]);
      ForestText(s, i + |PrintTree(vs[0])|, vs[1..]);
    }
  }

  /**
   * The round trip: a well-formed game tree, printed and followed by any
   * text, parses to the nodes BuildSeq gives, with node 0 as the root.
   */
  lemma ParseRoundTrip(t: GameTree, rest: string)
    requires TreeOk(t)
    ensures Parse(PrintTree(t) + rest) == ParseResult(BuildSeq(t.sequence, t.variations, [], None), Some(0))
  {
    var s := PrintTree(t) + rest;
    LitSuffix(s, 0);
    assert s[0..] == s;
    LitSplit(s, 0, PrintTree(t), rest);
    TreeText(s, 0, t);
    ParseTreeAt(s, t);
  }

  // ---- The shape of the nodes built.

  lemma {:induction false} BuildSeqExtends(ns: seq<seq<Prop>>, vs: seq<GameTree>, nodes: seq<Node>, cur: Option<nat>)
    requires Names(nodes, cur)
    ensures Extends(nodes, BuildSeq(ns, vs, nodes, cur))
    decreases vs, 1, |ns|
  {
    if ns == [] {
      BuildForestExtends(vs, nodes, cur);
    } else {
      var m := Made(nodes, PropsOf(ns[0], map[]), cur);
      MadeShape(nodes, PropsOf(ns[0], map[]), cur);
      BuildSeqExtends(ns[1..], vs, m, Some(|nodes|));
      ExtendsTrans(nodes, m, BuildSeq(ns[1..], vs, m, Some(|nodes|)));
    }
  }

  lemma {:induction false} BuildForestExtends(vs: seq<GameTree>, nodes: seq<Node>, cur: Option<nat>)
    requires Names(nodes, cur)
    ensures Extends(nodes, BuildForest(vs, nodes, cur))
    decreases vs, 0, 0
  {
    if vs != [] {
      var m := BuildSeq(vs[0].sequence, vs[0].variations, nodes, cur);
      BuildSeqExtends(vs[0].sequence, vs[0].variations, nodes, cur);
      BuildForestExtends(vs[1..], m, cur);
      ExtendsTrans(nodes, m, BuildForest(vs[1..], m, cur));
    }
  }

  /**
   * The nodes of a sequence are made one after another, each with its own
   * property table, the first under cur and each later one under the node
   * before it.
   */
  lemma {:induction false} BuildSeqChain(ns: seq<seq<Prop>>, vs: seq<GameTree>, nodes: seq<Node>, cur: Option<nat>)
    requires Names(nodes, cur)
    ensures |nodes| + |ns| <= |BuildSeq(ns, vs, nodes, cur)|
    ensures var r := BuildSeq(ns, vs, nodes, cur);
            forall k :: 0 <= k < |ns| ==>
              r[|nodes| + k].props == PropsOf(ns[k], map[]) &&
              r[|nodes| + k].parent == (if k == 0 then cur else Some(|nodes| + k - 1))
    decreases |ns|
  {
    BuildSeqExtends(ns, vs, nodes, cur);
    if ns != [] {
      var m := Made(nodes, PropsOf(ns[0], map[]), cur);
      MadeShape(nodes, PropsOf(ns[0], map[]), cur);
      BuildSeqChain(ns[1..], vs, m, Some(|nodes|));
      BuildSeqExtends(ns[1..], vs, m, Some(|nodes|));
      var r := BuildSeq(ns, vs, nodes, cur);
      assert r == BuildSeq(ns[1..], vs, m, Some(|nodes|));
      forall k | 0 <= k < |ns|
        ensures r[|nodes| + k].props == PropsOf(ns[k], map[])
        ensures r[|nodes| + k].parent == (if k == 0 then cur else Some(|nodes| + k - 1))
      {
        if k > 0 {
          assert ns[k] == ns[1..][k - 1];
          assert r[|m| + (k - 1)] == r[|nodes| + k];
        }
      }
    }
  }

  /**
   * Parsing a printed game tree: node 0 is the root, and the main line's
   * nodes come first, in order, each with its properties and each the
   * child of the one before.
   */
  lemma ParseMainLine(t: GameTree, rest: string)
    requires TreeOk(t)
    ensures var r := Parse(PrintTree(t) + rest);
            r.root == Some(0) && |t.sequence| <= |r.nodes| &&
            forall k :: 0 <= k < |t.sequence| ==>
              r.nodes[k].props == PropsOf(t.sequence[k], map[]) &&
              r.nodes[k].parent == (if k == 0 then None else Some(k - 1))
  {
    ParseRoundTrip(t, rest);
    var nodes := BuildSeq(t.sequence, t.variations, [], None);
    assert Parse(PrintTree(t) + rest).nodes == nodes;
    BuildSeqChain(t.sequence, t.variations, [], None);
    assert forall k :: 0 <= k < |t.sequence| ==> nodes[0 + k] == nodes[k];
  }

  /**
   * A pattern whose root node is followed by variations: the root's first
   * child is node 1, the first node of the first variation.
   */
  lemma RootHasChild(t: GameTree, rest: string)
    requires TreeOk(t) && |t.sequence| == 1 && t.variations != []
    ensures var r := Parse(PrintTree(t) + rest);
            r.root == Some(0) && 0 < |r.nodes| && 1 in r.nodes[0].children &&
            r.nodes[0].children[0] == 1
  {
    var s := PrintTree(t) + rest;
    ParseRoundTrip(t, rest);
    ParseShape(s);
    var n1 := Made([], PropsOf(t.sequence[0], map[]), None);
    var u := t.variations[0];
    assert TreeOk(u);
    var m := BuildSeq(u.sequence, u.variations, n1, Some(0));
    BuildSeqChain(u.sequence, u.variations, n1, Some(0));
    assert BuildSeq(t.sequence, t.variations, [], None) == BuildForest(t.variations, n1, Some(0));
    assert BuildForest(t.variations, n1, Some(0)) == BuildForest(t.variations[1..], m, Some(0));
    BuildForestExtends(t.variations[1..], m, Some(0));
    var nodes := Parse(s).nodes;
    assert nodes[1].parent == Some(0);
    var j :| 0 <= j < |nodes[0].children| && nodes[0].children[j] == 1;
    assert 0 < nodes[0].children[0] <= nodes[0].children[j];
  }
}
