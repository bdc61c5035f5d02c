/**
 * src/data/joseki_loader.ts: turning a parsed SGF tree into the move tree
 * that the joseki trainer walks.
 *
 * The SGF tree comes from the parser model (module SgfParser), where nodes
 * sit in an arena and refer to their children by position.  The module's
 * global `nodeIdCounter` and its `cache` of loaded trees are the fields of
 * class JosekiLoader.  The conversion is first written as a function that
 * threads the counter (Convert, ConvertAll); the method is proved to compute
 * it, and the properties of the result are lemmas about the function.
 */
module JosekiLoader {
  import opened Wrappers
  import opened JsText
  import opened SgfParser

  datatype Colour = B | W

  /**
   * A move-tree node.  `isTenuki` and `isDont` are `undefined` in the source
   * when there is no comment; every reader of them treats that as false,
   * which is what the model stores.
   */
  datatype JosekiNode = JosekiNode(id: string, x: int, y: int, color: Colour,
                                   children: seq<JosekiNode>, comment: Option<string>,
                                   isTenuki: bool, isDont: bool)

  datatype JosekiType = T33 | T34 | T44 | T54

  /** The id given to the node made when the counter holds n: `node-${n}`. */
  function Label(n: nat): string {
    "node-" + NatStr(n)
  }

  lemma LabelInjective(a: nat, b: nat)
    ensures Label(a) == Label(b) ==> a == b
  {
    if Label(a) == Label(b) {
      assert Label(a)[5..] == NatStr(a);
      assert Label(b)[5..] == NatStr(b);
      NatStrInjective(a, b);
    }
  }

  /**
   * `String.prototype.toLowerCase` applied to one character, as far as a
   * search for the result in a..z can tell: A to Z and the two other
   * characters whose lower case holds a Latin letter are lowered, and any
   * other character is kept as it is (so 'Ä' stays 'Ä'; its real lower
   * case is not in a..z either).
   */
  function ToLower(c: char): string {
    if 'A' <= c <= 'Z' then [(c as int + 32) as char]
    else if c == '\U{212A}' then "k"              // KELVIN SIGN lowers to a Latin k
    else if c == '\U{0130}' then "i\U{0307}"        // dotted capital I lowers to two characters
    else [c]
  }

  const Alphabet: string := "abcdefghijklmnopqrstuvwxyz"

  /**
   * The reference meaning of a coordinate letter: its place in the alphabet
   * ignoring case, 10 for the Kelvin sign (which lowers to k), and -1 for
   * anything else.
   */
  function LetterPos(c: char): int {
    if 'a' <= c <= 'z' then c as int - 'a' as int
    else if 'A' <= c <= 'Z' then c as int - 'A' as int
    else if c == '\U{212A}' then 10
    else -1
  }

  /** `parseSGFCoords`. */
  function ParseSgfCoords(str: string): (int, int) {
    if |str| < 2 then (-1, -1)
    else (IndexFrom(Alphabet, ToLower(str[0]), 0), IndexFrom(Alphabet, ToLower(str[1]), 0))
  }

  lemma AlphabetAt()
    ensures |Alphabet| == 26
    ensures forall m :: 0 <= m < 26 ==> Alphabet[m] as int == 97 + m
  {
    assert Alphabet == seq(26, m requires 0 <= m < 26 => (97 + m) as char);
  }

  lemma {:induction false} IndexOfLetter(c: char, i: nat)
    requires 'a' <= c <= 'z' && i <= c as int - 97
    ensures IndexFrom(Alphabet, [c], i) == c as int - 97
    decreases 26 - i
  {
    AlphabetAt();
    assert Alphabet[i..i + 1] == [Alphabet[i]];
    if i < c as int - 97 {
      IndexOfLetter(c, i + 1);
    }
  }

  lemma IndexOfOther(t: string, q: nat)
    requires q < |t| && !('a' <= t[q] <= 'z')
    ensures IndexFrom(Alphabet, t, 0) == -1
  {
    var r := IndexFrom(Alphabet, t, 0);
    if r >= 0 {
      OccursChar(Alphabet, t, r, q);
      AlphabetAt();
    }
  }

  lemma LetterIndex(c: char)
    ensures IndexFrom(Alphabet, ToLower(c), 0) == LetterPos(c)
  {
    if 'a' <= c <= 'z' {
      IndexOfLetter(c, 0);
    } else if 'A' <= c <= 'Z' {
      IndexOfLetter((c as int + 32) as char, 0);
    } else if c == '\U{212A}' {
      IndexOfLetter('k', 0);
    } else if c == '\U{0130}' {
      IndexOfOther(ToLower(c), 1);
    } else {
      IndexOfOther(ToLower(c), 0);
    }
  }

  /**
   * parseSGFCoords gives (-1, -1) below two characters and otherwise each of
   * the first two characters' places in a..z ignoring case, -1 for a
   * character that is not a letter; so every coordinate is in -1..25.
   */
  lemma ParseSgfCoordsSpec(str: string)
    ensures |str| < 2 ==> ParseSgfCoords(str) == (-1, -1)
    ensures |str| >= 2 ==> ParseSgfCoords(str) == (LetterPos(str[0]), LetterPos(str[1]))
    ensures -1 <= ParseSgfCoords(str).0 <= 25 && -1 <= ParseSgfCoords(str).1 <= 25
  {
    if |str| >= 2 {
      LetterIndex(str[0]);
      LetterIndex(str[1]);
    }
  }

  // ---------------------------------------------------------------------
  // convertSGFToJosekiTree
  // ---------------------------------------------------------------------

  /** `list[0]`, where an empty list gives `undefined`, which parseSGFCoords treats like "". */
  function First(list: seq<string>): string {
    if |list| > 0 then list[0] else ""
  }

  /** The move of a node: B first, then W, else (-1, -1) and colour B. */
  function MoveOf(props: Props): (int, int, Colour) {
    if "B" in props then
      var c := ParseSgfCoords(First(props["B"])); (c.0, c.1, B)
    else if "W" in props then
      var c := ParseSgfCoords(First(props["W"])); (c.0, c.1, W)
    else (-1, -1, B)
  }

  function CommentOf(props: Props): Option<string> {
    if "C" in props && |props["C"]| > 0 then Some(props["C"][0]) else None
  }

  function TenukiOf(comment: Option<string>): bool {
    comment.Some? && Includes(comment.value, "<tenuki>")
  }

  function DontOf(comment: Option<string>): bool {
    comment.Some? &&
    (Includes(comment.value, "<don't>") || Includes(comment.value, "<bad>") || Includes(comment.value, "<avoid>"))
  }

  predicate Below(nodes: seq<Node>, k: nat, cs: seq<nat>) {
    forall j :: 0 <= j < |cs| ==> k < cs[j] < |nodes|
  }

  /**
   * Converting the node at k when the counter holds `next`: the new node and
   * the counter afterwards.  The node takes its id before its children are
   * converted, left to right.
   */
  function Convert(nodes: seq<Node>, k: nat, next: nat): (r: (JosekiNode, nat))
    requires Forward(nodes) && k < |nodes|
    ensures next < r.1
    decreases |nodes| - k, 1
  {
    var props := nodes[k].props;
    var m := MoveOf(props);
    var comment := CommentOf(props);
    var kids := ConvertAll(nodes, k, nodes[k].children, next + 1);
    (JosekiNode(Label(next), m.0, m.1, m.2, kids.0, comment, TenukiOf(comment), DontOf(comment)), kids.1)
  }

  /** `children.map(convert)` for the children cs of the node at k. */
  function ConvertAll(nodes: seq<Node>, k: nat, cs: seq<nat>, next: nat): (r: (seq<JosekiNode>, nat))
    requires Forward(nodes) && k < |nodes| && Below(nodes, k, cs)
    ensures |r.0| == |cs| && next <= r.1
    decreases |nodes| - k, 0, |cs|
  {
    if cs == [] then ([], next)
    else
      var front := ConvertAll(nodes, k, cs[..|cs| - 1], next);
      var last := Convert(nodes, cs[|cs| - 1], front.1);
      (front.0 + [last.0], last.1)
  }

  /** The ids of a tree in pre-order. */
  function Ids(t: JosekiNode): seq<string>
    decreases t, 1
  {
    [t.id] + IdsAll(t.children)
  }

  function IdsAll(ts: seq<JosekiNode>): seq<string>
    decreases ts, 0
  {
    if ts == [] then [] else IdsAll(ts[..|ts| - 1]) + Ids(ts[|ts| - 1])
  }

  /** The labels node-a, ..., node-(b-1). */
  function IdRange(a: nat, b: nat): (r: seq<string>)
    requires a <= b
    ensures |r| == b - a
    decreases b - a
  {
    if a == b then [] else IdRange(a, b - 1) + [Label(b - 1)]
  }

  lemma {:induction false} IdRangeAppend(a: nat, b: nat, c: nat)
    requires a <= b <= c
    ensures IdRange(a, b) + IdRange(b, c) == IdRange(a, c)
    decreases c - b
  {
    if b < c {
      IdRangeAppend(a, b, c - 1);
      assert IdRange(a, b) + IdRange(b, c) == (IdRange(a, b) + IdRange(b, c - 1)) + [Label(c - 1)];
    }
  }

  lemma {:induction false} IdRangeAt(a: nat, b: nat, i: nat)
    requires a <= b && i < b - a
    ensures IdRange(a, b)[i] == Label(a + i)
    decreases b - a
  {
    if i < b - a - 1 {
      IdRangeAt(a, b - 1, i);
    }
  }

  /** The ids of the converted tree are the labels of the counter values it used, in order. */
  lemma {:induction false} ConvertIds(nodes: seq<Node>, k: nat, next: nat)
    requires Forward(nodes) && k < |nodes|
    ensures Ids(Convert(nodes, k, next).0) == IdRange(next, Convert(nodes, k, next).1)
    decreases |nodes| - k, 1
  {
    var kids := ConvertAll(nodes, k, nodes[k].children, next + 1);
    ConvertAllIds(nodes, k, nodes[k].children, next + 1);
    IdRangeAppend(next, next + 1, kids.1);
  }

  lemma {:induction false} ConvertAllIds(nodes: seq<Node>, k: nat, cs: seq<nat>, next: nat)
    requires Forward(nodes) && k < |nodes| && Below(nodes, k, cs)
    ensures IdsAll(ConvertAll(nodes, k, cs, next).0) == IdRange(next, ConvertAll(nodes, k, cs, next).1)
    decreases |nodes| - k, 0, |cs|
  {
    if cs != [] {
      var front := ConvertAll(nodes, k, cs[..|cs| - 1], next);
      var last := Convert(nodes, cs[|cs| - 1], front.1);
      ConvertAllIds(nodes, k, cs[..|cs| - 1], next);
      ConvertIds(nodes, cs[|cs| - 1], front.1);
      var ts := front.0 + [last.0];
      assert ts[..|ts| - 1] == front.0;
      IdRangeAppend(next, front.1, last.1);
    }
  }

  /**
   * Node ids come from a counter that only goes up: the tree converted when
   * the counter holds `next` uses the ids node-next ... node-(next'-1), one
   * per node, all distinct.
   */
  lemma ConvertIdsDistinct(nodes: seq<Node>, k: nat, next: nat)
    requires Forward(nodes) && k < |nodes|
    ensures var r := Convert(nodes, k, next);
            && |Ids(r.0)| == r.1 - next
            && Ids(r.0)[0] == Label(next)
            && forall i, j :: 0 <= i < j < |Ids(r.0)| ==> Ids(r.0)[i] != Ids(r.0)[j]
  {
    var r := Convert(nodes, k, next);
    ConvertIds(nodes, k, next);
    IdRangeAt(next, r.1, 0);
    IdRangeDistinct(next, r.1);
  }

  lemma IdRangeDistinct(a: nat, b: nat)
    requires a <= b
    ensures forall i, j :: 0 <= i < j < b - a ==> IdRange(a, b)[i] != IdRange(a, b)[j]
  {
    forall i, j | 0 <= i < j < b - a
      ensures IdRange(a, b)[i] != IdRange(a, b)[j]
    {
      IdRangeAt(a, b, i);
      IdRangeAt(a, b, j);
      LabelInjective(a + i, a + j);
    }
  }

  /** Two conversions one after the other never share an id. */
  lemma ConsecutiveDisjoint(nodes1: seq<Node>, k1: nat, nodes2: seq<Node>, k2: nat, next: nat)
    requires Forward(nodes1) && k1 < |nodes1| && Forward(nodes2) && k2 < |nodes2|
    ensures var r1 := Convert(nodes1, k1, next);
            var r2 := Convert(nodes2, k2, r1.1);
            forall i, j :: 0 <= i < |Ids(r1.0)| && 0 <= j < |Ids(r2.0)| ==> Ids(r1.0)[i] != Ids(r2.0)[j]
  {
    var r1 := Convert(nodes1, k1, next);
    var r2 := Convert(nodes2, k2, r1.1);
    ConvertIds(nodes1, k1, next);
    ConvertIds(nodes2, k2, r1.1);
    forall i, j | 0 <= i < |Ids(r1.0)| && 0 <= j < |Ids(r2.0)|
      ensures Ids(r1.0)[i] != Ids(r2.0)[j]
    {
      IdRangeAt(next, r1.1, i);
      IdRangeAt(r1.1, r2.1, j);
      LabelInjective(next + i, r1.1 + j);
    }
  }

  /**
   * What a converted node says about the SGF node k, stated without the
   * conversion's own helpers: B takes precedence over W and a node with
   * neither is (-1, -1) Black; the comment is the first C value; isDont holds
   * iff the comment contains <don't>, <bad> or <avoid>, isTenuki iff it
   * contains <tenuki>; and the children correspond one to one, in order.
   */
  ghost predicate Mirrors(nodes: seq<Node>, k: nat, t: JosekiNode)
    requires Forward(nodes) && k < |nodes|
    decreases t
  {
    var props := nodes[k].props;
    && ("B" in props ==> t.color == B && (t.x, t.y) == ParseSgfCoords(First(props["B"])))
    && ("B" !in props && "W" in props ==> t.color == W && (t.x, t.y) == ParseSgfCoords(First(props["W"])))
    && ("B" !in props && "W" !in props ==> t.color == B && t.x == -1 && t.y == -1)
    && t.comment == (if "C" in props && |props["C"]| > 0 then Some(props["C"][0]) else None)
    && (t.isTenuki <==> t.comment.Some? && Contains(t.comment.value, "<tenuki>"))
    && (t.isDont <==>
          t.comment.Some? &&
          (Contains(t.comment.value, "<don't>") || Contains(t.comment.value, "<bad>") ||
           Contains(t.comment.value, "<avoid>")))
    && |t.children| == |nodes[k].children|
    && forall j :: 0 <= j < |t.children| ==> Mirrors(nodes, nodes[k].children[j], t.children[j])
  }

  /** Conversion preserves the tree's shape and reads each node's move and flags as described. */
  lemma {:induction false} ConvertMirrors(nodes: seq<Node>, k: nat, next: nat)
    requires Forward(nodes) && k < |nodes|
    ensures Mirrors(nodes, k, Convert(nodes, k, next).0)
    decreases |nodes| - k, 1
  {
    var t := Convert(nodes, k, next).0;
    var kids := ConvertAll(nodes, k, nodes[k].children, next + 1);
    if t.comment.Some? {
      IncludesIff(t.comment.value, "<tenuki>");
      IncludesIff(t.comment.value, "<don't>");
      IncludesIff(t.comment.value, "<bad>");
      IncludesIff(t.comment.value, "<avoid>");
    }
    ConvertAllMirrors(nodes, k, nodes[k].children, next + 1);
  }

  lemma {:induction false} ConvertAllMirrors(nodes: seq<Node>, k: nat, cs: seq<nat>, next: nat)
    requires Forward(nodes) && k < |nodes| && Below(nodes, k, cs)
    ensures var ts := ConvertAll(nodes, k, cs, next).0;
            forall j :: 0 <= j < |cs| ==> Mirrors(nodes, cs[j], ts[j])
    decreases |nodes| - k, 0, |cs|
  {
    if cs != [] {
      var front := ConvertAll(nodes, k, cs[..|cs| - 1], next);
      assert cs[|cs| - 1] in cs;
      ConvertAllMirrors(nodes, k, cs[..|cs| - 1], next);
      ConvertMirrors(nodes, cs[|cs| - 1], front.1);
    }
  }

  /** The module state: the id counter and the per-type cache. */
  class JosekiLoader {
    var nodeIdCounter: nat
    var cache: map<JosekiType, JosekiNode>

    constructor()
      ensures nodeIdCounter == 0 && cache == map[]
    {
      nodeIdCounter := 0;
      cache := map[];
    }

    /** `convertSGFToJosekiTree` on the SGF node at position k. */
    method ConvertSgfToJosekiTree(nodes: seq<Node>, k: nat) returns (t: JosekiNode)
      requires Forward(nodes) && k < |nodes|
      modifies this
      ensures (t, nodeIdCounter) == Convert(nodes, k, old(nodeIdCounter))
      ensures cache == old(cache)
      decreases |nodes| - k
    {
      var props := nodes[k].props;
      var m := MoveOf(props);
      var comment := CommentOf(props);
      var id := Label(nodeIdCounter);
      nodeIdCounter := nodeIdCounter + 1;
      ghost var start := nodeIdCounter;
      var cs := nodes[k].children;
      var kids: seq<JosekiNode> := [];
      var j := 0;
      while j < |cs|
        invariant 0 <= j <= |cs|
        invariant Below(nodes, k, cs[..j])
        invariant (kids, nodeIdCounter) == ConvertAll(nodes, k, cs[..j], start)
        invariant cache == old(cache)
      {
        var child := ConvertSgfToJosekiTree(nodes, cs[j]);
        assert cs[..j + 1][..j] == cs[..j];
        kids := kids + [child];
        j := j + 1;
      }
      assert cs[..j] == cs;
      t := JosekiNode(id, m.0, m.1, m.2, kids, comment, TenukiOf(comment), DontOf(comment));
    }

    /**
     * `loadJosekiFile` with the fetched text as a parameter (None when the
     * fetch or the read fails).  A cached tree is returned as is.  When the
     * text has no game tree, converting the null root throws, the error is
     * caught and the result is null.
     */
    method LoadJosekiFile(kind: JosekiType, text: Option<string>) returns (r: Option<JosekiNode>)
      modifies this
      ensures kind in old(cache) ==>
                r == Some(old(cache)[kind]) && cache == old(cache) && nodeIdCounter == old(nodeIdCounter)
      ensures kind !in old(cache) && (text.None? || Parse(text.value).root.None?) ==>
                r.None? && cache == old(cache) && nodeIdCounter == old(nodeIdCounter)
      ensures kind !in old(cache) && text.Some? && Parse(text.value).root.Some? ==>
                var p := Parse(text.value);
                p.root.value < |p.nodes| && Forward(p.nodes) &&
                r.Some? && (r.value, nodeIdCounter) == Convert(p.nodes, p.root.value, old(nodeIdCounter)) &&
                cache == old(cache)[kind := r.value]
    {
      if kind in cache {
        return Some(cache[kind]);
      }
      if text.None? {
        return None;
      }
      var nodes, root := ParseSgf(text.value);
      ParseShape(text.value);
      if root.None? {
        return None;
      }
      WellLinkedForward(nodes);
      var t := ConvertSgfToJosekiTree(nodes, root.value);
      cache := cache[kind := t];
      r := Some(t);
    }
  }
}
