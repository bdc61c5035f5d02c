/**
 * src/store/tesujiStore.ts: tesuji problems.  A problem is an SGF tree; the
 * user plays the side to move, a move found among the current node's
 * children advances, and a leaf is judged by its comment text.
 *
 * The store is class TesujiStore over one record (`set` replaces the record
 * by an updated copy); `sgfRoot` and `currentNode` point into the arena of
 * the tree last parsed (field `tree`).
 */
module TesujiStore {
  import opened Wrappers
  import opened JsText
  import opened SgfParser

  /** A stone: 1 is Black, -1 is White. */
  datatype Point = Point(x: int, y: int, c: int)

  datatype Status = Playing | Correct | Wrong

  // ---------------------------------------------------------------------
  // Coordinates
  // ---------------------------------------------------------------------

  /** `decodeCoord`: the first two character codes minus 97, both in 0..18. */
  function DecodeCoord(v: string): (r: Option<(int, int)>)
    ensures r.Some? ==> 0 <= r.value.0 <= 18 && 0 <= r.value.1 <= 18
  {
    if |v| < 2 then None
    else
      var x := v[0] as int - 97;
      var y := v[1] as int - 97;
      if x < 0 || x > 18 || y < 0 || y > 18 then None else Some((x, y))
  }

  /** The UTF-16 code unit `String.fromCharCode(n + 97)` makes: n + 97 modulo 2^16. */
  function Unit(n: int): int {
    (n + 97) % 0x1_0000
  }

  /** v is the two-unit string `playMove` builds for (x, y). */
  predicate IsCoord(v: string, x: int, y: int) {
    |v| == 2 && v[0] as int == Unit(x) && v[1] as int == Unit(y)
  }

  /** The SGF letters of a board point. */
  function Encode(x: int, y: int): (v: string)
    requires 0 <= x <= 18 && 0 <= y <= 18
    ensures IsCoord(v, x, y)
  {
    [(x + 97) as char, (y + 97) as char]
  }

  /**
   * decodeCoord and the encoding are inverse on the board: every point
   * decodes back from its letters, and whatever decodes is the encoding of
   * its first two characters.
   */
  lemma DecodeEncode(x: int, y: int, v: string)
    ensures 0 <= x <= 18 && 0 <= y <= 18 ==> DecodeCoord(Encode(x, y)) == Some((x, y))
    ensures DecodeCoord(v) == Some((x, y)) ==> |v| >= 2 && v[..2] == Encode(x, y)
  {
  }

  /** On the board, a string is the key playMove looks for exactly when it is the point's letters. */
  lemma IsCoordIff(v: string, x: int, y: int)
    requires 0 <= x <= 18 && 0 <= y <= 18
    ensures IsCoord(v, x, y) <==> v == Encode(x, y)
  {
    if IsCoord(v, x, y) {
      assert v[0] == (x + 97) as char && v[1] == (y + 97) as char;
      assert v == [v[0], v[1]];
    }
  }

  /** decodeCoord refuses short strings and letters off the 19x19 board. */
  lemma DecodeRejects(v: string)
    ensures |v| < 2 ==> DecodeCoord(v).None?
    ensures |v| >= 2 && !('a' <= v[0] <= 's' && 'a' <= v[1] <= 's') ==> DecodeCoord(v).None?
    ensures |v| >= 2 && 'a' <= v[0] <= 's' && 'a' <= v[1] <= 's' ==> DecodeCoord(v).Some?
  {
  }

  // ---------------------------------------------------------------------
  // Setup stones
  // ---------------------------------------------------------------------

  /** The stones one property's values give, in value order. */
  function Decoded(vals: seq<string>, color: int): (r: seq<Point>)
    ensures |r| <= |vals|
  {
    if vals == [] then []
    else
      var d := DecodeCoord(vals[|vals| - 1]);
      Decoded(vals[..|vals| - 1], color) + (if d.Some? then [Point(d.value.0, d.value.1, color)] else [])
  }

  function Values(props: Props, key: string): seq<string> {
    if key in props then props[key] else []
  }

  /** What `getSetupStones` returns: the AB stones (Black), then the AW stones (White). */
  function SetupOf(props: Props): seq<Point> {
    Decoded(Values(props, "AB"), 1) + Decoded(Values(props, "AW"), -1)
  }

  /** Every stone of Decoded has the colour and a point on the board, and comes from a value that decodes to it. */
  lemma {:induction false} DecodedSpec(vals: seq<string>, color: int)
    ensures forall i :: 0 <= i < |Decoded(vals, color)| ==>
              var s := Decoded(vals, color)[i];
              s.c == color && 0 <= s.x <= 18 && 0 <= s.y <= 18
    ensures forall s :: s in Decoded(vals, color) ==> exists v :: v in vals && DecodeCoord(v) == Some((s.x, s.y))
    ensures forall v :: v in vals && DecodeCoord(v).Some? ==>
              Point(DecodeCoord(v).value.0, DecodeCoord(v).value.1, color) in Decoded(vals, color)
  {
    if vals != [] {
      var front := vals[..|vals| - 1];
      DecodedSpec(front, color);
      assert vals == front + [vals[|vals| - 1]];
    }
  }

  /** Setup stones are on the board and list every Black (AB) stone before every White (AW) stone. */
  lemma SetupBlackFirst(props: Props)
    ensures var s := SetupOf(props);
            && (forall i :: 0 <= i < |s| ==> 0 <= s[i].x <= 18 && 0 <= s[i].y <= 18 && (s[i].c == 1 || s[i].c == -1))
            && (forall i, j :: 0 <= i < j < |s| && s[i].c == -1 ==> s[j].c == -1)
            && |s| <= |Values(props, "AB")| + |Values(props, "AW")|
  {
    var b := Decoded(Values(props, "AB"), 1);
    var w := Decoded(Values(props, "AW"), -1);
    DecodedSpec(Values(props, "AB"), 1);
    DecodedSpec(Values(props, "AW"), -1);
    assert forall i :: 0 <= i < |b| ==> (b + w)[i] == b[i];
    assert forall i :: |b| <= i < |b| + |w| ==> (b + w)[i] == w[i - |b|];
  }

  /** One `forEach` of `getSetupStones`: push the stone of each value that decodes. */
  method PushDecoded(stones: seq<Point>, vals: seq<string>, color: int) returns (out: seq<Point>)
    ensures out == stones + Decoded(vals, color)
  {
    out := stones;
    var i := 0;
    while i < |vals|
      invariant 0 <= i <= |vals|
      invariant out == stones + Decoded(vals[..i], color)
    {
      var c := DecodeCoord(vals[i]);
      assert vals[..i + 1][..i] == vals[..i];
      if c.Some? {
        out := out + [Point(c.value.0, c.value.1, color)];
      }
      i := i + 1;
    }
    assert vals[..i] == vals;
  }

  method GetSetupStones(props: Props) returns (stones: seq<Point>)
    ensures stones == SetupOf(props)
  {
    stones := [];
    if "AB" in props {
      stones := PushDecoded(stones, props["AB"], 1);
    }
    if "AW" in props {
      stones := PushDecoded(stones, props["AW"], -1);
    }
  }

  // ---------------------------------------------------------------------
  // Reading nodes
  // ---------------------------------------------------------------------

  /** `props[key][0]`, written out as JavaScript prints it in a template: "undefined" for no value. */
  function FirstOrUndefined(vals: seq<string>): string {
    if |vals| > 0 then vals[0] else "undefined"
  }

  /** The problem's title: GN, else C, else the problem id. */
  function Title(props: Props, problemId: string): string {
    if "GN" in props then FirstOrUndefined(props["GN"])
    else if "C" in props then FirstOrUndefined(props["C"])
    else problemId
  }

  /** Who moves first: Black, unless there is a PL property whose first value is not "B". */
  function BlackFirst(props: Props): bool {
    "PL" !in props || (|props["PL"]| > 0 && props["PL"][0] == "B")
  }

  /** `nextNode.props.C ? C[0] : ''`, with an absent first value read as empty (both are falsy). */
  function CommentOf(props: Props): string {
    if "C" in props && |props["C"]| > 0 then props["C"][0] else ""
  }

  /** The property a move of the side to move is stored under. */
  function TurnKey(isBlackTurn: bool): string {
    if isBlackTurn then "B" else "W"
  }

  /** The child's move under key is (x, y). */
  predicate MatchesMove(tree: seq<Node>, n: nat, key: string, x: int, y: int)
    requires n < |tree|
  {
    key in tree[n].props && |tree[n].props[key]| > 0 && IsCoord(tree[n].props[key][0], x, y)
  }

  predicate InTree(tree: seq<Node>, cs: seq<nat>) {
    forall j :: 0 <= j < |cs| ==> cs[j] < |tree|
  }

  /** `children.find`: the position of the first child, from i on, whose move under key is (x, y). */
  function FindMove(tree: seq<Node>, cs: seq<nat>, key: string, x: int, y: int, i: nat): (r: Option<nat>)
    requires InTree(tree, cs) && i <= |cs|
    ensures r.Some? ==> i <= r.value < |cs| && MatchesMove(tree, cs[r.value], key, x, y) &&
                        forall j :: i <= j < r.value ==> !MatchesMove(tree, cs[j], key, x, y)
    ensures r.None? ==> forall j :: i <= j < |cs| ==> !MatchesMove(tree, cs[j], key, x, y)
    decreases |cs| - i
  {
    if i == |cs| then None
    else if MatchesMove(tree, cs[i], key, x, y) then Some(i)
    else FindMove(tree, cs, key, x, y, i + 1)
  }

  /** The leaf verdict: wrong exactly when the comment says 失败 or Wrong. */
  function Verdict(comment: string): (r: Status)
    ensures r != Playing
    ensures r == Wrong <==> Contains(comment, "失败") || Contains(comment, "Wrong")
  {
    IncludesIff(comment, "失败");
    IncludesIff(comment, "Wrong");
    if Includes(comment, "失败") || Includes(comment, "Wrong") then Wrong else Correct
  }

  /** The message shown at a leaf: the comment, or the verdict's default when there is none. */
  function VerdictText(comment: string, verdict: Status): string {
    if comment != "" then comment else if verdict == Wrong then "失败 (Wrong)" else "正解 (Correct)"
  }

  // ---------------------------------------------------------------------
  // The store
  // ---------------------------------------------------------------------

  datatype TesujiState = TesujiState(currentProblemId: Option<string>, tree: seq<Node>,
                                     sgfRoot: Option<nat>, currentNode: Option<nat>,
                                     boardStones: seq<Point>, initialStones: seq<Point>,
                                     status: Status, feedback: string, isBlackTurn: bool)
  {
    /** The root and the current node lie in the tree, which is well formed. */
    predicate Valid() {
      Forward(tree) && (sgfRoot.Some? ==> sgfRoot.value < |tree|) &&
      (currentNode.Some? ==> currentNode.value < |tree|)
    }
  }

  const Initial: TesujiState :=
    TesujiState(None, [], None, None, [], [], Playing, "黑先 (Black to Play)", true)

  /** Where playMove leads from state s on a click at (x, y). */
  datatype Outcome = Ignored | Missed | Advanced(node: nat, leaf: bool)

  /** The first matching child is played; no match is a miss; outside PLAYING or with no node the click is ignored. */
  function OutcomeOf(s: TesujiState, x: int, y: int): (o: Outcome)
    requires s.Valid()
    ensures o.Advanced? ==> s.currentNode.Some? && o.node in s.tree[s.currentNode.value].children &&
                            MatchesMove(s.tree, o.node, TurnKey(s.isBlackTurn), x, y) &&
                            o.node < |s.tree| && (o.leaf <==> s.tree[o.node].children == [])
    ensures o.Missed? ==>
              s.status == Playing && s.currentNode.Some? &&
              forall j :: 0 <= j < |s.tree[s.currentNode.value].children| ==>
                !MatchesMove(s.tree, s.tree[s.currentNode.value].children[j], TurnKey(s.isBlackTurn), x, y)
    ensures o.Ignored? <==> s.status != Playing || s.currentNode.None?
  {
    if s.status != Playing || s.currentNode.None? then Ignored
    else
      var cs := s.tree[s.currentNode.value].children;
      var f := FindMove(s.tree, cs, TurnKey(s.isBlackTurn), x, y, 0);
      if f.None? then Missed else Advanced(cs[f.value], s.tree[cs[f.value]].children == [])
  }

  class TesujiStore {
    var state: TesujiState

    predicate Valid()
      reads this
    {
      state.Valid()
    }

    constructor()
      ensures Valid() && state == Initial
    {
      state := Initial;
    }

    /**
     * `loadProblem`: on a text with no tree only the message changes;
     * otherwise the board is the root's setup, the root is current, play
     * starts and the side to move follows PL.
     */
    method LoadProblem(sgfContent: string, problemId: string)
      requires Valid()
      modifies this
      ensures Valid()
      ensures Parse(sgfContent).root.None? ==> state == old(state).(feedback := "Error parsing SGF")
      ensures Parse(sgfContent).root.Some? ==>
                var p := Parse(sgfContent);
                var r := p.root.value;
                && r < |p.nodes|
                && state == old(state).(currentProblemId := Some(problemId), tree := p.nodes,
                                        sgfRoot := Some(r), currentNode := Some(r),
                                        initialStones := SetupOf(p.nodes[r].props),
                                        boardStones := SetupOf(p.nodes[r].props), status := Playing,
                                        feedback := "题目: " + Title(p.nodes[r].props, problemId),
                                        isBlackTurn := BlackFirst(p.nodes[r].props))
    {
      var nodes, root := ParseSgf(sgfContent);
      ParseShape(sgfContent);
      if root.None? {
        state := state.(feedback := "Error parsing SGF");
        return;
      }
      WellLinkedForward(nodes);
      var props := nodes[root.value].props;
      var setup := GetSetupStones(props);
      var blackTurn := true;
      if "PL" in props {
        blackTurn := |props["PL"]| > 0 && props["PL"][0] == "B";
      }
      var title := Title(props, problemId);
      state := state.(currentProblemId := Some(problemId), tree := nodes, sgfRoot := root, currentNode := root,
                      initialStones := setup, boardStones := setup, status := Playing,
                      feedback := "题目: " + title, isBlackTurn := blackTurn);
    }

    /**
     * `playMove(x, y)`: nothing happens unless playing at a node.  A child
     * with the side to move's move at (x, y) is played: one stone is added,
     * the node advances, the turn passes, and a leaf ends the problem with
     * its verdict.  With no such child the problem is failed and neither the
     * board nor the node changes.
     */
    method PlayMove(x: int, y: int)
      requires Valid()
      modifies this
      ensures Valid()
      ensures var s := old(state);
              match OutcomeOf(s, x, y)
              case Ignored => state == s
              case Missed => state == s.(feedback := "此手不在正解或已知变化图中 (Not in book)", status := Wrong)
              case Advanced(n, leaf) =>
                var comment := CommentOf(s.tree[n].props);
                var played := s.(currentNode := Some(n),
                                 boardStones := s.boardStones + [Point(x, y, if s.isBlackTurn then 1 else -1)],
                                 isBlackTurn := !s.isBlackTurn);
                state == if leaf then played.(status := Verdict(comment),
                                              feedback := VerdictText(comment, Verdict(comment)))
                         else played.(feedback := if comment != "" then comment else "...")
    {
      if state.status != Playing || state.currentNode.None? {
        return;
      }
      var children := state.tree[state.currentNode.value].children;
      var expectedProp := if state.isBlackTurn then "B" else "W";
      var found := FindMove(state.tree, children, expectedProp, x, y, 0);
      if found.Some? {
        var nextNode := children[found.value];
        var newStone := Point(x, y, if state.isBlackTurn then 1 else -1);
        var comment := CommentOf(state.tree[nextNode].props);
        state := state.(currentNode := Some(nextNode), boardStones := state.boardStones + [newStone],
                        isBlackTurn := !state.isBlackTurn, feedback := if comment != "" then comment else "...");
        if state.tree[nextNode].children == [] {
          if Includes(comment, "失败") || Includes(comment, "Wrong") {
            state := state.(status := Wrong, feedback := if comment != "" then comment else "失败 (Wrong)");
          } else {
            state := state.(status := Correct, feedback := if comment != "" then comment else "正解 (Correct)");
          }
        }
      } else {
        state := state.(feedback := "此手不在正解或已知变化图中 (Not in book)", status := Wrong);
      }
    }

    /** `retry`: back to the root and the setup stones, with Black to move whatever PL said. */
    method Retry()
      requires Valid()
      modifies this
      ensures Valid()
      ensures state == old(state).(currentNode := old(state).sgfRoot, boardStones := old(state).initialStones,
                                   status := Playing, feedback := "重试 (Returning to start)", isBlackTurn := true)
    {
      state := state.(currentNode := state.sgfRoot, boardStones := state.initialStones, status := Playing,
                      feedback := "重试 (Returning to start)", isBlackTurn := true);
    }
  }
}
