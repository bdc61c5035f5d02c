/**
 * src/store/josekiStore.ts: joseki practice on a move tree from the loader.
 * A demonstration plays the best line; the user then plays White against
 * the tree, a short pause follows, and the user plays Black from move 3.
 *
 * The store is class JosekiStore over one record (`set` replaces the
 * record by an updated copy).  Every `setTimeout` and `setInterval` of the
 * source becomes an entry of the field `timers`, holding what its closure
 * captured; Fire(k) runs entry k, so any order of firing can be followed.
 * `Math.random()` is a parameter written as the fraction num / den.
 */
module JosekiStore {
  import opened Wrappers
  import opened JosekiLoader

  datatype Phase = Demo | PracticeWhite | Transition | PracticeBlack | Completed

  /** A stone on the board: 1 is Black, -1 is White. */
  datatype Stone = Stone(x: int, y: int, c: int)

  // ---------------------------------------------------------------------
  // Choosing children
  // ---------------------------------------------------------------------

  predicate NotDont(c: JosekiNode) {
    !c.isDont
  }

  predicate OnBoard(c: JosekiNode) {
    c.x >= 0
  }

  /** A child the best line prefers: not a bad move and not a tenuki. */
  predicate Good(c: JosekiNode) {
    !c.isDont && c.x >= 0
  }

  /** `find`: the position of the first child, from i on, that satisfies p. */
  function FirstWhere(cs: seq<JosekiNode>, p: JosekiNode -> bool, i: nat): (r: Option<nat>)
    requires i <= |cs|
    ensures r.Some? ==> i <= r.value < |cs| && p(cs[r.value]) && forall j :: i <= j < r.value ==> !p(cs[j])
    ensures r.None? ==> forall j :: i <= j < |cs| ==> !p(cs[j])
    decreases |cs| - i
  {
    if i == |cs| then None else if p(cs[i]) then Some(i) else FirstWhere(cs, p, i + 1)
  }

  /** Where the best line starts below a metadata root: the first child that is not a bad move, else the first child. */
  function StartIndex(root: JosekiNode): (r: Option<nat>)
    ensures r.Some? ==> r.value < |root.children|
    ensures r.None? <==> root.children == []
  {
    if |root.children| > 0 then
      var f := FirstWhere(root.children, NotDont, 0);
      if f.Some? then f else Some(0)
    else None
  }

  /**
   * One step of the best line: the first good child, else the first child
   * on the board, else none when no child is on the board.
   */
  function NextIndex(n: JosekiNode): (r: Option<nat>)
    ensures r.None? <==> forall j :: 0 <= j < |n.children| ==> n.children[j].x < 0
    ensures r.Some? ==>
              && r.value < |n.children| && n.children[r.value].x >= 0
              && (n.children[r.value].isDont ==> forall j :: 0 <= j < |n.children| ==> !Good(n.children[j]))
              && forall j :: 0 <= j < r.value ==>
                   !Good(n.children[j]) && (n.children[r.value].isDont ==> n.children[j].x < 0)
  {
    var g := FirstWhere(n.children, Good, 0);
    if g.Some? then g else FirstWhere(n.children, OnBoard, 0)
  }

  /** The nodes the best line visits after n. */
  function Rest(n: JosekiNode): seq<JosekiNode>
    decreases n
  {
    match NextIndex(n)
    case None => []
    case Some(i) => [n.children[i]] + Rest(n.children[i])
  }

  /** What `getBestSequence` returns: the best line, without a metadata root (x = -1). */
  function BestSequence(root: JosekiNode): seq<JosekiNode> {
    if root.x == -1 then
      match StartIndex(root)
      case None => []
      case Some(i) => [root.children[i]] + Rest(root.children[i])
    else [root] + Rest(root)
  }

  /** In the line from n, each node is the child NextIndex picks from the one before. */
  lemma {:induction false} RestSteps(n: JosekiNode)
    ensures var q := [n] + Rest(n);
            forall i :: 0 <= i < |q| - 1 ==>
              NextIndex(q[i]).Some? && q[i + 1] == q[i].children[NextIndex(q[i]).value]
    decreases n
  {
    match NextIndex(n)
    case None =>
    case Some(k) =>
      var c := n.children[k];
      RestSteps(c);
      var q := [n] + Rest(n);
      assert q == [n] + ([c] + Rest(c));
      forall i | 1 <= i < |q| - 1
        ensures NextIndex(q[i]).Some? && q[i + 1] == q[i].children[NextIndex(q[i]).value]
      {
        assert q[i] == ([c] + Rest(c))[i - 1] && q[i + 1] == ([c] + Rest(c))[i];
      }
  }

  /** In the line from n, every node after n is on the board. */
  lemma {:induction false} RestOnBoard(n: JosekiNode)
    ensures var q := [n] + Rest(n);
            forall i :: 1 <= i < |q| ==> q[i].x >= 0
    decreases n
  {
    match NextIndex(n)
    case None =>
    case Some(k) =>
      var c := n.children[k];
      RestOnBoard(c);
      var q := [n] + Rest(n);
      assert q == [n] + ([c] + Rest(c));
      forall i | 2 <= i < |q|
        ensures q[i].x >= 0
      {
        assert q[i] == ([c] + Rest(c))[i - 1];
      }
  }

  /** The line from n stops at a node with no child on the board. */
  lemma {:induction false} RestEnd(n: JosekiNode)
    ensures var q := [n] + Rest(n);
            NextIndex(q[|q| - 1]).None?
    decreases n
  {
    match NextIndex(n)
    case None =>
    case Some(k) =>
      var c := n.children[k];
      RestEnd(c);
      assert [n] + Rest(n) == [n] + ([c] + Rest(c));
  }

  /**
   * A line that starts at n and follows NextIndex: each node is a child of
   * the one before, reached by NextIndex, is on the board, and the last node
   * has no child on the board.
   */
  lemma RestShape(n: JosekiNode)
    ensures var q := [n] + Rest(n);
            && (forall i :: 0 <= i < |q| - 1 ==>
                  NextIndex(q[i]).Some? && q[i + 1] == q[i].children[NextIndex(q[i]).value])
            && (forall i :: 1 <= i < |q| ==> q[i].x >= 0)
            && NextIndex(q[|q| - 1]).None?
  {
    RestSteps(n);
    RestOnBoard(n);
    RestEnd(n);
  }

  /**
   * The best line is empty only below a childless metadata root; it starts
   * at the root, or below a metadata root at the first child that is not a
   * bad move (else the first child); each later node is the child NextIndex
   * picks and is on the board; and it stops at a node no child of which is
   * on the board.
   */
  lemma BestSequenceShape(root: JosekiNode)
    ensures var p := BestSequence(root);
            && (p == [] <==> root.x == -1 && root.children == [])
            && (p != [] && root.x != -1 ==> p[0] == root)
            && (p != [] && root.x == -1 ==>
                  var f := FirstWhere(root.children, NotDont, 0);
                  p[0] == root.children[if f.Some? then f.value else 0])
            && (forall i :: 0 <= i < |p| - 1 ==>
                  NextIndex(p[i]).Some? && p[i + 1] == p[i].children[NextIndex(p[i]).value])
            && (forall i :: 1 <= i < |p| ==> p[i].x >= 0)
            && (p != [] ==> NextIndex(p[|p| - 1]).None?)
  {
    if root.x == -1 {
      if root.children != [] {
        RestShape(root.children[StartIndex(root).value]);
      }
    } else {
      RestShape(root);
    }
  }

  /** The loop of `getBestSequence`. */
  method GetBestSequence(root: JosekiNode) returns (path: seq<JosekiNode>)
    ensures path == BestSequence(root)
  {
    var curr := root;
    if curr.x == -1 {
      var bestChild := StartIndex(curr);
      if bestChild.None? {
        return [];
      }
      curr := curr.children[bestChild.value];
    }
    path := [curr];
    while |curr.children| > 0
      invariant path + Rest(curr) == BestSequence(root)
      decreases curr
    {
      var valid := FirstWhere(curr.children, Good, 0);
      var next := curr;
      if valid.None? {
        var anyMove := FirstWhere(curr.children, OnBoard, 0);
        if anyMove.None? {
          break;
        }
        next := curr.children[anyMove.value];
      } else {
        next := curr.children[valid.value];
      }
      assert Rest(curr) == [next] + Rest(next);
      path := path + [next];
      curr := next;
    }
  }

  // ---------------------------------------------------------------------
  // Moves
  // ---------------------------------------------------------------------

  /** The position of the first child at (x, y), from i on. */
  function MatchAt(cs: seq<JosekiNode>, x: int, y: int, i: nat): (r: Option<nat>)
    requires i <= |cs|
    ensures r.Some? ==> i <= r.value < |cs| && cs[r.value].x == x && cs[r.value].y == y &&
                        forall j :: i <= j < r.value ==> !(cs[j].x == x && cs[j].y == y)
    ensures r.None? ==> forall j :: i <= j < |cs| ==> !(cs[j].x == x && cs[j].y == y)
    decreases |cs| - i
  {
    if i == |cs| then None
    else if cs[i].x == x && cs[i].y == y then Some(i)
    else MatchAt(cs, x, y, i + 1)
  }

  /** A phase ends at a node with no children or with a tenuki child (x = y = -1). */
  predicate Ends(n: JosekiNode) {
    n.children == [] || exists j :: 0 <= j < |n.children| && n.children[j].x == -1 && n.children[j].y == -1
  }

  predicate Physical(c: JosekiNode) {
    !c.isDont && c.x != -1
  }

  /** `filter`: the children an opponent may answer with, in order. */
  function Responses(cs: seq<JosekiNode>): (r: seq<JosekiNode>)
    ensures |r| <= |cs|
    ensures forall k :: 0 <= k < |r| ==> Physical(r[k]) && r[k] in cs
    ensures forall k :: 0 <= k < |cs| && Physical(cs[k]) ==> cs[k] in r
  {
    if cs == [] then []
    else (if Physical(cs[0]) then [cs[0]] else []) + Responses(cs[1..])
  }

  /** `Math.floor(random * n)` for random = num / den in [0, 1) is an index below n. */
  lemma FloorIndex(num: nat, den: nat, n: nat)
    requires num < den && 0 < n
    ensures num * n / den < n
  {
    var a := num * n;
    assert a < den * n by {
      assert (den - num) * n > 0;
    }
    var q := a / den;
    assert den * q <= a;
    assert den * (n - q) > 0;
  }

  /**
   * The opponent's answer: the response at `Math.floor(random * n)`, with
   * random = num / den, among the n physical responses; the first child
   * when there is none.
   */
  function Response(m: JosekiNode, num: nat, den: nat): (r: JosekiNode)
    requires num < den && m.children != []
    ensures r in m.children
    ensures (exists k :: 0 <= k < |m.children| && Physical(m.children[k])) ==> Physical(r)
    ensures (forall k :: 0 <= k < |m.children| ==> !Physical(m.children[k])) ==> r == m.children[0]
  {
    var valid := Responses(m.children);
    if |valid| > 0 then
      FloorIndex(num, den, |valid|);
      valid[num * |valid| / den]
    else m.children[0]
  }

  function Sign(c: Colour): int {
    if c == B then 1 else -1
  }

  // ---------------------------------------------------------------------
  // The store
  // ---------------------------------------------------------------------

  datatype JosekiState = JosekiState(selectedType: Option<JosekiType>, isLoading: bool, phase: Phase,
                                     rootNode: Option<JosekiNode>, currentNode: Option<JosekiNode>,
                                     currentPath: seq<JosekiNode>, boardStones: seq<Stone>,
                                     lastMove: Option<(int, int)>, feedback: string, isCorrect: Option<bool>)
  {
    /** Every stone is Black or White. */
    predicate Valid() {
      forall i :: 0 <= i < |boardStones| ==> boardStones[i].c == 1 || boardStones[i].c == -1
    }

    /** A stone of colour c played at (x, y). */
    function Play(x: int, y: int, c: int): JosekiState {
      this.(boardStones := boardStones + [Stone(x, y, c)], lastMove := Some((x, y)))
    }
  }

  const Initial: JosekiState :=
    JosekiState(None, false, Demo, None, None, [], [], None, "Select a Joseki to start", None)

  /** A pending timeout or interval, with what its closure holds. */
  datatype Timer =
    | BlackOpening(move: JosekiNode)            // startPractice: Black's first move
    | PhaseSuccess                              // handlePhaseSuccess
    | Reply(response: JosekiNode, color: int)   // the opponent's answer
    | BlackPhase                                // startBlackPhase
    | DemoRun(path: seq<JosekiNode>, i: nat)    // the demonstration interval

  predicate TimersValid(timers: seq<Timer>) {
    forall k :: 0 <= k < |timers| && timers[k].Reply? ==> timers[k].color == 1 || timers[k].color == -1
  }

  function Without(timers: seq<Timer>, k: nat): seq<Timer>
    requires k < |timers|
  {
    timers[..k] + timers[k + 1..]
  }

  /**
   * `startBlackPhase`: the board is the root's first child (Black) and,
   * when it has one, that child's first child (White); the last of them is
   * the current node and the last move.  A missing or childless root
   * changes nothing.
   */
  function BlackPhaseState(s: JosekiState): (r: JosekiState)
    ensures s.Valid() ==> r.Valid()
    ensures s.rootNode.None? || s.rootNode.value.children == [] ==> r == s
    ensures s.rootNode.Some? && s.rootNode.value.children != [] ==>
              var m1 := s.rootNode.value.children[0];
              var curr := if m1.children == [] then m1 else m1.children[0];
              && |r.boardStones| == (if m1.children == [] then 1 else 2)
              && r.boardStones[0] == Stone(m1.x, m1.y, 1)
              && (m1.children != [] ==> r.boardStones[1] == Stone(curr.x, curr.y, -1))
              && r == s.(phase := PracticeBlack, boardStones := r.boardStones,
                         lastMove := Some((curr.x, curr.y)), currentNode := Some(curr),
                         feedback := "Your Turn: Play Black (Move 3)", isCorrect := None)
  {
    if s.rootNode.None? || s.rootNode.value.children == [] then s
    else
      var m1 := s.rootNode.value.children[0];
      var curr := if m1.children == [] then m1 else m1.children[0];
      var board := [Stone(m1.x, m1.y, 1)] + (if m1.children == [] then [] else [Stone(curr.x, curr.y, -1)]);
      s.(phase := PracticeBlack, boardStones := board, lastMove := Some((curr.x, curr.y)), currentNode := Some(curr),
         feedback := "Your Turn: Play Black (Move 3)", isCorrect := None)
  }

  /** The phase changes a timer can make: success moves White on and Black to the end, and `startBlackPhase` enters PRACTICE_BLACK from any phase. */
  predicate TimerPhaseStep(a: Phase, b: Phase) {
    a == b || (a == PracticeWhite && b == Transition) || (a == PracticeBlack && b == Completed) || b == PracticeBlack
  }

  class JosekiStore {
    var state: JosekiState
    var timers: seq<Timer>

    predicate Valid()
      reads this
    {
      state.Valid() && TimersValid(timers)
    }

    constructor()
      ensures Valid() && state == Initial && timers == []
    {
      state := Initial;
      timers := [];
    }

    /** `runDemo`: start the interval over the best line of the loaded tree. */
    method RunDemo()
      requires Valid()
      modifies this
      ensures Valid() && state == old(state)
      ensures timers == if old(state).rootNode.None? then old(timers)
                        else old(timers) + [DemoRun(BestSequence(old(state).rootNode.value), 0)]
    {
      if state.rootNode.None? {
        return;
      }
      var path := GetBestSequence(state.rootNode.value);
      timers := timers + [DemoRun(path, 0)];
    }

    /** `reset`: back to an empty board in DEMO, and the demonstration starts again. */
    method Reset()
      requires Valid()
      modifies this
      ensures Valid()
      ensures state == old(state).(phase := Demo, boardStones := [], lastMove := None, feedback := "Demo Mode")
      ensures timers == if state.rootNode.None? then old(timers)
                        else old(timers) + [DemoRun(BestSequence(state.rootNode.value), 0)]
    {
      state := state.(phase := Demo, boardStones := [], lastMove := None, feedback := "Demo Mode");
      RunDemo();
    }

    /** `selectType`, with `root` the tree `loadJosekiFile` resolved to; the two `set` calls around the await are merged. */
    method SelectType(kind: JosekiType, root: Option<JosekiNode>)
      requires Valid()
      modifies this
      ensures Valid()
      ensures state == old(state).(isLoading := false, selectedType := Some(kind), rootNode := root,
                                   currentNode := root, boardStones := [], lastMove := None, phase := Demo,
                                   feedback := "Demo Mode")
      ensures timers == if root.None? then old(timers) else old(timers) + [DemoRun(BestSequence(root.value), 0)]
    {
      state := state.(isLoading := true, selectedType := Some(kind));
      state := state.(isLoading := false, rootNode := root, currentNode := root, boardStones := [],
                      lastMove := None, phase := Demo, feedback := "Observing Demo...");
      Reset();
    }

    /** `startPractice`: White practice from the root, with Black's first move of the best line scheduled. */
    method StartPractice()
      requires Valid()
      modifies this
      ensures Valid()
      ensures old(state).rootNode.None? ==> state == old(state) && timers == old(timers)
      ensures old(state).rootNode.Some? ==>
                var p := BestSequence(old(state).rootNode.value);
                && state == old(state).(phase := PracticeWhite, currentNode := old(state).rootNode,
                                        boardStones := [], lastMove := None,
                                        feedback := "Your Turn: Play White (Wait for Black first move)",
                                        isCorrect := None)
                && timers == old(timers) + (if p != [] then [BlackOpening(p[0])] else [])
    {
      if state.rootNode.None? {
        return;
      }
      var root := state.rootNode.value;
      state := state.(phase := PracticeWhite, currentNode := Some(root), boardStones := [], lastMove := None,
                      feedback := "Your Turn: Play White (Wait for Black first move)", isCorrect := None);
      var sequence := GetBestSequence(root);
      if |sequence| > 0 {
        timers := timers + [BlackOpening(sequence[0])];
      }
    }

    /** `nextProblem`. */
    method NextProblem()
      requires Valid()
      modifies this
      ensures Valid()
      ensures old(state).rootNode.None? ==> state == old(state) && timers == old(timers)
      ensures old(state).rootNode.Some? ==>
                var p := BestSequence(old(state).rootNode.value);
                && state == old(state).(phase := PracticeWhite, currentNode := old(state).rootNode,
                                        boardStones := [], lastMove := None,
                                        feedback := "Your Turn: Play White (Wait for Black first move)",
                                        isCorrect := None)
                && timers == old(timers) + (if p != [] then [BlackOpening(p[0])] else [])
    {
      StartPractice();
    }

    /**
     * `playMove(x, y)`, with `Math.random()` = num / den: ignored outside
     * practice; matched against the current node's children by point only.
     * A bad move or a miss changes only the message; an accepted move is
     * played in the practised colour and schedules either the phase success
     * (at a leaf or before a tenuki) or the opponent's answer.
     */
    method PlayMove(x: int, y: int, num: nat, den: nat)
      requires Valid() && num < den
      modifies this
      ensures Valid()
      ensures var s := old(state);
              s.phase != PracticeWhite && s.phase != PracticeBlack ==> state == s && timers == old(timers)
      ensures var s := old(state);
              var cs := if s.currentNode.Some? then s.currentNode.value.children else [];
              var f := MatchAt(cs, x, y, 0);
              (s.phase == PracticeWhite || s.phase == PracticeBlack) ==>
                && (f.None? ==>
                      state == s.(feedback := "Not a Joseki move. Try again.", isCorrect := Some(false)) &&
                      timers == old(timers))
                && (f.Some? && cs[f.value].isDont ==>
                      state == s.(feedback := "Mistake: This is a known bad move.", isCorrect := Some(false)) &&
                      timers == old(timers))
                && (f.Some? && !cs[f.value].isDont ==>
                      var m := cs[f.value];
                      var color := if s.phase == PracticeWhite then -1 else 1;
                      && state == s.Play(x, y, color).(currentNode := Some(m), feedback := "Correct!",
                                                       isCorrect := Some(true))
                      && timers == old(timers) + [if Ends(m) then PhaseSuccess else Reply(Response(m, num, den), -color)])
    {
      if state.phase != PracticeWhite && state.phase != PracticeBlack {
        return;
      }
      var children := if state.currentNode.Some? then state.currentNode.value.children else [];
      var matched := MatchAt(children, x, y, 0);
      if matched.None? {
        state := state.(feedback := "Not a Joseki move. Try again.", isCorrect := Some(false));
        return;
      }
      var matchedChild := children[matched.value];
      if matchedChild.isDont {
        state := state.(feedback := "Mistake: This is a known bad move.", isCorrect := Some(false));
        return;
      }
      var color := if state.phase == PracticeWhite then -1 else 1;
      state := state.Play(x, y, color).(currentNode := Some(matchedChild), feedback := "Correct!",
                                        isCorrect := Some(true));
      if Ends(matchedChild) {
        timers := timers + [PhaseSuccess];
      } else {
        var response := Response(matchedChild, num, den);
        timers := timers + [Reply(response, if color == 1 then -1 else 1)];
      }
    }

    /** `handlePhaseSuccess`: White's phase goes to TRANSITION and schedules Black's; Black's phase completes. */
    method HandlePhaseSuccess()
      requires Valid()
      modifies this
      ensures Valid()
      ensures old(state).phase == PracticeWhite ==>
                state == old(state).(phase := Transition, feedback := "Good! Switching to Black...",
                                     isCorrect := Some(true)) &&
                timers == old(timers) + [BlackPhase]
      ensures old(state).phase == PracticeBlack ==>
                state == old(state).(phase := Completed, feedback := "Joseki Completed!", isCorrect := Some(true)) &&
                timers == old(timers)
      ensures old(state).phase != PracticeWhite && old(state).phase != PracticeBlack ==>
                state == old(state) && timers == old(timers)
    {
      if state.phase == PracticeWhite {
        state := state.(phase := Transition, feedback := "Good! Switching to Black...", isCorrect := Some(true));
        timers := timers + [BlackPhase];
      } else if state.phase == PracticeBlack {
        state := state.(phase := Completed, feedback := "Joseki Completed!", isCorrect := Some(true));
      }
    }

    /** `startBlackPhase`: the state becomes BlackPhaseState of the old one. */
    method StartBlackPhase()
      requires Valid()
      modifies this
      ensures Valid() && timers == old(timers)
      ensures state == BlackPhaseState(old(state))
    {
      if state.rootNode.None? || state.rootNode.value.children == [] {
        return;
      }
      var m1 := state.rootNode.value.children[0];
      var board := [Stone(m1.x, m1.y, 1)];
      var curr := m1;
      if m1.children != [] {
        var m2 := m1.children[0];
        board := board + [Stone(m2.x, m2.y, -1)];
        curr := m2;
      }
      state := state.(phase := PracticeBlack, boardStones := board,
                      lastMove := Some((board[|board| - 1].x, board[|board| - 1].y)), currentNode := Some(curr),
                      feedback := "Your Turn: Play Black (Move 3)", isCorrect := None);
    }

    /**
     * Run pending timer k.  A timeout is removed and does its work; the
     * demonstration interval stops outside DEMO, otherwise plays the next
     * node of its line in the node's colour, and at the end stops with a
     * message.  The phase moves only as TimerPhaseStep allows.
     */
    method Fire(k: nat)
      requires Valid() && k < |timers|
      modifies this
      ensures Valid()
      ensures TimerPhaseStep(old(state).phase, state.phase)
      ensures old(timers[k]).BlackOpening? ==>
                var m := old(timers[k]).move;
                state == old(state).Play(m.x, m.y, 1).(currentNode := Some(m), feedback := "Your Turn: Play White") &&
                timers == Without(old(timers), k)
      ensures old(timers[k]).Reply? ==>
                var r := old(timers[k]).response;
                state == old(state).Play(r.x, r.y, old(timers[k]).color).(currentNode := Some(r),
                                                                          feedback := "Your Turn", isCorrect := None) &&
                timers == Without(old(timers), k) + (if Ends(r) then [PhaseSuccess] else [])
      ensures old(timers[k]).PhaseSuccess? ==>
                (old(state).phase == PracticeWhite ==>
                   state == old(state).(phase := Transition, feedback := "Good! Switching to Black...",
                                        isCorrect := Some(true)) &&
                   timers == Without(old(timers), k) + [BlackPhase]) &&
                (old(state).phase == PracticeBlack ==>
                   state == old(state).(phase := Completed, feedback := "Joseki Completed!", isCorrect := Some(true)) &&
                   timers == Without(old(timers), k)) &&
                (old(state).phase != PracticeWhite && old(state).phase != PracticeBlack ==>
                   state == old(state) && timers == Without(old(timers), k))
      ensures old(timers[k]).BlackPhase? ==>
                state == BlackPhaseState(old(state)) && timers == Without(old(timers), k)
      ensures old(timers[k]).DemoRun? ==>
                var t := old(timers[k]);
                && (old(state).phase != Demo ==> state == old(state) && timers == Without(old(timers), k))
                && (old(state).phase == Demo && t.i < |t.path| ==>
                      var n := t.path[t.i];
                      state == old(state).Play(n.x, n.y, Sign(n.color)) &&
                      timers == old(timers)[k := DemoRun(t.path, t.i + 1)])
                && (old(state).phase == Demo && t.i >= |t.path| ==>
                      state == old(state).(feedback := "Demo Finished. Ready?") &&
                      timers == Without(old(timers), k))
    {
      var t := timers[k];
      match t {
        case BlackOpening(move) =>
          timers := Without(timers, k);
          state := state.Play(move.x, move.y, 1).(currentNode := Some(move), feedback := "Your Turn: Play White");
        case Reply(response, color) =>
          timers := Without(timers, k);
          state := state.Play(response.x, response.y, color).(currentNode := Some(response), feedback := "Your Turn",
                                                              isCorrect := None);
          if Ends(response) {
            timers := timers + [PhaseSuccess];
          }
        case PhaseSuccess =>
          timers := Without(timers, k);
          HandlePhaseSuccess();
        case BlackPhase =>
          timers := Without(timers, k);
          StartBlackPhase();
        case DemoRun(path, i) =>
          if state.phase != Demo {
            timers := Without(timers, k);
          } else if i < |path| {
            var node := path[i];
            state := state.Play(node.x, node.y, if node.color == B then 1 else -1);
            timers := timers[k := DemoRun(path, i + 1)];
          } else {
            timers := Without(timers, k);
            state := state.(feedback := "Demo Finished. Ready?");
          }
      }
    }
  }
}
