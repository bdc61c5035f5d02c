/**
 * src/store/gameStore.ts: the joseki challenge.  A pattern is demonstrated
 * move by move, then the user replays it; a main-line move advances, a
 * variation costs 20 chips and shows the refutation, and AI replies follow
 * the first child of the tree.
 *
 * The store is class GameStore.  Its `sgfNode` points into the arena of the
 * tree last parsed (field `tree`).  The intervals of the source are fields
 * holding what each interval closure holds: the demonstration, and one
 * pending replay per wrong move, since the source never clears an earlier
 * refutation interval.  Each firing is an explicit step method (DemoStep,
 * RefutationStep).  The one-shot timeouts of the source call
 * CheckAiTurn, StartChallenge(-1) or ClearFlash later; those are public
 * methods here and their scheduling is not modelled.
 */
module GameStore {
  import opened Wrappers
  import opened JsText
  import opened SgfParser

  datatype Status = Welcome | Study | Idle | Playing | Locked | Refutation | Win

  /** A stone on the board: 1 is Black, -1 is White. */
  datatype Stone = Stone(x: int, y: int, c: int)

  /** The fields of a library pattern the store reads. */
  datatype Pattern = Pattern(id: string, title: string, sgf: string)

  // ---------------------------------------------------------------------
  // Helpers
  // ---------------------------------------------------------------------

  /** `decodeCoord`: character codes minus 97, with no range check. */
  function DecodeCoord(v: string): Option<(int, int)> {
    if |v| >= 2 then Some((v[0] as int - 97, v[1] as int - 97)) else None
  }

  /** The SGF letters for (x, y), as long as both are characters. */
  function EncodeCoord(x: int, y: int): string
    requires 0 <= x + 97 < 0xD800 && 0 <= y + 97 < 0xD800
  {
    [(x + 97) as char, (y + 97) as char]
  }

  /** decodeCoord reads back any encoded pair. */
  lemma DecodeEncode(x: int, y: int)
    requires 0 <= x + 97 < 0xD800 && 0 <= y + 97 < 0xD800
    ensures DecodeCoord(EncodeCoord(x, y)) == Some((x, y))
  {
  }

  /** decodeCoord accepts every string of two or more characters, and only those. */
  lemma DecodeCoordDomain(v: string)
    ensures DecodeCoord(v).Some? <==> |v| >= 2
    ensures |v| >= 2 ==> DecodeCoord(v) == DecodeCoord(v[..2])
  {
  }

  /** There is no range check: "zz" decodes to a point off the 19x19 board. */
  lemma DecodeOffBoard()
    ensures DecodeCoord("zz") == Some((25, 25))
  {
  }

  function FirstValue(props: Props, key: string): Option<string> {
    if key in props && |props[key]| > 0 then Some(props[key][0]) else None
  }

  /** `getMoveFromNode`. */
  function GetMoveFromNode(props: Props): Option<Stone> {
    var b := FirstValue(props, "B");
    var w := FirstValue(props, "W");
    var coord := if b.Some? then DecodeCoord(b.value) else if w.Some? then DecodeCoord(w.value) else None;
    var c := if b.Some? then 1 else if w.Some? then -1 else 0;
    if coord.Some? then Some(Stone(coord.value.0, coord.value.1, c)) else None
  }

  /**
   * B wins over W: a node with a B value is a Black move when that value
   * decodes and no move at all when it does not (W is then not looked at);
   * otherwise a decodable W value is a White move; a move's colour is 1 or -1.
   */
  lemma MoveRules(props: Props)
    ensures var m := GetMoveFromNode(props);
            && (m.Some? ==> m.value.c == 1 || m.value.c == -1)
            && ("B" in props && |props["B"]| > 0 ==>
                  m == (if |props["B"][0]| >= 2
                        then Some(Stone(props["B"][0][0] as int - 97, props["B"][0][1] as int - 97, 1))
                        else None))
            && (!("B" in props && |props["B"]| > 0) && "W" in props && |props["W"]| > 0 ==>
                  m == (if |props["W"][0]| >= 2
                        then Some(Stone(props["W"][0][0] as int - 97, props["W"][0][1] as int - 97, -1))
                        else None))
            && (!("B" in props && |props["B"]| > 0) && !("W" in props && |props["W"]| > 0) ==> m.None?)
  {
  }

  /** The stones `processProps` makes from one property's values, in value order. */
  function Decoded(vals: seq<string>, color: int): (r: seq<Stone>)
    ensures |r| <= |vals|
  {
    if vals == [] then []
    else
      var d := DecodeCoord(vals[|vals| - 1]);
      Decoded(vals[..|vals| - 1], color) + (if d.Some? then [Stone(d.value.0, d.value.1, color)] else [])
  }

  function Values(props: Props, key: string): seq<string> {
    if key in props then props[key] else []
  }

  /** `getSetupStones`: the AW stones (White) and then the AB stones (Black). */
  function SetupOf(props: Props): seq<Stone> {
    Decoded(Values(props, "AW"), -1) + Decoded(Values(props, "AB"), 1)
  }

  /** Every decoded stone has the property's colour and comes from one of its decodable values, and each such value gives one. */
  lemma {:induction false} DecodedSpec(vals: seq<string>, color: int)
    ensures forall s :: s in Decoded(vals, color) ==>
              s.c == color && exists v :: v in vals && DecodeCoord(v) == Some((s.x, s.y))
    ensures forall v :: v in vals && |v| >= 2 ==>
              Stone(v[0] as int - 97, v[1] as int - 97, color) in Decoded(vals, color)
  {
    if vals != [] {
      var front := vals[..|vals| - 1];
      DecodedSpec(front, color);
      assert vals == front + [vals[|vals| - 1]];
    }
  }

  lemma {:induction false} DecodedColour(vals: seq<string>, color: int)
    ensures forall i :: 0 <= i < |Decoded(vals, color)| ==> Decoded(vals, color)[i].c == color
  {
    if vals != [] {
      DecodedColour(vals[..|vals| - 1], color);
    }
  }

  /** Setup stones list every White (AW) stone before every Black (AB) stone. */
  lemma SetupWhiteFirst(props: Props)
    ensures var s := SetupOf(props);
            forall i, j :: 0 <= i < j < |s| && s[i].c == 1 ==> s[j].c == 1
  {
    var w := Decoded(Values(props, "AW"), -1);
    var b := Decoded(Values(props, "AB"), 1);
    DecodedColour(Values(props, "AW"), -1);
    DecodedColour(Values(props, "AB"), 1);
    assert forall i :: 0 <= i < |w| ==> (w + b)[i] == w[i];
    assert forall i :: |w| <= i < |w| + |b| ==> (w + b)[i] == b[i - |w|];
  }

  /** The loop of `processProps`: push each decodable value's stone. */
  method ProcessProps(stones: seq<Stone>, vals: seq<string>, color: int) returns (out: seq<Stone>)
    ensures out == stones + Decoded(vals, color)
  {
    out := stones;
    var i := 0;
    while i < |vals|
      invariant 0 <= i <= |vals|
      invariant out == stones + Decoded(vals[..i], color)
    {
      var coord := DecodeCoord(vals[i]);
      assert vals[..i + 1][..i] == vals[..i];
      if coord.Some? {
        out := out + [Stone(coord.value.0, coord.value.1, color)];
      }
      i := i + 1;
    }
    assert vals[..i] == vals;
  }

  method GetSetupStones(props: Props) returns (stones: seq<Stone>)
    ensures stones == SetupOf(props)
  {
    stones := [];
    if "AW" in props {
      stones := ProcessProps(stones, props["AW"], -1);
    }
    if "AB" in props {
      stones := ProcessProps(stones, props["AB"], 1);
    }
  }

  // ---------------------------------------------------------------------
  // Walking the tree
  // ---------------------------------------------------------------------

  predicate InTree(tree: seq<Node>, cs: seq<nat>) {
    forall j :: 0 <= j < |cs| ==> cs[j] < |tree|
  }

  predicate Matches(tree: seq<Node>, n: nat, x: int, y: int, c: int)
    requires n < |tree|
  {
    GetMoveFromNode(tree[n].props) == Some(Stone(x, y, c))
  }

  /** The first of the children cs, from position i on, whose move is (x, y) in colour c. */
  function FirstMatchFrom(tree: seq<Node>, cs: seq<nat>, x: int, y: int, c: int, i: nat): (r: Option<nat>)
    requires InTree(tree, cs) && i <= |cs|
    ensures r.Some? ==> i <= r.value < |cs| && Matches(tree, cs[r.value], x, y, c) &&
                        forall j :: i <= j < r.value ==> !Matches(tree, cs[j], x, y, c)
    ensures r.None? ==> forall j :: i <= j < |cs| ==> !Matches(tree, cs[j], x, y, c)
    decreases |cs| - i
  {
    if i == |cs| then None
    else if Matches(tree, cs[i], x, y, c) then Some(i)
    else FirstMatchFrom(tree, cs, x, y, c, i + 1)
  }

  /** The search loop of `playMove`. */
  method FindMatch(tree: seq<Node>, cs: seq<nat>, x: int, y: int, c: int) returns (r: Option<nat>)
    requires InTree(tree, cs)
    ensures r == FirstMatchFrom(tree, cs, x, y, c, 0)
  {
    var i := 0;
    while i < |cs|
      invariant 0 <= i <= |cs|
      invariant FirstMatchFrom(tree, cs, x, y, c, 0) == FirstMatchFrom(tree, cs, x, y, c, i)
    {
      var move := GetMoveFromNode(tree[cs[i]].props);
      if move.Some? && move.value.x == x && move.value.y == y && move.value.c == c {
        return Some(i);
      }
      i := i + 1;
    }
    return None;
  }

  /** The first-child chain below node k, to a leaf. */
  function FullChain(tree: seq<Node>, k: nat): (r: seq<nat>)
    requires Forward(tree) && k < |tree|
    ensures forall i :: 0 <= i < |r| ==> k < r[i] < |tree|
    ensures r == [] <==> tree[k].children == []
    decreases |tree| - k
  {
    if tree[k].children == [] then []
    else [tree[k].children[0]] + FullChain(tree, tree[k].children[0])
  }

  /** The chain walked by `_runDemo`: first children, at most `limit` of them. */
  function DemoChain(tree: seq<Node>, k: nat, limit: nat): (r: seq<nat>)
    requires Forward(tree) && k < |tree|
    ensures |r| <= limit
    ensures forall i :: 0 <= i < |r| ==> k < r[i] < |tree|
    decreases limit
  {
    if tree[k].children == [] || limit == 0 then []
    else [tree[k].children[0]] + DemoChain(tree, tree[k].children[0], limit - 1)
  }

  /** The full chain starts at k's first child, each node is its predecessor's first child, and it ends at a leaf. */
  lemma {:induction false} FullChainLinks(tree: seq<Node>, k: nat)
    requires Forward(tree) && k < |tree|
    ensures var r := FullChain(tree, k);
            && (r != [] ==> r[0] == tree[k].children[0] && tree[r[|r| - 1]].children == [])
            && forall i :: 0 <= i < |r| - 1 ==> tree[r[i]].children != [] && r[i + 1] == tree[r[i]].children[0]
    decreases |tree| - k
  {
    if tree[k].children != [] {
      FullChainLinks(tree, tree[k].children[0]);
    }
  }

  /** The demonstration plays the main line, cut after `limit` moves. */
  lemma {:induction false} DemoChainPrefix(tree: seq<Node>, k: nat, limit: nat)
    requires Forward(tree) && k < |tree|
    ensures var f := FullChain(tree, k);
            DemoChain(tree, k, limit) == f[..if limit < |f| then limit else |f|]
    decreases limit
  {
    if tree[k].children != [] && limit > 0 {
      DemoChainPrefix(tree, tree[k].children[0], limit - 1);
    }
  }

  /** The loop of `_runDemo`: follow first children while there are some and the limit allows. */
  method WalkMainLine(tree: seq<Node>, k: nat, limit0: nat) returns (sequence: seq<nat>)
    requires Forward(tree) && k < |tree|
    ensures sequence == DemoChain(tree, k, limit0)
  {
    sequence := [];
    var current: nat := k;
    var limit: nat := limit0;
    while tree[current].children != [] && limit > 0
      invariant current < |tree| && limit <= limit0
      invariant sequence + DemoChain(tree, current, limit) == DemoChain(tree, k, limit0)
      decreases limit
    {
      var next := tree[current].children[0];
      assert DemoChain(tree, current, limit) == [next] + DemoChain(tree, next, limit - 1);
      sequence := sequence + [next];
      current := next;
      limit := limit - 1;
    }
    assert sequence + [] == sequence;
  }

  /** The loop of `_triggerRefutation`: follow first children to a leaf. */
  method WalkVariation(tree: seq<Node>, k: nat) returns (sequence: seq<nat>)
    requires Forward(tree) && k < |tree|
    ensures sequence == FullChain(tree, k)
  {
    sequence := [];
    var current: nat := k;
    while tree[current].children != []
      invariant current < |tree|
      invariant sequence + FullChain(tree, current) == FullChain(tree, k)
      decreases |tree| - current
    {
      var next := tree[current].children[0];
      assert FullChain(tree, current) == [next] + FullChain(tree, next);
      sequence := sequence + [next];
      current := next;
    }
    assert sequence + [] == sequence;
  }

  function MovesOf(tree: seq<Node>, chain: seq<nat>): (r: seq<Option<Stone>>)
    requires InTree(tree, chain)
    ensures |r| == |chain|
  {
    seq(|chain|, i requires 0 <= i < |chain| => GetMoveFromNode(tree[chain[i]].props))
  }

  /** The stones of the moves that are present, in order. */
  function Present(ms: seq<Option<Stone>>): (r: seq<Stone>)
    ensures |r| <= |ms|
  {
    if ms == [] then []
    else (if ms[0].Some? then [ms[0].value] else []) + Present(ms[1..])
  }

  /** `(props.C && props.C[0]) || fallback`. */
  function CommentOr(props: Props, fallback: Feedback): Feedback {
    if "C" in props && |props["C"]| > 0 && props["C"][0] != "" then Custom(props["C"][0]) else fallback
  }

  /** `slice(0, -1)`. */
  function DropLast(b: seq<Stone>): seq<Stone> {
    if |b| == 0 then [] else b[..|b| - 1]
  }

  function Min(a: int, b: int): int {
    if a < b then a else b
  }

  predicate Occupied(board: seq<Stone>, x: int, y: int) {
    exists i :: 0 <= i < |board| && board[i].x == x && board[i].y == y
  }

  /** No two stones of the list share a point. */
  predicate DistinctPoints(board: seq<Stone>) {
    forall i, j :: 0 <= i < j < |board| ==> !(board[i].x == board[j].x && board[i].y == board[j].y)
  }

  // ---------------------------------------------------------------------
  // The refutation interval
  // ---------------------------------------------------------------------

  /**
   * What the refutation timers hold: the moves of the variation's first-child
   * chain and the interval's step with the board to restore, then the pending
   * restore, or the pending retry prompt for a variation with no reply.
   */
  datatype Replay = Replaying(moves: seq<Option<Stone>>, step: nat, saved: seq<Stone>)
                  | Restoring(saved: seq<Stone>)
                  | RetryPending

  /** One firing of the refutation interval: stop after min(len, 5) steps, else play the step's move if any. */
  function ReplayTick(board: seq<Stone>, moves: seq<Option<Stone>>, step: nat, saved: seq<Stone>): (seq<Stone>, Replay) {
    if step >= Min(|moves|, 5) then (board, Restoring(saved))
    else (if moves[step].Some? then board + [moves[step].value] else board, Replaying(moves, step + 1, saved))
  }

  /** n firings of the interval in a row. */
  function Run(board: seq<Stone>, r: Replay, n: nat): (seq<Stone>, Replay)
    decreases n
  {
    if n == 0 || !r.Replaying? then (board, r)
    else
      var t := ReplayTick(board, r.moves, r.step, r.saved);
      Run(t.0, t.1, n - 1)
  }

  lemma PresentStep(board: seq<Stone>, moves: seq<Option<Stone>>, step: nat, m: nat)
    requires step < m <= |moves|
    ensures var head := if moves[step].Some? then [moves[step].value] else [];
            (board + head) + Present(moves[step + 1..m]) == board + Present(moves[step..m])
  {
    assert moves[step..m][0] == moves[step] && moves[step..m][1..] == moves[step + 1..m];
  }

  lemma {:induction false} RunFrom(board: seq<Stone>, moves: seq<Option<Stone>>, step: nat, saved: seq<Stone>)
    requires step <= Min(|moves|, 5)
    ensures Run(board, Replaying(moves, step, saved), Min(|moves|, 5) - step + 1) ==
            (board + Present(moves[step..Min(|moves|, 5)]), Restoring(saved))
    decreases Min(|moves|, 5) - step
  {
    var m := Min(|moves|, 5);
    if step < m {
      var t := ReplayTick(board, moves, step, saved);
      RunFrom(t.0, moves, step + 1, saved);
      assert Run(board, Replaying(moves, step, saved), m - step + 1) == Run(t.0, t.1, m - step);
      var head := if moves[step].Some? then [moves[step].value] else [];
      if moves[step].None? {
        assert board + head == board;
      }
      assert t == (board + head, Replaying(moves, step + 1, saved));
      PresentStep(board, moves, step, m);
    } else {
      assert moves[step..m] == [] && Present(moves[step..m]) == [];
      assert board + Present(moves[step..m]) == board;
    }
  }

  /**
   * Left alone, the refutation interval plays the present moves among the
   * first min(len, 5) of the chain, so at most five stones, and then hands
   * over to the restore of the saved board.
   */
  lemma RefutationReplay(board: seq<Stone>, moves: seq<Option<Stone>>, saved: seq<Stone>)
    ensures var m := Min(|moves|, 5);
            && Run(board, Replaying(moves, 0, saved), m + 1) == (board + Present(moves[..m]), Restoring(saved))
            && |Present(moves[..m])| <= 5
  {
    var m := Min(|moves|, 5);
    RunFrom(board, moves, 0, saved);
    assert moves[0..m] == moves[..m];
  }

  /** The pending timers without timer k. */
  function Without(rs: seq<Replay>, k: nat): (r: seq<Replay>)
    requires k < |rs|
    ensures |r| == |rs| - 1
    ensures forall i :: 0 <= i < k ==> r[i] == rs[i]
    ensures forall i :: k <= i < |r| ==> r[i] == rs[i + 1]
  {
    rs[..k] + rs[k + 1..]
  }

  /** The demonstration interval: the main-line moves and the next step. */
  datatype Demo = NoDemo | Demoing(moves: seq<Option<Stone>>, step: nat)

  /**
   * The messages the store shows.  The store keeps the message's kind and
   * data; Text gives the exact text the source displays.
   */
  datatype Feedback = Waiting | BlackToPlay | Swapped | BlackDone | BothDoneReward | BothDone
                    | AiReply | Great | Punished | ShowRefutation | TryAgain | TryAgainCorrect
                    | NoMoves | DemoDone | ParseError
                    | StudyIntro(title: string)
                    | DemoCount(shown: Option<string>, moves: nat)
                    | Custom(text: string)

  function Text(f: Feedback): string {
    match f
    case Waiting => "等待开始..."
    case BlackToPlay => "请执黑落子"
    case Swapped => "角色互换：请执白后手 (AI 执黑)"
    case BlackDone => "黑棋通关！即将换手练习..."
    case BothDoneReward => "双色通关！奖励 20 筹码"
    case BothDone => "双色通关！"
    case AiReply => "AI 应答"
    case Great => "太棒了！"
    case Punished => "错误！看看 AI 是如何惩罚这手棋的。"
    case ShowRefutation => "演示反击变化图..."
    case TryAgain => "请重新尝试。"
    case TryAgainCorrect => "请重新尝试正确的一手。"
    case NoMoves => "错误：未能解析到定式变化手数 (No moves found)"
    case DemoDone => "演示完毕。点击“开始挑战”进行测试。"
    case ParseError => "Parse Error: Failed to parse SGF"
    case StudyIntro(title) => "正在演示：" + title + "。请仔细记忆！"
    // `${josekiMeta?.title}` prints "undefined" when there is no pattern
    case DemoCount(title, n) =>
      "正在演示：" + (if title.Some? then title.value else "undefined") + " (共 " + NatStr(n) + " 手)..."
    case Custom(text) => text
  }

  function DemoMessage(meta: Option<Pattern>, n: nat): Feedback {
    DemoCount(if meta.Some? then Some(meta.value.title) else None, n)
  }

  /** The demonstration `_runDemo` starts from node k: none when the chain is empty. */
  function DemoOf(tree: seq<Node>, k: nat): Demo
    requires Forward(tree) && k < |tree|
  {
    var chain := DemoChain(tree, k, 100);
    if chain == [] then NoDemo else Demoing(MovesOf(tree, chain), 0)
  }

  /** The candidates of `loadRandomJoseki`: every other pattern, or the whole library when there is none. */
  function Pool(library: seq<Pattern>, meta: Option<Pattern>): (r: seq<Pattern>)
    ensures forall p :: p in r ==> p in library
  {
    var others := Others(library, meta);
    if |others| > 0 then others else library
  }

  function Others(library: seq<Pattern>, meta: Option<Pattern>): (r: seq<Pattern>)
    ensures forall p :: p in r ==> p in library && (meta.Some? ==> p.id != meta.value.id)
  {
    if library == [] then []
    else
      var rest := Others(library[1..], meta);
      if meta.None? || library[0].id != meta.value.id then [library[0]] + rest else rest
  }

  /** The pick never repeats the current pattern while the library holds another one. */
  lemma {:induction false} PoolAvoidsCurrent(library: seq<Pattern>, meta: Option<Pattern>)
    requires meta.Some? && exists p :: p in library && p.id != meta.value.id
    ensures forall p :: p in Pool(library, meta) ==> p.id != meta.value.id
  {
    OthersNonEmpty(library, meta);
  }

  lemma {:induction false} OthersNonEmpty(library: seq<Pattern>, meta: Option<Pattern>)
    requires meta.Some? && exists p :: p in library && p.id != meta.value.id
    ensures |Others(library, meta)| > 0
  {
    if library[0].id == meta.value.id {
      var p :| p in library && p.id != meta.value.id;
      assert p in library[1..];
      OthersNonEmpty(library[1..], meta);
    }
  }

  // ---------------------------------------------------------------------
  // The store
  // ---------------------------------------------------------------------

  /**
   * The store's state.  zustand keeps it as one immutable record and `set`
   * replaces it by a copy with some fields changed, which is what a Dafny
   * datatype update `s.(f := v)` writes.  `tree` is the parsed tree that
   * `sgfNode` points into.
   */
  datatype GameState = GameState(chips: int, status: Status, feedback: Feedback,
                                 josekiMeta: Option<Pattern>, tree: seq<Node>, sgfNode: Option<nat>,
                                 boardState: seq<Stone>, initialStones: seq<Stone>, userColor: int,
                                 wrongMoveFlash: Option<(int, int)>)
  {
    /** The current node lies in the current tree, which is well formed, and chips are never negative. */
    predicate Valid() {
      Forward(tree) && (sgfNode.Some? ==> sgfNode.value < |tree|) && chips >= 0
    }
  }

  /** The state the store is created with. */
  const Initial: GameState := GameState(100, Welcome, Waiting, None, [], None, [], [], 1, None)

  /**
   * What `_runDemo` leaves: from no node nothing; with no main-line move only
   * an error message; otherwise the count message and an interval over the
   * moves of at most 100 main-line nodes.
   */
  function Demonstrate(s: GameState, demo: Demo): (GameState, Demo)
    requires s.Valid()
  {
    if s.sgfNode.None? then (s, demo)
    else
      var chain := DemoChain(s.tree, s.sgfNode.value, 100);
      if chain == [] then (s.(feedback := NoMoves), demo)
      else (s.(feedback := DemoMessage(s.josekiMeta, |chain|)), Demoing(MovesOf(s.tree, chain), 0))
  }

  /** The `set` both loaders make once a pattern's tree is parsed. */
  function Studying(s: GameState, nodes: seq<Node>, root: nat, pattern: Pattern): GameState
    requires root < |nodes|
  {
    var stones := SetupOf(nodes[root].props);
    s.(tree := nodes, sgfNode := Some(root), boardState := stones, initialStones := stones,
       status := Study, josekiMeta := Some(pattern), feedback := StudyIntro(pattern.title),
       wrongMoveFlash := None)
  }

  /** The end of a line: Black goes on to the colour swap, White wins and earns 20 chips. */
  function LineFinished(s: GameState): GameState {
    if s.userColor == 1 then s.(feedback := BlackDone)
    else s.(status := Win, feedback := BothDoneReward, chips := s.chips + 20)
  }

  function Deducted(chips: int, amount: int): int {
    if chips - amount < 0 then 0 else chips - amount
  }

  class GameStore {
    var state: GameState
    /**
     * The refutation timers still pending, oldest first.  Nothing in the
     * source clears an earlier replay, so each wrong move adds its own.
     */
    var refutations: seq<Replay>
    /** The demonstration interval. */
    var demo: Demo

    predicate Valid()
      reads this
    {
      state.Valid()
    }

    constructor()
      ensures Valid() && state == Initial && refutations == [] && demo == NoDemo
    {
      state := Initial;
      refutations := [];
      demo := NoDemo;
    }

    /** `deductChips`: never below zero. */
    method DeductChips(amount: int)
      requires Valid()
      modifies this
      ensures Valid()
      ensures state == old(state).(chips := Deducted(old(state).chips, amount))
      ensures refutations == old(refutations) && demo == old(demo)
    {
      state := state.(chips := Deducted(state.chips, amount));
    }

    /** `_runDemo`: collect at most 100 main-line moves and start the interval. */
    method RunDemo()
      requires Valid()
      modifies this
      ensures Valid()
      ensures (state, demo) == Demonstrate(old(state), old(demo))
      ensures refutations == old(refutations)
    {
      if state.sgfNode.None? {
        return;
      }
      var sequence := WalkMainLine(state.tree, state.sgfNode.value, 100);
      if sequence == [] {
        state := state.(feedback := NoMoves);
        return;
      }
      state := state.(feedback := DemoMessage(state.josekiMeta, |sequence|));
      demo := Demoing(MovesOf(state.tree, sequence), 0);
    }

    /**
     * One firing of the demonstration interval: it stops once the store has
     * left STUDY or the moves are used up, and otherwise plays the step's
     * move unless its point is already taken.
     */
    method DemoStep()
      requires Valid()
      modifies this
      ensures Valid()
      ensures old(demo).NoDemo? ==> state == old(state) && demo == old(demo)
      ensures old(demo).Demoing? && old(state).status != Study ==> state == old(state) && demo == NoDemo
      ensures old(demo).Demoing? && old(state).status == Study && old(demo).step >= |old(demo).moves| ==>
                state == old(state).(feedback := DemoDone) && demo == NoDemo
      ensures old(demo).Demoing? && old(state).status == Study && old(demo).step < |old(demo).moves| ==>
                var m := old(demo).moves[old(demo).step];
                var b := old(state).boardState;
                && demo == Demoing(old(demo).moves, old(demo).step + 1)
                && state == old(state).(boardState := if m.Some? && !Occupied(b, m.value.x, m.value.y)
                                                      then b + [m.value] else b)
      ensures DistinctPoints(old(state).boardState) ==> DistinctPoints(state.boardState)
      ensures refutations == old(refutations)
    {
      if demo.NoDemo? {
        return;
      }
      if state.status != Study {
        demo := NoDemo;
        return;
      }
      if demo.step >= |demo.moves| {
        demo := NoDemo;
        state := state.(feedback := DemoDone);
        return;
      }
      var move := demo.moves[demo.step];
      if move.Some? {
        var taken := false;
        var i := 0;
        while i < |state.boardState|
          invariant 0 <= i <= |state.boardState|
          invariant taken <==> exists j :: 0 <= j < i && state.boardState[j].x == move.value.x &&
                                                      state.boardState[j].y == move.value.y
        {
          if state.boardState[i].x == move.value.x && state.boardState[i].y == move.value.y {
            taken := true;
          }
          i := i + 1;
        }
        if !taken {
          state := state.(boardState := state.boardState + [move.value]);
        }
      }
      demo := Demoing(demo.moves, demo.step + 1);
    }

    /** The state both loaders set, followed by `_runDemo`. */
    method BeginStudy(nodes: seq<Node>, root: nat, pattern: Pattern)
      requires Valid() && Forward(nodes) && root < |nodes|
      modifies this
      ensures Valid()
      ensures (state, demo) == Demonstrate(Studying(old(state), nodes, root, pattern), old(demo))
      ensures refutations == old(refutations)
    {
      var stones := GetSetupStones(nodes[root].props);
      state := state.(tree := nodes, sgfNode := Some(root), boardState := stones, initialStones := stones,
                      status := Study, josekiMeta := Some(pattern), feedback := StudyIntro(pattern.title),
                      wrongMoveFlash := None);
      RunDemo();
    }

    /** `loadSGF`: a text with no game tree changes nothing (the error is caught). */
    method LoadSgf(sgfContent: string, title: string)
      requires Valid()
      modifies this
      ensures Valid()
      ensures Parse(sgfContent).root.None? ==> state == old(state) && demo == old(demo)
      ensures Parse(sgfContent).root.Some? ==>
                var p := Parse(sgfContent);
                && Forward(p.nodes) && p.root.value < |p.nodes|
                && (state, demo) == Demonstrate(Studying(old(state), p.nodes, p.root.value,
                                                         Pattern("custom", title, sgfContent)), old(demo))
      ensures refutations == old(refutations)
    {
      var nodes, root := ParseSgf(sgfContent);
      ParseShape(sgfContent);
      if root.None? {
        return;
      }
      WellLinkedForward(nodes);
      BeginStudy(nodes, root.value, Pattern("custom", title, sgfContent));
    }

    /**
     * `loadRandomJoseki` with the random index as a parameter: it is below
     * the size of the pool, which skips the current pattern when it can.
     */
    method LoadRandomJoseki(library: seq<Pattern>, choice: nat)
      requires Valid()
      requires choice < |Pool(library, state.josekiMeta)|
      modifies this
      ensures Valid()
      ensures var pattern := Pool(library, old(state).josekiMeta)[choice];
              var p := Parse(pattern.sgf);
              && (p.root.None? ==> state == old(state).(feedback := ParseError) && demo == old(demo))
              && (p.root.Some? ==>
                    && Forward(p.nodes) && p.root.value < |p.nodes|
                    && (state, demo) == Demonstrate(Studying(old(state), p.nodes, p.root.value, pattern), old(demo)))
      ensures refutations == old(refutations)
    {
      var pattern := Pool(library, state.josekiMeta)[choice];
      var nodes, root := ParseSgf(pattern.sgf);
      ParseShape(pattern.sgf);
      if root.None? {
        state := state.(feedback := ParseError);
        return;
      }
      WellLinkedForward(nodes);
      BeginStudy(nodes, root.value, pattern);
    }

    /**
     * `startChallenge(color)`: with a pattern loaded, re-parse it so that the
     * walk restarts at the root, and play from the setup stones.
     */
    method StartChallenge(color: int)
      requires Valid()
      modifies this
      ensures Valid()
      ensures old(state).josekiMeta.None? ==> state == old(state)
      ensures old(state).josekiMeta.Some? ==>
                var p := Parse(old(state).josekiMeta.value.sgf);
                state == old(state).(status := Playing, userColor := color, tree := p.nodes, sgfNode := p.root,
                                     boardState := old(state).initialStones,
                                     feedback := if color == 1 then BlackToPlay else Swapped)
      ensures refutations == old(refutations) && demo == old(demo)
    {
      if state.josekiMeta.None? {
        return;
      }
      var nodes, root := ParseSgf(state.josekiMeta.value.sgf);
      ParseShape(state.josekiMeta.value.sgf);
      WellLinkedForward(nodes);
      state := state.(status := Playing, userColor := color, tree := nodes, sgfNode := root,
                      boardState := state.initialStones,
                      feedback := if color == 1 then BlackToPlay else Swapped);
    }

    /**
     * `checkAiTurn`: at a leaf the line is finished; otherwise the first
     * child is played when it is the opponent's move, nothing happens when it
     * is the user's, and anything else ends the line without the reward.
     * The 20-chip reward comes only with WIN on a finished line.
     */
    method CheckAiTurn()
      requires Valid()
      modifies this
      ensures Valid()
      ensures var s := old(state);
              var leaf := s.sgfNode.None? || s.tree[s.sgfNode.value].children == [];
              && (leaf ==> state == LineFinished(s))
              && (!leaf ==>
                    var n := s.tree[s.sgfNode.value].children[0];
                    var m := GetMoveFromNode(s.tree[n].props);
                    && (m.Some? && m.value.c == -s.userColor ==>
                          var s1 := s.(boardState := s.boardState + [m.value], sgfNode := Some(n),
                                       feedback := CommentOr(s.tree[n].props, AiReply));
                          state == if s.tree[n].children == [] then LineFinished(s1) else s1)
                    && (m.Some? && m.value.c != -s.userColor && m.value.c == s.userColor ==> state == s)
                    && (!(m.Some? && (m.value.c == -s.userColor || m.value.c == s.userColor)) ==>
                          state == if s.userColor == 1 then s.(feedback := BlackDone)
                                   else s.(status := Win, feedback := BothDone)))
      ensures state.chips != old(state).chips ==>
                state.chips == old(state).chips + 20 && old(state).userColor != 1 &&
                state.status == Win && state.feedback == BothDoneReward
      ensures refutations == old(refutations) && demo == old(demo)
    {
      if state.sgfNode.None? || state.tree[state.sgfNode.value].children == [] {
        state := LineFinished(state);
        return;
      }
      var nextNode := state.tree[state.sgfNode.value].children[0];
      var move := GetMoveFromNode(state.tree[nextNode].props);
      if move.Some? && move.value.c == -state.userColor {
        state := state.(boardState := state.boardState + [move.value], sgfNode := Some(nextNode),
                        feedback := CommentOr(state.tree[nextNode].props, AiReply));
        if state.tree[nextNode].children == [] {
          state := LineFinished(state);
        }
      } else if move.Some? && move.value.c == state.userColor {
      } else {
        if state.userColor == 1 {
          state := state.(feedback := BlackDone);
        } else {
          state := state.(status := Win, feedback := BothDone);
        }
      }
    }

    /**
     * `_triggerRefutation`: show the variation's comment, collect its whole
     * first-child chain and start the replay, remembering the board without
     * its last stone; an empty chain only schedules the retry prompt.
     */
    method TriggerRefutation(variation: nat)
      requires Valid() && variation < |state.tree|
      modifies this
      ensures Valid()
      ensures state == old(state).(status := Refutation,
                                   feedback := CommentOr(old(state).tree[variation].props, ShowRefutation))
      ensures var chain := FullChain(old(state).tree, variation);
              refutations == old(refutations) +
                             [if chain == [] then RetryPending
                              else Replaying(MovesOf(old(state).tree, chain), 0, DropLast(old(state).boardState))]
      ensures demo == old(demo)
    {
      state := state.(status := Refutation, feedback := CommentOr(state.tree[variation].props, ShowRefutation));
      var sequence := WalkVariation(state.tree, variation);
      if sequence == [] {
        refutations := refutations + [RetryPending];
        return;
      }
      refutations := refutations + [Replaying(MovesOf(state.tree, sequence), 0, DropLast(state.boardState))];
    }

    /**
     * Pending refutation timer k fires: a replay step, the restore of that
     * replay's saved board, or the retry prompt.  The other timers stay.
     */
    method RefutationStep(k: nat)
      requires Valid() && k < |refutations|
      modifies this
      ensures Valid()
      ensures old(refutations[k]).RetryPending? ==>
                state == old(state).(feedback := TryAgain, status := Playing) &&
                refutations == Without(old(refutations), k)
      ensures old(refutations[k]).Replaying? ==>
                var r := old(refutations[k]);
                var t := ReplayTick(old(state).boardState, r.moves, r.step, r.saved);
                && refutations == old(refutations)[k := t.1]
                && state == if t.0 == old(state).boardState then old(state)
                            else old(state).(boardState := t.0, wrongMoveFlash := None)
      ensures old(refutations[k]).Restoring? ==>
                state == old(state).(boardState := old(refutations[k]).saved, status := Playing,
                                     feedback := TryAgainCorrect) &&
                refutations == Without(old(refutations), k)
      ensures demo == old(demo)
    {
      match refutations[k] {
        case RetryPending =>
          state := state.(feedback := TryAgain, status := Playing);
          refutations := Without(refutations, k);
        case Replaying(moves, step, saved) =>
          if step >= Min(|moves|, 5) {
            refutations := refutations[k := Restoring(saved)];
          } else {
            var move := moves[step];
            if move.Some? {
              state := state.(boardState := state.boardState + [move.value], wrongMoveFlash := None);
            }
            refutations := refutations[k := Replaying(moves, step + 1, saved)];
          }
        case Restoring(saved) =>
          state := state.(boardState := saved, status := Playing, feedback := TryAgainCorrect);
          refutations := Without(refutations, k);
      }
    }

    /**
     * `playMove(x, y)`: only while PLAYING.  The first child whose move is
     * (x, y) in the user's colour is the match; the main line (child 0)
     * advances with praise, another child advances, costs 20 chips and
     * starts its refutation, which will restore the board as it was before
     * this move; no match costs 20 chips and changes neither the board nor
     * the node.
     */
    method PlayMove(x: int, y: int)
      requires Valid()
      modifies this
      ensures Valid()
      ensures old(state).status != Playing || old(state).sgfNode.None? ==>
                state == old(state) && refutations == old(refutations)
      ensures var s := old(state);
              s.status == Playing && s.sgfNode.Some? ==>
                var cs := s.tree[s.sgfNode.value].children;
                var fm := FirstMatchFrom(s.tree, cs, x, y, s.userColor, 0);
                var played := s.boardState + [Stone(x, y, s.userColor)];
                && (fm == Some(0) ==>
                      state == s.(boardState := played, sgfNode := Some(cs[0]), wrongMoveFlash := None,
                                  feedback := Great) &&
                      refutations == old(refutations))
                && (fm.Some? && fm.value > 0 ==>
                      var v := cs[fm.value];
                      var chain := FullChain(s.tree, v);
                      && state == s.(boardState := played, sgfNode := Some(v), wrongMoveFlash := Some((x, y)),
                                     chips := Deducted(s.chips, 20), status := Refutation,
                                     feedback := CommentOr(s.tree[v].props, ShowRefutation))
                      && refutations == old(refutations) +
                                        [if chain == [] then RetryPending
                                         else Replaying(MovesOf(s.tree, chain), 0, s.boardState)])
                && (fm.None? ==>
                      state == s.(wrongMoveFlash := Some((x, y)), chips := Deducted(s.chips, 20), feedback := Punished) &&
                      refutations == old(refutations))
      ensures demo == old(demo)
    {
      if state.status != Playing || state.sgfNode.None? {
        return;
      }
      var children := state.tree[state.sgfNode.value].children;
      var found := FindMatch(state.tree, children, x, y, state.userColor);
      if found.Some? {
        var m := children[found.value];
        state := state.(boardState := state.boardState + [Stone(x, y, state.userColor)], sgfNode := Some(m),
                        wrongMoveFlash := None);
        if found.value == 0 {
          state := state.(feedback := Great);
        } else {
          state := state.(wrongMoveFlash := Some((x, y)));
          DeductChips(20);
          TriggerRefutation(m);
        }
      } else {
        state := state.(wrongMoveFlash := Some((x, y)));
        DeductChips(20);
        state := state.(feedback := Punished);
      }
    }

    /** The timeout after a miss clears the flash. */
    method ClearFlash()
      requires Valid()
      modifies this
      ensures Valid()
      ensures state == old(state).(wrongMoveFlash := None)
      ensures refutations == old(refutations) && demo == old(demo)
    {
      state := state.(wrongMoveFlash := None);
    }

    /** `enterWelcome`. */
    method EnterWelcome()
      requires Valid()
      modifies this
      ensures Valid()
      ensures state == old(state).(status := Welcome, boardState := [], sgfNode := None, initialStones := [])
      ensures refutations == old(refutations) && demo == old(demo)
    {
      state := state.(status := Welcome, boardState := [], sgfNode := None, initialStones := []);
    }

    /** `setFeedback`. */
    method SetFeedback(msg: string)
      requires Valid()
      modifies this
      ensures Valid()
      ensures state == old(state).(feedback := Custom(msg))
      ensures refutations == old(refutations) && demo == old(demo)
    {
      state := state.(feedback := Custom(msg));
    }

    /** `reset`. */
    method Reset()
      requires Valid()
      modifies this
      ensures Valid()
      ensures state == old(state).(status := Welcome)
      ensures refutations == old(refutations) && demo == old(demo)
    {
      state := state.(status := Welcome);
    }
  }
}
