/**
 * The stand-alone replay script parse_sgf_bg.py: it extracts the moves of an
 * SGF record with a regular expression, replays the first 80 of them on a
 * 19x19 two-dimensional board with captures, and lists the stones left.
 *
 * The board is an `array2<int>` indexed [row, column] like the script's
 * `board[y][x]`; a cell holds 0 for the script's `None`, 1 for `'B'` and -1
 * for `'W'`.  Its occupied cells, read as a `Board` map, connect it to the
 * group theory of module Grid.
 */
module SgfReplay {
  import opened Grid

  /** Every cell of the board. */
  function Cells(): set<Coord> {
    set x: int, y: int | 0 <= x < Size && 0 <= y < Size :: Coord(x, y)
  }

  lemma CellsOnBoard(p: Coord)
    ensures p in Cells() <==> OnBoard(p)
  {
    if OnBoard(p) { assert p == Coord(p.x, p.y); }
  }

  predicate IsGrid(a: array2<int>) {
    a.Length0 == Size && a.Length1 == Size
  }

  /** The occupied cells of the array, with their colours. */
  function Snapshot(a: array2<int>): (b: Board)
    reads a
    requires IsGrid(a)
    ensures forall p :: p in b ==> OnBoard(p)
  {
    forall p | p in Cells() ensures OnBoard(p) { CellsOnBoard(p); }
    map p | p in Cells() && a[p.y, p.x] != 0 :: a[p.y, p.x]
  }

  lemma SnapshotAt(a: array2<int>, p: Coord)
    requires IsGrid(a) && OnBoard(p)
    ensures p in Snapshot(a) <==> a[p.y, p.x] != 0
    ensures p in Snapshot(a) ==> Snapshot(a)[p] == a[p.y, p.x]
  {
    CellsOnBoard(p);
  }

  /** The empty neighbours of q. */
  ghost function EmptyNeighbours(b: Board, q: Coord): set<Coord> {
    set p | p in Neighbors(q) && p !in b
  }

  lemma LibertiesAdd(b: Board, g: set<Coord>, q: Coord)
    ensures Liberties(b, g + {q}) == Liberties(b, g) + EmptyNeighbours(b, q)
  {
  }

  /**
   * The body of the script's neighbour loop for one popped point q: empty
   * neighbours become liberties, unvisited neighbours of the group's colour
   * are pushed.
   */
  method ScanPoint(board: array2<int>, ghost b: Board, color: int, q: Coord, visited: set<Coord>,
                   liberties: set<Coord>, stack: seq<Coord>)
    returns (liberties': set<Coord>, stack': seq<Coord>)
    requires IsGrid(board) && b == Snapshot(board) && OnBoard(q)
    ensures liberties' == liberties + EmptyNeighbours(b, q)
    ensures Elems(stack') == Elems(stack) + (SameColourNeighbours(b, color, q) - visited)
  {
    var nbs := Neighbors(q);
    NeighborsOnBoard(q);
    liberties', stack' := liberties, stack;
    for j := 0 to |nbs|
      invariant liberties' == liberties + set p | p in nbs[..j] && p !in b
      invariant Elems(stack') == Elems(stack) + set p | p in nbs[..j] && p in b && b[p] == color && p !in visited
    {
      var p := nbs[j];
      SnapshotAt(board, p);
      assert nbs[..j + 1] == nbs[..j] + [p];
      if board[p.y, p.x] == 0 {
        liberties' := liberties' + {p};
      } else if board[p.y, p.x] == color && p !in visited {
        assert Elems(stack' + [p]) == Elems(stack') + {p};
        stack' := stack' + [p];
      }
    }
    assert nbs[..|nbs|] == nbs;
  }

  /**
   * The state of the script's flood fill: `visited` holds the popped points,
   * everything seen lies in the group g, and each visited point has all its
   * same-coloured neighbours either visited or still on the stack.
   */
  ghost predicate PopInv(b: Board, color: int, g: set<Coord>, start: Coord,
                         visited: set<Coord>, stack: seq<Coord>, liberties: set<Coord>) {
    && visited + Elems(stack) <= g
    && start in visited + Elems(stack)
    && liberties == Liberties(b, visited)
    && forall q {:trigger ClosedAt(b, color, q, visited + Elems(stack))} ::
         q in visited ==> ClosedAt(b, color, q, visited + Elems(stack))
  }

  lemma ElemsPop(stack: seq<Coord>)
    requires stack != []
    ensures Elems(stack) == Elems(stack[..|stack| - 1]) + {stack[|stack| - 1]}
  {
    assert stack == stack[..|stack| - 1] + [stack[|stack| - 1]];
  }

  /** Popping a point that was already visited changes nothing that matters. */
  lemma PopVisited(b: Board, color: int, g: set<Coord>, start: Coord,
                   visited: set<Coord>, stack: seq<Coord>, liberties: set<Coord>)
    requires PopInv(b, color, g, start, visited, stack, liberties)
    requires stack != [] && stack[|stack| - 1] in visited
    ensures PopInv(b, color, g, start, visited, stack[..|stack| - 1], liberties)
  {
    ElemsPop(stack);
    assert visited + Elems(stack[..|stack| - 1]) == visited + Elems(stack);
  }

  /** Visiting a new point keeps the invariant and shrinks what is left of g. */
  lemma PopNew(b: Board, color: int, g: set<Coord>, start: Coord,
               visited: set<Coord>, stack: seq<Coord>, liberties: set<Coord>,
               liberties': set<Coord>, stack': seq<Coord>)
    requires PopInv(b, color, g, start, visited, stack, liberties)
    requires Closed(b, color, g)
    requires stack != [] && stack[|stack| - 1] !in visited
    requires liberties' == liberties + EmptyNeighbours(b, stack[|stack| - 1])
    requires Elems(stack') == Elems(stack[..|stack| - 1]) +
               (SameColourNeighbours(b, color, stack[|stack| - 1]) - (visited + {stack[|stack| - 1]}))
    ensures PopInv(b, color, g, start, visited + {stack[|stack| - 1]}, stack', liberties')
    ensures |g - (visited + {stack[|stack| - 1]})| < |g - visited|
  {
    var q := stack[|stack| - 1];
    var visited' := visited + {q};
    ElemsPop(stack);
    LibertiesAdd(b, visited, q);
    var before := visited + Elems(stack);
    var after := visited' + Elems(stack');
    assert before <= after;
    assert ClosedAt(b, color, q, g);
    assert after <= g;
    forall p | p in visited' ensures ClosedAt(b, color, p, after) {
      if p == q {
        assert SameColourNeighbours(b, color, q) <= after;
      } else {
        assert ClosedAt(b, color, p, before);
        ClosedAtMono(b, color, p, before, after);
      }
    }
    assert g - visited' < g - visited by { assert q in g - visited; }
    ProperSubsetCard(g - visited', g - visited);
  }

  /** An exhausted stack means the visited points are the whole group. */
  lemma PopDone(b: Board, color: int, g: set<Coord>, start: Coord,
                visited: set<Coord>, liberties: set<Coord>)
    requires IsGroup(b, start, color, g)
    requires PopInv(b, color, g, start, visited, [], liberties)
    ensures visited == g
  {
    assert visited + Elems([]) == visited;
    assert Closed(b, color, visited);
  }

  /**
   * `group_liberties`: an empty point yields no group and no liberties;
   * otherwise the result is the point's connected group and the number of
   * distinct empty points next to it.
   */
  method GroupLiberties(board: array2<int>, x: int, y: int) returns (group: set<Coord>, libs: int)
    requires IsGrid(board) && 0 <= x < Size && 0 <= y < Size
    ensures board[y, x] == 0 ==> group == {} && libs == 0
    ensures board[y, x] != 0 ==>
              group == Group(Snapshot(board), Coord(x, y), board[y, x]) &&
              libs == |Liberties(Snapshot(board), group)|
  {
    var color := board[y, x];
    if color == 0 {
      return {}, 0;
    }
    ghost var b := Snapshot(board);
    var start := Coord(x, y);
    ghost var g := SomeGroup(b, start, color);
    IsGroupUnique(b, start, color, g);
    GroupOnBoard(b, start, color);
    var visited: set<Coord> := {};
    var liberties: set<Coord> := {};
    var stack := [start];
    while stack != []
      invariant PopInv(b, color, g, start, visited, stack, liberties)
      decreases |g - visited|, |stack|
    {
      var q := stack[|stack| - 1];
      if q in visited {
        PopVisited(b, color, g, start, visited, stack, liberties);
        stack := stack[..|stack| - 1];
        continue;
      }
      ghost var oldStack, oldLiberties := stack, liberties;
      stack := stack[..|stack| - 1];
      assert q in g by { ElemsPop(oldStack); }
      liberties, stack := ScanPoint(board, b, color, q, visited + {q}, liberties, stack);
      PopNew(b, color, g, start, visited, oldStack, oldLiberties, liberties, stack);
      visited := visited + {q};
    }
    PopDone(b, color, g, start, visited, liberties);
    group, libs := visited, |liberties|;
  }

  /** A stone of colour c whose group has no empty neighbour. */
  ghost predicate Dead(b: Board, c: int, p: Coord) {
    p in b && b[p] == c && !HasLiberty(b, Group(b, p, c))
  }

  ghost function DeadStones(b: Board, c: int): set<Coord> {
    set p | p in b && Dead(b, c, p)
  }

  /** The board left once every dead stone of colour c is cleared. */
  ghost function RemoveDead(b: Board, c: int): (r: Board)
    ensures r.Keys <= b.Keys
    ensures forall p :: p in b && b[p] != c ==> p in r && r[p] == b[p]
    ensures forall p :: p in b && b[p] == c ==> (p in r <==> HasLiberty(b, Group(b, p, c)))
  {
    map p | p in b && !Dead(b, c, p) :: b[p]
  }

  /** Each member of a dead group is itself dead, so the script may clear the whole group. */
  lemma DeadGroup(b: Board, c: int, p: Coord)
    requires OnBoard(p) && Dead(b, c, p)
    ensures Group(b, p, c) <= DeadStones(b, c)
  {
    GroupColour(b, p, c);
    forall q | q in Group(b, p, c) ensures q in DeadStones(b, c) {
      GroupOfMember(b, p, c, q);
    }
  }

  /** `captured.extend(group)`: the group's points are appended, in some order. */
  method Extend(captured: seq<Coord>, group: set<Coord>) returns (r: seq<Coord>)
    ensures Elems(r) == Elems(captured) + group
    ensures |captured| <= |r| && r[..|captured|] == captured
  {
    r := captured;
    var rest := group;
    while rest != {}
      invariant Elems(r) + rest == Elems(captured) + group
      invariant |captured| <= |r| && r[..|captured|] == captured
      decreases |rest|
    {
      var p :| p in rest;
      assert Elems(r + [p]) == Elems(r) + {p};
      assert (r + [p])[..|captured|] == r[..|captured|];
      r := r + [p];
      rest := rest - {p};
    }
  }

  /**
   * The scanning half of `remove_captured`: every stone of colour c is
   * looked at row by row, and the groups found without liberties are
   * collected.  The board itself is not changed while scanning.
   */
  method CollectCaptured(board: array2<int>, color: int) returns (captured: seq<Coord>)
    requires IsGrid(board)
    ensures Elems(captured) == DeadStones(Snapshot(board), color)
  {
    ghost var b := Snapshot(board);
    captured := [];
    for y := 0 to Size
      invariant Elems(captured) <= DeadStones(b, color)
      invariant forall p :: p in b && p.y < y && Dead(b, color, p) ==> p in Elems(captured)
    {
      for x := 0 to Size
        invariant Elems(captured) <= DeadStones(b, color)
        invariant forall p :: p in b && (p.y < y || (p.y == y && p.x < x)) && Dead(b, color, p) ==>
                               p in Elems(captured)
      {
        var p := Coord(x, y);
        SnapshotAt(board, p);
        if board[y, x] == color {
          var group, libs := GroupLiberties(board, x, y);
          LibertiesNonEmpty(b, group);
          if libs == 0 {
            if color != 0 {
              DeadGroup(b, color, p);
              GroupHasStart(b, p, color);
            }
            captured := Extend(captured, group);
          }
        }
      }
    }
  }

  /** The clearing half of `remove_captured`: each collected point becomes empty. */
  method ClearCells(board: array2<int>, captured: seq<Coord>)
    requires IsGrid(board)
    requires forall i :: 0 <= i < |captured| ==> OnBoard(captured[i])
    modifies board
    ensures forall x, y :: 0 <= x < Size && 0 <= y < Size ==>
              board[y, x] == if Coord(x, y) in Elems(captured) then 0 else old(board[y, x])
  {
    for i := 0 to |captured|
      invariant forall x, y :: 0 <= x < Size && 0 <= y < Size ==>
                  board[y, x] == if Coord(x, y) in Elems(captured[..i]) then 0 else old(board[y, x])
    {
      var p := captured[i];
      assert captured[..i + 1] == captured[..i] + [p];
      board[p.y, p.x] := 0;
    }
    assert captured[..|captured|] == captured;
  }

  /**
   * `remove_captured`: exactly the dead stones of colour c are cleared,
   * judged on the board as it was before any was removed.
   */
  method RemoveCaptured(board: array2<int>, color: int)
    requires IsGrid(board)
    modifies board
    ensures Snapshot(board) == RemoveDead(old(Snapshot(board)), color)
  {
    ghost var b := Snapshot(board);
    var captured := CollectCaptured(board, color);
    forall i | 0 <= i < |captured| ensures OnBoard(captured[i]) {
      assert captured[i] in Elems(captured);
    }
    ClearCells(board, captured);
    forall p ensures (p in Snapshot(board)) == (p in RemoveDead(b, color)) {
      if OnBoard(p) {
        SnapshotAt(board, p);
      }
    }
    forall p | p in Snapshot(board) ensures Snapshot(board)[p] == RemoveDead(b, color)[p] {
      SnapshotAt(board, p);
    }
  }

  /**
   * After the clearing, every remaining stone of colour c belongs to a group
   * that still has a liberty: its group is the same as before, and the
   * points that were empty are still empty.
   */
  lemma RemoveDeadLeavesLiving(b: Board, c: int, p: Coord)
    requires forall q :: q in b ==> OnBoard(q)
    requires p in RemoveDead(b, c) && RemoveDead(b, c)[p] == c
    ensures HasLiberty(RemoveDead(b, c), Group(RemoveDead(b, c), p, c))
  {
    var b' := RemoveDead(b, c);
    var g := Group(b, p, c);
    GroupColour(b, p, c);
    forall q | q in g ensures q in b' && b'[q] == c {
      GroupOfMember(b, p, c, q);
    }
    forall q | q in g ensures ClosedAt(b', c, q, g) {
      assert ClosedAt(b, c, q, g);
    }
    GroupLeast(b', p, c, g);
    var t := Group(b', p, c);
    forall q | q in t ensures ClosedAt(b, c, q, t) {
      assert ClosedAt(b', c, q, t);
      assert ClosedAt(b, c, q, g);
    }
    GroupLeast(b, p, c, t);
    var q :| q in g && LibertyAt(b, q);
    var r :| r in Neighbors(q) && r !in b;
    assert LibertyAt(b', q);
  }

  /** One match of the move pattern `;([BW])\[([a-s]{2})\]`: a colour and a two-letter point. */
  datatype SgfMove = SgfMove(colour: char, pos: string)

  predicate PointLetter(ch: char) {
    'a' <= ch <= 's'
  }

  predicate ValidMove(m: SgfMove) {
    (m.colour == 'B' || m.colour == 'W') && |m.pos| == 2 && PointLetter(m.pos[0]) && PointLetter(m.pos[1])
  }

  /** The pattern matches the six characters at the head of s. */
  predicate MatchesAt(s: string) {
    |s| >= 6 && s[0] == ';' && (s[1] == 'B' || s[1] == 'W') && s[2] == '[' &&
    PointLetter(s[3]) && PointLetter(s[4]) && s[5] == ']'
  }

  /**
   * `re.findall` with the move pattern: scanning left to right, each match
   * is taken and scanning resumes after it; elsewhere one character is
   * skipped.
   */
  function FindMoves(s: string): (ms: seq<SgfMove>)
    ensures forall i :: 0 <= i < |ms| ==> ValidMove(ms[i])
    decreases |s|
  {
    if |s| < 6 then []
    else if MatchesAt(s) then [SgfMove(s[1], s[3..5])] + FindMoves(s[6..])
    else FindMoves(s[1..])
  }

  /** The text of one move node, such as `;B[pd]`. */
  function MoveText(m: SgfMove): string
    requires ValidMove(m)
  {
    [';', m.colour, '['] + m.pos + [']']
  }

  function MovesText(ms: seq<SgfMove>): string
    requires forall i :: 0 <= i < |ms| ==> ValidMove(ms[i])
  {
    if ms == [] then [] else MoveText(ms[0]) + MovesText(ms[1..])
  }

  /** The pattern reads back exactly the moves of a record written as move nodes. */
  lemma {:induction false} FindMovesText(ms: seq<SgfMove>)
    requires forall i :: 0 <= i < |ms| ==> ValidMove(ms[i])
    ensures FindMoves(MovesText(ms)) == ms
  {
    if ms != [] {
      var t := MovesText(ms);
      var m := ms[0];
      assert t == MoveText(m) + MovesText(ms[1..]);
      assert MatchesAt(t);
      assert t[6..] == MovesText(ms[1..]);
      assert t[3..5] == m.pos;
      FindMovesText(ms[1..]);
      assert ms == [m] + ms[1..];
    }
  }

  /** Column and row of a move: each letter's offset from `a`. */
  function MoveCoord(m: SgfMove): (p: Coord)
    requires ValidMove(m)
    ensures OnBoard(p)
  {
    Coord(m.pos[0] as int - 'a' as int, m.pos[1] as int - 'a' as int)
  }

  function StoneValue(colour: char): int {
    if colour == 'B' then 1 else -1
  }

  /** The colour whose dead stones are cleared after a move: the other one. */
  function Opponent(colour: char): char {
    if colour == 'B' then 'W' else 'B'
  }

  /** One replay step on the board as a map: place the stone, then clear dead opponents. */
  ghost function PlayOn(b: Board, m: SgfMove): Board
    requires ValidMove(m)
  {
    RemoveDead(b[MoveCoord(m) := StoneValue(m.colour)], StoneValue(Opponent(m.colour)))
  }

  ghost function ReplayOn(b: Board, ms: seq<SgfMove>): Board
    requires forall i :: 0 <= i < |ms| ==> ValidMove(ms[i])
  {
    if ms == [] then b else PlayOn(ReplayOn(b, ms[..|ms| - 1]), ms[|ms| - 1])
  }

  /**
   * After a step the opponent has no dead stone left, and no stone of the
   * mover, the new one included, was removed.
   */
  lemma PlayOnResult(b: Board, m: SgfMove)
    requires ValidMove(m) && forall q :: q in b ==> OnBoard(q)
    ensures var c := StoneValue(Opponent(m.colour));
            forall p :: p in PlayOn(b, m) && PlayOn(b, m)[p] == c ==>
              HasLiberty(PlayOn(b, m), Group(PlayOn(b, m), p, c))
    ensures MoveCoord(m) in PlayOn(b, m) && PlayOn(b, m)[MoveCoord(m)] == StoneValue(m.colour)
    ensures forall p :: p in b && p != MoveCoord(m) && b[p] == StoneValue(m.colour) ==>
              p in PlayOn(b, m) && PlayOn(b, m)[p] == b[p]
  {
    var placed := b[MoveCoord(m) := StoneValue(m.colour)];
    var c := StoneValue(Opponent(m.colour));
    forall p | p in PlayOn(b, m) && PlayOn(b, m)[p] == c
      ensures HasLiberty(PlayOn(b, m), Group(PlayOn(b, m), p, c))
    {
      RemoveDeadLeavesLiving(placed, c, p);
    }
  }

  /** Places a stone on the array: `board[row][col] = color`. */
  method PlaceStone(board: array2<int>, m: SgfMove)
    requires IsGrid(board) && ValidMove(m)
    modifies board
    ensures Snapshot(board) == old(Snapshot(board))[MoveCoord(m) := StoneValue(m.colour)]
  {
    ghost var b := Snapshot(board);
    var p := MoveCoord(m);
    board[p.y, p.x] := StoneValue(m.colour);
    forall q ensures (q in Snapshot(board)) == (q in b[p := StoneValue(m.colour)]) {
      if OnBoard(q) {
        SnapshotAt(board, q);
      }
    }
    forall q | q in Snapshot(board) ensures Snapshot(board)[q] == b[p := StoneValue(m.colour)][q] {
      SnapshotAt(board, q);
    }
  }

  /** The replay loop: the first 80 moves, each placed and followed by the opponent's captures. */
  method Replay(board: array2<int>, moves: seq<SgfMove>)
    requires IsGrid(board) && forall i :: 0 <= i < |moves| ==> ValidMove(moves[i])
    modifies board
    ensures Snapshot(board) == ReplayOn(old(Snapshot(board)), moves[..if |moves| < 80 then |moves| else 80])
  {
    ghost var b := Snapshot(board);
    var n := if |moves| < 80 then |moves| else 80;
    for i := 0 to n
      invariant Snapshot(board) == ReplayOn(b, moves[..i])
    {
      var m := moves[i];
      assert moves[..i + 1][..i] == moves[..i];
      PlaceStone(board, m);
      RemoveCaptured(board, StoneValue(Opponent(m.colour)));
    }
  }

  /** One output line: the stone's tag, `b` or `w`, and its point. */
  datatype Placement = Placement(t: char, x: int, y: int)

  /** p comes strictly before q when reading rows top to bottom, each left to right. */
  predicate RowMajorBefore(p: Placement, q: Placement) {
    p.y < q.y || (p.y == q.y && p.x < q.x)
  }

  function Tag(v: int): char {
    if v == 1 then 'b' else 'w'
  }

  /**
   * The output loop: the occupied cells in row-major order, y then x, each
   * tagged with its colour.
   */
  method Output(board: array2<int>) returns (stones: seq<Placement>)
    requires IsGrid(board)
    ensures forall i, j :: 0 <= i < j < |stones| ==> RowMajorBefore(stones[i], stones[j])
    ensures forall i :: 0 <= i < |stones| ==>
              var s := stones[i];
              0 <= s.x < Size && 0 <= s.y < Size && board[s.y, s.x] != 0 && s.t == Tag(board[s.y, s.x])
    ensures forall x, y :: 0 <= x < Size && 0 <= y < Size && board[y, x] != 0 ==>
              Placement(Tag(board[y, x]), x, y) in stones
  {
    stones := [];
    for y := 0 to Size
      invariant forall i, j :: 0 <= i < j < |stones| ==> RowMajorBefore(stones[i], stones[j])
      invariant forall i :: 0 <= i < |stones| ==>
                  var s := stones[i];
                  0 <= s.x < Size && 0 <= s.y < y && board[s.y, s.x] != 0 && s.t == Tag(board[s.y, s.x])
      invariant forall x', y' :: 0 <= x' < Size && 0 <= y' < y && board[y', x'] != 0 ==>
                  Placement(Tag(board[y', x']), x', y') in stones
    {
      for x := 0 to Size
        invariant forall i, j :: 0 <= i < j < |stones| ==> RowMajorBefore(stones[i], stones[j])
        invariant forall i :: 0 <= i < |stones| ==>
                    var s := stones[i];
                    0 <= s.x < Size && 0 <= s.y <= y && (s.y == y ==> s.x < x) &&
                    board[s.y, s.x] != 0 && s.t == Tag(board[s.y, s.x])
        invariant forall x', y' ::
                    0 <= x' < Size && 0 <= y' < Size && (y' < y || (y' == y && x' < x)) && board[y', x'] != 0
                    ==> Placement(Tag(board[y', x']), x', y') in stones
      {
        if board[y, x] != 0 {
          stones := stones + [Placement(Tag(board[y, x]), x, y)];
        }
      }
    }
  }

  /**
   * The whole script on the text of a record: replay the first 80 moves on
   * an empty board and list the stones left, which are exactly those of the
   * replayed board.
   */
  method ReplayRecord(sgf: string) returns (stones: seq<Placement>)
    ensures var ms := FindMoves(sgf);
            var final := ReplayOn(map[], ms[..if |ms| < 80 then |ms| else 80]);
            && (forall i :: 0 <= i < |stones| ==>
                  var s := stones[i];
                  Coord(s.x, s.y) in final && s.t == Tag(final[Coord(s.x, s.y)]))
            && (forall p :: p in final ==> Placement(Tag(final[p]), p.x, p.y) in stones)
    ensures forall i, j :: 0 <= i < j < |stones| ==> RowMajorBefore(stones[i], stones[j])
  {
    var moves := FindMoves(sgf);
    var board := new int[Size, Size]((i, j) => 0);
    assert Snapshot(board) == map[];
    Replay(board, moves);
    ghost var final := Snapshot(board);
    stones := Output(board);
    forall i | 0 <= i < |stones|
      ensures Coord(stones[i].x, stones[i].y) in final &&
              stones[i].t == Tag(final[Coord(stones[i].x, stones[i].y)])
    {
      SnapshotAt(board, Coord(stones[i].x, stones[i].y));
    }
    forall p | p in final ensures Placement(Tag(final[p]), p.x, p.y) in stones {
      SnapshotAt(board, p);
    }
  }
}
