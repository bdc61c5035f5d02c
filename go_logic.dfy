/**
 * resolveBoardState of src/utils/goLogic.ts: place one stone on a list of
 * stones and remove the adjacent opponent groups left without liberties.
 *
 * The method keeps the source's steps: overwrite-or-append the move, build
 * the point-to-colour map, walk the up-to-four neighbours of the move with a
 * set of already-checked opponent stones, flood-fill each new opponent group
 * twice (once for liberties, once for its stones), filter the captured points
 * out, and finally run the suicide check whose result the source ignores.
 * Each step is proved against the specification functions below, and the
 * lemmas state what the result means.
 */
module GoLogic {
  import opened Grid

  /** A stone: coordinates and colour (1 = Black, -1 = White). */
  datatype Point = Point(x: int, y: int, c: int)

  function At(s: Point): Coord {
    Coord(s.x, s.y)
  }

  /** The points occupied by a list of stones. */
  function CoordsOf(stones: seq<Point>): set<Coord>
    decreases |stones|
  {
    if stones == [] then {}
    else CoordsOf(stones[..|stones| - 1]) + {At(stones[|stones| - 1])}
  }

  /** No two stones of the list share a point (the board-state invariant). */
  ghost predicate UniqueCoords(stones: seq<Point>) {
    forall i, j :: 0 <= i < j < |stones| ==> At(stones[i]) != At(stones[j])
  }

  /** No point is listed twice. */
  ghost predicate Distinct(s: seq<Coord>) {
    forall i, j :: 0 <= i < j < |s| ==> s[i] != s[j]
  }

  /** findIndex: the first stone on point p, or -1. */
  function FindIndex(stones: seq<Point>, p: Coord): (r: int)
    ensures -1 <= r < |stones|
    ensures r == -1 <==> forall i :: 0 <= i < |stones| ==> At(stones[i]) != p
    ensures r >= 0 ==> At(stones[r]) == p && forall i :: 0 <= i < r ==> At(stones[i]) != p
  {
    if stones == [] then -1
    else if At(stones[0]) == p then 0
    else
      var k := FindIndex(stones[1..], p);
      if k == -1 then -1 else k + 1
  }

  /** Step 1: the move overwrites the first stone on its point, or is appended. */
  function Placed(stones: seq<Point>, mv: Point): seq<Point> {
    var i := FindIndex(stones, At(mv));
    if i >= 0 then stones[i := mv] else stones + [mv]
  }

  /** The point-to-colour map of a list; a later stone on a point wins. */
  function BoardOf(stones: seq<Point>): Board
    decreases |stones|
  {
    if stones == [] then map[]
    else
      var last := stones[|stones| - 1];
      BoardOf(stones[..|stones| - 1])[At(last) := last.c]
  }

  /**
   * The forEach over the neighbours of the move: an opponent stone not yet
   * checked has its group evaluated, all of the group is marked as checked,
   * and the group is captured when it has no liberty.
   */
  ghost function CapturedFrom(b: Board, nbs: seq<Coord>, opp: int, checked: set<Coord>): set<Coord>
    decreases |nbs|
  {
    if nbs == [] then {}
    else
      var nb := nbs[0];
      if nb in b && b[nb] == opp && nb !in checked then
        var g := Group(b, nb, opp);
        (if HasLiberty(b, g) then {} else g) + CapturedFrom(b, nbs[1..], opp, checked + g)
      else
        CapturedFrom(b, nbs[1..], opp, checked)
  }

  /** Points captured by the move mv on board b. */
  ghost function Captured(b: Board, mv: Point): set<Coord> {
    CapturedFrom(b, Neighbors(At(mv)), -mv.c, {})
  }

  /** filter: the stones whose point is not captured, in their order. */
  function Survivors(stones: seq<Point>, cap: set<Coord>): seq<Point>
    decreases |stones|
  {
    if stones == [] then []
    else
      var last := stones[|stones| - 1];
      Survivors(stones[..|stones| - 1], cap) + (if At(last) in cap then [] else [last])
  }

  /** The result resolveBoardState returns. */
  ghost function Resolved(stones: seq<Point>, mv: Point): seq<Point> {
    var placed := Placed(stones, mv);
    Survivors(placed, Captured(BoardOf(placed), mv))
  }

  // ---------------------------------------------------------------------
  // The flood fills
  // ---------------------------------------------------------------------

  /**
   * The `for (const nb of neighbors)` loop of checkGroup and getGroupStones:
   * push every unvisited same-coloured neighbour, and note an empty one.
   */
  method ScanNeighbours(b: Board, color: int, q: Coord, visited: set<Coord>, stack: seq<Coord>)
    returns (visited': set<Coord>, stack': seq<Coord>, empty: bool)
    ensures visited' == visited + SameColourNeighbours(b, color, q)
    ensures Elems(stack') == Elems(stack) + (visited' - visited)
    ensures visited' == visited ==> stack' == stack
    ensures Elems(stack) <= visited && Distinct(stack) ==> Distinct(stack')
    ensures empty == LibertyAt(b, q)
  {
    var nbs := Neighbors(q);
    visited', stack', empty := visited, stack, false;
    ghost var noRepeat := Elems(stack) <= visited && Distinct(stack);
    var j := 0;
    while j < |nbs|
      invariant 0 <= j <= |nbs|
      invariant visited' == visited + set p | p in nbs[..j] && p in b && b[p] == color
      invariant Elems(stack') == Elems(stack) + (visited' - visited)
      invariant visited' == visited ==> stack' == stack
      invariant noRepeat ==> Distinct(stack')
      invariant empty == exists p :: p in nbs[..j] && p !in b
    {
      var nb := nbs[j];
      if nb in b {
        if b[nb] == color && nb !in visited' {
          if noRepeat {
            PushDistinct(stack', nb);
          }
          visited' := visited' + {nb};
          stack' := stack' + [nb];
          assert Elems(stack') == Elems(stack'[..|stack'| - 1]) + {nb};
        }
      } else {
        empty := true;
      }
      assert nbs[..j + 1] == nbs[..j] + [nb];
      j := j + 1;
    }
    assert nbs[..j] == nbs;
  }

  /** Pushing a point not on the stack keeps the stack free of repeats. */
  lemma PushDistinct(s: seq<Coord>, p: Coord)
    requires Distinct(s) && p !in Elems(s)
    ensures Distinct(s + [p])
  {
    assert forall k :: 0 <= k < |s| ==> s[k] in Elems(s);
  }

  /**
   * The inner loop of selfMapCheckGroup: it tests for an empty neighbour
   * before the colour and breaks at the first one.  When it does not break
   * it has pushed every unvisited same-coloured neighbour.
   */
  method ScanForLiberty(b: Board, color: int, q: Coord, visited: set<Coord>, stack: seq<Coord>)
    returns (visited': set<Coord>, stack': seq<Coord>, empty: bool)
    ensures empty == LibertyAt(b, q)
    ensures !empty ==> visited' == visited + SameColourNeighbours(b, color, q)
    ensures !empty ==> Elems(stack') == Elems(stack) + (visited' - visited)
    ensures !empty ==> (visited' == visited ==> stack' == stack)
  {
    var nbs := Neighbors(q);
    visited', stack', empty := visited, stack, false;
    var j := 0;
    while j < |nbs|
      invariant 0 <= j <= |nbs|
      invariant visited' == visited + set p | p in nbs[..j] && p in b && b[p] == color
      invariant Elems(stack') == Elems(stack) + (visited' - visited)
      invariant visited' == visited ==> stack' == stack
      invariant forall p :: p in nbs[..j] ==> p in b
      invariant !empty
    {
      var nb := nbs[j];
      if nb !in b {
        empty := true;
        assert nb in Neighbors(q);
        break;
      }
      if b[nb] == color && nb !in visited' {
        visited' := visited' + {nb};
        stack' := stack' + [nb];
        assert Elems(stack') == Elems(stack'[..|stack'| - 1]) + {nb};
      }
      assert nbs[..j + 1] == nbs[..j] + [nb];
      j := j + 1;
    }
    if !empty {
      assert nbs[..j] == nbs;
    }
  }

  /**
   * The flood-fill invariant: visited holds start, lies inside the group g,
   * and is the popped points plus the stack; every popped point has all its
   * same-coloured neighbours visited.
   */
  ghost predicate FillInv(b: Board, color: int, g: set<Coord>, start: Coord,
                          done: set<Coord>, visited: set<Coord>, stack: seq<Coord>) {
    start in visited && visited <= g &&
    visited == done + Elems(stack) &&
    forall q {:trigger ClosedAt(b, color, q, visited)} :: q in done ==> ClosedAt(b, color, q, visited)
  }

  /** One pop-and-scan step keeps the flood-fill invariant. */
  lemma FillStep(b: Board, color: int, g: set<Coord>, start: Coord, done: set<Coord>, visited: set<Coord>,
                 stack: seq<Coord>, q: Coord, visited': set<Coord>, stack': seq<Coord>)
    requires Closed(b, color, g)
    requires FillInv(b, color, g, start, done, visited, stack + [q])
    requires visited' == visited + SameColourNeighbours(b, color, q)
    requires Elems(stack') == Elems(stack) + (visited' - visited)
    requires visited' == visited ==> stack' == stack
    ensures FillInv(b, color, g, start, done + {q}, visited', stack')
  {
    assert Elems(stack + [q]) == Elems(stack) + {q};
    assert ClosedAt(b, color, q, g);
    forall q' | q' in done + {q} ensures ClosedAt(b, color, q', visited') {
      if q' in done { ClosedAtMono(b, color, q', visited, visited'); }
    }
  }

  /** One step either visits a new point of g or shortens the stack. */
  lemma FillShrinks(g: set<Coord>, visited: set<Coord>, stack: seq<Coord>, q: Coord,
                    visited': set<Coord>, stack': seq<Coord>)
    requires visited <= visited' <= g
    requires visited' == visited ==> stack' == stack
    ensures |g - visited'| < |g - visited| || (visited' == visited && |stack'| < |stack + [q]|)
  {
    if visited != visited' {
      ProperSubsetCard(g - visited', g - visited);
    }
  }

  /** An empty stack ends the fill: the popped points are exactly the group. */
  lemma FillDone(b: Board, color: int, g: set<Coord>, start: Coord,
                 done: set<Coord>, visited: set<Coord>, stack: seq<Coord>)
    requires IsGroup(b, start, color, g)
    requires FillInv(b, color, g, start, done, visited, stack) && stack == []
    ensures done == visited == Group(b, start, color)
  {
    assert Elems(stack) == {};
    assert Closed(b, color, visited);
    IsGroupUnique(b, start, color, g);
  }

  /** A popped point with an empty neighbour shows that the group has a liberty. */
  lemma FillFoundLiberty(b: Board, color: int, g: set<Coord>, start: Coord,
                         done: set<Coord>, visited: set<Coord>, stack: seq<Coord>, q: Coord)
    requires IsGroup(b, start, color, g)
    requires FillInv(b, color, g, start, done, visited, stack + [q])
    requires LibertyAt(b, q)
    ensures HasLiberty(b, Group(b, start, color))
  {
    assert Elems(stack + [q]) == Elems(stack) + {q};
    IsGroupUnique(b, start, color, g);
    assert q in g;
  }

  /** checkGroup: does the group of colour `color` grown from start have a liberty? */
  method CheckGroup(b: Board, start: Coord, color: int) returns (alive: bool)
    ensures alive == HasLiberty(b, Group(b, start, color))
  {
    ghost var g := SomeGroup(b, start, color);
    var stack := [start];
    var visited := {start};
    var hasLiberty := false;
    ghost var done: set<Coord> := {};
    while |stack| > 0
      invariant FillInv(b, color, g, start, done, visited, stack)
      invariant hasLiberty == HasLiberty(b, done)
      decreases |g - visited|, |stack|
    {
      var q := stack[|stack| - 1];
      stack := stack[..|stack| - 1];
      ghost var done0, visited0, stack0 := done, visited, stack;
      var empty;
      visited, stack, empty := ScanNeighbours(b, color, q, visited, stack);
      FillStep(b, color, g, start, done0, visited0, stack0, q, visited, stack);
      FillShrinks(g, visited0, stack0, q, visited, stack);
      HasLibertyAdd(b, done0, q);
      done := done + {q};
      if empty {
        hasLiberty := true;
      }
    }
    FillDone(b, color, g, start, done, visited, stack);
    alive := hasLiberty;
  }

  /** The group list so far: the popped points, each once, each with the group's colour. */
  ghost predicate ListOk(group: seq<Point>, done: set<Coord>, color: int) {
    CoordsOf(group) == done && UniqueCoords(group) && forall i :: 0 <= i < |group| ==> group[i].c == color
  }

  /** The stack holds no point twice and no popped point. */
  ghost predicate StackOk(stack: seq<Coord>, done: set<Coord>) {
    Distinct(stack) && Elems(stack) !! done
  }

  /** Pushing the popped point onto the group list. */
  lemma PushStone(group: seq<Point>, done: set<Coord>, cur: Coord, color: int)
    requires ListOk(group, done, color) && cur !in done
    ensures ListOk(group + [Point(cur.x, cur.y, color)], done + {cur}, color)
  {
    var p := Point(cur.x, cur.y, color);
    assert (group + [p])[..|group|] == group;
    InCoordsOf(group, cur);
    AppendUnique(group, p);
  }

  /** Popping the last point of the stack: it is not popped yet and not on the rest. */
  lemma PopStack(stack: seq<Coord>, done: set<Coord>)
    requires stack != [] && StackOk(stack, done)
    ensures var s := stack[..|stack| - 1];
            StackOk(s, done) && stack[|stack| - 1] !in Elems(s) && stack[|stack| - 1] !in done &&
            Elems(stack) == Elems(s) + {stack[|stack| - 1]}
  {
    assert stack == stack[..|stack| - 1] + [stack[|stack| - 1]];
  }

  /** The points the scan pushes were not visited, so the stack stays clear of the popped points. */
  lemma StackFresh(done: set<Coord>, cur: Coord, stack: seq<Coord>, visited: set<Coord>,
                   visited': set<Coord>, stack': seq<Coord>)
    requires Elems(stack) !! done && cur !in Elems(stack) && done + {cur} <= visited
    requires Elems(stack') == Elems(stack) + (visited' - visited) && Distinct(stack')
    ensures StackOk(stack', done + {cur})
  {
  }

  /** One round of getGroupStones' loop: pop a point, list it, and push its unvisited same-coloured neighbours. */
  method GroupStep(b: Board, color: int, ghost g: set<Coord>, ghost start: Coord, ghost done: set<Coord>,
                   visited: set<Coord>, stack: seq<Coord>, group: seq<Point>)
    returns (visited': set<Coord>, stack': seq<Coord>, group': seq<Point>, ghost done': set<Coord>)
    requires Closed(b, color, g) && stack != []
    requires FillInv(b, color, g, start, done, visited, stack)
    requires ListOk(group, done, color) && StackOk(stack, done)
    ensures FillInv(b, color, g, start, done', visited', stack')
    ensures ListOk(group', done', color) && StackOk(stack', done')
    ensures |g - visited'| < |g - visited| || (visited' == visited && |stack'| < |stack|)
  {
    PopStack(stack, done);
    var cur := stack[|stack| - 1];
    var rest := stack[..|stack| - 1];
    PushStone(group, done, cur, color);
    group' := group + [Point(cur.x, cur.y, color)];
    var unusedEmpty;
    visited', stack', unusedEmpty := ScanNeighbours(b, color, cur, visited, rest);
    StackFresh(done, cur, rest, visited, visited', stack');
    assert stack == rest + [cur];
    FillStep(b, color, g, start, done, visited, rest, cur, visited', stack');
    FillShrinks(g, visited, rest, cur, visited', stack');
    done' := done + {cur};
  }

  /** getGroupStones: the stones of the group, each point once, each with the group's colour. */
  method GetGroupStones(b: Board, start: Coord, color: int) returns (group: seq<Point>)
    ensures CoordsOf(group) == Group(b, start, color)
    ensures UniqueCoords(group)
    ensures forall i :: 0 <= i < |group| ==> group[i].c == color
  {
    ghost var g := SomeGroup(b, start, color);
    var stack := [start];
    var visited := {start};
    group := [];
    ghost var done: set<Coord> := {};
    while |stack| > 0
      invariant FillInv(b, color, g, start, done, visited, stack)
      invariant ListOk(group, done, color) && StackOk(stack, done)
      decreases |g - visited|, |stack|
    {
      visited, stack, group, done := GroupStep(b, color, g, start, done, visited, stack, group);
    }
    FillDone(b, color, g, start, done, visited, stack);
  }

  /** selfMapCheckGroup: the same liberty test, leaving at the first liberty found. */
  method SelfMapCheckGroup(b: Board, start: Coord, color: int) returns (hasLib: bool)
    ensures hasLib == HasLiberty(b, Group(b, start, color))
  {
    ghost var g := SomeGroup(b, start, color);
    var stack := [start];
    var visited := {start};
    hasLib := false;
    ghost var done: set<Coord> := {};
    while |stack| > 0
      invariant FillInv(b, color, g, start, done, visited, stack)
      invariant !hasLib && !HasLiberty(b, done)
      decreases |g - visited|, |stack|
    {
      var q := stack[|stack| - 1];
      stack := stack[..|stack| - 1];
      ghost var done0, visited0, stack0 := done, visited, stack;
      var empty;
      visited, stack, empty := ScanForLiberty(b, color, q, visited, stack);
      if empty {
        hasLib := true;
        FillFoundLiberty(b, color, g, start, done0, visited0, stack0, q);
        break;
      }
      FillStep(b, color, g, start, done0, visited0, stack0, q, visited, stack);
      FillShrinks(g, visited0, stack0, q, visited, stack);
      HasLibertyAdd(b, done0, q);
      done := done + {q};
    }
    if !hasLib {
      FillDone(b, color, g, start, done, visited, stack);
    }
  }

  // ---------------------------------------------------------------------
  // resolveBoardState
  // ---------------------------------------------------------------------

  /** stones.forEach(s => boardMap.set(key, s.c)): later stones overwrite earlier ones. */
  method BuildBoard(stones: seq<Point>) returns (m: Board)
    ensures m == BoardOf(stones)
  {
    m := map[];
    var i := 0;
    while i < |stones|
      invariant 0 <= i <= |stones|
      invariant m == BoardOf(stones[..i])
    {
      assert stones[..i + 1][..i] == stones[..i];
      m := m[At(stones[i]) := stones[i].c];
      i := i + 1;
    }
    assert stones[..i] == stones;
  }

  lemma CoordsOfAppend(s: seq<Point>, t: seq<Point>)
    ensures CoordsOf(s + t) == CoordsOf(s) + CoordsOf(t)
    decreases |t|
  {
    if t != [] {
      assert (s + t)[..|s + t| - 1] == s + t[..|t| - 1];
      CoordsOfAppend(s, t[..|t| - 1]);
    } else {
      assert s + t == s;
    }
  }

  /** group.forEach(g => checkedOpponentGroups.add(key)). */
  method MarkChecked(checked: set<Coord>, group: seq<Point>) returns (checked': set<Coord>)
    ensures checked' == checked + CoordsOf(group)
  {
    checked' := checked;
    var k := 0;
    while k < |group|
      invariant 0 <= k <= |group|
      invariant checked' == checked + CoordsOf(group[..k])
    {
      assert group[..k + 1][..k] == group[..k];
      checked' := checked' + {At(group[k])};
      k := k + 1;
    }
    assert group[..k] == group;
  }

  /** checked is made of whole on-board groups of colour opp. */
  ghost predicate WholeGroups(b: Board, opp: int, checked: set<Coord>) {
    forall p :: p in checked ==> OnBoard(p) && p in b && b[p] == opp && Group(b, p, opp) <= checked
  }

  /** The group of an unchecked on-board stone shares no point with the checked groups, and marking it keeps them whole. */
  lemma MarkGroup(b: Board, opp: int, checked: set<Coord>, nb: Coord)
    requires OnBoard(nb) && nb in b && b[nb] == opp && nb !in checked && WholeGroups(b, opp, checked)
    ensures Group(b, nb, opp) !! checked
    ensures WholeGroups(b, opp, checked + Group(b, nb, opp))
  {
    var g := Group(b, nb, opp);
    GroupColour(b, nb, opp);
    GroupOnBoard(b, nb, opp);
    GroupHasStart(b, nb, opp);
    forall p | p in g ensures Group(b, p, opp) == g {
      GroupOfMember(b, nb, opp, p);
    }
  }

  /** Two lists with no point in common, each free of repeats, make one free of repeats. */
  lemma UniqueConcat(s: seq<Point>, t: seq<Point>)
    requires UniqueCoords(s) && UniqueCoords(t) && CoordsOf(s) !! CoordsOf(t)
    ensures UniqueCoords(s + t)
  {
    forall i, j | 0 <= i < |s| <= j < |s| + |t| ensures At((s + t)[i]) != At((s + t)[j]) {
      InCoordsOf(s, At(s[i]));
      InCoordsOf(t, At(t[j - |s|]));
    }
  }

  /**
   * neighbors.forEach over the move's neighbours: each opponent stone not yet
   * checked has its group examined and listed, the whole group is marked as
   * checked, and a group without liberty is added to the captured stones.
   * Since every group is examined once, for a move on the board no point is
   * listed twice.
   */
  method CaptureAdjacent(boardMap: Board, newMove: Point) returns (capturedStones: seq<Point>)
    ensures CoordsOf(capturedStones) == Captured(boardMap, newMove)
    ensures OnBoard(At(newMove)) ==> UniqueCoords(capturedStones)
  {
    var opponentColor := -newMove.c;
    capturedStones := [];
    var neighbors := Neighbors(At(newMove));
    ghost var onBoard := OnBoard(At(newMove));
    if onBoard {
      NeighborsOnBoard(At(newMove));
    }
    var checked: set<Coord> := {};
    var i := 0;
    while i < |neighbors|
      invariant 0 <= i <= |neighbors|
      invariant CoordsOf(capturedStones) + CapturedFrom(boardMap, neighbors[i..], opponentColor, checked)
                == Captured(boardMap, newMove)
      invariant onBoard ==> WholeGroups(boardMap, opponentColor, checked)
      invariant onBoard ==> UniqueCoords(capturedStones) && CoordsOf(capturedStones) <= checked
    {
      var nb := neighbors[i];
      assert neighbors[i..][1..] == neighbors[i + 1..];
      if nb in boardMap && boardMap[nb] == opponentColor && nb !in checked {
        ghost var checked0 := checked;
        var isAlive := CheckGroup(boardMap, nb, opponentColor);
        var group := GetGroupStones(boardMap, nb, opponentColor);
        checked := MarkChecked(checked, group);
        if onBoard {
          MarkGroup(boardMap, opponentColor, checked0, nb);
        }
        if !isAlive {
          CoordsOfAppend(capturedStones, group);
          if onBoard {
            UniqueConcat(capturedStones, group);
          }
          capturedStones := capturedStones + group;
        }
      }
      i := i + 1;
    }
    assert neighbors[i..] == [];
  }

  /** stones.filter: drop every stone on a point some captured stone occupies. */
  method FilterCaptured(stones: seq<Point>, capturedStones: seq<Point>) returns (finalStones: seq<Point>)
    ensures finalStones == Survivors(stones, CoordsOf(capturedStones))
  {
    finalStones := [];
    var j := 0;
    while j < |stones|
      invariant 0 <= j <= |stones|
      invariant finalStones == Survivors(stones[..j], CoordsOf(capturedStones))
    {
      assert stones[..j + 1][..j] == stones[..j];
      if At(stones[j]) !in CoordsOf(capturedStones) {
        finalStones := finalStones + [stones[j]];
      }
      j := j + 1;
    }
    assert stones[..j] == stones;
  }

  /**
   * resolveBoardState: place the move, remove the captured opponent groups,
   * and run the suicide check whose outcome the source leaves unused.
   */
  method ResolveBoardState(currentStones: seq<Point>, newMove: Point) returns (finalStones: seq<Point>)
    ensures finalStones == Resolved(currentStones, newMove)
  {
    var stones := currentStones;
    var existing := FindIndex(stones, At(newMove));
    if existing != -1 {
      stones := stones[existing := newMove];
    } else {
      stones := stones + [newMove];
    }
    var boardMap := BuildBoard(stones);
    var capturedStones := CaptureAdjacent(boardMap, newMove);
    finalStones := FilterCaptured(stones, capturedStones);
    var newMap := BuildBoard(finalStones);
    var selfAlive := SelfMapCheckGroup(newMap, At(newMove), newMove.c);
  }

  // ---------------------------------------------------------------------
  // What the result means
  // ---------------------------------------------------------------------

  lemma {:induction false} InCoordsOf(s: seq<Point>, p: Coord)
    ensures p in CoordsOf(s) <==> exists i :: 0 <= i < |s| && At(s[i]) == p
    decreases |s|
  {
    if s != [] {
      var s' := s[..|s| - 1];
      InCoordsOf(s', p);
      if p in CoordsOf(s') {
        var i :| 0 <= i < |s'| && At(s'[i]) == p;
        assert At(s[i]) == p;
      }
      if exists i :: 0 <= i < |s| && At(s[i]) == p {
        var i :| 0 <= i < |s| && At(s[i]) == p;
        if i < |s| - 1 {
          assert At(s'[i]) == p;
        }
      }
    }
  }

  /** If the point is empty the move is appended; otherwise it replaces the first stone there. */
  lemma PlacedCases(stones: seq<Point>, mv: Point)
    ensures At(mv) !in CoordsOf(stones) ==> Placed(stones, mv) == stones + [mv]
    ensures At(mv) in CoordsOf(stones) ==>
      exists i :: 0 <= i < |stones| && At(stones[i]) == At(mv) &&
        (forall j :: 0 <= j < i ==> At(stones[j]) != At(mv)) &&
        Placed(stones, mv) == stones[i := mv]
  {
    InCoordsOf(stones, At(mv));
    var i := FindIndex(stones, At(mv));
    if i >= 0 {
      assert Placed(stones, mv) == stones[i := mv];
    }
  }

  /** Two lists with the same point at every index occupy the same points. */
  lemma {:induction false} CoordsOfSameAt(s: seq<Point>, t: seq<Point>)
    requires |s| == |t| && forall i :: 0 <= i < |s| ==> At(s[i]) == At(t[i])
    ensures CoordsOf(s) == CoordsOf(t)
    decreases |s|
  {
    if s != [] {
      CoordsOfSameAt(s[..|s| - 1], t[..|t| - 1]);
    }
  }

  /** On a list without shared points, placing keeps that so and adds the move's point. */
  lemma PlacedUnique(stones: seq<Point>, mv: Point)
    requires UniqueCoords(stones)
    ensures UniqueCoords(Placed(stones, mv))
    ensures mv in Placed(stones, mv)
    ensures CoordsOf(Placed(stones, mv)) == CoordsOf(stones) + {At(mv)}
    ensures |Placed(stones, mv)| == |stones| + (if At(mv) in CoordsOf(stones) then 0 else 1)
  {
    var i := FindIndex(stones, At(mv));
    InCoordsOf(stones, At(mv));
    if i >= 0 {
      OverwriteUnique(stones, i, mv);
    } else {
      AppendUnique(stones, mv);
    }
  }

  lemma OverwriteUnique(stones: seq<Point>, i: int, mv: Point)
    requires UniqueCoords(stones) && 0 <= i < |stones| && At(stones[i]) == At(mv)
    ensures UniqueCoords(stones[i := mv]) && mv in stones[i := mv]
    ensures CoordsOf(stones[i := mv]) == CoordsOf(stones) + {At(mv)}
  {
    CoordsOfSameAt(stones, stones[i := mv]);
    InCoordsOf(stones, At(mv));
    assert stones[i := mv][i] == mv;
  }

  lemma AppendUnique(stones: seq<Point>, mv: Point)
    requires UniqueCoords(stones) && forall i :: 0 <= i < |stones| ==> At(stones[i]) != At(mv)
    ensures UniqueCoords(stones + [mv]) && mv in stones + [mv]
    ensures CoordsOf(stones + [mv]) == CoordsOf(stones) + {At(mv)}
  {
    assert (stones + [mv])[..|stones|] == stones;
    assert (stones + [mv])[|stones|] == mv;
  }

  lemma {:induction false} BoardOfKeys(stones: seq<Point>)
    ensures BoardOf(stones).Keys == CoordsOf(stones)
    decreases |stones|
  {
    if stones != [] {
      BoardOfKeys(stones[..|stones| - 1]);
    }
  }

  /** On a list without shared points, the map gives each stone's own colour. */
  lemma {:induction false} BoardOfUnique(stones: seq<Point>, i: int)
    requires UniqueCoords(stones) && 0 <= i < |stones|
    ensures At(stones[i]) in BoardOf(stones) && BoardOf(stones)[At(stones[i])] == stones[i].c
    decreases |stones|
  {
    if i < |stones| - 1 {
      var s' := stones[..|stones| - 1];
      assert s'[i] == stones[i];
      assert UniqueCoords(s');
      BoardOfUnique(s', i);
    }
  }

  /** Each captured point lies in a liberty-less opponent group next to the move. */
  lemma {:induction false} CapturedFromSound(b: Board, nbs: seq<Coord>, opp: int, checked: set<Coord>, p: Coord)
    requires p in CapturedFrom(b, nbs, opp, checked)
    ensures exists k :: 0 <= k < |nbs| && nbs[k] in b && b[nbs[k]] == opp &&
                        p in Group(b, nbs[k], opp) && !HasLiberty(b, Group(b, nbs[k], opp))
    decreases |nbs|
  {
    var nb := nbs[0];
    if nb in b && b[nb] == opp && nb !in checked {
      var g := Group(b, nb, opp);
      if !(p in g && !HasLiberty(b, g)) {
        CapturedFromSound(b, nbs[1..], opp, checked + g, p);
        var k :| 0 <= k < |nbs[1..]| && nbs[1..][k] in b && b[nbs[1..][k]] == opp &&
          p in Group(b, nbs[1..][k], opp) && !HasLiberty(b, Group(b, nbs[1..][k], opp));
        assert nbs[k + 1] == nbs[1..][k];
      }
    } else {
      CapturedFromSound(b, nbs[1..], opp, checked, p);
      var k :| 0 <= k < |nbs[1..]| && nbs[1..][k] in b && b[nbs[1..][k]] == opp &&
        p in Group(b, nbs[1..][k], opp) && !HasLiberty(b, Group(b, nbs[1..][k], opp));
      assert nbs[k + 1] == nbs[1..][k];
    }
  }

  /**
   * A liberty-less opponent group at an unchecked on-board neighbour is
   * captured whole, even when an earlier neighbour in the same group was the
   * one that evaluated it.
   */
  lemma {:induction false} CapturedFromComplete(b: Board, nbs: seq<Coord>, opp: int, checked: set<Coord>, k: int)
    requires forall j :: 0 <= j < |nbs| ==> OnBoard(nbs[j])
    requires 0 <= k < |nbs| && nbs[k] in b && b[nbs[k]] == opp && nbs[k] !in checked
    requires !HasLiberty(b, Group(b, nbs[k], opp))
    ensures Group(b, nbs[k], opp) <= CapturedFrom(b, nbs, opp, checked)
    decreases |nbs|
  {
    var nb := nbs[0];
    if k > 0 {
      assert nbs[1..][k - 1] == nbs[k];
      if nb in b && b[nb] == opp && nb !in checked {
        var g := Group(b, nb, opp);
        if nbs[k] in g {
          GroupOfMember(b, nb, opp, nbs[k]);
        } else {
          CapturedFromComplete(b, nbs[1..], opp, checked + g, k - 1);
        }
      } else {
        CapturedFromComplete(b, nbs[1..], opp, checked, k - 1);
      }
    }
  }

  /** Captured points hold opponent stones. */
  lemma CapturedAreOpponent(b: Board, mv: Point, p: Coord)
    requires p in Captured(b, mv)
    ensures p in b && b[p] == -mv.c
  {
    var nbs := Neighbors(At(mv));
    CapturedFromSound(b, nbs, -mv.c, {}, p);
    var k :| 0 <= k < |nbs| && nbs[k] in b && b[nbs[k]] == -mv.c &&
      p in Group(b, nbs[k], -mv.c) && !HasLiberty(b, Group(b, nbs[k], -mv.c));
    GroupColour(b, nbs[k], -mv.c);
  }

  /** For a move on the board, an adjacent opponent group without liberty is captured whole. */
  lemma CaptureDead(b: Board, mv: Point, nb: Coord)
    requires OnBoard(At(mv)) && nb in Neighbors(At(mv)) && nb in b && b[nb] == -mv.c
    requires !HasLiberty(b, Group(b, nb, -mv.c))
    ensures Group(b, nb, -mv.c) <= Captured(b, mv)
  {
    var nbs := Neighbors(At(mv));
    NeighborsOnBoard(At(mv));
    var k :| 0 <= k < |nbs| && nbs[k] == nb;
    CapturedFromComplete(b, nbs, -mv.c, {}, k);
  }

  /** No point of an on-board opponent group with a liberty is captured from on-board neighbours. */
  lemma AliveNotCapturedFrom(b: Board, nbs: seq<Coord>, opp: int, checked: set<Coord>, nb: Coord, p: Coord)
    requires forall j :: 0 <= j < |nbs| ==> OnBoard(nbs[j])
    requires OnBoard(nb) && nb in b && b[nb] == opp
    requires HasLiberty(b, Group(b, nb, opp)) && p in Group(b, nb, opp)
    ensures p !in CapturedFrom(b, nbs, opp, checked)
  {
    if p in CapturedFrom(b, nbs, opp, checked) {
      CapturedFromSound(b, nbs, opp, checked, p);
      var k :| 0 <= k < |nbs| && nbs[k] in b && b[nbs[k]] == opp &&
        p in Group(b, nbs[k], opp) && !HasLiberty(b, Group(b, nbs[k], opp));
      GroupOfMember(b, nb, opp, p);
      GroupOfMember(b, nbs[k], opp, p);
    }
  }

  /** For a move on the board, no point of an adjacent opponent group with a liberty is captured. */
  lemma CaptureAlive(b: Board, mv: Point, nb: Coord, p: Coord)
    requires OnBoard(At(mv)) && nb in Neighbors(At(mv)) && nb in b && b[nb] == -mv.c
    requires HasLiberty(b, Group(b, nb, -mv.c)) && p in Group(b, nb, -mv.c)
    ensures p !in Captured(b, mv)
  {
    NeighborsOnBoard(At(mv));
    NeighborsSymmetric(At(mv), nb);
    AliveNotCapturedFrom(b, Neighbors(At(mv)), -mv.c, {}, nb, p);
  }

  lemma {:induction false} SurvivorsMembers(stones: seq<Point>, cap: set<Coord>, s: Point)
    ensures s in Survivors(stones, cap) <==> s in stones && At(s) !in cap
    decreases |stones|
  {
    if stones != [] {
      var s' := stones[..|stones| - 1];
      SurvivorsMembers(s', cap, s);
      assert stones == s' + [stones[|stones| - 1]];
    }
  }

  /** Order-preserving subsequence. */
  ghost predicate IsSubseq(a: seq<Point>, b: seq<Point>)
    decreases |b|
  {
    if b == [] then a == []
    else
      IsSubseq(a, b[..|b| - 1]) ||
      (a != [] && a[|a| - 1] == b[|b| - 1] && IsSubseq(a[..|a| - 1], b[..|b| - 1]))
  }

  lemma {:induction false} SurvivorsInOrder(stones: seq<Point>, cap: set<Coord>)
    ensures IsSubseq(Survivors(stones, cap), stones)
    decreases |stones|
  {
    if stones != [] {
      var s' := stones[..|stones| - 1];
      var last := stones[|stones| - 1];
      SurvivorsInOrder(s', cap);
      var r := Survivors(stones, cap);
      if At(last) !in cap {
        assert r == Survivors(s', cap) + [last];
        assert r[..|r| - 1] == Survivors(s', cap);
      } else {
        assert r == Survivors(s', cap);
      }
    }
  }

  lemma {:induction false} SurvivorsLength(stones: seq<Point>, cap: set<Coord>)
    requires UniqueCoords(stones)
    ensures |Survivors(stones, cap)| == |stones| - |cap * CoordsOf(stones)|
    decreases |stones|
  {
    if stones != [] {
      var s' := stones[..|stones| - 1];
      var last := stones[|stones| - 1];
      assert UniqueCoords(s');
      SurvivorsLength(s', cap);
      InCoordsOf(s', At(last));
      assert At(last) !in CoordsOf(s');
      if At(last) in cap {
        assert cap * CoordsOf(stones) == (cap * CoordsOf(s')) + {At(last)};
      } else {
        assert cap * CoordsOf(stones) == cap * CoordsOf(s');
      }
    }
  }

  /** A point of g that is not captured keeps its stone. */
  lemma SomeStoneKept(placed: seq<Point>, cap: set<Coord>, g: set<Coord>, nb: Coord)
    requires nb in g && nb !in cap && nb in CoordsOf(placed)
    ensures exists s :: s in placed && At(s) in g && s in Survivors(placed, cap)
  {
    InCoordsOf(placed, nb);
    var i :| 0 <= i < |placed| && At(placed[i]) == nb;
    SurvivorsMembers(placed, cap, placed[i]);
  }

  /** Every stone on a captured point goes. */
  lemma AllStonesRemoved(placed: seq<Point>, cap: set<Coord>, g: set<Coord>)
    requires g <= cap
    ensures forall s :: s in placed && At(s) in g ==> s !in Survivors(placed, cap)
  {
    forall s | s in placed && At(s) in g ensures s !in Survivors(placed, cap) {
      SurvivorsMembers(placed, cap, s);
    }
  }

  /** The filter removes an adjacent opponent group iff it has no liberty. */
  lemma GroupRemovedIff(placed: seq<Point>, b: Board, mv: Point, nb: Coord)
    requires b.Keys == CoordsOf(placed)
    requires OnBoard(At(mv)) && nb in Neighbors(At(mv)) && nb in b && b[nb] == -mv.c
    ensures (forall s :: s in placed && At(s) in Group(b, nb, -mv.c) ==> s !in Survivors(placed, Captured(b, mv)))
            <==> !HasLiberty(b, Group(b, nb, -mv.c))
  {
    GroupHasStart(b, nb, -mv.c);
    if HasLiberty(b, Group(b, nb, -mv.c)) {
      CaptureAlive(b, mv, nb, nb);
      SomeStoneKept(placed, Captured(b, mv), Group(b, nb, -mv.c), nb);
    } else {
      CaptureDead(b, mv, nb);
      AllStonesRemoved(placed, Captured(b, mv), Group(b, nb, -mv.c));
    }
  }

  /**
   * For a move on the board, the stones of an adjacent opponent group all
   * disappear exactly when the group has no liberty.
   */
  lemma ResolvedCaptureIff(stones: seq<Point>, mv: Point, nb: Coord)
    requires OnBoard(At(mv)) && nb in Neighbors(At(mv))
    requires nb in BoardOf(Placed(stones, mv)) && BoardOf(Placed(stones, mv))[nb] == -mv.c
    ensures (forall s :: s in Placed(stones, mv) && At(s) in Group(BoardOf(Placed(stones, mv)), nb, -mv.c) ==>
               s !in Resolved(stones, mv))
            <==> !HasLiberty(BoardOf(Placed(stones, mv)), Group(BoardOf(Placed(stones, mv)), nb, -mv.c))
  {
    BoardOfKeys(Placed(stones, mv));
    GroupRemovedIff(Placed(stones, mv), BoardOf(Placed(stones, mv)), mv, nb);
  }

  /** Every captured point lies in a liberty-less opponent group next to the move. */
  lemma CapturedIsDeadAdjacent(b: Board, mv: Point, p: Coord)
    requires p in Captured(b, mv)
    ensures exists nb :: nb in Neighbors(At(mv)) && nb in b && b[nb] == -mv.c &&
                         p in Group(b, nb, -mv.c) && !HasLiberty(b, Group(b, nb, -mv.c))
  {
    var nbs := Neighbors(At(mv));
    CapturedFromSound(b, nbs, -mv.c, {}, p);
    var k :| 0 <= k < |nbs| && nbs[k] in b && b[nbs[k]] == -mv.c &&
      p in Group(b, nbs[k], -mv.c) && !HasLiberty(b, Group(b, nbs[k], -mv.c));
    assert nbs[k] in nbs;
  }

  /** A stone that disappears was in a liberty-less opponent group next to the move. */
  lemma ResolvedRemovesOnlyDeadAdjacent(stones: seq<Point>, mv: Point, s: Point)
    requires s in Placed(stones, mv) && s !in Resolved(stones, mv)
    ensures exists nb :: nb in Neighbors(At(mv)) && nb in BoardOf(Placed(stones, mv)) &&
                         BoardOf(Placed(stones, mv))[nb] == -mv.c &&
                         At(s) in Group(BoardOf(Placed(stones, mv)), nb, -mv.c) &&
                         !HasLiberty(BoardOf(Placed(stones, mv)), Group(BoardOf(Placed(stones, mv)), nb, -mv.c))
  {
    var placed := Placed(stones, mv);
    SurvivorsMembers(placed, Captured(BoardOf(placed), mv), s);
    CapturedIsDeadAdjacent(BoardOf(placed), mv, At(s));
  }

  /**
   * The mover's stones are never removed, and so neither is the move itself,
   * even when it is left without liberties (suicide is not acted on).
   */
  lemma ResolvedKeepsMover(stones: seq<Point>, mv: Point, s: Point)
    requires UniqueCoords(stones) && mv.c != 0
    requires s in Placed(stones, mv) && s.c == mv.c
    ensures s in Resolved(stones, mv)
  {
    var placed := Placed(stones, mv);
    var b := BoardOf(placed);
    PlacedUnique(stones, mv);
    var i :| 0 <= i < |placed| && placed[i] == s;
    BoardOfUnique(placed, i);
    SurvivorsMembers(placed, Captured(b, mv), s);
    if At(s) in Captured(b, mv) {
      CapturedAreOpponent(b, mv, At(s));
    }
  }

  lemma MoveNeverRemoved(stones: seq<Point>, mv: Point)
    requires UniqueCoords(stones) && mv.c != 0
    ensures mv in Resolved(stones, mv)
  {
    PlacedUnique(stones, mv);
    ResolvedKeepsMover(stones, mv, mv);
  }

  /** The survivors keep their relative order. */
  lemma ResolvedInOrder(stones: seq<Point>, mv: Point)
    ensures IsSubseq(Resolved(stones, mv), Placed(stones, mv))
  {
    var placed := Placed(stones, mv);
    SurvivorsInOrder(placed, Captured(BoardOf(placed), mv));
  }

  /** Result length: input length, plus one when the point was empty, minus the captured stones. */
  lemma ResolvedLength(stones: seq<Point>, mv: Point)
    requires UniqueCoords(stones)
    ensures |Resolved(stones, mv)| ==
      |stones| + (if At(mv) in CoordsOf(stones) then 0 else 1) - |Captured(BoardOf(Placed(stones, mv)), mv)|
  {
    var placed := Placed(stones, mv);
    var b := BoardOf(placed);
    var cap := Captured(b, mv);
    PlacedUnique(stones, mv);
    BoardOfKeys(placed);
    forall p | p in cap ensures p in CoordsOf(placed) {
      CapturedAreOpponent(b, mv, p);
    }
    assert cap * CoordsOf(placed) == cap;
    SurvivorsLength(placed, cap);
  }
}
