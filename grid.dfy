/**
 * The 19x19 grid shared by the two board engines (src/utils/goLogic.ts and
 * parse_sgf_bg.py): coordinates, orthogonal neighbours, and the theory of
 * groups and liberties that both flood fills compute.
 *
 * A board is a map from points to colour codes (1 = Black, -1 = White); a
 * point absent from the map is empty.  The group of a start point is the
 * least set that contains the start and is closed under "add a neighbour
 * of the same colour"; it is computed by iterating one expansion step.
 */
module Grid {

  /** Board size used by both engines. */
  const Size: int := 19

  datatype Coord = Coord(x: int, y: int)

  predicate OnBoard(p: Coord) {
    0 <= p.x < Size && 0 <= p.y < Size
  }

  /** Orthogonally adjacent points (distance exactly one). */
  predicate Adjacent(p: Coord, q: Coord) {
    (p.x == q.x && (p.y - q.y == 1 || q.y - p.y == 1)) ||
    (p.y == q.y && (p.x - q.x == 1 || q.x - p.x == 1))
  }

  /**
   * getNeighbors: left, right, up, down, each kept when its own bound test
   * passes (x > 0, x < 18, y > 0, y < 18).  Only one side of each bound is
   * checked, so for an off-board point the result may hold off-board points.
   */
  function Neighbors(p: Coord): seq<Coord> {
    (if p.x > 0 then [Coord(p.x - 1, p.y)] else [])
    + (if p.x < Size - 1 then [Coord(p.x + 1, p.y)] else [])
    + (if p.y > 0 then [Coord(p.x, p.y - 1)] else [])
    + (if p.y < Size - 1 then [Coord(p.x, p.y + 1)] else [])
  }

  /** From an on-board point the neighbours are exactly the adjacent on-board points. */
  lemma NeighborsOfOnBoard(p: Coord)
    requires OnBoard(p)
    ensures |Neighbors(p)| <= 4
    ensures forall q :: q in Neighbors(p) <==> OnBoard(q) && Adjacent(p, q)
  {
  }

  /** Every neighbour of an on-board point is on the board. */
  lemma NeighborsOnBoard(p: Coord)
    requires OnBoard(p)
    ensures forall j :: 0 <= j < |Neighbors(p)| ==> OnBoard(Neighbors(p)[j])
  {
  }

  /** On the board the neighbour relation is symmetric. */
  lemma NeighborsSymmetric(p: Coord, q: Coord)
    requires OnBoard(p) && q in Neighbors(p)
    ensures OnBoard(q) && p in Neighbors(q)
  {
  }

  type Board = map<Coord, int>

  /** The set s together with every point of colour c next to a point of s. */
  function Step(b: Board, c: int, s: set<Coord>): set<Coord> {
    s + set p | p in b && b[p] == c && exists q :: q in s && p in Neighbors(q)
  }

  lemma StepShrinks(b: Board, c: int, s: set<Coord>)
    requires !(Step(b, c, s) <= s)
    ensures |b.Keys - Step(b, c, s)| < |b.Keys - s|
  {
    var p :| p in Step(b, c, s) && p !in s;
    var small, big := b.Keys - Step(b, c, s), b.Keys - s;
    assert small <= big - {p};
    SubsetCard(small, big - {p});
    assert big == (big - {p}) + {p};
  }

  lemma SubsetCard<T>(a: set<T>, b: set<T>)
    requires a <= b
    ensures |a| <= |b|
    decreases a
  {
    if a != {} {
      var x :| x in a;
      SubsetCard(a - {x}, b - {x});
    }
  }

  lemma ProperSubsetCard<T>(a: set<T>, b: set<T>)
    requires a < b
    ensures |a| < |b|
  {
    var x :| x in b && x !in a;
    SubsetCard(a, b - {x});
    assert b == (b - {x}) + {x};
  }

  /** The elements of a stack, as a set. */
  function Elems(s: seq<Coord>): set<Coord> {
    set x | x in s
  }

  /** Expansion steps repeated until nothing changes. */
  function Closure(b: Board, c: int, s: set<Coord>): set<Coord>
    decreases |b.Keys - s|
  {
    var s' := Step(b, c, s);
    if s' <= s then s
    else
      StepShrinks(b, c, s);
      Closure(b, c, s')
  }

  /** Every same-coloured neighbour of q lies in t. */
  ghost predicate ClosedAt(b: Board, c: int, q: Coord, t: set<Coord>) {
    forall p :: p in Neighbors(q) && p in b && b[p] == c ==> p in t
  }

  lemma ClosedAtMono(b: Board, c: int, q: Coord, t: set<Coord>, t': set<Coord>)
    requires ClosedAt(b, c, q, t) && t <= t'
    ensures ClosedAt(b, c, q, t')
  {
  }

  ghost predicate Closed(b: Board, c: int, t: set<Coord>) {
    forall q {:trigger ClosedAt(b, c, q, t)} :: q in t ==> ClosedAt(b, c, q, t)
  }

  /** q has an empty neighbour. */
  ghost predicate LibertyAt(b: Board, q: Coord) {
    exists p :: p in Neighbors(q) && p !in b
  }

  /** Some point of g has an empty neighbour. */
  ghost predicate HasLiberty(b: Board, g: set<Coord>) {
    exists q {:trigger LibertyAt(b, q)} :: q in g && LibertyAt(b, q)
  }

  lemma HasLibertyAdd(b: Board, s: set<Coord>, q: Coord)
    ensures HasLiberty(b, s + {q}) == (HasLiberty(b, s) || LibertyAt(b, q))
  {
    if HasLiberty(b, s + {q}) {
      var q' :| q' in s + {q} && LibertyAt(b, q');
      if q' != q { assert q' in s; }
    }
    if HasLiberty(b, s) {
      var q' :| q' in s && LibertyAt(b, q');
      assert q' in s + {q};
    }
    if LibertyAt(b, q) {
      assert q in s + {q};
    }
  }

  /** The neighbours of q that hold a stone of colour c. */
  ghost function SameColourNeighbours(b: Board, c: int, q: Coord): set<Coord> {
    set p | p in Neighbors(q) && p in b && b[p] == c
  }

  /** The distinct empty neighbours of g. */
  function Liberties(b: Board, g: set<Coord>): set<Coord> {
    set q, p | q in g && p in Neighbors(q) && p !in b :: p
  }

  lemma LibertiesNonEmpty(b: Board, g: set<Coord>)
    ensures |Liberties(b, g)| > 0 <==> HasLiberty(b, g)
  {
    if HasLiberty(b, g) {
      var q :| q in g && LibertyAt(b, q);
      var p :| p in Neighbors(q) && p !in b;
      assert p in Liberties(b, g);
    }
    if |Liberties(b, g)| > 0 {
      var p :| p in Liberties(b, g);
      var q :| q in g && p in Neighbors(q) && p !in b;
      assert LibertyAt(b, q);
    }
  }

  /** The closure contains its seed and is closed. */
  lemma {:induction false} ClosureClosed(b: Board, c: int, s: set<Coord>)
    ensures s <= Closure(b, c, s)
    ensures Closed(b, c, Closure(b, c, s))
    decreases |b.Keys - s|
  {
    var s' := Step(b, c, s);
    if s' <= s {
      forall q, p | q in s && p in Neighbors(q) && p in b && b[p] == c
        ensures p in s
      {
        assert p in s';
      }
    } else {
      StepShrinks(b, c, s);
      ClosureClosed(b, c, s');
    }
  }

  /** The closure is the least closed superset of its seed. */
  lemma {:induction false} ClosureLeast(b: Board, c: int, s: set<Coord>, t: set<Coord>)
    requires s <= t && Closed(b, c, t)
    ensures Closure(b, c, s) <= t
    decreases |b.Keys - s|
  {
    var s' := Step(b, c, s);
    if !(s' <= s) {
      forall p | p in s' ensures p in t {
        if p !in s {
          var q :| q in s && p in Neighbors(q);
          assert ClosedAt(b, c, q, t);
        }
      }
      StepShrinks(b, c, s);
      ClosureLeast(b, c, s', t);
    }
  }

  /** g is the least closed set holding start. */
  ghost predicate IsGroup(b: Board, start: Coord, c: int, g: set<Coord>) {
    start in g && Closed(b, c, g) &&
    forall t {:trigger Closed(b, c, t)} :: start in t && Closed(b, c, t) ==> g <= t
  }

  /** The closure of {start} is such a least closed set. */
  lemma GroupExists(b: Board, start: Coord, c: int)
    ensures exists g :: IsGroup(b, start, c, g)
  {
    var g := Closure(b, c, {start});
    ClosureClosed(b, c, {start});
    forall t | start in t && Closed(b, c, t) ensures g <= t {
      ClosureLeast(b, c, {start}, t);
    }
    assert IsGroup(b, start, c, g);
  }

  /**
   * The 4-connected group of colour c grown from start: the least set that
   * holds start and every same-coloured neighbour of its members.
   */
  ghost function Group(b: Board, start: Coord, c: int): (g: set<Coord>)
    ensures IsGroup(b, start, c, g)
  {
    GroupExists(b, start, c);
    var g :| IsGroup(b, start, c, g);
    g
  }

  /** The characterisation determines the group. */
  lemma IsGroupUnique(b: Board, start: Coord, c: int, g: set<Coord>)
    requires IsGroup(b, start, c, g)
    ensures g == Group(b, start, c)
  {
    var h := Group(b, start, c);
    assert Closed(b, c, g) && Closed(b, c, h);
  }

  /** The group, handed out through its characterisation only. */
  lemma SomeGroup(b: Board, start: Coord, c: int) returns (g: set<Coord>)
    ensures IsGroup(b, start, c, g)
  {
    g := Group(b, start, c);
  }

  /** Apart from the start, every member of a group has the group's colour. */
  lemma GroupColour(b: Board, start: Coord, c: int)
    ensures forall p :: p in Group(b, start, c) ==> p == start || (p in b && b[p] == c)
  {
    var t := {start} + set p | p in b && b[p] == c;
    assert Closed(b, c, t);
  }

  lemma GroupHasStart(b: Board, start: Coord, c: int)
    ensures start in Group(b, start, c)
  {
  }

  lemma GroupClosed(b: Board, start: Coord, c: int)
    ensures start in Group(b, start, c)
    ensures Closed(b, c, Group(b, start, c))
  {
  }

  /** Any closed set holding start holds its whole group. */
  lemma GroupLeast(b: Board, start: Coord, c: int, t: set<Coord>)
    requires start in t && Closed(b, c, t)
    ensures Group(b, start, c) <= t
  {
  }

  /** A group grown from an on-board point stays on the board. */
  lemma GroupOnBoard(b: Board, start: Coord, c: int)
    requires OnBoard(start)
    ensures forall p :: p in Group(b, start, c) ==> OnBoard(p)
  {
    var t := set p | p in {start} + b.Keys && OnBoard(p);
    forall q | q in t ensures ClosedAt(b, c, q, t) {
      forall p | p in Neighbors(q) && p in b && b[p] == c ensures p in t {
        NeighborsSymmetric(q, p);
      }
    }
    GroupLeast(b, start, c, t);
  }

  /**
   * On the board, a group is the group of each of its members: growing from
   * any stone of the group reaches the same set.
   */
  lemma GroupOfMember(b: Board, start: Coord, c: int, q: Coord)
    requires OnBoard(start) && start in b && b[start] == c
    requires q in Group(b, start, c)
    ensures Group(b, q, c) == Group(b, start, c)
  {
    var g := Group(b, start, c);
    GroupClosed(b, start, c);
    GroupColour(b, start, c);
    GroupOnBoard(b, start, c);
    // Members from which start can be grown back.
    var t := set x | x in g && start in Group(b, x, c);
    GroupClosed(b, start, c);
    forall x | x in t ensures ClosedAt(b, c, x, t) {
      forall y | y in Neighbors(x) && y in b && b[y] == c ensures y in t {
        assert ClosedAt(b, c, x, g);
        NeighborsSymmetric(x, y);
        GroupClosed(b, y, c);
        assert ClosedAt(b, c, y, Group(b, y, c));
        assert x in Group(b, y, c);
        GroupClosed(b, x, c);
        GroupLeast(b, x, c, Group(b, y, c));
      }
    }
    GroupLeast(b, start, c, t);
    assert q in t;
    GroupClosed(b, q, c);
    GroupLeast(b, start, c, Group(b, q, c));
    GroupLeast(b, q, c, g);
  }
}
