/**
 * src/components/ProblemList.tsx: the problem library sidebar.  Problems
 * are bucketed either flat, by category (explicit, or by the first keyword
 * table entry their title or label mentions), or nested, by volume group
 * and then category; each problem button is locked until its predecessor
 * in the same category is completed; the mistake view lists the problems
 * whose id is in the mistake list.
 *
 * A JavaScript object used as a record is a Records association list.
 * `localeCompare` is an abstract collation key `collate: string -> int`
 * (ties allowed).
 */
module ProblemList {
  import opened Wrappers
  import opened JsText
  import opened Records

  datatype Problem = Problem(id: string, title: string, labelText: Option<string>, category: Option<string>,
                             group: Option<string>)

  datatype FilterMode = All | Mistakes

  // ---------------------------------------------------------------------
  // Sorting entries by key
  // ---------------------------------------------------------------------

  /** The comparator as an order on keys: first by rank, then by collation key. */
  predicate Le(a: string, b: string, rank: string -> int, collate: string -> int) {
    rank(a) < rank(b) || (rank(a) == rank(b) && collate(a) <= collate(b))
  }

  predicate SortedBy<V>(t: seq<(string, V)>, rank: string -> int, collate: string -> int) {
    forall i, j :: 0 <= i < j < |t| ==> Le(t[i].0, t[j].0, rank, collate)
  }

  /** Insert x after every entry ordered at or before it. */
  function Insert<V(==)>(t: seq<(string, V)>, x: (string, V), rank: string -> int, collate: string -> int)
    : (r: seq<(string, V)>)
    ensures |r| == |t| + 1
    ensures multiset(r) == multiset(t) + multiset{x}
    decreases |t|
  {
    if t == [] || Le(t[|t| - 1].0, x.0, rank, collate) then t + [x]
    else
      assert t == t[..|t| - 1] + [t[|t| - 1]];
      Insert(t[..|t| - 1], x, rank, collate) + [t[|t| - 1]]
  }

  /** `array.sort(comparator)`, as a stable insertion sort. */
  function SortEntries<V(==)>(s: seq<(string, V)>, rank: string -> int, collate: string -> int)
    : (r: seq<(string, V)>)
    ensures |r| == |s| && multiset(r) == multiset(s)
    decreases |s|
  {
    if s == [] then []
    else
      assert s == s[..|s| - 1] + [s[|s| - 1]];
      Insert(SortEntries(s[..|s| - 1], rank, collate), s[|s| - 1], rank, collate)
  }

  lemma {:induction false} InsertSorted<V>(t: seq<(string, V)>, x: (string, V), rank: string -> int,
                                                collate: string -> int)
    requires SortedBy(t, rank, collate)
    ensures SortedBy(Insert(t, x, rank, collate), rank, collate)
    decreases |t|
  {
    if t == [] || Le(t[|t| - 1].0, x.0, rank, collate) {
    } else {
      var front, last := t[..|t| - 1], t[|t| - 1];
      InsertSorted(front, x, rank, collate);
      var r' := Insert(front, x, rank, collate);
      forall i | 0 <= i < |r'|
        ensures Le(r'[i].0, last.0, rank, collate)
      {
        assert r'[i] in multiset(r');
        assert r'[i] in front || r'[i] == x;
      }
    }
  }

  lemma {:induction false} SortSorted<V>(s: seq<(string, V)>, rank: string -> int, collate: string -> int)
    ensures SortedBy(SortEntries(s, rank, collate), rank, collate)
    decreases |s|
  {
    if s != [] {
      SortSorted(s[..|s| - 1], rank, collate);
      InsertSorted(SortEntries(s[..|s| - 1], rank, collate), s[|s| - 1], rank, collate);
    }
  }

  /** Sorting keeps the set of keys. */
  lemma SortKeys<V>(s: seq<(string, V)>, rank: string -> int, collate: string -> int)
    ensures forall k :: HasKey(SortEntries(s, rank, collate), k) <==> HasKey(s, k)
  {
    var t := SortEntries(s, rank, collate);
    forall k
      ensures HasKey(t, k) <==> HasKey(s, k)
    {
      if HasKey(t, k) {
        var i :| 0 <= i < |t| && t[i].0 == k;
        assert t[i] in multiset(s);
        var j :| 0 <= j < |s| && s[j] == t[i];
      }
      if HasKey(s, k) {
        var j :| 0 <= j < |s| && s[j].0 == k;
        assert s[j] in multiset(t);
        var i :| 0 <= i < |t| && t[i] == s[j];
      }
    }
  }

  lemma {:induction false} InsertDistinct<V>(t: seq<(string, V)>, x: (string, V), rank: string -> int,
                                                  collate: string -> int)
    requires DistinctKeys(t) && forall e :: e in t ==> e.0 != x.0
    ensures DistinctKeys(Insert(t, x, rank, collate))
    decreases |t|
  {
    if t == [] || Le(t[|t| - 1].0, x.0, rank, collate) {
    } else {
      var front, last := t[..|t| - 1], t[|t| - 1];
      assert forall e :: e in front ==> e in t;
      InsertDistinct(front, x, rank, collate);
      var r' := Insert(front, x, rank, collate);
      forall i | 0 <= i < |r'|
        ensures r'[i].0 != last.0
      {
        assert r'[i] in multiset(r');
        if r'[i] != x {
          assert r'[i] in front;
          var j :| 0 <= j < |front| && front[j] == r'[i];
        }
      }
    }
  }

  /** Sorting keeps the keys distinct. */
  lemma {:induction false} SortDistinct<V>(s: seq<(string, V)>, rank: string -> int, collate: string -> int)
    requires DistinctKeys(s)
    ensures DistinctKeys(SortEntries(s, rank, collate))
    decreases |s|
  {
    if s != [] {
      var front, last := s[..|s| - 1], s[|s| - 1];
      SortDistinct(front, rank, collate);
      var t := SortEntries(front, rank, collate);
      forall e | e in t
        ensures e.0 != last.0
      {
        assert e in multiset(t);
        var j :| 0 <= j < |front| && front[j] == e;
      }
      InsertDistinct(t, last, rank, collate);
    }
  }

  // ---------------------------------------------------------------------
  // Grouping problems by a key
  // ---------------------------------------------------------------------

  predicate Occurs(ps: seq<Problem>, f: Problem -> string, k: string) {
    exists j :: 0 <= j < |ps| && f(ps[j]) == k
  }

  /** The problems whose key is k, in library order. */
  function Filter(ps: seq<Problem>, f: Problem -> string, k: string): (r: seq<Problem>)
    ensures forall p :: p in r <==> p in ps && f(p) == k
  {
    if ps == [] then []
    else Filter(ps[..|ps| - 1], f, k) + (if f(ps[|ps| - 1]) == k then [ps[|ps| - 1]] else [])
  }

  lemma FilterEmpty(ps: seq<Problem>, f: Problem -> string, k: string)
    ensures Filter(ps, f, k) == [] <==> !Occurs(ps, f, k)
  {
    if Occurs(ps, f, k) {
      var j :| 0 <= j < |ps| && f(ps[j]) == k;
      assert ps[j] in Filter(ps, f, k);
    }
    if Filter(ps, f, k) != [] {
      var q := Filter(ps, f, k)[0];
      assert q in Filter(ps, f, k);
      var j :| 0 <= j < |ps| && ps[j] == q;
    }
  }

  /** A last problem with another key changes neither the occurrence nor the filter. */
  lemma OccursFront(ps: seq<Problem>, f: Problem -> string, k: string)
    requires |ps| > 0 && f(ps[|ps| - 1]) != k
    ensures Occurs(ps, f, k) == Occurs(ps[..|ps| - 1], f, k)
    ensures Filter(ps, f, k) == Filter(ps[..|ps| - 1], f, k)
  {
    var front := ps[..|ps| - 1];
    if Occurs(ps, f, k) {
      var j :| 0 <= j < |ps| && f(ps[j]) == k;
      assert front[j] == ps[j];
    }
    if Occurs(front, f, k) {
      var j :| 0 <= j < |front| && f(front[j]) == k;
      assert front[j] == ps[j];
    }
  }

  /** `record[k].push(p)`, creating the list when missing. */
  function PushProblem(r: seq<(string, seq<Problem>)>, k: string, p: Problem): seq<(string, seq<Problem>)> {
    Put(r, k, (if Get(r, k).Some? then Get(r, k).value else []) + [p])
  }

  /** A record after a forEach that pushes every problem under its key, starting from `init`. */
  function Grouped(ps: seq<Problem>, f: Problem -> string, init: seq<(string, seq<Problem>)>)
    : seq<(string, seq<Problem>)>
  {
    if ps == [] then init
    else PushProblem(Grouped(ps[..|ps| - 1], f, init), f(ps[|ps| - 1]), ps[|ps| - 1])
  }

  predicate EmptyRecord(init: seq<(string, seq<Problem>)>) {
    DistinctKeys(init) && forall i :: 0 <= i < |init| ==> init[i].1 == []
  }

  /**
   * The grouping holds the initial keys and the key of every problem, and
   * nothing else, each with exactly the problems of that key, in order.
   */
  lemma {:induction false} GroupedSpec(ps: seq<Problem>, f: Problem -> string, init: seq<(string, seq<Problem>)>)
    requires EmptyRecord(init)
    ensures DistinctKeys(Grouped(ps, f, init))
    ensures forall k :: Get(Grouped(ps, f, init), k) ==
              if HasKey(init, k) || Occurs(ps, f, k) then Some(Filter(ps, f, k)) else None
    decreases |ps|
  {
    if ps == [] {
      forall k
        ensures Get(init, k) == if HasKey(init, k) then Some([]) else None
      {
        if HasKey(init, k) {
          var i :| 0 <= i < |init| && init[i].0 == k;
          GetMember(init, i);
        }
      }
    } else {
      var front, p := ps[..|ps| - 1], ps[|ps| - 1];
      GroupedSpec(front, f, init);
      var r := Grouped(front, f, init);
      var v := (if Get(r, f(p)).Some? then Get(r, f(p)).value else []) + [p];
      PutSpec(r, f(p), v);
      assert forall j :: 0 <= j < |front| ==> front[j] == ps[j];
      forall k
        ensures Get(Grouped(ps, f, init), k) ==
                  if HasKey(init, k) || Occurs(ps, f, k) then Some(Filter(ps, f, k)) else None
      {
        if k != f(p) {
          OccursFront(ps, f, k);
        } else {
          assert f(ps[|ps| - 1]) == k;
          FilterEmpty(front, f, k);
        }
      }
    }
  }

  /** `.filter(k => record[k].length > 0)` on the record's entries. */
  function NonEmpty(r: seq<(string, seq<Problem>)>): (e: seq<(string, seq<Problem>)>)
    ensures forall x :: x in e <==> x in r && |x.1| > 0
  {
    if r == [] then []
    else NonEmpty(r[..|r| - 1]) + (if |r[|r| - 1].1| > 0 then [r[|r| - 1]] else [])
  }

  lemma {:induction false} NonEmptyDistinct(r: seq<(string, seq<Problem>)>)
    requires DistinctKeys(r)
    ensures DistinctKeys(NonEmpty(r))
    decreases |r|
  {
    if r != [] {
      var front := r[..|r| - 1];
      NonEmptyDistinct(front);
      forall x | x in NonEmpty(front)
        ensures x.0 != r[|r| - 1].0
      {
        var j :| 0 <= j < |front| && front[j] == x;
      }
    }
  }

  /** Filtering a record of non-empty lists changes nothing. */
  lemma {:induction false} NonEmptyAll(r: seq<(string, seq<Problem>)>)
    requires forall i :: 0 <= i < |r| ==> |r[i].1| > 0
    ensures NonEmpty(r) == r
    decreases |r|
  {
    if r != [] {
      var front, last := r[..|r| - 1], r[|r| - 1];
      assert r == front + [last];
      NonEmptyAll(front);
    }
  }

  /** A grouping from an empty record has no empty list. */
  lemma GroupedNonEmpty(ps: seq<Problem>, f: Problem -> string)
    ensures NonEmpty(Grouped(ps, f, [])) == Grouped(ps, f, [])
  {
    var r := Grouped(ps, f, []);
    GroupedSpec(ps, f, []);
    forall i | 0 <= i < |r|
      ensures |r[i].1| > 0
    {
      GetMember(r, i);
      FilterEmpty(ps, f, r[i].0);
    }
    NonEmptyAll(r);
  }

  /** An entry of the sorted view is an entry of the grouping. */
  lemma SortedViewEntry(ps: seq<Problem>, f: Problem -> string, init: seq<(string, seq<Problem>)>,
                        rank: string -> int, collate: string -> int, i: nat)
    requires EmptyRecord(init)
    requires i < |SortEntries(NonEmpty(Grouped(ps, f, init)), rank, collate)|
    ensures var v := SortEntries(NonEmpty(Grouped(ps, f, init)), rank, collate);
            v[i].1 == Filter(ps, f, v[i].0) && |v[i].1| > 0
  {
    var r := Grouped(ps, f, init);
    var e := NonEmpty(r);
    var v := SortEntries(e, rank, collate);
    var x := v[i];
    assert x in multiset(v);
    assert x in multiset(e);
    assert x in e;
    assert x in r && |x.1| > 0;
    GroupedSpec(ps, f, init);
    var m :| 0 <= m < |r| && r[m] == x;
    GetMember(r, m);
    assert Get(r, x.0) == Some(x.1);
    assert Get(r, x.0) == if HasKey(init, x.0) || Occurs(ps, f, x.0) then Some(Filter(ps, f, x.0)) else None;
    assert x.1 == Filter(ps, f, x.0);
  }

  /** A key has an entry in the sorted view exactly when some problem has it. */
  lemma SortedViewKey(ps: seq<Problem>, f: Problem -> string, init: seq<(string, seq<Problem>)>,
                      rank: string -> int, collate: string -> int, k: string)
    requires EmptyRecord(init)
    ensures HasKey(SortEntries(NonEmpty(Grouped(ps, f, init)), rank, collate), k) <==> Occurs(ps, f, k)
  {
    var r := Grouped(ps, f, init);
    var v := SortEntries(NonEmpty(r), rank, collate);
    if HasKey(v, k) {
      var i :| 0 <= i < |v| && v[i].0 == k;
      SortedViewEntry(ps, f, init, rank, collate, i);
      FilterEmpty(ps, f, k);
    }
    if Occurs(ps, f, k) {
      GroupedSpec(ps, f, init);
      FilterEmpty(ps, f, k);
      GetSome(r, k);
      var e := (k, Filter(ps, f, k));
      assert e in NonEmpty(r);
      assert e in multiset(v);
      var i :| 0 <= i < |v| && v[i] == e;
    }
  }

  /**
   * The non-empty lists of a grouping, sorted: one entry per key some
   * problem has, holding exactly the problems of that key in library
   * order, the keys distinct and in comparator order.
   */
  lemma SortedView(ps: seq<Problem>, f: Problem -> string, init: seq<(string, seq<Problem>)>,
                   rank: string -> int, collate: string -> int)
    requires EmptyRecord(init)
    ensures var v := SortEntries(NonEmpty(Grouped(ps, f, init)), rank, collate);
            && DistinctKeys(v) && SortedBy(v, rank, collate)
            && (forall i :: 0 <= i < |v| ==> v[i].1 == Filter(ps, f, v[i].0) && |v[i].1| > 0)
            && forall k :: HasKey(v, k) <==> Occurs(ps, f, k)
  {
    var r := Grouped(ps, f, init);
    var v := SortEntries(NonEmpty(r), rank, collate);
    GroupedSpec(ps, f, init);
    NonEmptyDistinct(r);
    SortDistinct(NonEmpty(r), rank, collate);
    SortSorted(NonEmpty(r), rank, collate);
    forall i | 0 <= i < |v|
      ensures v[i].1 == Filter(ps, f, v[i].0) && |v[i].1| > 0
    {
      SortedViewEntry(ps, f, init, rank, collate, i);
    }
    forall k
      ensures HasKey(v, k) <==> Occurs(ps, f, k)
    {
      SortedViewKey(ps, f, init, rank, collate, k);
    }
  }

  // ---------------------------------------------------------------------
  // Flat categories
  // ---------------------------------------------------------------------

  const Other: string := "其他 (Other)"

  const DefaultCategory: string := "默认"

  /** CATEGORY_MAP, in declaration order. */
  const CategoryMap: seq<(string, seq<string>)> := [
    ("联络 (Connection)", ["联络", "接不归", "渡", "连"]),
    ("切断 (Cutting)", ["切断", "枷吃", "分断", "断", "征子"]),
    ("攻击与杀气 (Attack & Semai)", ["攻击", "腾挪", "脱险", "整形", "杀气", "气", "对杀", "杀棋"]),
    ("官子 (Endgame)", ["官子", "收官", "目"])
  ]

  /** The buckets the component creates first: the keyword table's, then Other. */
  function InitialRecord(): seq<(string, seq<Problem>)> {
    [(CategoryMap[0].0, []), (CategoryMap[1].0, []), (CategoryMap[2].0, []), (CategoryMap[3].0, []), (Other, [])]
  }

  lemma InitialEmpty()
    ensures EmptyRecord(InitialRecord())
  {
    var r := InitialRecord();
    assert r[0].0[0] == '联' && r[1].0[0] == '切' && r[2].0[0] == '攻' && r[3].0[0] == '官' && r[4].0[0] == '其';
  }

  /** The keyword table position of a bucket name, or 4 for every other name. */
  function Rank(k: string): (r: int)
    ensures 0 <= r <= 4
    ensures r < 4 ==> k == CategoryMap[r].0
  {
    if k == CategoryMap[0].0 then 0
    else if k == CategoryMap[1].0 then 1
    else if k == CategoryMap[2].0 then 2
    else if k == CategoryMap[3].0 then 3
    else 4
  }

  predicate Mentions(p: Problem, k: string) {
    Includes(p.title, k) || (Truthy(p.labelText) && Includes(p.labelText.value, k))
  }

  /** `keywords.some(k => title or label includes k)`. */
  predicate AnyKeyword(p: Problem, keywords: seq<string>) {
    exists j :: 0 <= j < |keywords| && Mentions(p, keywords[j])
  }

  /** The first keyword table entry, from i on, whose keywords the problem mentions. */
  function FirstEntry(p: Problem, i: nat): (r: Option<nat>)
    requires i <= |CategoryMap|
    ensures r.Some? ==> i <= r.value < |CategoryMap| && AnyKeyword(p, CategoryMap[r.value].1) &&
                        forall j :: i <= j < r.value ==> !AnyKeyword(p, CategoryMap[j].1)
    ensures r.None? ==> forall j :: i <= j < |CategoryMap| ==> !AnyKeyword(p, CategoryMap[j].1)
    decreases |CategoryMap| - i
  {
    if i == |CategoryMap| then None
    else if AnyKeyword(p, CategoryMap[i].1) then Some(i)
    else FirstEntry(p, i + 1)
  }

  /** The flat bucket of one problem. */
  function BucketOf(p: Problem): string {
    if Truthy(p.category) then p.category.value
    else match FirstEntry(p, 0)
      case Some(i) => CategoryMap[i].0
      case None => Other
  }

  /**
   * An explicit category wins; otherwise the first table entry in
   * declaration order that the title or label mentions a keyword of, and
   * Other when none does.
   */
  lemma BucketOfSpec(p: Problem)
    ensures Truthy(p.category) ==> BucketOf(p) == p.category.value
    ensures !Truthy(p.category) ==>
              forall i :: 0 <= i < |CategoryMap| ==>
                (BucketOf(p) == CategoryMap[i].0 <==>
                   AnyKeyword(p, CategoryMap[i].1) && forall j :: 0 <= j < i ==> !AnyKeyword(p, CategoryMap[j].1))
    ensures !Truthy(p.category) ==>
              (BucketOf(p) == Other <==> forall j :: 0 <= j < |CategoryMap| ==> !AnyKeyword(p, CategoryMap[j].1))
  {
    InitialEmpty();
    assert forall i :: 0 <= i < 4 ==> InitialRecord()[i].0 == CategoryMap[i].0;
  }

  predicate HasGroups(ps: seq<Problem>) {
    exists j :: 0 <= j < |ps| && Truthy(ps[j].group)
  }

  /**
   * `flatData`: with no groups, the non-empty buckets sorted with the keyword
   * table's first, in declaration order, and the rest by collation.  Sorting
   * the entries by key is sorting the keys, since the keys are distinct.
   */
  function FlatData(ps: seq<Problem>, collate: string -> int): seq<(string, seq<Problem>)> {
    if HasGroups(ps) then [] else SortEntries(NonEmpty(Grouped(ps, BucketOf, InitialRecord())), Rank, collate)
  }

  /**
   * The flat view has one entry per bucket some problem has, and its list is
   * exactly the problems of that bucket, in library order.
   */
  lemma FlatEntries(ps: seq<Problem>, collate: string -> int)
    requires !HasGroups(ps)
    ensures var f := FlatData(ps, collate);
            && DistinctKeys(f)
            && (forall i :: 0 <= i < |f| ==> f[i].1 == Filter(ps, BucketOf, f[i].0) && |f[i].1| > 0)
            && forall k :: HasKey(f, k) <==> Occurs(ps, BucketOf, k)
  {
    InitialEmpty();
    SortedView(ps, BucketOf, InitialRecord(), Rank, collate);
  }

  /** Every problem is listed in exactly one bucket of the flat view, the one BucketOf names. */
  lemma ExactlyOneBucket(ps: seq<Problem>, collate: string -> int, j: nat)
    requires !HasGroups(ps) && j < |ps|
    ensures var f := FlatData(ps, collate);
            && (exists i :: 0 <= i < |f| && f[i].0 == BucketOf(ps[j]) && ps[j] in f[i].1)
            && forall i :: 0 <= i < |f| && ps[j] in f[i].1 ==> f[i].0 == BucketOf(ps[j])
  {
    var f := FlatData(ps, collate);
    FlatEntries(ps, collate);
    assert Occurs(ps, BucketOf, BucketOf(ps[j]));
    var i :| 0 <= i < |f| && f[i].0 == BucketOf(ps[j]);
    assert ps[j] in Filter(ps, BucketOf, f[i].0);
  }

  /**
   * The keyword table's buckets come first, in declaration order, before all
   * others; the others follow in collation order.
   */
  lemma FlatOrder(ps: seq<Problem>, collate: string -> int, i: nat, j: nat)
    requires !HasGroups(ps)
    requires i < j < |FlatData(ps, collate)|
    ensures var f := FlatData(ps, collate);
            && (Rank(f[j].0) < 4 ==> Rank(f[i].0) < Rank(f[j].0))
            && (Rank(f[i].0) == 4 ==> Rank(f[j].0) == 4 && collate(f[i].0) <= collate(f[j].0))
  {
    var f := FlatData(ps, collate);
    InitialEmpty();
    SortedView(ps, BucketOf, InitialRecord(), Rank, collate);
    assert Le(f[i].0, f[j].0, Rank, collate);
    assert f[i].0 != f[j].0;
  }

  /** The bucket the component's loop computes; the inner loop is the `for ... of` over the table with `break`. */
  method BucketFor(p: Problem) returns (name: string)
    ensures name == BucketOf(p)
  {
    if Truthy(p.category) {
      return p.category.value;
    }
    var i := 0;
    while i < |CategoryMap|
      invariant 0 <= i <= |CategoryMap|
      invariant FirstEntry(p, 0) == FirstEntry(p, i)
    {
      if AnyKeyword(p, CategoryMap[i].1) {
        return CategoryMap[i].0;
      }
      i := i + 1;
    }
    return Other;
  }

  /** `flatData`: bucket with forEach pushes, drop empty buckets, sort. */
  method BuildFlat(ps: seq<Problem>, collate: string -> int) returns (r: seq<(string, seq<Problem>)>)
    ensures r == FlatData(ps, collate)
  {
    if exists j :: 0 <= j < |ps| && Truthy(ps[j].group) {
      return [];
    }
    var categories := InitialRecord();
    var i := 0;
    while i < |ps|
      invariant 0 <= i <= |ps|
      invariant categories == Grouped(ps[..i], BucketOf, InitialRecord())
    {
      assert ps[..i + 1][..i] == ps[..i];
      var name := BucketFor(ps[i]);
      var list := if Get(categories, name).Some? then Get(categories, name).value else [];
      categories := Put(categories, name, list + [ps[i]]);
      i := i + 1;
    }
    assert ps[..i] == ps;
    r := SortEntries(NonEmpty(categories), Rank, collate);
  }

  // ---------------------------------------------------------------------
  // Nested groups
  // ---------------------------------------------------------------------

  function GroupOf(p: Problem): string {
    if Truthy(p.group) then p.group.value else Other
  }

  function CategoryOf(p: Problem): string {
    if Truthy(p.category) then p.category.value else DefaultCategory
  }

  function Inner(r: seq<(string, seq<(string, seq<Problem>)>)>, g: string): seq<(string, seq<Problem>)> {
    if Get(r, g).Some? then Get(r, g).value else []
  }

  /** The groups record after the forEach over the problems. */
  function GroupRecord(ps: seq<Problem>): seq<(string, seq<(string, seq<Problem>)>)> {
    if ps == [] then []
    else
      var r, p := GroupRecord(ps[..|ps| - 1]), ps[|ps| - 1];
      Put(r, GroupOf(p), PushProblem(Inner(r, GroupOf(p)), CategoryOf(p), p))
  }

  /**
   * The record has a group exactly for each group some problem has, and its
   * categories record is the grouping by category of that group's problems.
   */
  lemma {:induction false} GroupRecordSpec(ps: seq<Problem>)
    ensures DistinctKeys(GroupRecord(ps))
    ensures forall g :: Get(GroupRecord(ps), g) ==
              if Occurs(ps, GroupOf, g) then Some(Grouped(Filter(ps, GroupOf, g), CategoryOf, [])) else None
    decreases |ps|
  {
    if ps != [] {
      var front, p := ps[..|ps| - 1], ps[|ps| - 1];
      GroupRecordSpec(front);
      var r := GroupRecord(front);
      var g0 := GroupOf(p);
      var sub := Filter(front, GroupOf, g0);
      FilterEmpty(front, GroupOf, g0);
      assert Inner(r, g0) == Grouped(sub, CategoryOf, []);
      var inner' := PushProblem(Inner(r, g0), CategoryOf(p), p);
      assert Filter(ps, GroupOf, g0) == sub + [p];
      assert (sub + [p])[..|sub|] == sub;
      assert inner' == Grouped(Filter(ps, GroupOf, g0), CategoryOf, []);
      PutSpec(r, g0, inner');
      assert GroupRecord(ps) == Put(r, g0, inner');
      forall g
        ensures Get(GroupRecord(ps), g) ==
                  if Occurs(ps, GroupOf, g) then Some(Grouped(Filter(ps, GroupOf, g), CategoryOf, [])) else None
      {
        if g != g0 {
          OccursFront(ps, GroupOf, g);
        } else {
          assert GroupOf(ps[|ps| - 1]) == g;
        }
      }
    }
  }

  const Flat: string -> int := (k: string) => 0

  /**
   * `nestedData`: with groups, the groups sorted by one collation and, in
   * each, the categories sorted by another.
   */
  function NestedData(ps: seq<Problem>, collateGroup: string -> int, collateCategory: string -> int)
    : seq<(string, seq<(string, seq<Problem>)>)>
  {
    if !HasGroups(ps) then []
    else
      var gs := SortEntries(GroupRecord(ps), Flat, collateGroup);
      seq(|gs|, i requires 0 <= i < |gs| => (gs[i].0, SortEntries(gs[i].1, Flat, collateCategory)))
  }

  /**
   * The nested view has one entry per group of some problem, in group
   * collation order; in each, one entry per category of a problem of that
   * group, in category collation order, holding exactly those problems in
   * library order.
   */
  lemma NestedEntries(ps: seq<Problem>, collateGroup: string -> int, collateCategory: string -> int)
    requires HasGroups(ps)
    ensures var n := NestedData(ps, collateGroup, collateCategory);
            && DistinctKeys(n)
            && (forall g :: HasKey(n, g) <==> Occurs(ps, GroupOf, g))
            && (forall i, j :: 0 <= i < j < |n| ==> collateGroup(n[i].0) <= collateGroup(n[j].0))
            && forall i :: 0 <= i < |n| ==>
                 var sub, cs := Filter(ps, GroupOf, n[i].0), n[i].1;
                 && DistinctKeys(cs)
                 && (forall c :: HasKey(cs, c) <==> Occurs(sub, CategoryOf, c))
                 && (forall m :: 0 <= m < |cs| ==> cs[m].1 == Filter(sub, CategoryOf, cs[m].0) && |cs[m].1| > 0)
                 && (forall m, m' :: 0 <= m < m' < |cs| ==> collateCategory(cs[m].0) <= collateCategory(cs[m'].0))
  {
    var gs := SortEntries(GroupRecord(ps), Flat, collateGroup);
    var n := NestedData(ps, collateGroup, collateCategory);
    NestedKeys(ps, collateGroup, collateCategory);
    forall i | 0 <= i < |n|
      ensures var sub, cs := Filter(ps, GroupOf, n[i].0), n[i].1;
              && DistinctKeys(cs)
              && (forall c :: HasKey(cs, c) <==> Occurs(sub, CategoryOf, c))
              && (forall m :: 0 <= m < |cs| ==> cs[m].1 == Filter(sub, CategoryOf, cs[m].0) && |cs[m].1| > 0)
              && (forall m, m' :: 0 <= m < m' < |cs| ==> collateCategory(cs[m].0) <= collateCategory(cs[m'].0))
    {
      assert gs[i] in multiset(gs);
      NestedGroup(ps, gs[i], collateCategory);
      SortedView(Filter(ps, GroupOf, gs[i].0), CategoryOf, [], Flat, collateCategory);
    }
  }

  /** The groups of the nested view: distinct, one per group some problem has, in collation order. */
  lemma NestedKeys(ps: seq<Problem>, collateGroup: string -> int, collateCategory: string -> int)
    requires HasGroups(ps)
    ensures var n := NestedData(ps, collateGroup, collateCategory);
            && DistinctKeys(n)
            && (forall g :: HasKey(n, g) <==> Occurs(ps, GroupOf, g))
            && (forall i, j :: 0 <= i < j < |n| ==> collateGroup(n[i].0) <= collateGroup(n[j].0))
  {
    var gs := SortEntries(GroupRecord(ps), Flat, collateGroup);
    var n := NestedData(ps, collateGroup, collateCategory);
    SortedGroups(ps, collateGroup);
    forall i | 0 <= i < |n|
      ensures n[i].0 == gs[i].0
    {
    }
    SameKeys(gs, n, collateGroup);
  }

  /** Two records with the same keys at the same places agree on distinctness, key membership and key order. */
  lemma SameKeys<A, B>(a: seq<(string, A)>, b: seq<(string, B)>, collate: string -> int)
    requires |a| == |b| && forall i :: 0 <= i < |a| ==> a[i].0 == b[i].0
    ensures DistinctKeys(a) ==> DistinctKeys(b)
    ensures forall k :: HasKey(b, k) <==> HasKey(a, k)
    ensures (forall i, j :: 0 <= i < j < |a| ==> collate(a[i].0) <= collate(a[j].0)) ==>
              forall i, j :: 0 <= i < j < |b| ==> collate(b[i].0) <= collate(b[j].0)
  {
    forall k | HasKey(a, k)
      ensures HasKey(b, k)
    {
      var i :| 0 <= i < |a| && a[i].0 == k;
      assert b[i].0 == k;
    }
  }

  /** The group record sorted by group collation. */
  lemma SortedGroups(ps: seq<Problem>, collateGroup: string -> int)
    ensures var gs := SortEntries(GroupRecord(ps), Flat, collateGroup);
            && DistinctKeys(gs)
            && (forall g :: HasKey(gs, g) <==> Occurs(ps, GroupOf, g))
            && (forall i, j :: 0 <= i < j < |gs| ==> collateGroup(gs[i].0) <= collateGroup(gs[j].0))
  {
    var r := GroupRecord(ps);
    GroupRecordKeys(ps);
    SortDistinct(r, Flat, collateGroup);
    SortSorted(r, Flat, collateGroup);
    SortKeys(r, Flat, collateGroup);
  }

  /** The record's keys are the groups that occur. */
  lemma GroupRecordKeys(ps: seq<Problem>)
    ensures DistinctKeys(GroupRecord(ps))
    ensures forall g :: HasKey(GroupRecord(ps), g) <==> Occurs(ps, GroupOf, g)
  {
    var r := GroupRecord(ps);
    GroupRecordSpec(ps);
    forall g
      ensures HasKey(r, g) <==> Occurs(ps, GroupOf, g)
    {
      if HasKey(r, g) {
        var i :| 0 <= i < |r| && r[i].0 == g;
        GetMember(r, i);
      }
      if Occurs(ps, GroupOf, g) {
        GetSome(r, g);
        var e := (g, Get(r, g).value);
        var i :| 0 <= i < |r| && r[i] == e;
      }
    }
  }

  /** One group of the record: its categories, sorted, are the sorted view of that group's problems. */
  lemma NestedGroup(ps: seq<Problem>, e: (string, seq<(string, seq<Problem>)>), collateCategory: string -> int)
    requires e in GroupRecord(ps)
    ensures SortEntries(e.1, Flat, collateCategory) ==
              SortEntries(NonEmpty(Grouped(Filter(ps, GroupOf, e.0), CategoryOf, [])), Flat, collateCategory)
  {
    var r := GroupRecord(ps);
    var sub := Filter(ps, GroupOf, e.0);
    GroupRecordSpec(ps);
    var m :| 0 <= m < |r| && r[m] == e;
    GetMember(r, m);
    GroupedNonEmpty(sub, CategoryOf);
  }

  /** `nestedData`: group with forEach pushes, then sort groups and categories. */
  method BuildNested(ps: seq<Problem>, collateGroup: string -> int, collateCategory: string -> int)
    returns (r: seq<(string, seq<(string, seq<Problem>)>)>)
    ensures r == NestedData(ps, collateGroup, collateCategory)
  {
    if !exists j :: 0 <= j < |ps| && Truthy(ps[j].group) {
      return [];
    }
    var groups: seq<(string, seq<(string, seq<Problem>)>)> := [];
    var i := 0;
    while i < |ps|
      invariant 0 <= i <= |ps|
      invariant groups == GroupRecord(ps[..i])
    {
      assert ps[..i + 1][..i] == ps[..i];
      var p := ps[i];
      var groupName := GroupOf(p);
      var inner := Inner(groups, groupName);
      var catName := CategoryOf(p);
      groups := Put(groups, groupName, PushProblem(inner, catName, p));
      i := i + 1;
    }
    assert ps[..i] == ps;
    var gs := SortEntries(groups, Flat, collateGroup);
    r := seq(|gs|, k requires 0 <= k < |gs| => (gs[k].0, SortEntries(gs[k].1, Flat, collateCategory)));
  }

  /**
   * Exactly one of the two views is built: the nested one iff some problem
   * has a group, and a non-empty library gives a non-empty view.
   */
  lemma ViewChoice(ps: seq<Problem>, collate: string -> int, collateGroup: string -> int,
                   collateCategory: string -> int)
    ensures HasGroups(ps) ==> FlatData(ps, collate) == [] && |NestedData(ps, collateGroup, collateCategory)| > 0
    ensures !HasGroups(ps) ==> NestedData(ps, collateGroup, collateCategory) == [] &&
                               (|ps| > 0 ==> |FlatData(ps, collate)| > 0)
  {
    if HasGroups(ps) {
      NestedEntries(ps, collateGroup, collateCategory);
      assert Occurs(ps, GroupOf, GroupOf(ps[0]));
    } else if |ps| > 0 {
      FlatEntries(ps, collate);
      assert Occurs(ps, BucketOf, BucketOf(ps[0]));
    }
  }

  // ---------------------------------------------------------------------
  // Locking, clicking, mistakes
  // ---------------------------------------------------------------------

  /** `categoryList.findIndex(p => p.id === id)`, -1 when absent. */
  function FindIndex(list: seq<Problem>, id: string): (r: int)
    ensures -1 <= r < |list|
    ensures r >= 0 ==> list[r].id == id && forall j :: 0 <= j < r ==> list[j].id != id
    ensures r == -1 ==> forall j :: 0 <= j < |list| ==> list[j].id != id
  {
    if list == [] then -1
    else
      var r := FindIndex(list[..|list| - 1], id);
      if r >= 0 then r else if list[|list| - 1].id == id then |list| - 1 else -1
  }

  /** The progression lock of `renderProblemButton`. */
  function Locked(p: Problem, categoryList: Option<seq<Problem>>, completed: seq<string>, mode: FilterMode): bool {
    if p.id !in completed && mode == All && categoryList.Some? then
      var list := categoryList.value;
      var idx := FindIndex(list, p.id);
      if idx > 0 then list[idx - 1].id !in completed else false
    else false
  }

  /**
   * A problem is locked exactly when it is unsolved, the view is ALL with a
   * category list, its first occurrence in the list is not the first
   * position, and the problem just before that occurrence is not completed.
   */
  lemma LockedIff(p: Problem, categoryList: Option<seq<Problem>>, completed: seq<string>, mode: FilterMode)
    ensures Locked(p, categoryList, completed, mode) <==>
              && p.id !in completed && mode == All && categoryList.Some?
              && exists i :: 0 < i < |categoryList.value| && categoryList.value[i].id == p.id
                             && (forall j :: 0 <= j < i ==> categoryList.value[j].id != p.id)
                             && categoryList.value[i - 1].id !in completed
  {
    if p.id !in completed && mode == All && categoryList.Some? {
      var list := categoryList.value;
      var idx := FindIndex(list, p.id);
      if exists i :: 0 < i < |list| && list[i].id == p.id && (forall j :: 0 <= j < i ==> list[j].id != p.id)
                     && list[i - 1].id !in completed {
        var i :| 0 < i < |list| && list[i].id == p.id && (forall j :: 0 <= j < i ==> list[j].id != p.id)
                 && list[i - 1].id !in completed;
        assert idx == i;
      }
    }
  }

  /** The first problem of a category and a solved problem are never locked, nor is any in the mistake view. */
  lemma NeverLocked(p: Problem, list: seq<Problem>, completed: seq<string>, mode: FilterMode)
    ensures |list| > 0 && list[0].id == p.id ==> !Locked(p, Some(list), completed, mode)
    ensures p.id in completed ==> !Locked(p, Some(list), completed, mode)
    ensures mode == Mistakes ==> !Locked(p, Some(list), completed, mode)
  {
  }

  /** The button's click: a locked problem selects nothing, any other selects itself. */
  function Click(p: Problem, locked: bool): (r: Option<Problem>)
    ensures r.Some? <==> !locked
    ensures r.Some? ==> r.value == p
  {
    if locked then None else Some(p)
  }

  /** `mistakeProblems`: empty outside the mistake view, else the library filtered by the mistake ids. */
  function MistakeProblems(ps: seq<Problem>, mistakeIds: seq<string>, mode: FilterMode): (r: seq<Problem>)
    ensures mode != Mistakes ==> r == []
    ensures mode == Mistakes ==> forall p :: p in r <==> p in ps && p.id in mistakeIds
    ensures |r| <= |ps|
  {
    if mode != Mistakes || ps == [] then []
    else
      var last := ps[|ps| - 1];
      MistakeProblems(ps[..|ps| - 1], mistakeIds, mode) + (if last.id in mistakeIds then [last] else [])
  }

  /** The filter follows library order: it distributes over concatenation. */
  lemma {:induction false} MistakesInOrder(a: seq<Problem>, b: seq<Problem>, mistakeIds: seq<string>)
    ensures MistakeProblems(a + b, mistakeIds, Mistakes) ==
            MistakeProblems(a, mistakeIds, Mistakes) + MistakeProblems(b, mistakeIds, Mistakes)
    decreases |b|
  {
    if b == [] {
      assert a + b == a;
    } else {
      var b' := b[..|b| - 1];
      assert (a + b)[..|a + b| - 1] == a + b';
      assert (a + b)[|a + b| - 1] == b[|b| - 1];
      MistakesInOrder(a, b', mistakeIds);
    }
  }
}
