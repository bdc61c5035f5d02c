/**
 * A JavaScript object used as a record: its keys in insertion order, each
 * once.  `record[k]` reads the value of k; `record[k] = v` overwrites it in
 * place or appends k at the end.  Shared by the problem list and the
 * practice analytics.
 */
module Records {
  import opened Wrappers

  predicate DistinctKeys<V>(r: seq<(string, V)>) {
    forall i, j :: 0 <= i < j < |r| ==> r[i].0 != r[j].0
  }

  predicate HasKey<V>(r: seq<(string, V)>, k: string) {
    exists i :: 0 <= i < |r| && r[i].0 == k
  }

  function IndexOf<V>(r: seq<(string, V)>, k: string): (x: Option<nat>)
    ensures x.Some? ==> x.value < |r| && r[x.value].0 == k && forall j :: 0 <= j < x.value ==> r[j].0 != k
    ensures x.None? ==> forall j :: 0 <= j < |r| ==> r[j].0 != k
  {
    if r == [] then None
    else
      match IndexOf(r[..|r| - 1], k)
      case Some(i) => Some(i)
      case None => if r[|r| - 1].0 == k then Some(|r| - 1) else None
  }

  /** `record[k]`: the value of key k, if present. */
  function Get<V>(r: seq<(string, V)>, k: string): Option<V> {
    match IndexOf(r, k)
    case None => None
    case Some(i) => Some(r[i].1)
  }

  /** `record[k] = v`: overwrite in place, or add the key at the end. */
  function Put<V>(r: seq<(string, V)>, k: string, v: V): seq<(string, V)> {
    match IndexOf(r, k)
    case Some(i) => r[i := (k, v)]
    case None => r + [(k, v)]
  }

  /** With distinct keys, an entry's value is what its key looks up. */
  lemma GetMember<V>(r: seq<(string, V)>, i: nat)
    requires DistinctKeys(r) && i < |r|
    ensures Get(r, r[i].0) == Some(r[i].1)
  {
  }

  /** What a lookup finds is an entry. */
  lemma GetSome<V>(r: seq<(string, V)>, k: string)
    requires Get(r, k).Some?
    ensures (k, Get(r, k).value) in r
  {
    assert r[IndexOf(r, k).value] == (k, Get(r, k).value);
  }

  /** Writing a key keeps the keys distinct and keeps an existing key's place or adds the key last. */
  lemma PutShape<V>(r: seq<(string, V)>, k: string, v: V)
    requires DistinctKeys(r)
    ensures var r' := Put(r, k, v);
            && DistinctKeys(r')
            && |r'| == (if IndexOf(r, k).Some? then |r| else |r| + 1)
            && (forall j :: 0 <= j < |r| ==> r'[j].0 == r[j].0)
            && (IndexOf(r, k).None? ==> r'[|r|] == (k, v))
  {
  }

  /** Writing a key changes the lookup of that key only. */
  lemma PutGet<V>(r: seq<(string, V)>, k: string, v: V, k': string)
    requires DistinctKeys(r)
    ensures Get(Put(r, k, v), k') == if k' == k then Some(v) else Get(r, k')
  {
    PutShape(r, k, v);
    var r' := Put(r, k, v);
    match IndexOf(r, k') {
      case Some(i) =>
        GetMember(r', i);
      case None =>
        if k' == k {
          GetMember(r', |r|);
        }
    }
  }

  /**
   * Writing a key keeps the keys distinct, keeps an existing key's place
   * or adds the key last, and changes the lookup of that key only.
   */
  lemma PutSpec<V>(r: seq<(string, V)>, k: string, v: V)
    requires DistinctKeys(r)
    ensures var r' := Put(r, k, v);
            && DistinctKeys(r')
            && |r'| == (if IndexOf(r, k).Some? then |r| else |r| + 1)
            && (forall j :: 0 <= j < |r| ==> r'[j].0 == r[j].0)
            && (IndexOf(r, k).None? ==> r'[|r|] == (k, v))
            && forall k' :: Get(r', k') == if k' == k then Some(v) else Get(r, k')
  {
    PutShape(r, k, v);
    forall k' | true
      ensures Get(Put(r, k, v), k') == if k' == k then Some(v) else Get(r, k')
    {
      PutGet(r, k, v, k');
    }
  }
}
