/**
 * The few JavaScript string operations the application code relies on,
 * written out: decimal rendering of a counter in a template literal,
 * `indexOf` / `includes` / `startsWith` on strings (with `includes` proved
 * equal to plain containment), `split` on one character (proved inverse to
 * joining), and `parseInt(s, 10)` (proved to read back the decimal
 * rendering).
 */
module JsText {
  import opened Wrappers

  /** An optional string field used as a condition: present and not empty. */
  predicate Truthy(o: Option<string>) {
    o.Some? && o.value != ""
  }

  /** Decimal rendering of a counter value, as a template literal prints it. */
  function NatStr(n: nat): (s: string)
    ensures |s| >= 1 && (n >= 10 ==> |s| >= 2)
    ensures '0' <= s[|s| - 1] <= '9'
  {
    if n < 10 then [(48 + n) as char] else NatStr(n / 10) + [(48 + n % 10) as char]
  }

  lemma {:induction false} NatStrInjective(a: nat, b: nat)
    ensures NatStr(a) == NatStr(b) ==> a == b
    decreases a
  {
    if NatStr(a) == NatStr(b) {
      var sa, sb := NatStr(a), NatStr(b);
      if a < 10 && b < 10 {
        assert sa[0] == sb[0];
      } else if a >= 10 && b >= 10 {
        assert sa[..|sa| - 1] == NatStr(a / 10);
        assert sb[..|sb| - 1] == NatStr(b / 10);
        NatStrInjective(a / 10, b / 10);
        assert sa[|sa| - 1] == sb[|sb| - 1];
      }
    }
  }

  /** `String.prototype.indexOf`: the first position from i where `needle` occurs, or -1. */
  function IndexFrom(hay: string, needle: string, i: nat): (r: int)
    ensures r == -1 || (i <= r && OccursAt(hay, needle, r))
    decreases |hay| - i
  {
    if i + |needle| > |hay| then -1
    else if hay[i..i + |needle|] == needle then i
    else IndexFrom(hay, needle, i + 1)
  }

  /** `String.prototype.includes`. */
  function Includes(s: string, p: string): bool {
    IndexFrom(s, p, 0) >= 0
  }

  /** Containment stated outright: p occurs somewhere in s. */
  ghost predicate Contains(s: string, p: string) {
    exists i: nat :: OccursAt(s, p, i)
  }

  predicate OccursAt(s: string, p: string, i: nat) {
    i + |p| <= |s| && s[i..i + |p|] == p
  }

  lemma {:induction false} IndexFromMisses(hay: string, needle: string, i: nat)
    requires IndexFrom(hay, needle, i) == -1
    ensures forall m: nat :: i <= m ==> !OccursAt(hay, needle, m)
    decreases |hay| - i
  {
    if i + |needle| <= |hay| {
      IndexFromMisses(hay, needle, i + 1);
    }
  }

  lemma IncludesIff(s: string, p: string)
    ensures Includes(s, p) <==> Contains(s, p)
  {
    if !Includes(s, p) {
      IndexFromMisses(s, p, 0);
    } else {
      assert OccursAt(s, p, IndexFrom(s, p, 0));
    }
  }

  lemma OccursChar(h: string, t: string, r: nat, q: nat)
    requires OccursAt(h, t, r) && q < |t|
    ensures h[r + q] == t[q]
  {
    assert h[r..r + |t|][q] == h[r + q];
  }

  /** Every character of NatStr(n) is a decimal digit. */
  lemma {:induction false} NatStrDigits(n: nat)
    ensures forall i :: 0 <= i < |NatStr(n)| ==> IsDigit(NatStr(n)[i])
  {
    if n >= 10 {
      NatStrDigits(n / 10);
      assert forall i :: 0 <= i < |NatStr(n / 10)| ==> NatStr(n)[i] == NatStr(n / 10)[i];
    }
  }

  /** `String.prototype.startsWith`. */
  predicate StartsWith(s: string, p: string) {
    |p| <= |s| && s[..|p|] == p
  }

  /** `String.prototype.split(c)` for a one-character separator: the pieces between separators, in order. */
  function Split(s: string, c: char): (r: seq<string>)
    ensures |r| >= 1
    ensures c in s ==> |r| >= 2
    ensures forall k :: 0 <= k < |r| ==> c !in r[k]
    decreases |s|
  {
    if s == [] then [""]
    else
      var rest := Split(s[1..], c);
      if s[0] == c then [""] + rest else [[s[0]] + rest[0]] + rest[1..]
  }

  /** `Array.prototype.join(c)`. */
  function Join(parts: seq<string>, c: char): string
    requires |parts| >= 1
  {
    if |parts| == 1 then parts[0] else parts[0] + [c] + Join(parts[1..], c)
  }

  /** Joining the pieces of a split gives the text back. */
  lemma {:induction false} SplitJoin(s: string, c: char)
    ensures Join(Split(s, c), c) == s
    decreases |s|
  {
    if s != [] {
      var rest := Split(s[1..], c);
      SplitJoin(s[1..], c);
      if s[0] != c {
        var r := Split(s, c);
        if |rest| == 1 {
          assert r == [[s[0]] + rest[0]];
        } else {
          assert r[1..] == rest[1..];
          assert Join(r, c) == [s[0]] + rest[0] + [c] + Join(rest[1..], c);
        }
      }
    }
  }

  /** Splitting pieces joined by c, none of which holds c, gives the pieces back. */
  lemma {:induction false} JoinSplit(parts: seq<string>, c: char)
    requires |parts| >= 1 && forall k :: 0 <= k < |parts| ==> c !in parts[k]
    ensures Split(Join(parts, c), c) == parts
    decreases |parts|, |parts[0]|
  {
    var p := parts[0];
    if p == [] {
      if |parts| > 1 {
        JoinSplit(parts[1..], c);
        assert Join(parts, c) == [c] + Join(parts[1..], c);
        assert Join(parts, c)[1..] == Join(parts[1..], c);
      }
    } else {
      var shorter := [p[1..]] + parts[1..];
      assert forall k :: 1 <= k < |shorter| ==> shorter[k] == parts[k];
      JoinSplit(shorter, c);
      var j := Join(parts, c);
      if |parts| == 1 {
        assert j == p && j[1..] == Join(shorter, c);
      } else {
        assert shorter[1..] == parts[1..];
        assert j == p + [c] + Join(parts[1..], c);
        assert j[1..] == p[1..] + [c] + Join(parts[1..], c);
        assert j[1..] == Join(shorter, c);
      }
      assert j[0] == p[0];
      assert p[0] != c by { assert p[0] == p[..1][0]; }
      assert [p[0]] + p[1..] == p;
      assert [p] + parts[1..] == parts;
    }
  }

  predicate IsDigit(ch: char) {
    '0' <= ch <= '9'
  }

  /** The characters JavaScript counts as white space or line terminators (StrWhiteSpaceChar). */
  predicate IsJsSpace(ch: char) {
    ch == '\t' || ch == '\n' || ch == '\U{000B}' || ch == '\U{000C}' || ch == '\r' || ch == ' ' ||
    ch == '\U{00A0}' || ch == '\U{1680}' || ('\U{2000}' <= ch <= '\U{200A}') || ch == '\U{2028}' || ch == '\U{2029}' ||
    ch == '\U{202F}' || ch == '\U{205F}' || ch == '\U{3000}' || ch == '\U{FEFF}'
  }

  function SkipSpace(s: string, i: nat): (j: nat)
    requires i <= |s|
    ensures i <= j <= |s| && (j < |s| ==> !IsJsSpace(s[j]))
    ensures forall k :: i <= k < j ==> IsJsSpace(s[k])
    decreases |s| - i
  {
    if i < |s| && IsJsSpace(s[i]) then SkipSpace(s, i + 1) else i
  }

  /** The end of the run of digits that starts at i. */
  function DigitEnd(s: string, i: nat): (j: nat)
    requires i <= |s|
    ensures i <= j <= |s| && (j < |s| ==> !IsDigit(s[j]))
    ensures forall k :: i <= k < j ==> IsDigit(s[k])
    decreases |s| - i
  {
    if i < |s| && IsDigit(s[i]) then DigitEnd(s, i + 1) else i
  }

  /** The value of a string of decimal digits. */
  function DigitsValue(d: string): nat {
    if d == [] then 0
    else DigitsValue(d[..|d| - 1]) * 10 + (if IsDigit(d[|d| - 1]) then d[|d| - 1] as int - 48 else 0)
  }

  /**
   * `parseInt(s, 10)`: skip white space, take one optional sign, then the
   * longest run of digits; no digit at all is NaN (None).
   */
  function ParseInt(s: string): Option<int> {
    var i := SkipSpace(s, 0);
    var j := if i < |s| && (s[i] == '-' || s[i] == '+') then i + 1 else i;
    var e := DigitEnd(s, j);
    var v: int := DigitsValue(s[j..e]);
    if e == j then None else if i < |s| && s[i] == '-' then Some(-v) else Some(v)
  }

  lemma {:induction false} NatStrValue(n: nat)
    ensures DigitsValue(NatStr(n)) == n
  {
    if n >= 10 {
      NatStrValue(n / 10);
      var s := NatStr(n);
      assert s[..|s| - 1] == NatStr(n / 10);
    }
  }

  /** parseInt reads back the decimal rendering of every natural number. */
  lemma ParseIntNatStr(n: nat)
    ensures ParseInt(NatStr(n)) == Some(n)
  {
    var s := NatStr(n);
    NatStrDigits(n);
    NatStrValue(n);
    assert SkipSpace(s, 0) == 0;
    DigitEndAll(s, 0);
    assert s[0..|s|] == s;
  }

  lemma {:induction false} DigitEndAll(s: string, i: nat)
    requires i <= |s| && forall k :: i <= k < |s| ==> IsDigit(s[k])
    ensures DigitEnd(s, i) == |s|
    decreases |s| - i
  {
    if i < |s| {
      DigitEndAll(s, i + 1);
    }
  }

  /** indexOf finds the first occurrence at or after i. */
  lemma {:induction false} IndexFromFirst(hay: string, needle: string, i: nat, r: nat)
    requires i <= r && OccursAt(hay, needle, r)
    requires forall m :: i <= m < r ==> !OccursAt(hay, needle, m)
    ensures IndexFrom(hay, needle, i) == r
    decreases r - i
  {
    if i < r {
      assert !OccursAt(hay, needle, i);
      IndexFromFirst(hay, needle, i + 1, r);
    }
  }
}
