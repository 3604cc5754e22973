/** String operations of the Rust and Python sources, on sequences of characters. */
module Text {

  /** True when `x` occurs somewhere in `t` (`str::contains`). */
  predicate Contains(t: string, x: string) {
    exists i | 0 <= i <= |t| - |x| :: OccursAt(t, x, i)
  }

  predicate OccursAt(t: string, x: string, i: int) {
    0 <= i <= |t| - |x| && t[i..i + |x|] == x
  }

  predicate StartsWith(t: string, p: string) {
    p <= t
  }

  function LowerChar(c: char): char {
    if 'A' <= c <= 'Z' then c - 'A' + 'a' else c
  }

  /** `to_ascii_lowercase` */
  function Lower(s: string): string {
    seq(|s|, i requires 0 <= i < |s| => LowerChar(s[i]))
  }

  /** `eq_ignore_ascii_case` */
  predicate EqIgnoreCase(a: string, b: string) {
    Lower(a) == Lower(b)
  }

  /** Lexicographic order of `String::cmp`. */
  predicate Le(a: string, b: string) {
    if a == [] then true
    else if b == [] then false
    else a[0] < b[0] || (a[0] == b[0] && Le(a[1..], b[1..]))
  }

  lemma {:induction false} LeTotal(a: string, b: string)
    ensures Le(a, b) || Le(b, a)
    ensures Le(a, b) && Le(b, a) ==> a == b
  {
    if a != [] && b != [] {
      LeTotal(a[1..], b[1..]);
      assert a == [a[0]] + a[1..] && b == [b[0]] + b[1..];
    }
  }

  lemma {:induction false} LeTransitive(a: string, b: string, c: string)
    requires Le(a, b) && Le(b, c)
    ensures Le(a, c)
  {
    if a != [] && b != [] && c != [] && a[0] == b[0] == c[0] {
      LeTransitive(a[1..], b[1..], c[1..]);
    }
  }

  /** One text comes before another when it is its beginning, or is smaller at the first difference. */
  lemma {:induction false} LeMeans(a: string, b: string)
    ensures Le(a, b) <==> a <= b || exists i :: SmallerAt(a, b, i)
  {
    if a != [] && b != [] {
      LeMeans(a[1..], b[1..]);
      assert a == [a[0]] + a[1..] && b == [b[0]] + b[1..];
      if i :| SmallerAt(a[1..], b[1..], i) && a[0] == b[0] {
        assert a[..i + 1] == [a[0]] + a[1..][..i] && b[..i + 1] == [b[0]] + b[1..][..i];
        assert SmallerAt(a, b, i + 1);
      }
      if i :| SmallerAt(a, b, i) && i > 0 {
        assert a[..i][0] == b[..i][0] && a[..i][1..] == b[..i][1..];
        assert a[1..][..i - 1] == a[..i][1..] && b[1..][..i - 1] == b[..i][1..];
        assert SmallerAt(a[1..], b[1..], i - 1);
      }
      if a[0] < b[0] {
        assert SmallerAt(a, b, 0);
      }
    }
  }

  ghost predicate SmallerAt(a: string, b: string, i: int) {
    0 <= i < |a| && i < |b| && a[..i] == b[..i] && a[i] < b[i]
  }

  /** Position of the first `sep` in `s`, or the length of `s` (`str::find`). */
  function IndexOf(s: string, sep: string): (i: nat)
    ensures i <= |s|
    ensures i < |s| ==> sep <= s[i..]
    ensures forall j :: 0 <= j < i ==> !(sep <= s[j..])
  {
    if s == [] then 0
    else if sep <= s then 0
    else
      var k := IndexOf(s[1..], sep);
      assert forall j :: 1 <= j <= k ==> s[j..] == s[1..][j - 1..];
      assert k < |s[1..]| ==> s[k + 1..] == s[1..][k..];
      k + 1
  }

  /** The text before the second `/`: `split('/').take(2).join("/")`. */
  function FirstTwoSegments(s: string): string {
    var i := IndexOf(s, "/");
    if i == |s| then s
    else
      var j := IndexOf(s[i + 1..], "/");
      s[..i + 1 + j]
  }
}
