/** Removal of known secrets from response bodies. */
module Redact {
  import opened Text

  const WORD := "REDACTED"
  const MARK := "[" + WORD + "]"

  /** The stretches of `t` between the leftmost non-overlapping occurrences of `s`. */
  function Split(t: string, s: string): (pieces: seq<string>)
    requires s != ""
    ensures |pieces| >= 1
    decreases |t|
  {
    if |t| < |s| then [t]
    else if s <= t then [""] + Split(t[|s|..], s)
    else
      var rest := Split(t[1..], s);
      [[t[0]] + rest[0]] + rest[1..]
  }

  function Join(pieces: seq<string>, sep: string): string
    requires |pieces| >= 1
  {
    if |pieces| == 1 then pieces[0] else pieces[0] + sep + Join(pieces[1..], sep)
  }

  /** `str::replace(s, "[REDACTED]")` */
  function Replace(t: string, s: string): string
    requires s != ""
  {
    Join(Split(t, s), MARK)
  }

  function Redacted(body: string, secrets: seq<string>): string {
    if secrets == [] then body
    else
      var before := Redacted(body, secrets[..|secrets| - 1]);
      var s := secrets[|secrets| - 1];
      if s != "" && Contains(before, s) then Replace(before, s) else before
  }

  method RedactSecrets(body: string, secrets: seq<string>) returns (out: string)
    ensures out == Redacted(body, secrets)
  {
    out := body;
    var k := 0;
    while k < |secrets|
      invariant k <= |secrets|
      invariant out == Redacted(body, secrets[..k])
    {
      var s := secrets[k];
      k := k + 1;
      assert secrets[..k][..k - 1] == secrets[..k - 1];
      if s == "" {
        continue;
      }
      if Contains(out, s) {
        out := Replace(out, s);
      }
    }
    assert secrets[..k] == secrets;
  }

  // --- Splitting --------------------------------------------------------------------

  lemma JoinOneMoreChar(c: char, pieces: seq<string>, sep: string)
    requires |pieces| >= 1
    ensures Join([[c] + pieces[0]] + pieces[1..], sep) == [c] + Join(pieces, sep)
  {
    var more := [[c] + pieces[0]] + pieces[1..];
    if |pieces| > 1 {
      assert more[1..] == pieces[1..];
      var rest := Join(pieces[1..], sep);
      assert ([c] + pieces[0]) + sep + rest == [c] + (pieces[0] + sep + rest);
    }
  }

  lemma {:induction false} JoinSplit(t: string, s: string)
    requires s != ""
    ensures Join(Split(t, s), s) == t
    decreases |t|
  {
    if |t| < |s| {
    } else if s <= t {
      JoinSplit(t[|s|..], s);
      assert ([""] + Split(t[|s|..], s))[1..] == Split(t[|s|..], s);
      assert "" + s + t[|s|..] == t;
    } else {
      JoinSplit(t[1..], s);
      JoinOneMoreChar(t[0], Split(t[1..], s), s);
      assert [t[0]] + t[1..] == t;
    }
  }

  /** One more character in front brings an occurrence in only at the very front. */
  lemma OneMoreChar(c: char, rest: string, s: string)
    requires s != "" && !Contains(rest, s) && !(s <= [c] + rest)
    ensures !Contains([c] + rest, s)
  {
    var t := [c] + rest;
    forall i | 0 <= i <= |t| - |s| ensures !OccursAt(t, s, i) {
      if i > 0 {
        assert t[i..i + |s|] == rest[i - 1..i - 1 + |s|];
        assert !OccursAt(rest, s, i - 1);
      }
    }
  }

  lemma {:induction false} FirstPiece(t: string, s: string)
    requires s != ""
    ensures Split(t, s)[0] <= t && !Contains(Split(t, s)[0], s)
    decreases |t|
  {
    if |t| >= |s| && !(s <= t) {
      FirstPiece(t[1..], s);
      var rest := Split(t[1..], s)[0];
      assert [t[0]] + rest <= t;
      OneMoreChar(t[0], rest, s);
    }
  }

  lemma ContainsLater(t: string, k: nat, p: string)
    requires k <= |t| && Contains(t[k..], p)
    ensures Contains(t, p)
  {
    var i :| 0 <= i <= |t[k..]| - |p| && OccursAt(t[k..], p, i);
    assert t[k..][i..i + |p|] == t[k + i..k + i + |p|];
    assert OccursAt(t, p, k + i);
  }

  /** No piece contains the separator, and every piece is a stretch of the text. */
  lemma {:induction false} PiecesAreClean(t: string, s: string, p: string)
    requires s != "" && p in Split(t, s)
    ensures !Contains(p, s) && Contains(t, p)
    decreases |t|
  {
    FirstPiece(t, s);
    if p == Split(t, s)[0] {
      assert OccursAt(t, p, 0);
    } else {
      var k := if s <= t then |s| else 1;
      assert p in Split(t[k..], s);
      PiecesAreClean(t[k..], s, p);
      ContainsLater(t, k, p);
    }
  }

  // --- Where a text can occur among marks -------------------------------------------

  predicate BracketFree(x: string) {
    '[' !in x && ']' !in x
  }

  lemma ContainsInside(a: string, p: string, b: string, x: string)
    requires Contains(p, x)
    ensures Contains(a + p + b, x)
  {
    var i :| 0 <= i <= |p| - |x| && OccursAt(p, x, i);
    assert (a + p + b)[|a| + i..|a| + i + |x|] == p[i..i + |x|];
    assert OccursAt(a + p + b, x, |a| + i);
  }

  /** `x` laid over the mark at offset `d`: some characters meet, and all that meet are equal. */
  predicate Covers(x: string, d: int) {
    -|x| < d < |MARK| && forall i :: 0 <= i < |MARK| && 0 <= i - d < |x| ==> MARK[i] == x[i - d]
  }

  /** `x` can share characters with a mark: as a part of it, around it, or sticking out at one end. */
  ghost predicate Overlaps(x: string) {
    exists d: int :: Covers(x, d)
  }

  /** Where one mark stands, an occurrence lies before it, behind it, or shares characters with it. */
  lemma AroundMark(a: string, b: string, x: string)
    requires x != "" && Contains(a + MARK + b, x)
    ensures Contains(a, x) || Contains(b, x) || Overlaps(x)
  {
    var t := a + MARK + b;
    var i :| 0 <= i <= |t| - |x| && OccursAt(t, x, i);
    if i + |x| <= |a| {
      assert a[i..i + |x|] == t[i..i + |x|];
      assert OccursAt(a, x, i);
    } else if i >= |a| + |MARK| {
      var j := i - |a| - |MARK|;
      assert b[j..j + |x|] == t[i..i + |x|];
      assert OccursAt(b, x, j);
    } else {
      var d := i - |a|;
      forall k | 0 <= k < |MARK| && 0 <= k - d < |x| ensures MARK[k] == x[k - d] {
        assert t[|a| + k] == t[i..i + |x|][k - d];
      }
      assert Covers(x, d);
    }
  }

  lemma {:induction false} JoinContains(pieces: seq<string>, x: string)
    requires |pieces| >= 1 && x != "" && !Overlaps(x) && Contains(Join(pieces, MARK), x)
    ensures exists p :: p in pieces && Contains(p, x)
  {
    if |pieces| == 1 {
      assert pieces[0] in pieces;
    } else {
      var rest := Join(pieces[1..], MARK);
      AroundMark(pieces[0], rest, x);
      if Contains(pieces[0], x) {
        assert pieces[0] in pieces;
      } else {
        JoinContains(pieces[1..], x);
      }
    }
  }

  /** Replacing one secret removes it and brings in nothing else that shares no characters with a mark. */
  lemma ReplaceBringsNothing(t: string, s: string, x: string)
    requires s != "" && x != "" && !Overlaps(x) && Contains(Replace(t, s), x)
    ensures x != s && Contains(t, x)
  {
    JoinContains(Split(t, s), x);
    var p :| p in Split(t, s) && Contains(p, x);
    PiecesAreClean(t, s, p);
    ContainsThrough(t, p, x);
  }

  lemma {:induction false} Removed(body: string, secrets: seq<string>, x: string)
    requires x in secrets && x != "" && !Overlaps(x)
    ensures !Contains(Redacted(body, secrets), x)
  {
    var init, s := secrets[..|secrets| - 1], secrets[|secrets| - 1];
    var before := Redacted(body, init);
    assert secrets == init + [s];
    if x in init {
      Removed(body, init, x);
    }
    if s != "" && Contains(before, s) && Contains(Replace(before, s), x) {
      ReplaceBringsNothing(before, s, x);
    }
  }

  // --- The mark, once in, stays in --------------------------------------------------

  lemma ReplaceMarks(t: string, s: string)
    requires s != "" && Contains(t, s)
    ensures Contains(Replace(t, s), MARK)
  {
    var pieces := Split(t, s);
    JoinSplit(t, s);
    if |pieces| == 1 {
      assert pieces[0] in pieces;
      PiecesAreClean(t, s, pieces[0]);
      assert false;
    }
    assert OccursAt(MARK, MARK, 0);
    ContainsInside(pieces[0], MARK, Join(pieces[1..], MARK), MARK);
  }

  /** Whatever the order, a body that contains a secret ends up with a mark in it. */
  lemma {:induction false} MarkAppears(body: string, secrets: seq<string>, x: string)
    requires x in secrets && x != "" && Contains(body, x)
    ensures Contains(Redacted(body, secrets), MARK)
  {
    var init, s := secrets[..|secrets| - 1], secrets[|secrets| - 1];
    var before := Redacted(body, init);
    assert secrets == init + [s];
    if s != "" && Contains(before, s) {
      ReplaceMarks(before, s);
    } else if x in init {
      MarkAppears(body, init, x);
    } else {
      UntouchedOrMarked(body, init);
    }
  }

  lemma {:induction false} UntouchedOrMarked(body: string, secrets: seq<string>)
    ensures Redacted(body, secrets) == body || Contains(Redacted(body, secrets), MARK)
  {
    if secrets != [] {
      var init, s := secrets[..|secrets| - 1], secrets[|secrets| - 1];
      UntouchedOrMarked(body, init);
      if s != "" && Contains(Redacted(body, init), s) {
        ReplaceMarks(Redacted(body, init), s);
      }
    }
  }

  // --- Results ----------------------------------------------------------------------

  ghost predicate Survives(body: string, secrets: seq<string>, x: string) {
    Contains(Redacted(body, secrets), x)
  }

  /** A secret made of letters of the mark reappears with the mark that replaces it. */
  lemma PartOfMarkLeaks(secrets: seq<string>, x: string)
    requires x in secrets && x != "" && Contains(WORD, x)
    ensures Survives(x, secrets, x)
  {
    assert OccursAt(x, x, 0) && Contains(x, x);
    MarkAppears(x, secrets, x);
    var out := Redacted(x, secrets);
    ContainsInside("[", WORD, "]", x);
    ContainsThrough(out, MARK, x);
  }

  lemma ContainsThrough(t: string, p: string, x: string)
    requires Contains(t, p) && Contains(p, x)
    ensures Contains(t, x)
  {
    var i :| 0 <= i <= |t| - |p| && OccursAt(t, p, i);
    assert t == t[..i] + p + t[i + |p|..];
    ContainsInside(t[..i], p, t[i + |p|..], x);
  }

  /**
   * A secret is gone from every body redacted with it, whatever the other secrets are, in whatever order and however
   * they overlap, exactly when no part of it can coincide with a mark.
   */
  lemma SafeIff(x: string)
    requires x != ""
    ensures (forall secrets, body :: x in secrets ==> !Survives(body, secrets, x)) <==> !Overlaps(x)
  {
    if d :| Covers(x, d) {
      var secrets, body := CompletedByMark(x, d);
      assert x in secrets && Survives(body, secrets, x);
    } else {
      forall secrets, body | x in secrets ensures !Survives(body, secrets, x) {
        Removed(body, secrets, x);
      }
    }
  }

  /** What sticks out of the mark to its left when `x` lies over it at offset `d`, and what to its right. */
  function LeftOf(x: string, d: int): string
    requires -|x| < d < |MARK|
  {
    if d < 0 then x[..-d] else ""
  }

  function RightOf(x: string, d: int): string
    requires -|x| < d < |MARK|
  {
    if d + |x| > |MARK| then x[|MARK| - d..] else ""
  }

  /** A secret longer than `x` without any character of the mark. */
  function Foreign(x: string): string {
    "a" + seq(|x|, _ => 'b')
  }

  /** With another secret between what sticks out of the mark, the mark that replaces it completes the first secret. */
  lemma CompletedByMark(x: string, d: int) returns (secrets: seq<string>, body: string)
    requires x != "" && Covers(x, d)
    ensures x in secrets && Survives(body, secrets, x)
  {
    var l, r, y := LeftOf(x, d), RightOf(x, d), Foreign(x);
    secrets, body := [x, y], l + y + r;
    NotYet(x, d);
    OnlyOnce(l, y, r);
    assert body[|l|..|l| + |y|] == y;
    assert OccursAt(body, y, |l|);
    SecondOnly(body, x, y);
    Completed(x, d);
  }

  lemma SecondOnly(body: string, x: string, y: string)
    requires !Contains(body, x) && y != "" && Contains(body, y)
    ensures Redacted(body, [x, y]) == Replace(body, y)
  {
    var none: seq<string> := [];
    assert [x, y][..1] == [x] && [x][..0] == none;
    assert Redacted(body, none) == body;
    assert Redacted(body, [x]) == body;
  }

  lemma Completed(x: string, d: int)
    requires x != "" && Covers(x, d)
    ensures Contains(LeftOf(x, d) + MARK + RightOf(x, d), x)
  {
    var l := LeftOf(x, d);
    var t := l + MARK + RightOf(x, d);
    var i := |l| + d;
    forall k | 0 <= k < |x| ensures t[i + k] == x[k] {
      if 0 <= k + d < |MARK| {
        assert MARK[k + d] == x[k];
      }
    }
    assert t[i..i + |x|] == x;
    assert OccursAt(t, x, i);
  }

  /** Around the foreign secret `x` itself does not occur: a character it shares with the mark is missing. */
  lemma NotYet(x: string, d: int)
    requires x != "" && Covers(x, d)
    ensures !Contains(LeftOf(x, d) + Foreign(x) + RightOf(x, d), x)
  {
    var l, r, y := LeftOf(x, d), RightOf(x, d), Foreign(x);
    var t, m := l + y + r, |l|;
    assert 0 <= m < |x| && x[m] == MARK[m + d];
    assert 'a' !in MARK && 'b' !in MARK;
    forall i | 0 <= i <= |t| - |x| ensures !OccursAt(t, x, i) {
      assert t[i + m] == y[i + m - |l|];
      assert t[i..i + |x|][m] == t[i + m];
    }
  }

  lemma SkipOneChar(c: char, rest: string, y: string)
    requires y != "" && !(y <= [c] + rest)
    ensures Replace([c] + rest, y) == [c] + Replace(rest, y)
  {
    assert ([c] + rest)[1..] == rest;
    JoinOneMoreChar(c, Split(rest, y), MARK);
  }

  lemma OnlyOnceAtStart(y: string, r: string)
    requires |r| < |y|
    ensures Replace(y + r, y) == MARK + r
  {
    var t := y + r;
    assert t[|y|..] == r && y <= t && Split(r, y) == [r] && Split(t, y) == [""] + [r];
    assert ([""] + [r])[1..] == [r] && Join([r], MARK) == r && "" + MARK + r == MARK + r;
  }

  /** The foreign secret between two shorter texts is found once, and its mark takes its place. */
  lemma {:induction false} OnlyOnce(l: string, y: string, r: string)
    requires |y| > 0 && y[0] == 'a' && (forall k :: 0 < k < |y| ==> y[k] == 'b') && |l| < |y| && |r| < |y|
    ensures Replace(l + y + r, y) == l + MARK + r
    decreases |l|
  {
    var t := l + y + r;
    if l == "" {
      OnlyOnceAtStart(y, r);
      assert t == y + r && l + MARK + r == MARK + r;
    } else {
      assert t[|l|] == 'a' && y[|l|] == 'b';
      OnlyOnce(l[1..], y, r);
      assert t == [l[0]] + (l[1..] + y + r);
      SkipOneChar(l[0], l[1..] + y + r, y);
      assert l + MARK + r == [l[0]] + (l[1..] + MARK + r);
    }
  }

  lemma InWord(x: string, d: int)
    requires x != "" && BracketFree(x) && Covers(x, d)
    ensures Contains(WORD, x)
  {
    assert MARK[0] == '[' && MARK[|MARK| - 1] == ']';
    assert 0 < d && d + |x| < |MARK|;
    forall k | 0 <= k < |x| ensures WORD[d - 1 + k] == x[k] {
      assert MARK[d + k] == x[k];
    }
    assert WORD[d - 1..d - 1 + |x|] == x;
    assert OccursAt(WORD, x, d - 1);
  }

  /** A secret without brackets is safe with any one list of secrets exactly when it is no part of the word REDACTED. */
  lemma BracketFreeSafeIff(secrets: seq<string>, x: string)
    requires x in secrets && x != "" && BracketFree(x)
    ensures (forall body :: !Survives(body, secrets, x)) <==> !Contains(WORD, x)
  {
    if Contains(WORD, x) {
      PartOfMarkLeaks(secrets, x);
    } else {
      if d :| Covers(x, d) {
        InWord(x, d);
      }
      forall body ensures !Survives(body, secrets, x) {
        Removed(body, secrets, x);
      }
    }
  }

  /** A secret with a bracket that the mark completes, in a list of its own. */
  lemma BracketSecretSurvives()
    ensures !Contains(WORD, "a[") && Survives("aa[", ["a["], "a[")
  {
    var t, s := "aa[", "a[";
    forall i | 0 <= i <= |WORD| - 2 ensures !OccursAt(WORD, s, i) {
      assert WORD[i..i + 2][1] == WORD[i + 1];
    }
    assert t[1..2] == "a" && t[1..] == s && OccursAt(t, s, 1);
    SplitSelf(s);
    assert Split(t, s)[0] == "a" && Split(t, s)[1..] == [""];
    assert Join([""], MARK) == "";
    assert Replace(t, s) == "a" + MARK + "" == "a" + MARK;
    assert Redacted(t, [s][..0]) == t && Redacted(t, [s]) == "a" + MARK;
    assert ("a" + MARK)[0..2] == s;
    assert OccursAt("a" + MARK, s, 0);
  }

  lemma SplitSelf(s: string)
    requires s != ""
    ensures Split(s, s) == ["", ""]
  {
    assert s[|s|..] == "" && Split("", s) == [""];
  }

  function Brackets(t: string): nat {
    multiset(t)['[']
  }

  lemma BracketsAppend(a: string, b: string)
    ensures Brackets(a + b) == Brackets(a) + Brackets(b)
  {
  }

  lemma {:induction false} JoinAddsBrackets(pieces: seq<string>, s: string)
    requires |pieces| >= 1 && BracketFree(s)
    ensures Brackets(Join(pieces, MARK)) == Brackets(Join(pieces, s)) + |pieces| - 1
  {
    if |pieces| > 1 {
      JoinAddsBrackets(pieces[1..], s);
      BracketsAppend(pieces[0], MARK);
      BracketsAppend(pieces[0] + MARK, Join(pieces[1..], MARK));
      BracketsAppend(pieces[0], s);
      BracketsAppend(pieces[0] + s, Join(pieces[1..], s));
      MarkHasOneBracket();
    }
  }

  lemma MarkHasOneBracket()
    ensures Brackets(MARK) == 1
  {
    BracketsAppend("[", WORD);
    BracketsAppend("[" + WORD, "]");
    assert '[' !in WORD;
  }

  lemma ReplaceAddsBracket(t: string, s: string)
    requires s != "" && BracketFree(s) && Contains(t, s)
    ensures Brackets(Replace(t, s)) > Brackets(t)
  {
    var pieces := Split(t, s);
    JoinSplit(t, s);
    JoinAddsBrackets(pieces, s);
    if |pieces| == 1 {
      assert pieces[0] in pieces;
      PiecesAreClean(t, s, pieces[0]);
      assert false;
    }
  }

  /** A secret that shares nothing with the mark and is not in the body never comes up. */
  lemma {:induction false} NeverBroughtIn(body: string, secrets: seq<string>, x: string)
    requires x != "" && !Overlaps(x) && !Contains(body, x)
    ensures !Contains(Redacted(body, secrets), x)
  {
    if secrets != [] {
      var init, s := secrets[..|secrets| - 1], secrets[|secrets| - 1];
      NeverBroughtIn(body, init, x);
      var before := Redacted(body, init);
      if s != "" && Contains(Replace(before, s), x) {
        ReplaceBringsNothing(before, s, x);
      }
    }
  }

  /** Either replacing `x` adds a bracket, or `x` is never replaced. */
  ghost predicate OnlyAddsBrackets(body: string, x: string) {
    BracketFree(x) || (!Overlaps(x) && !Contains(body, x))
  }

  lemma OneAddsBrackets(body: string, init: seq<string>, s: string)
    requires OnlyAddsBrackets(body, s)
    requires s != "" && Contains(Redacted(body, init), s)
    ensures Brackets(Replace(Redacted(body, init), s)) > Brackets(Redacted(body, init))
  {
    if !BracketFree(s) {
      NeverBroughtIn(body, init, s);
    }
    ReplaceAddsBracket(Redacted(body, init), s);
  }

  lemma {:induction false} BracketsGrow(body: string, secrets: seq<string>)
    requires forall x :: x in secrets ==> OnlyAddsBrackets(body, x)
    ensures Brackets(Redacted(body, secrets)) >= Brackets(body)
  {
    if secrets != [] {
      var init, s := secrets[..|secrets| - 1], secrets[|secrets| - 1];
      BracketsGrow(body, init);
      if s != "" && Contains(Redacted(body, init), s) {
        OneAddsBrackets(body, init, s);
      }
    }
  }

  lemma {:induction false} FirstHitChanges(body: string, secrets: seq<string>, x: string)
    requires forall y :: y in secrets ==> OnlyAddsBrackets(body, y)
    requires x in secrets && x != "" && Contains(body, x)
    ensures Redacted(body, secrets) != body
  {
    var init, s := secrets[..|secrets| - 1], secrets[|secrets| - 1];
    assert secrets == init + [s];
    BracketsGrow(body, init);
    if x in init {
      FirstHitChanges(body, init, x);
    }
    if s != "" && Contains(Redacted(body, init), s) {
      OneAddsBrackets(body, init, s);
    }
  }

  /** Whatever the secrets look like, a body that contains none of them comes back unchanged. */
  lemma {:induction false} NoHitNoChange(body: string, secrets: seq<string>)
    requires forall x :: x in secrets && x != "" ==> !Contains(body, x)
    ensures Redacted(body, secrets) == body
  {
    if secrets != [] {
      NoHitNoChange(body, secrets[..|secrets| - 1]);
    }
  }

  /** With secrets that have no brackets or share nothing with the mark, no other body comes back unchanged. */
  lemma UnchangedIff(body: string, secrets: seq<string>)
    requires forall x :: x in secrets ==> BracketFree(x) || !Overlaps(x)
    ensures Redacted(body, secrets) == body <==> forall x :: x in secrets && x != "" ==> !Contains(body, x)
  {
    if x :| x in secrets && x != "" && Contains(body, x) && !Overlaps(x) {
      Removed(body, secrets, x);
    } else if x :| x in secrets && x != "" && Contains(body, x) {
      FirstHitChanges(body, secrets, x);
    } else {
      NoHitNoChange(body, secrets);
    }
  }

  /** Other secrets can undo each other: any part of the mark, followed by what replacing it makes of the mark. */
  lemma SecretsCanCancel(x: string)
    requires x != "" && Contains(MARK, x)
    ensures Redacted(MARK, [x, Replace(MARK, x)]) == MARK
  {
    var y := Replace(MARK, x);
    ReplaceMarks(MARK, x);
    SplitSelf(y);
    assert ["", ""][1..] == [""] && Join([""], MARK) == "";
    assert "" + MARK + "" == MARK;
    assert OccursAt(y, y, 0);
    var none: seq<string> := [];
    assert [x, y][..1] == [x] && [x][..0] == none;
    assert Redacted(MARK, none) == MARK;
    assert Redacted(MARK, [x]) == y;
  }
}
