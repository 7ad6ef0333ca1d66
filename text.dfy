/** The JavaScript string operations the handlers rely on: `includes`, the
    `split(sep).pop()` / `split(sep)[0]` pair, and the `\s` character class of
    JavaScript regular expressions. */
module Text {

  /** JavaScript's `\s`: the white-space and line-terminator characters of
      ECMAScript (tab, line feed, vertical tab, form feed, carriage return, space,
      no-break space, the Unicode space separators, line and paragraph separator,
      and the byte-order mark). */
  predicate IsSpace(c: char)
    ensures c == ' ' || c == '\t' || c == '\n' || c == '\r' ==> IsSpace(c)
    ensures IsSpace(c) ==> c != '@' && c != '.' && !('0' <= c <= '9') && !('a' <= c <= 'z') && !('A' <= c <= 'Z')
  {
    ('\U{0009}' <= c <= '\U{000D}') || c == ' ' || c == '\U{00A0}' || c == '\U{1680}'
    || ('\U{2000}' <= c <= '\U{200A}') || c == '\U{2028}' || c == '\U{2029}'
    || c == '\U{202F}' || c == '\U{205F}' || c == '\U{3000}' || c == '\U{FEFF}'
  }

  /** `s.includes(t)`. */
  function Contains(s: string, t: string): (r: bool)
    ensures t <= s ==> r
    ensures r ==> |t| <= |s|
    decreases |s|
  {
    if t <= s then true
    else if |s| <= |t| then false
    else Contains(s[1..], t)
  }

  /** `t` occurs in `s` at position `i`. */
  ghost predicate OccursAt(s: string, t: string, i: int)
  {
    0 <= i && i + |t| <= |s| && s[i..i + |t|] == t
  }

  /** `Contains` finds an occurrence exactly when there is one. */
  lemma ContainsMeansOccurs(s: string, t: string)
    ensures Contains(s, t) <==> exists i :: OccursAt(s, t, i)
  {
    if Contains(s, t) {
      ContainsWitness(s, t);
    }
    if exists i :: OccursAt(s, t, i) {
      var i :| OccursAt(s, t, i);
      OccurrenceFound(s, t, i);
    }
  }

  lemma {:induction false} ContainsWitness(s: string, t: string)
    requires Contains(s, t)
    ensures exists i :: OccursAt(s, t, i)
    decreases |s|
  {
    if t <= s {
      assert s[0..|t|] == t;
      assert OccursAt(s, t, 0);
    } else {
      ContainsWitness(s[1..], t);
      var i :| OccursAt(s[1..], t, i);
      assert s[1..][i..i + |t|] == s[i + 1..i + 1 + |t|];
      assert OccursAt(s, t, i + 1);
    }
  }

  lemma {:induction false} OccurrenceFound(s: string, t: string, i: int)
    requires OccursAt(s, t, i)
    ensures Contains(s, t)
    decreases i
  {
    if i == 0 {
      assert s[..|t|] == t;
    } else if !(t <= s) {
      assert s[1..][i - 1..i - 1 + |t|] == s[i..i + |t|];
      OccurrenceFound(s[1..], t, i - 1);
    }
  }

  /** Anything glued around `t` contains `t`. */
  lemma ContainsInside(a: string, t: string, b: string)
    ensures Contains(a + t + b, t)
  {
    var s := a + t + b;
    assert s[|a|..|a| + |t|] == t;
    assert OccursAt(s, t, |a|);
    ContainsMeansOccurs(s, t);
  }

  /** A string that ends in `t` contains it. */
  lemma EndsWith(a: string, t: string)
    ensures Contains(a + t, t)
  {
    ContainsInside(a, t, "");
    assert a + t + "" == a + t;
  }

  /** Appending to a string keeps what it contains. */
  lemma ContainsExtend(s: string, t: string, u: string)
    requires Contains(s, t)
    ensures Contains(s + u, t)
  {
    ContainsMeansOccurs(s, t);
    var i :| OccursAt(s, t, i);
    assert (s + u)[i..i + |t|] == s[i..i + |t|];
    OccurrenceFound(s + u, t, i);
  }

  /** A string that lacks one of the characters of `t` does not contain `t`. */
  lemma MissingCharacter(s: string, t: string, c: char)
    requires c in t && c !in s
    ensures !Contains(s, t)
  {
    ContainsMeansOccurs(s, t);
    var k :| 0 <= k < |t| && t[k] == c;
    forall i | 0 <= i && i + |t| <= |s| ensures !OccursAt(s, t, i) {
      assert s[i..i + |t|][k] == s[i + k];
    }
  }

  /** An occurrence of `t` cannot straddle a character `t` lacks: in `a + [c] + b`
      it lies within `a` or within `b`. */
  lemma SplitAtSeparator(a: string, c: char, b: string, t: string)
    requires c !in t
    ensures Contains(a + [c] + b, t) ==> Contains(a, t) || Contains(b, t)
  {
    var s := a + [c] + b;
    if Contains(s, t) {
      ContainsWitness(s, t);
      var i :| OccursAt(s, t, i);
      if i + |t| <= |a| {
        OccursLeft(a, c, b, t, i);
      } else {
        NoStraddle(a, c, b, t);
        assert i > |a|;
        OccursRight(a, c, b, t, i);
      }
    }
  }

  lemma NoStraddle(a: string, c: char, b: string, t: string)
    requires c !in t
    ensures forall i :: 0 <= i <= |a| < i + |t| ==> !OccursAt(a + [c] + b, t, i)
  {
    var s := a + [c] + b;
    forall i | 0 <= i <= |a| < i + |t| <= |s| ensures !OccursAt(s, t, i) {
      assert s[i..i + |t|][|a| - i] == c;
    }
  }

  lemma OccursLeft(a: string, c: char, b: string, t: string, i: int)
    requires OccursAt(a + [c] + b, t, i) && i + |t| <= |a|
    ensures Contains(a, t)
  {
    var s := a + [c] + b;
    assert s[i..i + |t|] == a[i..i + |t|];
    OccurrenceFound(a, t, i);
  }

  lemma OccursRight(a: string, c: char, b: string, t: string, i: int)
    requires OccursAt(a + [c] + b, t, i) && i > |a|
    ensures Contains(b, t)
  {
    var s := a + [c] + b;
    assert s[|a| + 1..] == b;
    assert s[i..i + |t|] == s[|a| + 1..][i - |a| - 1..i - |a| - 1 + |t|];
    OccurrenceFound(b, t, i - |a| - 1);
  }

  /** `s.split([c]).pop()`: what follows the last `c` (all of `s` when there is none). */
  function AfterLast(s: string, c: char): (r: string)
    ensures c !in r
    ensures |r| <= |s| && r == s[|s| - |r|..]
    ensures |r| == |s| || s[|s| - |r| - 1] == c
  {
    if |s| == 0 then ""
    else if s[|s| - 1] == c then ""
    else
      var rest := AfterLast(s[..|s| - 1], c);
      assert s[..|s| - 1][|s| - 1 - |rest|..] + [s[|s| - 1]] == s[|s| - |rest| - 1..];
      rest + [s[|s| - 1]]
  }

  /** `s.split([c])[0]`: what precedes the first `c` (all of `s` when there is none). */
  function BeforeFirst(s: string, c: char): (r: string)
    ensures c !in r
    ensures r <= s
    ensures |r| == |s| || s[|r|] == c
  {
    if |s| == 0 then ""
    else if s[0] == c then ""
    else [s[0]] + BeforeFirst(s[1..], c)
  }

  /** `split(c)[0]` of a join: what precedes the first separator. */
  lemma {:induction false} BeforeFirstOfJoin(a: string, c: char, b: string)
    requires c !in a
    ensures BeforeFirst(a + [c] + b, c) == a
    decreases |a|
  {
    var s := a + [c] + b;
    if |a| > 0 {
      assert s[1..] == a[1..] + [c] + b;
      BeforeFirstOfJoin(a[1..], c, b);
      assert a == [a[0]] + a[1..];
    }
  }

  /** `split(c).pop()` of a join: what follows the last separator. */
  lemma {:induction false} AfterLastOfJoin(a: string, c: char, b: string)
    requires c !in b
    ensures AfterLast(a + [c] + b, c) == b
    decreases |b|
  {
    var s := a + [c] + b;
    if |b| > 0 {
      var b' := b[..|b| - 1];
      assert s[..|s| - 1] == a + [c] + b';
      AfterLastOfJoin(a, c, b');
      assert b == b' + [b[|b| - 1]];
    }
  }
}
