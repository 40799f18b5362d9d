/** Trimming, and taking a concatenation apart. */
module Text {

  predicate IsSpace(c: char) { c in {' ', '\t', '\n', '\r'} }

  /** str.strip and String.trim on ASCII space. */
  function Strip(s: string): string {
    if |s| == 0 then s
    else if IsSpace(s[0]) then Strip(s[1..])
    else if IsSpace(s[|s| - 1]) then Strip(s[..|s| - 1])
    else s
  }

  /** Stripping takes nothing but spaces off the two ends, and all of them. */
  lemma {:induction false} StripIs(s: string) returns (before: string, after: string)
    ensures s == before + Strip(s) + after
    ensures (forall c <- before :: c in {' ', '\t', '\n', '\r'}) && (forall c <- after :: c in {' ', '\t', '\n', '\r'})
    ensures |Strip(s)| > 0 ==> Strip(s)[0] !in {' ', '\t', '\n', '\r'} && Strip(s)[|Strip(s)| - 1] !in {' ', '\t', '\n', '\r'}
  {
    before, after := "", "";
    if |s| == 0 {
    } else if IsSpace(s[0]) {
      var b, a := StripIs(s[1..]);
      before, after := [s[0]] + b, a;
      assert s == [s[0]] + (b + Strip(s[1..]) + a);
    } else if IsSpace(s[|s| - 1]) {
      var b, a := StripIs(s[..|s| - 1]);
      before, after := b, a + [s[|s| - 1]];
      assert s == (b + Strip(s[..|s| - 1]) + a) + [s[|s| - 1]];
    } else {
      assert Strip(s) == s;
    }
  }

  lemma {:induction false} StripShortens(s: string)
    ensures |Strip(s)| <= |s| && Strip(Strip(s)) == Strip(s)
  {
    if |s| > 0 {
      if IsSpace(s[0]) {
        StripShortens(s[1..]);
      } else if IsSpace(s[|s| - 1]) {
        StripShortens(s[..|s| - 1]);
      }
    }
  }

  /** Text that stripping leaves alone is empty or has no space at either end. */
  lemma StripFixes(s: string)
    ensures Strip(s) == s <==> |s| == 0 || (!IsSpace(s[0]) && !IsSpace(s[|s| - 1]))
  {
    if |s| > 0 {
      StripShortens(s[1..]);
      StripShortens(s[..|s| - 1]);
    }
  }

  lemma SameLengthSplit(a: string, b: string, x: string, y: string)
    requires |x| == |y| && a + x == b + y
    ensures a == b && x == y
  {
    assert |a| == |b|;
    assert (a + x)[..|a|] == a && (b + y)[..|b|] == b;
    assert (a + x)[|a|..] == x && (b + y)[|b|..] == y;
  }

  lemma SamePrefixSplit(a: string, b: string, x: string, y: string)
    requires |a| == |b| && a + x == b + y
    ensures a == b && x == y
  {
    assert (a + x)[..|a|] == a && (b + y)[..|b|] == b;
    assert (a + x)[|a|..] == x && (b + y)[|b|..] == y;
  }
}
