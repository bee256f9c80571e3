/** Names joined into one string by a separator, and when two joined strings coincide. */
module KeyNames {

  /** Whether two strings can be completed to the same string. */
  predicate Overlapping(a: string, b: string) { a <= b || b <= a }

  /** Some completions of the two prefixes coincide. */
  ghost predicate CanCoincide(a: string, b: string) {
    exists p, q :: a + p == b + q
  }

  lemma CoincideIffOverlapping(a: string, b: string)
    ensures CanCoincide(a, b) <==> Overlapping(a, b)
  {
    if p, q :| a + p == b + q {
      var whole := a + p;
      assert a == whole[..|a|] && b == whole[..|b|];
    }
    if a <= b {
      assert a + b[|a|..] == b + "";
    } else if b <= a {
      assert a + "" == b + a[|b|..];
    }
  }

  /** A first field without the separator can be told from the rest. */
  lemma FirstFieldUnique(separator: char, a: string, restA: string, b: string, restB: string)
    requires separator !in a && separator !in b && a + [separator] + restA == b + [separator] + restB
    ensures a == b && restA == restB
  {
    var whole := a + [separator] + restA;
    assert whole[|a|] == separator && whole[|b|] == separator;
    assert forall i :: 0 <= i < |a| ==> whole[i] == a[i];
    assert forall i :: 0 <= i < |b| ==> whole[i] == b[i];
    assert |a| == |b|;
    assert a == whole[..|a|] && b == whole[..|b|];
    assert restA == whole[|a| + 1..] && restB == whole[|b| + 1..];
  }

  /** A last field without the separator can be told from what stands before it. */
  lemma LastFieldUnique(separator: char, restA: string, a: string, restB: string, b: string)
    requires separator !in a && separator !in b && restA + [separator] + a == restB + [separator] + b
    ensures a == b && restA == restB
  {
    var whole := restA + [separator] + a;
    assert whole[|restA|] == separator && whole[|restB|] == separator;
    assert forall i :: |restA| < i < |whole| ==> whole[i] == a[i - |restA| - 1];
    assert forall i :: |restB| < i < |whole| ==> whole[i] == b[i - |restB| - 1];
    assert |restA| == |restB|;
    assert restA == whole[..|restA|] && restB == whole[..|restB|];
    assert a == whole[|restA| + 1..] && b == whole[|restB| + 1..];
  }

  /** What stands behind a common prefix, and in front of a common suffix, is the same. */
  lemma FramedEqual(prefix: string, a: string, b: string, suffix: string)
    ensures prefix + a + suffix == prefix + b + suffix <==> a == b
  {
    var wholeA, wholeB := prefix + a + suffix, prefix + b + suffix;
    if wholeA == wholeB {
      assert |wholeA| == |prefix| + |a| + |suffix| && |wholeB| == |prefix| + |b| + |suffix|;
      assert a == wholeA[|prefix|..|prefix| + |a|] && b == wholeB[|prefix|..|prefix| + |b|];
    }
  }
}
