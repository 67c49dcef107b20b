/** The few `java.lang.String` tests the adapter relies on, over `seq<char>`. */
module Strings {

  /** `s.startsWith(prefix)` */
  predicate StartsWith(s: string, prefix: string) {
    |prefix| <= |s| && s[..|prefix|] == prefix
  }

  /** `s.endsWith(suffix)` */
  predicate EndsWith(s: string, suffix: string) {
    |suffix| <= |s| && s[|s| - |suffix|..] == suffix
  }

  /** `needle` occurs in `hay` starting at index `i`. */
  predicate OccursAt(needle: string, hay: string, i: int) {
    0 <= i <= |hay| - |needle| && hay[i..i + |needle|] == needle
  }

  /** `hay.contains(needle)` */
  predicate IsInfix(needle: string, hay: string) {
    exists i :: 0 <= i <= |hay| - |needle| && OccursAt(needle, hay, i)
  }

  /** In a message assembled from five parts, the parts at odd positions occur in
      it, and it starts with its first part. */
  lemma FiveParts(p0: string, p1: string, p2: string, p3: string, p4: string)
    ensures var m := p0 + p1 + p2 + p3 + p4;
            StartsWith(m, p0) && IsInfix(p1, m) && IsInfix(p3, m)
  {
    var m := p0 + p1 + p2 + p3 + p4;
    assert m[..|p0|] == p0;
    assert OccursAt(p1, m, |p0|);
    assert OccursAt(p3, m, |p0 + p1 + p2|);
  }

  /** In a message assembled from seven parts, the parts at odd positions (the
      variable pieces) occur in it, and it starts with its first part. */
  lemma SevenParts(p0: string, p1: string, p2: string, p3: string, p4: string, p5: string, p6: string)
    ensures var m := p0 + p1 + p2 + p3 + p4 + p5 + p6;
            StartsWith(m, p0) && IsInfix(p1, m) && IsInfix(p3, m) && IsInfix(p5, m)
  {
    var m := p0 + p1 + p2 + p3 + p4 + p5 + p6;
    assert m[..|p0|] == p0;
    assert OccursAt(p1, m, |p0|);
    assert OccursAt(p3, m, |p0 + p1 + p2|);
    assert OccursAt(p5, m, |p0 + p1 + p2 + p3 + p4|);
  }
}
