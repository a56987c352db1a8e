/** Ordinal substring search, `string.Contains(string)`. */
module Text {

  /** p occurs in s starting at index i. */
  predicate OccursAt(s: string, p: string, i: int) {
    0 <= i && i + |p| <= |s| && s[i..i + |p|] == p
  }

  /** Whether p occurs in s, by scanning the start positions left to right. */
  function Contains(s: string, p: string): (r: bool)
    ensures r <==> exists i :: OccursAt(s, p, i)
    decreases |s|
  {
    if p <= s then
      assert OccursAt(s, p, 0);
      true
    else if |s| == 0 then
      assert forall i :: !OccursAt(s, p, i);
      false
    else
      var r := Contains(s[1..], p);
      assert forall i :: OccursAt(s[1..], p, i) ==> OccursAt(s, p, i + 1);
      assert forall i :: OccursAt(s, p, i) && i > 0 ==> OccursAt(s[1..], p, i - 1);
      assert !OccursAt(s, p, 0);
      r
  }

  /** Text placed around an occurrence keeps it. */
  lemma ContainsInContext(before: string, p: string, after: string)
    ensures Contains(before + p + after, p)
  {
    assert OccursAt(before + p + after, p, |before|);
  }
}
