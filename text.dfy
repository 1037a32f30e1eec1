/** The substring test used by the album filter. */
module Text {

  /** `pattern` occurs in `text` starting at position `i`. */
  predicate OccursAt(text: string, pattern: string, i: int)
  {
    0 <= i && i + |pattern| <= |text| && text[i..i + |pattern|] == pattern
  }

  /**
   * Case-sensitive substring test: `pattern` is a prefix of some suffix of `text`.
   * This is what pandas' `str.contains` computes for a pattern with no regular
   * expression metacharacters.
   */
  predicate Contains(text: string, pattern: string)
    decreases |text|
  {
    pattern <= text || (text != [] && Contains(text[1..], pattern))
  }

  /** An occurrence in the tail of `text` is an occurrence in `text`, one position later. */
  lemma OccursInTail(text: string, pattern: string, i: int)
    requires text != [] && OccursAt(text[1..], pattern, i)
    ensures OccursAt(text, pattern, i + 1)
  {
  }

  /** An occurrence past position 0 is an occurrence in the tail, one position earlier. */
  lemma OccursPastHead(text: string, pattern: string, i: int)
    requires OccursAt(text, pattern, i) && i > 0
    ensures OccursAt(text[1..], pattern, i - 1)
  {
  }

  /** `Contains` agrees with the positional definition of a substring. */
  lemma {:induction false} ContainsIffOccurs(text: string, pattern: string)
    ensures Contains(text, pattern) <==> exists i :: OccursAt(text, pattern, i)
    decreases |text|
  {
    if pattern <= text {
      assert text[0..|pattern|] == pattern;
      assert OccursAt(text, pattern, 0);
    } else if text != [] {
      ContainsIffOccurs(text[1..], pattern);
      if Contains(text[1..], pattern) {
        var i :| OccursAt(text[1..], pattern, i);
        OccursInTail(text, pattern, i);
      }
      if i :| OccursAt(text, pattern, i) && i > 0 {
        OccursPastHead(text, pattern, i);
      }
    }
  }
}
