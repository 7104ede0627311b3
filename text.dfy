/** Substring search on strings, as `string.Contains` does it (ordinal, case-sensitive). */
module Text {

  /** `s` occurs in `text` at some position. */
  ghost predicate Occurs(text: string, s: string)
  {
    exists i, j | 0 <= i <= j <= |text| :: j - i == |s| && text[i..j] == s
  }

  /** `text.Contains(s)`, by trying each start position in turn. */
  function HasText(text: string, s: string): (b: bool)
    ensures b <==> Occurs(text, s)
    decreases |text|
  {
    if |s| <= |text| && text[..|s|] == s then
      assert text[0..|s|] == s;
      true
    else if text == [] then
      false
    else
      OccursShift(text, s);
      HasText(text[1..], s)
  }

  /**
   * When `s` is not a prefix of a non-empty `text`, it occurs in `text`
   * exactly when it occurs in the rest after the first character.
   */
  lemma OccursShift(text: string, s: string)
    requires text != []
    requires !(|s| <= |text| && text[..|s|] == s)
    ensures Occurs(text, s) <==> Occurs(text[1..], s)
  {
    if Occurs(text, s) {
      var i, j :| 0 <= i <= j <= |text| && j - i == |s| && text[i..j] == s;
      assert text[0..|s|] == text[..|s|];
      assert i > 0;
      assert text[1..][i - 1..j - 1] == text[i..j];
    }
    if Occurs(text[1..], s) {
      var i, j :| 0 <= i <= j <= |text[1..]| && j - i == |s| && text[1..][i..j] == s;
      assert text[i + 1..j + 1] == text[1..][i..j];
    }
  }

  /** `s` occurs in any text that has it between a prefix and a rest. */
  lemma OccursIn(prefix: string, s: string, rest: string)
    ensures Occurs(prefix + s + rest, s)
  {
    var text := prefix + s + rest;
    assert text[|prefix|..|prefix| + |s|] == s;
  }
}
