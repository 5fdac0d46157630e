/**
 * The e-mail pattern both Mongoose schemas validate against,
 * `^\w+([.-]?\w+)*@\w+([.-]?\w+)*(\.\w{2,3})+$`, written out as the
 * language it accepts.
 */
module EmailRegex {
  import opened Strings

  predicate IsSep(c: char) {
    c == '.' || c == '-'
  }

  /**
   * `\w+([.-]?\w+)*`: word characters, optionally separated by single
   * dots or dashes; it starts and ends with a word character.
   */
  predicate DottedWords(s: string) {
    && |s| >= 1
    && IsWordChar(s[0])
    && IsWordChar(s[|s| - 1])
    && (forall i :: 0 <= i < |s| ==> IsWordChar(s[i]) || IsSep(s[i]))
    && (forall i :: 0 <= i < |s| - 1 ==> IsWordChar(s[i]) || IsWordChar(s[i + 1]))
  }

  /** `(\.\w{2,3})+`: one or more groups of a dot and two or three word characters. */
  predicate TldGroups(s: string)
    decreases |s|
  {
    && |s| >= 3
    && s[0] == '.'
    && IsWordChar(s[1]) && IsWordChar(s[2])
    && (|s| == 3
        || (IsWordChar(s[3]) && (|s| == 4 || TldGroups(s[4..])))
        || TldGroups(s[3..]))
  }

  /** The domain part: `\w+([.-]?\w+)*(\.\w{2,3})+`. */
  predicate Domain(d: string) {
    exists j :: 0 < j < |d| && DottedWords(d[..j]) && TldGroups(d[j..])
  }

  /** The whole pattern. `\w` and the separators exclude `@`, so the `@` is the only one. */
  predicate Matches(s: string) {
    exists i :: 0 <= i < |s| && s[i] == '@' && DottedWords(s[..i]) && Domain(s[i + 1..])
  }
}
