/** Small shared vocabulary: optional values (Java's null), bytes and string affixes. */
module Common {

  /** A value that may be absent; None stands for Java's null. */
  datatype Option<+T> = None | Some(value: T)

  /** An unsigned octet, as stored in a file or carried by a stream. */
  newtype byte = x: int | 0 <= x < 256

  /** String.startsWith */
  predicate StartsWith(s: string, prefix: string) {
    |prefix| <= |s| && s[..|prefix|] == prefix
  }

  /** String.endsWith */
  predicate EndsWith(s: string, suffix: string) {
    |suffix| <= |s| && s[|s| - |suffix|..] == suffix
  }

  /** A string that ends with a suffix agrees with it character by character, counted from the end. */
  lemma EndsWithAt(s: string, suffix: string, j: nat)
    requires EndsWith(s, suffix) && j < |suffix|
    ensures s[|s| - 1 - j] == suffix[|suffix| - 1 - j]
  {
    assert s[|s| - |suffix|..][|suffix| - 1 - j] == suffix[|suffix| - 1 - j];
  }
}
