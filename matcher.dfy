/**
 * The address test of the search loop: a literal, case-sensitive prefix and suffix match,
 * as Go's `strings.HasPrefix` and `strings.HasSuffix` perform it. Addresses are EIP-55
 * mixed-case hexadecimal, so `"0xab"` and `"0xAB"` are different prefixes.
 */
module Matcher {

  /** `strings.HasPrefix`: the first `|prefix|` characters of `s` are `prefix`. */
  predicate HasPrefix(s: string, prefix: string)
    ensures HasPrefix(s, prefix) <==>
      |prefix| <= |s| && forall k :: 0 <= k < |prefix| ==> s[k] == prefix[k]
  {
    |prefix| <= |s| && s[..|prefix|] == prefix
  }

  /** `strings.HasSuffix`: the last `|suffix|` characters of `s` are `suffix`. */
  predicate HasSuffix(s: string, suffix: string)
    ensures HasSuffix(s, suffix) <==>
      |suffix| <= |s| && forall k :: 0 <= k < |suffix| ==> s[|s| - |suffix| + k] == suffix[k]
  {
    |suffix| <= |s| && s[|s| - |suffix|..] == suffix
  }

  /** The search's acceptance test: both constraints hold, checked independently. */
  predicate Matches(address: string, prefix: string, suffix: string)
  {
    HasPrefix(address, prefix) && HasSuffix(address, suffix)
  }

  /** The acceptance test compares characters literally at both ends of the address. */
  lemma MatchesCharacterwise(address: string, prefix: string, suffix: string)
    ensures Matches(address, prefix, suffix) <==>
      && |prefix| <= |address| && |suffix| <= |address|
      && (forall k :: 0 <= k < |prefix| ==> address[k] == prefix[k])
      && (forall k :: 0 <= k < |suffix| ==> address[|address| - |suffix| + k] == suffix[k])
  {
  }

  /** A prefix test is a test for a decomposition `s == prefix + rest`. */
  lemma HasPrefixIsConcatenation(s: string, prefix: string)
    ensures HasPrefix(s, prefix) <==> exists rest :: s == prefix + rest
  {
    if HasPrefix(s, prefix) {
      assert s == prefix + s[|prefix|..];
    }
    if rest :| s == prefix + rest {
      assert s[..|prefix|] == prefix;
    }
  }

  /** A suffix test is a test for a decomposition `s == front + suffix`. */
  lemma HasSuffixIsConcatenation(s: string, suffix: string)
    ensures HasSuffix(s, suffix) <==> exists front :: s == front + suffix
  {
    if HasSuffix(s, suffix) {
      assert s == s[..|s| - |suffix|] + suffix;
    }
    if front :| s == front + suffix {
      assert s[|s| - |suffix|..] == suffix;
    }
  }

  /** An address matches exactly when it starts with the prefix and ends with the suffix. */
  lemma MatchesIsDecomposition(address: string, prefix: string, suffix: string)
    ensures Matches(address, prefix, suffix) <==>
      (exists rest :: address == prefix + rest) && (exists front :: address == front + suffix)
  {
    HasPrefixIsConcatenation(address, prefix);
    HasSuffixIsConcatenation(address, suffix);
  }

  /** With an empty prefix and an empty suffix every address matches. */
  lemma EmptyPatternMatchesAll(address: string)
    ensures Matches(address, "", "")
  {
  }

  /** The comparison does not fold case: a prefix differing only in the case of a hex digit fails. */
  lemma MatchIsCaseSensitive()
    ensures Matches("0xAB12", "0xAB", "12")
    ensures !Matches("0xAB12", "0xab", "")
    ensures !Matches("0xAB12", "", "AB")
  {
    assert "0xAB12"[..4] != "0xab" by { assert "0xAB12"[2] != "0xab"[2]; }
    assert "0xAB12"[4..] != "AB" by { assert "0xAB12"[4] != "AB"[0]; }
  }
}
