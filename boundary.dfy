/**
 * The clean-up applied to the multipart boundary parameter before the
 * multipart reader is built: `strings.Trim(boundary, "-")`, which removes
 * every hyphen at the front and at the back of the token and keeps the rest.
 */
module Boundary {

  const Hyphen: char := '-'

  /** Every character of `s` at a position in [lo, hi) is a hyphen. */
  predicate HyphensIn(s: string, lo: nat, hi: nat)
    requires lo <= hi <= |s|
  {
    forall k :: lo <= k < hi ==> s[k] == Hyphen
  }

  /** `s` neither starts nor ends with a hyphen. */
  predicate NoHyphenEnds(s: string) {
    s == [] || (s[0] != Hyphen && s[|s| - 1] != Hyphen)
  }

  /** The left half of `strings.Trim`: drops the leading run of hyphens. */
  function TrimLeft(s: string): (r: string)
    ensures |r| <= |s| && r == s[|s| - |r|..]
    ensures HyphensIn(s, 0, |s| - |r|)
    ensures r == [] || r[0] != Hyphen
  {
    if |s| > 0 && s[0] == Hyphen then TrimLeft(s[1..]) else s
  }

  /** The right half of `strings.Trim`: drops the trailing run of hyphens. */
  function TrimRight(s: string): (r: string)
    ensures |r| <= |s| && r == s[..|r|]
    ensures HyphensIn(s, |r|, |s|)
    ensures r == [] || r[|r| - 1] != Hyphen
  {
    if |s| > 0 && s[|s| - 1] == Hyphen then TrimRight(s[..|s| - 1]) else s
  }

  /** `strings.Trim(s, "-")`: the left trim followed by the right trim. */
  function Trim(s: string): (r: string)
    ensures |r| <= |s|
    ensures NoHyphenEnds(r)
  {
    TrimRight(TrimLeft(s))
  }

  /** The left trim stops exactly at the first character that is not a hyphen. */
  lemma TrimLeftAt(s: string, i: nat)
    requires i <= |s| && HyphensIn(s, 0, i)
    requires i < |s| ==> s[i] != Hyphen
    ensures TrimLeft(s) == s[i..]
  {
  }

  /** The right trim stops exactly after the last character that is not a hyphen. */
  lemma TrimRightAt(s: string, j: nat)
    requires j <= |s| && HyphensIn(s, j, |s|)
    requires 0 < j ==> s[j - 1] != Hyphen
    ensures TrimRight(s) == s[..j]
  {
  }

  /** Two adjacent runs of hyphens make one run. */
  lemma HyphensJoin(s: string, lo: nat, mid: nat, hi: nat)
    requires lo <= mid <= hi <= |s|
    requires HyphensIn(s, lo, mid) && HyphensIn(s, mid, hi)
    ensures HyphensIn(s, lo, hi)
  {
  }

  /** A token made of hyphens only trims to the empty token. */
  lemma TrimAllHyphens(s: string)
    requires HyphensIn(s, 0, |s|)
    ensures Trim(s) == []
  {
    TrimLeftAt(s, |s|);
  }

  /** Right-trimming a suffix `s[i..]` of `s` stops where right-trimming `s` would. */
  lemma TrimRightSuffix(s: string, i: nat, j: nat)
    requires i < j <= |s| && HyphensIn(s, j, |s|) && s[j - 1] != Hyphen
    ensures TrimRight(s[i..]) == s[i..j]
  {
    var t := s[i..];
    assert HyphensIn(t, j - i, |t|) by {
      forall k | j - i <= k < |t| ensures t[k] == Hyphen {
        assert t[k] == s[i + k];
      }
    }
    TrimRightAt(t, j - i);
    assert t[..j - i] == s[i..j];
  }

  /**
   * Only the hyphen runs at the two ends are removed: whenever `s` splits
   * into hyphens, a core `s[i..j]` that neither starts nor ends with a
   * hyphen, and hyphens, the trimmed token is exactly that core (so
   * interior hyphens are kept).
   */
  lemma TrimIsCore(s: string, i: nat, j: nat)
    requires i <= j <= |s|
    requires HyphensIn(s, 0, i) && HyphensIn(s, j, |s|)
    requires i < j ==> s[i] != Hyphen && s[j - 1] != Hyphen
    ensures Trim(s) == s[i..j]
  {
    if i == j {
      HyphensJoin(s, 0, i, |s|);
      TrimAllHyphens(s);
    } else {
      TrimLeftAt(s, i);
      TrimRightSuffix(s, i, j);
    }
  }

  /** The trimmed token is a slice of the input framed by hyphens only. */
  lemma TrimSplits(s: string) returns (i: nat, j: nat)
    ensures i <= j <= |s|
    ensures HyphensIn(s, 0, i) && HyphensIn(s, j, |s|)
    ensures Trim(s) == s[i..j]
  {
    var t := TrimLeft(s);
    i := |s| - |t|;
    var r := TrimRight(t);
    j := i + |r|;
    assert r == s[i..j];
    assert HyphensIn(s, j, |s|) by {
      forall k | j <= k < |s| ensures s[k] == Hyphen {
        assert s[k] == t[k - i];
      }
    }
  }

  /** A token with no hyphen at either end is passed through unchanged. */
  lemma TrimUnchanged(s: string)
    requires NoHyphenEnds(s)
    ensures Trim(s) == s
  {
    TrimIsCore(s, 0, |s|);
    assert s[0..|s|] == s;
  }

  /** Trimming twice is the same as trimming once. */
  lemma TrimIdempotent(s: string)
    ensures Trim(Trim(s)) == Trim(s)
  {
    TrimUnchanged(Trim(s));
  }
}
