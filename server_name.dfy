/**
 * The TLS server name the connector derives from a URI host: the host with
 * every leading and trailing '[' or ']' removed, so that a bracketed IPv6
 * literal such as "[::1]" becomes "::1". This is `str::trim_matches` with the
 * predicate "is '[' or ']'".
 */
module ServerName {

  predicate IsBracket(c: char) {
    c == '[' || c == ']'
  }

  /** Neither the first nor the last character of `s` is a bracket. */
  predicate Unbracketed(s: string) {
    s == [] || (!IsBracket(s[0]) && !IsBracket(s[|s| - 1]))
  }

  /** Every character of s at an index in [lo, hi) is a bracket. */
  predicate BracketsIn(s: string, lo: int, hi: int)
    requires 0 <= lo && hi <= |s|
  {
    forall k :: lo <= k < hi ==> IsBracket(s[k])
  }

  /**
   * Independent description of a trimmed result: `r` is the slice s[i..j]
   * where everything before i and everything from j on is a bracket, and `r`
   * itself neither starts nor ends with one.
   */
  ghost predicate TrimmedAt(s: string, r: string, i: int, j: int) {
    0 <= i <= j <= |s| && r == s[i..j] &&
    BracketsIn(s, 0, i) && BracketsIn(s, j, |s|) && Unbracketed(r)
  }

  ghost predicate TrimmedOf(s: string, r: string) {
    exists i, j :: TrimmedAt(s, r, i, j)
  }

  /** Removes every leading bracket. */
  function TrimStart(s: string): (r: string)
    ensures |r| <= |s| && r == s[|s| - |r|..]
    ensures BracketsIn(s, 0, |s| - |r|)
    ensures r == [] || !IsBracket(r[0])
  {
    if |s| > 0 && IsBracket(s[0]) then TrimStart(s[1..]) else s
  }

  /** Removes every trailing bracket. */
  function TrimEnd(s: string): (r: string)
    ensures |r| <= |s| && r == s[..|r|]
    ensures BracketsIn(s, |r|, |s|)
    ensures r == [] || !IsBracket(r[|r| - 1])
  {
    if |s| > 0 && IsBracket(s[|s| - 1]) then TrimEnd(s[..|s| - 1]) else s
  }

  /** `s.trim_matches(|c| c == '[' || c == ']')`. */
  function TrimBrackets(s: string): (r: string)
    ensures TrimmedOf(s, r)
  {
    var a := TrimStart(s);
    var r := TrimEnd(a);
    var i := |s| - |a|;
    assert r == s[i..i + |r|];
    assert BracketsIn(s, i + |r|, |s|) by {
      forall k | i + |r| <= k < |s| ensures IsBracket(s[k]) {
        assert s[k] == a[k - i];
      }
    }
    assert r != [] ==> r[0] == a[0];
    assert TrimmedAt(s, r, i, i + |r|);
    r
  }

  /** A string that does not start with a bracket is left alone by TrimStart. */
  lemma TrimStartUnbracketed(s: string)
    requires s == [] || !IsBracket(s[0])
    ensures TrimStart(s) == s
  {
  }

  lemma TrimEndUnbracketed(s: string)
    requires s == [] || !IsBracket(s[|s| - 1])
    ensures TrimEnd(s) == s
  {
  }

  /** If both slices are non-empty and trimmed, their bounds agree. */
  lemma TrimmedBoundsAgree(s: string, r1: string, i1: int, j1: int, r2: string, i2: int, j2: int)
    requires TrimmedAt(s, r1, i1, j1) && TrimmedAt(s, r2, i2, j2)
    requires r1 != [] && r2 != []
    ensures i1 == i2 && j1 == j2
  {
    assert r1[0] == s[i1] && r2[0] == s[i2];
    assert r1[|r1| - 1] == s[j1 - 1] && r2[|r2| - 1] == s[j2 - 1];
  }

  /** TrimmedOf determines its result uniquely, so it is a full specification of TrimBrackets. */
  lemma TrimmedOfUnique(s: string, r1: string, r2: string)
    requires TrimmedOf(s, r1) && TrimmedOf(s, r2)
    ensures r1 == r2
  {
    var i1, j1 :| TrimmedAt(s, r1, i1, j1);
    var i2, j2 :| TrimmedAt(s, r2, i2, j2);
    if r1 != [] && r2 != [] {
      TrimmedBoundsAgree(s, r1, i1, j1, r2, i2, j2);
    } else if r1 == [] {
      // Then every character of s is a bracket, so r2 cannot have a non-bracket end.
      assert BracketsIn(s, 0, |s|);
    } else {
      assert BracketsIn(s, 0, |s|);
    }
  }

  /** Any result meeting the description is the one TrimBrackets computes. */
  lemma TrimBracketsIsTrimmedOf(s: string, r: string)
    ensures TrimmedOf(s, r) <==> r == TrimBrackets(s)
  {
    if TrimmedOf(s, r) {
      TrimmedOfUnique(s, r, TrimBrackets(s));
    }
  }

  /** The trimmed name neither starts nor ends with a bracket. */
  lemma TrimBracketsUnbracketed(s: string)
    ensures Unbracketed(TrimBrackets(s))
  {
    var r := TrimBrackets(s);
    var i, j :| TrimmedAt(s, r, i, j);
  }

  /** A string with no bracket at either end is its own trimming. */
  lemma TrimBracketsNoOp(s: string)
    requires Unbracketed(s)
    ensures TrimBrackets(s) == s
  {
    TrimStartUnbracketed(s);
    TrimEndUnbracketed(s);
  }

  /** Trimming a second time changes nothing. */
  lemma TrimBracketsIdempotent(s: string)
    ensures TrimBrackets(TrimBrackets(s)) == TrimBrackets(s)
  {
    TrimBracketsUnbracketed(s);
    TrimBracketsNoOp(TrimBrackets(s));
  }

  /** Brackets are removed only at the ends: a bracketed literal yields its inside. */
  lemma TrimBracketsBracketed(h: string)
    requires Unbracketed(h)
    ensures TrimBrackets("[" + h + "]") == h
  {
    var s := "[" + h + "]";
    assert s[1..1 + |h|] == h;
    assert TrimmedAt(s, h, 1, 1 + |h|);
    TrimBracketsIsTrimmedOf(s, h);
  }

  /** The IPv6 loopback literal "[::1]" becomes "::1". */
  lemma TrimBracketsLoopback()
    ensures TrimBrackets("[::1]") == "::1"
  {
    assert "[::1]" == "[" + "::1" + "]";
    TrimBracketsBracketed("::1");
  }

  /** An ordinary host name passes through unchanged. */
  lemma TrimBracketsHostName()
    ensures TrimBrackets("example.com") == "example.com"
  {
    TrimBracketsNoOp("example.com");
  }
}
