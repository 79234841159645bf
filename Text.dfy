/** String helpers shared by the screens: JavaScript's `String.prototype.trim`
    and the "blank after trimming" test that every form uses to reject input. */
module Text {

  /** The whitespace that `trim` strips. The ASCII white space and line
      terminators, the no-break space, the byte-order mark and the two Unicode
      line/paragraph separators; the other Unicode space separators are not
      modelled. */
  predicate IsSpace(c: char) {
    c == ' ' || c == '\t' || c == '\n' || c == '\r' || c == '\U{000B}' || c == '\U{000C}'
    || c == '\U{00A0}' || c == '\U{FEFF}' || c == '\U{2028}' || c == '\U{2029}'
  }

  /** A string made only of whitespace (the empty string included). */
  predicate IsBlank(s: string) {
    forall i {:trigger IsSpace(s[i])} :: 0 <= i < |s| ==> IsSpace(s[i])
  }

  /** Drops the leading whitespace: the result is the suffix of `s` that starts
      at its first non-space character. */
  function TrimStart(s: string): (r: string)
    ensures |r| <= |s| && r == s[|s| - |r|..]
    ensures r == [] || !IsSpace(r[0])
  {
    if s != [] && IsSpace(s[0]) then TrimStart(s[1..]) else s
  }

  /** What `TrimStart` drops is whitespace. */
  lemma {:induction false} TrimStartDropsBlank(s: string)
    ensures IsBlank(s[..|s| - |TrimStart(s)|])
  {
    if s != [] && IsSpace(s[0]) {
      TrimStartDropsBlank(s[1..]);
      var k := |s| - |TrimStart(s)|;
      forall i | 0 <= i < k ensures IsSpace(s[i]) {
        if i > 0 { assert s[i] == s[1..][..k - 1][i - 1]; }
      }
    }
  }

  /** Drops the trailing whitespace: the result is the prefix of `s` that ends
      at its last non-space character. */
  function TrimEnd(s: string): (r: string)
    ensures |r| <= |s| && r == s[..|r|]
    ensures r == [] || !IsSpace(r[|r| - 1])
  {
    if s != [] && IsSpace(s[|s| - 1]) then TrimEnd(s[..|s| - 1]) else s
  }

  /** What `TrimEnd` drops is whitespace. */
  lemma {:induction false} TrimEndDropsBlank(s: string)
    ensures IsBlank(s[|TrimEnd(s)|..])
  {
    if s != [] && IsSpace(s[|s| - 1]) {
      var init := s[..|s| - 1];
      TrimEndDropsBlank(init);
      var k := |TrimEnd(s)|;
      forall i | k <= i < |s| ensures IsSpace(s[i]) {
        if i < |s| - 1 { assert s[i] == init[k..][i - k]; }
      }
    }
  }

  /** `s.trim()`: both ends stripped. */
  function Trim(s: string): (r: string)
    ensures |r| <= |s|
    ensures r == [] || (!IsSpace(r[0]) && !IsSpace(r[|r| - 1]))
  {
    TrimEnd(TrimStart(s))
  }

  /** `s.trim()` is empty (falsy) exactly when `s` is blank. */
  lemma {:induction false} TrimEmptyIffBlank(s: string)
    ensures Trim(s) == [] <==> IsBlank(s)
  {
    if TrimEnd(TrimStart(s)) == [] {
      EmptyTrimMeansBlank(s);
    } else {
      NonEmptyTrimMeansNotBlank(s);
    }
  }

  lemma {:induction false} EmptyTrimMeansBlank(s: string)
    requires TrimEnd(TrimStart(s)) == []
    ensures IsBlank(s)
  {
    var t := TrimStart(s);
    TrimStartDropsBlank(s);
    TrimEndDropsBlank(t);
    assert s[..|s| - |t|] == s;
  }

  lemma {:induction false} NonEmptyTrimMeansNotBlank(s: string)
    requires TrimEnd(TrimStart(s)) != []
    ensures !IsBlank(s)
  {
    var t := TrimStart(s);
    var r := TrimEnd(t);
    var k := |s| - |t|;
    assert r[0] == t[0];
    assert s[k] == t[0];
  }

  /** `trim` keeps the middle of `s` as it is: the trimmed string is the
      slice of `s` that starts where the leading whitespace ends. */
  lemma {:induction false} TrimIsInfix(s: string)
    ensures var k := |s| - |TrimStart(s)|;
      k + |Trim(s)| <= |s| && s[k..k + |Trim(s)|] == Trim(s)
  {
    var t := TrimStart(s);
    SuffixTrimEnd(s, |s| - |t|, t);
    assert Trim(s) == TrimEnd(t);
  }

  /** What `trim` cuts off the two ends of `s` is whitespace. */
  lemma {:induction false} TrimCutsBlankEnds(s: string)
    ensures var k := |s| - |TrimStart(s)|;
      k + |Trim(s)| <= |s| && IsBlank(s[..k]) && IsBlank(s[k + |Trim(s)|..])
  {
    var t := TrimStart(s);
    TrimStartDropsBlank(s);
    SuffixTrimEnd(s, |s| - |t|, t);
    assert Trim(s) == TrimEnd(t);
  }

  /** `TrimEnd` applied to the suffix `s[k..]`, seen from inside `s`. */
  lemma {:induction false} SuffixTrimEnd(s: string, k: nat, t: string)
    requires k <= |s| && t == s[k..]
    ensures k + |TrimEnd(t)| <= |s|
    ensures s[k..k + |TrimEnd(t)|] == TrimEnd(t)
    ensures IsBlank(s[k + |TrimEnd(t)|..])
  {
    var r := TrimEnd(t);
    TrimEndDropsBlank(t);
    assert s[k + |r|..] == t[|r|..];
  }

  /** A string with no whitespace at either end is its own trim. */
  lemma {:induction false} TrimKeepsTrimmed(s: string)
    requires s == [] || (!IsSpace(s[0]) && !IsSpace(s[|s| - 1]))
    ensures Trim(s) == s
  {
    assert TrimStart(s) == s;
    assert TrimEnd(s) == s;
  }

  /** Trimming a trimmed string changes nothing. */
  lemma {:induction false} TrimIdempotent(s: string)
    ensures Trim(Trim(s)) == Trim(s)
  {
    TrimKeepsTrimmed(Trim(s));
  }
}
