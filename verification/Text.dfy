/** The two string operations of the Go standard library that decide message roles and IDs. */
module Text {
  /** unicode.IsSpace. */
  predicate IsSpace(c: char)
  {
    || '\U{0009}' <= c <= '\U{000D}'
    || c == ' ' || c == '\U{0085}' || c == '\U{00A0}' || c == '\U{1680}'
    || '\U{2000}' <= c <= '\U{200A}'
    || c == '\U{2028}' || c == '\U{2029}' || c == '\U{202F}' || c == '\U{205F}' || c == '\U{3000}'
  }

  function TrimLeft(s: string): (t: string)
    ensures |t| <= |s|
    ensures t != "" ==> !IsSpace(t[0])
  {
    if s != "" && IsSpace(s[0]) then TrimLeft(s[1..]) else s
  }

  function TrimRight(s: string): (t: string)
    ensures |t| <= |s| && t == s[..|t|]
    ensures t != "" ==> !IsSpace(t[|t| - 1])
  {
    if s != "" && IsSpace(s[|s| - 1]) then TrimRight(s[..|s| - 1]) else s
  }

  /** strings.TrimSpace. */
  function Trim(s: string): (t: string)
    ensures |t| <= |s|
  {
    TrimRight(TrimLeft(s))
  }

  /** Nothing left to trim. */
  predicate Tight(s: string)
  {
    s == "" || (!IsSpace(s[0]) && !IsSpace(s[|s| - 1]))
  }

  lemma TrimTight(s: string)
    ensures Tight(Trim(s))
    ensures Tight(s) ==> Trim(s) == s
    ensures Trim(Trim(s)) == Trim(s)
  {
    assert TrimLeft(Trim(s)) == Trim(s);
  }

  predicate Blank(s: string) { forall i :: 0 <= i < |s| ==> IsSpace(s[i]) }

  /** Trimming cuts off white space at both ends, and nothing else. */
  lemma TrimCuts(s: string) returns (i: nat, j: nat)
    ensures i <= j <= |s| && Trim(s) == s[i..j] && Blank(s[..i]) && Blank(s[j..])
  {
    i := LeftCuts(s);
    var k := RightCuts(TrimLeft(s));
    j := i + k;
    assert s[j..] == s[i..][k..] && s[i..j] == s[i..][..k];
  }

  lemma {:induction false} LeftCuts(s: string) returns (i: nat)
    ensures i <= |s| && TrimLeft(s) == s[i..] && Blank(s[..i])
  {
    i := 0;
    if s != "" && IsSpace(s[0]) {
      var k := LeftCuts(s[1..]);
      i := k + 1;
      assert s[..i] == [s[0]] + s[1..][..k] && s[1..][k..] == s[i..];
    }
  }

  lemma {:induction false} RightCuts(s: string) returns (k: nat)
    ensures k <= |s| && TrimRight(s) == s[..k] && Blank(s[k..])
  {
    k := |s|;
    if s != "" && IsSpace(s[|s| - 1]) {
      var init := s[..|s| - 1];
      k := RightCuts(init);
      assert s[k..] == init[k..] + [s[|s| - 1]] && init[..k] == s[..k];
    }
  }

  /** One step of Unicode simple folding onto a lower-case ASCII character. */
  predicate FoldsTo(c: char, lower: char)
  {
    || c == lower
    || ('a' <= lower <= 'z' && 'A' <= c <= 'Z' && c as int + 32 == lower as int)
    || (lower == 'k' && c == '\U{212A}')
    || (lower == 's' && c == '\U{017F}')
  }

  /** strings.EqualFold against a lower-case ASCII word. */
  predicate EqualFold(s: string, lower: string)
  {
    |s| == |lower| && forall i :: 0 <= i < |s| ==> FoldsTo(s[i], lower[i])
  }
}
