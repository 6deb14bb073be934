/** The string operations that the gateway and the cloud API call: `strip`, `lower` and `upper`
    on ASCII text. */
module Text {

  predicate IsSpace(c: char) {
    c == ' ' || 9 <= c as int <= 13
  }

  function StripLeft(s: string): (r: string)
    ensures |r| == 0 || !IsSpace(r[0])
    ensures |r| <= |s| && r == s[|s| - |r|..]
  {
    if |s| == 0 then s else if IsSpace(s[0]) then StripLeft(s[1..]) else s
  }

  function StripRight(s: string): (r: string)
    ensures |r| == 0 || !IsSpace(r[|r| - 1])
    ensures |r| <= |s| && r == s[..|r|]
  {
    if |s| == 0 then s else if IsSpace(s[|s| - 1]) then StripRight(s[..|s| - 1]) else s
  }

  function Strip(s: string): (r: string)
    ensures |r| == 0 || (!IsSpace(r[0]) && !IsSpace(r[|r| - 1]))
    ensures |r| <= |s|
  {
    StripRight(StripLeft(s))
  }

  predicate AllSpace(s: string) {
    forall i :: 0 <= i < |s| ==> IsSpace(s[i])
  }

  lemma {:induction false} StripLeftTakesSpace(s: string)
    ensures AllSpace(s[..|s| - |StripLeft(s)|])
  {
    if |s| > 0 && IsSpace(s[0]) {
      StripLeftTakesSpace(s[1..]);
      var n := |s| - |StripLeft(s)|;
      assert forall i :: 0 < i < n ==> s[..n][i] == s[1..][..n - 1][i - 1];
    }
  }

  lemma {:induction false} StripRightTakesSpace(s: string)
    ensures AllSpace(s[|StripRight(s)|..])
  {
    if |s| > 0 && IsSpace(s[|s| - 1]) {
      StripRightTakesSpace(s[..|s| - 1]);
      var n := |StripRight(s)|;
      assert forall i :: n <= i < |s| - 1 ==> s[i] == s[..|s| - 1][n..][i - n];
      assert forall i :: 0 <= i < |s| - n ==> s[n..][i] == s[n + i];
    }
  }

  lemma {:induction false} Cut(s: string, l: string, m: string)
    requires |l| <= |s| && l == s[|s| - |l|..] && |m| <= |l| && m == l[..|m|]
    requires AllSpace(s[..|s| - |l|]) && AllSpace(l[|m|..])
    ensures exists a, b :: AllSpace(a) && AllSpace(b) && s == a + m + b
  {
    var a, b := s[..|s| - |l|], l[|m|..];
    assert s == a + m + b;
  }

  /** Only white space is taken away, and all of it at both ends. */
  lemma {:induction false} StripIs(s: string)
    ensures exists a, b :: AllSpace(a) && AllSpace(b) && s == a + Strip(s) + b
  {
    var l := StripLeft(s);
    StripLeftTakesSpace(s);
    StripRightTakesSpace(l);
    Cut(s, l, Strip(s));
  }

  /** A string without white space at either end is left as it is. */
  lemma StripIdentity(s: string)
    requires |s| == 0 || (!IsSpace(s[0]) && !IsSpace(s[|s| - 1]))
    ensures Strip(s) == s
  {
  }

  function LowerChar(c: char): char {
    if 'A' <= c <= 'Z' then (c as int + 32) as char else c
  }

  function UpperChar(c: char): char {
    if 'a' <= c <= 'z' then (c as int - 32) as char else c
  }

  function Lower(s: string): (r: string)
    ensures |r| == |s|
    ensures forall i :: 0 <= i < |s| ==> r[i] == LowerChar(s[i])
  {
    seq(|s|, i requires 0 <= i < |s| => LowerChar(s[i]))
  }

  function Upper(s: string): (r: string)
    ensures |r| == |s|
    ensures forall i :: 0 <= i < |s| ==> r[i] == UpperChar(s[i])
  {
    seq(|s|, i requires 0 <= i < |s| => UpperChar(s[i]))
  }
}
