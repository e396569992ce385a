// The small amount of text handling that event keys and symbols need.
module Texts {

  predicate IsWhite(c: char) {
    c == ' ' || '\t' <= c <= '\r'
  }

  function StripLeft(s: string): (r: string)
    ensures r != "" ==> !IsWhite(r[0])
  {
    if s != "" && IsWhite(s[0]) then StripLeft(s[1..]) else s
  }

  function StripRight(s: string): (r: string)
    ensures r <= s
    ensures r != "" ==> !IsWhite(r[|r| - 1])
  {
    if s != "" && IsWhite(s[|s| - 1]) then StripRight(s[..|s| - 1]) else s
  }

  function Strip(s: string): (r: string)
    ensures Stripped(r)
    ensures Stripped(s) ==> r == s
  {
    StripRight(StripLeft(s))
  }

  /** Nothing but white space. */
  predicate Blank(s: string) {
    forall i :: 0 <= i < |s| ==> s[i] == ' ' || s[i] == '\t' || s[i] == '\n' || s[i] == '\r' || '\t' < s[i] < '\r'
  }

  lemma {:induction false} BlankStripsLeft(s: string)
    ensures StripLeft(s) == "" <==> Blank(s)
  {
    if s != "" && IsWhite(s[0]) {
      BlankStripsLeft(s[1..]);
      assert s == [s[0]] + s[1..];
      forall i | 0 < i < |s| ensures s[i] == s[1..][i - 1] {
      }
    }
  }

  /** Stripping leaves nothing exactly of a blank text, and otherwise a middle part between white space. */
  lemma BlankStrips(s: string)
    ensures Strip(s) == "" <==> Blank(s)
  {
    BlankStripsLeft(s);
    var left := StripLeft(s);
    if left != "" {
      KeepsFirst(left);
    }
  }

  lemma {:induction false} KeepsFirst(s: string)
    requires s != "" && !IsWhite(s[0])
    ensures StripRight(s) != ""
  {
    if IsWhite(s[|s| - 1]) {
      KeepsFirst(s[..|s| - 1]);
    }
  }

  /** Only white space is stripped, from both ends. */
  lemma StrippedMiddle(s: string) returns (i: nat, j: nat)
    ensures i <= j <= |s| && Strip(s) == s[i..j] && Blank(s[..i]) && Blank(s[j..])
  {
    i := LeftEnd(s);
    var left := StripLeft(s);
    var k := RightEnd(left);
    j := i + k;
    assert left[..k] == s[i..j] && left[k..] == s[j..];
  }

  lemma {:induction false} LeftEnd(s: string) returns (i: nat)
    ensures i <= |s| && StripLeft(s) == s[i..] && Blank(s[..i])
  {
    if s != "" && IsWhite(s[0]) {
      var k := LeftEnd(s[1..]);
      i := k + 1;
      assert s[1..][k..] == s[i..] && s[..i] == [s[0]] + s[1..][..k];
    } else {
      i := 0;
      assert s[0..] == s;
    }
  }

  lemma {:induction false} RightEnd(s: string) returns (k: nat)
    ensures k <= |s| && StripRight(s) == s[..k] && Blank(s[k..])
  {
    if s != "" && IsWhite(s[|s| - 1]) {
      var init := s[..|s| - 1];
      k := RightEnd(init);
      assert init[..k] == s[..k] && s[k..] == init[k..] + [s[|s| - 1]];
    } else {
      k := |s|;
      assert s[..k] == s;
    }
  }

  predicate Stripped(s: string) {
    s != "" ==> !IsWhite(s[0]) && !IsWhite(s[|s| - 1])
  }

  /** ASCII letters only. */
  function UpperChar(c: char): (r: char)
    ensures 'a' <= c <= 'z' ==> 'A' <= r <= 'Z' && r as int - 'A' as int == c as int - 'a' as int
    ensures !('a' <= c <= 'z') ==> r == c
  {
    if 'a' <= c <= 'z' then c - 'a' + 'A' else c
  }

  function Upper(s: string): (r: string)
    ensures |r| == |s| && forall i :: 0 <= i < |s| ==> r[i] == UpperChar(s[i])
  {
    seq(|s|, i requires 0 <= i < |s| => UpperChar(s[i]))
  }

  function LowerChar(c: char): (r: char)
    ensures 'A' <= c <= 'Z' ==> 'a' <= r <= 'z' && r as int - 'a' as int == c as int - 'A' as int
    ensures !('A' <= c <= 'Z') ==> r == c
  {
    if 'A' <= c <= 'Z' then c - 'A' + 'a' else c
  }

  function Lower(s: string): (r: string)
    ensures |r| == |s| && forall i :: 0 <= i < |s| ==> r[i] == LowerChar(s[i])
  {
    seq(|s|, i requires 0 <= i < |s| => LowerChar(s[i]))
  }

  /** How every symbol is written before it is used as a map key. */
  function SymbolName(s: string): (r: string) {
    Upper(Strip(s))
  }

  lemma SymbolNameIsStable(s: string)
    ensures SymbolName(SymbolName(s)) == SymbolName(s)
  {
    var name := SymbolName(s);
    assert Stripped(name);
    assert Upper(name) == name;
  }
}
