/** String operations of the JavaScript standard library, on `seq<char>`. */
module Text {

  /** The code points String#trim removes: WhiteSpace and LineTerminator of ECMA-262. */
  predicate IsJsWhitespace(c: char) {
    c == '\t' || c == '\n' || c == '\U{B}' || c == '\U{C}' || c == '\r' || c == ' '
    || c == '\U{A0}' || c == '\U{1680}' || ('\U{2000}' <= c <= '\U{200A}')
    || c == '\U{2028}' || c == '\U{2029}' || c == '\U{202F}' || c == '\U{205F}'
    || c == '\U{3000}' || c == '\U{FEFF}'
  }

  /** Every character of `s` is whitespace. */
  predicate IsBlank(s: string) {
    forall i :: 0 <= i < |s| ==> IsJsWhitespace(s[i])
  }

  /** String#trimStart. */
  function TrimStart(s: string): (r: string)
    ensures |r| <= |s| && r == s[|s| - |r|..]
    ensures forall i :: 0 <= i < |s| - |r| ==> IsJsWhitespace(s[i])
    ensures r == "" || !IsJsWhitespace(r[0])
  {
    if |s| > 0 && IsJsWhitespace(s[0]) then TrimStart(s[1..]) else s
  }

  /** String#trimEnd. */
  function TrimEnd(s: string): (r: string)
    ensures |r| <= |s| && r == s[..|r|]
    ensures forall i :: |r| <= i < |s| ==> IsJsWhitespace(s[i])
    ensures r == "" || !IsJsWhitespace(r[|r| - 1])
  {
    if |s| > 0 && IsJsWhitespace(s[|s| - 1]) then TrimEnd(s[..|s| - 1]) else s
  }

  /** String#trim. */
  function Trim(s: string): string {
    TrimEnd(TrimStart(s))
  }

  /**
   * Trim keeps a contiguous middle part of its input, drops only whitespace
   * around it, and leaves no whitespace at either end.
   */
  lemma TrimSpec(s: string)
    ensures exists i, j :: 0 <= i <= j <= |s| && Trim(s) == s[i..j] && IsBlank(s[..i]) && IsBlank(s[j..])
    ensures Trim(s) == "" || (!IsJsWhitespace(Trim(s)[0]) && !IsJsWhitespace(Trim(s)[|Trim(s)| - 1]))
  {
    var i, j := TrimBounds(s);
    var t := TrimStart(s);
    if Trim(s) != "" {
      assert Trim(s)[0] == t[0];
    }
  }

  /** Where the part Trim keeps starts and ends. */
  lemma TrimBounds(s: string) returns (i: nat, j: nat)
    ensures i <= j <= |s| && Trim(s) == s[i..j] && IsBlank(s[..i]) && IsBlank(s[j..])
  {
    i := |s| - |TrimStart(s)|;
    j := i + |Trim(s)|;
    TrimSlice(s, i, j);
    TrimStartDropsBlank(s);
    TrimDropsBlankTail(s, i, j);
  }

  lemma TrimSlice(s: string, i: nat, j: nat)
    requires i == |s| - |TrimStart(s)| && j == i + |Trim(s)|
    ensures j <= |s| && Trim(s) == s[i..j]
  {
    var t := TrimStart(s);
    var u := TrimEnd(t);
    assert t == s[i..];
    assert u == t[..j - i];
    PrefixOfSuffix(s, i, j);
  }

  lemma PrefixOfSuffix<T>(s: seq<T>, i: nat, j: nat)
    requires i <= j <= |s|
    ensures s[i..][..j - i] == s[i..j]
  {
  }

  lemma TrimDropsBlankTail(s: string, i: nat, j: nat)
    requires i == |s| - |TrimStart(s)| && j == i + |Trim(s)|
    ensures j <= |s| && IsBlank(s[j..])
  {
    var t := TrimStart(s);
    TrimEndDropsBlank(t);
    assert |TrimEnd(t)| == j - i;
    assert t == s[i..];
    SuffixOfSuffix(s, i, j);
  }

  lemma SuffixOfSuffix<T>(s: seq<T>, i: nat, j: nat)
    requires i <= j <= |s|
    ensures s[i..][j - i..] == s[j..]
  {
  }

  lemma TrimStartDropsBlank(s: string)
    ensures IsBlank(s[..|s| - |TrimStart(s)|])
  {
    var i := |s| - |TrimStart(s)|;
    forall k | 0 <= k < i ensures IsJsWhitespace(s[..i][k]) {
      assert s[..i][k] == s[k];
    }
  }

  lemma TrimEndDropsBlank(t: string)
    ensures IsBlank(t[|TrimEnd(t)|..])
  {
    var n := |TrimEnd(t)|;
    forall k | 0 <= k < |t| - n ensures IsJsWhitespace(t[n..][k]) {
      assert t[n..][k] == t[n + k];
    }
  }

  /** A string trims to "" exactly when it is all whitespace. */
  lemma TrimEmptyIffBlank(s: string)
    ensures Trim(s) == "" <==> IsBlank(s)
  {
    var t := TrimStart(s);
    if t != "" {
      assert t[0] == s[|s| - |t|];
      assert TrimEnd(t) != "";
    }
  }

  /** Trimming twice is trimming once. */
  lemma TrimIdempotent(s: string)
    ensures Trim(Trim(s)) == Trim(s)
  {
    var t := Trim(s);
    TrimSpec(s);
    if t != "" {
      assert TrimStart(t) == t;
      assert TrimEnd(t) == t;
    }
  }

  /** ASCII letters mapped to lower case; other characters unchanged. */
  function LowerChar(c: char): char {
    if 'A' <= c <= 'Z' then (c as int + 32) as char else c
  }

  /** String#toLowerCase on the ASCII range. */
  function ToLower(s: string): (r: string)
    ensures |r| == |s|
    ensures forall i :: 0 <= i < |s| ==> r[i] == LowerChar(s[i])
  {
    seq(|s|, i requires 0 <= i < |s| => LowerChar(s[i]))
  }

  /** `s.replace(/c+$/, "")`: the string without its trailing run of `c`. */
  function DropTrailing(s: string, c: char): (r: string)
    ensures |r| <= |s| && r == s[..|r|]
    ensures forall i :: |r| <= i < |s| ==> s[i] == c
    ensures r == "" || r[|r| - 1] != c
  {
    if |s| > 0 && s[|s| - 1] == c then DropTrailing(s[..|s| - 1], c) else s
  }

  /** `s.startsWith(p)`. */
  predicate StartsWith(s: string, p: string) {
    |p| <= |s| && s[..|p|] == p
  }

  /** The decimal digits of a natural number. */
  function NatToString(n: nat): (r: string)
    ensures |r| > 0
    ensures forall i :: 0 <= i < |r| ==> '0' <= r[i] <= '9'
    decreases n
  {
    var d := ['0' + (n % 10) as char];
    if n < 10 then d else NatToString(n / 10) + d
  }

  /** String(n) for an integer. */
  function IntToString(n: int): string {
    if n < 0 then "-" + NatToString(-n) else NatToString(n)
  }
}
