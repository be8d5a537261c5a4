/** Whitespace trimming as JavaScript's `String.prototype.trim` performs it. */
module Text {

  /** The characters `trim` removes: the ECMAScript WhiteSpace and LineTerminator
      code points (tab, LF, VT, FF, CR, space, NBSP, BOM, LS, PS and the Unicode
      space separators). */
  predicate IsWhitespace(c: char) {
    c == '\t' || c == '\n' || c == '\U{B}' || c == '\U{C}' || c == '\r' || c == ' '
    || c == '\U{A0}' || c == '\U{1680}' || ('\U{2000}' <= c <= '\U{200A}')
    || c == '\U{2028}' || c == '\U{2029}' || c == '\U{202F}' || c == '\U{205F}'
    || c == '\U{3000}' || c == '\U{FEFF}'
  }

  predicate AllWhitespace(s: string) {
    forall i :: 0 <= i < |s| ==> IsWhitespace(s[i])
  }

  /** `s` without its leading whitespace: a suffix of `s` that does not start with whitespace. */
  function TrimStart(s: string): (r: string)
    ensures |r| <= |s| && r == s[|s| - |r|..]
    ensures AllWhitespace(s[..|s| - |r|])
    ensures r == [] || !IsWhitespace(r[0])
  {
    if s != [] && IsWhitespace(s[0]) then TrimStart(s[1..]) else s
  }

  /** `s` without its trailing whitespace: a prefix of `s` that does not end with whitespace. */
  function TrimEnd(s: string): (r: string)
    ensures |r| <= |s| && r == s[..|r|]
    ensures AllWhitespace(s[|r|..])
    ensures r == [] || !IsWhitespace(r[|r| - 1])
  {
    if s != [] && IsWhitespace(s[|s| - 1]) then TrimEnd(s[..|s| - 1]) else s
  }

  /** `s` without leading and trailing whitespace. */
  function Trim(s: string): (r: string)
    ensures |r| <= |s|
    ensures r == [] || (!IsWhitespace(r[0]) && !IsWhitespace(r[|r| - 1]))
    ensures r == [] <==> AllWhitespace(s)
  {
    var t := TrimStart(s);
    var r := TrimEnd(t);
    r
  }

  /** Trim is exactly the removal of a whitespace padding around a value that
      neither starts nor ends with whitespace. */
  lemma {:induction false} TrimPadded(pre: string, v: string, post: string)
    requires AllWhitespace(pre) && AllWhitespace(post)
    requires v == [] || (!IsWhitespace(v[0]) && !IsWhitespace(v[|v| - 1]))
    ensures Trim(pre + v + post) == v
  {
    var t := v + post;
    assert pre + v + post == pre + t;
    if v == [] {
      assert t == post;
      TrimStartPadded(pre, t);
      assert TrimStart(pre + t) == [];
      TrimEndAll([]);
    } else {
      assert t[0] == v[0];
      assert !AllWhitespace(t);
      TrimStartPadded(pre, t);
      assert TrimStart(pre + t) == t;
      TrimEndPadded(v, post);
    }
  }

  lemma {:induction false} TrimStartPadded(pre: string, t: string)
    requires AllWhitespace(pre)
    requires t == [] || !IsWhitespace(t[0]) || AllWhitespace(t)
    ensures TrimStart(pre + t) == if AllWhitespace(t) then [] else t
  {
    if pre == [] {
      assert pre + t == t;
      if AllWhitespace(t) && t != [] {
        TrimStartAll(t);
      }
    } else {
      assert (pre + t)[1..] == pre[1..] + t;
      TrimStartPadded(pre[1..], t);
    }
  }

  lemma {:induction false} TrimStartAll(t: string)
    requires AllWhitespace(t)
    ensures TrimStart(t) == []
  {
    if t != [] {
      TrimStartAll(t[1..]);
    }
  }

  lemma {:induction false} TrimEndAll(t: string)
    requires AllWhitespace(t)
    ensures TrimEnd(t) == []
  {
    if t != [] {
      TrimEndAll(t[..|t| - 1]);
    }
  }

  lemma {:induction false} TrimEndPadded(v: string, post: string)
    requires v != [] && !IsWhitespace(v[|v| - 1])
    requires AllWhitespace(post)
    ensures TrimEnd(v + post) == v
  {
    if post == [] {
      assert v + post == v;
    } else {
      assert (v + post)[..|v + post| - 1] == v + post[..|post| - 1];
      TrimEndPadded(v, post[..|post| - 1]);
    }
  }

  /** Trimming twice is trimming once. */
  lemma {:induction false} TrimIdempotent(s: string)
    ensures Trim(Trim(s)) == Trim(s)
  {
    var r := Trim(s);
    var e: string := [];
    assert e + r + e == r;
    TrimPadded(e, r, e);
  }
}
