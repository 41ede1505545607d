/** Rust string primitives over sequences of Unicode scalar values. */
module Text {
  import opened Sequences

  /** The Unicode White_Space property, as `char::is_whitespace` tests it. */
  predicate IsWhitespace(c: char) {
    || '\U{9}' <= c <= '\U{D}' || c == ' ' || c == '\U{85}' || c == '\U{A0}'
    || c == '\U{1680}' || '\U{2000}' <= c <= '\U{200A}' || c == '\U{2028}'
    || c == '\U{2029}' || c == '\U{202F}' || c == '\U{205F}' || c == '\U{3000}'
  }

  predicate AllWhitespace(s: string) {
    forall i :: 0 <= i < |s| ==> IsWhitespace(s[i])
  }

  function TrimStart(s: string): (r: string)
    ensures |r| <= |s| && r == s[|s| - |r|..]
    ensures r != "" ==> !IsWhitespace(r[0])
    ensures AllWhitespace(s[..|s| - |r|])
  {
    if s != "" && IsWhitespace(s[0]) then TrimStart(s[1..]) else s
  }

  function TrimEnd(s: string): (r: string)
    ensures |r| <= |s| && r == s[..|r|]
    ensures r != "" ==> !IsWhitespace(Last(r))
    ensures AllWhitespace(s[|r|..])
  {
    if s != "" && IsWhitespace(Last(s)) then TrimEnd(Init(s)) else s
  }

  function Trim(s: string): (r: string)
    ensures r != "" ==> !IsWhitespace(r[0]) && !IsWhitespace(Last(r))
  {
    TrimEnd(TrimStart(s))
  }

  lemma {:induction false} TrimStartUnpads(a: string, s: string)
    requires AllWhitespace(a) && (s != "" ==> !IsWhitespace(s[0]))
    ensures TrimStart(a + s) == s
  {
    hide IsWhitespace;
    if a == "" {
      assert a + s == s;
    } else {
      assert (a + s)[0] == a[0] && (a + s)[1..] == a[1..] + s;
      TrimStartUnpads(a[1..], s);
    }
  }

  lemma {:induction false} TrimEndUnpads(s: string, b: string)
    requires AllWhitespace(b) && (s != "" ==> !IsWhitespace(Last(s)))
    ensures TrimEnd(s + b) == s
  {
    hide IsWhitespace;
    if b == "" {
      assert s + b == s;
    } else {
      assert Last(s + b) == Last(b) && Init(s + b) == s + Init(b);
      TrimEndUnpads(s, Init(b));
    }
  }

  /** What is trimmed off a text is the whitespace around it. */
  lemma TrimUnpads(a: string, middle: string, b: string)
    requires AllWhitespace(a) && AllWhitespace(b)
    requires middle != "" ==> !IsWhitespace(middle[0]) && !IsWhitespace(Last(middle))
    ensures Trim(a + middle + b) == middle
  {
    if middle == "" {
      assert forall i :: 0 <= i < |a + b| ==> IsWhitespace((a + b)[i]);
      assert a + middle + b == (a + b) + "";
      TrimStartUnpads(a + b, "");
    } else {
      hide TrimStart, TrimEnd, IsWhitespace, AllWhitespace;
      Associative(a, middle, b);
      assert (middle + b)[0] == middle[0];
      TrimStartUnpads(a, middle + b);
      TrimEndUnpads(middle, b);
    }
  }

  lemma TrimIsTheMiddle(s: string) returns (a: string, b: string)
    ensures AllWhitespace(a) && AllWhitespace(b) && s == a + Trim(s) + b
  {
    hide IsWhitespace, AllWhitespace, TrimStart, TrimEnd;
    var t := TrimStart(s);
    a, b := s[..|s| - |t|], t[|Trim(s)|..];
    assert s == a + t && t == Trim(s) + b;
    Associative(a, Trim(s), b);
  }
}
