/** The advertisement naming convention shared by the sender and the scanner,
    and the part of JavaScript's string semantics the sender relies on. */
module Protocol {

  /** The tag that marks an advertisement's local name as one of ours. */
  const Prefix: string := "Pokemon:"

  /** The characters JavaScript's String.prototype.trim removes: the
      ECMAScript WhiteSpace set (TAB, VT, FF, ZWNBSP and every Zs space)
      and the LineTerminator set (LF, CR, LS, PS). */
  predicate IsJsWhitespace(c: char) {
    c == '\t' || c == '\n' || c == '\U{000B}' || c == '\U{000C}' || c == '\r'
    || c == ' ' || c == '\U{00A0}' || c == '\U{1680}'
    || ('\U{2000}' <= c && c <= '\U{200A}')
    || c == '\U{2028}' || c == '\U{2029}' || c == '\U{202F}' || c == '\U{205F}'
    || c == '\U{3000}' || c == '\U{FEFF}'
  }

  /** Drops leading whitespace: the result is a suffix of `s`, everything
      dropped is whitespace, and what is left does not start with whitespace. */
  function TrimStart(s: string): (r: string)
    ensures |r| <= |s| && r == s[|s| - |r|..]
    ensures forall i :: 0 <= i < |s| - |r| ==> IsJsWhitespace(s[i])
    ensures r != [] ==> !IsJsWhitespace(r[0])
  {
    if |s| > 0 && IsJsWhitespace(s[0]) then TrimStart(s[1..]) else s
  }

  /** Drops trailing whitespace: the result is a prefix of `s`, everything
      dropped is whitespace, and what is left does not end with whitespace. */
  function TrimEnd(s: string): (r: string)
    ensures |r| <= |s| && r == s[..|r|]
    ensures forall i :: |r| <= i < |s| ==> IsJsWhitespace(s[i])
    ensures r != [] ==> !IsJsWhitespace(r[|r| - 1])
  {
    if |s| > 0 && IsJsWhitespace(s[|s| - 1]) then TrimEnd(s[..|s| - 1]) else s
  }

  /** Every character of `t` is whitespace. */
  predicate AllWhitespace(t: string) {
    forall i :: 0 <= i < |t| ==> IsJsWhitespace(t[i])
  }

  /** `s.trim()`: the input with whitespace stripped from both ends. The
      result sits between a whitespace-only head and a whitespace-only tail,
      and when non-empty it neither starts nor ends with whitespace, so no
      more could have been stripped. */
  function Trim(s: string): (r: string)
    ensures exists head, tail :: s == head + r + tail && AllWhitespace(head) && AllWhitespace(tail)
    ensures r != [] ==> !IsJsWhitespace(r[0]) && !IsJsWhitespace(r[|r| - 1])
  {
    var t := TrimStart(s);
    var r := TrimEnd(t);
    SplitAround(s, t, r);
    var head, tail := s[..|s| - |t|], t[|r|..];
    assert s == head + r + tail && AllWhitespace(head) && AllWhitespace(tail);
    r
  }

  /** Cutting a whitespace-only head off `s`, leaving `t`, and then a
      whitespace-only tail off `t`, leaving `r`, splits `s` around `r`. */
  lemma SplitAround(s: string, t: string, r: string)
    requires |t| <= |s| && t == s[|s| - |t|..]
    requires forall i :: 0 <= i < |s| - |t| ==> IsJsWhitespace(s[i])
    requires |r| <= |t| && r == t[..|r|]
    requires forall i :: |r| <= i < |t| ==> IsJsWhitespace(t[i])
    ensures s == s[..|s| - |t|] + r + t[|r|..]
    ensures AllWhitespace(s[..|s| - |t|]) && AllWhitespace(t[|r|..])
  {
  }

  /** The emptiness test `!name.trim()` holds exactly for names made of
      whitespace only (the empty name included). */
  lemma TrimEmptyIffBlank(s: string)
    ensures Trim(s) == [] <==> AllWhitespace(s)
  {
  }

  /** The local name a sender broadcasts for `name`: the prefix followed by
      the name exactly as typed. Stripping the prefix gives the name back. */
  function LocalName(name: string): (r: string)
    ensures Prefix <= r && |r| == |Prefix| + |name| && r[|Prefix|..] == name
  {
    Prefix + name
  }
}
