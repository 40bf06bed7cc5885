/** The JavaScript string operations the controllers rely on. */
module Text {
  import opened Common

  /**
   * JavaScript's WhiteSpace and LineTerminator characters, which `String.prototype.trim`
   * removes: tab, vertical tab, form feed, space, no-break space, byte-order mark, the
   * space separators of category Zs, line feed, carriage return and the line and
   * paragraph separators.
   */
  predicate IsWhitespace(c: char)
  {
    || c == '\t' || c == '\U{000B}' || c == '\U{000C}' || c == ' '
    || c == '\U{00A0}' || c == '\U{FEFF}' || c == '\U{1680}'
    || ('\U{2000}' <= c <= '\U{200A}')
    || c == '\U{202F}' || c == '\U{205F}' || c == '\U{3000}'
    || c == '\n' || c == '\r' || c == '\U{2028}' || c == '\U{2029}'
  }

  ghost predicate AllWhitespace(s: string)
  {
    forall k :: 0 <= k < |s| ==> IsWhitespace(s[k])
  }

  /** Drops the leading whitespace of `s`: what is left is a suffix that starts with a non-blank. */
  function TrimStart(s: string): (r: string)
    ensures |r| <= |s| && r == s[|s| - |r|..]
    ensures AllWhitespace(s[..|s| - |r|])
    ensures r != [] ==> !IsWhitespace(r[0])
  {
    if s != [] && IsWhitespace(s[0]) then TrimStart(s[1..]) else s
  }

  /** Drops the trailing whitespace of `s`: what is left is a prefix that ends with a non-blank. */
  function TrimEnd(s: string): (r: string)
    ensures |r| <= |s| && r == s[..|r|]
    ensures AllWhitespace(s[|r|..])
    ensures r != [] ==> !IsWhitespace(r[|r| - 1])
  {
    if s != [] && IsWhitespace(s[|s| - 1]) then TrimEnd(s[..|s| - 1]) else s
  }

  /**
   * `String.prototype.trim`: the infix of `s` that neither starts nor ends with
   * whitespace and has only whitespace around it.
   */
  function Trim(s: string): (r: string)
    ensures r == "" || (!IsWhitespace(r[0]) && !IsWhitespace(r[|r| - 1]))
    ensures exists i :: 0 <= i <= |s| - |r| && s[i..i + |r|] == r
                        && AllWhitespace(s[..i]) && AllWhitespace(s[i + |r|..])
  {
    var t := TrimStart(s);
    var r := TrimEnd(t);
    TrimIsInfix(s, t, r);
    r
  }

  /** The trimmed string sits at the end of the leading blanks, followed by the trailing ones. */
  lemma TrimIsInfix(s: string, t: string, r: string)
    requires |t| <= |s| && t == s[|s| - |t|..] && AllWhitespace(s[..|s| - |t|])
    requires |r| <= |t| && r == t[..|r|] && AllWhitespace(t[|r|..])
    requires t != [] ==> !IsWhitespace(t[0])
    ensures r != [] ==> !IsWhitespace(r[0])
    ensures exists i :: 0 <= i <= |s| - |r| && s[i..i + |r|] == r
                        && AllWhitespace(s[..i]) && AllWhitespace(s[i + |r|..])
  {
    var i := |s| - |t|;
    assert s[i..i + |r|] == r by {
      forall k | 0 <= k < |r| ensures s[i..i + |r|][k] == r[k] {
        assert r[k] == t[k] == s[i + k];
      }
    }
    assert s[i + |r|..] == t[|r|..] by {
      forall k | 0 <= k < |t| - |r| ensures s[i + |r|..][k] == t[|r|..][k] {
        assert t[|r| + k] == s[i + |r| + k];
      }
    }
    assert 0 <= i <= |s| - |r| && s[i..i + |r|] == r
           && AllWhitespace(s[..i]) && AllWhitespace(s[i + |r|..]);
  }

  /** JavaScript's `x || ''` on a nullable string. */
  function OrEmpty(x: Option<string>): (r: string)
    ensures TruthyString(x) ==> r == x.value
    ensures !TruthyString(x) ==> r == ""
  {
    if x.Some? then x.value else ""
  }

  /** A string made of whitespace alone trims to the empty string. */
  lemma TrimAllWhitespace(s: string)
    requires AllWhitespace(s)
    ensures Trim(s) == ""
  {
  }

  /** A string without whitespace at either end is its own trim. */
  lemma TrimOfTrimmed(s: string)
    requires s == "" || (!IsWhitespace(s[0]) && !IsWhitespace(s[|s| - 1]))
    ensures Trim(s) == s
  {
  }
}
