/** The ECMAScript white-space class: what `\s` matches and `trim` removes. */
module JsText {
  predicate IsSpace(c: char) {
    || '\U{0009}' <= c <= '\U{000D}'
    || c == ' '
    || c == '\U{00A0}'
    || c == '\U{1680}'
    || '\U{2000}' <= c <= '\U{200A}'
    || c == '\U{2028}'
    || c == '\U{2029}'
    || c == '\U{202F}'
    || c == '\U{205F}'
    || c == '\U{3000}'
    || c == '\U{FEFF}'
  }

  ghost predicate AllSpace(s: string) {
    forall i :: 0 <= i < |s| ==> IsSpace(s[i])
  }

  predicate IsQuote(c: char) {
    c == '\'' || c == '"'
  }

  function TrimStart(s: string): (t: string)
    ensures |t| <= |s|
  {
    if s != "" && IsSpace(s[0]) then TrimStart(s[1..]) else s
  }

  function TrimEnd(s: string): (t: string)
    ensures |t| <= |s|
  {
    if s != "" && IsSpace(s[|s| - 1]) then TrimEnd(s[..|s| - 1]) else s
  }

  function Trim(s: string): (t: string)
    ensures |t| <= |s|
  {
    TrimEnd(TrimStart(s))
  }

  /** Exactly the leading white space is cut off. */
  lemma {:induction false} TrimStartMeaning(s: string)
    ensures var t := TrimStart(s);
            && t == s[|s| - |t|..]
            && (t != "" ==> !IsSpace(t[0]))
            && forall i :: 0 <= i < |s| - |t| ==> IsSpace(s[i])
  {
    if s != "" && IsSpace(s[0]) {
      TrimStartMeaning(s[1..]);
      var t := TrimStart(s);
      assert s[1..][|s| - 1 - |t|..] == s[|s| - |t|..];
      forall i | 0 <= i < |s| - |t| ensures IsSpace(s[i]) {
        if i > 0 { assert s[i] == s[1..][i - 1]; }
      }
    }
  }

  /** Exactly the trailing white space is cut off. */
  lemma {:induction false} TrimEndMeaning(s: string)
    ensures var t := TrimEnd(s);
            && t == s[..|t|]
            && (t != "" ==> !IsSpace(t[|t| - 1]))
            && forall i :: |t| <= i < |s| ==> IsSpace(s[i])
  {
    if s != "" && IsSpace(s[|s| - 1]) {
      var u := s[..|s| - 1];
      TrimEndMeaning(u);
      var t := TrimEnd(s);
      assert u[..|t|] == s[..|t|];
      forall i | |t| <= i < |s| ensures IsSpace(s[i]) {
        if i < |s| - 1 { assert s[i] == u[i]; }
      }
    }
  }

  lemma TrimEnds(s: string)
    ensures var t := Trim(s); t != "" ==> !IsSpace(t[0]) && !IsSpace(t[|t| - 1])
  {
    TrimStartMeaning(s);
    TrimEndMeaning(TrimStart(s));
  }

  /** A text that neither starts nor ends with white space is its own trimmed form. */
  lemma TrimFixed(s: string)
    requires s == "" || (!IsSpace(s[0]) && !IsSpace(s[|s| - 1]))
    ensures Trim(s) == s
  {
  }

  /** Text appended after a non-blank prefix is not touched by trimming at the start. */
  lemma {:induction false} TrimStartAppend(s: string, u: string)
    requires TrimStart(s) != ""
    ensures TrimStart(s + u) == TrimStart(s) + u
  {
    if s != "" && IsSpace(s[0]) {
      assert (s + u)[1..] == s[1..] + u;
      TrimStartAppend(s[1..], u);
    }
  }

  lemma {:induction false} TrimStartBlank(s: string, u: string)
    requires TrimStart(s) == ""
    ensures TrimStart(s + u) == TrimStart(u)
  {
    if s == "" {
      assert s + u == u;
    } else {
      assert (s + u)[0] == s[0] && (s + u)[1..] == s[1..] + u;
      TrimStartBlank(s[1..], u);
    }
  }
}
