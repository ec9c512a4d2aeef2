/**
 * What the CSS scanner does with each form of text: strings, comments, urls, parentheses, cutting
 * semicolons and everything else. The laws for the start of a text determine what
 * `stripComments` and the cutting loop of `importantify` do with every text.
 */
module CssLaws {
  import opened JsText
  import opened CssLexer
  import opened CssImportant

  /** The inside of a string with this quote: a backslash takes the next character with it, and
      the quote does not occur otherwise. */
  ghost predicate InString(q: char, body: string) {
    body == ""
    || (body[0] == '\\' && |body| >= 2 && InString(q, body[2..]))
    || (body[0] != '\\' && body[0] != q && InString(q, body[1..]))
  }

  /** The inside of an unquoted url: the same with `)`. */
  ghost predicate InUrl(body: string) {
    InString(')', body)
  }

  ghost predicate NoPair(body: string) {
    forall i :: 0 <= i < |body| - 1 ==> !(body[i] == '*' && body[i + 1] == '/')
  }

  /** The four characters of `url(`, in either case. */
  predicate IsUrlHead(s: string) {
    |s| == 4 && s[0] in "uU" && s[1] in "rR" && s[2] in "lL" && s[3] == '('
  }

  /** The text starts with an unquoted url: after the parenthesis and white space comes no quote. */
  ghost predicate AtUrl(s: string) {
    |s| >= 4 && IsUrlHead(s[..4]) && forall a :: FirstSolid(s[4..], a) ==> !IsQuoteMark(s[4..][a])
  }

  /** At `a` stands the first character that is no white space. */
  ghost predicate FirstSolid(u: string, a: int) {
    0 <= a < |u| && AllSpace(u[..a]) && !IsSpace(u[a])
  }

  predicate IsQuoteMark(c: char) {
    c == '\'' || c == '"'
  }

  predicate WordChar(c: char) {
    'a' <= c <= 'z' || 'A' <= c <= 'Z' || '0' <= c <= '9' || c in {'_', '-'}
  }

  // ------------------------------------------------------------------------------- urls, comments

  lemma {:induction false} BodyLenIs(body: string, rest: string)
    requires InUrl(body)
    ensures BodyLen(body + (")" + rest)) == |body| + 1
    ensures BodyLen(body) == |body|
  {
    if body != "" {
      var k := if body[0] == '\\' then 2 else 1;
      BodyLenIs(body[k..], rest);
      assert (body + (")" + rest))[k..] == body[k..] + (")" + rest);
    }
  }

  lemma {:induction false} TrimStartIs(blanks: string, s: string)
    requires AllSpace(blanks) && (s != "" ==> !IsSpace(s[0]))
    ensures TrimStart(blanks + s) == s
  {
    if blanks == "" {
      assert blanks + s == s;
    } else {
      assert (blanks + s)[1..] == blanks[1..] + s;
      TrimStartIs(blanks[1..], s);
    }
  }

  /** What follows `url(` and white space. */
  ghost predicate IsUrlText(head: string, blanks: string, body: string) {
    && IsUrlHead(head) && AllSpace(blanks) && InUrl(body)
    && (body != "" ==> !IsSpace(body[0]) && body[0] != '\'' && body[0] != '"')
  }

  lemma UrlIs(head: string, blanks: string, body: string, rest: string)
    requires IsUrlText(head, blanks, body)
    ensures UrlLen(false, head + (blanks + (body + (")" + rest)))) == 4 + |blanks| + |body| + 1
    ensures UrlLen(false, head + (blanks + body)) == 4 + |blanks| + |body|
  {
    var tail := body + (")" + rest);
    TrimStartIs(blanks, tail);
    TrimStartIs(blanks, body);
    BodyLenIs(body, rest);
    assert (head + (blanks + tail))[4..] == blanks + tail && (head + (blanks + body))[4..] == blanks + body;
  }

  lemma {:induction false} FindCloseIs(body: string, rest: string)
    requires NoPair(body)
    ensures FindClose(body + ("*/" + rest)) == |body|
  {
    var s := body + ("*/" + rest);
    if body != "" {
      assert s[1..] == body[1..] + ("*/" + rest);
      FindCloseIs(body[1..], rest);
      assert !(s[0] == '*' && s[1] == '/');
    }
  }

  lemma {:induction false} FindCloseNone(body: string)
    requires NoPair(body)
    ensures FindClose(body) == |body|
  {
    if body != "" { FindCloseNone(body[1..]); }
  }

  lemma FirstSolidIs(u: string, a: int)
    ensures FirstSolid(u, a) <==> TrimStart(u) != "" && a == |u| - |TrimStart(u)|
  {
    TrimStartMeaning(u);
    var n := |u| - |TrimStart(u)|;
    if 0 <= a < n { assert IsSpace(u[a]); }
    if n < a < |u| { assert u[..a][n] == u[n] == TrimStart(u)[0]; }
    if a == n < |u| { assert u[n] == TrimStart(u)[0]; }
  }

  lemma AtUrlIs(s: string)
    ensures AtUrl(s) <==> UrlLen(false, s) > 0
  {
    if |s| >= 4 && IsUrlHead(s[..4]) {
      var u := s[4..];
      var n := |u| - |TrimStart(u)|;
      TrimStartMeaning(u);
      FirstSolidIs(u, n);
      forall a | FirstSolid(u, a) ensures a == n {
        FirstSolidIs(u, a);
      }
    }
  }

  // ------------------------------------------------------------------------------------ stripping

  lemma StripsToken(m: Mode, s: string, x: string, rest: string, m': Mode)
    requires s == x + rest && x != "" && !(m.Plain? && StartsComment(s)) && Next(m, s) == (|x|, m')
    ensures Strip(m, s) == x + Strip(m', rest)
  {
    assert s[..|x|] == x && s[|x|..] == rest;
  }

  lemma {:induction false} StripInside(q: char, body: string, rest: string)
    requires IsQuote(q) && InString(q, body)
    ensures Strip(Quoted(q), body + ([q] + rest)) == body + ([q] + Strip(Plain(false), rest))
    ensures Strip(Quoted(q), body) == body
  {
    if body == "" {
      assert body + ([q] + rest) == [q] + rest;
      StripsToken(Quoted(q), [q] + rest, [q], rest, Plain(false));
    } else {
      var x, more := FirstOf(q, body, [q] + rest);
      StripInside(q, more, rest);
      StripsToken(Quoted(q), body + ([q] + rest), x, more + ([q] + rest), Quoted(q));
      StripsToken(Quoted(q), body, x, more, Quoted(q));
      Assoc(x, more, [q] + Strip(Plain(false), rest));
    }
  }

  /** The first character of the inside of a string, with the next one after a backslash. */
  lemma FirstOf(q: char, body: string, after: string) returns (x: string, more: string)
    requires InString(q, body) && body != ""
    ensures x != "" && body == x + more && InString(q, more) && body + after == x + (more + after)
    ensures Next(Quoted(q), body + after) == (|x|, Quoted(q)) && Next(Quoted(q), body) == (|x|, Quoted(q))
  {
    var k := if body[0] == '\\' then 2 else 1;
    x, more := body[..k], body[k..];
  }

  /** A string is kept as it is, comments and escaped quotes in it included; so is one that is
      never closed. */
  lemma StripString(w: bool, q: char, body: string, rest: string)
    requires (q == '\'' || q == '"') && InString(q, body)
    ensures Strip(Plain(w), [q] + (body + ([q] + rest))) == [q] + (body + ([q] + Strip(Plain(false), rest)))
    ensures Strip(Plain(w), [q] + body) == [q] + body
  {
    StripInside(q, body, rest);
    StripsToken(Plain(w), [q] + (body + ([q] + rest)), [q], body + ([q] + rest), Quoted(q));
    StripsToken(Plain(w), [q] + body, [q], body, Quoted(q));
  }

  /** A comment becomes one space; so does one that is never closed. */
  lemma StripComment(w: bool, body: string, rest: string, closed: string, open: string)
    requires NoPair(body) && closed == "/*" + (body + ("*/" + rest)) && open == "/*" + body
    ensures Strip(Plain(w), closed) == " " + Strip(Plain(false), rest)
    ensures Strip(Plain(w), open) == " "
  {
    FindCloseIs(body, rest);
    FindCloseNone(body);
    assert closed[2..] == body + ("*/" + rest) && open[2..] == body;
    CommentToken(w, closed, rest);
    CommentToken(w, open, "");
  }

  lemma CommentToken(w: bool, s: string, rest: string)
    requires StartsComment(s) && s[CommentLen(s)..] == rest
    ensures Strip(Plain(w), s) == " " + Strip(Plain(false), rest)
  {
  }

  /** An unquoted url is kept as it is; so is one that is never closed. */
  lemma StripUrl(head: string, blanks: string, body: string, rest: string)
    requires IsUrlText(head, blanks, body)
    ensures Strip(Plain(false), head + (blanks + (body + (")" + rest))))
            == head + (blanks + (body + (")" + Strip(Plain(false), rest))))
    ensures Strip(Plain(false), head + (blanks + body)) == head + (blanks + body)
  {
    UrlIs(head, blanks, body, rest);
    var closed, open := head + (blanks + (body + (")" + rest))), head + (blanks + body);
    Regrouped(head, blanks, body, ")", rest);
    Regrouped(head, blanks, body, ")", Strip(Plain(false), rest));
    assert open == open + "";
    StripsToken(Plain(false), closed, head + (blanks + (body + ")")), rest, Plain(false));
    StripsToken(Plain(false), open, open, "", Plain(false));
  }

  lemma Regrouped(a: string, b: string, c: string, d: string, e: string)
    ensures a + (b + (c + d)) + e == a + (b + (c + (d + e)))
  {
  }

  /** Any other character is kept. */
  lemma StripChar(w: bool, s: string)
    requires s != "" && s[0] != '\'' && s[0] != '"' && !(|s| >= 2 && s[0] == '/' && s[1] == '*')
    requires w || !AtUrl(s)
    ensures Strip(Plain(w), s) == [s[0]] + Strip(Plain(WordChar(s[0])), s[1..])
  {
    AtUrlIs(s);
    assert s == [s[0]] + s[1..];
    StripsToken(Plain(w), s, [s[0]], s[1..], Plain(IsWord(s[0])));
  }

  // -------------------------------------------------------------------------------------- cutting

  /** The pieces of `x` and what follows it: those of the rest, the first one after `x`. */
  ghost predicate Glued(all: seq<string>, x: string, ds: seq<string>) {
    ds != [] && all == [x + ds[0]] + ds[1..]
  }

  lemma GluedTwice(all: seq<string>, x: string, ds: seq<string>, y: string, more: seq<string>)
    requires Glued(all, x, ds) && Glued(ds, y, more)
    ensures Glued(all, x + y, more)
  {
    assert x + (y + more[0]) == x + y + more[0];
  }

  lemma SplitsToken(m: Mode, depth: nat, s: string, x: string, rest: string, m': Mode)
    requires s == x + rest && x != "" && !SplitsHere(m, depth, s) && Next(m, s) == (|x|, m')
    ensures Glued(Splits(m, depth, s), x, Splits(m', DepthAfter(m, s[0], depth), rest))
  {
    assert s[..|x|] == x && s[|x|..] == rest;
  }

  lemma {:induction false} SplitsInside(q: char, depth: nat, body: string, rest: string)
    requires IsQuote(q) && InString(q, body)
    ensures Glued(Splits(Quoted(q), depth, body + ([q] + rest)), body + [q], Splits(Plain(false), depth, rest))
    ensures Splits(Quoted(q), depth, body) == [body]
  {
    var s := body + ([q] + rest);
    if body == "" {
      assert s == [q] + rest && "" + [q] == [q];
      SplitsToken(Quoted(q), depth, s, [q], rest, Plain(false));
    } else {
      var x, more := FirstOf(q, body, [q] + rest);
      SplitsInside(q, depth, more, rest);
      SplitsToken(Quoted(q), depth, s, x, more + ([q] + rest), Quoted(q));
      SplitsToken(Quoted(q), depth, body, x, more, Quoted(q));
      GluedTwice(Splits(Quoted(q), depth, s), x, Splits(Quoted(q), depth, more + ([q] + rest)), more + [q],
                 Splits(Plain(false), depth, rest));
      Assoc(x, more, [q]);
    }
  }

  /** Nothing is cut inside a string. */
  lemma SplitsString(w: bool, depth: nat, q: char, body: string, rest: string)
    requires (q == '\'' || q == '"') && InString(q, body)
    ensures Glued(Splits(Plain(w), depth, [q] + (body + ([q] + rest))), [q] + (body + [q]),
                  Splits(Plain(false), depth, rest))
    ensures Splits(Plain(w), depth, [q] + body) == [[q] + body]
  {
    SplitsInside(q, depth, body, rest);
    SplitsToken(Plain(w), depth, [q] + (body + ([q] + rest)), [q], body + ([q] + rest), Quoted(q));
    SplitsToken(Plain(w), depth, [q] + body, [q], body, Quoted(q));
    GluedTwice(Splits(Plain(w), depth, [q] + (body + ([q] + rest))), [q],
               Splits(Quoted(q), depth, body + ([q] + rest)), body + [q], Splits(Plain(false), depth, rest));
  }

  /** Nor inside an unquoted url, whose parentheses do not count. */
  lemma SplitsUrl(depth: nat, head: string, blanks: string, body: string, rest: string)
    requires IsUrlText(head, blanks, body)
    ensures Glued(Splits(Plain(false), depth, head + (blanks + (body + (")" + rest)))),
                  head + (blanks + (body + ")")), Splits(Plain(false), depth, rest))
    ensures Splits(Plain(false), depth, head + (blanks + body)) == [head + (blanks + body)]
  {
    UrlIs(head, blanks, body, rest);
    Regrouped(head, blanks, body, ")", rest);
    SplitsUrlToken(depth, head + (blanks + (body + (")" + rest))), head + (blanks + (body + ")")), rest);
    SplitsOpenUrl(depth, head + (blanks + body));
  }

  lemma SplitsUrlToken(depth: nat, s: string, url: string, rest: string)
    requires s == url + rest && UrlLen(false, s) == |url|
    requires url != "" && (url[0] == 'u' || url[0] == 'U')
    ensures Glued(Splits(Plain(false), depth, s), url, Splits(Plain(false), depth, rest))
  {
    SplitsToken(Plain(false), depth, s, url, rest, Plain(false));
  }

  lemma SplitsOpenUrl(depth: nat, s: string)
    requires UrlLen(false, s) == |s| && s != "" && (s[0] == 'u' || s[0] == 'U')
    ensures Splits(Plain(false), depth, s) == [s]
  {
    assert s == s + "";
    SplitsUrlToken(depth, s, s, "");
  }

  /** A semicolon outside of all parentheses ends a piece. */
  lemma SplitsSemicolon(w: bool, rest: string)
    ensures Splits(Plain(w), 0, ";" + rest) == [""] + Splits(Plain(false), 0, rest)
  {
    assert (";" + rest)[1..] == rest;
  }

  /** Any other character does not; parentheses change the depth, which is never negative. */
  lemma SplitsChar(w: bool, depth: nat, s: string)
    requires s != "" && s[0] != '\'' && s[0] != '"' && (w || !AtUrl(s)) && !(s[0] == ';' && depth == 0)
    ensures var inner := if s[0] == '(' then depth + 1 else if s[0] == ')' && depth > 0 then depth - 1 else depth;
            Glued(Splits(Plain(w), depth, s), [s[0]], Splits(Plain(WordChar(s[0])), inner, s[1..]))
  {
    AtUrlIs(s);
    assert s == [s[0]] + s[1..];
    SplitsToken(Plain(w), depth, s, [s[0]], s[1..], Plain(IsWord(s[0])));
  }

  // ---------------------------------------------------------------------------------------- flags

  /** The character is this small letter or its capital. */
  predicate IsLetter(c: char, small: char) {
    c == small || c as int == small as int - 32
  }

  /** A bang, white space, and the nine letters of `important` in either case. */
  ghost predicate HasFlag(d: string) {
    |d| >= 10 && HasBang(d[..|d| - 9]) && IsWordImportant(d[|d| - 9..])
  }

  ghost predicate HasBang(s: string) {
    exists k :: BangAt(s, k)
  }

  predicate IsWordImportant(t: string) {
    SameLetters(t, "important")
  }

  predicate SameLetters(t: string, small: string) {
    |t| == |small| && forall i :: 0 <= i < |t| ==> IsLetter(t[i], small[i])
  }

  lemma LettersAre(t: string, small: string)
    requires |t| == |small| && forall i :: 0 <= i < |small| ==> 'a' <= small[i] <= 'z'
    ensures LowerAll(t) == small <==> SameLetters(t, small)
  {
    forall i | 0 <= i < |t| ensures Lower(t[i]) == small[i] <==> IsLetter(t[i], small[i]) {
      LetterIs(t[i], small[i]);
    }
    var lowered := LowerAll(t);
    if SameLetters(t, small) {
      assert lowered == small;
    } else {
      var i :| 0 <= i < |t| && !IsLetter(t[i], small[i]);
      assert lowered[i] != small[i];
    }
  }

  lemma LetterIs(c: char, small: char)
    requires 'a' <= small <= 'z'
    ensures Lower(c) == small <==> IsLetter(c, small)
  {
  }

  lemma FlagIs(t: string)
    ensures IsFlag(t) <==> IsWordImportant(t)
  {
    if |t| == 9 { LettersAre(t, FLAG); }
  }

  lemma BangBefore(s: string, k: nat)
    requires k < |s|
    ensures BangAt(s, k) <==> EndsWithBang(s) && k == |TrimEnd(s)| - 1
  {
    TrimEndMeaning(s);
    var t := TrimEnd(s);
    if k >= |t| { assert IsSpace(s[k]); }
    if k < |t| - 1 { assert s[k + 1..][|t| - 2 - k] == s[|t| - 1] == t[|t| - 1]; }
    if k == |t| - 1 { assert s[k] == t[k]; }
  }

  ghost predicate BangAt(s: string, k: int) {
    0 <= k < |s| && s[k] == '!' && AllSpace(s[k + 1..])
  }

  /** A declaration is flagged exactly when it ends in a bang, white space and `important`. */
  lemma FlagExactly(d: string)
    ensures EndsImportant(d) <==> HasFlag(d)
  {
    if |d| >= 10 {
      var front := d[..|d| - 9];
      FlagIs(d[|d| - 9..]);
      forall k: nat | k < |front| ensures BangAt(front, k) <==> EndsWithBang(front) && k == |TrimEnd(front)| - 1 {
        BangBefore(front, k);
      }
      TrimEndMeaning(front);
      if EndsWithBang(front) { assert BangAt(front, |TrimEnd(front)| - 1); }
    }
  }

  /** Each piece is trimmed; empty ones are dropped; the others get the flag unless they have it. */
  lemma WrittenExactly(ds: seq<string>, d: string)
    ensures BangAll(Kept(ds + [d]))
            == BangAll(Kept(ds))
               + if Trim(d) == "" then [] else if HasFlag(Trim(d)) then [Trim(d)] else [Trim(d) + " !important"]
    ensures BangAll(Kept([])) == []
  {
    KeptSnoc(ds, d);
    FlagExactly(Trim(d));
    assert BANG == " !important";
  }

  lemma {:induction false} KeptSnoc(ds: seq<string>, d: string)
    ensures Kept(ds + [d]) == Kept(ds) + if Trim(d) == "" then [] else [Trim(d)]
  {
    if ds == [] {
      assert [] + [d] == [d] && [d][1..] == [];
    } else {
      KeptSnoc(ds[1..], d);
      assert (ds + [d])[0] == ds[0] && (ds + [d])[1..] == ds[1..] + [d];
    }
  }
}
