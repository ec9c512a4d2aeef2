/**
 * The lexical layer under the CSS scanner of the template runtime
 * (docs/design/support.js): quotes, unquoted `url(...)` tokens and comments.
 */
module CssLexer {
  import opened JsText

  /** Between tokens the lexer is either in plain text, remembering whether the character
      before is a word character (`url(` glued to a word is no url), or inside a string. */
  datatype Mode = Plain(word: bool) | Quoted(q: char)

  datatype Token = Comment(text: string) | Piece(text: string)

  ghost predicate ModeOk(m: Mode) {
    m.Quoted? ==> IsQuote(m.q)
  }

  predicate IsWord(c: char) {
    'a' <= c <= 'z' || 'A' <= c <= 'Z' || '0' <= c <= '9' || c == '_' || c == '-'
  }

  predicate StartsUrl(s: string) {
    && |s| >= 4
    && (s[0] == 'u' || s[0] == 'U') && (s[1] == 'r' || s[1] == 'R') && (s[2] == 'l' || s[2] == 'L')
    && s[3] == '('
  }

  predicate StartsComment(s: string) {
    |s| >= 2 && s[0] == '/' && s[1] == '*'
  }

  /** Length of the url body up to and including its unescaped `)`, or of all of `s`. */
  function BodyLen(s: string): (n: nat)
    ensures n <= |s| && (s != "" ==> n > 0)
  {
    if s == "" then 0
    else if s[0] == ')' then 1
    else if s[0] == '\\' then (if |s| == 1 then 1 else 2 + BodyLen(s[2..]))
    else 1 + BodyLen(s[1..])
  }

  predicate BodyClosed(s: string) {
    s != "" &&
    if s[0] == ')' then true
    else if s[0] == '\\' then |s| > 1 && BodyClosed(s[2..])
    else BodyClosed(s[1..])
  }

  /** The unquoted url token at the start of `s`: its length, or 0 when there is none. */
  function UrlLen(word: bool, s: string): (n: nat)
    ensures n <= |s| && (n > 0 ==> n >= 4)
  {
    if word || !StartsUrl(s) then 0
    else
      var t := TrimStart(s[4..]);
      if t != "" && IsQuote(t[0]) then 0 else |s| - |t| + BodyLen(t)
  }

  predicate UrlClosed(s: string)
    requires StartsUrl(s)
  {
    BodyClosed(TrimStart(s[4..]))
  }

  /** The token at the start of comment-free text: its length and the mode after it. */
  function Next(m: Mode, s: string): (r: (nat, Mode))
    requires s != ""
    ensures 0 < r.0 <= |s|
    ensures ModeOk(m) ==> ModeOk(r.1)
  {
    match m
    case Quoted(q) =>
      if s[0] == '\\' then (if |s| == 1 then 1 else 2, m)
      else (1, if s[0] == q then Plain(false) else m)
    case Plain(w) =>
      if IsQuote(s[0]) then (1, Quoted(s[0]))
      else if UrlLen(w, s) > 0 then (UrlLen(w, s), Plain(false))
      else (1, Plain(IsWord(s[0])))
  }

  /** Offset of the first `*` `/` pair, or the length of the text. */
  function FindClose(s: string): (k: nat)
    ensures k <= |s|
    ensures k < |s| ==> k + 1 < |s| && s[k] == '*' && s[k + 1] == '/'
    ensures forall j :: 0 <= j < k && j + 1 < |s| ==> !(s[j] == '*' && s[j + 1] == '/')
  {
    if s == "" then 0
    else if |s| >= 2 && s[0] == '*' && s[1] == '/' then 0
    else 1 + FindClose(s[1..])
  }

  /** `css.indexOf("*" "/", from)`: -1 when there is no such pair. */
  function IndexOfClose(css: string, from: nat): (end: int)
    requires from <= |css|
    ensures end == -1 || from <= end < |css| - 1
  {
    var k := FindClose(css[from..]);
    if from + k == |css| then -1 else from + k
  }

  /** Length of the comment at the start of `s`; an unclosed one takes all of `s`. */
  function CommentLen(s: string): (n: nat)
    requires StartsComment(s)
    ensures 2 <= n <= |s|
  {
    var k := 2 + FindClose(s[2..]);
    if k == |s| then k else k + 2
  }

  function Step(m: Mode, s: string): (r: (Token, Mode))
    requires s != ""
    ensures 0 < |r.0.text| <= |s| && r.0.text == s[..|r.0.text|]
    ensures ModeOk(m) ==> ModeOk(r.1)
  {
    if m.Plain? && StartsComment(s) then (Comment(s[..CommentLen(s)]), Plain(false))
    else
      var (n, m') := Next(m, s);
      (Piece(s[..n]), m')
  }

  function Lex(m: Mode, s: string): seq<Token>
    decreases |s|
  {
    if s == "" then []
    else
      var (t, m') := Step(m, s);
      [t] + Lex(m', s[|t.text|..])
  }

  function Text(ts: seq<Token>): string {
    if ts == [] then "" else ts[0].text + Text(ts[1..])
  }

  function Blank(t: Token): Token {
    if t.Comment? then Piece(" ") else t
  }

  function Blanked(ts: seq<Token>): (r: seq<Token>)
    ensures |r| == |ts|
    ensures forall i :: 0 <= i < |ts| ==> r[i] == Blank(ts[i])
  {
    if ts == [] then [] else [Blank(ts[0])] + Blanked(ts[1..])
  }

  /** The text with every comment token replaced by one space. */
  function Strip(m: Mode, s: string): string
    decreases |s|
  {
    if s == "" then ""
    else
      var (t, m') := Step(m, s);
      Blank(t).text + Strip(m', s[|t.text|..])
  }

  /** Whether the character before index `i` is a word character. */
  predicate WordBefore(css: string, i: int)
    requires 0 <= i <= |css|
  {
    i > 0 && IsWord(css[i - 1])
  }

  // The token at an index of the text, branch by branch as the loops test for it.

  lemma NextEscape(m: Mode, css: string, i: nat)
    requires i < |css| && m.Quoted? && css[i] == '\\'
    ensures Next(m, css[i..]) == (if i + 1 < |css| then 2 else 1, m)
    ensures Step(m, css[i..]) == (Piece([css[i]] + if i + 1 < |css| then [css[i + 1]] else ""), m)
  {
    if i + 1 < |css| {
      assert css[i..][..2] == [css[i]] + [css[i + 1]];
    } else {
      assert css[i..][..1] == [css[i]] + "";
    }
  }

  lemma NextQuoted(m: Mode, css: string, i: nat)
    requires i < |css| && m.Quoted? && css[i] != '\\'
    ensures var m' := if css[i] == m.q then Plain(false) else m;
            Next(m, css[i..]) == (1, m') && Step(m, css[i..]) == (Piece([css[i]]), m')
  {
    assert css[i..][..1] == [css[i]];
  }

  lemma NextQuote(m: Mode, css: string, i: nat)
    requires i < |css| && m.Plain? && IsQuote(css[i])
    ensures Next(m, css[i..]) == (1, Quoted(css[i])) && Step(m, css[i..]) == (Piece([css[i]]), Quoted(css[i]))
  {
    assert css[i..][..1] == [css[i]];
  }

  lemma NextComment(m: Mode, css: string, i: nat)
    requires i + 1 < |css| && m.Plain? && css[i] == '/' && css[i + 1] == '*'
    ensures var (t, m') := Step(m, css[i..]);
            && t.Comment? && m' == Plain(false)
            && var end := IndexOfClose(css, i + 2);
               i + |t.text| == (if end == -1 then |css| else end + 2)
               && (i + |t.text| < |css| ==> !WordBefore(css, i + |t.text|))
  {
    assert css[i..][2..] == css[i + 2..];
    var end := i + 2 + FindClose(css[i + 2..]);
    if end < |css| { assert css[i + 2..][end - i - 2 + 1] == css[end + 1]; }
  }

  lemma NextUrl(m: Mode, css: string, i: nat)
    requires i < |css| && m.Plain? && UrlLen(m.word, css[i..]) > 0
    ensures var end := i + UrlLen(m.word, css[i..]);
            && Next(m, css[i..]) == (end - i, Plain(false)) && Step(m, css[i..]) == (Piece(css[i..end]), Plain(false))
            && (end < |css| ==> !WordBefore(css, end))
  {
    UrlEnd(m.word, css[i..]);
    var n := UrlLen(m.word, css[i..]);
    assert css[i..][..n] == css[i..i + n];
    assert css[i..][n - 1] == css[i + n - 1];
  }

  lemma NextChar(m: Mode, css: string, i: nat)
    requires i < |css| && m.Plain? && !IsQuote(css[i]) && UrlLen(m.word, css[i..]) == 0
    ensures Next(m, css[i..]) == (1, Plain(IsWord(css[i])))
    ensures !(i + 1 < |css| && css[i] == '/' && css[i + 1] == '*') ==>
            Step(m, css[i..]) == (Piece([css[i]]), Plain(IsWord(css[i])))
  {
    assert css[i..][..1] == [css[i]];
  }

  /** A url token ends at `)` unless it runs to the end of the text. */
  lemma UrlEnd(w: bool, s: string)
    requires UrlLen(w, s) > 0
    ensures UrlClosed(s) ==> s[UrlLen(w, s) - 1] == ')'
    ensures !UrlClosed(s) ==> UrlLen(w, s) == |s|
  {
    var t := TrimStart(s[4..]);
    TrimStartMeaning(s[4..]);
    if UrlClosed(s) { BodyClosedEnd(t); } else { BodyOpenTakesAll(t); }
  }

  lemma {:induction false} BodyClosedEnd(s: string)
    requires BodyClosed(s)
    ensures s[BodyLen(s) - 1] == ')'
  {
    if s[0] == ')' {
    } else if s[0] == '\\' {
      BodyClosedEnd(s[2..]);
    } else {
      BodyClosedEnd(s[1..]);
    }
  }

  // ------------------------------------------------------------------ the lexer loses nothing

  lemma {:induction false} LexLossless(m: Mode, s: string)
    ensures Text(Lex(m, s)) == s
    decreases |s|
  {
    if s != "" {
      var (t, m') := Step(m, s);
      LexLossless(m', s[|t.text|..]);
      assert Lex(m, s)[1..] == Lex(m', s[|t.text|..]);
    }
  }

  /** What `stripComments` means: lex, replace each comment by a space, write the tokens. */
  lemma {:induction false} StripMeaning(m: Mode, s: string)
    ensures Strip(m, s) == Text(Blanked(Lex(m, s)))
    decreases |s|
  {
    if s != "" {
      var (t, m') := Step(m, s);
      StripMeaning(m', s[|t.text|..]);
      BlankedCons(t, Lex(m', s[|t.text|..]));
    }
  }

  lemma Assoc(a: string, b: string, c: string)
    ensures (a + b) + c == a + (b + c)
  {
  }

  lemma StripHead(m: Mode, s: string)
    requires s != ""
    ensures Strip(m, s) != ""
    ensures Strip(m, s)[0] == if m.Plain? && StartsComment(s) then ' ' else s[0]
  {
  }

  /** A character that opens nothing is a token of its own. */
  lemma StripPlain(w: bool, s: string)
    requires s != "" && !IsQuote(s[0]) && s[0] != '/' && s[0] != 'u' && s[0] != 'U'
    ensures Strip(Plain(w), s) == [s[0]] + Strip(Plain(IsWord(s[0])), s[1..])
  {
    assert s[..1] == [s[0]];
    assert Step(Plain(w), s) == (Piece([s[0]]), Plain(IsWord(s[0])));
  }

  // --------------------------------------------------------------------- locality of one token

  lemma {:induction false} BodyClosedLocal(s: string, u: string)
    requires BodyClosed(s)
    ensures BodyClosed(s + u) && BodyLen(s + u) == BodyLen(s)
  {
    if s[0] == ')' {
    } else if s[0] == '\\' {
      assert (s + u)[2..] == s[2..] + u;
      BodyClosedLocal(s[2..], u);
    } else {
      assert (s + u)[1..] == s[1..] + u;
      BodyClosedLocal(s[1..], u);
    }
  }

  /** A closed url is decided by its own characters. */
  lemma {:induction false} BodyClosedPrefix(s: string, u: string)
    requires BodyClosed(s)
    ensures BodyClosed(s[..BodyLen(s)] + u) && BodyLen(s[..BodyLen(s)] + u) == BodyLen(s)
  {
    var n := BodyLen(s);
    var v := s[..n] + u;
    if s[0] == ')' {
    } else if s[0] == '\\' {
      BodyClosedPrefix(s[2..], u);
      assert v[2..] == s[2..][..n - 2] + u;
    } else {
      BodyClosedPrefix(s[1..], u);
      assert v[1..] == s[1..][..n - 1] + u;
    }
  }

  lemma {:induction false} BodyOpenTakesAll(s: string)
    requires !BodyClosed(s)
    ensures BodyLen(s) == |s|
  {
    if s == "" {
    } else if s[0] == '\\' {
      if |s| > 1 { BodyOpenTakesAll(s[2..]); }
    } else {
      BodyOpenTakesAll(s[1..]);
    }
  }

  /** A url token that was closed is found again whatever follows it. */
  lemma UrlLocal(s: string, u: string)
    requires UrlLen(false, s) > 0 && UrlClosed(s)
    ensures var v := s[..UrlLen(false, s)] + u; StartsUrl(v) && UrlClosed(v) && UrlLen(false, v) == UrlLen(false, s)
  {
    var n := UrlLen(false, s);
    var v := s[..n] + u;
    var t := TrimStart(s[4..]);
    var k := |s| - |t|;
    var b := BodyLen(t);
    BodyClosedPrefix(t, u);
    TrimStartMeaning(s[4..]);
    TrimStartSkip(s[4..k], t[..b] + u);
    UrlParts(s, k, b, u);
    assert t == s[k..] && v == s[..k + b] + u;
    assert StartsUrl(v);
    assert TrimStart(v[4..]) == t[..b] + u;
  }

  lemma UrlParts(s: string, k: nat, b: nat, u: string)
    requires 4 <= k <= k + b <= |s|
    ensures (s[..k + b] + u)[..4] == s[..4]
    ensures (s[..k + b] + u)[4..] == s[4..k] + (s[k..][..b] + u)
  {
  }

  lemma TrimStartSkip(blank: string, t: string)
    requires forall i :: 0 <= i < |blank| ==> IsSpace(blank[i])
    requires t != "" && !IsSpace(t[0])
    ensures TrimStart(blank + t) == t
  {
    TrimStartAll(blank);
    TrimStartBlank(blank, t);
  }

  lemma {:induction false} TrimStartAll(s: string)
    requires forall i :: 0 <= i < |s| ==> IsSpace(s[i])
    ensures TrimStart(s) == ""
  {
    if s != "" { TrimStartAll(s[1..]); }
  }

  // ----------------------------------------------------- stripping does not create new tokens

  /** If the stripped text starts with an opening quote after white space, so did the text. */
  lemma {:induction false} QuoteAfterSpaceKept(w: bool, s: string)
    requires var t := TrimStart(s); t != "" && IsQuote(t[0])
    ensures var t := TrimStart(Strip(Plain(w), s)); t != "" && IsQuote(t[0])
  {
    if IsSpace(s[0]) {
      StripPlain(w, s);
      var o := Strip(Plain(w), s);
      QuoteAfterSpaceKept(IsWord(s[0]), s[1..]);
      assert o[1..] == Strip(Plain(IsWord(s[0])), s[1..]);
    } else {
      StripHead(Plain(w), s);
    }
  }

  predicate UrlLetter(c: char) {
    c == 'r' || c == 'R' || c == 'l' || c == 'L'
  }

  lemma StripLetterBack(s: string)
    requires var o := Strip(Plain(true), s); o != "" && UrlLetter(o[0])
    ensures s != "" && s[0] == Strip(Plain(true), s)[0] && Strip(Plain(true), s)[1..] == Strip(Plain(true), s[1..])
  {
    StripHead(Plain(true), s);
    StripPlain(true, s);
  }

  lemma StripParenBack(s: string)
    requires var o := Strip(Plain(true), s); o != "" && o[0] == '('
    ensures s != "" && s[0] == '(' && Strip(Plain(true), s)[1..] == Strip(Plain(false), s[1..])
  {
    StripHead(Plain(true), s);
    StripPlain(true, s);
  }

  /** `url(` in the stripped text was `url(` in the text, with the same remainder. */
  lemma StripUrlHead(s: string)
    requires s != "" && (s[0] == 'u' || s[0] == 'U')
    requires StartsUrl([s[0]] + Strip(Plain(true), s[1..]))
    ensures StartsUrl(s)
    ensures Strip(Plain(true), s[1..])[3..] == Strip(Plain(false), s[4..])
  {
    var o := Strip(Plain(true), s[1..]);
    assert ([s[0]] + o)[1..] == o;
    StripLetterBack(s[1..]);
    assert s[1..][1..] == s[2..];
    StripLetterBack(s[2..]);
    assert s[2..][1..] == s[3..];
    StripParenBack(s[3..]);
    assert s[3..][1..] == s[4..];
    assert o[1..][1..][1..] == o[3..];
  }

  lemma StripKeepsNoUrl(w: bool, s: string)
    requires s != "" && UrlLen(w, s) == 0 && !IsQuote(s[0])
    ensures UrlLen(w, [s[0]] + Strip(Plain(IsWord(s[0])), s[1..])) == 0
  {
    var o := [s[0]] + Strip(Plain(IsWord(s[0])), s[1..]);
    if !w && StartsUrl(o) { QuoteAfterUrlKept(s, o); }
  }

  /** If a quote follows `url(` and white space, it still does after stripping. */
  lemma QuoteAfterUrlKept(s: string, o: string)
    requires s != "" && UrlLen(false, s) == 0 && (s[0] == 'u' || s[0] == 'U')
    requires o == [s[0]] + Strip(Plain(true), s[1..]) && StartsUrl(o)
    ensures UrlLen(false, o) == 0
  {
    StripUrlHead(s);
    assert o[4..] == Strip(Plain(true), s[1..])[3..];
    QuoteAfterSpaceKept(false, s[4..]);
  }

  lemma StripKeepsStep(m: Mode, s: string)
    requires s != ""
    ensures var (t, m') := Step(m, s);
            Step(m, Blank(t).text + Strip(m', s[|t.text|..])) == (Blank(t), m')
  {
    var (t, m') := Step(m, s);
    var rest := Strip(m', s[|t.text|..]);
    if t.Comment? {
      assert (" " + rest)[..1] == " ";
    } else if m.Quoted? {
      StripKeepsQuoted(m, s, rest);
    } else if IsQuote(s[0]) {
      assert (s[..1] + rest)[..1] == s[..1];
    } else if UrlLen(m.word, s) > 0 {
      StripKeepsUrl(m, s, rest);
    } else {
      StripKeepsChar(m, s);
    }
  }

  lemma StripKeepsQuoted(m: Mode, s: string, rest: string)
    requires m.Quoted? && s != "" && rest == Strip(Step(m, s).1, s[|Step(m, s).0.text|..])
    ensures Step(m, Step(m, s).0.text + rest) == Step(m, s)
  {
    var n := |Step(m, s).0.text|;
    var o := s[..n] + rest;
    if s[0] == '\\' && |s| == 1 { assert s[n..] == "" && o == s; }
    assert o[..n] == s[..n];
  }

  lemma StripKeepsUrl(m: Mode, s: string, rest: string)
    requires m.Plain? && s != "" && !IsQuote(s[0]) && !StartsComment(s) && UrlLen(m.word, s) > 0
    requires rest == Strip(Plain(false), s[UrlLen(m.word, s)..])
    ensures Step(m, s[..UrlLen(m.word, s)] + rest) == (Piece(s[..UrlLen(m.word, s)]), Plain(false))
  {
    var n := UrlLen(m.word, s);
    var o := s[..n] + rest;
    if UrlClosed(s) {
      UrlLocal(s, rest);
    } else {
      BodyOpenTakesAll(TrimStart(s[4..]));
      assert s[n..] == "" && o == s;
    }
    assert o[..n] == s[..n];
  }

  lemma StripKeepsChar(m: Mode, s: string)
    requires m.Plain? && s != "" && !IsQuote(s[0]) && !StartsComment(s) && UrlLen(m.word, s) == 0
    ensures Step(m, s[..1] + Strip(Plain(IsWord(s[0])), s[1..])) == (Piece(s[..1]), Plain(IsWord(s[0])))
  {
    var o := s[..1] + Strip(Plain(IsWord(s[0])), s[1..]);
    assert s[..1] == [s[0]];
    StripKeepsNoUrl(m.word, s);
    if s[1..] != "" { StripHead(Plain(IsWord(s[0])), s[1..]); }
    assert !StartsComment(o) && o[..1] == s[..1];
  }

  /** Relexing the stripped text gives the old tokens, each comment replaced by one space:
      no token is split or joined, and strings and urls survive character by character. */
  lemma {:induction false} StripRelex(m: Mode, s: string)
    ensures Lex(m, Strip(m, s)) == Blanked(Lex(m, s))
    decreases |s|
  {
    if s != "" {
      var (t, m') := Step(m, s);
      var rest := s[|t.text|..];
      StripKeepsStep(m, s);
      StripRelex(m', rest);
      LexCons(m, Blank(t), m', Strip(m', rest));
      BlankedCons(t, Lex(m', rest));
    }
  }

  lemma LexCons(m: Mode, t: Token, m': Mode, o: string)
    requires t.text != "" && Step(m, t.text + o) == (t, m')
    ensures Lex(m, t.text + o) == [t] + Lex(m', o)
  {
    assert (t.text + o)[|t.text|..] == o;
  }

  lemma BlankedCons(t: Token, ts: seq<Token>)
    ensures Blanked([t] + ts) == [Blank(t)] + Blanked(ts)
  {
    assert ([t] + ts)[1..] == ts;
  }

  lemma {:induction false} BlankedTwice(ts: seq<Token>)
    ensures Blanked(Blanked(ts)) == Blanked(ts)
  {
    assert forall i :: 0 <= i < |ts| ==> Blanked(Blanked(ts))[i] == Blanked(ts)[i];
  }

  /** Stripping comments a second time changes nothing, on every text. */
  lemma StripIdempotent(m: Mode, s: string)
    ensures Strip(m, Strip(m, s)) == Strip(m, s)
  {
    StripRelex(m, s);
    BlankedTwice(Lex(m, s));
    StripMeaning(m, s);
    StripMeaning(m, Strip(m, s));
  }
}
