/**
 * `importantify` is idempotent on every text: the declarations of its output are exactly the
 * declarations it wrote, and each of them already ends in `!important`.
 */
module CssIdempotence {
  import opened JsText
  import opened CssLexer
  import opened CssImportant

  // ------------------------------------------------- text that stays inside one declaration

  /** Read from mode `m` at parenthesis depth `depth`, the text meets no comment and no cutting
      `;`. When `closed`, it also ends outside every string, url and parenthesis. */
  ghost predicate Body(m: Mode, depth: nat, s: string, closed: bool)
    decreases |s|
  {
    if s == "" then closed ==> m.Plain? && depth == 0
    else
      && !SplitsHere(m, depth, s)
      && !(m.Plain? && StartsComment(s))
      && (closed && m.Plain? && !IsQuote(s[0]) && UrlLen(m.word, s) > 0 ==> UrlClosed(s))
      && var (n, m') := Next(m, s); Body(m', DepthAfter(m, s[0], depth), s[n..], closed)
  }

  /** Lexed from mode `m`, the text meets no comment. */
  ghost predicate NoComment(m: Mode, s: string)
    decreases |s|
  {
    s == "" || (!(m.Plain? && StartsComment(s)) && var (n, m') := Next(m, s); NoComment(m', s[n..]))
  }

  lemma {:induction false} NoCommentStrip(m: Mode, s: string)
    ensures NoComment(m, s) ==> Strip(m, s) == s
    ensures NoComment(m, Strip(m, s))
    decreases |s|
  {
    if s != "" {
      var (t, m') := Step(m, s);
      var rest := s[|t.text|..];
      NoCommentStrip(m', rest);
      StripKeepsStep(m, s);
      var o := Blank(t).text + Strip(m', rest);
      assert Strip(m, s) == o && o[|Blank(t).text|..] == Strip(m', rest);
      if NoComment(m, s) { assert s == s[..|t.text|] + rest; }
    }
  }

  /** White space and `;` cannot continue a token. */
  ghost predicate Breaks(u: string) {
    u != "" && (IsSpace(u[0]) || u[0] == ';')
  }

  /** The token at the start of `x` is the same when text that breaks tokens follows, unless
      it is an escape or a url cut off by the end of `x`. */
  lemma NextLocal(m: Mode, x: string, u: string)
    requires x != "" && Breaks(u) && !(m.Quoted? && x == "\\")
    requires m.Plain? && !IsQuote(x[0]) && UrlLen(m.word, x) > 0 ==> UrlClosed(x)
    ensures Next(m, x + u) == Next(m, x) && (x + u)[Next(m, x).0..] == x[Next(m, x).0..] + u
    ensures StartsComment(x + u) == StartsComment(x)
    ensures m.Plain? && UrlLen(m.word, x) > 0 && !IsQuote(x[0]) ==> UrlClosed(x + u)
  {
    if m.Plain? && !IsQuote(x[0]) {
      UrlLocalBreak(m.word, x, u);
    }
  }

  lemma UrlLocalBreak(w: bool, x: string, u: string)
    requires x != "" && Breaks(u)
    requires UrlLen(w, x) > 0 ==> UrlClosed(x)
    ensures UrlLen(w, x + u) == UrlLen(w, x)
    ensures UrlLen(w, x) > 0 ==> UrlClosed(x + u)
  {
    assert StartsUrl(x + u) == StartsUrl(x);
    if StartsUrl(x) {
      assert (x + u)[4..] == x[4..] + u;
      var t := TrimStart(x[4..]);
      if t != "" {
        TrimStartAppend(x[4..], u);
        if BodyClosed(t) { BodyClosedLocal(t, u); }
      }
    }
  }

  /** An unclosed url at the end of the text takes whatever follows it up to a `)`. */
  lemma UrlOpenTakesAll(w: bool, x: string, u: string)
    requires UrlLen(w, x) > 0 && !UrlClosed(x)
    requires u != "" && ')' !in u && !IsQuote(TrimStartFirst(u))
    ensures UrlLen(w, x) == |x| && UrlLen(w, x + u) == |x + u| && StartsUrl(x + u) && !UrlClosed(x + u)
  {
    var t := TrimStart(x[4..]);
    BodyOpenTakesAll(t);
    assert (x + u)[4..] == x[4..] + u;
    if t == "" {
      TrimStartBlank(x[4..], u);
      TrimStartMeaning(u);
      NoParenOpen(TrimStart(u));
      BodyOpenTakesAll(TrimStart(u));
    } else {
      TrimStartAppend(x[4..], u);
      BodyOpenAppend(t, u);
      BodyOpenTakesAll(t + u);
    }
  }

  function TrimStartFirst(u: string): char {
    if TrimStart(u) == "" then ' ' else TrimStart(u)[0]
  }

  lemma {:induction false} NoParenOpen(u: string)
    requires ')' !in u
    ensures !BodyClosed(u)
    decreases |u|
  {
    if u != "" {
      if u[0] == '\\' {
        if |u| > 1 { NoParenOpen(u[2..]); }
      } else {
        NoParenOpen(u[1..]);
      }
    }
  }

  lemma {:induction false} BodyOpenAppend(s: string, u: string)
    requires !BodyClosed(s) && ')' !in u
    ensures !BodyClosed(s + u)
    decreases |s|
  {
    if s == "" {
      assert s + u == u;
      NoParenOpen(u);
    } else if s[0] == '\\' {
      if |s| > 1 {
        assert (s + u)[2..] == s[2..] + u;
        BodyOpenAppend(s[2..], u);
      } else if u != "" {
        assert (s + u)[2..] == u[1..];
        NoParenOpen(u[1..]);
      }
    } else {
      assert (s + u)[1..] == s[1..] + u;
      BodyOpenAppend(s[1..], u);
    }
  }

  // ------------------------------------------------------------ what a body does in its text

  lemma {:induction false} ClosedIsOpen(m: Mode, depth: nat, x: string)
    requires Body(m, depth, x, true)
    ensures Body(m, depth, x, false)
    decreases |x|
  {
    if x != "" {
      var (n, m') := Next(m, x);
      ClosedIsOpen(m', DepthAfter(m, x[0], depth), x[n..]);
    }
  }

  lemma {:induction false} BodyAlone(m: Mode, depth: nat, x: string)
    requires Body(m, depth, x, false)
    ensures Splits(m, depth, x) == [x] && NoComment(m, x)
    decreases |x|
  {
    if x != "" {
      var (n, m') := Next(m, x);
      BodyAlone(m', DepthAfter(m, x[0], depth), x[n..]);
      assert x == x[..n] + x[n..];
    }
  }

  /** Pushing one token back in front of split text. */
  lemma SplitsPushBack(m: Mode, depth: nat, x: string, u: string, n: nat, m': Mode, ds: seq<string>)
    requires x != "" && !SplitsHere(m, depth, x + u) && n <= |x|
    requires Next(m, x + u) == (n, m') && (x + u)[n..] == x[n..] + u
    requires Splits(m', DepthAfter(m, x[0], depth), x[n..] + u) == [x[n..]] + ds
    ensures Splits(m, depth, x + u) == [x] + ds
  {
    assert (x + u)[..n] == x[..n];
    assert x[..n] + x[n..] == x;
    SplitsToken(m, depth, x + u, n, m', x[n..], ds);
  }

  /** Reading one token that does not cut puts it in front of the first piece. */
  lemma SplitsToken(m: Mode, depth: nat, s: string, n: nat, m': Mode, first: string, ds: seq<string>)
    requires s != "" && !SplitsHere(m, depth, s) && Next(m, s) == (n, m')
    requires Splits(m', DepthAfter(m, s[0], depth), s[n..]) == [first] + ds
    ensures Splits(m, depth, s) == [s[..n] + first] + ds
  {
    assert ([first] + ds)[1..] == ds;
  }

  lemma {:induction false} BodyThen(m: Mode, depth: nat, x: string, u: string)
    requires Body(m, depth, x, true) && u != "" && u[0] == ';' && NoComment(Plain(false), u[1..])
    ensures Splits(m, depth, x + u) == [x] + Splits(Plain(false), 0, u[1..])
    ensures NoComment(m, x + u)
    decreases |x|
  {
    if x == "" {
      assert x + u == u && Next(m, u) == (1, Plain(false));
    } else {
      var (n, m') := Next(m, x);
      var depth' := DepthAfter(m, x[0], depth);
      NextLocal(m, x, u);
      BodyThen(m', depth', x[n..], u);
      SplitsPushBack(m, depth, x, u, n, m', Splits(Plain(false), 0, u[1..]));
    }
  }

  /** Appending the flag keeps a declaration one declaration, closed or not. */
  lemma {:induction false} BodyBang(m: Mode, depth: nat, x: string, closed: bool)
    requires ModeOk(m) && Body(m, depth, x, closed)
    ensures Body(m, depth, x + BANG, closed)
    decreases |x|
  {
    if x == "" {
      assert x + BANG == BANG;
      BangBody(m, depth, BANG, closed);
    } else {
      var (n, m') := Next(m, x);
      if m.Quoted? && x == "\\" {
        assert (x + BANG)[2..] == BANG[1..];
        BangBody(m, depth, BANG[1..], closed);
      } else if m.Plain? && !IsQuote(x[0]) && UrlLen(m.word, x) > 0 && !UrlClosed(x) {
        assert TrimStart(BANG) == BANG[1..];
        UrlOpenTakesAll(m.word, x, BANG);
        assert (x + BANG)[|x + BANG|..] == "";
      } else {
        NextLocal(m, x, BANG);
        BodyBang(m', DepthAfter(m, x[0], depth), x[n..], closed);
      }
    }
  }

  ghost predicate Inert(c: char) {
    c == ' ' || c == '!' || ('a' <= c <= 'z' && c != 'u')
  }

  lemma {:induction false} BangBody(m: Mode, depth: nat, u: string, closed: bool)
    requires ModeOk(m) && (closed ==> m.Plain? && depth == 0)
    requires forall i :: 0 <= i < |u| ==> Inert(u[i])
    ensures Body(m, depth, u, closed)
    decreases |u|
  {
    if u != "" {
      assert Inert(u[0]);
      BangBody(Next(m, u).1, depth, u[1..], closed);
    }
  }

  lemma BodyTrimStart(m: Mode, x: string, closed: bool)
    requires m.Plain? && x != "" && IsSpace(x[0]) && Body(m, 0, x, closed)
    ensures Body(Plain(false), 0, x[1..], closed)
  {
  }

  /** A trailing white-space character can be dropped. */
  lemma {:induction false} BodyDropLast(m: Mode, depth: nat, x: string, c: char, closed: bool)
    requires ModeOk(m) && IsSpace(c) && Body(m, depth, x + [c], closed)
    ensures Body(m, depth, x, closed)
    decreases |x|
  {
    var v := x + [c];
    if x == "" {
      assert v == [c] && v[1..] == "";
    } else {
      var (n, m') := Next(m, x);
      if m.Quoted? && x == "\\" {
        assert v[2..] == "" && x[1..] == "";
      } else if m.Plain? && !IsQuote(x[0]) && UrlLen(m.word, x) > 0 && !UrlClosed(x) {
        UrlOpenTakesAll(m.word, x, [c]);
        assert x[|x|..] == "";
      } else {
        NextLocal(m, x, [c]);
        BodyDropLast(m', DepthAfter(m, x[0], depth), x[n..], c, closed);
      }
    }
  }

  // ------------------------------------------------------------------- cutting gives bodies

  /** A character that opens nothing moves to the first piece. */
  lemma SplitsPlain(w: bool, depth: nat, s: string)
    requires s != "" && !IsQuote(s[0]) && s[0] != 'u' && s[0] != 'U' && s[0] != ';'
    ensures Splits(Plain(w), depth, s)[0] ==
              [s[0]] + Splits(Plain(IsWord(s[0])), DepthAfter(Plain(w), s[0], depth), s[1..])[0]
  {
    var rest := Splits(Plain(IsWord(s[0])), DepthAfter(Plain(w), s[0], depth), s[1..]);
    assert Next(Plain(w), s) == (1, Plain(IsWord(s[0])));
    assert rest == [rest[0]] + rest[1..] && s[..1] == [s[0]];
    SplitsToken(Plain(w), depth, s, 1, Plain(IsWord(s[0])), rest[0], rest[1..]);
  }

  /** Inside parentheses, white space and the quote after it stay in the first piece. */
  lemma {:induction false} QuoteStays(w: bool, depth: nat, s: string)
    requires depth > 0 && TrimStart(s) != "" && IsQuote(TrimStart(s)[0])
    ensures var t := TrimStart(Splits(Plain(w), depth, s)[0]); t != "" && IsQuote(t[0])
  {
    var x := Splits(Plain(w), depth, s)[0];
    if IsSpace(s[0]) {
      SplitsPlain(w, depth, s);
      QuoteStays(IsWord(s[0]), depth, s[1..]);
      assert x[1..] == Splits(Plain(IsWord(s[0])), depth, s[1..])[0];
    } else {
      assert x[0] == s[0];
    }
  }

  lemma LetterStays(depth: nat, s: string, i: nat, r: string) returns (r': string)
    requires i < |s| && UrlLetter(s[i]) && r == Splits(Plain(true), depth, s[i..])[0]
    ensures r == [s[i]] + r' && r' == Splits(Plain(true), depth, s[i + 1..])[0]
  {
    SplitsPlain(true, depth, s[i..]);
    assert s[i..][1..] == s[i + 1..];
    r' := Splits(Plain(true), depth, s[i + 1..])[0];
  }

  lemma ParenStays(depth: nat, s: string, i: nat, r: string) returns (r': string)
    requires i < |s| && s[i] == '(' && r == Splits(Plain(true), depth, s[i..])[0]
    ensures r == [s[i]] + r' && r' == Splits(Plain(false), depth + 1, s[i + 1..])[0]
  {
    SplitsPlain(true, depth, s[i..]);
    assert s[i..][1..] == s[i + 1..];
    r' := Splits(Plain(false), depth + 1, s[i + 1..])[0];
  }

  lemma LettersStay(depth: nat, s: string, r: string) returns (r': string)
    requires |s| > 3 && UrlLetter(s[1]) && UrlLetter(s[2]) && r == Splits(Plain(true), depth, s[1..])[0]
    ensures r == [s[1]] + ([s[2]] + r') && r' == Splits(Plain(true), depth, s[3..])[0]
  {
    var r1 := LetterStays(depth, s, 1, r);
    r' := LetterStays(depth, s, 2, r1);
  }

  lemma UrlHeadStays(depth: nat, s: string, r: string)
    requires StartsUrl(s) && r == Splits(Plain(true), depth, s[1..])[0]
    ensures |r| >= 3 && r[3..] == Splits(Plain(false), depth + 1, s[4..])[0]
  {
    var r2 := LettersStay(depth, s, r);
    var r3 := ParenStays(depth, s, 3, r2);
    Fourth(s[1], s[2], s[3], r, r2, r3);
  }

  lemma Fourth(a: char, b: char, c: char, r: string, r2: string, r3: string)
    requires r == [a] + ([b] + r2) && r2 == [c] + r3
    ensures |r| >= 3 && r[3..] == r3
  {
  }

  lemma {:induction false} FirstIsPrefix(m: Mode, depth: nat, s: string)
    ensures Splits(m, depth, s)[0] <= s
    ensures |Splits(m, depth, s)| == 1 ==> Splits(m, depth, s)[0] == s
    decreases |s|
  {
    if s != "" && !SplitsHere(m, depth, s) {
      var (n, m') := Next(m, s);
      FirstIsPrefix(m', DepthAfter(m, s[0], depth), s[n..]);
      assert s == s[..n] + s[n..];
    }
  }

  lemma NoUrlStays(w: bool, depth: nat, s: string)
    requires s != "" && UrlLen(w, s) == 0 && !IsQuote(s[0])
    ensures UrlLen(w, [s[0]] + Splits(Plain(IsWord(s[0])), DepthAfter(Plain(w), s[0], depth), s[1..])[0]) == 0
  {
    var depth' := DepthAfter(Plain(w), s[0], depth);
    var r := Splits(Plain(IsWord(s[0])), depth', s[1..])[0];
    FirstIsPrefix(Plain(IsWord(s[0])), depth', s[1..]);
    if !w && StartsUrl(s) {
      UrlHeadStays(depth, s, r);
      QuoteStays(false, depth + 1, s[4..]);
      QuoteNoUrl([s[0]] + r, r);
    } else {
      NotUrlPrefix(w, s, [s[0]] + r);
    }
  }

  lemma QuoteNoUrl(x: string, r: string)
    requires |r| >= 3 && |x| == |r| + 1 && x[1..] == r
    requires var t := TrimStart(r[3..]); t != "" && IsQuote(t[0])
    ensures UrlLen(false, x) == 0
  {
    assert x[4..] == r[3..];
  }

  lemma NotUrlPrefix(w: bool, s: string, x: string)
    requires (w || !StartsUrl(s)) && x <= s
    ensures UrlLen(w, x) == 0
  {
  }

  /** The first token of the text is also the first token of its first piece. */
  lemma FirstToken(m: Mode, depth: nat, s: string)
    requires s != "" && !SplitsHere(m, depth, s)
    ensures var (n, m') := Next(m, s);
            var x := s[..n] + Splits(m', DepthAfter(m, s[0], depth), s[n..])[0];
            && Next(m, x) == (n, m')
            && (m.Plain? && !IsQuote(s[0]) && UrlLen(m.word, s) > 0 && !UrlClosed(s) ==> s[n..] == "")
            && (m.Plain? && !IsQuote(s[0]) && UrlLen(m.word, s) > 0 && UrlClosed(s) ==> StartsUrl(x) && UrlClosed(x))
  {
    var (n, m') := Next(m, s);
    var depth' := DepthAfter(m, s[0], depth);
    var r := Splits(m', depth', s[n..])[0];
    var x := s[..n] + r;
    if m.Quoted? {
      if s[0] == '\\' && |s| == 1 { assert s[n..] == ""; }
    } else if IsQuote(s[0]) {
    } else if UrlLen(m.word, s) > 0 {
      if UrlClosed(s) {
        UrlLocal(s, r);
      } else {
        BodyOpenTakesAll(TrimStart(s[4..]));
        assert s[n..] == "" && x == s;
      }
    } else {
      assert s[..1] == [s[0]];
      NoUrlStays(m.word, depth, s);
    }
  }

  lemma PieceHead(s: string, n: nat, r: string)
    requires 0 < n <= |s| && r <= s[n..]
    ensures var x := s[..n] + r; x[0] == s[0] && x[n..] == r && (StartsComment(x) ==> StartsComment(s))
  {
  }

  lemma FirstBody(m: Mode, depth: nat, s: string, r: string, closed: bool)
    requires s != "" && !SplitsHere(m, depth, s) && !(m.Plain? && StartsComment(s))
    requires var (n, m') := Next(m, s);
             var rest := Splits(m', DepthAfter(m, s[0], depth), s[n..]);
             r == rest[0] && closed == (|rest| > 1) && Body(m', DepthAfter(m, s[0], depth), r, closed)
    ensures Body(m, depth, s[..Next(m, s).0] + r, closed)
  {
    var (n, m') := Next(m, s);
    FirstToken(m, depth, s);
    FirstIsPrefix(m', DepthAfter(m, s[0], depth), s[n..]);
    PieceHead(s, n, r);
    BodyPush(m, depth, s[..n] + r, closed, n, m');
  }

  lemma BodyPush(m: Mode, depth: nat, x: string, closed: bool, n: nat, m': Mode)
    requires x != "" && !SplitsHere(m, depth, x) && !(m.Plain? && StartsComment(x)) && Next(m, x) == (n, m')
    requires closed && m.Plain? && !IsQuote(x[0]) && UrlLen(m.word, x) > 0 ==> UrlClosed(x)
    requires Body(m', DepthAfter(m, x[0], depth), x[n..], closed)
    ensures Body(m, depth, x, closed)
  {
  }

  /** A list of pieces: each is a body, and all but the last are closed. */
  ghost predicate Bodies(ds: seq<string>) {
    forall i :: 0 <= i < |ds| ==> Body(Plain(false), 0, ds[i], i < |ds| - 1)
  }

  lemma BodiesCons(d: string, ds: seq<string>)
    requires Bodies(ds) && Body(Plain(false), 0, d, ds != [])
    ensures Bodies([d] + ds)
  {
    var all := [d] + ds;
    forall i | 0 <= i < |all| ensures Body(Plain(false), 0, all[i], i < |all| - 1) {
      if i > 0 { assert all[i] == ds[i - 1]; }
    }
  }

  lemma BodiesTail(ds: seq<string>)
    requires ds != [] && Bodies(ds)
    ensures Bodies(ds[1..])
  {
    forall i | 0 <= i < |ds| - 1 ensures Body(Plain(false), 0, ds[1..][i], i < |ds[1..]| - 1) {
      assert ds[1..][i] == ds[i + 1];
    }
  }

  lemma {:induction false} SplitBodies(m: Mode, depth: nat, s: string)
    requires NoComment(m, s)
    ensures var ds := Splits(m, depth, s); Body(m, depth, ds[0], ds[1..] != []) && Bodies(ds[1..])
    decreases |s|
  {
    if s == "" {
    } else if SplitsHere(m, depth, s) {
      SplitBodies(Plain(false), 0, s[1..]);
      var rest := Splits(Plain(false), 0, s[1..]);
      BodiesCons(rest[0], rest[1..]);
      assert ([""] + rest)[1..] == [rest[0]] + rest[1..];
    } else {
      var (n, m') := Next(m, s);
      var rest := Splits(m', DepthAfter(m, s[0], depth), s[n..]);
      SplitBodies(m', DepthAfter(m, s[0], depth), s[n..]);
      FirstBody(m, depth, s, rest[0], |rest| > 1);
      assert ([s[..n] + rest[0]] + rest[1..])[1..] == rest[1..];
    }
  }

  // ------------------------------------------------------------------------ the main results

  lemma {:induction false} BodyTrimLeft(x: string, closed: bool)
    requires Body(Plain(false), 0, x, closed)
    ensures Body(Plain(false), 0, TrimStart(x), closed)
  {
    if x != "" && IsSpace(x[0]) {
      BodyTrimStart(Plain(false), x, closed);
      BodyTrimLeft(x[1..], closed);
    }
  }

  lemma {:induction false} BodyTrimRight(x: string, closed: bool)
    requires Body(Plain(false), 0, x, closed)
    ensures Body(Plain(false), 0, TrimEnd(x), closed)
  {
    if x != "" && IsSpace(x[|x| - 1]) {
      var y := x[..|x| - 1];
      assert x == y + [x[|x| - 1]];
      BodyDropLast(Plain(false), 0, y, x[|x| - 1], closed);
      BodyTrimRight(y, closed);
    }
  }

  /** A declaration as `importantify` writes it. */
  ghost predicate Flagged(d: string) {
    d != "" && Trim(d) == d && EndsImportant(d)
  }

  lemma LowerAllFixed(u: string)
    requires forall i :: 0 <= i < |u| ==> 'a' <= u[i] <= 'z'
    ensures LowerAll(u) == u
  {
    assert forall i :: 0 <= i < |u| ==> LowerAll(u)[i] == u[i];
  }

  lemma FlagIsFlag()
    ensures IsFlag(FLAG)
  {
    LowerAllFixed(FLAG);
  }

  lemma BangEnds(d: string, flag: string)
    requires IsFlag(flag)
    ensures EndsImportant(d + (" !" + flag))
  {
    var p := d + " !";
    Assoc(d, " !", flag);
    assert TrimEnd(p) == p;
    EndsWithFlag(p, flag);
  }

  lemma EndsWithFlag(p: string, flag: string)
    requires EndsWithBang(p) && p != "" && IsFlag(flag)
    ensures EndsImportant(p + flag)
  {
    assert (p + flag)[|p|..] == flag && (p + flag)[..|p|] == p;
  }

  lemma BangFlags(d: string)
    requires d != "" && Trim(d) == d
    ensures Flagged(Bang(d))
  {
    if !EndsImportant(d) {
      var e := d + BANG;
      FlagIsFlag();
      BangEnds(d, FLAG);
      TrimEnds(d);
      assert e[0] == d[0] && e[|e| - 1] == 't';
      TrimFixed(e);
    }
  }

  lemma {:induction false} WrittenBodies(ds: seq<string>)
    requires Bodies(ds)
    ensures var out := BangAll(Kept(ds)); Bodies(out) && forall d :: d in out ==> Flagged(d)
  {
    if ds != [] {
      BodiesTail(ds);
      WrittenBodies(ds[1..]);
      var rest := BangAll(Kept(ds[1..]));
      var t := Trim(ds[0]);
      if t != "" {
        assert Kept(ds) == [t] + Kept(ds[1..]);
        assert BangAll(Kept(ds)) == [Bang(t)] + rest;
        TrimEnds(ds[0]);
        TrimFixed(t);
        BangFlags(t);
        var closed := |ds| > 1;
        BodyTrimLeft(ds[0], closed);
        BodyTrimRight(TrimStart(ds[0]), closed);
        if closed && rest == [] { ClosedIsOpen(Plain(false), 0, t); }
        BodyBang(Plain(false), 0, t, rest != []);
        BodiesCons(Bang(t), rest);
      } else {
        assert Kept(ds) == Kept(ds[1..]);
      }
    }
  }

  /** Cutting the joined declarations gives them back. */
  lemma {:induction false} JoinSplits(ds: seq<string>)
    requires ds != [] && Bodies(ds)
    ensures Splits(Plain(false), 0, Join(ds)) == ds && NoComment(Plain(false), Join(ds))
  {
    if |ds| == 1 {
      BodyAlone(Plain(false), 0, ds[0]);
    } else {
      BodiesTail(ds);
      JoinSplits(ds[1..]);
      var u := ";" + Join(ds[1..]);
      assert u[1..] == Join(ds[1..]) && Join(ds) == ds[0] + u;
      BodyThen(Plain(false), 0, ds[0], u);
    }
  }

  lemma {:induction false} FlaggedKept(ds: seq<string>)
    requires forall d :: d in ds ==> Flagged(d)
    ensures Kept(ds) == ds && BangAll(ds) == ds
  {
    if ds != [] {
      assert Flagged(ds[0]);
      FlaggedKept(ds[1..]);
    }
  }

  lemma Written(css: string)
    ensures var out := BangAll(Declarations(css)); Bodies(out) && forall d :: d in out ==> Flagged(d)
  {
    NoCommentStrip(Plain(false), css);
    var x := Strip(Plain(false), css);
    SplitBodies(Plain(false), 0, x);
    var ds := Splits(Plain(false), 0, x);
    BodiesCons(ds[0], ds[1..]);
    assert ds == [ds[0]] + ds[1..];
    WrittenBodies(ds);
  }

  /** The declarations of the output are the declarations of the input, in order, each one
      ending in the flag: nothing is dropped, joined or cut differently. */
  lemma ImportantifyKeepsDeclarations(css: string)
    ensures Declarations(Importantified(css)) == BangAll(Declarations(css))
    ensures forall d :: d in Declarations(Importantified(css)) ==> EndsImportant(d)
  {
    Written(css);
    var out := BangAll(Declarations(css));
    if out == [] {
      assert Declarations("") == [];
    } else {
      JoinSplits(out);
      NoCommentStrip(Plain(false), Join(out));
    }
    FlaggedKept(out);
    assert forall d :: d in out ==> Flagged(d);
  }

  lemma ImportantifyIdempotent(css: string)
    ensures Importantified(Importantified(css)) == Importantified(css)
  {
    Written(css);
    ImportantifyKeepsDeclarations(css);
    FlaggedKept(BangAll(Declarations(css)));
  }
}
