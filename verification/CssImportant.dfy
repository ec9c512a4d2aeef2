/**
 * `scanUnquotedUrl`, `stripComments` and `importantify` (docs/design/support.js), proved
 * against the lexer of CssLexer. CssIdempotence proves that `importantify` is idempotent.
 */
module CssImportant {
  import opened JsText
  import opened CssLexer

  // ------------------------------------------------------------------------- declarations

  function DepthAfter(m: Mode, c: char, depth: nat): nat {
    if m.Quoted? then depth
    else if c == '(' then depth + 1
    else if c == ')' && depth > 0 then depth - 1
    else depth
  }

  predicate SplitsHere(m: Mode, depth: nat, s: string)
    requires s != ""
  {
    m.Plain? && s[0] == ';' && depth == 0
  }

  /** The text cut at every `;` that is outside strings, urls and parentheses. */
  function Splits(m: Mode, depth: nat, s: string): (ds: seq<string>)
    ensures ds != []
    decreases |s|
  {
    if s == "" then [""]
    else if SplitsHere(m, depth, s) then [""] + Splits(Plain(false), 0, s[1..])
    else
      var (n, m') := Next(m, s);
      var rest := Splits(m', DepthAfter(m, s[0], depth), s[n..]);
      [s[..n] + rest[0]] + rest[1..]
  }

  function Lower(c: char): char {
    if 'A' <= c <= 'Z' then (c as int + 32) as char else c
  }

  function LowerAll(s: string): (r: string)
    ensures |r| == |s| && forall i :: 0 <= i < |s| ==> r[i] == Lower(s[i])
  {
    if s == "" then "" else [Lower(s[0])] + LowerAll(s[1..])
  }

  predicate IsFlag(t: string) {
    |t| == 9 && LowerAll(t) == FLAG
  }

  predicate EndsWithBang(s: string) {
    var t := TrimEnd(s); t != "" && t[|t| - 1] == '!'
  }

  /** `!`, white space, then `important` in any letter case, at the end of the text. */
  predicate EndsImportant(d: string) {
    |d| >= 10 && IsFlag(d[|d| - 9..]) && EndsWithBang(d[..|d| - 9])
  }

  const FLAG: string := "important"
  const BANG: string := " !" + FLAG

  function Bang(d: string): string {
    if EndsImportant(d) then d else d + BANG
  }

  /** The declarations that are kept: trimmed, without the empty ones. */
  function Kept(ds: seq<string>): seq<string> {
    if ds == [] then []
    else (if Trim(ds[0]) == "" then [] else [Trim(ds[0])]) + Kept(ds[1..])
  }

  function BangAll(ds: seq<string>): (r: seq<string>)
    ensures |r| == |ds| && forall i :: 0 <= i < |ds| ==> r[i] == Bang(ds[i])
  {
    if ds == [] then [] else [Bang(ds[0])] + BangAll(ds[1..])
  }

  function Join(ds: seq<string>): string {
    if ds == [] then ""
    else if |ds| == 1 then ds[0]
    else ds[0] + ";" + Join(ds[1..])
  }

  /** The declarations of a style text, comments removed. */
  function Declarations(css: string): seq<string> {
    Kept(Splits(Plain(false), 0, Strip(Plain(false), css)))
  }

  function Importantified(css: string): string {
    Join(BangAll(Declarations(css)))
  }

  // ---------------------------------------------------------------------- the code's loops

  /** The white space after `url(` that starts at `i` is being skipped; the url ends at `last`,
      or there is none when a quote follows. */
  ghost predicate Skipping(css: string, i: nat, j: nat, last: nat) {
    && i + 4 <= j <= |css| && StartsUrl(css[i..])
    && var t := TrimStart(css[j..]);
       last == if t != "" && IsQuote(t[0]) then i else |css| - |t| + BodyLen(t)
  }

  lemma SkippingStart(css: string, i: nat)
    requires i + 4 <= |css| && StartsUrl(css[i..])
    ensures Skipping(css, i, i + 4, i + UrlLen(false, css[i..]))
  {
    assert css[i..][4..] == css[i + 4..];
  }

  lemma SkippingStep(css: string, i: nat, j: nat, last: nat)
    requires j < |css| && Skipping(css, i, j, last) && IsSpace(css[j])
    ensures Skipping(css, i, j + 1, last)
  {
    assert css[j..][1..] == css[j + 1..];
  }

  /** The url body from `j` on ends at `last`. */
  ghost predicate Scanning(css: string, j: nat, last: nat) {
    last == if j <= |css| then j + BodyLen(css[j..]) else |css|
  }

  lemma ScanningStart(css: string, i: nat, j: nat, last: nat)
    requires Skipping(css, i, j, last) && (j == |css| || !IsSpace(css[j]))
    ensures j < |css| && IsQuote(css[j]) ==> last == i
    ensures !(j < |css| && IsQuote(css[j])) ==> last > i && Scanning(css, j, last)
  {
  }

  lemma ScanningStep(css: string, j: nat, last: nat)
    requires j < |css| && Scanning(css, j, last)
    ensures css[j] == ')' ==> last == j + 1
    ensures css[j] == '\\' ==> Scanning(css, j + 2, last)
    ensures css[j] != ')' && css[j] != '\\' ==> Scanning(css, j + 1, last)
  {
    assert css[j..][1..] == css[j + 1..];
    if j + 2 <= |css| { assert css[j..][2..] == css[j + 2..]; }
  }

  method ScanUnquotedUrl(css: string, i: nat) returns (end: int)
    requires i < |css|
    ensures var n := UrlLen(WordBefore(css, i), css[i..]); end == if n == 0 then -1 else i + n
  {
    ghost var word := WordBefore(css, i);
    ghost var last := i + UrlLen(word, css[i..]);
    if (css[i] != 'u' && css[i] != 'U') || !StartsUrl(css[i..]) || WordBefore(css, i) {
      return -1;
    }
    SkippingStart(css, i);
    end := ScanUrlBody(css, i, last);
  }

  /** The two loops of `scanUnquotedUrl`, entered once `url(` has been seen at `i`. */
  method ScanUrlBody(css: string, i: nat, ghost last: nat) returns (end: int)
    requires i + 4 <= |css| && Skipping(css, i, i + 4, last)
    ensures end == if last == i then -1 else last
  {
    var j := i + 4;
    while j < |css| && IsSpace(css[j])
      invariant i + 4 <= j <= |css| && Skipping(css, i, j, last)
    {
      SkippingStep(css, i, j, last);
      j := j + 1;
    }
    ScanningStart(css, i, j, last);
    if j < |css| && IsQuote(css[j]) {
      return -1;
    }
    while j < |css| && css[j] != ')'
      invariant Scanning(css, j, last)
    {
      ScanningStep(css, j, last);
      if css[j] == '\\' {
        j := j + 1;
      }
      j := j + 1;
    }
    if j < |css| { ScanningStep(css, j, last); }
    end := if j < |css| then j + 1 else |css|;
  }

  /** What `StripComments` has written, followed by the stripped rest, is the stripped text. */
  ghost predicate Stripping(out: string, m: Mode, rest: string, goal: string) {
    ModeOk(m) && out + Strip(m, rest) == goal
  }

  /** One loop step, for a token given by what is written for it and where it ends. */
  lemma StrippingToken(out: string, m: Mode, css: string, i: nat, goal: string, piece: string, next: nat, m': Mode)
    requires i < next <= |css| && Stripping(out, m, css[i..], goal)
    requires var (t, after) := Step(m, css[i..]); i + |t.text| == next && Blank(t).text == piece && after == m'
    ensures Stripping(out + piece, m', css[next..], goal)
  {
    assert css[i..][next - i..] == css[next..];
    Assoc(out, piece, Strip(m', css[next..]));
  }

  lemma StrippingString(out: string, m: Mode, css: string, i: nat, goal: string)
    returns (piece: string, next: nat, m': Mode)
    requires i < |css| && Stripping(out, m, css[i..], goal) && m.Quoted?
    ensures i < next <= |css| && Stripping(out + piece, m', css[next..], goal)
    ensures m'.Plain? ==> !m'.word && !WordBefore(css, next)
    ensures css[i] == '\\' ==>
              m' == m && (if i + 1 < |css| then next == i + 2 && piece == [css[i]] + [css[i + 1]]
                          else next == i + 1 && piece == [css[i]] + "")
    ensures css[i] != '\\' ==> next == i + 1 && piece == [css[i]] && m' == if css[i] == m.q then Plain(false) else m
  {
    if css[i] == '\\' {
      NextEscape(m, css, i);
      piece := [css[i]] + if i + 1 < |css| then [css[i + 1]] else "";
      next, m' := if i + 1 < |css| then i + 2 else i + 1, m;
    } else {
      NextQuoted(m, css, i);
      piece, next, m' := [css[i]], i + 1, if css[i] == m.q then Plain(false) else m;
    }
    StrippingToken(out, m, css, i, goal, piece, next, m');
  }

  lemma StrippingOther(out: string, m: Mode, css: string, i: nat, goal: string, end: int)
    returns (piece: string, next: nat, m': Mode)
    requires i < |css| && Stripping(out, m, css[i..], goal) && m.Plain? && m.word == WordBefore(css, i)
    requires !IsQuote(css[i])
    requires !(i + 1 < |css| && css[i] == '/' && css[i + 1] == '*')
    requires var n := UrlLen(WordBefore(css, i), css[i..]); end == if n == 0 then -1 else i + n
    ensures i < next <= |css| && Stripping(out + piece, m', css[next..], goal)
    ensures m'.Plain? && (next < |css| ==> m'.word == WordBefore(css, next))
    ensures if end == -1 then next == i + 1 && piece == [css[i]] else next == end && piece == css[i..end]
  {
    if end != -1 {
      NextUrl(m, css, i);
      piece, next, m' := css[i..end], end, Plain(false);
    } else {
      NextChar(m, css, i);
      piece, next, m' := [css[i]], i + 1, Plain(IsWord(css[i]));
    }
    StrippingToken(out, m, css, i, goal, piece, next, m');
  }

  /** One loop step: what the branches of the code consume, write and switch to, where `end`
      is what `scanUnquotedUrl` answers. */
  lemma StrippingStep(out: string, m: Mode, css: string, i: nat, goal: string, end: int)
      returns (piece: string, next: nat, m': Mode)
    requires i < |css| && Stripping(out, m, css[i..], goal) && (m.Plain? ==> m.word == WordBefore(css, i))
    requires var n := UrlLen(WordBefore(css, i), css[i..]); end == if n == 0 then -1 else i + n
    ensures i < next <= |css| && Stripping(out + piece, m', css[next..], goal)
    ensures next < |css| && m'.Plain? ==> m'.word == WordBefore(css, next)
    ensures m.Quoted? && css[i] == '\\' ==>
              m' == m && (if i + 1 < |css| then next == i + 2 && piece == [css[i]] + [css[i + 1]]
                          else next == i + 1 && piece == [css[i]] + "")
    ensures m.Quoted? && css[i] != '\\' ==>
              next == i + 1 && piece == [css[i]] && m' == if css[i] == m.q then Plain(false) else m
    ensures m.Plain? && IsQuote(css[i]) ==> next == i + 1 && piece == [css[i]] && m' == Quoted(css[i])
    ensures m.Plain? && !IsQuote(css[i]) ==> m'.Plain?
    ensures m.Plain? && !IsQuote(css[i]) ==>
              if i + 1 < |css| && css[i] == '/' && css[i + 1] == '*' then
                piece == " " && var close := IndexOfClose(css, i + 2); next == if close == -1 then |css| else close + 2
              else
                if end == -1 then next == i + 1 && piece == [css[i]] else next == end && piece == css[i..end]
  {
    if m.Quoted? {
      piece, next, m' := StrippingString(out, m, css, i, goal);
    } else if IsQuote(css[i]) {
      NextQuote(m, css, i);
      piece, next, m' := [css[i]], i + 1, Quoted(css[i]);
      StrippingToken(out, m, css, i, goal, piece, next, m');
    } else if i + 1 < |css| && css[i] == '/' && css[i + 1] == '*' {
      NextComment(m, css, i);
      piece, next, m' := " ", i + |Step(m, css[i..]).0.text|, Plain(false);
      StrippingToken(out, m, css, i, goal, piece, next, m');
    } else {
      piece, next, m' := StrippingOther(out, m, css, i, goal, end);
    }
  }

  method StripComments(css: string) returns (out: string)
    ensures out == Strip(Plain(false), css)
  {
    out := "";
    var quote: string := "";
    var i: nat := 0;
    ghost var m := Plain(false);
    ghost var goal := Strip(m, css);
    assert css[0..] == css;
    while i < |css|
      invariant i <= |css| && Stripping(out, m, css[i..], goal)
      invariant i < |css| && m.Plain? ==> m.word == WordBefore(css, i)
      invariant quote == if m.Quoted? then [m.q] else ""
    {
      var c := css[i];
      ghost var url := UrlLen(WordBefore(css, i), css[i..]);
      ghost var piece, next, m' := StrippingStep(out, m, css, i, goal, if url == 0 then -1 else i + url);
      ghost var done := out;
      if quote != "" {
        if c == '\\' {
          out := out + ([c] + if i + 1 < |css| then [css[i + 1]] else "");
          i := if i + 1 < |css| then i + 1 else i;
        } else {
          if c == quote[0] {
            quote := "";
          }
          out := out + [c];
        }
      } else if IsQuote(c) {
        quote := [c];
        out := out + [c];
      } else if c == '/' && i + 1 < |css| && css[i + 1] == '*' {
        var end := IndexOfClose(css, i + 2);
        i := if end == -1 then |css| - 1 else end + 1;
        out := out + " ";
      } else {
        var end := ScanUnquotedUrl(css, i);
        if end == -1 {
          out := out + [c];
        } else {
          out := out + css[i..end];
          i := end - 1;
        }
      }
      i := i + 1;
      assert i == next && out == done + piece;
      m := m';
    }
    assert css[i..] == "";
  }

  /** The declarations already cut, the open one, and the pieces of the rest together are the
      pieces of the text. */
  ghost predicate Splitting(decls: seq<string>, open: string, m: Mode, depth: nat, rest: string, goal: seq<string>) {
    var ds := Splits(m, depth, rest);
    ModeOk(m) && decls + [open + ds[0]] + ds[1..] == goal
  }

  lemma SplittingCut(decls: seq<string>, open: string, m: Mode, css: string, i: nat, goal: seq<string>)
    requires i < |css| && Splitting(decls, open, m, 0, css[i..], goal) && m.Plain? && css[i] == ';'
    ensures Splitting(decls + [open], css[i + 1..i + 1], Plain(false), 0, css[i + 1..], goal)
  {
    assert css[i + 1..i + 1] == "";
    assert css[i..][1..] == css[i + 1..];
    var ds := Splits(Plain(false), 0, css[i + 1..]);
    assert open + "" == open && "" + ds[0] == ds[0];
    assert ([""] + ds)[1..] == ds;
  }

  lemma SplittingToken(decls: seq<string>, open: string, m: Mode, depth: nat, css: string, i: nat, goal: seq<string>,
                       next: nat, m': Mode)
    requires i < next <= |css| && Splitting(decls, open, m, depth, css[i..], goal) && !SplitsHere(m, depth, css[i..])
    requires Next(m, css[i..]) == (next - i, m')
    ensures Splitting(decls, open + css[i..next], m', DepthAfter(m, css[i], depth), css[next..], goal)
  {
    assert css[i..][next - i..] == css[next..] && css[i..][..next - i] == css[i..next];
    var ds := Splits(m', DepthAfter(m, css[i], depth), css[next..]);
    assert Splits(m, depth, css[i..]) == [css[i..next] + ds[0]] + ds[1..];
    Assoc(open, css[i..next], ds[0]);
  }

  lemma SplittingEnd(decls: seq<string>, css: string, start: nat, m: Mode, depth: nat, goal: seq<string>)
    requires start <= |css| && Splitting(decls, css[start..|css|], m, depth, css[|css|..], goal)
    ensures decls + [css[start..]] == goal
  {
    assert css[|css|..] == "" && css[start..|css|] + "" == css[start..];
  }

  /** One loop step that does not cut: what the branches of the code consume and switch to,
      where `end` is what `scanUnquotedUrl` answers. */
  lemma SplittingStep(decls: seq<string>, start: nat, m: Mode, depth: nat, css: string, i: nat, goal: seq<string>,
                      end: int)
      returns (next: nat, m': Mode)
    requires start <= i < |css| && Splitting(decls, css[start..i], m, depth, css[i..], goal)
    requires (m.Plain? ==> m.word == WordBefore(css, i)) && !(m.Plain? && css[i] == ';' && depth == 0)
    requires var n := UrlLen(WordBefore(css, i), css[i..]); end == if n == 0 then -1 else i + n
    ensures i < next <= |css| && Splitting(decls, css[start..next], m', DepthAfter(m, css[i], depth), css[next..], goal)
    ensures next < |css| && m'.Plain? ==> m'.word == WordBefore(css, next)
    ensures m.Quoted? && css[i] == '\\' ==> m' == m && next == if i + 1 < |css| then i + 2 else i + 1
    ensures m.Quoted? && css[i] != '\\' ==> next == i + 1 && m' == if css[i] == m.q then Plain(false) else m
    ensures m.Plain? && IsQuote(css[i]) ==> next == i + 1 && m' == Quoted(css[i])
    ensures m.Plain? && !IsQuote(css[i]) ==> m'.Plain? && next == if end == -1 then i + 1 else end
  {
    next, m' := NextBranch(m, css, i, end);
    SplittingToken(decls, css[start..i], m, depth, css, i, goal, next, m');
    assert css[start..i] + css[i..next] == css[start..next];
  }

  /** The token at `i`, branch by branch. */
  lemma NextBranch(m: Mode, css: string, i: nat, end: int) returns (next: nat, m': Mode)
    requires i < |css| && ModeOk(m) && (m.Plain? ==> m.word == WordBefore(css, i))
    requires var n := UrlLen(WordBefore(css, i), css[i..]); end == if n == 0 then -1 else i + n
    ensures i < next <= |css| && Next(m, css[i..]) == (next - i, m')
    ensures next < |css| && m'.Plain? ==> m'.word == WordBefore(css, next)
    ensures m.Quoted? && css[i] == '\\' ==> m' == m && next == if i + 1 < |css| then i + 2 else i + 1
    ensures m.Quoted? && css[i] != '\\' ==> next == i + 1 && m' == if css[i] == m.q then Plain(false) else m
    ensures m.Plain? && IsQuote(css[i]) ==> next == i + 1 && m' == Quoted(css[i])
    ensures m.Plain? && !IsQuote(css[i]) ==> m'.Plain? && next == if end == -1 then i + 1 else end
  {
    if m.Quoted? {
      if css[i] == '\\' {
        NextEscape(m, css, i);
        next, m' := if i + 1 < |css| then i + 2 else i + 1, m;
      } else {
        NextQuoted(m, css, i);
        next, m' := i + 1, if css[i] == m.q then Plain(false) else m;
      }
    } else if IsQuote(css[i]) {
      NextQuote(m, css, i);
      next, m' := i + 1, Quoted(css[i]);
    } else if end != -1 {
      NextUrl(m, css, i);
      next, m' := end, Plain(false);
    } else {
      NextChar(m, css, i);
      next, m' := i + 1, Plain(IsWord(css[i]));
    }
  }

  /** The cutting loop of `importantify`. */
  method SplitDeclarations(css: string) returns (decls: seq<string>)
    ensures decls == Splits(Plain(false), 0, css)
  {
    decls := [];
    var start: nat, depth: nat, i: nat := 0, 0, 0;
    var quote: string := "";
    ghost var m := Plain(false);
    ghost var goal := Splits(m, 0, css);
    assert css[0..] == css && css[0..0] + goal[0] == goal[0];
    while i < |css|
      invariant start <= i <= |css| && Splitting(decls, css[start..i], m, depth, css[i..], goal)
      invariant i < |css| && m.Plain? ==> m.word == WordBefore(css, i)
      invariant quote == if m.Quoted? then [m.q] else ""
    {
      var c := css[i];
      ghost var next, m', depth0 := i, m, depth;
      if quote != "" || c != ';' || depth != 0 {
        ghost var url := UrlLen(WordBefore(css, i), css[i..]);
        next, m' := SplittingStep(decls, start, m, depth, css, i, goal, if url == 0 then -1 else i + url);
      }
      if quote != "" {
        if c == '\\' {
          i := if i + 1 < |css| then i + 1 else i;
        } else if c == quote[0] {
          quote := "";
        }
      } else if IsQuote(c) {
        quote := [c];
      } else if c == '(' {
        depth := depth + 1;
      } else if c == ')' {
        depth := if depth - 1 > 0 then depth - 1 else 0;
      } else if c == ';' && depth == 0 {
        SplittingCut(decls, css[start..i], m, css, i, goal);
        m := Plain(false);
        decls := decls + [css[start..i]];
        start := i + 1;
        i := i + 1;
        continue;
      } else {
        var end := ScanUnquotedUrl(css, i);
        if end != -1 {
          i := end - 1;
        }
      }
      i := i + 1;
      assert i == next && depth == DepthAfter(m, c, depth0);
      m := m';
    }
    SplittingEnd(decls, css, start, m, depth, goal);
    decls := decls + [css[start..]];
  }

  method Importantify(text: string) returns (r: string)
    ensures r == Importantified(text)
  {
    var css := StripComments(text);
    var decls := SplitDeclarations(css);
    r := Join(BangAll(Kept(decls)));
  }
}
