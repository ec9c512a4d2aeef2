/**
 * Splitting a document into overlapping chunks (apps/api/voiceos_api/knowledge.py).
 */
module Chunker {
  // ------------------------------------------------------------------------------ white space

  const SPACES: seq<(char, char)> := [
    ('\U{0009}', '\U{000D}'), ('\U{001C}', ' '), ('\U{0085}', '\U{0085}'), ('\U{00A0}', '\U{00A0}'),
    ('\U{1680}', '\U{1680}'), ('\U{2000}', '\U{200A}'), ('\U{2028}', '\U{2029}'), ('\U{202F}', '\U{202F}'),
    ('\U{205F}', '\U{205F}'), ('\U{3000}', '\U{3000}')]

  predicate InRange(c: char, ranges: seq<(char, char)>) {
    ranges != [] && (ranges[0].0 <= c <= ranges[0].1 || InRange(c, ranges[1..]))
  }

  /** What `\s` matches and `strip` removes. */
  predicate IsSpace(c: char) {
    c == ' ' || InRange(c, SPACES)
  }

  function StripStart(s: string): (r: string)
    ensures |r| <= |s|
    ensures r != "" ==> !IsSpace(r[0])
  {
    if s != "" && IsSpace(s[0]) then StripStart(s[1..]) else s
  }

  function StripEnd(s: string): (r: string)
    ensures r == "" || !IsSpace(r[|r| - 1])
  {
    if s != "" && IsSpace(s[|s| - 1]) then StripEnd(s[..|s| - 1]) else s
  }

  function Strip(s: string): string {
    StripEnd(StripStart(s))
  }

  /** Every maximal run of white space becomes one space. */
  function Collapse(s: string): string
    decreases |s|
  {
    if s == "" then ""
    else if IsSpace(s[0]) then " " + Collapse(StripStart(s[1..]))
    else [s[0]] + Collapse(s[1..])
  }

  function Normalize(text: string): string {
    Strip(Collapse(text))
  }

  // Normalizing is joining the words by single spaces.

  function WordLen(s: string): (n: nat)
    ensures n <= |s|
    ensures forall i :: 0 <= i < n ==> !IsSpace(s[i])
    ensures n < |s| ==> IsSpace(s[n])
  {
    if s == "" || IsSpace(s[0]) then 0 else 1 + WordLen(s[1..])
  }

  function Words(s: string): seq<string>
    decreases |s|
  {
    if s == "" then []
    else if IsSpace(s[0]) then Words(s[1..])
    else var n := WordLen(s); [s[..n]] + Words(s[n..])
  }

  predicate IsWord(w: string) {
    w != "" && forall i :: 0 <= i < |w| ==> !IsSpace(w[i])
  }

  predicate AllWords(words: seq<string>) {
    forall i :: 0 <= i < |words| ==> IsWord(words[i])
  }

  function Join(words: seq<string>): string {
    if words == [] then ""
    else if |words| == 1 then words[0]
    else words[0] + " " + Join(words[1..])
  }

  lemma {:induction false} WordsAreWords(s: string)
    ensures AllWords(Words(s))
    decreases |s|
  {
    if s != "" { WordsAreWords(if IsSpace(s[0]) then s[1..] else s[WordLen(s)..]); }
  }

  lemma {:induction false} WordsSkip(s: string)
    ensures Words(StripStart(s)) == Words(s)
  {
    if s != "" && IsSpace(s[0]) { WordsSkip(s[1..]); }
  }

  lemma {:induction false} CollapseWord(w: string, s: string)
    requires forall i :: 0 <= i < |w| ==> !IsSpace(w[i])
    ensures Collapse(w + s) == w + Collapse(s)
  {
    if w == "" {
      assert w + s == s;
    } else {
      assert (w + s)[1..] == w[1..] + s;
      CollapseWord(w[1..], s);
      assert w == [w[0]] + w[1..];
    }
  }

  function Tail(s: string): string {
    if s != "" && IsSpace(s[|s| - 1]) then " " else ""
  }

  lemma {:induction false} SkipTail(s: string)
    ensures StripStart(s) != "" ==> Tail(StripStart(s)) == Tail(s)
    ensures StripStart(s) == "" ==> s == "" || Tail(s) == " "
  {
    if s != "" && IsSpace(s[0]) { SkipTail(s[1..]); }
  }

  lemma Blank(s: string)
    requires s != "" && IsSpace(s[0])
    ensures var next := StripStart(s);
            && |next| < |s|
            && Words(s) == Words(next)
            && Collapse(s) == " " + Collapse(next)
            && Tail(s) == if next == "" then " " else Tail(next)
  {
    WordsSkip(s);
    SkipTail(s);
  }

  lemma {:induction false} WordLenOf(w: string, s: string)
    requires IsWord(w) && (s == "" || IsSpace(s[0]))
    ensures WordLen(w + s) == |w|
  {
    assert (w + s)[1..] == w[1..] + s;
    if |w| == 1 {
      assert w[1..] + s == s;
    } else {
      WordLenOf(w[1..], s);
    }
  }

  lemma WordThen(w: string, s: string)
    requires IsWord(w) && (s == "" || IsSpace(s[0]))
    ensures Words(w + s) == [w] + Words(s) && Collapse(w + s) == w + Collapse(s)
  {
    WordLenOf(w, s);
    assert (w + s)[..|w|] == w && (w + s)[|w|..] == s;
    CollapseWord(w, s);
  }

  lemma {:induction false} CollapseIsJoin(s: string)
    requires s == "" || !IsSpace(s[0])
    ensures Collapse(s) == Join(Words(s)) + Tail(s)
    decreases |s|
  {
    if s != "" {
      var n := WordLen(s);
      var w, rest := s[..n], s[n..];
      assert s == w + rest;
      WordThen(w, rest);
      JoinTwo(w, Words(rest));
      if rest == "" {
        assert s[|s| - 1] == w[n - 1];
      } else {
        assert s[|s| - 1] == rest[|rest| - 1];
        var next := StripStart(rest);
        Blank(rest);
        CollapseIsJoin(next);
        SomeWord(next);
        Spaced(w, Join(Words(next)), Tail(next));
      }
    }
  }

  lemma SomeWord(s: string)
    requires s == "" || !IsSpace(s[0])
    ensures Words(s) == [] <==> s == ""
  {
  }

  lemma Spaced(w: string, j: string, tail: string)
    ensures w + (" " + (j + tail)) == w + " " + j + tail
    ensures w + (" " + "") == w + " "
  {
  }

  lemma JoinTwo(w: string, words: seq<string>)
    ensures Join([w] + words) == if words == [] then w else w + " " + Join(words)
  {
    assert ([w] + words)[1..] == words;
  }

  lemma {:induction false} JoinNormal(words: seq<string>)
    requires AllWords(words)
    ensures Normal(Join(words))
    ensures Join(words) == "" <==> words == []
  {
    if |words| > 1 {
      JoinNormal(words[1..]);
      var rest := Join(words[1..]);
      assert words[0] != "" && IsWord(words[1]);
      assert rest != "";
      var t := Join(words);
      forall i | 0 <= i < |t| && IsSpace(t[i]) ensures t[i] == ' ' && 0 < i < |t| - 1 && !IsSpace(t[i + 1]) {
        if i > |words[0]| { assert t[i] == rest[i - |words[0]| - 1]; }
      }
    } else if |words| == 1 {
      assert IsWord(words[0]);
    }
  }

  /** Only single spaces, none at either end. */
  ghost predicate Normal(t: string) {
    forall i :: 0 <= i < |t| && IsSpace(t[i]) ==> t[i] == ' ' && 0 < i < |t| - 1 && !IsSpace(t[i + 1])
  }

  /** The normalized text is the text's words joined by single spaces. */
  lemma NormalizeIsJoin(text: string)
    ensures Normalize(text) == Join(Words(text))
    ensures Normal(Normalize(text))
    ensures Normalize(text) == "" <==> Words(text) == []
  {
    var s, j := StripStart(text), Join(Words(text));
    WordsSkip(text);
    WordsAreWords(text);
    JoinNormal(Words(text));
    CollapseIsJoin(s);
    assert StripStart(Collapse(text)) == Collapse(s) by {
      if text != "" && IsSpace(text[0]) {
        Blank(text);
        assert (" " + Collapse(s))[1..] == Collapse(s);
      }
    }
    assert Collapse(s) == j + Tail(s);
    StripTail(j, Tail(s));
  }

  lemma StripTail(j: string, tail: string)
    requires Normal(j) && tail in {"", " "}
    ensures StripEnd(j + tail) == j
  {
    assert StripEnd(j) == j;
    if tail == " " {
      assert (j + tail)[..|j|] == j;
    } else {
      assert j + tail == j;
    }
  }

  lemma {:induction false} WordsOfJoin(words: seq<string>)
    requires AllWords(words)
    ensures Words(Join(words)) == words
  {
    if words != [] {
      var w, rest := words[0], words[1..];
      assert IsWord(w) && words == [w] + rest;
      WordsOfJoin(rest);
      JoinTwo(w, rest);
      if rest == [] {
        WordThen(w, "");
        assert w + "" == w;
      } else {
        var s := " " + Join(rest);
        WordThen(w, s);
        assert s[1..] == Join(rest) && w + " " + Join(rest) == w + s;
      }
    }
  }

  /** Normalizing loses no word, and normalizing again changes nothing. */
  lemma NormalizeKeepsWords(text: string)
    ensures Words(Normalize(text)) == Words(text)
    ensures Normalize(Normalize(text)) == Normalize(text)
  {
    WordsAreWords(text);
    NormalizeIsJoin(text);
    WordsOfJoin(Words(text));
    NormalizeIsJoin(Normalize(text));
  }

  // -------------------------------------------------------------------------------- windows

  datatype Window = Window(lo: nat, hi: nat)

  /** `rfind(" ", lo, hi)`. */
  function LastSpace(t: string, lo: nat, hi: nat): (k: int)
    requires lo <= hi <= |t|
    ensures k == -1 || (lo <= k < hi && t[k] == ' ')
    ensures forall i | lo <= i < hi && t[i] == ' ' :: i <= k
    decreases hi
  {
    if lo == hi then -1 else if t[hi - 1] == ' ' then hi - 1 else LastSpace(t, lo, hi - 1)
  }

  function WindowEnd(t: string, lo: nat, size: nat): (hi: nat)
    requires lo < |t|
    ensures lo <= hi <= |t| && hi <= lo + size
    ensures size > 0 ==> lo < hi
  {
    if lo + size < |t| then
      var boundary := LastSpace(t, lo, lo + size);
      if boundary > lo then boundary else lo + size
    else |t|
  }

  function NextStart(lo: nat, hi: nat, overlap: nat): nat {
    if hi - overlap > lo + 1 then hi - overlap else lo + 1
  }

  predicate Inside(t: string, ws: seq<Window>) {
    forall i :: 0 <= i < |ws| ==> ws[i].lo <= ws[i].hi <= |t| && ws[i].lo < |t|
  }

  function Windows(t: string, size: nat, overlap: nat, lo: nat): (ws: seq<Window>)
    ensures Inside(t, ws)
    ensures lo < |t| ==> ws != [] && ws[0].lo == lo
    decreases |t| - lo
  {
    if lo >= |t| then []
    else
      var hi := WindowEnd(t, lo, size);
      [Window(lo, hi)] + if hi == |t| then [] else Windows(t, size, overlap, NextStart(lo, hi, overlap))
  }

  function ChunksFrom(t: string, size: nat, overlap: nat, lo: nat): seq<string>
    decreases |t| - lo
  {
    if lo >= |t| then []
    else
      var hi := WindowEnd(t, lo, size);
      [Strip(t[lo..hi])] + if hi == |t| then [] else ChunksFrom(t, size, overlap, NextStart(lo, hi, overlap))
  }

  function Chunks(text: string, size: nat, overlap: nat): seq<string> {
    ChunksFrom(Normalize(text), size, overlap, 0)
  }

  lemma ChunksStep(t: string, size: nat, overlap: nat, lo: nat, hi: nat, following: nat, rest: seq<string>)
    returns (next: seq<string>)
    requires lo < |t| && hi == WindowEnd(t, lo, size) && following == NextStart(lo, hi, overlap)
    requires rest == ChunksFrom(t, size, overlap, lo)
    ensures if hi == |t| then next == [] else next == ChunksFrom(t, size, overlap, following)
    ensures rest == [Strip(t[lo..hi])] + next
  {
    next := if hi == |t| then [] else ChunksFrom(t, size, overlap, following);
  }

  lemma Regroup(done: seq<string>, piece: string, rest: seq<string>)
    ensures done + ([piece] + rest) == done + [piece] + rest
  {
  }

  method ChunkText(text: string, size: nat, overlap: nat) returns (chunks: seq<string>)
    ensures chunks == Chunks(text, size, overlap)
  {
    var normalized := Normalize(text);
    ghost var all := ChunksFrom(normalized, size, overlap, 0);
    ghost var rest := all;
    chunks := [];
    if normalized == "" {
      return;
    }
    var start := 0;
    while start < |normalized|
      invariant rest == ChunksFrom(normalized, size, overlap, start) && chunks + rest == all
      decreases |normalized| - start
    {
      var end := if start + size < |normalized| then start + size else |normalized|;
      if end < |normalized| {
        var boundary := LastSpace(normalized, start, end);
        if boundary > start {
          end := boundary;
        }
      }
      var piece := Strip(normalized[start..end]);
      var following := if end - overlap > start + 1 then end - overlap else start + 1;
      ghost var next := ChunksStep(normalized, size, overlap, start, end, following, rest);
      Regroup(chunks, piece, next);
      chunks, rest := chunks + [piece], next;
      if end == |normalized| {
        return;
      }
      start := following;
    }
  }

  // ------------------------------------------------------------------ what the windows cover

  /** A later window never ends earlier. */
  lemma EndMonotone(t: string, a: nat, b: nat, size: nat)
    requires a <= b < |t|
    ensures WindowEnd(t, a, size) <= WindowEnd(t, b, size)
  {
  }

  /** A window is non-empty and at most `size` long. */
  predicate Fits(t: string, size: nat, w: Window) {
    w.lo < w.hi <= |t| && w.hi <= w.lo + size && w.hi == WindowEnd(t, w.lo, size)
  }

  /** The next window leaves no gap and starts at the larger of the next character and the place
      `overlap` characters before the end. */
  predicate Follows(a: Window, b: Window, overlap: nat) {
    && a.lo + 1 <= b.lo <= a.hi <= b.hi && a.hi - overlap <= b.lo
    && (b.lo == a.lo + 1 || b.lo == a.hi - overlap)
  }

  ghost predicate Tiles(t: string, size: nat, overlap: nat, ws: seq<Window>) {
    && (forall i :: 0 <= i < |ws| ==> Fits(t, size, ws[i]))
    && (forall i :: 0 < i < |ws| ==> Follows(ws[i - 1], ws[i], overlap))
  }

  lemma TilesCons(t: string, size: nat, overlap: nat, w: Window, ws: seq<Window>)
    requires Tiles(t, size, overlap, ws) && Fits(t, size, w) && (ws != [] ==> Follows(w, ws[0], overlap))
    ensures Tiles(t, size, overlap, [w] + ws)
  {
    var all := [w] + ws;
    forall i | 0 < i < |all| ensures Follows(all[i - 1], all[i], overlap) {
      assert i > 1 ==> Follows(ws[i - 2], ws[i - 1], overlap);
    }
  }

  /** The windows cover the text from `lo` to its end. */
  lemma {:induction false} WindowsTile(t: string, size: nat, overlap: nat, lo: nat)
    requires size > 0 && lo < |t|
    ensures var ws := Windows(t, size, overlap, lo);
            Tiles(t, size, overlap, ws) && ws[0].lo == lo && ws[|ws| - 1].hi == |t|
    decreases |t| - lo
  {
    var hi := WindowEnd(t, lo, size);
    if hi < |t| {
      var next := NextStart(lo, hi, overlap);
      WindowsTile(t, size, overlap, next);
      EndMonotone(t, lo, next, size);
      TilesCons(t, size, overlap, Window(lo, hi), Windows(t, size, overlap, next));
    }
  }

  predicate SpaceWithin(t: string, lo: nat, hi: nat) {
    exists k :: lo < k < hi && k < |t| && t[k] == ' '
  }

  /** The window could not have reached the end of the text. It ends at the last space after its
      first character within `size` characters, and inside a word only if there is no such space. */
  predicate BreaksAtSpace(t: string, size: nat, w: Window) {
    && w.lo < w.hi < |t| && w.lo + size < |t|
    && if SpaceWithin(t, w.lo, w.lo + size) then t[w.hi] == ' ' && !SpaceWithin(t, w.hi, w.lo + size)
       else w.hi == w.lo + size
  }

  predicate AllButLastBreak(t: string, size: nat, ws: seq<Window>) {
    forall i :: 0 <= i < |ws| - 1 ==> BreaksAtSpace(t, size, ws[i])
  }

  /** So does every window but the last. */
  lemma {:induction false} WindowsBreakAtSpaces(t: string, size: nat, overlap: nat, lo: nat)
    requires size > 0
    ensures AllButLastBreak(t, size, Windows(t, size, overlap, lo))
    decreases |t| - lo
  {
    if lo < |t| {
      var hi := WindowEnd(t, lo, size);
      if hi < |t| {
        EndBreaks(t, lo, size);
        var next := NextStart(lo, hi, overlap);
        WindowsBreakAtSpaces(t, size, overlap, next);
        BreaksCons(t, size, Window(lo, hi), Windows(t, size, overlap, next));
      }
    }
  }

  lemma BreaksCons(t: string, size: nat, w: Window, ws: seq<Window>)
    requires AllButLastBreak(t, size, ws) && BreaksAtSpace(t, size, w)
    ensures AllButLastBreak(t, size, [w] + ws)
  {
    var all := [w] + ws;
    forall i | 0 <= i < |all| - 1 ensures BreaksAtSpace(t, size, all[i]) {
      assert i > 0 ==> all[i] == ws[i - 1];
    }
  }

  lemma EndBreaks(t: string, lo: nat, size: nat)
    requires size > 0 && lo < |t| && WindowEnd(t, lo, size) < |t|
    ensures BreaksAtSpace(t, size, Window(lo, WindowEnd(t, lo, size)))
  {
    var full, hi := lo + size, WindowEnd(t, lo, size);
    var boundary := LastSpace(t, lo, full);
    if SpaceWithin(t, lo, full) {
      var k :| lo < k < full && k < |t| && t[k] == ' ';
      assert boundary >= k;
    }
  }

  /** The windows put back together, each without what it shares with the one before. */
  function Rebuilt(t: string, ws: seq<Window>): string
    requires Inside(t, ws)
    requires forall i :: 0 < i < |ws| ==> ws[i].lo <= ws[i - 1].hi <= ws[i].hi
  {
    if ws == [] then ""
    else if |ws| == 1 then t[ws[0].lo..ws[0].hi]
    else
      var n := |ws| - 1;
      Rebuilt(t, ws[..n]) + t[ws[n].lo..ws[n].hi][ws[n - 1].hi - ws[n].lo..]
  }

  lemma {:induction false} RebuiltIsSlice(t: string, size: nat, overlap: nat, ws: seq<Window>)
    requires Inside(t, ws) && Tiles(t, size, overlap, ws) && ws != []
    ensures ws[0].lo <= ws[|ws| - 1].hi && Rebuilt(t, ws) == t[ws[0].lo..ws[|ws| - 1].hi]
  {
    if |ws| > 1 {
      var n := |ws| - 1;
      RebuiltIsSlice(t, size, overlap, ws[..n]);
      assert Follows(ws[n - 1], ws[n], overlap);
      Glue(t, ws[0].lo, ws[n].lo, ws[n - 1].hi, ws[n].hi);
    }
  }

  lemma Glue(t: string, a: nat, b: nat, mid: nat, c: nat)
    requires a <= mid <= c <= |t| && b <= mid
    ensures t[a..mid] + t[b..c][mid - b..] == t[a..c]
  {
    assert t[b..c][mid - b..] == t[mid..c];
  }

  /** Dropping the overlaps gives back the normalized text: nothing is lost or repeated. */
  lemma WindowsRebuildText(t: string, size: nat, overlap: nat)
    requires size > 0 && t != ""
    ensures var ws := Windows(t, size, overlap, 0);
            Tiles(t, size, overlap, ws) && Rebuilt(t, ws) == t
  {
    WindowsTile(t, size, overlap, 0);
    RebuiltIsSlice(t, size, overlap, Windows(t, size, overlap, 0));
    assert t[0..|t|] == t;
  }

  // -------------------------------------------------------------------- chunks and windows

  lemma StripWhole(s: string)
    requires s != "" && !IsSpace(s[|s| - 1]) && (IsSpace(s[0]) ==> |s| > 1 && !IsSpace(s[1]))
    ensures Strip(s) == if IsSpace(s[0]) then s[1..] else s
  {
    assert IsSpace(s[0]) ==> s[1..] != "" && s[1..][0] == s[1];
  }

  /** What a chunk is: its window without one leading space. */
  function Unspaced(t: string, w: Window): string
    requires w.lo < w.hi <= |t|
  {
    t[w.lo + (if t[w.lo] == ' ' then 1 else 0)..w.hi]
  }

  predicate GoodChunk(chunk: string, size: nat) {
    0 < |chunk| <= size && !IsSpace(chunk[0]) && !IsSpace(chunk[|chunk| - 1])
  }

  predicate Matching(t: string, size: nat, ws: seq<Window>, chunks: seq<string>) {
    && |chunks| == |ws|
    && forall i :: 0 <= i < |ws| ==>
         ws[i].lo < ws[i].hi <= |t| && chunks[i] == Unspaced(t, ws[i]) && GoodChunk(chunks[i], size)
  }

  lemma {:induction false} ChunksFromWindows(t: string, size: nat, overlap: nat, lo: nat)
    requires Normal(t) && size > 1
    ensures Matching(t, size, Windows(t, size, overlap, lo), ChunksFrom(t, size, overlap, lo))
    decreases |t| - lo
  {
    if lo < |t| {
      var hi := WindowEnd(t, lo, size);
      var w, chunk := Window(lo, hi), Strip(t[lo..hi]);
      WindowStrips(t, lo, size);
      ChunksCons(t, size, overlap, lo, hi);
      if hi < |t| {
        var next := NextStart(lo, hi, overlap);
        ChunksFromWindows(t, size, overlap, next);
        MatchingCons(t, size, w, chunk, Windows(t, size, overlap, next), ChunksFrom(t, size, overlap, next));
      } else {
        MatchingCons(t, size, w, chunk, [], []);
      }
    }
  }

  lemma MatchingCons(t: string, size: nat, w: Window, chunk: string, ws: seq<Window>, chunks: seq<string>)
    requires Matching(t, size, ws, chunks)
    requires w.lo < w.hi <= |t| && chunk == Unspaced(t, w) && GoodChunk(chunk, size)
    ensures Matching(t, size, [w] + ws, [chunk] + chunks)
  {
  }

  /** Every chunk is its window without one leading space: non-empty, at most `size` long and
      free of outer white space. There is none exactly when the text has no word. */
  lemma ChunksAreWindows(text: string, size: nat, overlap: nat)
    requires size > 1
    ensures var t := Normalize(text);
            var ws, chunks := Windows(t, size, overlap, 0), Chunks(text, size, overlap);
            (chunks == [] <==> Words(text) == []) && Matching(t, size, ws, chunks)
  {
    NormalizeIsJoin(text);
    ChunksFromWindows(Normalize(text), size, overlap, 0);
  }

  lemma WindowStrips(t: string, lo: nat, size: nat)
    requires Normal(t) && lo < |t| && size > 1
    ensures var hi := WindowEnd(t, lo, size);
            var s := Strip(t[lo..hi]);
            lo < hi && s == Unspaced(t, Window(lo, hi)) && GoodChunk(s, size)
  {
    var hi := WindowEnd(t, lo, size);
    var s := t[lo..hi];
    assert !IsSpace(t[hi - 1]) && (IsSpace(t[lo]) ==> hi > lo + 1 && !IsSpace(t[lo + 1])) by {
      assert hi < |t| && hi == lo + size ==> t[hi - 1] != ' ';
      assert hi < |t| && t[hi] == ' ' ==> !IsSpace(t[hi - 1]);
    }
    assert s[|s| - 1] == t[hi - 1];
    StripWhole(s);
    assert IsSpace(t[lo]) <==> t[lo] == ' ';
    assert t[lo] == ' ' ==> s[1..] == t[lo + 1..hi];
  }

  /** With windows of one character a chunk can be empty: `size >= 2` is needed above. */
  lemma SingleCharacterWindows()
    ensures Chunks("a b", 1, 0) == ["a", "", "b"]
  {
    ThreeCharacters();
    Blanks();
    var t := "a b";
    assert t[0..1] == "a" && t[1..2] == " " && t[2..3] == "b";
    assert LastSpace(t, 0, 1) == -1 && LastSpace(t, 1, 2) == 1;
    ChunksCons(t, 1, 0, 2, 3);
    ChunksCons(t, 1, 0, 1, 2);
    ChunksCons(t, 1, 0, 0, 1);
  }

  lemma ChunksCons(t: string, size: nat, overlap: nat, lo: nat, hi: nat)
    requires lo < |t| && hi == WindowEnd(t, lo, size)
    ensures ChunksFrom(t, size, overlap, lo)
            == [Strip(t[lo..hi])] + if hi == |t| then [] else ChunksFrom(t, size, overlap, NextStart(lo, hi, overlap))
  {
  }

  lemma Blanks()
    ensures Strip("a") == "a" && Strip("b") == "b" && Strip(" ") == ""
  {
    assert !IsSpace('a') && !IsSpace('b');
    assert StripStart(" ") == "" by { assert " "[1..] == ""; }
  }

  lemma ThreeCharacters()
    ensures Normalize("a b") == "a b"
  {
    TwoWords("a", "b");
    JoinTwo("a", ["b"]);
    NormalizeIsJoin("a b");
  }

  lemma TwoWords(v: string, w: string)
    requires v == "a" && w == "b"
    ensures Words("a b") == [v, w]
  {
    assert !IsSpace('a') && !IsSpace('b');
    var tail := " " + w;
    assert "a b" == v + tail && tail[1..] == w + "";
    WordThen(v, tail);
    WordThen(w, "");
  }
}
