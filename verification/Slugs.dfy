/**
 * Workspace slugs (apps/web/lib/onboarding.ts) and the query that narrows the search for a free
 * one (apps/web/app/onboarding/actions.ts).
 */
module Slugs {
  import opened Sets

  // ------------------------------------------------------------------------------- slugify

  predicate Plain(c: char) {
    'a' <= c <= 'z' || '0' <= c <= '9'
  }

  /** Every maximal run of other characters becomes one dash. */
  function Dashed(s: string): string
    decreases |s|
  {
    if s == "" then ""
    else if Plain(s[0]) then [s[0]] + Dashed(s[1..])
    else "-" + Dashed(SkipOthers(s[1..]))
  }

  function SkipOthers(s: string): (r: string)
    ensures |r| <= |s|
    ensures r != "" ==> Plain(r[0])
  {
    if s != "" && !Plain(s[0]) then SkipOthers(s[1..]) else s
  }

  function Undash(s: string): string {
    var t := if s != "" && s[0] == '-' then s[1..] else s;
    if t != "" && t[|t| - 1] == '-' then t[..|t| - 1] else t
  }

  /** From the decomposed, lower-cased name without combining marks. */
  function Slugify(lowered: string): string {
    var s := Undash(Dashed(lowered));
    var cut := if |s| <= 48 then s else s[..48];
    if cut == "" then "workspace" else cut
  }

  predicate SlugChars(s: string) {
    forall i :: 0 <= i < |s| ==> Plain(s[i]) || s[i] == '-'
  }

  predicate SingleDashes(s: string) {
    forall i :: 0 <= i < |s| - 1 && s[i] == '-' ==> s[i + 1] != '-'
  }

  lemma {:induction false} DashedShape(s: string)
    ensures SlugChars(Dashed(s)) && SingleDashes(Dashed(s))
    decreases |s|
  {
    if s != "" {
      if Plain(s[0]) {
        DashedShape(s[1..]);
      } else {
        var rest := SkipOthers(s[1..]);
        DashedShape(rest);
        assert rest != "" ==> Dashed(rest)[0] == rest[0];
      }
    }
  }

  /** A slug is non-empty, has at most 48 characters, all letters, digits or single dashes, and
      does not start with a dash; so it holds no wildcard of the query. */
  lemma SlugShape(lowered: string)
    ensures var s := Slugify(lowered); 0 < |s| <= 48 && SlugChars(s) && SingleDashes(s) && s[0] != '-'
    ensures var s := Slugify(lowered); forall i :: 0 <= i < |s| ==> s[i] != '%' && s[i] != '_'
  {
    DashedShape(lowered);
    UndashShape(Dashed(lowered));
  }

  lemma UndashShape(d: string)
    requires SlugChars(d) && SingleDashes(d)
    ensures var u := Undash(d); SlugChars(u) && SingleDashes(u) && (u != "" ==> u[0] != '-')
  {
    assert |d| > 1 && d[0] == '-' ==> d[1] != '-';
  }

  // The slug is the words of the name joined by dashes, and cut.

  function WordLen(s: string): (n: nat)
    ensures n <= |s|
    ensures forall i :: 0 <= i < n ==> Plain(s[i])
    ensures n < |s| ==> !Plain(s[n])
  {
    if s == "" || !Plain(s[0]) then 0 else 1 + WordLen(s[1..])
  }

  /** The maximal runs of letters and digits. */
  function Words(s: string): seq<string>
    decreases |s|
  {
    if s == "" then []
    else if !Plain(s[0]) then Words(s[1..])
    else [s[..WordLen(s)]] + Words(s[WordLen(s)..])
  }

  function JoinDashes(words: seq<string>): string {
    if words == [] then "" else if |words| == 1 then words[0] else words[0] + "-" + JoinDashes(words[1..])
  }

  predicate IsWord(w: string) {
    w != "" && forall i :: 0 <= i < |w| ==> Plain(w[i])
  }

  lemma {:induction false} WordsAreWords(s: string)
    ensures forall i :: 0 <= i < |Words(s)| ==> IsWord(Words(s)[i])
    decreases |s|
  {
    if s != "" { WordsAreWords(if Plain(s[0]) then s[WordLen(s)..] else s[1..]); }
  }

  lemma {:induction false} WordsSkip(s: string)
    ensures Words(SkipOthers(s)) == Words(s)
  {
    if s != "" && !Plain(s[0]) { WordsSkip(s[1..]); }
  }

  lemma {:induction false} DashedWord(w: string, s: string)
    requires forall i :: 0 <= i < |w| ==> Plain(w[i])
    ensures Dashed(w + s) == w + Dashed(s)
  {
    if w == "" {
      assert w + s == s;
    } else {
      assert (w + s)[1..] == w[1..] + s;
      DashedWord(w[1..], s);
      assert w == [w[0]] + w[1..];
    }
  }

  /** A dash in front when the text starts with other characters, one at the end when it ends so. */
  function Front(s: string): string {
    if s != "" && !Plain(s[0]) then "-" else ""
  }

  function Back(s: string): string {
    if s != "" && !Plain(s[|s| - 1]) then "-" else ""
  }

  lemma {:induction false} DashedIsJoin(s: string)
    ensures Words(s) != [] ==> Dashed(s) == Front(s) + JoinDashes(Words(s)) + Back(s)
    ensures Words(s) == [] ==> Dashed(s) == Front(s)
    decreases |s|
  {
    if s == "" {
    } else if !Plain(s[0]) {
      OthersDashed(s);
    } else {
      WordDashed(s);
    }
  }

  lemma {:induction false} OthersDashed(s: string)
    requires s != "" && !Plain(s[0])
    ensures Words(s) != [] ==> Dashed(s) == "-" + JoinDashes(Words(s)) + Back(s)
    ensures Words(s) == [] ==> Dashed(s) == "-"
    decreases |s|, 0
  {
    var rest := AfterOthers(s);
    if rest != "" {
      DashedIsJoin(rest);
      Prefixed(Dashed(s), Dashed(rest), JoinDashes(Words(rest)), Back(rest));
    }
  }

  lemma Prefixed(all: string, rest: string, j: string, b: string)
    requires all == "-" + rest
    ensures rest == "" + j + b ==> all == "-" + j + b
  {
  }

  /** What follows the other characters at the start. */
  lemma AfterOthers(s: string) returns (rest: string)
    requires s != "" && !Plain(s[0])
    ensures |rest| < |s| && Dashed(s) == "-" + Dashed(rest) && Words(rest) == Words(s)
    ensures rest == "" ==> Dashed(rest) == ""
    ensures rest != "" ==> Front(rest) == "" && Back(rest) == Back(s) && Words(rest) != []
  {
    rest := SkipOthers(s[1..]);
    WordsSkip(s[1..]);
    SkipIsSuffix(s[1..]);
    if rest != "" { assert rest[|rest| - 1] == s[|s| - 1]; }
  }

  lemma {:induction false} SkipIsSuffix(s: string)
    ensures SkipOthers(s) == s[|s| - |SkipOthers(s)|..]
  {
    if s != "" && !Plain(s[0]) {
      SkipIsSuffix(s[1..]);
      assert s[1..][|s| - 1 - |SkipOthers(s)|..] == s[|s| - |SkipOthers(s)|..];
    }
  }

  lemma {:induction false} WordDashed(s: string)
    requires s != "" && Plain(s[0])
    ensures Words(s) != [] && Dashed(s) == JoinDashes(Words(s)) + Back(s)
    decreases |s|, 0
  {
    var n := WordLen(s);
    var w, rest := s[..n], s[n..];
    assert s == w + rest;
    DashedWord(w, rest);
    if rest == "" {
      assert Words(s) == [w] && Dashed(rest) == "";
    } else {
      OthersDashed(rest);
      var more := Words(rest);
      assert Words(s) == [w] + more && Back(s) == Back(rest);
      if more == [] {
        assert Back(rest) == "-" by { NoWordsNoPlain(rest); }
        assert JoinDashes([w]) == w;
      } else {
        assert ([w] + more)[1..] == more;
        assert w + ("-" + JoinDashes(more) + Back(rest)) == w + "-" + JoinDashes(more) + Back(rest);
      }
    }
  }

  lemma {:induction false} NoWordsNoPlain(s: string)
    requires Words(s) == []
    ensures forall i :: 0 <= i < |s| ==> !Plain(s[i])
  {
    if s != "" {
      assert !Plain(s[0]);
      NoWordsNoPlain(s[1..]);
      assert forall i :: 0 < i < |s| ==> s[i] == s[1..][i - 1];
    }
  }

  lemma {:induction false} JoinEnds(words: seq<string>)
    requires words != [] && forall i :: 0 <= i < |words| ==> IsWord(words[i])
    ensures var j := JoinDashes(words); j != "" && j[0] != '-' && j[|j| - 1] != '-'
  {
    if |words| > 1 {
      assert forall i :: 0 <= i < |words| - 1 ==> words[1..][i] == words[i + 1];
      JoinEnds(words[1..]);
    }
  }

  /** The slug of a name: its words joined by dashes, of that the first 48 characters, and
      "workspace" for a name without letters and digits. */
  lemma SlugIsJoin(lowered: string)
    ensures var joined := JoinDashes(Words(lowered));
            Slugify(lowered) == if Words(lowered) == [] then "workspace"
                                else if |joined| <= 48 then joined else joined[..48]
  {
    UndashedIsJoin(lowered);
  }

  lemma UndashedIsJoin(s: string)
    ensures Undash(Dashed(s)) == JoinDashes(Words(s))
    ensures Words(s) != [] ==> JoinDashes(Words(s)) != ""
  {
    DashedIsJoin(s);
    if Words(s) != [] {
      WordsAreWords(s);
      JoinEnds(Words(s));
      UndashJoined(Front(s), JoinDashes(Words(s)), Back(s));
    }
  }

  lemma UndashJoined(a: string, j: string, b: string)
    requires a in {"", "-"} && b in {"", "-"} && j != "" && j[0] != '-' && j[|j| - 1] != '-'
    ensures Undash(a + j + b) == j
  {
    var whole := a + j + b;
    var t := if whole[0] == '-' then whole[1..] else whole;
    assert t == j + b;
  }

  // ------------------------------------------------------------------------------- decimals

  function Decimal(n: nat): (s: string)
    ensures |s| > 0
  {
    if n < 10 then [Digit(n)] else Decimal(n / 10) + [Digit(n % 10)]
  }

  function Digit(d: nat): char
    requires d < 10
  {
    '0' + d as char
  }

  function Parse(s: string): int {
    if s == "" then 0 else Parse(s[..|s| - 1]) * 10 + (s[|s| - 1] as int - '0' as int)
  }

  lemma {:induction false} ParseDecimal(n: nat)
    ensures Parse(Decimal(n)) == n
  {
    if n >= 10 {
      ParseDecimal(n / 10);
      assert Decimal(n)[..|Decimal(n)| - 1] == Decimal(n / 10);
    } else {
      assert Parse("") == 0;
    }
  }

  /** The slugs tried, in order: the base, then the base with suffixes 2, 3, ... */
  function Candidate(base: string, k: nat): string {
    if k == 0 then base else base + "-" + Decimal(k + 1)
  }

  /** The first candidate is the base; the k-th after it ends in a dash and the number k + 1. */
  lemma CandidateIs(base: string, k: nat)
    ensures Candidate(base, 0) == base
    ensures k > 0 ==> Candidate(base, k)[..|base|] == base && |Candidate(base, k)| > |base| + 1
    ensures k > 0 ==> Candidate(base, k)[|base|] == '-' && IsNumeral(Candidate(base, k)[|base| + 1..], k + 1)
  {
    if k > 0 {
      ParseDecimal(k + 1);
      DecimalDigits(k + 1);
      assert Candidate(base, k)[|base| + 1..] == Decimal(k + 1);
    }
  }

  /** Digits without leading zero that write down the number. */
  predicate IsNumeral(s: string, n: nat) {
    s != "" && s[0] != '0' && (forall i :: 0 <= i < |s| ==> '0' <= s[i] <= '9') && Parse(s) == n
  }

  lemma {:induction false} DecimalDigits(n: nat)
    ensures forall i :: 0 <= i < |Decimal(n)| ==> '0' <= Decimal(n)[i] <= '9'
    ensures n > 0 ==> Decimal(n)[0] != '0'
  {
    if n >= 10 { DecimalDigits(n / 10); }
  }

  lemma CandidateInjective(base: string, j: nat, k: nat)
    requires Candidate(base, j) == Candidate(base, k)
    ensures j == k
  {
    if j > 0 && k > 0 {
      var n := |base| + 1;
      assert Candidate(base, j)[n..] == Decimal(j + 1) && Candidate(base, k)[n..] == Decimal(k + 1);
      ParseDecimal(j + 1);
      ParseDecimal(k + 1);
    }
  }

  // ----------------------------------------------------------------------------- the search

  ghost predicate AllTaken(base: string, used: set<string>, k: nat) {
    forall j: nat :: j < k ==> Candidate(base, j) in used
  }

  /** The first candidate that is not used, and its place. */
  ghost predicate IsFirstFree(base: string, used: set<string>, k: nat) {
    Candidate(base, k) !in used && AllTaken(base, used, k)
  }

  function Tried(base: string, k: nat): set<string> {
    if k == 0 then {} else Tried(base, k - 1) + {Candidate(base, k - 1)}
  }

  /** Different suffixes are different slugs, so k taken candidates need k used slugs. */
  lemma {:induction false} Pigeonhole(base: string, used: set<string>, k: nat)
    requires AllTaken(base, used, k)
    ensures Tried(base, k) <= used && |Tried(base, k)| == k
    ensures forall s :: s in Tried(base, k) ==> exists j: nat :: j < k && s == Candidate(base, j)
  {
    if k > 0 {
      Pigeonhole(base, used, k - 1);
      if Candidate(base, k - 1) in Tried(base, k - 1) {
        var j: nat :| j < k - 1 && Candidate(base, k - 1) == Candidate(base, j);
        CandidateInjective(base, j, k - 1);
      }
    }
  }

  lemma TakenAtMostUsed(base: string, used: set<string>, k: nat)
    requires AllTaken(base, used, k)
    ensures k <= |used|
  {
    Pigeonhole(base, used, k);
    SubsetSize(Tried(base, k), used);
  }

  /** The loop ends for every finite set of used slugs, with the first free candidate; its suffix
      is at most one more than the number of used slugs. */
  method AvailableWorkspaceSlug(base: string, used: set<string>) returns (slug: string, ghost place: nat)
    ensures slug == Candidate(base, place) && IsFirstFree(base, used, place)
    ensures slug !in used
    ensures place <= |used|
  {
    slug, place := base, 0;
    var suffix: nat := 2;
    while slug in used
      invariant suffix == place + 2 && slug == Candidate(base, place)
      invariant AllTaken(base, used, place) && place <= |used|
      decreases |used| - place
    {
      assert AllTaken(base, used, place + 1);
      TakenAtMostUsed(base, used, place + 1);
      slug := base + "-" + Decimal(suffix);
      suffix := suffix + 1;
      place := place + 1;
    }
  }

  predicate StartsWith(s: string, prefix: string) {
    |prefix| <= |s| && s[..|prefix|] == prefix
  }

  /** What `LIKE base || '%'` selects, for a base without wildcards. */
  function Matching(base: string, used: set<string>): set<string> {
    set s | s in used && StartsWith(s, base)
  }

  lemma CandidateMatches(base: string, k: nat)
    ensures StartsWith(Candidate(base, k), base)
  {
  }

  /** Searching among the slugs that start with the base gives the same answer as searching among
      all of them, and so a slug free of all of them. */
  lemma PrefixSuffices(base: string, used: set<string>, k: nat)
    ensures IsFirstFree(base, Matching(base, used), k) <==> IsFirstFree(base, used, k)
  {
    forall j: nat ensures Candidate(base, j) in Matching(base, used) <==> Candidate(base, j) in used {
      CandidateMatches(base, j);
    }
  }

  /** The two searches of a sign-up: the base from an empty set, then over the query's rows. */
  method SignUpSlug(lowered: string, tenants: set<string>) returns (slug: string)
    ensures slug !in tenants
    ensures exists k: nat :: k <= |tenants| && slug == Candidate(Slugify(lowered), k)
              && IsFirstFree(Slugify(lowered), tenants, k)
  {
    var base, _ := AvailableWorkspaceSlug(Slugify(lowered), {});
    ghost var place;
    slug, place := AvailableWorkspaceSlug(base, Matching(base, tenants));
    PrefixSuffices(base, tenants, place);
    TakenAtMostUsed(base, tenants, place);
  }
}
