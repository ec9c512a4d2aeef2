/**
 * What the operators, paths and number literals of the template language mean, as laws of
 * `resolve` on printed expressions.
 */
module ExprLaws {
  import opened Wrappers
  import opened JsText
  import opened Expr
  import opened ExprRoundTrip

  // ------------------------------------------------------------------------------- equalities

  predicate IsNullish(v: Value) {
    v == Null || v == Undefined
  }

  predicate IsNumeric(v: Value) {
    v.Number? || v.NotANumber? || v.Infinite?
  }

  predicate OneType(a: Value, b: Value) {
    || (a.Bool? && b.Bool?) || (a.Text? && b.Text?) || (a.Ref? && b.Ref?) || (IsNumeric(a) && IsNumeric(b))
    || (a.Null? && b.Null?) || (a.Undefined? && b.Undefined?)
  }

  /** What the text of an equality is. */
  ghost predicate IsEqualityText(whole: string, l: Tree, op: string, r: Tree) {
    whole == "(" + Print(l) + op + Print(r) + ")"
  }

  lemma EqualityResolves(h: Host, vals: Value, l: Tree, r: Tree, op: EqOp, whole: string, a: Value, b: Value)
    requires WellFormed(l) && WellFormed(r) && IsEqualityText(whole, l, OpText(op), r)
    requires a == Resolve(h, vals, Print(l)) && b == Resolve(h, vals, Print(r))
    ensures Resolve(h, vals, whole) == Bool(Compare(h, op, a, b))
  {
    PrintedEquality(whole, l, op, r);
    TreeResolves(h, vals, l, Print(l), a);
    TreeResolves(h, vals, r, Print(r), b);
    EqualityMeans(h, vals, l, r, op, a, b);
    TreeResolves(h, vals, Equality(op, l, r), whole, Resolve(h, vals, whole));
  }

  lemma PrintedEquality(whole: string, l: Tree, op: EqOp, r: Tree)
    requires IsEqualityText(whole, l, OpText(op), r)
    ensures Print(Equality(op, l, r)) == whole
  {
    Regrouped(Print(l), OpText(op), Print(r));
  }

  lemma Regrouped(a: string, o: string, b: string)
    ensures "(" + (a + (o + (b + ")"))) == "(" + a + o + b + ")"
  {
  }

  lemma TreeResolves(h: Host, vals: Value, t: Tree, text: string, v: Value)
    requires WellFormed(t) && text == Print(t) && v == Resolve(h, vals, text)
    ensures v == Meaning(h, vals, t)
  {
    RoundTrip(h, vals, t);
  }

  lemma EqualityMeans(h: Host, vals: Value, l: Tree, r: Tree, op: EqOp, a: Value, b: Value)
    requires WellFormed(l) && WellFormed(r) && a == Meaning(h, vals, l) && b == Meaning(h, vals, r)
    ensures WellFormed(Equality(op, l, r)) && Meaning(h, vals, Equality(op, l, r)) == Bool(Compare(h, op, a, b))
  {
  }

  /** One and the same value, and not NaN. */
  predicate IsSame(a: Value, b: Value) {
    a == b && a != NotANumber
  }

  lemma CompareStrictly(h: Host, a: Value, b: Value)
    ensures Compare(h, StrictEqual, a, b) <==> IsSame(a, b)
    ensures Compare(h, StrictUnequal, a, b) <==> !IsSame(a, b)
  {
  }

  lemma CompareLoosely(h: Host, a: Value, b: Value)
    ensures OneType(a, b) ==> (Compare(h, LooseEqual, a, b) <==> IsSame(a, b))
    ensures IsNullish(a) || IsNullish(b) ==> (Compare(h, LooseEqual, a, b) <==> IsNullish(a) && IsNullish(b))
    ensures !OneType(a, b) && !IsNullish(a) && !IsNullish(b) ==> (Compare(h, LooseEqual, a, b) <==> h.coerced(a, b))
    ensures Compare(h, LooseUnequal, a, b) <==> !Compare(h, LooseEqual, a, b)
  {
  }

  /** `===` is true exactly of one and the same value that is not NaN; `!==` is its opposite. */
  lemma StrictEquality(h: Host, vals: Value, l: Tree, r: Tree, equal: string, unequal: string)
    requires WellFormed(l) && WellFormed(r)
    requires IsEqualityText(equal, l, "===", r) && IsEqualityText(unequal, l, "!==", r)
    ensures var a, b := Resolve(h, vals, Print(l)), Resolve(h, vals, Print(r));
            && Resolve(h, vals, equal) == Bool(IsSame(a, b))
            && Resolve(h, vals, unequal) == Bool(!IsSame(a, b))
  {
    var a, b := Resolve(h, vals, Print(l)), Resolve(h, vals, Print(r));
    EqualityResolves(h, vals, l, r, StrictEqual, equal, a, b);
    EqualityResolves(h, vals, l, r, StrictUnequal, unequal, a, b);
    CompareStrictly(h, a, b);
  }

  /** `==` is `===` on values of one type; null and undefined are equal to each other and to
      nothing else; other mixed types are compared as the host converts them. `!=` is its
      opposite. */
  lemma LooseEquality(h: Host, vals: Value, l: Tree, r: Tree, equal: string, unequal: string)
      returns (a: Value, b: Value, e: bool)
    requires WellFormed(l) && WellFormed(r)
    requires IsEqualityText(equal, l, "==", r) && IsEqualityText(unequal, l, "!=", r)
    ensures a == Resolve(h, vals, Print(l)) && b == Resolve(h, vals, Print(r))
    ensures Resolve(h, vals, equal) == Bool(e) && Resolve(h, vals, unequal) == Bool(!e)
    ensures OneType(a, b) ==> e == IsSame(a, b)
    ensures IsNullish(a) || IsNullish(b) ==> e == (IsNullish(a) && IsNullish(b))
    ensures !OneType(a, b) && !IsNullish(a) && !IsNullish(b) ==> e == h.coerced(a, b)
  {
    a, b := Resolve(h, vals, Print(l)), Resolve(h, vals, Print(r));
    EqualityResolves(h, vals, l, r, LooseEqual, equal, a, b);
    EqualityResolves(h, vals, l, r, LooseUnequal, unequal, a, b);
    CompareLoosely(h, a, b);
    e := Compare(h, LooseEqual, a, b);
  }

  predicate IsFalsy(v: Value) {
    v == Undefined || v == Null || v == Bool(false) || v == Number(0.0) || v == NotANumber || v == Text("")
  }

  lemma FalsyExactly(v: Value)
    ensures Truthy(v) <==> !IsFalsy(v)
  {
  }

  /** `!` is true exactly of undefined, null, false, zero, NaN and the empty text. */
  lemma Negation(h: Host, vals: Value, t: Tree, negated: string)
    requires WellFormed(t) && negated == "!" + Print(t)
    ensures Resolve(h, vals, negated) == Bool(IsFalsy(Resolve(h, vals, Print(t))))
  {
    assert Print(Not(t)) == negated;
    RoundTrip(h, vals, Not(t));
    RoundTrip(h, vals, t);
    FalsyExactly(Meaning(h, vals, t));
  }

  // ------------------------------------------------------------------------------------- paths

  /** The property of a value, undefined when it has none because it is null or undefined. */
  predicate IsProperty(h: Host, v: Value, key: Value, r: Value) {
    r == if v == Null || v == Undefined then Undefined else h.get(v, key)
  }

  lemma {:induction false} StepsSnoc(steps: seq<Step>, step: Step)
    requires WellFormedSteps(steps) && WellFormedStep(step)
    ensures WellFormedSteps(steps + [step])
    ensures PrintSteps(steps + [step]) == PrintSteps(steps) + PrintStep(step)
    ensures forall h, vals, cur ::
              Follow(h, vals, cur, steps + [step]) == Access(h, Follow(h, vals, cur, steps), Key(h, vals, step))
  {
    if steps == [] {
      assert [step][1..] == [] && [] + [step] == [step];
      assert forall h, vals, v :: Follow(h, vals, v, []) == v;
      assert PrintSteps([]) == "" && PrintSteps([step]) == PrintStep(step) + PrintSteps([]);
    } else {
      assert (steps + [step])[0] == steps[0] && (steps + [step])[1..] == steps[1..] + [step];
      StepsSnoc(steps[1..], step);
      assert PrintStep(steps[0]) + (PrintSteps(steps[1..]) + PrintStep(step)) == PrintSteps(steps) + PrintStep(step);
    }
  }

  /** A name alone is that property of the template's values. */
  lemma NameResolves(h: Host, vals: Value, head: string)
    requires Identifier(head) && !Keyword(head)
    ensures IsProperty(h, vals, Text(head), Resolve(h, vals, head))
  {
    assert Print(Path(head, [])) == head;
    RoundTrip(h, vals, Path(head, []));
  }

  lemma StepMeans(h: Host, vals: Value, head: string, steps: seq<Step>, step: Step)
    requires WellFormed(Path(head, steps)) && WellFormedStep(step)
    ensures WellFormed(Path(head, steps + [step]))
    ensures Print(Path(head, steps + [step])) == Print(Path(head, steps)) + PrintStep(step)
    ensures IsProperty(h, Meaning(h, vals, Path(head, steps)), Key(h, vals, step),
                       Meaning(h, vals, Path(head, steps + [step])))
  {
    StepsSnoc(steps, step);
  }

  lemma StepResolves(h: Host, vals: Value, head: string, steps: seq<Step>, step: Step, path: string, longer: string)
    requires WellFormed(Path(head, steps)) && WellFormedStep(step)
    requires path == Print(Path(head, steps)) && longer == path + PrintStep(step)
    ensures IsProperty(h, Resolve(h, vals, path), Key(h, vals, step), Resolve(h, vals, longer))
  {
    StepMeans(h, vals, head, steps, step);
    RoundTrip(h, vals, Path(head, steps));
    RoundTrip(h, vals, Path(head, steps + [step]));
  }

  /** A field, by name or number, is that property of what is before it. */
  lemma FieldResolves(h: Host, vals: Value, head: string, steps: seq<Step>, name: string, path: string, field: string)
    requires WellFormed(Path(head, steps)) && (Identifier(name) || Digits(name))
    requires path == Print(Path(head, steps)) && field == path + "." + name
    ensures IsProperty(h, Resolve(h, vals, path), Text(name), Resolve(h, vals, field))
  {
    assert field == path + ("." + name);
    StepResolves(h, vals, head, steps, Field(name), path, field);
  }

  /** So is a bracket, by what the text inside it resolves to. */
  lemma BracketResolves(h: Host, vals: Value, head: string, steps: seq<Step>, index: Tree, path: string, item: string)
    requires WellFormed(Path(head, steps)) && WellFormed(index)
    requires path == Print(Path(head, steps)) && item == path + "[" + Print(index) + "]"
    ensures IsProperty(h, Resolve(h, vals, path), Resolve(h, vals, Print(index)), Resolve(h, vals, item))
  {
    assert item == path + ("[" + (Print(index) + "]"));
    StepResolves(h, vals, head, steps, At(index), path, item);
    RoundTrip(h, vals, index);
  }

  // ---------------------------------------------------------------------------------- literals

  /** Ten to the power of `n`, and the number a row of digits writes down, from its left end. */
  function Tens(n: nat): (r: nat)
    ensures r > 0
  {
    if n == 0 then 1 else Tens(n - 1) * 10
  }

  ghost function Written(s: string): nat
    requires AllDigits(s)
  {
    if s == "" then 0 else (s[0] as int - '0' as int) * Tens(|s| - 1) + Written(s[1..])
  }

  ghost predicate AllDigits(s: string) {
    forall i :: 0 <= i < |s| ==> '0' <= s[i] <= '9'
  }

  lemma {:induction false} TensIsPow(n: nat)
    ensures Tens(n) == Pow10(n)
  {
    if n > 0 { TensIsPow(n - 1); }
  }

  lemma {:induction false} WrittenSnoc(s: string, c: char)
    requires AllDigits(s) && '0' <= c <= '9'
    ensures AllDigits(s + [c]) && Written(s + [c]) == 10 * Written(s) + (c as int - '0' as int)
  {
    if s == "" {
      assert ("" + [c])[1..] == "";
    } else {
      assert (s + [c])[0] == s[0] && (s + [c])[1..] == s[1..] + [c];
      WrittenSnoc(s[1..], c);
      Shifted(s[0] as int - '0' as int, Tens(|s| - 1), Written(s[1..]));
    }
  }

  lemma Shifted(d: nat, p: nat, rest: nat)
    ensures d * (p * 10) + 10 * rest == 10 * (d * p + rest)
  {
  }

  lemma {:induction false} DigitsAreWritten(s: string)
    requires AllDigits(s)
    ensures DigitsValue(s) == Written(s)
  {
    if s != "" {
      var n := |s| - 1;
      DigitsAreWritten(s[..n]);
      WrittenSnoc(s[..n], s[n]);
      assert s == s[..n] + [s[n]];
    }
  }

  /** The number that a sign, digits, and digits after a point write down. */
  ghost function WrittenNumber(negative: bool, whole: string, fraction: string): real
    requires AllDigits(whole) && AllDigits(fraction)
  {
    var v := Written(whole) as real + Written(fraction) as real / Tens(|fraction|) as real;
    if negative then -v else v
  }

  lemma DecimalIs(negative: bool, whole: string, fraction: string)
    requires AllDigits(whole) && AllDigits(fraction)
    ensures Decimal(negative, whole, fraction) == WrittenNumber(negative, whole, fraction)
  {
    DigitsAreWritten(whole);
    DigitsAreWritten(fraction);
    TensIsPow(|fraction|);
  }

  lemma NumberMeans(h: Host, vals: Value, negative: bool, whole: string, fraction: Option<string>)
    requires Digits(whole) && (fraction.Some? ==> Digits(fraction.value))
    ensures Meaning(h, vals, Lit(NumberLiteral(negative, whole, fraction)))
            == Number(WrittenNumber(negative, whole, if fraction.Some? then fraction.value else ""))
  {
    DecimalIs(negative, whole, if fraction.Some? then fraction.value else "");
  }

  /** A number literal is the number it writes down. */
  lemma IntegerResolves(h: Host, vals: Value, negative: bool, whole: string, text: string)
    requires Digits(whole) && text == (if negative then "-" else "") + whole
    ensures Resolve(h, vals, text) == Number(WrittenNumber(negative, whole, ""))
  {
    var t := Lit(NumberLiteral(negative, whole, None));
    assert Print(t) == text;
    TreeResolves(h, vals, t, text, Resolve(h, vals, text));
    NumberMeans(h, vals, negative, whole, None);
  }

  lemma PrintedDecimal(negative: bool, whole: string, fraction: string, text: string)
    requires text == (if negative then "-" else "") + whole + "." + fraction
    ensures Print(Lit(NumberLiteral(negative, whole, Some(fraction)))) == text
  {
    Regroup4(if negative then "-" else "", whole, ".", fraction);
  }

  lemma Regroup4(a: string, b: string, c: string, d: string)
    ensures a + (b + (c + d)) == a + b + c + d
  {
  }

  lemma DecimalResolves(h: Host, vals: Value, negative: bool, whole: string, fraction: string, text: string)
    requires Digits(whole) && Digits(fraction) && text == (if negative then "-" else "") + whole + "." + fraction
    ensures Resolve(h, vals, text) == Number(WrittenNumber(negative, whole, fraction))
  {
    PrintedDecimal(negative, whole, fraction, text);
    TreeResolves(h, vals, Lit(NumberLiteral(negative, whole, Some(fraction))), text, Resolve(h, vals, text));
    NumberMeans(h, vals, negative, whole, Some(fraction));
  }

  /** The four words, and texts in either kind of quotes. */
  lemma WordsResolve(h: Host, vals: Value, text: string)
    requires Neutral(text)
    ensures Resolve(h, vals, "true") == Bool(true) && Resolve(h, vals, "false") == Bool(false)
    ensures Resolve(h, vals, "null") == Null && Resolve(h, vals, "undefined") == Undefined
    ensures Resolve(h, vals, "'" + text + "'") == Text(text) && Resolve(h, vals, "\"" + text + "\"") == Text(text)
  {
    var single, double := Lit(StringLiteral('\'', text)), Lit(StringLiteral('"', text));
    assert Print(single) == "'" + text + "'" && Print(double) == "\"" + text + "\"";
    RoundTrip(h, vals, single);
    RoundTrip(h, vals, double);
    RoundTrip(h, vals, Lit(True));
    RoundTrip(h, vals, Lit(False));
    RoundTrip(h, vals, Lit(NullLiteral));
    RoundTrip(h, vals, Lit(UndefinedLiteral));
  }

  // ------------------------------------------------------------------------------- white space

  lemma TrimTwice(s: string)
    ensures Trim(Trim(s)) == Trim(s)
  {
    TrimEnds(s);
    TrimFixed(Trim(s));
  }

  lemma {:induction false} TrimBlank(a: string, s: string, b: string)
    requires AllSpace(a) && AllSpace(b) && s != "" && !IsSpace(s[0]) && !IsSpace(s[|s| - 1])
    ensures Trim(a + s + b) == s
  {
    TrimFront(a, s + b);
    assert a + s + b == a + (s + b);
    TrimBack(s, b);
  }

  lemma {:induction false} TrimFront(a: string, s: string)
    requires AllSpace(a) && s != "" && !IsSpace(s[0])
    ensures TrimStart(a + s) == s
  {
    if a == "" {
      assert a + s == s;
    } else {
      assert (a + s)[1..] == a[1..] + s;
      TrimFront(a[1..], s);
    }
  }

  lemma {:induction false} TrimBack(s: string, b: string)
    requires AllSpace(b) && s != "" && !IsSpace(s[|s| - 1])
    ensures TrimEnd(s + b) == s
  {
    if b == "" {
      assert s + b == s;
    } else {
      assert (s + b)[..|s + b| - 1] == s + b[..|b| - 1];
      TrimBack(s, b[..|b| - 1]);
    }
  }

  /** White space around an expression does not matter. */
  lemma SpacedResolves(h: Host, vals: Value, t: Tree, a: string, b: string)
    requires WellFormed(t) && AllSpace(a) && AllSpace(b)
    ensures Resolve(h, vals, a + Print(t) + b) == Resolve(h, vals, Print(t))
  {
    PrintEnds(t);
    TrimBlank(a, Print(t), b);
    SameTrim(h, vals, a + Print(t) + b, Print(t));
  }

  lemma SameTrim(h: Host, vals: Value, s: string, u: string)
    requires Trim(s) == u
    ensures Resolve(h, vals, s) == Resolve(h, vals, u)
  {
    TrimTwice(s);
  }

  /** Nothing but white space is undefined. */
  lemma BlankResolves(h: Host, vals: Value, s: string)
    requires AllSpace(s)
    ensures Resolve(h, vals, s) == Undefined
  {
    AllBlank(s);
  }

  lemma {:induction false} AllBlank(s: string)
    requires AllSpace(s)
    ensures TrimStart(s) == ""
  {
    if s != "" { AllBlank(s[1..]); }
  }

  // -------------------------------------------------------------------------------- broken paths

  /** The printed path stands at the start of `s`, and what follows it starts another step. */
  ghost predicate StartsWithPath(s: string, head: string, steps: seq<Step>) {
    && WellFormed(Path(head, steps)) && Has(s, 0, Print(Path(head, steps)))
    && |Print(Path(head, steps))| < |s|
    && (s[|Print(Path(head, steps))|] == '.' || s[|Print(Path(head, steps))|] == '[')
  }

  lemma {:induction false} StepsTaken(h: Host, vals: Value, s: string, i: nat, steps: seq<Step>, cur: Value, n: nat,
                                      last: Value)
    requires WellFormedSteps(steps) && i > 0 && Has(s, i, PrintSteps(steps))
    requires n == i + |PrintSteps(steps)| && GoesOn(s, n) && last == Follow(h, vals, cur, steps)
    ensures PathFrom(h, vals, s, i, cur) == PathFrom(h, vals, s, n, last)
    decreases |steps|
  {
    if steps != [] {
      var e := FirstStep(s, i, steps);
      var next := Access(h, cur, Key(h, vals, steps[0]));
      StepFollowsKey(h, vals, s, i, steps[0], cur, e);
      StepsTaken(h, vals, s, e, steps[1..], next, n, last);
    }
  }

  /** Another step starts there. */
  ghost predicate GoesOn(s: string, e: nat) {
    e < |s| && (s[e] == '.' || s[e] == '[')
  }

  lemma FirstStep(s: string, i: nat, steps: seq<Step>) returns (e: nat)
    requires WellFormedSteps(steps) && steps != [] && Has(s, i, PrintSteps(steps))
    requires GoesOn(s, i + |PrintSteps(steps)|)
    ensures Has(s, i, PrintStep(steps[0])) && e == i + |PrintStep(steps[0])| && GoesOn(s, e)
    ensures Has(s, e, PrintSteps(steps[1..])) && e + |PrintSteps(steps[1..])| == i + |PrintSteps(steps)|
  {
    var x, rest := PrintStep(steps[0]), PrintSteps(steps[1..]);
    e := i + |x|;
    HasParts(s, i, x, rest);
    StepsEnds(steps[1..]);
    if rest != "" { HasChar(s, e, rest, 0); }
  }

  lemma PathHead(s: string, head: string, steps: seq<Step>)
    requires StartsWithPath(s, head, steps)
    ensures head <= s && |s| > |head| > 0 && !IsIdentPart(s[|head|]) && IsIdentStart(s[0])
    ensures Has(s, |head|, PrintSteps(steps)) && |head| + |PrintSteps(steps)| == |Print(Path(head, steps))|
  {
    PathParts(s, 0, head, steps);
    StepsEnds(steps);
    HasChar(s, 0, head, 0);
    assert s[..|head|] == s[0..0 + |head|] == head;
    if PrintSteps(steps) != "" { HasChar(s, |head|, PrintSteps(steps), 0); }
  }

  /** Such a text is resolved as a path, from the end of the printed one on. */
  lemma PathGoesOn(h: Host, vals: Value, s: string, head: string, steps: seq<Step>) returns (cur: Value)
    requires StartsWithPath(s, head, steps) && !IsSpace(s[|s| - 1])
    requires FindEquality(s, |Print(Path(head, steps))|, 0) == None
    ensures Resolve(h, vals, s) == PathFrom(h, vals, s, |Print(Path(head, steps))|, cur)
  {
    PathHead(s, head, steps);
    PathIsPath(h, vals, s, head, steps);
    assert Has(s, 0, head);
    IdentEndAt(s, 0, head);
    cur := Follow(h, vals, Access(h, vals, Text(head)), steps);
    StepsTaken(h, vals, s, |head|, steps, Access(h, vals, Text(head)), |Print(Path(head, steps))|, cur);
  }

  lemma PathIsPath(h: Host, vals: Value, s: string, head: string, steps: seq<Step>)
    requires StartsWithPath(s, head, steps) && !IsSpace(s[|s| - 1])
    requires FindEquality(s, |Print(Path(head, steps))|, 0) == None
    ensures Resolve(h, vals, s) == ResolvePath(h, vals, s)
  {
    NoEqualityIn(s, head, steps);
    PathHead(s, head, steps);
    TrimFixed(s);
    ResolveOther(h, vals, s, s);
    PathIsNothingElse(s, head);
    OperandIsPath(h, vals, s);
  }

  lemma NoEqualityIn(s: string, head: string, steps: seq<Step>)
    requires StartsWithPath(s, head, steps) && FindEquality(s, |Print(Path(head, steps))|, 0) == None
    ensures FindEquality(s, 0, 0) == None
  {
    PassesPath(s, 0, Path(head, steps), 0, 0, 0);
  }

  lemma OperandIsPath(h: Host, vals: Value, s: string)
    requires s != "" && s[0] != '!' && !Keyword(s) && !IsNumber(s) && !IsStringLiteral(s)
    ensures ResolveOperand(h, vals, s) == ResolvePath(h, vals, s)
  {
  }

  /** A path that ends in a dot is undefined. */
  lemma TrailingDot(h: Host, vals: Value, head: string, steps: seq<Step>, text: string)
    requires WellFormed(Path(head, steps)) && text == Print(Path(head, steps)) + "."
    ensures Resolve(h, vals, text) == Undefined
  {
    var n := |Print(Path(head, steps))|;
    assert text[..n] == Print(Path(head, steps)) && text[n] == '.';
    var cur := PathGoesOn(h, vals, text, head, steps);
    assert FieldEnd(text, n + 1) == n + 1;
  }

  /** So is one that ends inside a bracket. */
  lemma OpenBracket(h: Host, vals: Value, head: string, steps: seq<Step>, index: Tree, text: string)
    requires WellFormed(Path(head, steps)) && WellFormed(index)
    requires text == Print(Path(head, steps)) + ("[" + Print(index))
    ensures Resolve(h, vals, text) == Undefined
  {
    var n := |Print(Path(head, steps))|;
    assert text[..n] == Print(Path(head, steps)) && text[n] == '[' && text[n + 1..] == Print(index);
    NeverClosed(text, n, index);
    PrintEnds(index);
    var cur := PathGoesOn(h, vals, text, head, steps);
    OpenIsUndefined(h, vals, text, n, cur);
  }

  lemma NeverClosed(s: string, n: nat, index: Tree)
    requires WellFormed(index) && n < |s| && s[n] == '[' && s[n + 1..] == Print(index)
    ensures FindEquality(s, n, 0) == None && BracketEnd(s, n + 1, 1) == |s|
  {
    PassesTree(s, n + 1, index, 1, 1, 0);
    AtEnd(s);
  }

  lemma AtEnd(s: string)
    ensures FindEquality(s, |s|, 1) == None && BracketEnd(s, |s|, 1) == |s|
  {
  }

  lemma OpenIsUndefined(h: Host, vals: Value, s: string, n: nat, cur: Value)
    requires 0 < n < |s| && s[n] == '[' && BracketEnd(s, n + 1, 1) == |s|
    ensures PathFrom(h, vals, s, n, cur) == Undefined
  {
  }
}
