/**
 * Expression trees, their printed form and their meaning; `resolve` of the printed form is
 * the meaning.
 */
module ExprRoundTrip {
  import opened Wrappers
  import opened JsText
  import opened Expr

  datatype Literal =
    | True
    | False
    | NullLiteral
    | UndefinedLiteral
    | NumberLiteral(negative: bool, whole: string, fraction: Option<string>)
    | StringLiteral(quote: char, text: string)

  datatype Tree =
    | Lit(l: Literal)
    | Path(head: string, steps: seq<Step>)
    | Not(t: Tree)
    | Equality(op: EqOp, left: Tree, right: Tree)

  datatype Step = Field(name: string) | At(index: Tree)

  // ---------------------------------------------------------------------------- printed form

  ghost predicate Digits(s: string) {
    s != "" && forall i :: 0 <= i < |s| ==> IsDigit(s[i])
  }

  ghost predicate Identifier(s: string) {
    s != "" && IsIdentStart(s[0]) && forall i :: 0 <= i < |s| ==> IsIdentPart(s[i])
  }

  predicate IsDelimiter(c: char) {
    c == '(' || c == ')' || c == '[' || c == ']'
  }

  /** Characters the scanners pass over at any depth. */
  ghost predicate Neutral(s: string) {
    forall i :: 0 <= i < |s| ==> !IsDelimiter(s[i]) && s[i] != '=' && s[i] != '!'
  }

  predicate Keyword(s: string) {
    s == "true" || s == "false" || s == "null" || s == "undefined"
  }

  ghost predicate WellFormedLiteral(l: Literal) {
    match l
    case NumberLiteral(_, whole, fraction) => Digits(whole) && (fraction.Some? ==> Digits(fraction.value))
    case StringLiteral(q, text) => IsQuote(q) && Neutral(text)
    case _ => true
  }

  ghost predicate WellFormed(t: Tree) {
    match t
    case Lit(l) => WellFormedLiteral(l)
    case Path(head, steps) => Identifier(head) && (steps == [] ==> !Keyword(head)) && WellFormedSteps(steps)
    case Not(u) => WellFormed(u)
    case Equality(_, l, r) => WellFormed(l) && WellFormed(r)
  }

  ghost predicate WellFormedStep(step: Step) {
    match step
    case Field(name) => Identifier(name) || Digits(name)
    case At(index) => WellFormed(index)
  }

  ghost predicate WellFormedSteps(steps: seq<Step>) {
    steps != [] ==> WellFormedStep(steps[0]) && WellFormedSteps(steps[1..])
  }

  function PrintLiteral(l: Literal): string {
    match l
    case True => "true"
    case False => "false"
    case NullLiteral => "null"
    case UndefinedLiteral => "undefined"
    case NumberLiteral(negative, whole, fraction) =>
      (if negative then "-" else "") + (whole + if fraction.Some? then "." + fraction.value else "")
    case StringLiteral(q, text) => [q] + (text + [q])
  }

  function Print(t: Tree): string {
    match t
    case Lit(l) => PrintLiteral(l)
    case Path(head, steps) => head + PrintSteps(steps)
    case Not(u) => "!" + Print(u)
    case Equality(op, l, r) => "(" + (Print(l) + (OpText(op) + (Print(r) + ")")))
  }

  function PrintSteps(steps: seq<Step>): string {
    if steps == [] then "" else PrintStep(steps[0]) + PrintSteps(steps[1..])
  }

  function PrintStep(step: Step): string {
    match step
    case Field(name) => "." + name
    case At(index) => "[" + (Print(index) + "]")
  }

  // --------------------------------------------------------------------------------- meaning

  function LiteralValue(l: Literal): Value
    requires WellFormedLiteral(l)
  {
    match l
    case True => Bool(true)
    case False => Bool(false)
    case NullLiteral => Null
    case UndefinedLiteral => Undefined
    case NumberLiteral(negative, whole, fraction) =>
      Number(Decimal(negative, whole, if fraction.Some? then fraction.value else ""))
    case StringLiteral(_, text) => Text(text)
  }

  function Meaning(h: Host, vals: Value, t: Tree): Value
    requires WellFormed(t)
    decreases t
  {
    match t
    case Lit(l) => LiteralValue(l)
    case Path(head, steps) => Follow(h, vals, Access(h, vals, Text(head)), steps)
    case Not(u) => Bool(!Truthy(Meaning(h, vals, u)))
    case Equality(op, l, r) => Bool(Compare(h, op, Meaning(h, vals, l), Meaning(h, vals, r)))
  }

  function Key(h: Host, vals: Value, step: Step): Value
    requires WellFormedStep(step)
    decreases step
  {
    match step
    case Field(name) => Text(name)
    case At(index) => Meaning(h, vals, index)
  }

  function Follow(h: Host, vals: Value, cur: Value, steps: seq<Step>): Value
    requires WellFormedSteps(steps)
    decreases steps
  {
    if steps == [] then cur else Follow(h, vals, Access(h, cur, Key(h, vals, steps[0])), steps[1..])
  }

  // ----------------------------------------------------------------------- text at a position

  ghost predicate Has(s: string, p: nat, x: string) {
    p + |x| <= |s| && s[p..p + |x|] == x
  }

  lemma HasChar(s: string, p: nat, x: string, k: nat)
    requires Has(s, p, x) && k < |x|
    ensures s[p + k] == x[k]
  {
    assert s[p..p + |x|][k] == x[k];
  }

  lemma HasParts(s: string, p: nat, x: string, y: string)
    requires Has(s, p, x + y)
    ensures Has(s, p, x) && Has(s, p + |x|, y)
  {
    assert (x + y)[..|x|] == x && (x + y)[|x|..] == y;
    assert s[p..p + |x|] == s[p..p + |x + y|][..|x|];
    assert s[p + |x|..p + |x| + |y|] == s[p..p + |x + y|][|x|..];
  }

  /** First and last characters of printed text. */
  lemma {:induction false} PrintEnds(t: Tree)
    requires WellFormed(t)
    ensures var x := Print(t);
            && x != "" && x[0] != '=' && !IsSpace(x[0]) && !IsSpace(x[|x| - 1])
            && x[|x| - 1] != '=' && x[|x| - 1] != '!'
            && (x[0] == '(' <==> t.Equality?) && (x[0] == '!' <==> t.Not?)
  {
    match t
    case Lit(l) => LiteralEnds(l);
    case Path(head, steps) => StepsEnds(steps);
    case Not(u) => PrintEnds(u);
    case Equality(op, l, r) =>
  }

  lemma LiteralEnds(l: Literal)
    requires WellFormedLiteral(l)
    ensures var x := PrintLiteral(l);
            && x != "" && x[0] != '=' && !IsSpace(x[0]) && !IsSpace(x[|x| - 1])
            && x[|x| - 1] != '=' && x[|x| - 1] != '!' && x[0] != '(' && x[0] != '!'
  {
    if l.NumberLiteral? { NumberEnds(l); }
  }

  lemma NumberEnds(l: Literal)
    requires l.NumberLiteral? && WellFormedLiteral(l)
    ensures var x := PrintLiteral(l); x != "" && IsDigit(x[|x| - 1]) && (IsDigit(x[0]) || x[0] == '-')
  {
  }

  lemma {:induction false} StepsEnds(steps: seq<Step>)
    requires WellFormedSteps(steps)
    ensures var x := PrintSteps(steps);
            x != "" ==> (x[0] == '.' || x[0] == '[') && (x[|x| - 1] == ']' || IsIdentPart(x[|x| - 1]))
    ensures steps != [] ==> PrintSteps(steps) != ""
  {
    if steps != [] { StepsEnds(steps[1..]); }
  }

  // --------------------------------------------- the scanners pass over printed expressions

  datatype Scan = Scan(equality: Option<(nat, EqOp)>, close: nat, wraps: bool)

  /** What the three scanners answer from `p` on: the search for an equality at bracket depth
      `f`, for `]` at bracket depth `b`, and the wrapping test at parenthesis depth `w`. */
  function ScanFrom(s: string, p: nat, f: nat, b: nat, w: nat): Scan
    requires p <= |s|
  {
    Scan(FindEquality(s, p, f), if b > 0 then BracketEnd(s, p, b) else 0, w > 0 ==> WrapsFrom(s, p, w))
  }

  lemma {:induction false} PassesNeutral(s: string, p: nat, x: string, f: nat, b: nat, w: nat)
    requires Has(s, p, x) && (if f > 0 then forall i :: 0 <= i < |x| ==> !IsDelimiter(x[i]) else Neutral(x))
    ensures ScanFrom(s, p, f, b, w) == ScanFrom(s, p + |x|, f, b, w)
    decreases |x|
  {
    if x != "" {
      HasChar(s, p, x, 0);
      assert x == x[..1] + x[1..];
      HasParts(s, p, x[..1], x[1..]);
      PassesNeutral(s, p + 1, x[1..], f, b, w);
    }
  }

  lemma PassesOperator(s: string, p: nat, op: EqOp, f: nat, b: nat, w: nat)
    requires Has(s, p, OpText(op)) && f > 0
    ensures ScanFrom(s, p, f, b, w) == ScanFrom(s, p + |OpText(op)|, f, b, w)
  {
    PassesNeutral(s, p, OpText(op), f, b, w);
  }

  lemma PassesParens(s: string, p: nat, q: nat, f: nat, b: nat, w: nat)
    requires p < q < |s| && s[p] == '(' && s[q] == ')'
    requires ScanFrom(s, p + 1, f + 1, b, w + 1) == ScanFrom(s, q, f + 1, b, w + 1)
    ensures ScanFrom(s, p, f, b, w) == ScanFrom(s, q + 1, f, b, w)
  {
  }

  lemma PassesBrackets(s: string, p: nat, q: nat, f: nat, b: nat, w: nat)
    requires p < q < |s| && s[p] == '[' && s[q] == ']'
    requires ScanFrom(s, p + 1, f + 1, b + 1, w) == ScanFrom(s, q, f + 1, b + 1, w)
    ensures ScanFrom(s, p, f, b, w) == ScanFrom(s, q + 1, f, b, w)
  {
  }

  /** `!` in front of an operand is not the start of an operator. */
  lemma PassesBang(s: string, p: nat, f: nat, b: nat, w: nat)
    requires p + 1 < |s| && s[p] == '!' && s[p + 1] != '='
    ensures ScanFrom(s, p, f, b, w) == ScanFrom(s, p + 1, f, b, w)
  {
  }

  /** A printed expression is passed over by every scanner, at every depth. */
  lemma {:induction false} PassesTree(s: string, p: nat, t: Tree, f: nat, b: nat, w: nat)
    requires WellFormed(t) && Has(s, p, Print(t))
    ensures ScanFrom(s, p, f, b, w) == ScanFrom(s, p + |Print(t)|, f, b, w)
    decreases t, 4
  {
    match t
    case Lit(l) => PassesLiteral(s, p, l, f, b, w);
    case Path(head, steps) => PassesPath(s, p, t, f, b, w);
    case Not(u) => PassesNot(s, p, t, f, b, w);
    case Equality(op, l, r) => PassesEquality(s, p, t, f, b, w);
  }

  lemma {:induction false} PassesPath(s: string, p: nat, t: Tree, f: nat, b: nat, w: nat)
    requires t.Path? && WellFormed(t) && Has(s, p, Print(t))
    ensures ScanFrom(s, p, f, b, w) == ScanFrom(s, p + |Print(t)|, f, b, w)
    decreases t, 0
  {
    PathParts(s, p, t.head, t.steps);
    PassesNeutral(s, p, t.head, f, b, w);
    PassesSteps(s, p + |t.head|, t.steps, f, b, w);
  }

  lemma {:induction false} PassesNot(s: string, p: nat, t: Tree, f: nat, b: nat, w: nat)
    requires t.Not? && WellFormed(t) && Has(s, p, Print(t))
    ensures ScanFrom(s, p, f, b, w) == ScanFrom(s, p + |Print(t)|, f, b, w)
    decreases t, 0
  {
    NotParts(s, p, t.t);
    PassesBang(s, p, f, b, w);
    PassesTree(s, p + 1, t.t, f, b, w);
  }

  lemma {:induction false} PassesEquality(s: string, p: nat, t: Tree, f: nat, b: nat, w: nat)
    requires t.Equality? && WellFormed(t) && Has(s, p, Print(t))
    ensures ScanFrom(s, p, f, b, w) == ScanFrom(s, p + |Print(t)|, f, b, w)
    decreases t, 3
  {
    EqualityInside(s, p, t, f, b, w);
    PassesParens(s, p, p + |Print(t)| - 1, f, b, w);
  }

  /** Between its parentheses a printed equality is passed over. */
  lemma {:induction false} EqualityInside(s: string, p: nat, t: Tree, f: nat, b: nat, w: nat)
    requires t.Equality? && WellFormed(t) && Has(s, p, Print(t))
    ensures var q := p + |Print(t)| - 1;
            p < q < |s| && s[p] == '(' && s[q] == ')'
              && ScanFrom(s, p + 1, f + 1, b, w + 1) == ScanFrom(s, q, f + 1, b, w + 1)
    decreases t, 2
  {
    var p1, p2, p3 := EqualityParts(s, p, t);
    PassesSides(s, p + 1, p1, p2, p3, t, f + 1, b, w + 1);
  }

  lemma {:induction false} PassesSides(s: string, p0: nat, p1: nat, p2: nat, p3: nat, t: Tree, f: nat, b: nat, w: nat)
    requires t.Equality? && WellFormed(t.left) && WellFormed(t.right)
    requires Has(s, p0, Print(t.left)) && p1 == p0 + |Print(t.left)|
    requires Has(s, p1, OpText(t.op)) && p2 == p1 + |OpText(t.op)| && f > 0
    requires Has(s, p2, Print(t.right)) && p3 == p2 + |Print(t.right)|
    ensures ScanFrom(s, p0, f, b, w) == ScanFrom(s, p3, f, b, w)
    decreases t, 1
  {
    PassesLeft(s, p0, p1, p2, t, f, b, w);
    PassesTree(s, p2, t.right, f, b, w);
  }

  lemma {:induction false} PassesLeft(s: string, p0: nat, p1: nat, p2: nat, t: Tree, f: nat, b: nat, w: nat)
    requires t.Equality? && WellFormed(t.left)
    requires Has(s, p0, Print(t.left)) && p1 == p0 + |Print(t.left)|
    requires Has(s, p1, OpText(t.op)) && p2 == p1 + |OpText(t.op)| && f > 0
    ensures ScanFrom(s, p0, f, b, w) == ScanFrom(s, p2, f, b, w)
    decreases t, 0
  {
    PassesTree(s, p0, t.left, f, b, w);
    PassesOperator(s, p1, t.op, f, b, w);
  }

  lemma PathParts(s: string, p: nat, head: string, steps: seq<Step>)
    requires Has(s, p, Print(Path(head, steps)))
    ensures |Print(Path(head, steps))| == |head| + |PrintSteps(steps)|
    ensures Has(s, p, head) && Has(s, p + |head|, PrintSteps(steps))
  {
    HasParts(s, p, head, PrintSteps(steps));
  }

  lemma NotParts(s: string, p: nat, u: Tree)
    requires WellFormed(u) && Has(s, p, Print(Not(u)))
    ensures |Print(Not(u))| == 1 + |Print(u)| && p + 1 < |s|
    ensures s[p] == '!' && s[p + 1] != '=' && Has(s, p + 1, Print(u))
  {
    var x := Print(u);
    HasParts(s, p, "!", x);
    HasChar(s, p, "!", 0);
    PrintEnds(u);
    HasChar(s, p + 1, x, 0);
  }

  /** Where the parts of a printed equality stand. */
  lemma EqualityParts(s: string, p: nat, t: Tree) returns (p1: nat, p2: nat, p3: nat)
    requires t.Equality? && Has(s, p, Print(t))
    ensures p1 == p + 1 + |Print(t.left)| && p2 == p1 + |OpText(t.op)| && p3 == p2 + |Print(t.right)|
    ensures p3 + 1 == p + |Print(t)| <= |s|
    ensures s[p] == '(' && Has(s, p + 1, Print(t.left)) && Has(s, p1, OpText(t.op))
    ensures Has(s, p2, Print(t.right)) && s[p3] == ')'
  {
    var a, o, c := Print(t.left), OpText(t.op), Print(t.right);
    HasParts(s, p, "(", a + (o + (c + ")")));
    HasChar(s, p, "(", 0);
    p1, p2, p3 := FourParts(s, p + 1, a, o, c);
  }

  lemma FourParts(s: string, p: nat, a: string, o: string, c: string) returns (p1: nat, p2: nat, p3: nat)
    requires Has(s, p, a + (o + (c + ")")))
    ensures p1 == p + |a| && p2 == p1 + |o| && p3 == p2 + |c| && p3 + 1 <= |s|
    ensures Has(s, p, a) && Has(s, p1, o) && Has(s, p2, c) && s[p3] == ')'
  {
    p1, p2, p3 := p + |a|, p + |a| + |o|, p + |a| + |o| + |c|;
    HasParts(s, p, a, o + (c + ")"));
    HasParts(s, p1, o, c + ")");
    HasParts(s, p2, c, ")");
    HasChar(s, p3, ")", 0);
  }

  lemma PassesLiteral(s: string, p: nat, l: Literal, f: nat, b: nat, w: nat)
    requires WellFormedLiteral(l) && Has(s, p, PrintLiteral(l))
    ensures ScanFrom(s, p, f, b, w) == ScanFrom(s, p + |PrintLiteral(l)|, f, b, w)
  {
    LiteralNeutral(l);
    PassesNeutral(s, p, PrintLiteral(l), f, b, w);
  }

  lemma LiteralNeutral(l: Literal)
    requires WellFormedLiteral(l)
    ensures Neutral(PrintLiteral(l))
  {
    match l
    case NumberLiteral(negative, whole, fraction) =>
      var tail := if fraction.Some? then "." + fraction.value else "";
      NeutralConcat(whole, tail);
      NeutralConcat(if negative then "-" else "", whole + tail);
    case StringLiteral(q, text) =>
      NeutralConcat(text, [q]);
      NeutralConcat([q], text + [q]);
    case _ =>
  }

  lemma NeutralConcat(x: string, y: string)
    requires Neutral(x) && Neutral(y)
    ensures Neutral(x + y)
  {
  }

  lemma {:induction false} PassesSteps(s: string, p: nat, steps: seq<Step>, f: nat, b: nat, w: nat)
    requires WellFormedSteps(steps) && Has(s, p, PrintSteps(steps))
    ensures ScanFrom(s, p, f, b, w) == ScanFrom(s, p + |PrintSteps(steps)|, f, b, w)
    decreases steps, 3
  {
    if steps != [] {
      var x := PrintStep(steps[0]);
      HasParts(s, p, x, PrintSteps(steps[1..]));
      PassesStep(s, p, steps[0], f, b, w);
      PassesSteps(s, p + |x|, steps[1..], f, b, w);
    }
  }

  lemma {:induction false} PassesStep(s: string, p: nat, step: Step, f: nat, b: nat, w: nat)
    requires WellFormedStep(step) && Has(s, p, PrintStep(step))
    ensures ScanFrom(s, p, f, b, w) == ScanFrom(s, p + |PrintStep(step)|, f, b, w)
    decreases step, 3
  {
    match step
    case Field(name) => PassesNeutral(s, p, "." + name, f, b, w);
    case At(index) =>
      AtParts(s, p, index);
      PassesTree(s, p + 1, index, f + 1, b + 1, w);
      PassesBrackets(s, p, p + 1 + |Print(index)|, f, b, w);
  }

  lemma AtParts(s: string, p: nat, index: Tree)
    requires Has(s, p, PrintStep(At(index)))
    ensures |PrintStep(At(index))| == |Print(index)| + 2 && p + |Print(index)| + 1 < |s|
    ensures s[p] == '[' && Has(s, p + 1, Print(index)) && s[p + 1 + |Print(index)|] == ']'
  {
    var x := Print(index);
    HasParts(s, p, "[", x + "]");
    HasChar(s, p, "[", 0);
    HasParts(s, p + 1, x, "]");
    HasChar(s, p + 1 + |x|, "]", 0);
  }

  // ---------------------------------------------------------------------- the main theorem

  lemma HasWhole(x: string)
    ensures Has(x, 0, x)
  {
  }

  /** A printed expression is trimmed, is no equality at top level, and is wrapped exactly when
      it is a printed equality. */
  lemma PrintedShape(t: Tree)
    requires WellFormed(t)
    ensures var x := Print(t); Trim(x) == x && x != "" && FindEquality(x, 0, 0) == None
    ensures IsWrapped(Print(t)) <==> t.Equality?
  {
    var x := Print(t);
    PrintEnds(t);
    TrimFixed(x);
    HasWhole(x);
    ScanNothing(x, t);
    if t.Equality? { EqualityWrapped(x, t); }
  }

  lemma ScanNothing(x: string, t: Tree)
    requires WellFormed(t) && x == Print(t) && Has(x, 0, x)
    ensures FindEquality(x, 0, 0) == None
  {
    PassesTree(x, 0, t, 0, 0, 0);
    assert FindEquality(x, |x|, 0) == None;
  }

  lemma EqualityWrapped(x: string, t: Tree)
    requires t.Equality? && WellFormed(t) && x == Print(t) && Has(x, 0, x)
    ensures IsWrapped(x)
  {
    EqualityInside(x, 0, t, 0, 0, 0);
    WrapsWhole(x);
  }

  lemma WrapsWhole(x: string)
    requires |x| >= 2 && x[0] == '(' && x[|x| - 1] == ')' && ScanFrom(x, 1, 1, 0, 1) == ScanFrom(x, |x| - 1, 1, 0, 1)
    ensures IsWrapped(x)
  {
  }

  lemma WrapsPart(x: string, q: nat)
    requires 0 < q < |x| - 1 && x[0] == '(' && x[q] == ')' && ScanFrom(x, 1, 1, 0, 1) == ScanFrom(x, q, 1, 0, 1)
    ensures !IsWrapped(x)
  {
  }

  /** The text between the parentheses of a printed equality. */
  function Inner(op: EqOp, l: Tree, r: Tree): string {
    Print(l) + (OpText(op) + Print(r))
  }

  lemma InnerInside(op: EqOp, l: Tree, r: Tree)
    ensures var x := Print(Equality(op, l, r)); |x| >= 2 && x[1..|x| - 1] == Inner(op, l, r)
  {
    var a, o, c := Print(l), OpText(op), Print(r);
    assert ("(" + (a + (o + (c + ")")))) == "(" + ((a + (o + c)) + ")");
  }

  lemma InnerHas(op: EqOp, l: Tree, r: Tree)
    requires WellFormed(l) && WellFormed(r)
    ensures var a, o, c, x := Print(l), OpText(op), Print(r), Inner(op, l, r);
            && Has(x, 0, a) && Has(x, |a|, o) && Has(x, |a| + |o|, c)
            && |x| == |a| + |o| + |c| && a != "" && c != "" && x[0] == a[0] && x[|a| - 1] == a[|a| - 1]
            && x[|a| + |o|] == c[0] && x[|x| - 1] == c[|c| - 1] && x[..|a|] == a && x[|a| + |o|..] == c
  {
    PrintEnds(l);
    PrintEnds(r);
    ThreeParts(Print(l), OpText(op), Print(r));
  }

  lemma ThreeParts(a: string, o: string, c: string)
    requires a != "" && c != ""
    ensures var x := a + (o + c);
            && Has(x, 0, a) && Has(x, |a|, o) && Has(x, |a| + |o|, c)
            && |x| == |a| + |o| + |c| && x[0] == a[0] && x[|a| - 1] == a[|a| - 1]
            && x[|a| + |o|] == c[0] && x[|x| - 1] == c[|c| - 1] && x[..|a|] == a && x[|a| + |o|..] == c
  {
  }

  /** The inner text is not wrapped: its first parenthesis, if it starts with one, closes before
      the end. */
  lemma InnerNotWrapped(op: EqOp, l: Tree, r: Tree)
    requires WellFormed(l) && WellFormed(r)
    ensures !IsWrapped(Inner(op, l, r))
  {
    var x := Inner(op, l, r);
    InnerHas(op, l, r);
    if x[0] == '(' {
      PrintEnds(l);
      InnerFirst(x, l);
    }
  }

  lemma InnerFirst(x: string, l: Tree)
    requires l.Equality? && WellFormed(l) && Has(x, 0, Print(l)) && |x| > |Print(l)|
    ensures !IsWrapped(x)
  {
    EqualityInside(x, 0, l, 0, 0, 0);
    WrapsPart(x, |Print(l)| - 1);
  }

  lemma OperatorFound(x: string, p: nat, op: EqOp)
    requires Has(x, p, OpText(op)) && p + |OpText(op)| < |x| && x[p + |OpText(op)|] != '='
    requires p > 0 && x[p - 1] != '=' && x[p - 1] != '!' && Trim(x[..p]) != ""
    ensures FindEquality(x, p, 0) == Some((p, op))
  {
    var o := OpText(op);
    HasChar(x, p, o, 0);
    HasChar(x, p, o, 1);
    if |o| == 3 { HasChar(x, p, o, 2); }
  }

  /** The operator of the inner text is the first equality the scan finds. */
  lemma InnerOperator(op: EqOp, l: Tree, r: Tree)
    requires WellFormed(l) && WellFormed(r)
    ensures FindEquality(Inner(op, l, r), 0, 0) == Some((|Print(l)|, op))
  {
    var x := Inner(op, l, r);
    OperatorStarts(op, l, r);
    LeftPassed(x, l);
    OperatorFound(x, |Print(l)|, op);
  }

  lemma LeftPassed(x: string, l: Tree)
    requires WellFormed(l) && Has(x, 0, Print(l))
    ensures FindEquality(x, 0, 0) == FindEquality(x, |Print(l)|, 0)
  {
    PassesTree(x, 0, l, 0, 0, 0);
  }

  lemma OperatorStarts(op: EqOp, l: Tree, r: Tree)
    requires WellFormed(l) && WellFormed(r)
    ensures var p, o, x := |Print(l)|, OpText(op), Inner(op, l, r);
            && Has(x, 0, Print(l)) && Has(x, p, o) && 0 < p < p + |o| < |x| && x[p + |o|] != '='
            && x[p - 1] != '=' && x[p - 1] != '!' && Trim(x[..p]) != ""
  {
    InnerHas(op, l, r);
    PrintEnds(l);
    PrintEnds(r);
    TrimFixed(Print(l));
  }

  lemma EqualityResolves(h: Host, vals: Value, x: string, op: EqOp, a: string, c: string)
    requires x != "" && Trim(x) == x && !IsWrapped(x) && FindEquality(x, 0, 0) == Some((|a|, op))
    requires |a| + |OpText(op)| <= |x| && x[..|a|] == a && x[|a| + |OpText(op)|..] == c
    ensures Resolve(h, vals, x) == Bool(Compare(h, op, Resolve(h, vals, a), Resolve(h, vals, c)))
  {
  }

  lemma InnerTrimmed(op: EqOp, l: Tree, r: Tree)
    requires WellFormed(l) && WellFormed(r)
    ensures var x := Inner(op, l, r); x != "" && Trim(x) == x
  {
    InnerHas(op, l, r);
    PrintEnds(l);
    PrintEnds(r);
    TrimFixed(Inner(op, l, r));
  }

  lemma InnerSides(op: EqOp, l: Tree, r: Tree)
    ensures var a, o, x := Print(l), OpText(op), Inner(op, l, r);
            |a| + |o| <= |x| && x[..|a|] == a && x[|a| + |o|..] == Print(r)
  {
    Sides(Print(l), OpText(op), Print(r));
  }

  lemma Sides(a: string, o: string, c: string)
    ensures (a + (o + c))[..|a|] == a && (a + (o + c))[|a| + |o|..] == c
  {
  }

  lemma InnerResolves(h: Host, vals: Value, op: EqOp, l: Tree, r: Tree)
    requires WellFormed(l) && WellFormed(r)
    ensures Resolve(h, vals, Inner(op, l, r)) ==
            Bool(Compare(h, op, Resolve(h, vals, Print(l)), Resolve(h, vals, Print(r))))
  {
    InnerTrimmed(op, l, r);
    InnerNotWrapped(op, l, r);
    InnerOperator(op, l, r);
    InnerSides(op, l, r);
    EqualityResolves(h, vals, Inner(op, l, r), op, Print(l), Print(r));
  }

  // ------------------------------------------------------------------------ literals and runs

  lemma {:induction false} DigitsEndAt(s: string, p: nat, x: string)
    requires Has(s, p, x) && forall i :: 0 <= i < |x| ==> IsDigit(x[i])
    requires p + |x| == |s| || !IsDigit(s[p + |x|])
    ensures DigitsEnd(s, p) == p + |x|
    decreases |x|
  {
    if x != "" {
      HasChar(s, p, x, 0);
      assert x == x[..1] + x[1..];
      HasParts(s, p, x[..1], x[1..]);
      DigitsEndAt(s, p + 1, x[1..]);
    }
  }

  lemma {:induction false} IdentRestAt(s: string, p: nat, x: string)
    requires Has(s, p, x) && forall i :: 0 <= i < |x| ==> IsIdentPart(x[i])
    requires p + |x| == |s| || !IsIdentPart(s[p + |x|])
    ensures IdentRest(s, p) == p + |x|
    decreases |x|
  {
    if x != "" {
      HasChar(s, p, x, 0);
      assert x == x[..1] + x[1..];
      HasParts(s, p, x[..1], x[1..]);
      IdentRestAt(s, p + 1, x[1..]);
    }
  }

  lemma IdentEndAt(s: string, p: nat, x: string)
    requires Has(s, p, x) && Identifier(x)
    requires p + |x| == |s| || !IsIdentPart(s[p + |x|])
    ensures IdentEnd(s, p) == p + |x|
  {
    HasChar(s, p, x, 0);
    IdentRestAt(s, p, x);
  }

  lemma FieldEndAt(s: string, p: nat, x: string)
    requires Has(s, p, x) && (Identifier(x) || Digits(x))
    requires p + |x| == |s| || !IsIdentPart(s[p + |x|])
    ensures FieldEnd(s, p) == p + |x|
  {
    HasChar(s, p, x, 0);
    if Identifier(x) { IdentEndAt(s, p, x); } else { DigitsEndAt(s, p, x); }
  }

  lemma NumberAt(negative: bool, whole: string, fraction: string, point: bool)
    requires Digits(whole) && (if point then Digits(fraction) else fraction == "")
    ensures var x := (if negative then "-" else "") + (whole + if point then "." + fraction else "");
            IsNumber(x) && NumberValue(x) == Decimal(negative, whole, fraction)
  {
    var sign := if negative then "-" else "";
    var tail := if point then "." + fraction else "";
    var x := sign + (whole + tail);
    HasWhole(x);
    HasParts(x, 0, sign, whole + tail);
    HasParts(x, |sign|, whole, tail);
    HasChar(x, |sign|, whole, 0);
    NumberRead(x, negative, |sign|, whole, tail, fraction, point);
  }

  lemma NumberRead(x: string, negative: bool, i: nat, whole: string, tail: string, fraction: string, point: bool)
    requires Digits(whole)
    requires if point then Digits(fraction) && tail == "." + fraction else fraction == "" && tail == ""
    requires Has(x, i, whole) && Has(x, i + |whole|, tail) && i + |whole| + |tail| == |x|
    requires SignEnd(x) == i && (i == 1 <==> negative)
    ensures IsNumber(x) && NumberValue(x) == Decimal(negative, whole, fraction)
  {
    var w := i + |whole|;
    if point {
      HasChar(x, w, tail, 0);
      HasParts(x, w, ".", fraction);
      DigitsEndAt(x, w + 1, fraction);
      assert x[w + 1..] == fraction;
    }
    DigitsEndAt(x, i, whole);
    assert x[i..w] == whole;
  }

  lemma ResolvesOperand(h: Host, vals: Value, t: Tree)
    requires WellFormed(t) && !t.Equality?
    ensures Resolve(h, vals, Print(t)) == ResolveOperand(h, vals, Print(t))
  {
    PrintedShape(t);
    ResolveOther(h, vals, Print(t), Print(t));
  }

  lemma LiteralResolves(h: Host, vals: Value, l: Literal)
    requires WellFormedLiteral(l)
    ensures ResolveOperand(h, vals, PrintLiteral(l)) == LiteralValue(l)
  {
    LiteralEnds(l);
    match l
    case NumberLiteral(_, _, _) => NumberResolves(h, vals, l);
    case StringLiteral(q, text) => StringResolves(h, vals, q, text);
    case _ =>
  }

  lemma NumberResolves(h: Host, vals: Value, l: Literal)
    requires l.NumberLiteral? && WellFormedLiteral(l)
    ensures PrintLiteral(l) != "" && ResolveOperand(h, vals, PrintLiteral(l)) == LiteralValue(l)
  {
    NumberAt(l.negative, l.whole, if l.fraction.Some? then l.fraction.value else "", l.fraction.Some?);
    NumberOperand(h, vals, PrintLiteral(l));
  }

  lemma NumberOperand(h: Host, vals: Value, x: string)
    requires IsNumber(x)
    ensures ResolveOperand(h, vals, x) == Number(NumberValue(x))
  {
    assert x[0] == '-' || IsDigit(x[0]);
  }

  lemma StringResolves(h: Host, vals: Value, q: char, text: string)
    requires IsQuote(q)
    ensures ResolveOperand(h, vals, [q] + (text + [q])) == Text(text)
  {
    var x := [q] + (text + [q]);
    assert !IsNumber(x);
    assert IsStringLiteral(x) && x[1..|x| - 1] == text;
  }

  // ------------------------------------------------------------------------------ paths, all

  lemma {:induction false} PathFollows(h: Host, vals: Value, s: string, i: nat, steps: seq<Step>, cur: Value)
    requires WellFormedSteps(steps) && i > 0 && Has(s, i, PrintSteps(steps)) && i + |PrintSteps(steps)| == |s|
    ensures PathFrom(h, vals, s, i, cur) == Follow(h, vals, cur, steps)
    decreases steps, 1
  {
    if steps != [] {
      var e := StepParts(s, i, steps);
      var next := Access(h, cur, Key(h, vals, steps[0]));
      StepFollowsKey(h, vals, s, i, steps[0], cur, e);
      PathFollows(h, vals, s, e, steps[1..], next);
    }
  }

  lemma {:induction false} StepFollowsKey(h: Host, vals: Value, s: string, i: nat, step: Step, cur: Value, e: nat)
    requires WellFormedStep(step) && i > 0 && Has(s, i, PrintStep(step)) && e == i + |PrintStep(step)|
    requires e == |s| || s[e] == '.' || s[e] == '['
    ensures PathFrom(h, vals, s, i, cur) == PathFrom(h, vals, s, e, Access(h, cur, Key(h, vals, step)))
    decreases step, 4
  {
    KeyResolves(h, vals, step);
    StepFollows(h, vals, s, i, step, cur, e, Key(h, vals, step));
  }

  lemma {:induction false} KeyResolves(h: Host, vals: Value, step: Step)
    requires WellFormedStep(step)
    ensures Key(h, vals, step) ==
            match step case Field(name) => Text(name) case At(index) => Resolve(h, vals, Print(index))
    decreases step, 3
  {
    match step
    case Field(name) =>
    case At(index) => RoundTrip(h, vals, index);
  }

  lemma StepParts(s: string, i: nat, steps: seq<Step>) returns (e: nat)
    requires WellFormedSteps(steps) && steps != [] && Has(s, i, PrintSteps(steps)) && i + |PrintSteps(steps)| == |s|
    ensures e == i + |PrintStep(steps[0])| && Has(s, i, PrintStep(steps[0]))
    ensures e == |s| || s[e] == '.' || s[e] == '['
    ensures Has(s, e, PrintSteps(steps[1..])) && e + |PrintSteps(steps[1..])| == |s|
  {
    e := i + |PrintStep(steps[0])|;
    var x, rest := PrintStep(steps[0]), PrintSteps(steps[1..]);
    HasParts(s, i, x, rest);
    StepsEnds(steps[1..]);
    if rest != "" { HasChar(s, i + |x|, rest, 0); }
  }

  lemma StepFollows(h: Host, vals: Value, s: string, i: nat, step: Step, cur: Value, e: nat, key: Value)
    requires WellFormedStep(step) && i > 0 && Has(s, i, PrintStep(step)) && e == i + |PrintStep(step)|
    requires e == |s| || s[e] == '.' || s[e] == '['
    requires key == match step case Field(name) => Text(name) case At(index) => Resolve(h, vals, Print(index))
    ensures PathFrom(h, vals, s, i, cur) == PathFrom(h, vals, s, e, Access(h, cur, key))
  {
    match step
    case Field(name) => FieldFollows(h, vals, s, i, name, cur);
    case At(index) => AtFollows(h, vals, s, i, index, cur, e, key);
  }

  lemma AtFollows(h: Host, vals: Value, s: string, i: nat, index: Tree, cur: Value, e: nat, key: Value)
    requires WellFormed(index) && i > 0 && Has(s, i, PrintStep(At(index))) && e == i + |PrintStep(At(index))|
    requires key == Resolve(h, vals, Print(index))
    ensures PathFrom(h, vals, s, i, cur) == PathFrom(h, vals, s, e, Access(h, cur, key))
  {
    var inside := BracketWhole(s, i, index, e);
    PathAtBracket(h, vals, s, i, e, cur, inside, key);
  }

  lemma BracketWhole(s: string, i: nat, index: Tree, e: nat) returns (inside: string)
    requires WellFormed(index) && Has(s, i, PrintStep(At(index))) && e == i + |PrintStep(At(index))|
    ensures i < e - 1 < |s|
    ensures s[i] == '[' && BracketEnd(s, i + 1, 1) == e - 1 && s[i + 1..e - 1] == inside == Print(index)
  {
    AtParts(s, i, index);
    BracketAt(s, i, index);
    inside := Print(index);
  }

  lemma FieldFollows(h: Host, vals: Value, s: string, i: nat, name: string, cur: Value)
    requires (Identifier(name) || Digits(name)) && i > 0 && Has(s, i, "." + name)
    requires var e := i + 1 + |name|; e == |s| || s[e] == '.' || s[e] == '['
    ensures PathFrom(h, vals, s, i, cur) == PathFrom(h, vals, s, i + 1 + |name|, Access(h, cur, Text(name)))
  {
    var e := FieldWhole(s, i, name);
    PathAtField(h, vals, s, i, e, cur, name);
  }

  lemma FieldWhole(s: string, i: nat, name: string) returns (e: nat)
    requires (Identifier(name) || Digits(name)) && Has(s, i, "." + name)
    requires i + 1 + |name| == |s| || s[i + 1 + |name|] == '.' || s[i + 1 + |name|] == '['
    ensures e == i + 1 + |name| && i + 1 < e <= |s| && s[i] == '.' && FieldEnd(s, i + 1) == e && s[i + 1..e] == name
  {
    e := i + 1 + |name|;
    HasParts(s, i, ".", name);
    HasChar(s, i, ".", 0);
    FieldEndAt(s, i + 1, name);
  }

  lemma BracketAt(s: string, i: nat, index: Tree)
    requires WellFormed(index) && Has(s, i, PrintStep(At(index)))
    ensures i < |s| && BracketEnd(s, i + 1, 1) == i + 1 + |Print(index)|
  {
    AtParts(s, i, index);
    PassesTree(s, i + 1, index, 0, 1, 0);
    BracketFound(s, i + 1, i + 1 + |Print(index)|);
  }

  lemma BracketFound(s: string, p: nat, j: nat)
    requires p <= j < |s| && s[j] == ']' && ScanFrom(s, p, 0, 1, 0) == ScanFrom(s, j, 0, 1, 0)
    ensures BracketEnd(s, p, 1) == j
  {
  }

  lemma {:induction false} PathResolves(h: Host, vals: Value, t: Tree)
    requires t.Path? && WellFormed(t)
    ensures ResolveOperand(h, vals, Print(t)) == Meaning(h, vals, t)
    decreases t, 0
  {
    var x, head := Print(t), t.head;
    PathText(t);
    PathFollows(h, vals, x, |head|, t.steps, Access(h, vals, Text(head)));
    PathIsNothingElse(x, head);
  }

  lemma PathText(t: Tree)
    requires t.Path? && WellFormed(t)
    ensures var x, head := Print(t), t.head;
            && head <= x && IdentEnd(x, 0) == |head| && Has(x, |head|, PrintSteps(t.steps))
            && |head| + |PrintSteps(t.steps)| == |x| && IsIdentStart(x[0])
            && (|x| > |head| ==> !IsIdentPart(x[|head|]))
  {
    var x, tail := Print(t), PrintSteps(t.steps);
    HasWhole(x);
    PathParts(x, 0, t.head, t.steps);
    StepsEnds(t.steps);
    HeadText(x, t.head, tail);
  }

  lemma HeadText(x: string, head: string, tail: string)
    requires Identifier(head) && Has(x, 0, head) && Has(x, |head|, tail) && |head| + |tail| == |x|
    requires tail != "" ==> tail[0] == '.' || tail[0] == '['
    ensures head <= x && IdentEnd(x, 0) == |head| && IsIdentStart(x[0]) && (|x| > |head| ==> !IsIdentPart(x[|head|]))
  {
    HasChar(x, 0, head, 0);
    if tail != "" { HasChar(x, |head|, tail, 0); }
    IdentEndAt(x, 0, head);
  }

  lemma PathIsNothingElse(x: string, head: string)
    requires x != "" && head != "" && IsIdentStart(x[0]) && head <= x
    requires x == head ==> !Keyword(head)
    requires |x| > |head| ==> !IsIdentPart(x[|head|])
    ensures x[0] != '!' && !Keyword(x) && !IsNumber(x) && !IsStringLiteral(x)
  {
    if Keyword(x) && |x| > |head| {
      assert IsIdentPart(x[|head|]);
    }
  }

  /** `resolve` of a printed expression is the meaning of the expression. */
  lemma {:induction false} RoundTrip(h: Host, vals: Value, t: Tree)
    requires WellFormed(t)
    ensures Resolve(h, vals, Print(t)) == Meaning(h, vals, t)
    decreases t, 2
  {
    match t
    case Lit(l) =>
      ResolvesOperand(h, vals, t);
      LiteralResolves(h, vals, l);
    case Path(_, _) =>
      ResolvesOperand(h, vals, t);
      PathResolves(h, vals, t);
    case Not(u) =>
      RoundTrip(h, vals, u);
      NotResolves(h, vals, t);
    case Equality(op, l, r) =>
      RoundTrip(h, vals, l);
      RoundTrip(h, vals, r);
      WrappedResolves(h, vals, t);
  }

  lemma NotResolves(h: Host, vals: Value, t: Tree)
    requires WellFormed(t) && t.Not? && Resolve(h, vals, Print(t.t)) == Meaning(h, vals, t.t)
    ensures Resolve(h, vals, Print(t)) == Meaning(h, vals, t)
  {
    ResolvesOperand(h, vals, t);
    assert Print(t)[0] == '!' && Print(t)[1..] == Print(t.t);
  }

  lemma WrappedResolves(h: Host, vals: Value, t: Tree)
    requires WellFormed(t) && t.Equality?
    requires Resolve(h, vals, Print(t.left)) == Meaning(h, vals, t.left)
    requires Resolve(h, vals, Print(t.right)) == Meaning(h, vals, t.right)
    ensures Resolve(h, vals, Print(t)) == Meaning(h, vals, t)
  {
    Unwrapped(h, vals, t);
    InnerResolves(h, vals, t.op, t.left, t.right);
  }

  /** A printed equality is resolved as the text between its parentheses. */
  lemma Unwrapped(h: Host, vals: Value, t: Tree)
    requires WellFormed(t) && t.Equality?
    ensures Resolve(h, vals, Print(t)) == Resolve(h, vals, Inner(t.op, t.left, t.right))
  {
    PrintedShape(t);
    InnerInside(t.op, t.left, t.right);
    ResolveWrapped(h, vals, Print(t), Print(t), Inner(t.op, t.left, t.right));
  }

  // ------------------------------------------------------- string literals with any content

  /** A quoted text of any content resolves to that content exactly when the scan finds no
      equality in it: the scan does not know about quotes. */
  lemma StringLiteralExact(h: Host, vals: Value, q: char, text: string)
    requires IsQuote(q)
    ensures var x := [q] + (text + [q]);
            Resolve(h, vals, x) == Text(text) <==> FindEquality(x, 0, 0) == None
  {
    var x := [q] + (text + [q]);
    TrimFixed(x);
    assert x[0] == q && x[|x| - 1] == q && x[1..|x| - 1] == text;
    if FindEquality(x, 0, 0) == None {
      assert !IsNumber(x);
    }
  }

  /** A literal holding `==` resolves to a comparison instead. */
  lemma StringLiteralBroken(h: Host, vals: Value)
    ensures Resolve(h, vals, ['\'', 'a', '=', '=', 'b', '\'']) != Text("a==b")
  {
    var x := ['\'', 'a', '=', '=', 'b', '\''];
    assert x == ['\''] + ("a==b" + ['\'']);
    assert x[..2] == ['\'', 'a'];
    TrimFixed(x[..2]);
    assert EqualityAt(x, 2);
    assert FindEquality(x, 0, 0) == FindEquality(x, 1, 0) == FindEquality(x, 2, 0) == Some((2, LooseEqual));
    StringLiteralExact(h, vals, '\'', "a==b");
  }
}
