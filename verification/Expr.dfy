/**
 * The expression language of the template runtime (docs/design/support.js): `resolve` and its
 * helpers evaluate a text directly, without tokens. The functions say what they compute; the
 * methods at the end are the loops and calls of the source.
 */
module Expr {
  import opened Wrappers
  import opened JsText

  /** JavaScript values. Numbers are exact; objects are known by identity only. */
  datatype Value =
    | Undefined
    | Null
    | Bool(b: bool)
    | Number(n: real)
    | NotANumber
    | Infinite(negative: bool)
    | Text(s: string)
    | Ref(id: nat)

  /** The host: property lookup on a value that is not null, and `==` between values of
      different types, neither of them null or undefined. */
  datatype Host = Host(get: (Value, Value) -> Value, coerced: (Value, Value) -> bool)

  datatype EqOp = StrictEqual | StrictUnequal | LooseEqual | LooseUnequal

  function OpText(op: EqOp): (t: string)
    ensures 2 <= |t| <= 3
  {
    match op
    case StrictEqual => "==="
    case StrictUnequal => "!=="
    case LooseEqual => "=="
    case LooseUnequal => "!="
  }

  predicate Nullish(v: Value) {
    v.Undefined? || v.Null?
  }

  predicate Truthy(v: Value) {
    match v
    case Undefined => false
    case Null => false
    case Bool(b) => b
    case Number(n) => n != 0.0
    case NotANumber => false
    case Infinite(_) => true
    case Text(s) => s != ""
    case Ref(_) => true
  }

  predicate SameType(a: Value, b: Value) {
    || (a.Bool? && b.Bool?)
    || (a.Text? && b.Text?)
    || (a.Ref? && b.Ref?)
    || ((a.Number? || a.NotANumber? || a.Infinite?) && (b.Number? || b.NotANumber? || b.Infinite?))
  }

  predicate StrictlyEqual(a: Value, b: Value) {
    a == b && !a.NotANumber?
  }

  predicate LooselyEqual(h: Host, a: Value, b: Value) {
    if Nullish(a) || Nullish(b) then Nullish(a) && Nullish(b)
    else if SameType(a, b) then StrictlyEqual(a, b)
    else h.coerced(a, b)
  }

  predicate Compare(h: Host, op: EqOp, a: Value, b: Value) {
    match op
    case StrictEqual => StrictlyEqual(a, b)
    case StrictUnequal => !StrictlyEqual(a, b)
    case LooseEqual => LooselyEqual(h, a, b)
    case LooseUnequal => !LooselyEqual(h, a, b)
  }

  function Access(h: Host, v: Value, key: Value): Value {
    if Nullish(v) then Undefined else h.get(v, key)
  }

  // ------------------------------------------------------------------------ characters, runs

  predicate IsDigit(c: char) {
    '0' <= c <= '9'
  }

  predicate IsIdentStart(c: char) {
    'A' <= c <= 'Z' || 'a' <= c <= 'z' || c == '_' || c == '$'
  }

  predicate IsIdentPart(c: char) {
    IsIdentStart(c) || IsDigit(c)
  }

  /** End of the longest run of digits at `i`. */
  function DigitsEnd(s: string, i: nat): (j: nat)
    requires i <= |s|
    ensures i <= j <= |s|
    decreases |s| - i
  {
    if i < |s| && IsDigit(s[i]) then DigitsEnd(s, i + 1) else i
  }

  function IdentRest(s: string, i: nat): (j: nat)
    requires i <= |s|
    ensures i <= j <= |s|
    decreases |s| - i
  {
    if i < |s| && IsIdentPart(s[i]) then IdentRest(s, i + 1) else i
  }

  /** End of the identifier at `i`, or `i` when there is none. */
  function IdentEnd(s: string, i: nat): (j: nat)
    requires i <= |s|
    ensures i <= j <= |s|
  {
    if i < |s| && IsIdentStart(s[i]) then IdentRest(s, i + 1) else i
  }

  /** End of the field name at `i`: an identifier, else digits, else `i`. */
  function FieldEnd(s: string, i: nat): (j: nat)
    requires i <= |s|
    ensures i <= j <= |s|
  {
    if IdentEnd(s, i) > i then IdentEnd(s, i) else DigitsEnd(s, i)
  }

  function SignEnd(s: string): (i: nat)
    requires s != ""
    ensures i <= 1
  {
    if s[0] == '-' then 1 else 0
  }

  /** An optional minus, digits, and optionally a point with more digits. */
  predicate IsNumber(s: string) {
    s != "" &&
    var i := SignEnd(s);
    var w := DigitsEnd(s, i);
    w > i && (w == |s| || (s[w] == '.' && w + 1 < |s| && DigitsEnd(s, w + 1) == |s|))
  }

  function DigitValue(c: char): nat
    requires IsDigit(c)
  {
    c as int - '0' as int
  }

  function DigitsValue(s: string): nat
    requires forall i :: 0 <= i < |s| ==> IsDigit(s[i])
  {
    if s == "" then 0 else 10 * DigitsValue(s[..|s| - 1]) + DigitValue(s[|s| - 1])
  }

  function Pow10(n: nat): (r: nat)
    ensures r > 0
  {
    if n == 0 then 1 else 10 * Pow10(n - 1)
  }

  function Decimal(negative: bool, whole: string, fraction: string): real
    requires forall i :: 0 <= i < |whole| ==> IsDigit(whole[i])
    requires forall i :: 0 <= i < |fraction| ==> IsDigit(fraction[i])
  {
    var v := DigitsValue(whole) as real + DigitsValue(fraction) as real / Pow10(|fraction|) as real;
    if negative then -v else v
  }

  lemma DigitsRun(s: string, i: nat)
    requires i <= |s|
    ensures forall k :: i <= k < DigitsEnd(s, i) ==> IsDigit(s[k])
    decreases |s| - i
  {
  }

  function NumberValue(s: string): real
    requires IsNumber(s)
  {
    var i := SignEnd(s);
    var w := DigitsEnd(s, i);
    DigitsRun(s, i);
    if w < |s| then DigitsRun(s, w + 1); Decimal(i == 1, s[i..w], s[w + 1..]) else Decimal(i == 1, s[i..w], "")
  }

  // --------------------------------------------------------------------------------- scanners

  /** From `i` on at parenthesis depth `depth`, no `)` before the last character closes depth 1. */
  predicate WrapsFrom(s: string, i: nat, depth: int)
    requires i <= |s|
    decreases |s| - i
  {
    if i + 1 >= |s| then true
    else if s[i] == '(' then WrapsFrom(s, i + 1, depth + 1)
    else if s[i] == ')' then depth - 1 != 0 && WrapsFrom(s, i + 1, depth - 1)
    else WrapsFrom(s, i + 1, depth)
  }

  predicate EqualityAt(s: string, i: nat)
    requires i < |s|
  {
    && (s[i] == '=' || s[i] == '!')
    && i + 1 < |s| && s[i + 1] == '='
    && !(i > 0 && (s[i - 1] == '=' || s[i - 1] == '!'))
    && Trim(s[..i]) != ""
  }

  function OpAt(s: string, i: nat): EqOp
    requires i + 1 < |s|
  {
    if i + 2 < |s| && s[i + 2] == '=' then (if s[i] == '=' then StrictEqual else StrictUnequal)
    else (if s[i] == '=' then LooseEqual else LooseUnequal)
  }

  /** The first equality operator outside brackets from `i` on, and where it is. */
  function FindEquality(s: string, i: nat, depth: int): (r: Option<(nat, EqOp)>)
    requires i <= |s|
    ensures r.Some? ==> i <= r.value.0 && r.value.0 + |OpText(r.value.1)| <= |s|
    decreases |s| - i
  {
    if i == |s| then None
    else if s[i] == '[' || s[i] == '(' then FindEquality(s, i + 1, depth + 1)
    else if s[i] == ']' || s[i] == ')' then FindEquality(s, i + 1, depth - 1)
    else if depth == 0 && EqualityAt(s, i) then Some((i, OpAt(s, i)))
    else FindEquality(s, i + 1, depth)
  }

  /** Index of the `]` that closes bracket depth `depth`, or the length of the text. */
  function BracketEnd(s: string, j: nat, depth: nat): (r: nat)
    requires j <= |s| && depth > 0
    ensures j <= r <= |s|
    decreases |s| - j
  {
    if j == |s| then j
    else if s[j] == '[' then BracketEnd(s, j + 1, depth + 1)
    else if s[j] == ']' then (if depth == 1 then j else BracketEnd(s, j + 1, depth - 1))
    else BracketEnd(s, j + 1, depth)
  }

  // -------------------------------------------------------------------------------- evaluator

  predicate IsWrapped(s: string) {
    s != "" && s[0] == '(' && s[|s| - 1] == ')' && WrapsFrom(s, 0, 0)
  }

  predicate IsStringLiteral(s: string) {
    |s| >= 2 && IsQuote(s[0]) && s[|s| - 1] == s[0]
  }

  /** `resolve`. It terminates on every text: each call is on a shorter one, and a path is
      resolved after its own text has been looked at. */
  function Resolve(h: Host, vals: Value, src: string): Value
    decreases |src|, 2, 0
  {
    var expr := Trim(src);
    if expr == "" then Undefined
    else if IsWrapped(expr) then Resolve(h, vals, expr[1..|expr| - 1])
    else
      var eq := FindEquality(expr, 0, 0);
      if eq.Some? then
        var left := Resolve(h, vals, expr[..eq.value.0]);
        var right := Resolve(h, vals, expr[eq.value.0 + |OpText(eq.value.1)|..]);
        Bool(Compare(h, eq.value.1, left, right))
      else ResolveOperand(h, vals, expr)
  }

  /** What `resolve` does with trimmed text that is neither wrapped nor an equality. */
  function ResolveOperand(h: Host, vals: Value, expr: string): Value
    requires expr != ""
    decreases |expr|, 1, 1
  {
    if expr[0] == '!' then Bool(!Truthy(Resolve(h, vals, expr[1..])))
    else if expr == "true" then Bool(true)
    else if expr == "false" then Bool(false)
    else if expr == "null" then Null
    else if expr == "undefined" then Undefined
    else if IsNumber(expr) then Number(NumberValue(expr))
    else if IsStringLiteral(expr) then Text(expr[1..|expr| - 1])
    else ResolvePath(h, vals, expr)
  }

  /** `resolvePath`: an identifier, then fields and bracketed keys up to the end. */
  function ResolvePath(h: Host, vals: Value, expr: string): Value
    decreases |expr|, 1, 0
  {
    var i := IdentEnd(expr, 0);
    if i == 0 then Undefined else PathFrom(h, vals, expr, i, Access(h, vals, Text(expr[..i])))
  }

  function PathFrom(h: Host, vals: Value, expr: string, i: nat, cur: Value): Value
    requires 0 < i <= |expr|
    decreases |expr|, 0, |expr| - i
  {
    if i == |expr| then cur
    else if expr[i] == '.' then
      var e := FieldEnd(expr, i + 1);
      if e == i + 1 then Undefined else PathFrom(h, vals, expr, e, Access(h, cur, Text(expr[i + 1..e])))
    else if expr[i] == '[' then
      var j := BracketEnd(expr, i + 1, 1);
      if j == |expr| then Undefined
      else PathFrom(h, vals, expr, j + 1, Access(h, cur, Resolve(h, vals, expr[i + 1..j])))
    else Undefined
  }

  // The three ways a text is resolved, with the texts involved named.

  lemma ResolveWrapped(h: Host, vals: Value, src: string, expr: string, inner: string)
    requires expr == Trim(src) && IsWrapped(expr) && |expr| >= 2 && inner == expr[1..|expr| - 1]
    ensures Resolve(h, vals, src) == Resolve(h, vals, inner)
  {
  }

  lemma ResolveEquality(h: Host, vals: Value, src: string, expr: string, i: nat, op: EqOp)
    requires expr == Trim(src) && expr != "" && !IsWrapped(expr) && FindEquality(expr, 0, 0) == Some((i, op))
    ensures i + |OpText(op)| <= |expr|
    ensures Resolve(h, vals, src) ==
            Bool(Compare(h, op, Resolve(h, vals, expr[..i]), Resolve(h, vals, expr[i + |OpText(op)|..])))
  {
  }

  lemma ResolveOther(h: Host, vals: Value, src: string, expr: string)
    requires expr == Trim(src) && expr != "" && !IsWrapped(expr) && FindEquality(expr, 0, 0) == None
    ensures Resolve(h, vals, src) == ResolveOperand(h, vals, expr)
  {
  }

  // One turn of the path loop.

  lemma PathAtField(h: Host, vals: Value, s: string, i: nat, e: nat, cur: Value, name: string)
    requires 0 < i < i + 1 < e <= |s| && s[i] == '.' && FieldEnd(s, i + 1) == e && s[i + 1..e] == name
    ensures PathFrom(h, vals, s, i, cur) == PathFrom(h, vals, s, e, Access(h, cur, Text(name)))
  {
  }

  lemma PathAtBracket(h: Host, vals: Value, s: string, i: nat, e: nat, cur: Value, inside: string, key: Value)
    requires 0 < i < e - 1 < |s| && s[i] == '[' && BracketEnd(s, i + 1, 1) == e - 1 && s[i + 1..e - 1] == inside
    requires key == Resolve(h, vals, inside)
    ensures PathFrom(h, vals, s, i, cur) == PathFrom(h, vals, s, e, Access(h, cur, key))
  {
  }

  // ---------------------------------------------------------------------- the source's loops

  method ParensWrapWhole(expr: string) returns (r: bool)
    ensures r == WrapsFrom(expr, 0, 0)
  {
    var depth := 0;
    var i := 0;
    while i < |expr| - 1
      invariant 0 <= i <= |expr|
      invariant WrapsFrom(expr, 0, 0) == WrapsFrom(expr, i, depth)
    {
      if expr[i] == '(' {
        depth := depth + 1;
      } else if expr[i] == ')' {
        depth := depth - 1;
        if depth == 0 {
          return false;
        }
      }
      i := i + 1;
    }
    return true;
  }

  method FindTopLevelEquality(expr: string) returns (r: Option<(nat, EqOp)>)
    ensures r == FindEquality(expr, 0, 0)
  {
    var depth := 0;
    var i := 0;
    while i < |expr|
      invariant 0 <= i <= |expr|
      invariant FindEquality(expr, 0, 0) == FindEquality(expr, i, depth)
    {
      var c := expr[i];
      if c == '[' || c == '(' {
        depth := depth + 1;
      } else if c == ']' || c == ')' {
        depth := depth - 1;
      } else if depth == 0 && (c == '=' || c == '!') && i + 1 < |expr| && expr[i + 1] == '=' {
        if !(i > 0 && (expr[i - 1] == '=' || expr[i - 1] == '!')) && Trim(expr[..i]) != "" {
          return Some((i, OpAt(expr, i)));
        }
      }
      i := i + 1;
    }
    return None;
  }

  method Evaluate(h: Host, vals: Value, src: string) returns (v: Value)
    ensures v == Resolve(h, vals, src)
    decreases |src|, 2, 0
  {
    var expr := Trim(src);
    if expr == "" {
      return Undefined;
    }
    if expr[0] == '(' && expr[|expr| - 1] == ')' {
      var whole := ParensWrapWhole(expr);
      if whole {
        ResolveWrapped(h, vals, src, expr, expr[1..|expr| - 1]);
        v := Evaluate(h, vals, expr[1..|expr| - 1]);
        return;
      }
    }
    var eq := FindTopLevelEquality(expr);
    if eq.Some? {
      var (index, op) := eq.value;
      ResolveEquality(h, vals, src, expr, index, op);
      var left := Evaluate(h, vals, expr[..index]);
      var right := Evaluate(h, vals, expr[index + |OpText(op)|..]);
      return Bool(Compare(h, op, left, right));
    }
    ResolveOther(h, vals, src, expr);
    v := EvaluateOperand(h, vals, expr);
  }

  method EvaluateOperand(h: Host, vals: Value, expr: string) returns (v: Value)
    requires expr != ""
    ensures v == ResolveOperand(h, vals, expr)
    decreases |expr|, 1, 1
  {
    if expr[0] == '!' {
      var inner := Evaluate(h, vals, expr[1..]);
      return Bool(!Truthy(inner));
    }
    if expr == "true" { return Bool(true); }
    if expr == "false" { return Bool(false); }
    if expr == "null" { return Null; }
    if expr == "undefined" { return Undefined; }
    if IsNumber(expr) { return Number(NumberValue(expr)); }
    if IsStringLiteral(expr) { return Text(expr[1..|expr| - 1]); }
    v := EvaluatePath(h, vals, expr);
  }

  /** The bracket-counting loop of `resolvePath`: the closing bracket, or the end of the text. */
  method ClosingBracket(expr: string, from: nat) returns (j: nat)
    requires from <= |expr|
    ensures j == BracketEnd(expr, from, 1)
  {
    var depth: nat := 1;
    j := from;
    while j < |expr|
      invariant from <= j <= |expr| && depth > 0
      invariant BracketEnd(expr, j, depth) == BracketEnd(expr, from, 1)
    {
      if expr[j] == '[' {
        depth := depth + 1;
      } else if expr[j] == ']' {
        depth := depth - 1;
        if depth == 0 {
          break;
        }
      }
      j := j + 1;
    }
  }

  method EvaluatePath(h: Host, vals: Value, expr: string) returns (v: Value)
    ensures v == ResolvePath(h, vals, expr)
    decreases |expr|, 1, 0
  {
    var i := IdentEnd(expr, 0);
    if i == 0 {
      return Undefined;
    }
    v := Access(h, vals, Text(expr[..i]));
    ghost var goal := PathFrom(h, vals, expr, i, v);
    while i < |expr|
      invariant 0 < i <= |expr|
      invariant PathFrom(h, vals, expr, i, v) == goal
    {
      var malformed;
      malformed, i, v := PathTurn(h, vals, expr, i, v);
      if malformed {
        return Undefined;
      }
    }
  }

  /** The key between two brackets. */
  method KeyBetween(h: Host, vals: Value, expr: string, i: nat, j: nat, ghost cur: Value) returns (key: Value)
    requires 0 < i < j < |expr| && expr[i] == '[' && BracketEnd(expr, i + 1, 1) == j
    ensures PathFrom(h, vals, expr, i, cur) == PathFrom(h, vals, expr, j + 1, Access(h, cur, key))
    decreases |expr|, 0, 0
  {
    var inside := expr[i + 1..j];
    key := Evaluate(h, vals, inside);
    PathAtBracket(h, vals, expr, i, j + 1, cur, inside, key);
  }

  /** The body of the loop of `resolvePath`. */
  method PathTurn(h: Host, vals: Value, expr: string, i: nat, cur: Value) returns (malformed: bool, next: nat, v: Value)
    requires 0 < i < |expr|
    ensures malformed ==> PathFrom(h, vals, expr, i, cur) == Undefined
    ensures !malformed ==> i < next <= |expr| && PathFrom(h, vals, expr, i, cur) == PathFrom(h, vals, expr, next, v)
    decreases |expr|, 0, 1
  {
    if expr[i] == '.' {
      var e := FieldEnd(expr, i + 1);
      if e == i + 1 {
        return true, i, cur;
      }
      PathAtField(h, vals, expr, i, e, cur, expr[i + 1..e]);
      return false, e, Access(h, cur, Text(expr[i + 1..e]));
    } else if expr[i] == '[' {
      var j := ClosingBracket(expr, i + 1);
      if j == |expr| {
        return true, i, cur;
      }
      var key := KeyBetween(h, vals, expr, i, j, cur);
      return false, j + 1, Access(h, cur, key);
    } else {
      return true, i, cur;
    }
  }
}
