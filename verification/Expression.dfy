/**
 The template expression evaluator. It slices the text it evaluates: parentheses around the
 whole, the first equality outside brackets, a leading negation, literals, and paths.
 A string here is a sequence of UTF-16 code units of the basic plane.
 */
module Expression {
  import opened Options

  /** The host language's values, as far as the evaluator uses them. */
  datatype Host<!V> = Host(undef: V, nil: V, boolean: bool -> V, number: string -> V, text: string -> V,
                           truthy: V -> bool, nullish: V -> bool, index: (V, V) -> V,
                           strictEqual: (V, V) -> bool, looseEqual: (V, V) -> bool)

  // ---- Characters ----

  predicate IsSpace(c: char) {
    || '\t' <= c <= '\r'
    || c == ' ' || c == '\U{00a0}' || c == '\U{1680}'
    || '\U{2000}' <= c <= '\U{200a}'
    || c == '\U{2028}' || c == '\U{2029}' || c == '\U{202f}' || c == '\U{205f}' || c == '\U{3000}' || c == '\U{feff}'
  }

  predicate IsDigit(c: char) {
    '0' <= c <= '9'
  }

  predicate IsIdentStart(c: char) {
    'A' <= c <= 'Z' || 'a' <= c <= 'z' || c == '_' || c == '$'
  }

  predicate IsIdentPart(c: char) {
    IsIdentStart(c) || IsDigit(c)
  }

  function TrimStart(s: string): string {
    if s != "" && IsSpace(s[0]) then TrimStart(s[1..]) else s
  }

  function TrimEnd(s: string): string {
    if s != "" && IsSpace(s[|s| - 1]) then TrimEnd(s[..|s| - 1]) else s
  }

  function Trim(s: string): string {
    TrimEnd(TrimStart(s))
  }

  lemma {:induction false} TrimStartShrinks(s: string)
    ensures |TrimStart(s)| <= |s|
  {
    if s != "" && IsSpace(s[0]) {
      TrimStartShrinks(s[1..]);
    }
  }

  lemma {:induction false} TrimEndShrinks(s: string)
    ensures |TrimEnd(s)| <= |s|
  {
    if s != "" && IsSpace(s[|s| - 1]) {
      TrimEndShrinks(s[..|s| - 1]);
    }
  }

  lemma TrimShrinks(s: string)
    ensures |Trim(s)| <= |s|
  {
    TrimStartShrinks(s);
    TrimEndShrinks(TrimStart(s));
  }

  // ---- Bracket depth ----

  datatype Brackets = Round | Square | Both

  function Weight(brackets: Brackets, c: char): int {
    if c == '(' then (if brackets.Square? then 0 else 1)
    else if c == ')' then (if brackets.Square? then 0 else -1)
    else if c == '[' then (if brackets.Round? then 0 else 1)
    else if c == ']' then (if brackets.Round? then 0 else -1)
    else 0
  }

  /** Opening minus closing brackets. */
  function Depth(brackets: Brackets, s: string): int {
    if s == "" then 0 else Depth(brackets, s[..|s| - 1]) + Weight(brackets, s[|s| - 1])
  }

  lemma DepthNext(brackets: Brackets, s: string, k: nat)
    requires k < |s|
    ensures Depth(brackets, s[..k + 1]) == Depth(brackets, s[..k]) + Weight(brackets, s[k])
  {
    assert s[..k + 1][..k] == s[..k];
  }

  /** No parenthesis closes the first one before the last character. */
  ghost predicate WrapsWhole(expr: string) {
    forall i | 0 <= i < |expr| - 1 && expr[i] == ')' :: Depth(Round, expr[..i + 1]) != 0
  }

  method ParensWrapWhole(expr: string) returns (whole: bool)
    ensures whole <==> WrapsWhole(expr)
  {
    var depth, i := 0, 0;
    while i < |expr| - 1
      invariant 0 <= i && (i < |expr| || i == 0)
      invariant depth == Depth(Round, expr[..i])
      invariant forall j | 0 <= j < i && expr[j] == ')' :: Depth(Round, expr[..j + 1]) != 0
    {
      DepthNext(Round, expr, i);
      if expr[i] == '(' {
        depth := depth + 1;
      } else if expr[i] == ')' {
        depth := depth - 1;
        if depth == 0 {
          return false;
        }
      }
      i := i + 1;
    }
    whole := true;
  }

  // ---- Top-level equality ----

  datatype EqualityOp = StrictEqual | StrictUnequal | LooseEqual | LooseUnequal

  function OpText(op: EqualityOp): string {
    match op
    case StrictEqual => "==="
    case StrictUnequal => "!=="
    case LooseEqual => "=="
    case LooseUnequal => "!="
  }

  /** An operator starts at `i`: outside brackets, not inside another operator, with text before it. */
  predicate EqualityAt(expr: string, i: nat) {
    && i + 1 < |expr|
    && Depth(Both, expr[..i]) == 0
    && (expr[i] == '=' || expr[i] == '!')
    && expr[i + 1] == '='
    && !(i > 0 && (expr[i - 1] == '=' || expr[i - 1] == '!'))
    && Trim(expr[..i]) != ""
  }

  function OpAt(expr: string, i: nat): (op: EqualityOp)
    requires EqualityAt(expr, i)
    ensures i + |OpText(op)| <= |expr| && expr[i..i + |OpText(op)|] == OpText(op)
  {
    if i + 2 < |expr| && expr[i + 2] == '=' then (if expr[i] == '=' then StrictEqual else StrictUnequal)
    else if expr[i] == '=' then LooseEqual
    else LooseUnequal
  }

  function EqualityFrom(expr: string, i: nat): (index: Option<nat>)
    ensures index.Some? ==> EqualityAt(expr, index.value)
    decreases |expr| - i
  {
    if i >= |expr| then None
    else if EqualityAt(expr, i) then Some(i)
    else EqualityFrom(expr, i + 1)
  }

  method FindTopLevelEquality(expr: string) returns (index: Option<nat>)
    ensures index == EqualityFrom(expr, 0)
    ensures index.Some? ==> EqualityAt(expr, index.value) && forall j: nat | j < index.value :: !EqualityAt(expr, j)
    ensures index.None? ==> forall j: nat :: !EqualityAt(expr, j)
  {
    var depth := 0;
    for i := 0 to |expr|
      invariant depth == Depth(Both, expr[..i])
      invariant EqualityFrom(expr, 0) == EqualityFrom(expr, i)
      invariant forall j: nat | j < i :: !EqualityAt(expr, j)
    {
      DepthNext(Both, expr, i);
      var c := expr[i];
      if c == '[' || c == '(' {
        depth := depth + 1;
      } else if c == ']' || c == ')' {
        depth := depth - 1;
      } else if depth == 0 && (c == '=' || c == '!') && i + 1 < |expr| && expr[i + 1] == '=' {
        if i > 0 && (expr[i - 1] == '=' || expr[i - 1] == '!') {
          continue;
        }
        if Trim(expr[..i]) == "" {
          continue;
        }
        return Some(i);
      }
    }
    index := None;
  }

  // ---- Names and numbers ----

  function PartLength(s: string): (n: nat)
    ensures n <= |s|
  {
    if s != "" && IsIdentPart(s[0]) then 1 + PartLength(s[1..]) else 0
  }

  function DigitLength(s: string): (n: nat)
    ensures n <= |s|
  {
    if s != "" && IsDigit(s[0]) then 1 + DigitLength(s[1..]) else 0
  }

  /** The length of the identifier at the front, 0 when there is none. */
  function IdentLength(s: string): (n: nat)
    ensures n <= |s|
  {
    if s != "" && IsIdentStart(s[0]) then 1 + PartLength(s[1..]) else 0
  }

  /** What may follow a dot: an identifier, or digits. */
  function NameLength(s: string): (n: nat)
    ensures n <= |s|
  {
    if IdentLength(s) > 0 then IdentLength(s) else DigitLength(s)
  }

  predicate IsUnsigned(s: string) {
    var n := DigitLength(s);
    n > 0 && (n == |s| || (s[n] == '.' && n + 1 < |s| && DigitLength(s[n + 1..]) == |s| - n - 1))
  }

  predicate IsNumber(s: string) {
    if s != "" && s[0] == '-' then IsUnsigned(s[1..]) else IsUnsigned(s)
  }

  predicate IsQuoted(s: string) {
    |s| >= 2 && (s[0] == '"' || s[0] == '\'') && s[|s| - 1] == s[0]
  }

  // ---- Evaluation ----

  function Get<V>(host: Host<V>, value: V, key: V): V {
    if host.nullish(value) then host.undef else host.index(value, key)
  }

  function Compare<V>(host: Host<V>, op: EqualityOp, left: V, right: V): V {
    match op
    case StrictEqual => host.boolean(host.strictEqual(left, right))
    case StrictUnequal => host.boolean(!host.strictEqual(left, right))
    case LooseEqual => host.boolean(host.looseEqual(left, right))
    case LooseUnequal => host.boolean(!host.looseEqual(left, right))
  }

  /** Where the bracket that is open at the start of `s` is closed. */
  function ClosingFrom(s: string, j: nat, depth: nat): (at: Option<nat>)
    requires j <= |s| && depth > 0
    ensures at.Some? ==> j <= at.value < |s|
    decreases |s| - j
  {
    if j == |s| then None
    else if s[j] == '[' then ClosingFrom(s, j + 1, depth + 1)
    else if s[j] == ']' then (if depth == 1 then Some(j) else ClosingFrom(s, j + 1, depth - 1))
    else ClosingFrom(s, j + 1, depth)
  }

  ghost function Resolve<V>(host: Host<V>, vals: V, src: string): V
    decreases |src|, 4
  {
    TrimShrinks(src);
    var expr := Trim(src);
    if expr == "" then host.undef
    else if expr[0] == '(' && expr[|expr| - 1] == ')' && WrapsWhole(expr) then Resolve(host, vals, expr[1..|expr| - 1])
    else ResolveUnwrapped(host, vals, expr)
  }

  /** A comparison, a negation, or else a leaf. */
  ghost function ResolveUnwrapped<V>(host: Host<V>, vals: V, expr: string): V
    requires expr != ""
    decreases |expr|, 3
  {
    var eq := EqualityFrom(expr, 0);
    if eq.Some? then
      var op := OpAt(expr, eq.value);
      Compare(host, op, Resolve(host, vals, expr[..eq.value]), Resolve(host, vals, expr[eq.value + |OpText(op)|..]))
    else if expr[0] == '!' then host.boolean(!host.truthy(Resolve(host, vals, expr[1..])))
    else ResolveLeaf(host, vals, expr)
  }

  /** A keyword, a number, a quoted text, or else a path. */
  ghost function ResolveLeaf<V>(host: Host<V>, vals: V, expr: string): V
    decreases |expr|, 2
  {
    if expr == "true" then host.boolean(true)
    else if expr == "false" then host.boolean(false)
    else if expr == "null" then host.nil
    else if expr == "undefined" then host.undef
    else if IsNumber(expr) then host.number(expr)
    else if IsQuoted(expr) then host.text(expr[1..|expr| - 1])
    else ResolvePath(host, vals, expr)
  }

  ghost function ResolvePath<V>(host: Host<V>, vals: V, expr: string): V
    decreases |expr|, 1
  {
    var n := IdentLength(expr);
    if n == 0 then host.undef else Walk(host, vals, expr[n..], Get(host, vals, host.text(expr[..n])))
  }

  /** The value that the path segments in `rest` lead to from `cur`. */
  ghost function Walk<V>(host: Host<V>, vals: V, rest: string, cur: V): V
    decreases |rest|, 0
  {
    if rest == "" then cur
    else if rest[0] == '.' then
      var n := NameLength(rest[1..]);
      if n == 0 then host.undef
      else Walk(host, vals, rest[1 + n..], Get(host, cur, host.text(rest[1..1 + n])))
    else if rest[0] == '[' then
      var at := ClosingFrom(rest, 1, 1);
      if at.None? then host.undef
      else Walk(host, vals, rest[at.value + 1..], Get(host, cur, Resolve(host, vals, rest[1..at.value])))
    else host.undef
  }

  method Evaluate<V>(host: Host<V>, vals: V, src: string) returns (value: V)
    ensures value == Resolve(host, vals, src)
    decreases |src|, 4
  {
    TrimShrinks(src);
    var expr := Trim(src);
    if expr == "" {
      return host.undef;
    }
    if expr[0] == '(' && expr[|expr| - 1] == ')' {
      var whole := ParensWrapWhole(expr);
      if whole {
        value := Evaluate(host, vals, expr[1..|expr| - 1]);
        return;
      }
    }
    value := EvaluateUnwrapped(host, vals, expr);
  }

  method EvaluateUnwrapped<V>(host: Host<V>, vals: V, expr: string) returns (value: V)
    requires expr != ""
    ensures value == ResolveUnwrapped(host, vals, expr)
    decreases |expr|, 3
  {
    var eq := FindTopLevelEquality(expr);
    if eq.Some? {
      var op := OpAt(expr, eq.value);
      var left := Evaluate(host, vals, expr[..eq.value]);
      var right := Evaluate(host, vals, expr[eq.value + |OpText(op)|..]);
      match op
      case StrictEqual => return host.boolean(host.strictEqual(left, right));
      case StrictUnequal => return host.boolean(!host.strictEqual(left, right));
      case LooseEqual => return host.boolean(host.looseEqual(left, right));
      case LooseUnequal => return host.boolean(!host.looseEqual(left, right));
    }
    if expr[0] == '!' {
      var operand := Evaluate(host, vals, expr[1..]);
      return host.boolean(!host.truthy(operand));
    }
    value := EvaluateLeaf(host, vals, expr);
  }

  method EvaluateLeaf<V>(host: Host<V>, vals: V, expr: string) returns (value: V)
    ensures value == ResolveLeaf(host, vals, expr)
    decreases |expr|, 2
  {
    if expr == "true" {
      return host.boolean(true);
    }
    if expr == "false" {
      return host.boolean(false);
    }
    if expr == "null" {
      return host.nil;
    }
    if expr == "undefined" {
      return host.undef;
    }
    if IsNumber(expr) {
      return host.number(expr);
    }
    if IsQuoted(expr) {
      return host.text(expr[1..|expr| - 1]);
    }
    value := EvaluatePath(host, vals, expr);
  }

  lemma WalkDot<V>(host: Host<V>, vals: V, expr: string, i: nat, cur: V, j: nat, next: V)
    requires i < |expr| && expr[i] == '.' && NameLength(expr[i + 1..]) > 0 && j == i + 1 + NameLength(expr[i + 1..])
    requires next == Get(host, cur, host.text(expr[i + 1..j]))
    ensures Walk(host, vals, expr[i..], cur) == Walk(host, vals, expr[j..], next)
  {
    var rest, n := expr[i..], NameLength(expr[i + 1..]);
    assert rest[1..] == expr[i + 1..];
    assert rest[1..1 + n] == expr[i + 1..j];
    assert rest[1 + n..] == expr[j..];
  }

  lemma WalkIndex<V>(host: Host<V>, vals: V, expr: string, i: nat, cur: V, j: nat, next: V)
    requires i < j <= |expr| && expr[i] == '[' && ClosingFrom(expr[i..], 1, 1) == Some(j - 1 - i)
    requires next == Get(host, cur, Resolve(host, vals, expr[i + 1..j - 1]))
    ensures Walk(host, vals, expr[i..], cur) == Walk(host, vals, expr[j..], next)
  {
    var rest, at := expr[i..], j - 1 - i;
    assert rest[1..at] == expr[i + 1..j - 1];
    assert rest[at + 1..] == expr[j..];
  }

  method EvaluatePath<V>(host: Host<V>, vals: V, expr: string) returns (value: V)
    ensures value == ResolvePath(host, vals, expr)
    decreases |expr|, 1
  {
    var head := IdentLength(expr);
    if head == 0 {
      return host.undef;
    }
    var cur := if host.nullish(vals) then host.undef else host.index(vals, host.text(expr[..head]));
    var i := head;
    while i < |expr|
      invariant head <= i <= |expr|
      invariant ResolvePath(host, vals, expr) == Walk(host, vals, expr[i..], cur)
    {
      var step := Segment(host, vals, expr, i, cur);
      if step.None? {
        return host.undef;
      }
      i, cur := step.value.0, step.value.1;
    }
    value := cur;
  }

  /** One turn of the path loop: the next position and value, or nothing when the path is malformed. */
  method Segment<V>(host: Host<V>, vals: V, expr: string, i: nat, cur: V) returns (step: Option<(nat, V)>)
    requires i < |expr|
    ensures step.None? ==> Walk(host, vals, expr[i..], cur) == host.undef
    ensures step.Some? ==>
      && i < step.value.0 <= |expr|
      && Walk(host, vals, expr[i..], cur) == Walk(host, vals, expr[step.value.0..], step.value.1)
    decreases |expr|, 0
  {
    if expr[i] == '.' {
      assert expr[i..][1..] == expr[i + 1..];
      var n := NameLength(expr[i + 1..]);
      if n == 0 {
        return None;
      }
      var j := i + 1 + n;
      var next := if host.nullish(cur) then host.undef else host.index(cur, host.text(expr[i + 1..j]));
      WalkDot(host, vals, expr, i, cur, j, next);
      return Some((j, next));
    }
    if expr[i] == '[' {
      var at := ClosingBracket(expr, i);
      if at.None? {
        return None;
      }
      var j := at.value + 1;
      var key := Evaluate(host, vals, expr[i + 1..j - 1]);
      var next := if host.nullish(cur) then host.undef else host.index(cur, key);
      WalkIndex(host, vals, expr, i, cur, j, next);
      return Some((j, next));
    }
    step := None;
  }

  /** The inner scan: the bracket that closes the one at `i`. */
  method ClosingBracket(expr: string, i: nat) returns (at: Option<nat>)
    requires i < |expr| && expr[i] == '['
    ensures at == match ClosingFrom(expr[i..], 1, 1) case None => None case Some(j) => Some(i + j)
  {
    var rest := expr[i..];
    var depth, j := 1, i + 1;
    while j < |expr| && depth > 0
      invariant i < j <= |expr| && depth > 0
      invariant ClosingFrom(rest, 1, 1) == ClosingFrom(rest, j - i, depth)
      decreases |expr| - j
    {
      assert rest[j - i] == expr[j];
      if expr[j] == '[' {
        depth := depth + 1;
      } else if expr[j] == ']' {
        depth := depth - 1;
        if depth == 0 {
          return Some(j);
        }
      }
      j := j + 1;
    }
    at := None;
  }
}
