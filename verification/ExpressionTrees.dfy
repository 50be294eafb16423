/**
 Evaluating the text of an expression tree gives the direct meaning of the tree.

 A tree is printed by `PrintedTrees`, with full parentheses; `Meaning` reads it without any text.
 What the evaluator makes of each kind of text comes after the main results.
 */
module ExpressionTrees {
  import opened Expression
  import opened Options
  import opened PrintedTrees
  import opened SealedText

  /** The meaning of a tree, without any text. */
  function Meaning<V>(host: Host<V>, vals: V, e: Expr): V {
    match e
    case True => host.boolean(true)
    case False => host.boolean(false)
    case Null => host.nil
    case Undefined => host.undef
    case Num(text) => host.number(text)
    case Str(_, body) => host.text(body)
    case Not(operand) => host.boolean(!host.truthy(Meaning(host, vals, operand)))
    case Equality(op, left, right) =>
      var l, r := Meaning(host, vals, left), Meaning(host, vals, right);
      (match op
       case StrictEqual => host.boolean(host.strictEqual(l, r))
       case StrictUnequal => host.boolean(!host.strictEqual(l, r))
       case LooseEqual => host.boolean(host.looseEqual(l, r))
       case LooseUnequal => host.boolean(!host.looseEqual(l, r)))
    case Spaced(_, inner, _) => Meaning(host, vals, inner)
    case Name(name) => if host.nullish(vals) then host.undef else host.index(vals, host.text(name))
    case Member(base, key) =>
      var value := Meaning(host, vals, base);
      if host.nullish(value) then host.undef else host.index(value, host.text(key))
    case At(base, index) =>
      var value, key := Meaning(host, vals, base), Meaning(host, vals, index);
      if host.nullish(value) then host.undef else host.index(value, key)
  }

  // ---- Main results ----

  /** Evaluating the printed form of a tree gives the meaning of the tree. */
  lemma {:induction false} ResolvePrint<V>(host: Host<V>, vals: V, e: Expr)
    requires WellFormed(e)
    ensures Resolve(host, vals, Print(e)) == Meaning(host, vals, e)
    decreases e, 1
  {
    if e.Num? {
      NumberExactly(e.text);
      ResolveNumber(host, vals, e.text);
    } else if e.Str? {
      ResolveQuoted(host, vals, e.quote, e.body);
    } else if e.Not? {
      PrintIsSealed(e.operand);
      ResolveNot(host, vals, Print(e.operand));
      ResolvePrint(host, vals, e.operand);
    } else if e.Equality? {
      ResolvePrint(host, vals, e.left);
      ResolvePrint(host, vals, e.right);
      ResolveEqualityTree(host, vals, e);
    } else if e.Spaced? {
      PrintIsSealed(e.inner);
      WhiteIsBlank(e.before);
      WhiteIsBlank(e.after);
      TrimSpaced(e.before, Print(e.inner), e.after);
      SameTrimSameValue(host, vals, Print(e), Print(e.inner));
      ResolvePrint(host, vals, e.inner);
    } else if IsPath(e) {
      PathIsNoLiteral(host, vals, e);
      WalkPath(host, vals, e, "");
      assert Print(e) + "" == Print(e);
    } else {
      ResolveKeyword(host, vals, e);
    }
  }

  /** A printed path leads to its meaning, whatever segments follow. */
  lemma {:induction false} WalkPath<V>(host: Host<V>, vals: V, e: Expr, more: string)
    requires WellFormedPath(e) && Boundary(more)
    ensures ResolvePath(host, vals, Print(e) + more) == Walk(host, vals, more, Meaning(host, vals, e))
    decreases e, 0
  {
    match e
    case Name(name) =>
      IdentLengthAppend(name, more);
    case Member(base, key) =>
      Associative(Print(base), "." + key, more);
      WalkPath(host, vals, base, "." + key + more);
      WalkMember(host, vals, key, more, Meaning(host, vals, base));
    case At(base, index) =>
      var segment := "[" + Print(index) + "]";
      Associative(Print(base), segment, more);
      WalkPath(host, vals, base, segment + more);
      PrintIsSealed(index);
      ResolvePrint(host, vals, index);
      WalkAt(host, vals, Print(index), more, Meaning(host, vals, base));
  }

  /**
   A quoted text stands for its body exactly when no operator is found in it: quotes do not
   protect `=` and `!`. The host tells strings from booleans.
   */
  lemma QuotedTextExactly<V>(host: Host<V>, vals: V, quote: char, body: string)
    requires quote == '"' || quote == '\''
    requires forall b, s :: host.boolean(b) != host.text(s)
    ensures Resolve(host, vals, [quote] + body + [quote]) == host.text(body)
       <==> forall k: nat | k < |body| + 2 :: !EqualityAt([quote] + body + [quote], k)
  {
    var expr := [quote] + body + [quote];
    assert expr[1..|expr| - 1] == body;
    if k: nat :| k < |expr| && EqualityAt(expr, k) {
      OperatorInQuotes(host, vals, expr);
    } else {
      NoOperatorInQuotes(host, vals, expr);
    }
  }

  // ---- The meaning of printed trees ----

  lemma MemberText(key: string, more: string)
    ensures var rest := "." + key + more;
            && rest[0] == '.' && rest[1..] == key + more
            && rest[1..1 + |key|] == key && rest[1 + |key|..] == more
  {
    var rest := "." + key + more;
    assert |rest| == 1 + |key| + |more|;
    assert forall i | 0 <= i < |key| + |more| :: rest[1 + i] == (key + more)[i];
  }

  lemma WalkName<V>(host: Host<V>, vals: V, rest: string, key: string, more: string, cur: V)
    requires rest != "" && rest[0] == '.' && NameLength(rest[1..]) == |key| > 0
    requires rest[1..1 + |key|] == key && rest[1 + |key|..] == more
    ensures Walk(host, vals, rest, cur) == Walk(host, vals, more, Get(host, cur, host.text(key)))
  {
  }

  lemma WalkMember<V>(host: Host<V>, vals: V, key: string, more: string, cur: V)
    requires IsName(key) && Boundary(more)
    ensures Walk(host, vals, "." + key + more, cur) == Walk(host, vals, more, Get(host, cur, host.text(key)))
  {
    NameLengthAppend(key, more);
    MemberText(key, more);
    WalkName(host, vals, "." + key + more, key, more, cur);
  }

  lemma WalkBracket<V>(host: Host<V>, vals: V, rest: string, at: nat, s: string, more: string, cur: V)
    requires rest != "" && rest[0] == '[' && ClosingFrom(rest, 1, 1) == Some(at)
    requires 1 <= at && rest[1..at] == s && rest[at + 1..] == more
    ensures Walk(host, vals, rest, cur) == Walk(host, vals, more, Get(host, cur, Resolve(host, vals, s)))
  {
  }

  lemma BracketText(s: string, more: string)
    ensures var rest := "[" + s + "]" + more;
            rest[0] == '[' && rest[1..1 + |s|] == s && rest[2 + |s|..] == more
  {
    var rest := "[" + s + "]" + more;
    assert |rest| == 2 + |s| + |more|;
  }

  lemma WalkAt<V>(host: Host<V>, vals: V, s: string, more: string, cur: V)
    requires Nested(Square, s)
    ensures Walk(host, vals, "[" + s + "]" + more, cur) == Walk(host, vals, more, Get(host, cur, Resolve(host, vals, s)))
  {
    ClosingPast(s, more, 0);
    assert s[..0] == "";
    BracketText(s, more);
    WalkBracket(host, vals, "[" + s + "]" + more, 1 + |s|, s, more, cur);
  }

  lemma KeywordChars(s: string, i: nat)
    requires IsKeyword(s) && i < |s|
    ensures IsIdentPart(s[i])
  {
  }

  lemma NotKeywordAt(s: string, i: nat)
    requires i < |s| && !IsIdentPart(s[i])
    ensures !IsKeyword(s)
  {
    if IsKeyword(s) {
      KeywordChars(s, i);
    }
  }

  lemma KeywordsAreNoLongPaths(e: Expr)
    requires WellFormedPath(e) && !e.Name?
    ensures !IsKeyword(Print(e))
  {
    var k := |Print(e.base)|;
    assert Print(e)[k] == if e.Member? then '.' else '[';
    NotKeywordAt(Print(e), k);
  }

  lemma IdentStartIsNoLiteral(s: string)
    requires s != "" && IsIdentStart(s[0])
    ensures !IsNumber(s) && !IsQuoted(s)
  {
  }

  lemma LeafIsPath<V>(host: Host<V>, vals: V, s: string)
    requires !IsKeyword(s) && !IsNumber(s) && !IsQuoted(s)
    ensures ResolveLeaf(host, vals, s) == ResolvePath(host, vals, s)
  {
  }

  /** A path that is no bare keyword is evaluated as a path. */
  lemma PathIsNoLiteral<V>(host: Host<V>, vals: V, e: Expr)
    requires WellFormedPath(e) && (e.Name? ==> !IsKeyword(e.name))
    ensures Resolve(host, vals, Print(e)) == ResolvePath(host, vals, Print(e))
  {
    var s := Print(e);
    PathIsFirm(e);
    if !e.Name? {
      KeywordsAreNoLongPaths(e);
    }
    SealedLeaf(host, vals, s);
    IdentStartIsNoLiteral(s);
    LeafIsPath(host, vals, s);
  }

  lemma ResolveNot<V>(host: Host<V>, vals: V, s: string)
    requires Sealed(s) && Inked(s)
    ensures Resolve(host, vals, "(" + ("!" + s) + ")") == host.boolean(!host.truthy(Resolve(host, vals, s)))
  {
    NotIsNested(s);
    ResolveParens(host, vals, "!" + s);
    SealedLeads(s);
    LeadingNegation(host, vals, s);
  }

  lemma ResolveComparison<V>(host: Host<V>, vals: V, left: string, op: EqualityOp, right: string)
    requires Sealed(left) && Inked(left) && Sealed(right) && Inked(right)
    ensures Resolve(host, vals, "(" + (left + OpText(op) + right) + ")")
         == Compare(host, op, Resolve(host, vals, left), Resolve(host, vals, right))
  {
    EqualityIsNested(left, op, right);
    ResolveParens(host, vals, left + OpText(op) + right);
    SealedLeads(left);
    SealedLeads(right);
    FirstOperatorSplits(host, vals, left, op, right);
  }

  lemma ResolveEqualityTree<V>(host: Host<V>, vals: V, e: Expr)
    requires e.Equality? && WellFormed(e)
    requires Resolve(host, vals, Print(e.left)) == Meaning(host, vals, e.left)
    requires Resolve(host, vals, Print(e.right)) == Meaning(host, vals, e.right)
    ensures Resolve(host, vals, Print(e)) == Meaning(host, vals, e)
  {
    PrintIsSealed(e.left);
    PrintIsSealed(e.right);
    EqualityMeans(host, vals, e);
    SignIsText(e.op);
    ResolveComparison(host, vals, Print(e.left), e.op, Print(e.right));
  }

  lemma EqualityMeans<V>(host: Host<V>, vals: V, e: Expr)
    requires e.Equality?
    ensures Meaning(host, vals, e) == Compare(host, e.op, Meaning(host, vals, e.left), Meaning(host, vals, e.right))
  {
  }

  lemma SignIsText(op: EqualityOp)
    ensures Sign(op) == OpText(op)
  {
  }

  lemma ResolveNumber<V>(host: Host<V>, vals: V, text: string)
    requires IsNumber(text)
    ensures Resolve(host, vals, text) == host.number(text)
  {
    NumberIsFirm(text);
    SealedLeaf(host, vals, text);
    NumberChars(text);
    assert !IsKeyword(text);
  }

  lemma ResolveQuoted<V>(host: Host<V>, vals: V, quote: char, body: string)
    requires (quote == '"' || quote == '\'') && Plain(body)
    ensures Resolve(host, vals, [quote] + body + [quote]) == host.text(body)
  {
    var expr := [quote] + body + [quote];
    QuotedIsFirm(quote, body);
    SealedLeaf(host, vals, expr);
    assert expr[1..|expr| - 1] == body;
  }

  lemma ResolveKeyword<V>(host: Host<V>, vals: V, e: Expr)
    requires e.True? || e.False? || e.Null? || e.Undefined?
    ensures Resolve(host, vals, Print(e)) == Meaning(host, vals, e)
  {
    KeywordIsFirm(Print(e));
    SealedLeaf(host, vals, Print(e));
  }

  lemma NoOperatorInQuotes<V>(host: Host<V>, vals: V, expr: string)
    requires IsQuoted(expr) && forall k: nat | k < |expr| :: !EqualityAt(expr, k)
    ensures Resolve(host, vals, expr) == host.text(expr[1..|expr| - 1])
  {
    TrimClosed(expr);
    NoEqualityFrom(expr, 0);
    Unwrapped(host, vals, expr);
    QuotedLeaf(host, vals, expr);
  }

  lemma QuotedLeaf<V>(host: Host<V>, vals: V, expr: string)
    requires IsQuoted(expr)
    ensures ResolveLeaf(host, vals, expr) == host.text(expr[1..|expr| - 1])
  {
    assert !IsKeyword(expr) && !IsNumber(expr);
  }

  lemma ComparisonIsBoolean<V>(host: Host<V>, op: EqualityOp, left: V, right: V)
    ensures exists b :: Compare(host, op, left, right) == host.boolean(b)
  {
    if op.StrictEqual? || op.StrictUnequal? {
      assert Compare(host, op, left, right) == host.boolean(host.strictEqual(left, right) == op.StrictEqual?);
    } else {
      assert Compare(host, op, left, right) == host.boolean(host.looseEqual(left, right) == op.LooseEqual?);
    }
  }

  /** Trimmed text that is not wrapped compares its two sides at the operator found. */
  lemma ComparedAt<V>(host: Host<V>, vals: V, expr: string, at: nat) returns (left: V, right: V)
    requires Trim(expr) == expr != "" && expr[0] != '(' && EqualityFrom(expr, 0) == Some(at)
    ensures Resolve(host, vals, expr) == Compare(host, OpAt(expr, at), left, right)
  {
    left, right := Resolve(host, vals, expr[..at]), Resolve(host, vals, expr[at + |OpText(OpAt(expr, at))|..]);
  }

  /** An operator in quotes makes the text a comparison. */
  lemma OperatorInQuotes<V>(host: Host<V>, vals: V, expr: string)
    requires IsQuoted(expr) && exists k: nat :: k < |expr| && EqualityAt(expr, k)
    ensures exists b :: Resolve(host, vals, expr) == host.boolean(b)
  {
    TrimClosed(expr);
    SomeEqualityFrom(expr, 0);
    var at := EqualityFrom(expr, 0).value;
    var left, right := ComparedAt(host, vals, expr, at);
    ComparisonIsBoolean(host, OpAt(expr, at), left, right);
  }

  lemma {:induction false} SomeEqualityFrom(expr: string, i: nat)
    requires exists k: nat :: i <= k < |expr| && EqualityAt(expr, k)
    ensures EqualityFrom(expr, i).Some?
    decreases |expr| - i
  {
    if i < |expr| && !EqualityAt(expr, i) {
      SomeEqualityFrom(expr, i + 1);
    }
  }
}
