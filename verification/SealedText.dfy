/**
 Texts in which brackets nest and no operator character stands outside of them, and how the
 evaluator treats them: which operator it finds, what trimming leaves, when it takes off a pair
 of parentheses.

 Sealed texts are closed under appending and enclosing. The texts that `ExpressionTrees` prints
 are built that way, and so are sealed; this is what lets the evaluator find its way back from
 a text to the tree it was printed from.
 */
module SealedText {
  import opened Expression
  import opened Options

  predicate PlainChar(c: char) {
    c != '(' && c != ')' && c != '[' && c != ']' && c != '=' && c != '!'
  }

  ghost predicate Plain(s: string) {
    forall c | c in s :: PlainChar(c)
  }

  ghost predicate Blank(s: string) {
    forall c | c in s :: IsSpace(c)
  }

  // ---- Sealed text: brackets nest, and no operator character is outside of them ----

  ghost predicate Nested(brackets: Brackets, s: string) {
    Depth(brackets, s) == 0 && forall k | 0 <= k <= |s| :: Depth(brackets, s[..k]) >= 0
  }

  ghost predicate AllNested(s: string) {
    forall brackets: Brackets :: Nested(brackets, s)
  }

  ghost predicate Quiet(s: string) {
    forall k | 0 <= k < |s| && (s[k] == '=' || s[k] == '!') :: Depth(Both, s[..k]) > 0
  }

  ghost predicate Sealed(s: string) {
    AllNested(s) && Quiet(s)
  }

  lemma {:induction false} DepthAppend(brackets: Brackets, a: string, b: string)
    ensures Depth(brackets, a + b) == Depth(brackets, a) + Depth(brackets, b)
  {
    if b == "" {
      assert a + b == a;
    } else {
      DepthAppend(brackets, a, b[..|b| - 1]);
      assert (a + b)[..|a + b| - 1] == a + b[..|b| - 1];
    }
  }

  lemma DepthWithin(brackets: Brackets, a: string, b: string, k: nat)
    requires k <= |a + b|
    ensures Depth(brackets, (a + b)[..k])
         == if k < |a| then Depth(brackets, a[..k]) else Depth(brackets, a) + Depth(brackets, b[..k - |a|])
  {
    if k < |a| {
      assert (a + b)[..k] == a[..k];
    } else {
      assert (a + b)[..k] == a + b[..k - |a|];
      DepthAppend(brackets, a, b[..k - |a|]);
    }
  }

  lemma NestedAppend(brackets: Brackets, a: string, b: string)
    requires Nested(brackets, a) && Nested(brackets, b)
    ensures Nested(brackets, a + b)
  {
    DepthAppend(brackets, a, b);
    forall k | 0 <= k <= |a + b|
      ensures Depth(brackets, (a + b)[..k]) >= 0
    {
      DepthWithin(brackets, a, b, k);
    }
  }

  lemma NestedAppendAll(a: string, b: string)
    requires AllNested(a) && AllNested(b)
    ensures AllNested(a + b)
  {
    forall brackets: Brackets
      ensures Nested(brackets, a + b)
    {
      NestedAppend(brackets, a, b);
    }
  }

  lemma WeightlessIsAllNested(s: string)
    requires forall c | c in s :: c != '(' && c != ')' && c != '[' && c != ']'
    ensures AllNested(s)
  {
    forall brackets: Brackets
      ensures Nested(brackets, s)
    {
      WeightlessIsNested(brackets, s);
    }
  }

  lemma QuietAppend(a: string, b: string)
    requires Depth(Both, a) == 0 && Quiet(a) && Quiet(b)
    ensures Quiet(a + b)
  {
    forall k | 0 <= k < |a + b| && ((a + b)[k] == '=' || (a + b)[k] == '!')
      ensures Depth(Both, (a + b)[..k]) > 0
    {
      DepthWithin(Both, a, b, k);
      assert (a + b)[k] == if k < |a| then a[k] else b[k - |a|];
    }
  }

  lemma SealedAppend(a: string, b: string)
    requires Sealed(a) && Sealed(b)
    ensures Sealed(a + b)
  {
    NestedAppendAll(a, b);
    assert Nested(Both, a);
    QuietAppend(a, b);
  }

  lemma {:induction false} WeightlessIsNested(brackets: Brackets, s: string)
    requires forall c | c in s :: Weight(brackets, c) == 0
    ensures Nested(brackets, s)
  {
    forall k | 0 <= k <= |s|
      ensures Depth(brackets, s[..k]) == 0
    {
      WeightlessDepth(brackets, s, k);
    }
    assert s[..|s|] == s;
  }

  lemma {:induction false} WeightlessDepth(brackets: Brackets, s: string, k: nat)
    requires k <= |s| && forall c | c in s :: Weight(brackets, c) == 0
    ensures Depth(brackets, s[..k]) == 0
  {
    if k > 0 {
      WeightlessDepth(brackets, s, k - 1);
      DepthNext(brackets, s, k - 1);
    }
  }

  lemma PlainIsSealed(s: string)
    requires Plain(s)
    ensures Sealed(s)
  {
    WeightlessIsAllNested(s);
    assert forall k | 0 <= k < |s| :: s[k] in s;
  }

  /** Brackets of the right kind around nested text stay open until the last character. */
  lemma EnclosedDepth(brackets: Brackets, open: char, s: string, close: char, k: nat)
    requires Nested(brackets, s) && Weight(brackets, open) == -Weight(brackets, close) >= 0
    requires k <= |s| + 1
    ensures Depth(brackets, ([open] + s + [close])[..k])
         >= if k == 0 then 0 else Weight(brackets, open)
    ensures Depth(brackets, [open] + s + [close]) == 0
  {
    assert [open][..1] == [open] && [open][..0] == "";
    DepthAppend(brackets, [open], s);
    DepthAppend(brackets, [open] + s, [close]);
    assert Depth(brackets, [open]) == Weight(brackets, open);
    assert [close][..0] == "";
    assert Depth(brackets, [close]) == Weight(brackets, close);
    DepthWithin(brackets, [open] + s, [close], k);
    DepthWithin(brackets, [open], s, k);
  }

  lemma EnclosedIsNested(brackets: Brackets, open: char, s: string, close: char)
    requires Nested(brackets, s) && Weight(brackets, open) == -Weight(brackets, close) >= 0
    ensures Nested(brackets, [open] + s + [close])
  {
    var t := [open] + s + [close];
    forall k | 0 <= k <= |t|
      ensures Depth(brackets, t[..k]) >= 0
    {
      EnclosedDepth(brackets, open, s, close, if k < |t| then k else 0);
      if k == |t| {
        assert t[..k] == t;
      }
    }
    EnclosedDepth(brackets, open, s, close, 0);
  }

  /** Anything nested is sealed by brackets around it. */
  lemma EnclosedIsSealed(open: char, s: string, close: char)
    requires AllNested(s) && ((open == '(' && close == ')') || (open == '[' && close == ']'))
    ensures Sealed([open] + s + [close])
  {
    forall brackets: Brackets
      ensures Nested(brackets, [open] + s + [close])
    {
      EnclosedIsNested(brackets, open, s, close);
    }
    var t := [open] + s + [close];
    forall k | 0 <= k < |t| && (t[k] == '=' || t[k] == '!')
      ensures Depth(Both, t[..k]) > 0
    {
      EnclosedDepth(Both, open, s, close, k);
    }
  }

  lemma DropPlainPrefix(w: string, s: string)
    requires Plain(w) && Sealed(w + s)
    ensures Sealed(s)
  {
    PlainIsSealed(w);
    forall brackets: Brackets
      ensures Nested(brackets, s)
    {
      assert Nested(brackets, w);
      DropNestedPrefix(brackets, w, s);
    }
    assert Nested(Both, w);
    forall k | 0 <= k < |s| && (s[k] == '=' || s[k] == '!')
      ensures Depth(Both, s[..k]) > 0
    {
      assert (w + s)[|w| + k] == s[k];
      DepthWithin(Both, w, s, |w| + k);
    }
  }

  lemma DropNestedPrefix(brackets: Brackets, w: string, s: string)
    requires Depth(brackets, w) == 0 && Nested(brackets, w + s)
    ensures Nested(brackets, s)
  {
    DepthAppend(brackets, w, s);
    forall k | 0 <= k <= |s|
      ensures Depth(brackets, s[..k]) >= 0
    {
      DepthWithin(brackets, w, s, |w| + k);
    }
  }

  // ---- Trimming ----

  ghost predicate Inked(s: string) {
    exists c :: c in s && !IsSpace(c)
  }

  lemma {:induction false} TrimStartSplit(s: string) returns (w: string)
    ensures Blank(w) && s == w + TrimStart(s)
    ensures TrimStart(s) != "" <==> Inked(s)
    ensures TrimStart(s) != "" ==> !IsSpace(TrimStart(s)[0])
  {
    if s != "" && IsSpace(s[0]) {
      var rest := TrimStartSplit(s[1..]);
      w := [s[0]] + rest;
      assert s == [s[0]] + s[1..];
    } else {
      w := "";
      assert s != "" ==> s[0] in s;
    }
  }

  lemma {:induction false} TrimEndSplit(s: string) returns (w: string)
    ensures Blank(w) && s == TrimEnd(s) + w
    ensures TrimEnd(s) != "" <==> Inked(s)
  {
    if s != "" && IsSpace(s[|s| - 1]) {
      var rest := TrimEndSplit(s[..|s| - 1]);
      w := rest + [s[|s| - 1]];
      assert s == s[..|s| - 1] + [s[|s| - 1]];
    } else {
      w := "";
      assert s != "" ==> s[|s| - 1] in s;
    }
  }

  lemma {:induction false} TrimStartPast(w: string, s: string)
    requires Blank(w)
    ensures TrimStart(w + s) == TrimStart(s)
  {
    if w == "" {
      assert w + s == s;
    } else {
      assert w[0] in w;
      TrimStartPast(w[1..], s);
      assert (w + s)[1..] == w[1..] + s;
    }
  }

  lemma {:induction false} TrimEndPast(s: string, w: string)
    requires Blank(w)
    ensures TrimEnd(s + w) == TrimEnd(s)
  {
    if w == "" {
      assert s + w == s;
    } else {
      assert w[|w| - 1] in w;
      TrimEndPast(s, w[..|w| - 1]);
      assert (s + w)[..|s + w| - 1] == s + w[..|w| - 1];
    }
  }

  lemma {:induction false} TrimStartAppend(a: string, b: string)
    requires Inked(a)
    ensures TrimStart(a + b) == TrimStart(a) + b
  {
    if IsSpace(a[0]) {
      assert a == [a[0]] + a[1..];
      assert (a + b)[1..] == a[1..] + b;
      TrimStartAppend(a[1..], b);
    }
  }

  lemma {:induction false} TrimEndAppend(a: string, b: string)
    requires Inked(b)
    ensures TrimEnd(a + b) == a + TrimEnd(b)
  {
    if IsSpace(b[|b| - 1]) {
      assert b == b[..|b| - 1] + [b[|b| - 1]];
      assert (a + b)[..|a + b| - 1] == a + b[..|b| - 1];
      TrimEndAppend(a, b[..|b| - 1]);
    }
  }

  /** White space around a text does not show after trimming. */
  lemma TrimSpaced(before: string, s: string, after: string)
    requires Blank(before) && Blank(after) && Inked(s)
    ensures Trim(before + s + after) == Trim(s)
  {
    Associative(before, s, after);
    TrimStartPast(before, s + after);
    TrimStartAppend(s, after);
    TrimEndPast(TrimStart(s), after);
  }

  lemma TrimOfTrimStart(s: string)
    ensures Trim(TrimStart(s)) == Trim(s)
  {
    var _ := TrimStartSplit(s);
  }

  lemma TrimOfTrimEnd(s: string)
    requires Inked(s)
    ensures Trim(TrimEnd(s)) == Trim(s)
  {
    var w := TrimEndSplit(s);
    var t := TrimEnd(s);
    assert Inked(t) by {
      var c :| c in s && !IsSpace(c);
      assert c in t;
    }
    assert "" + t + w == s;
    TrimSpaced("", t, w);
  }

  lemma Associative(a: string, m: string, b: string)
    ensures a + (m + b) == (a + m) + b
  {
  }

  lemma TrimBetween(a: string, m: string, b: string)
    requires Inked(a) && Inked(b)
    ensures Trim(a + m + b) == TrimStart(a) + m + TrimEnd(b)
  {
    Associative(a, m, b);
    TrimStartAppend(a, m + b);
    Associative(TrimStart(a), m, b);
    TrimEndAppend(TrimStart(a) + m, b);
  }

  lemma TrimClosed(s: string)
    requires s != "" && !IsSpace(s[0]) && !IsSpace(s[|s| - 1])
    ensures Trim(s) == s && Inked(s)
  {
    assert s[0] in s;
  }

  // ---- Evaluating sealed text ----

  lemma SameTrimSameValue<V>(host: Host<V>, vals: V, a: string, b: string)
    requires Trim(a) == Trim(b)
    ensures Resolve(host, vals, a) == Resolve(host, vals, b)
  {
  }

  /** Parentheses around nested text are taken off. */
  lemma ResolveParens<V>(host: Host<V>, vals: V, s: string)
    requires Nested(Round, s)
    ensures Resolve(host, vals, "(" + s + ")") == Resolve(host, vals, s)
  {
    var expr := ['('] + s + [')'];
    assert "(" + s + ")" == expr;
    TrimClosed(expr);
    forall i | 0 <= i < |expr| - 1 && expr[i] == ')'
      ensures Depth(Round, expr[..i + 1]) != 0
    {
      EnclosedDepth(Round, '(', s, ')', i + 1);
    }
    assert WrapsWhole(expr);
    assert expr[1..|expr| - 1] == s;
  }

  lemma {:induction false} NoEqualityFrom(expr: string, i: nat)
    requires forall j: nat | i <= j < |expr| :: !EqualityAt(expr, j)
    ensures EqualityFrom(expr, i) == None
    decreases |expr| - i
  {
    if i < |expr| {
      NoEqualityFrom(expr, i + 1);
    }
  }

  lemma {:induction false} FirstEqualityFrom(expr: string, i: nat, k: nat)
    requires i <= k && EqualityAt(expr, k) && forall j: nat | i <= j < k :: !EqualityAt(expr, j)
    ensures EqualityFrom(expr, i) == Some(k)
    decreases k - i
  {
    if i < k {
      FirstEqualityFrom(expr, i + 1, k);
    }
  }

  lemma QuietHasNoEquality(s: string, more: string, k: nat)
    requires Quiet(s) && k < |s|
    ensures !EqualityAt(s + more, k)
  {
    DepthWithin(Both, s, more, k);
    assert (s + more)[k] == s[k];
  }

  lemma Unwrapped<V>(host: Host<V>, vals: V, src: string)
    requires Trim(src) != "" && Trim(src)[0] != '('
    ensures Resolve(host, vals, src) == ResolveUnwrapped(host, vals, Trim(src))
  {
  }

  lemma UnwrappedNegation<V>(host: Host<V>, vals: V, t: string)
    requires EqualityFrom("!" + t, 0) == None
    ensures ResolveUnwrapped(host, vals, "!" + t) == host.boolean(!host.truthy(Resolve(host, vals, t)))
  {
    assert ("!" + t)[1..] == t;
  }

  /** The first parenthesis of nested text is closed inside of it. */
  lemma {:induction false} FirstParenCloses(s: string, k: nat) returns (i: nat)
    requires 0 < k <= |s| && s[0] == '(' && Nested(Round, s)
    requires forall j | 0 < j < k :: Depth(Round, s[..j]) > 0
    ensures i < |s| && s[i] == ')' && Depth(Round, s[..i + 1]) == 0
    decreases |s| - k
  {
    DepthNext(Round, s, k - 1);
    assert s[..0] == "";
    if Depth(Round, s[..k]) == 0 {
      i := k - 1;
    } else {
      assert s[..|s|] == s;
      i := FirstParenCloses(s, k + 1);
    }
  }

  lemma NotWrapped(left: string, right: string)
    requires Sealed(left) && left != "" && right != ""
    ensures (left + right)[0] == '(' ==> !WrapsWhole(left + right)
  {
    var expr := left + right;
    if expr[0] == '(' {
      var i := FirstParenCloses(left, 1);
      assert expr[i] == ')';
      assert expr[..i + 1] == left[..i + 1];
    }
  }

  /** Sealed text neither starts nor ends with an operator character. */
  lemma SealedEnds(s: string)
    requires Sealed(s) && s != ""
    ensures s[0] != '=' && s[0] != '!' && s[|s| - 1] != '=' && s[|s| - 1] != '!'
  {
    assert Nested(Both, s);
    assert s[..0] == "";
    DepthNext(Both, s, |s| - 1);
    assert s[..|s|] == s;
  }

  lemma SealedFromStart(s: string)
    requires Sealed(s) && Inked(s)
    ensures Sealed(TrimStart(s)) && Trim(TrimStart(s)) == Trim(s) != ""
  {
    var w := TrimStartSplit(s);
    DropPlainPrefix(w, TrimStart(s));
    TrimOfTrimStart(s);
    InkedFromStart(s, w);
    var _ := TrimEndSplit(TrimStart(s));
  }

  lemma InkedFromStart(s: string, w: string)
    requires Inked(s) && Blank(w) && s == w + TrimStart(s)
    ensures Inked(TrimStart(s))
  {
    var c :| c in s && !IsSpace(c);
    assert c in w || c in TrimStart(s);
  }

  // ---- Splitting at the first operator ----

  /** Outside of brackets no operator character has `=` behind it. */
  ghost predicate OperatorFree(s: string) {
    forall k | 0 <= k < |s| && (s[k] == '=' || s[k] == '!') && Depth(Both, s[..k]) == 0 ::
      k + 1 < |s| && s[k + 1] != '='
  }

  /** What may stand on the left of an operator. */
  ghost predicate Leads(s: string) {
    && OperatorFree(s) && Inked(s) && Depth(Both, s) == 0 && Follows(s)
    && s[|s| - 1] != '=' && s[|s| - 1] != '!'
    && (s[0] == '!' || Sealed(s))
  }

  /** What may stand on the right of an operator. */
  ghost predicate Follows(s: string) {
    s != "" && Inked(s) && s[0] != '='
  }

  lemma SealedLeads(s: string)
    requires Sealed(s) && Inked(s)
    ensures Leads(s)
  {
    assert Nested(Both, s);
    SealedEnds(s);
  }

  lemma NegatedLeads(s: string)
    requires Leads(s)
    ensures Leads("!" + s)
  {
    var t := "!" + s;
    assert "!"[..0] == "" && t[..0] == "";
    assert Depth(Both, "!") == 0;
    DepthAppend(Both, "!", s);
    forall k | 0 <= k < |t| && (t[k] == '=' || t[k] == '!') && Depth(Both, t[..k]) == 0
      ensures k + 1 < |t| && t[k + 1] != '='
    {
      if k > 0 {
        DepthWithin(Both, "!", s, k);
        assert t[k] == s[k - 1];
      }
    }
    var c :| c in s && !IsSpace(c);
    assert c in t;
  }

  lemma OperatorFreeHasNone(s: string, more: string, k: nat)
    requires OperatorFree(s) && k < |s|
    ensures !EqualityAt(s + more, k)
  {
    DepthWithin(Both, s, more, k);
    assert (s + more)[k] == s[k];
    if k + 1 < |s| {
      assert (s + more)[k + 1] == s[k + 1];
    }
  }

  lemma FindsFirstOperator(left: string, op: EqualityOp, right: string)
    requires Leads(left) && Trim(left) != "" && Follows(right)
    ensures var expr := left + OpText(op) + right;
            EqualityFrom(expr, 0) == Some(|left|) && OpAt(expr, |left|) == op
  {
    var text := OpText(op);
    var expr := left + text + right;
    forall k: nat | k < |left|
      ensures !EqualityAt(expr, k)
    {
      Associative(left, text, right);
      OperatorFreeHasNone(left, text + right, k);
    }
    assert expr[..|left|] == left;
    assert expr[|left|] == text[0] && expr[|left| + 1] == text[1];
    assert expr[|left| + 2] == if |text| == 3 then text[2] else right[0];
    assert expr[|left| - 1] == left[|left| - 1];
    FirstEqualityFrom(expr, 0, |left|);
  }

  lemma LeadsTrimmed(s: string)
    requires Leads(s)
    ensures Leads(TrimStart(s)) && Trim(TrimStart(s)) == Trim(s) != ""
  {
    if s[0] == '!' {
      var _ := TrimEndSplit(s);
    } else {
      SealedFromStart(s);
      var w := TrimStartSplit(s);
      InkedFromStart(s, w);
      SealedLeads(TrimStart(s));
    }
  }

  lemma FollowsTrimmed(s: string)
    requires Follows(s)
    ensures Follows(TrimEnd(s)) && Trim(TrimEnd(s)) == Trim(s)
  {
    var w := TrimEndSplit(s);
    TrimOfTrimEnd(s);
    var c :| c in s && !IsSpace(c);
    assert c in TrimEnd(s);
    assert s[0] == TrimEnd(s)[0];
  }

  /** A text is split at its first operator, whatever follows. */
  lemma FirstOperatorSplits<V>(host: Host<V>, vals: V, left: string, op: EqualityOp, right: string)
    requires Leads(left) && Follows(right)
    ensures Resolve(host, vals, left + OpText(op) + right)
         == Compare(host, op, Resolve(host, vals, left), Resolve(host, vals, right))
  {
    var l, r, text := TrimStart(left), TrimEnd(right), OpText(op);
    var expr := l + text + r;
    TrimBetween(left, text, right);
    LeadsTrimmed(left);
    FollowsTrimmed(right);
    FindsFirstOperator(l, op, r);
    Associative(l, text, r);
    if l[0] == '(' {
      NotWrapped(l, text + r);
    }
    assert expr[..|l|] == l && expr[|l| + |text|..] == r;
    SameTrimSameValue(host, vals, l, left);
    SameTrimSameValue(host, vals, r, right);
  }

  /** No operator is outside of brackets in the text itself. */
  ghost predicate ShowsNone(s: string) {
    forall k | 0 <= k < |s| - 1 && (s[k] == '=' || s[k] == '!') && Depth(Both, s[..k]) == 0 :: s[k + 1] != '='
  }

  lemma TrimmedShowsNone(s: string)
    requires OperatorFree(s)
    ensures ShowsNone(TrimEnd(s))
  {
    var w := TrimEndSplit(s);
    var t := TrimEnd(s);
    forall k | 0 <= k < |t| - 1 && (t[k] == '=' || t[k] == '!') && Depth(Both, t[..k]) == 0
      ensures t[k + 1] != '='
    {
      assert s[..k] == t[..k] && s[k] == t[k] && s[k + 1] == t[k + 1];
    }
  }

  /** A negation takes everything up to the end of a text without operators. */
  lemma LeadingNegation<V>(host: Host<V>, vals: V, s: string)
    requires Leads(s)
    ensures Resolve(host, vals, "!" + s) == host.boolean(!host.truthy(Resolve(host, vals, s)))
  {
    var t := TrimEnd(s);
    TrimEndAppend("!", s);
    FollowsTrimmed(s);
    TrimmedShowsNone(s);
    NegationShowsNone(t);
    Unwrapped(host, vals, "!" + s);
    UnwrappedNegation(host, vals, t);
    SameTrimSameValue(host, vals, t, s);
  }

  lemma NegationShowsNone(t: string)
    requires ShowsNone(t) && t != "" && t[0] != '='
    ensures EqualityFrom("!" + t, 0) == None
  {
    var expr := "!" + t;
    assert "!"[..0] == "" && Depth(Both, "!") == 0;
    forall k: nat | 0 <= k < |expr|
      ensures !EqualityAt(expr, k)
    {
      if k > 0 {
        DepthWithin(Both, "!", t, k);
        assert expr[k] == t[k - 1];
      }
    }
    NoEqualityFrom(expr, 0);
  }

  // ---- Leaves ----

  /** Sealed, trimmed text that does not start with a parenthesis is a literal or a path. */
  lemma SealedLeaf<V>(host: Host<V>, vals: V, expr: string)
    requires Sealed(expr) && expr != "" && !IsSpace(expr[0]) && !IsSpace(expr[|expr| - 1]) && expr[0] != '('
    ensures Resolve(host, vals, expr) == ResolveLeaf(host, vals, expr)
  {
    TrimClosed(expr);
    SealedEnds(expr);
    assert expr + "" == expr;
    forall k: nat | 0 <= k < |expr|
      ensures !EqualityAt(expr, k)
    {
      QuietHasNoEquality(expr, "", k);
    }
    NoEqualityFrom(expr, 0);
  }
}
