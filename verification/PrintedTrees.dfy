/**
 Expression trees and their text with full parentheses, in any spacing.

 The text of a tree is sealed in the sense of `SealedText`: its brackets nest, and an operator
 stands only between the two sides of a comparison. Numbers, names, keywords and quoted texts are
 firm, which is to say sealed without white space at their ends; paths are read name by name, as
 far as their printed prefix goes.
 */
module PrintedTrees {
  import opened Expression
  import opened Options
  import opened SealedText

  /** `Spaced` puts white space around a subexpression; it means what the subexpression means. */
  datatype Expr =
    | True
    | False
    | Null
    | Undefined
    | Num(text: string)
    | Str(quote: char, body: string)
    | Not(operand: Expr)
    | Equality(op: EqualityOp, left: Expr, right: Expr)
    | Spaced(before: string, inner: Expr, after: string)
    | Name(name: string)
    | Member(base: Expr, key: string)
    | At(base: Expr, index: Expr)

  /** White space and line ends of the host language. */
  const WHITE_SPACE: string :=
    ['\t', '\n', '\U{000b}', '\U{000c}', '\r', ' ', '\U{00a0}', '\U{1680}', '\U{2000}', '\U{2001}', '\U{2002}', '\U{2003}',
     '\U{2004}', '\U{2005}', '\U{2006}', '\U{2007}', '\U{2008}', '\U{2009}', '\U{200a}', '\U{2028}', '\U{2029}', '\U{202f}',
     '\U{205f}', '\U{3000}', '\U{feff}']

  lemma SpaceExactly(c: char)
    ensures IsSpace(c) <==> c in WHITE_SPACE
  {
  }

  lemma WhiteIsBlank(s: string)
    requires forall c | c in s :: c in WHITE_SPACE
    ensures Blank(s)
  {
    forall c | c in s
      ensures IsSpace(c)
    {
      SpaceExactly(c);
    }
  }

  predicate IsKeyword(s: string) {
    s == "true" || s == "false" || s == "null" || s == "undefined"
  }

  predicate IsDigits(s: string) {
    s != "" && forall i | 0 <= i < |s| :: '0' <= s[i] <= '9'
  }

  predicate IsIdent(s: string) {
    && s != "" && !('0' <= s[0] <= '9')
    && forall i | 0 <= i < |s| ::
         'A' <= s[i] <= 'Z' || 'a' <= s[i] <= 'z' || s[i] == '_' || s[i] == '$' || '0' <= s[i] <= '9'
  }

  /** What may follow a dot. */
  predicate IsName(s: string) {
    IsIdent(s) || IsDigits(s)
  }

  /** Digits, with an optional minus sign and an optional fraction. */
  ghost predicate IsNumeral(s: string) {
    exists sign, whole, fraction :: Numeral(s, sign, whole, fraction)
  }

  predicate Numeral(s: string, sign: string, whole: string, fraction: string) {
    && (sign == "" || sign == "-") && IsDigits(whole)
    && (s == sign + whole || (IsDigits(fraction) && s == sign + whole + "." + fraction))
  }

  predicate IsPath(e: Expr) {
    e.Name? || e.Member? || e.At?
  }

  ghost predicate WellFormed(e: Expr)
    decreases e, 1
  {
    match e
    case Num(text) => IsNumeral(text)
    case Str(quote, body) => (quote == '"' || quote == '\'') && Plain(body)
    case Not(operand) => WellFormed(operand)
    case Equality(_, left, right) => WellFormed(left) && WellFormed(right)
    case Spaced(before, inner, after) =>
      WellFormed(inner) && forall c | c in before + after :: c in WHITE_SPACE
    case Name(name) => IsIdent(name) && !IsKeyword(name)
    case Member(_, _) => WellFormedPath(e)
    case At(_, _) => WellFormedPath(e)
    case _ => true
  }

  /** A keyword may head a longer path. */
  ghost predicate WellFormedPath(e: Expr)
    decreases e, 0
  {
    match e
    case Name(name) => IsIdent(name)
    case Member(base, key) => WellFormedPath(base) && IsName(key)
    case At(base, index) => WellFormedPath(base) && WellFormed(index)
    case _ => false
  }

  function Sign(op: EqualityOp): string {
    match op
    case StrictEqual => "==="
    case StrictUnequal => "!=="
    case LooseEqual => "=="
    case LooseUnequal => "!="
  }

  function Print(e: Expr): string {
    match e
    case True => "true"
    case False => "false"
    case Null => "null"
    case Undefined => "undefined"
    case Num(text) => text
    case Str(quote, body) => [quote] + body + [quote]
    case Not(operand) => "(" + ("!" + Print(operand)) + ")"
    case Equality(op, left, right) => "(" + (Print(left) + Sign(op) + Print(right)) + ")"
    case Spaced(before, inner, after) => before + Print(inner) + after
    case Name(name) => name
    case Member(base, key) => Print(base) + ("." + key)
    case At(base, index) => Print(base) + ("[" + Print(index) + "]")
  }

  // ---- Paths ----

  lemma {:induction false} PartLengthAppend(s: string, more: string)
    requires PartLength(s) == |s| && (more != "" ==> !IsIdentPart(more[0]))
    ensures PartLength(s + more) == |s|
  {
    if s == "" {
      assert s + more == more;
    } else {
      assert (s + more)[1..] == s[1..] + more;
      PartLengthAppend(s[1..], more);
    }
  }

  lemma {:induction false} AllParts(s: string)
    requires forall i | 0 <= i < |s| :: IsIdentPart(s[i])
    ensures PartLength(s) == |s|
  {
    if s != "" {
      AllParts(s[1..]);
    }
  }

  lemma {:induction false} AllDigits(s: string)
    requires forall i | 0 <= i < |s| :: '0' <= s[i] <= '9'
    ensures DigitLength(s) == |s|
  {
    if s != "" {
      AllDigits(s[1..]);
    }
  }

  lemma {:induction false} DigitLengthAppend(s: string, more: string)
    requires DigitLength(s) == |s| && (more != "" ==> !IsDigit(more[0]))
    ensures DigitLength(s + more) == |s|
  {
    if s == "" {
      assert s + more == more;
    } else {
      assert (s + more)[1..] == s[1..] + more;
      DigitLengthAppend(s[1..], more);
    }
  }

  /** What follows a path segment. */
  predicate Boundary(more: string) {
    more == "" || more[0] == '.' || more[0] == '['
  }

  lemma IdentLengthAppend(s: string, more: string)
    requires IsIdent(s) && Boundary(more)
    ensures IdentLength(s + more) == |s| && (s + more)[..|s|] == s && (s + more)[|s|..] == more
  {
    assert (s + more)[1..] == s[1..] + more;
    AllParts(s[1..]);
    PartLengthAppend(s[1..], more);
  }

  lemma NameLengthAppend(s: string, more: string)
    requires IsName(s) && Boundary(more)
    ensures NameLength(s + more) == |s|
  {
    if IsIdent(s) {
      IdentLengthAppend(s, more);
    } else {
      AllDigits(s);
      DigitLengthAppend(s, more);
      assert IsDigit(s[0]);
    }
  }

  /** The scan for the closing bracket passes nested text. */
  lemma {:induction false} ClosingPast(s: string, more: string, k: nat)
    requires Nested(Square, s) && k <= |s|
    ensures var t := "[" + s + "]" + more;
            ClosingFrom(t, 1 + k, 1 + Depth(Square, s[..k])) == Some(1 + |s|)
    decreases |s| - k
  {
    var t := "[" + s + "]" + more;
    if k == |s| {
      assert s[..k] == s;
      assert t[1 + k] == ']';
    } else {
      assert t[1 + k] == s[k];
      DepthNext(Square, s, k);
      ClosingPast(s, more, k + 1);
    }
  }

  // ---- Printed trees ----

  lemma {:induction false} DigitsAt(s: string, i: nat)
    requires i < DigitLength(s)
    ensures IsDigit(s[i])
  {
    if i > 0 {
      DigitsAt(s[1..], i - 1);
    }
  }

  predicate NumberChar(c: char) {
    IsDigit(c) || c == '-' || c == '.'
  }

  lemma UnsignedChars(s: string, i: nat)
    requires IsUnsigned(s) && i < |s|
    ensures NumberChar(s[i])
  {
    var n := DigitLength(s);
    if i < n {
      DigitsAt(s, i);
    } else if i > n {
      DigitsAt(s[n + 1..], i - n - 1);
    }
  }

  lemma NumberChars(s: string)
    requires IsNumber(s)
    ensures s != "" && forall i | 0 <= i < |s| :: NumberChar(s[i])
  {
    forall i | 0 <= i < |s|
      ensures NumberChar(s[i])
    {
      if s[0] != '-' {
        UnsignedChars(s, i);
      } else if i > 0 {
        UnsignedChars(s[1..], i - 1);
      }
    }
  }

  lemma NameChars(s: string)
    requires IsName(s)
    ensures forall i | 0 <= i < |s| :: IsIdentPart(s[i])
  {
    forall i | 0 <= i < |s|
      ensures IsIdentPart(s[i])
    {
    }
  }

  /** The text starts and ends with ink and is sealed. */
  ghost predicate Firm(s: string) {
    Sealed(s) && s != "" && !IsSpace(s[0]) && !IsSpace(s[|s| - 1])
  }

  lemma FirmIsInked(s: string)
    requires Firm(s)
    ensures Inked(s)
  {
    assert s[0] in s;
  }

  lemma FirmAppend(a: string, b: string)
    requires Firm(a) && Sealed(b) && b != "" && !IsSpace(b[|b| - 1])
    ensures Firm(a + b) && (a + b)[0] == a[0]
  {
    SealedAppend(a, b);
  }

  lemma NameIsPlain(key: string)
    requires IsName(key)
    ensures Plain(key) && key != "" && !IsSpace(key[|key| - 1])
  {
    NameChars(key);
  }

  lemma KeySegment(key: string)
    requires IsName(key)
    ensures Sealed("." + key) && !IsSpace(("." + key)[|key|])
  {
    NameIsPlain(key);
    assert forall c | c in "." + key :: c == '.' || c in key;
    PlainIsSealed("." + key);
  }

  lemma IndexSegment(s: string)
    requires Sealed(s)
    ensures Sealed("[" + s + "]") && ("[" + s + "]")[|s| + 1] == ']'
  {
    EnclosedIsSealed('[', s, ']');
    assert "[" + s + "]" == ['['] + s + [']'];
  }

  lemma {:induction false} PathIsFirm(e: Expr)
    requires WellFormedPath(e)
    ensures Firm(Print(e)) && IsIdentStart(Print(e)[0])
    decreases e, 0
  {
    match e
    case Name(name) =>
      NameChars(name);
      PlainIsSealed(name);
    case Member(base, key) =>
      PathIsFirm(base);
      KeySegment(key);
      FirmAppend(Print(base), "." + key);
    case At(base, index) =>
      PathIsFirm(base);
      PrintIsSealed(index);
      IndexSegment(Print(index));
      FirmAppend(Print(base), "[" + Print(index) + "]");
  }

  // ---- Numbers ----

  /** The number pattern accepts exactly the numerals. */
  lemma NumberExactly(s: string)
    ensures IsNumber(s) <==> IsNumeral(s)
  {
    if IsNumber(s) {
      NumberIsNumeral(s, if s[0] == '-' then "-" else "", if s[0] == '-' then s[1..] else s);
    }
    if IsNumeral(s) {
      var sign, whole, fraction :| Numeral(s, sign, whole, fraction);
      NumeralIsNumber(s, sign, whole, fraction);
    }
  }

  lemma NumberIsNumeral(s: string, sign: string, rest: string)
    requires IsUnsigned(rest) && s == sign + rest && (sign == "" || sign == "-")
    ensures IsNumeral(s)
  {
    var n := DigitLength(rest);
    var whole := rest[..n];
    UnsignedParts(rest);
    if n == |rest| {
      assert whole == rest;
      assert Numeral(s, sign, whole, "");
    } else {
      var fraction := rest[n + 1..];
      assert rest == whole + ("." + fraction);
      Associative(sign, whole, "." + fraction);
      Associative(sign + whole, ".", fraction);
      assert Numeral(s, sign, whole, fraction);
    }
  }

  lemma UnsignedParts(s: string)
    requires IsUnsigned(s)
    ensures var n := DigitLength(s); IsDigits(s[..n]) && (n < |s| ==> s[n] == '.' && IsDigits(s[n + 1..]))
  {
    var n := DigitLength(s);
    FirstDigits(s);
    if n < |s| {
      FirstDigits(s[n + 1..]);
      assert s[n + 1..][..|s| - n - 1] == s[n + 1..];
    }
  }

  lemma FirstDigits(s: string)
    requires DigitLength(s) > 0
    ensures IsDigits(s[..DigitLength(s)])
  {
    forall i | 0 <= i < DigitLength(s)
      ensures '0' <= s[i] <= '9'
    {
      DigitsAt(s, i);
    }
  }

  lemma NumeralIsNumber(s: string, sign: string, whole: string, fraction: string)
    requires Numeral(s, sign, whole, fraction)
    ensures IsNumber(s)
  {
    AllDigits(whole);
    if s == sign + whole {
      SignedIsNumber(sign, whole);
    } else {
      AllDigits(fraction);
      DigitLengthAppend(whole, "." + fraction);
      var rest := whole + ("." + fraction);
      assert rest[|whole|] == '.' && rest[|whole| + 1..] == fraction;
      Associative(sign, whole, "." + fraction);
      Associative(sign + whole, ".", fraction);
      SignedIsNumber(sign, rest);
    }
  }

  lemma SignedIsNumber(sign: string, rest: string)
    requires (sign == "" || sign == "-") && IsUnsigned(rest) && rest[0] != '-'
    ensures IsNumber(sign + rest)
  {
    if sign == "" {
      assert sign + rest == rest;
    } else {
      assert (sign + rest)[1..] == rest;
    }
  }

  lemma NumberIsFirm(text: string)
    requires IsNumber(text)
    ensures Firm(text) && text[0] != '('
  {
    NumberChars(text);
    PlainIsSealed(text);
  }

  lemma QuotedIsFirm(quote: char, body: string)
    requires (quote == '"' || quote == '\'') && Plain(body)
    ensures Firm([quote] + body + [quote])
  {
    PlainIsSealed([quote] + body + [quote]);
  }

  lemma SpacedIsSealed(before: string, s: string, after: string)
    requires Blank(before) && Blank(after) && Sealed(s) && Inked(s)
    ensures Sealed(before + s + after) && Inked(before + s + after)
  {
    PlainIsSealed(before);
    PlainIsSealed(after);
    SealedAppend(before, s);
    SealedAppend(before + s, after);
    var c :| c in s && !IsSpace(c);
    assert c in before + s + after;
  }

  /** Every tree prints as sealed text. */
  lemma {:induction false} PrintIsSealed(e: Expr)
    requires WellFormed(e)
    ensures Sealed(Print(e)) && Inked(Print(e))
    decreases e, 1
  {
    if e.Spaced? {
      PrintIsSealed(e.inner);
      WhiteIsBlank(e.before);
      WhiteIsBlank(e.after);
      SpacedIsSealed(e.before, Print(e.inner), e.after);
    } else if e.Not? {
      PrintIsSealed(e.operand);
      NotIsNested(Print(e.operand));
      EnclosedIsFirm("!" + Print(e.operand));
    } else if e.Equality? {
      PrintIsSealed(e.left);
      PrintIsSealed(e.right);
      EqualityIsSealed(Print(e.left), e.op, Print(e.right));
    } else if IsPath(e) {
      PathIsFirm(e);
      FirmIsInked(Print(e));
    } else {
      LiteralIsFirm(e);
      FirmIsInked(Print(e));
    }
  }

  lemma LiteralIsFirm(e: Expr)
    requires WellFormed(e) && !IsPath(e) && !e.Spaced? && !e.Not? && !e.Equality?
    ensures Firm(Print(e))
  {
    if e.Num? {
      NumberExactly(e.text);
      NumberIsFirm(e.text);
    } else if e.Str? {
      QuotedIsFirm(e.quote, e.body);
    } else {
      KeywordIsFirm(Print(e));
    }
  }

  lemma EqualityIsSealed(left: string, op: EqualityOp, right: string)
    requires AllNested(left) && AllNested(right)
    ensures var s := "(" + (left + Sign(op) + right) + ")"; Sealed(s) && Inked(s)
  {
    assert Sign(op) == OpText(op);
    EqualityIsNested(left, op, right);
    EnclosedIsFirm(left + Sign(op) + right);
  }

  lemma KeywordIsFirm(s: string)
    requires IsKeyword(s)
    ensures Firm(s)
  {
    PlainIsSealed(s);
  }

  lemma EnclosedIsFirm(s: string)
    requires AllNested(s)
    ensures Firm("(" + s + ")") && Inked("(" + s + ")")
  {
    EnclosedIsSealed('(', s, ')');
    assert "(" + s + ")" == ['('] + s + [')'];
    FirmIsInked("(" + s + ")");
  }

  lemma NotIsNested(s: string)
    requires AllNested(s)
    ensures AllNested("!" + s)
  {
    WeightlessIsAllNested("!");
    NestedAppendAll("!", s);
  }

  lemma EqualityIsNested(left: string, op: EqualityOp, right: string)
    requires AllNested(left) && AllNested(right)
    ensures AllNested(left + OpText(op) + right)
  {
    WeightlessIsAllNested(OpText(op));
    NestedAppendAll(left, OpText(op));
    NestedAppendAll(left + OpText(op), right);
  }
}
