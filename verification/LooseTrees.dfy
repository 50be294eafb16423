/**
 Texts without parentheses: `!` belongs to what follows it up to the next operator, and of
 several comparisons the first one is the outermost.
 */
module LooseTrees {
  import opened Expression
  import opened ExpressionTrees
  import opened Options
  import opened PrintedTrees
  import opened SealedText

  /** The text of a tree without parentheses around its comparisons on the right. */
  function Loose(e: Expr): string {
    if e.Equality? then LooseLeft(e.left) + Sign(e.op) + Loose(e.right) else LooseLeft(e)
  }

  /** A negation without parentheses; every comparison has its own. */
  function LooseLeft(e: Expr): string {
    if e.Not? then "!" + LooseLeft(e.operand) else Print(e)
  }

  /** Evaluating the text without parentheses gives the meaning of the tree. */
  lemma {:induction false} ResolveLoose<V>(host: Host<V>, vals: V, e: Expr)
    requires WellFormed(e)
    ensures Resolve(host, vals, Loose(e)) == Meaning(host, vals, e)
  {
    if e.Equality? {
      ResolveLeft(host, vals, e.left);
      ResolveLoose(host, vals, e.right);
      LooseComparison(host, vals, e);
    } else {
      ResolveLeft(host, vals, e);
    }
  }

  lemma LooseComparison<V>(host: Host<V>, vals: V, e: Expr)
    requires e.Equality? && WellFormed(e)
    requires Resolve(host, vals, LooseLeft(e.left)) == Meaning(host, vals, e.left)
    requires Resolve(host, vals, Loose(e.right)) == Meaning(host, vals, e.right)
    ensures Resolve(host, vals, Loose(e)) == Meaning(host, vals, e)
  {
    LeftLeads(e.left);
    LooseFollows(e.right);
    EqualityMeans(host, vals, e);
    SignIsText(e.op);
    FirstOperatorSplits(host, vals, LooseLeft(e.left), e.op, Loose(e.right));
  }

  lemma {:induction false} ResolveLeft<V>(host: Host<V>, vals: V, e: Expr)
    requires WellFormed(e)
    ensures Resolve(host, vals, LooseLeft(e)) == Meaning(host, vals, e)
  {
    if e.Not? {
      ResolveLeft(host, vals, e.operand);
      LeftLeads(e.operand);
      LeadingNegation(host, vals, LooseLeft(e.operand));
    } else {
      ResolvePrint(host, vals, e);
    }
  }

  lemma {:induction false} LeftLeads(e: Expr)
    requires WellFormed(e)
    ensures Leads(LooseLeft(e))
  {
    if e.Not? {
      LeftLeads(e.operand);
      NegatedLeads(LooseLeft(e.operand));
    } else {
      PrintIsSealed(e);
      SealedLeads(Print(e));
    }
  }

  lemma LooseFollows(e: Expr)
    requires WellFormed(e)
    ensures Follows(Loose(e))
  {
    if e.Equality? {
      LeftLeads(e.left);
      var c :| c in LooseLeft(e.left) && !IsSpace(c);
      assert c in Loose(e);
    } else {
      LeftLeads(e);
    }
  }
}
