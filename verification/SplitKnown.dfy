/** Which directives are refused, and which alignments of extents are known after them (ApplySplit.cpp). */
module SplitKnown {
  import opened Wrappers
  import opened ApplySplit
  import opened SplitStep
  import opened SplitTheorem

  // ----- refusals -----

  /** A split by a constant that is not positive, of a dimension whose recorded alignment is not proved a multiple. */
  ghost predicate BadFactor(proved: Prover, s: Split, known: Alignment) {
    && s.SplitVar?
    && (exists n :: n <= 0 && s.factor == Imm(n))
    && (s.from in known ==> !proved(known[s.from], s.factor))
  }

  /** The same of the directive at a position in a list, with all the alignments recorded until then. */
  ghost predicate BadAt(proved: Prover, splits: seq<Split>, i: nat, start: Nest)
    requires i < |splits|
  {
    BadFactor(proved, splits[i], Built(proved, splits[..i], start).al)
  }

  /** Directives are accepted exactly if no constant factor among them is zero or negative, unless the extent was proved
      a multiple of it. */
  lemma AcceptedExactly(proved: Prover, splits: seq<Split>, start: Nest)
    requires forall s | s in splits && s.SplitVar? :: s.from != s.inner
    ensures Accepted(proved, splits, start) <==> forall i: nat | i < |splits| :: !BadAt(proved, splits, i, start)
  {
    assert splits[..|splits|] == splits;
    AcceptedUpTo(proved, splits, start, |splits|);
    hide Accepted, BadAt;
  }

  lemma {:induction false} AcceptedUpTo(proved: Prover, splits: seq<Split>, start: Nest, n: nat)
    requires n <= |splits| && forall s | s in splits && s.SplitVar? :: s.from != s.inner
    ensures Accepted(proved, splits[..n], start) <==> forall i: nat | i < n :: !BadAt(proved, splits, i, start)
  {
    hide Accepted, BadAt;
    if n == 0 {
      NoneAccepted(proved, start);
      assert splits[..0] == [];
    } else {
      AcceptedUpTo(proved, splits, start, n - 1);
      NextAccepted(proved, splits, start, n - 1);
    }
  }

  lemma NoneAccepted(proved: Prover, start: Nest)
    ensures Accepted(proved, [], start)
  {
  }

  lemma NextAccepted(proved: Prover, splits: seq<Split>, start: Nest, n: nat)
    requires n < |splits| && forall s | s in splits && s.SplitVar? :: s.from != s.inner
    ensures Accepted(proved, splits[..n + 1], start)
            <==> Accepted(proved, splits[..n], start) && !BadAt(proved, splits, n, start)
  {
    assert splits[..n + 1][..n] == splits[..n];
    RefusedExactly(proved, splits[n], Built(proved, splits[..n], start).al);
    hide Built, BadFactor, Refused;
  }

  lemma RefusedExactly(proved: Prover, s: Split, known: Alignment)
    requires s.SplitVar? ==> s.from != s.inner
    ensures Refused(proved, s, known) <==> BadFactor(proved, s, known)
  {
    if s.SplitVar? && s.factor.Imm? && s.factor.n <= 0 {
      assert exists n :: n <= 0 && s.factor == Imm(n);
    }
  }

  // ----- alignments -----

  /** The entry of one dimension as a number. */
  function EntryOf(al: Alignment, d: string, b: Env): Option<int> {
    if d in al then Some(Eval(al[d], b)) else None
  }

  /** The inner dimension of a split is its factor long; the outer one of a split that divides the known multiple of the
      old one gets the quotient, and nothing otherwise. */
  ghost predicate SplitKnows(proved: Prover, s: Split, al: Alignment, after: Alignment, b: Env)
    requires s.SplitVar?
  {
    var divides := s.from in al && proved(al[s.from], s.factor);
    && EntryOf(after, s.inner, b) == Some(Eval(s.factor, b))
    && (!divides ==> EntryOf(after, s.outer, b) == EntryOf(al, s.outer, b))
    && (divides ==> s.outer in after && Eval(after[s.outer], b) * Eval(s.factor, b) == Eval(al[s.from], b))
    && forall d | d != s.inner && d != s.outer :: EntryOf(after, d, b) == EntryOf(al, d, b)
  }

  /** A fused dimension gets the product of two known multiples, and nothing otherwise. */
  ghost predicate FuseKnows(s: Split, al: Alignment, after: Alignment, b: Env)
    requires s.FuseVars?
  {
    var both := s.inner in al && s.outer in al;
    && (!both ==> EntryOf(after, s.from, b) == EntryOf(al, s.from, b))
    && (both ==> s.from in after && Eval(after[s.from], b) == Eval(al[s.inner], b) * Eval(al[s.outer], b))
    && forall d | d != s.from :: EntryOf(after, d, b) == EntryOf(al, d, b)
  }

  /** What is known after a directive, and that nothing known before is lost. */
  lemma AlignedExactly(proved: Prover, s: Split, al: Alignment, b: Env)
    requires Reliable(proved)
    requires s.SplitVar? ==> s.from != s.inner && s.outer != s.inner && s.from != s.outer && Eval(s.factor, b) >= 1
    ensures s.SplitVar? ==> SplitKnows(proved, s, al, Aligned(proved, s, al), b)
    ensures s.FuseVars? ==> FuseKnows(s, al, Aligned(proved, s, al), b)
    ensures s.RenameVar? ==> Aligned(proved, s, al) == al
  {
    if s.SplitVar? && s.from in al && proved(al[s.from], s.factor) {
      EvalBin(Div, al[s.from], s.factor, b);
      ExactQuotient(Eval(al[s.from], b), Eval(s.factor, b));
    }
    if s.FuseVars? && s.inner in al && s.outer in al {
      EvalBin(Mul, al[s.inner], al[s.outer], b);
    }
    hide Eval;
  }

  lemma ExactQuotient(a: int, f: int)
    requires f >= 1 && a % f == 0
    ensures Apply(Div, a, f) * f == a
  {
  }
}
