/**
 * The pure part of one forward-chaining step: what a fact and a rule
 * derive, before anything is inserted into the knowledge base.
 */
module Inference {
  import opened Wrappers
  import opened Logic
  import opened Records

  /**
   * The step compares the unifier's result with the fact's unification
   * with itself before it fires. That comparison goes through the
   * equality of the unseen bindings class, so both readings are kept:
   * by object identity two results never compare equal and the guard
   * always lets the step through; by value the fact's self-unification
   * is the empty binding and the guard blocks every step that binds nothing.
   */
  datatype Guard = ByIdentity | ByValue

  predicate Fires(g: Guard, fact: Statement, b: Bindings) {
    g == ByIdentity || Match(fact, fact) != Some(b)
  }

  /** Under the by-value reading, the guard blocks exactly the empty binding. */
  lemma FiresByValue(fact: Statement, b: Bindings)
    ensures Fires(ByValue, fact, b) <==> b != map[]
  {
    MatchSelf(fact);
  }

  function InstantiateAll(ss: seq<Statement>, b: Bindings): (r: seq<Statement>)
    ensures |r| == |ss|
  {
    seq(|ss|, i requires 0 <= i < |ss| => Instantiate(ss[i], b))
  }

  /** The rule specialised by `b`, keeping every conjunct after the first. */
  function Narrow(lhs: seq<Statement>, rhs: Statement, b: Bindings): (r: Item)
    requires |lhs| > 1
    ensures r.RuleItem? && |r.lhs| == |lhs| - 1 && r.rhs == Instantiate(rhs, b)
    ensures forall k :: 0 <= k < |r.lhs| ==> r.lhs[k] == Instantiate(lhs[k + 1], b)
  {
    RuleItem(InstantiateAll(lhs[1..], b), Instantiate(rhs, b))
  }

  /**
   * What `fact` and `rule` derive: nothing when the fact does not unify with
   * the first conjunct (or the guard blocks), a fact when the rule has one
   * conjunct, and otherwise the narrowed rule.
   */
  function Derive(g: Guard, fact: Statement, rule: Item): (r: Option<Item>)
    requires rule.RuleItem? && |rule.lhs| > 0
    ensures r.Some? <==> Match(fact, rule.lhs[0]).Some? && Fires(g, fact, Match(fact, rule.lhs[0]).value)
    ensures r.Some? ==> WellFormedItem(r.value)
    ensures r.Some? ==> (r.value.FactItem? <==> |rule.lhs| == 1)
    ensures r.Some? && r.value.RuleItem? ==> |r.value.lhs| == |rule.lhs| - 1
  {
    match Match(fact, rule.lhs[0])
    case None => None
    case Some(b) =>
      if !Fires(g, fact, b) then None
      else if |rule.lhs| > 1 then Some(Narrow(rule.lhs, rule.rhs, b))
      else Some(FactItem(Instantiate(rule.rhs, b)))
  }

  /**
   * Soundness of a step on a ground fact: the bindings used turn the first
   * conjunct into the fact, and the result is the rule's conclusion (one
   * conjunct) or the rest of the rule under those bindings.
   */
  lemma DeriveSound(g: Guard, fact: Statement, rule: Item)
    requires rule.RuleItem? && |rule.lhs| > 0 && Ground(fact)
    requires Derive(g, fact, rule).Some?
    ensures var b := Match(fact, rule.lhs[0]).value;
      && Instantiate(rule.lhs[0], b) == fact
      && (|rule.lhs| == 1 ==> Derive(g, fact, rule).value == FactItem(Instantiate(rule.rhs, b)))
      && (|rule.lhs| > 1 ==> Derive(g, fact, rule).value == Narrow(rule.lhs, rule.rhs, b))
  {
    MatchSoundMirror(fact, rule.lhs[0]);
  }

  /**
   * Completeness of a step on a ground fact under the identity reading: if
   * any substitution turns the first conjunct into the fact, the rule fires.
   */
  lemma DeriveComplete(fact: Statement, rule: Item, s: Bindings)
    requires rule.RuleItem? && |rule.lhs| > 0 && Ground(fact)
    requires Instantiate(rule.lhs[0], s) == fact
    ensures Derive(ByIdentity, fact, rule).Some?
  {
    MatchCompleteMirror(fact, rule.lhs[0], s);
  }

  /** Under the by-value reading a ground first conjunct never fires on a ground fact. */
  lemma GroundConjunctBlockedByValue(fact: Statement, rule: Item)
    requires rule.RuleItem? && |rule.lhs| > 0 && Ground(rule.lhs[0]) && Ground(fact)
    ensures Derive(ByValue, fact, rule).None?
  {
    match Match(fact, rule.lhs[0])
    case None =>
    case Some(b) =>
      MatchSymmetric(fact, rule.lhs[0]);
      assert b == map[] by { GroundMatchBindsNothing(rule.lhs[0].terms, fact.terms, map[]); }
      FiresByValue(fact, b);
  }

  lemma {:induction false} GroundMatchBindsNothing(xs: seq<Term>, ys: seq<Term>, b: Bindings)
    requires |xs| == |ys| && GroundTerms(xs) && GroundTerms(ys)
    requires MatchTerms(xs, ys, b).Some?
    ensures MatchTerms(xs, ys, b) == Some(b)
    decreases |xs|
  {
    if |xs| > 0 {
      assert GroundTerms(xs[1..]) by {
        forall i | 0 <= i < |xs[1..]| ensures xs[1..][i].Const? { assert xs[1..][i] == xs[i + 1]; }
      }
      assert GroundTerms(ys[1..]) by {
        forall i | 0 <= i < |ys[1..]| ensures ys[1..][i].Const? { assert ys[1..][i] == ys[i + 1]; }
      }
      GroundMatchBindsNothing(xs[1..], ys[1..], b);
    }
  }

  /**
   * The conjuncts the source keeps when it narrows a rule: every conjunct
   * different from the first one, so later repeats of the first conjunct
   * are dropped as well.
   */
  function NarrowAsWritten(lhs: seq<Statement>): (r: seq<Statement>)
    requires |lhs| > 0
    ensures forall x :: x in r <==> x in lhs && x != lhs[0]
  {
    KeepOther(lhs, lhs[0])
  }

  function KeepOther(ss: seq<Statement>, first: Statement): (r: seq<Statement>)
    ensures forall x :: x in r <==> x in ss && x != first
    decreases |ss|
  {
    if |ss| == 0 then []
    else (if ss[0] != first then [ss[0]] else []) + KeepOther(ss[1..], first)
  }

  /**
   * A rule whose first conjunct is repeated is narrowed to an empty
   * conjunction, although it has more than one conjunct; the next step
   * against it would read the first conjunct of an empty list.
   */
  lemma NarrowAsWrittenEmptiesRepeatedConjunct(p: Statement)
    ensures NarrowAsWritten([p, p]) == []
    ensures |[p, p][1..]| == 1
  {
    assert [p, p][1..] == [p];
    assert [p][1..] == [];
    assert KeepOther([p], p) == [] + KeepOther([], p);
    assert KeepOther([p, p], p) == [] + KeepOther([p], p);
  }

  /** Without a repeat of the first conjunct, the source's filter keeps the tail. */
  lemma {:induction false} NarrowAsWrittenAgrees(lhs: seq<Statement>)
    requires |lhs| > 0 && lhs[0] !in lhs[1..]
    ensures NarrowAsWritten(lhs) == lhs[1..]
  {
    KeepOtherAbsent(lhs[1..], lhs[0]);
    assert KeepOther(lhs, lhs[0]) == KeepOther(lhs[1..], lhs[0]);
  }

  lemma {:induction false} KeepOtherAbsent(ss: seq<Statement>, first: Statement)
    requires first !in ss
    ensures KeepOther(ss, first) == ss
    decreases |ss|
  {
    if |ss| > 0 {
      KeepOtherAbsent(ss[1..], first);
      assert ss == [ss[0]] + ss[1..];
    }
  }
}
