/**
 * A worked run of forward chaining: two `person` facts and the rule
 * ((?x person)) -> (?x mortal), asserted in that order. Asserting the rule
 * runs it against both stored facts; each step derives a `mortal` fact,
 * stores it unasserted with one justification, and registers it as a
 * dependent of the fact and of the rule. The derived facts match no rule,
 * so inserting them chains no further.
 */
module Scenarios {
  import opened Wrappers
  import opened Logic
  import opened Records
  import opened Inference
  import opened Chaining
  import opened ChainingProps

  function Person(n: string): Item { FactItem(Statement("person", [Const(n)])) }
  function Mortal(n: string): Item { FactItem(Statement("mortal", [Const(n)])) }
  function MortalRule(): Item {
    RuleItem([Statement("person", [Var("?x")])], Statement("mortal", [Var("?x")]))
  }

  /** The record of a caller's assertion, before anything is derived from it. */
  function Asserted(item: Item, facts: seq<Handle>): Record { Record(item, true, [], facts, []) }
  /** The record of a fact derived from fact `f` and rule `r`. */
  function DerivedFrom(item: Item, f: Handle, r: Handle): Record {
    Record(item, false, [Justification(f, r)], [], [])
  }

  /** After asserting (inst1 person). */
  function OneFact(): KB { KB(map[0 := Asserted(Person("inst1"), [])], [0], [], 1) }
  /** After asserting (inst2 person). */
  function TwoFacts(): KB {
    KB(map[0 := Asserted(Person("inst1"), []), 1 := Asserted(Person("inst2"), [])], [0, 1], [], 2)
  }
  /** The rule stored under handle 2, before chaining. */
  function RuleStored(): KB {
    KB(map[0 := Asserted(Person("inst1"), []), 1 := Asserted(Person("inst2"), []),
           2 := Asserted(MortalRule(), [])], [0, 1], [2], 3)
  }
  /** (inst1 mortal) stored under handle 3, not yet registered. */
  function FirstAdded(): KB {
    KB(map[0 := Asserted(Person("inst1"), []), 1 := Asserted(Person("inst2"), []),
           2 := Asserted(MortalRule(), []), 3 := DerivedFrom(Mortal("inst1"), 0, 2)], [0, 1, 3], [2], 4)
  }
  /** ... and registered with fact 0 and the rule. */
  function FirstDerived(): KB {
    KB(map[0 := Asserted(Person("inst1"), [3]), 1 := Asserted(Person("inst2"), []),
           2 := Asserted(MortalRule(), [3]), 3 := DerivedFrom(Mortal("inst1"), 0, 2)], [0, 1, 3], [2], 4)
  }
  /** (inst2 mortal) stored under handle 4, not yet registered. */
  function SecondAdded(): KB {
    KB(map[0 := Asserted(Person("inst1"), [3]), 1 := Asserted(Person("inst2"), []),
           2 := Asserted(MortalRule(), [3]), 3 := DerivedFrom(Mortal("inst1"), 0, 2),
           4 := DerivedFrom(Mortal("inst2"), 1, 2)], [0, 1, 3, 4], [2], 5)
  }
  /**
   * The end state: the two facts and the rule stay asserted and list their
   * dependents; each `mortal` fact is unasserted with exactly the
   * justification of the fact and the rule that derived it.
   */
  function SecondDerived(): KB {
    KB(map[0 := Asserted(Person("inst1"), [3]), 1 := Asserted(Person("inst2"), [4]),
           2 := Asserted(MortalRule(), [3, 4]), 3 := DerivedFrom(Mortal("inst1"), 0, 2),
           4 := DerivedFrom(Mortal("inst2"), 1, 2)], [0, 1, 3, 4], [2], 5)
  }

  /** The rule fires on a `person` fact under either reading of the guard. */
  lemma RuleFiresOnPerson(g: Guard, n: string)
    ensures Derive(g, Person(n).statement, MortalRule()) == Some(Mortal(n))
  {
    var fact := Person(n).statement;
    var b := map["?x" := Const(n)];
    assert Match(fact, MortalRule().lhs[0]) == Some(b) by {
      var xs, ys := fact.terms, MortalRule().lhs[0].terms;
      assert xs[0] != ys[0] && !xs[0].Var? && ys[0].Var?;
      assert Bind("?x", Const(n), map[]) == Some(b);
      assert MatchTerms(xs[1..], ys[1..], b) == Some(b);
      assert MatchTerms(xs, ys, map[]) == Some(b);
    }
    MatchSelf(fact);
    assert Instantiate(MortalRule().rhs, b) == Mortal(n).statement by {
      assert SubstituteAll(MortalRule().rhs.terms, b) == [Const(n)];
    }
  }

  /** The rule never fires on a `mortal` fact. */
  lemma RuleQuietOnMortal(g: Guard, n: string)
    ensures Derive(g, Mortal(n).statement, MortalRule()).None?
  {
  }

  /** Each stage follows from the one before by an insertion or a registration. */
  lemma FirstInserted()
    ensures Insert(RuleStored(), Mortal("inst1"), false, [Justification(0, 2)]) == FirstAdded()
  {
    var a := Insert(RuleStored(), Mortal("inst1"), false, [Justification(0, 2)]).store;
    assert a.Keys == FirstAdded().store.Keys;
    assert a[0] == FirstAdded().store[0] && a[1] == FirstAdded().store[1];
    assert a[2] == FirstAdded().store[2] && a[3] == FirstAdded().store[3];
  }

  lemma FirstRegistered()
    ensures Register(FirstAdded(), 0, 2, 3) == FirstDerived()
  {
    var a := Register(FirstAdded(), 0, 2, 3).store;
    assert a.Keys == FirstDerived().store.Keys;
    assert a[0] == FirstDerived().store[0] && a[1] == FirstDerived().store[1];
    assert a[2] == FirstDerived().store[2] && a[3] == FirstDerived().store[3];
  }

  lemma SecondInserted()
    ensures Insert(FirstDerived(), Mortal("inst2"), false, [Justification(1, 2)]) == SecondAdded()
  {
    var a := Insert(FirstDerived(), Mortal("inst2"), false, [Justification(1, 2)]).store;
    assert a.Keys == SecondAdded().store.Keys;
    assert a[0] == SecondAdded().store[0] && a[1] == SecondAdded().store[1];
    assert a[2] == SecondAdded().store[2] && a[3] == SecondAdded().store[3];
    assert a[4] == SecondAdded().store[4];
  }

  lemma SecondRegistered()
    ensures Register(SecondAdded(), 1, 2, 4) == SecondDerived()
  {
    var a := Register(SecondAdded(), 1, 2, 4).store;
    assert a.Keys == SecondDerived().store.Keys;
    assert a[0] == SecondDerived().store[0] && a[1] == SecondDerived().store[1];
    assert a[2] == SecondDerived().store[2] && a[3] == SecondDerived().store[3];
    assert a[4] == SecondDerived().store[4];
  }

  lemma AssertFirstFact(g: Guard)
    ensures Inv(EmptyKB(), {})
    ensures Assert(EmptyKB(), Person("inst1"), 0, g) == Ok(OneFact(), 0)
  {
    assert Pend(0, []) == {};
    AddFactQuiet(EmptyKB(), Person("inst1"), true, [], 0, g, {});
    assert Insert(EmptyKB(), Person("inst1"), true, []) == OneFact();
  }

  lemma AssertSecondFact(g: Guard)
    ensures Inv(OneFact(), {})
    ensures Assert(OneFact(), Person("inst2"), 0, g) == Ok(TwoFacts(), 0)
  {
    var kb := OneFact();
    assert Inv(kb, {}) by { AssertFirstFact(g); }
    assert Locate(kb, Person("inst2")).None? by {
      assert forall h :: h in kb.store ==> kb.store[h].item != Person("inst2");
    }
    assert Add(kb, Person("inst2"), true, [], 0, g, {}) == Ok(Insert(kb, Person("inst2"), true, []), 0) by {
      AddFactQuiet(kb, Person("inst2"), true, [], 0, g, {});
    }
    assert Pend(1, []) == {};
    assert Insert(kb, Person("inst2"), true, []) == TwoFacts();
  }

  /** Asserting the rule stores it and hands it to chaining over both facts. */
  lemma AssertRuleStarts(g: Guard, fuel: nat)
    ensures Inv(TwoFacts(), {}) && Inv(RuleStored(), {}) && IsRule(RuleStored(), 2)
    ensures Assert(TwoFacts(), MortalRule(), fuel, g) == InferRule(RuleStored(), 2, 0, fuel, g, {})
  {
    var kb := TwoFacts();
    assert Inv(kb, {}) by { AssertSecondFact(g); }
    assert Locate(kb, MortalRule()).None? by {
      assert forall h :: h in kb.store ==> kb.store[h].item != MortalRule();
    }
    assert Pend(2, []) == {} && {} + Pend(2, []) == {};
    assert Insert(kb, MortalRule(), true, []) == RuleStored();
    assert Inv(RuleStored(), {}) && Add(kb, MortalRule(), true, [], fuel, g, {}) == InferRule(RuleStored(), 2, 0, fuel, g, {}) by {
      AddNew(kb, MortalRule(), true, [], fuel, g, {});
    }
    assert Assert(kb, MortalRule(), fuel, g) == Add(kb, MortalRule(), true, [], fuel, g, {});
  }

  /** (inst1 mortal) is new, and with its justification it fires nothing. */
  lemma FirstAddQuiet(g: Guard)
    ensures Inv(RuleStored(), {}) && SupportOk(RuleStored(), [Justification(0, 2)])
    ensures Locate(RuleStored(), Mortal("inst1")).None?
    ensures Add(RuleStored(), Mortal("inst1"), false, [Justification(0, 2)], 5, g, {})
         == Ok(Insert(RuleStored(), Mortal("inst1"), false, [Justification(0, 2)]), 4)
  {
    var kb := RuleStored();
    var j := Justification(0, 2);
    assert Inv(kb, {}) by { AssertRuleStarts(g, 0); }
    assert Locate(kb, Mortal("inst1")).None? by {
      assert forall h :: h in kb.store ==> kb.store[h].item != Mortal("inst1");
    }
    assert SupportOk(kb, [j]);
    RuleQuietOnMortal(g, "inst1");
    AddFactQuiet(kb, Mortal("inst1"), false, [j], 5, g, {});
  }

  /** Inserting (inst1 mortal) with its justification chains no further. */
  lemma FirstAdd(g: Guard)
    ensures Inv(RuleStored(), {}) && SupportOk(RuleStored(), [Justification(0, 2)])
    ensures Add(RuleStored(), Mortal("inst1"), false, [Justification(0, 2)], 5, g, {}) == Ok(FirstAdded(), 4)
    ensures HandleFor(RuleStored(), Mortal("inst1")) == 3
  {
    FirstAddQuiet(g);
    FirstInserted();
  }

  /** The step of fact 0 against the rule derives (inst1 mortal) under handle 3. */
  lemma FirstStep(g: Guard)
    ensures Inv(RuleStored(), {}) && IsFact(RuleStored(), 0) && IsRule(RuleStored(), 2)
    ensures FcInfer(RuleStored(), 0, 2, 6, g, {}) == Ok(FirstDerived(), 4)
  {
    var kb := RuleStored();
    assert kb.store[0].item.statement == Person("inst1").statement && kb.store[2].item == MortalRule();
    assert Inv(kb, {}) && Add(kb, Mortal("inst1"), false, [Justification(0, 2)], 5, g, {}) == Ok(FirstAdded(), 4)
      && HandleFor(kb, Mortal("inst1")) == 3 by { FirstAdd(g); }
    assert Derive(g, Person("inst1").statement, MortalRule()) == Some(Mortal("inst1")) by {
      RuleFiresOnPerson(g, "inst1");
    }
    FirstRegistered();
    assert FcInfer(kb, 0, 2, 6, g, {}) == Fire(kb, 0, 2, Mortal("inst1"), 6, g, {});
    assert Fire(kb, 0, 2, Mortal("inst1"), 6, g, {}) == Ok(FirstDerived(), 4);
  }

  /** The knowledge base after the first firing satisfies the invariant. */
  lemma InvFirstDerived(g: Guard)
    ensures Inv(FirstDerived(), {})
  {
    FirstStep(g);
  }

  /** (inst2 mortal) is new, and with its justification it fires nothing. */
  lemma SecondAddQuiet(g: Guard)
    ensures Inv(FirstDerived(), {}) ==>
      && SupportOk(FirstDerived(), [Justification(1, 2)])
      && Locate(FirstDerived(), Mortal("inst2")).None?
      && Add(FirstDerived(), Mortal("inst2"), false, [Justification(1, 2)], 3, g, {})
         == Ok(Insert(FirstDerived(), Mortal("inst2"), false, [Justification(1, 2)]), 2)
  {
    var kb := FirstDerived();
    var j := Justification(1, 2);
    if Inv(kb, {}) {
      assert Locate(kb, Mortal("inst2")).None? by {
        assert forall h :: h in kb.store ==> kb.store[h].item != Mortal("inst2");
      }
      assert SupportOk(kb, [j]);
      RuleQuietOnMortal(g, "inst2");
      AddFactQuiet(kb, Mortal("inst2"), false, [j], 3, g, {});
    }
  }

  /** Inserting (inst2 mortal) with its justification chains no further. */
  lemma SecondAdd(g: Guard)
    ensures Inv(FirstDerived(), {}) ==>
      && SupportOk(FirstDerived(), [Justification(1, 2)])
      && Add(FirstDerived(), Mortal("inst2"), false, [Justification(1, 2)], 3, g, {}) == Ok(SecondAdded(), 2)
      && HandleFor(FirstDerived(), Mortal("inst2")) == 4
  {
    SecondAddQuiet(g);
    SecondInserted();
  }

  /** The step of fact 1 against the rule derives (inst2 mortal) under handle 4. */
  lemma SecondStep(g: Guard)
    ensures Inv(FirstDerived(), {}) ==>
      && IsFact(FirstDerived(), 1) && IsRule(FirstDerived(), 2)
      && FcInfer(FirstDerived(), 1, 2, 4, g, {}) == Ok(SecondDerived(), 2)
  {
    var kb := FirstDerived();
    if Inv(kb, {}) {
      assert kb.store[1].item.statement == Person("inst2").statement && kb.store[2].item == MortalRule();
      assert Add(kb, Mortal("inst2"), false, [Justification(1, 2)], 3, g, {}) == Ok(SecondAdded(), 2)
        && HandleFor(kb, Mortal("inst2")) == 4 by { SecondAdd(g); }
      assert Derive(g, Person("inst2").statement, MortalRule()) == Some(Mortal("inst2")) by {
        RuleFiresOnPerson(g, "inst2");
      }
      SecondRegistered();
      assert FcInfer(kb, 1, 2, 4, g, {}) == Fire(kb, 1, 2, Mortal("inst2"), 4, g, {});
      assert Fire(kb, 1, 2, Mortal("inst2"), 4, g, {}) == Ok(SecondDerived(), 2);
    }
  }

  /** The knowledge base after the second firing satisfies the invariant. */
  lemma InvSecondDerived(g: Guard)
    ensures Inv(SecondDerived(), {})
  {
    InvFirstDerived(g);
    SecondStep(g);
  }

  /** The two derived facts do not match the rule, so chaining stops there. */
  lemma LastSteps(g: Guard)
    ensures Inv(SecondDerived(), {}) ==> InferRule(SecondDerived(), 2, 2, 2, g, {}) == Ok(SecondDerived(), 0)
  {
    var kb := SecondDerived();
    if Inv(kb, {}) {
      assert QuietRule(kb, 2, 2, g) by {
        RuleQuietOnMortal(g, "inst1");
        RuleQuietOnMortal(g, "inst2");
      }
      InferRuleQuiet(kb, 2, 2, 2, g, {});
    }
  }

  /**
   * Asserting the rule with a budget of six steps succeeds and uses it up:
   * two steps that fire, each followed by the insertion of the derived fact
   * with its one step against the rule, then two steps that derive nothing.
   */
  lemma AssertRuleChains(g: Guard)
    ensures Inv(TwoFacts(), {})
    ensures Assert(TwoFacts(), MortalRule(), 6, g) == Ok(SecondDerived(), 0)
  {
    assert Inv(TwoFacts(), {}) && Inv(RuleStored(), {})
      && Assert(TwoFacts(), MortalRule(), 6, g) == InferRule(RuleStored(), 2, 0, 6, g, {}) by {
      AssertRuleStarts(g, 6);
    }
    InvFirstDerived(g);
    InvSecondDerived(g);
    FirstRound(g);
    SecondRound(g);
    LastSteps(g);
  }

  /** The rule's run over the facts: fact 0 fires and leaves four steps for the rest. */
  lemma FirstRound(g: Guard)
    ensures Inv(RuleStored(), {}) && Inv(FirstDerived(), {}) ==>
      InferRule(RuleStored(), 2, 0, 6, g, {}) == InferRule(FirstDerived(), 2, 1, 4, g, {})
  {
    FirstStep(g);
  }

  /** ... then fact 1 fires and leaves two steps. */
  lemma SecondRound(g: Guard)
    ensures Inv(FirstDerived(), {}) && Inv(SecondDerived(), {}) ==>
      InferRule(FirstDerived(), 2, 1, 4, g, {}) == InferRule(SecondDerived(), 2, 2, 2, g, {})
  {
    SecondStep(g);
  }

  /**
   * The whole run from an empty knowledge base: the two facts need no
   * budget, the rule needs six steps, and the result is `SecondDerived()`.
   */
  lemma MortalScenario(g: Guard)
    ensures var a := Assert(EmptyKB(), Person("inst1"), 0, g);
      && a.Ok? && Inv(a.kb, {})
      && var b := Assert(a.kb, Person("inst2"), 0, g);
      && b.Ok? && Inv(b.kb, {})
      && Assert(b.kb, MortalRule(), 6, g) == Ok(SecondDerived(), 0)
  {
    AssertFirstFact(g);
    AssertSecondFact(g);
    AssertRuleChains(g);
  }
}
