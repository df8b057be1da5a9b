/** What one insertion and one forward-chaining step do to the knowledge base. */
module ChainingProps {
  import opened Wrappers
  import opened Logic
  import opened Records
  import opened Inference
  import opened Chaining

  /**
   * Re-inserting a stored item merges into its record and changes nothing
   * else: the lists and the other records stay as they are; with
   * justifications they are appended to the record's, without any the
   * record becomes asserted.
   */
  lemma AddMergesExisting(kb: KB, item: Item, asserted: bool, support: seq<Justification>, fuel: nat, g: Guard,
                          P: set<Pending>)
    requires Inv(kb, P) && WellFormedItem(item) && SupportOk(kb, support)
    requires asserted || |support| > 0
    requires Locate(kb, item).Some?
    ensures var h := Locate(kb, item).value;
      var r := Add(kb, item, asserted, support, fuel, g, P);
      && r.Ok? && r.fuel == fuel
      && r.kb.facts == kb.facts && r.kb.rules == kb.rules && r.kb.store.Keys == kb.store.Keys
      && (|support| == 0 ==> r.kb.store[h] == kb.store[h].(asserted := true))
      && (|support| > 0 ==> r.kb.store[h] == kb.store[h].(supportedBy := kb.store[h].supportedBy + support))
      && (forall x :: x in kb.store && x != h ==> r.kb.store[x] == kb.store[x])
  {
  }

  /**
   * Inserting an item that is not stored puts it under the next fresh
   * handle at the end of the list of its kind; the earlier entries keep
   * their order, and the record keeps its flag and starts with the given
   * justifications.
   */
  lemma AddAppendsNew(kb: KB, item: Item, asserted: bool, support: seq<Justification>, fuel: nat, g: Guard,
                      P: set<Pending>)
    requires Inv(kb, P) && WellFormedItem(item) && SupportOk(kb, support)
    requires asserted || |support| > 0
    requires Locate(kb, item).None?
    requires Add(kb, item, asserted, support, fuel, g, P).Ok?
    ensures var r := Add(kb, item, asserted, support, fuel, g, P).kb;
      var n := kb.next;
      && n in r.store && r.store[n].item == item && r.store[n].asserted == asserted
      && support <= r.store[n].supportedBy
      && (item.FactItem? ==> |kb.facts| < |r.facts| && r.facts[..|kb.facts| + 1] == kb.facts + [n])
      && (item.RuleItem? ==> |kb.rules| < |r.rules| && r.rules[..|kb.rules| + 1] == kb.rules + [n])
  {
    InsertThenGrow(kb, item, asserted, support, Add(kb, item, asserted, support, fuel, g, P).kb);
  }

  lemma InsertThenGrow(kb: KB, item: Item, asserted: bool, support: seq<Justification>, r: KB)
    requires Grows(Insert(kb, item, asserted, support), r)
    ensures var n := kb.next;
      && n in r.store && r.store[n].item == item && r.store[n].asserted == asserted
      && support <= r.store[n].supportedBy
      && (item.FactItem? ==> |kb.facts| < |r.facts| && r.facts[..|kb.facts| + 1] == kb.facts + [n])
      && (item.RuleItem? ==> |kb.rules| < |r.rules| && r.rules[..|kb.rules| + 1] == kb.rules + [n])
  {
    var kb1 := Insert(kb, item, asserted, support);
    assert kb1.store[kb.next] == Record(item, asserted, support, [], []);
    assert RecordGrows(kb1.store[kb.next], r.store[kb.next]);
  }

  /** A caller's assertion leaves the item stored and asserted, merged or new. */
  lemma AssertMarksAsserted(kb: KB, item: Item, fuel: nat, g: Guard)
    requires Inv(kb, {}) && WellFormedItem(item)
    requires Assert(kb, item, fuel, g).Ok?
    ensures var r := Assert(kb, item, fuel, g).kb;
      var h := HandleFor(kb, item);
      h in r.store && r.store[h].item == item && r.store[h].asserted
  {
    if Locate(kb, item).Some? {
      AddMergesExisting(kb, item, true, [], fuel, g, {});
    } else {
      AddAppendsNew(kb, item, true, [], fuel, g, {});
    }
  }

  /** A fact that does not unify with the rule's first conjunct leaves the knowledge base unchanged. */
  lemma FcInferNoMatch(kb: KB, f: Handle, rl: Handle, fuel: nat, g: Guard, P: set<Pending>)
    requires Inv(kb, P) && IsFact(kb, f) && IsRule(kb, rl) && fuel > 0
    requires Match(kb.store[f].item.statement, kb.store[rl].item.lhs[0]).None?
    ensures FcInfer(kb, f, rl, fuel, g, P) == Ok(kb, fuel - 1)
  {
  }

  /**
   * A step that fires records what it derives: a fact (one conjunct) whose
   * statement is the instantiated conclusion, or the rule narrowed to the
   * remaining instantiated conjuncts. The record carries the justification
   * (f, rl) and is registered among the dependents of both; when it is new
   * it is unasserted and that justification is its first.
   */
  lemma FcInferRecords(kb: KB, f: Handle, rl: Handle, fuel: nat, g: Guard, P: set<Pending>)
    requires Inv(kb, P) && IsFact(kb, f) && IsRule(kb, rl)
    requires Derive(g, kb.store[f].item.statement, kb.store[rl].item).Some?
    requires FcInfer(kb, f, rl, fuel, g, P).Ok?
    ensures var fact := kb.store[f].item.statement;
      var rule := kb.store[rl].item;
      var b := Match(fact, rule.lhs[0]).value;
      var d := if |rule.lhs| == 1 then FactItem(Instantiate(rule.rhs, b)) else Narrow(rule.lhs, rule.rhs, b);
      var h := HandleFor(kb, d);
      var r := FcInfer(kb, f, rl, fuel, g, P).kb;
      && Fires(g, fact, b)
      && h in r.store && r.store[h].item == d
      && Justification(f, rl) in r.store[h].supportedBy
      && h in DependentsOf(r.store[f], d) && h in DependentsOf(r.store[rl], d)
      && (Locate(kb, d).None? ==> h == kb.next && !r.store[h].asserted
                                  && r.store[h].supportedBy[0] == Justification(f, rl))
  {
  }

  /**
   * The step of fact `f`, stating `fact`, against rule `rl`, holding `rule`,
   * has taken effect in `r`: whatever the step derives is stored there
   * with the justification (f, rl).
   */
  predicate Stepped(g: Guard, f: Handle, fact: Statement, rl: Handle, rule: Item, r: KB)
    requires rule.RuleItem? && |rule.lhs| > 0
  {
    var d := Derive(g, fact, rule);
    d.Some? ==> exists h :: h in r.store && r.store[h].item == d.value && Justification(f, rl) in r.store[h].supportedBy
  }

  lemma SteppedGrows(g: Guard, f: Handle, fact: Statement, rl: Handle, rule: Item, a: KB, b: KB)
    requires rule.RuleItem? && |rule.lhs| > 0
    requires Stepped(g, f, fact, rl, rule, a) && Grows(a, b)
    ensures Stepped(g, f, fact, rl, rule, b)
  {
    var d := Derive(g, fact, rule);
    if d.Some? {
      var h :| h in a.store && a.store[h].item == d.value && Justification(f, rl) in a.store[h].supportedBy;
      PrefixMembers(a.store[h].supportedBy, b.store[h].supportedBy);
    }
  }

  /** A step that derived something has taken effect. */
  lemma DerivedStepped(kb: KB, f: Handle, rl: Handle, g: Guard, r: KB)
    requires Valid(kb) && IsFact(kb, f) && IsRule(kb, rl)
    requires var d := Derive(g, kb.store[f].item.statement, kb.store[rl].item);
      d.Some? ==> Derived(kb, f, rl, d.value, r)
    ensures Stepped(g, f, kb.store[f].item.statement, rl, kb.store[rl].item, r)
  {
  }

  /** The steps of fact `f` against the rules from index `i` on: the one at `i`, then the rest. */
  lemma InferFactStepped(kb: KB, kb1: KB, r: KB, f: Handle, i: nat, g: Guard)
    requires Valid(kb) && IsFact(kb, f) && i < |kb.rules| && Grows(kb, kb1) && Grows(kb1, r)
    requires var d := Derive(g, kb.store[f].item.statement, kb.store[kb.rules[i]].item);
      d.Some? ==> Derived(kb, f, kb.rules[i], d.value, kb1)
    requires forall k :: i + 1 <= k < |kb1.rules| ==>
      (&& kb1.rules[k] in kb1.store && kb1.store[kb1.rules[k]].item.RuleItem?
       && |kb1.store[kb1.rules[k]].item.lhs| > 0
       && Stepped(g, f, kb1.store[f].item.statement, kb1.rules[k], kb1.store[kb1.rules[k]].item, r))
    ensures Grows(kb, r)
    ensures forall k :: i <= k < |kb.rules| ==>
      Stepped(g, f, kb.store[f].item.statement, kb.rules[k], kb.store[kb.rules[k]].item, r)
  {
    GrowsTransitive(kb, kb1, r);
    var fact := kb.store[f].item.statement;
    DerivedStepped(kb, f, kb.rules[i], g, kb1);
    SteppedGrows(g, f, fact, kb.rules[i], kb.store[kb.rules[i]].item, kb1, r);
    forall k | i < k < |kb.rules|
      ensures Stepped(g, f, fact, kb.rules[k], kb.store[kb.rules[k]].item, r)
    {
      assert kb1.rules[k] == kb.rules[k];
    }
  }

  /** The steps of the facts from index `i` on against rule `rl`: the one at `i`, then the rest. */
  lemma InferRuleStepped(kb: KB, kb1: KB, r: KB, rl: Handle, i: nat, g: Guard)
    requires Valid(kb) && IsRule(kb, rl) && i < |kb.facts| && Grows(kb, kb1) && Grows(kb1, r)
    requires var d := Derive(g, kb.store[kb.facts[i]].item.statement, kb.store[rl].item);
      d.Some? ==> Derived(kb, kb.facts[i], rl, d.value, kb1)
    requires kb1.store[rl].item.RuleItem? && |kb1.store[rl].item.lhs| > 0
    requires forall k :: i + 1 <= k < |kb1.facts| ==>
      (&& kb1.facts[k] in kb1.store && kb1.store[kb1.facts[k]].item.FactItem?
       && Stepped(g, kb1.facts[k], kb1.store[kb1.facts[k]].item.statement, rl, kb1.store[rl].item, r))
    ensures Grows(kb, r)
    ensures forall k :: i <= k < |kb.facts| ==>
      Stepped(g, kb.facts[k], kb.store[kb.facts[k]].item.statement, rl, kb.store[rl].item, r)
  {
    GrowsTransitive(kb, kb1, r);
    var rule := kb.store[rl].item;
    DerivedStepped(kb, kb.facts[i], rl, g, kb1);
    SteppedGrows(g, kb.facts[i], kb.store[kb.facts[i]].item.statement, rl, rule, kb1, r);
    forall k | i < k < |kb.facts|
      ensures Stepped(g, kb.facts[k], kb.store[kb.facts[k]].item.statement, rl, rule, r)
    {
      assert kb1.facts[k] == kb.facts[k];
    }
  }

  /** No stored rule from index `i` on derives anything from fact `f`. */
  predicate QuietFact(kb: KB, f: Handle, i: nat, g: Guard)
    requires Valid(kb) && IsFact(kb, f)
  {
    forall k :: i <= k < |kb.rules| ==> Derive(g, kb.store[f].item.statement, kb.store[kb.rules[k]].item).None?
  }

  /** No stored fact from index `i` on derives anything with rule `rl`. */
  predicate QuietRule(kb: KB, rl: Handle, i: nat, g: Guard)
    requires Valid(kb) && IsRule(kb, rl)
  {
    forall k :: i <= k < |kb.facts| ==> Derive(g, kb.store[kb.facts[k]].item.statement, kb.store[rl].item).None?
  }

  /**
   * Saturation of a new fact: after the loop of kb_add, every stored rule
   * from index `i` on has been run against fact `f`, and whatever a step
   * derived is stored with the justification (f, rule).
   */
  lemma {:induction false} InferFactSaturates(kb: KB, f: Handle, i: nat, fuel: nat, g: Guard, P: set<Pending>)
    requires Inv(kb, P) && IsFact(kb, f) && i <= |kb.rules|
    requires InferFact(kb, f, i, fuel, g, P).Ok?
    ensures forall k :: i <= k < |kb.rules| ==>
      Stepped(g, f, kb.store[f].item.statement, kb.rules[k], kb.store[kb.rules[k]].item, InferFact(kb, f, i, fuel, g, P).kb)
    decreases fuel
  {
    if i < |kb.rules| {
      var o := FcInfer(kb, f, kb.rules[i], fuel, g, P);
      var r := InferFact(o.kb, f, i + 1, o.fuel, g, P);
      InferFactSaturates(o.kb, f, i + 1, o.fuel, g, P);
      InferFactStepped(kb, o.kb, r.kb, f, i, g);
    }
  }

  /**
   * Saturation of a new rule: after the loop of kb_add, every stored fact
   * from index `i` on has been run against rule `rl`, and whatever a step
   * derived is stored with the justification (fact, rl).
   */
  lemma {:induction false} InferRuleSaturates(kb: KB, rl: Handle, i: nat, fuel: nat, g: Guard, P: set<Pending>)
    requires Inv(kb, P) && IsRule(kb, rl) && i <= |kb.facts|
    requires InferRule(kb, rl, i, fuel, g, P).Ok?
    ensures forall k :: i <= k < |kb.facts| ==>
      Stepped(g, kb.facts[k], kb.store[kb.facts[k]].item.statement, rl, kb.store[rl].item, InferRule(kb, rl, i, fuel, g, P).kb)
    decreases fuel
  {
    if i < |kb.facts| {
      var o := FcInfer(kb, kb.facts[i], rl, fuel, g, P);
      var r := InferRule(o.kb, rl, i + 1, o.fuel, g, P);
      InferRuleSaturates(o.kb, rl, i + 1, o.fuel, g, P);
      InferRuleStepped(kb, o.kb, r.kb, rl, i, g);
    }
  }

  /** kb_add of a new item is its insertion followed by the loop over the items of the other kind. */
  lemma AddNew(kb: KB, item: Item, asserted: bool, support: seq<Justification>, fuel: nat, g: Guard,
               P: set<Pending>)
    requires Inv(kb, P) && WellFormedItem(item) && SupportOk(kb, support)
    requires asserted || |support| > 0
    requires Locate(kb, item).None?
    ensures var kb1 := Insert(kb, item, asserted, support);
      && Inv(kb1, P + Pend(kb.next, support)) && kb1.store[kb.next].item == item
      && (forall x :: x in kb.store ==> x != kb.next && kb1.store[x] == kb.store[x])
      && (item.FactItem? ==>
            && kb1.rules == kb.rules && IsFact(kb1, kb.next)
            && Add(kb, item, asserted, support, fuel, g, P) == InferFact(kb1, kb.next, 0, fuel, g, P + Pend(kb.next, support)))
      && (item.RuleItem? ==>
            && kb1.facts == kb.facts && IsRule(kb1, kb.next)
            && Add(kb, item, asserted, support, fuel, g, P) == InferRule(kb1, kb.next, 0, fuel, g, P + Pend(kb.next, support)))
  {
    InsertKeepsInv(kb, item, asserted, support, P);
    FreshHandle(kb);
  }

  /**
   * kb_add of a new fact runs it against every stored rule: each step that
   * derives something leaves its result stored with the justification
   * naming the new fact.
   */
  lemma AddFactSaturates(kb: KB, item: Item, asserted: bool, support: seq<Justification>, fuel: nat, g: Guard,
                         P: set<Pending>)
    requires Inv(kb, P) && item.FactItem? && SupportOk(kb, support)
    requires asserted || |support| > 0
    requires Locate(kb, item).None?
    requires Add(kb, item, asserted, support, fuel, g, P).Ok?
    ensures forall k :: 0 <= k < |kb.rules| ==>
      Stepped(g, kb.next, item.statement, kb.rules[k], kb.store[kb.rules[k]].item, Add(kb, item, asserted, support, fuel, g, P).kb)
  {
    var kb1 := Insert(kb, item, asserted, support);
    AddNew(kb, item, asserted, support, fuel, g, P);
    InferFactSaturates(kb1, kb.next, 0, fuel, g, P + Pend(kb.next, support));
  }

  /**
   * kb_add of a new rule runs every stored fact against it: each step that
   * derives something leaves its result stored with the justification
   * naming the new rule.
   */
  lemma AddRuleSaturates(kb: KB, item: Item, asserted: bool, support: seq<Justification>, fuel: nat, g: Guard,
                         P: set<Pending>)
    requires Inv(kb, P) && item.RuleItem? && WellFormedItem(item) && SupportOk(kb, support)
    requires asserted || |support| > 0
    requires Locate(kb, item).None?
    requires Add(kb, item, asserted, support, fuel, g, P).Ok?
    ensures forall k :: 0 <= k < |kb.facts| ==>
      Stepped(g, kb.facts[k], kb.store[kb.facts[k]].item.statement, kb.next, item, Add(kb, item, asserted, support, fuel, g, P).kb)
  {
    var kb1 := Insert(kb, item, asserted, support);
    AddNew(kb, item, asserted, support, fuel, g, P);
    InferRuleSaturates(kb1, kb.next, 0, fuel, g, P + Pend(kb.next, support));
  }

  /** When no remaining rule fires on fact `f`, the loop only spends one unit of fuel per rule. */
  lemma {:induction false} InferFactQuiet(kb: KB, f: Handle, i: nat, fuel: nat, g: Guard, P: set<Pending>)
    requires Inv(kb, P) && IsFact(kb, f) && i <= |kb.rules|
    requires QuietFact(kb, f, i, g) && |kb.rules| - i <= fuel
    ensures InferFact(kb, f, i, fuel, g, P) == Ok(kb, fuel - (|kb.rules| - i))
    decreases |kb.rules| - i
  {
    if i < |kb.rules| {
      assert Derive(g, kb.store[f].item.statement, kb.store[kb.rules[i]].item).None?;
      var o := FcInfer(kb, f, kb.rules[i], fuel, g, P);
      assert o == Ok(kb, fuel - 1);
      InferFactQuiet(kb, f, i + 1, o.fuel, g, P);
    }
  }

  /** When no remaining fact fires rule `rl`, the loop only spends one unit of fuel per fact. */
  lemma {:induction false} InferRuleQuiet(kb: KB, rl: Handle, i: nat, fuel: nat, g: Guard, P: set<Pending>)
    requires Inv(kb, P) && IsRule(kb, rl) && i <= |kb.facts|
    requires QuietRule(kb, rl, i, g) && |kb.facts| - i <= fuel
    ensures InferRule(kb, rl, i, fuel, g, P) == Ok(kb, fuel - (|kb.facts| - i))
    decreases |kb.facts| - i
  {
    if i < |kb.facts| {
      assert Derive(g, kb.store[kb.facts[i]].item.statement, kb.store[rl].item).None?;
      var o := FcInfer(kb, kb.facts[i], rl, fuel, g, P);
      assert o == Ok(kb, fuel - 1);
      InferRuleQuiet(kb, rl, i + 1, o.fuel, g, P);
    }
  }

  /** A new fact that fires with no stored rule is quiet once inserted. */
  lemma InsertQuietFact(kb: KB, item: Item, asserted: bool, support: seq<Justification>, g: Guard)
    requires Valid(kb) && WellFormedItem(item) && item.FactItem?
    requires forall k :: 0 <= k < |kb.rules| ==> Derive(g, item.statement, kb.store[kb.rules[k]].item).None?
    ensures Valid(Insert(kb, item, asserted, support)) && IsFact(Insert(kb, item, asserted, support), kb.next)
    ensures QuietFact(Insert(kb, item, asserted, support), kb.next, 0, g)
  {
    var kb1 := Insert(kb, item, asserted, support);
    InsertValid(kb, item, asserted, support);
    FreshHandle(kb);
    forall k | 0 <= k < |kb1.rules|
      ensures Derive(g, kb1.store[kb.next].item.statement, kb1.store[kb1.rules[k]].item).None?
    {
      assert IsRule(kb, kb.rules[k]);
    }
  }

  /** A new rule with which no stored fact fires is quiet once inserted. */
  lemma InsertQuietRule(kb: KB, item: Item, asserted: bool, support: seq<Justification>, g: Guard)
    requires Valid(kb) && WellFormedItem(item) && item.RuleItem?
    requires forall k :: 0 <= k < |kb.facts| ==> Derive(g, kb.store[kb.facts[k]].item.statement, item).None?
    ensures Valid(Insert(kb, item, asserted, support)) && IsRule(Insert(kb, item, asserted, support), kb.next)
    ensures QuietRule(Insert(kb, item, asserted, support), kb.next, 0, g)
  {
    var kb1 := Insert(kb, item, asserted, support);
    InsertValid(kb, item, asserted, support);
    FreshHandle(kb);
    forall k | 0 <= k < |kb1.facts|
      ensures Derive(g, kb1.store[kb1.facts[k]].item.statement, kb1.store[kb.next].item).None?
    {
      assert IsFact(kb, kb.facts[k]);
    }
  }

  /**
   * A new fact on which no stored rule fires is stored and nothing else
   * happens; one unit of fuel per stored rule is enough.
   */
  lemma AddFactQuiet(kb: KB, item: Item, asserted: bool, support: seq<Justification>, fuel: nat, g: Guard,
                     P: set<Pending>)
    requires Inv(kb, P) && item.FactItem? && SupportOk(kb, support)
    requires asserted || |support| > 0
    requires Locate(kb, item).None? && |kb.rules| <= fuel
    requires forall k :: 0 <= k < |kb.rules| ==> Derive(g, item.statement, kb.store[kb.rules[k]].item).None?
    ensures Add(kb, item, asserted, support, fuel, g, P) == Ok(Insert(kb, item, asserted, support), fuel - |kb.rules|)
  {
    var kb1 := Insert(kb, item, asserted, support);
    AddNew(kb, item, asserted, support, fuel, g, P);
    InsertQuietFact(kb, item, asserted, support, g);
    InferFactQuiet(kb1, kb.next, 0, fuel, g, P + Pend(kb.next, support));
  }

  /**
   * A new rule that no stored fact fires is stored and nothing else
   * happens; one unit of fuel per stored fact is enough.
   */
  lemma AddRuleQuiet(kb: KB, item: Item, asserted: bool, support: seq<Justification>, fuel: nat, g: Guard,
                     P: set<Pending>)
    requires Inv(kb, P) && item.RuleItem? && WellFormedItem(item) && SupportOk(kb, support)
    requires asserted || |support| > 0
    requires Locate(kb, item).None? && |kb.facts| <= fuel
    requires forall k :: 0 <= k < |kb.facts| ==> Derive(g, kb.store[kb.facts[k]].item.statement, item).None?
    ensures Add(kb, item, asserted, support, fuel, g, P) == Ok(Insert(kb, item, asserted, support), fuel - |kb.facts|)
  {
    var kb1 := Insert(kb, item, asserted, support);
    AddNew(kb, item, asserted, support, fuel, g, P);
    InsertQuietRule(kb, item, asserted, support, g);
    InferRuleQuiet(kb1, kb.next, 0, fuel, g, P + Pend(kb.next, support));
  }

  /**
   * Worked example: from the fact (inst3 person) the rule
   * ((?x person), (?x adult)) -> (?x votes) narrows to
   * ((inst3 adult)) -> (inst3 votes).
   */
  lemma NarrowExample()
    ensures var person := Statement("person", [Var("?x")]);
      var adult := Statement("adult", [Var("?x")]);
      var votes := Statement("votes", [Var("?x")]);
      var fact := Statement("person", [Const("inst3")]);
      Derive(ByIdentity, fact, RuleItem([person, adult], votes))
        == Some(RuleItem([Statement("adult", [Const("inst3")])], Statement("votes", [Const("inst3")])))
  {
    var person := Statement("person", [Var("?x")]);
    var adult := Statement("adult", [Var("?x")]);
    var votes := Statement("votes", [Var("?x")]);
    var fact := Statement("person", [Const("inst3")]);
    var b := map["?x" := Const("inst3")];
    assert MatchTerms(fact.terms, person.terms, map[]) == Some(b) by {
      assert Bind("?x", Const("inst3"), map[]) == Some(b);
      assert fact.terms[1..] == [] && person.terms[1..] == [];
    }
    var adult' := Statement("adult", [Const("inst3")]);
    var votes' := Statement("votes", [Const("inst3")]);
    assert Instantiate(adult, b) == adult' by {
      assert SubstituteAll(adult.terms, b) == [Const("inst3")];
    }
    assert Instantiate(votes, b) == votes' by {
      assert SubstituteAll(votes.terms, b) == [Const("inst3")];
    }
    assert InstantiateAll([person, adult][1..], b) == [adult'];
  }
}
