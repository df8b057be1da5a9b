/**
 * Soundness of provenance: every justification a record carries names a
 * stored fact and a stored rule whose forward-chaining step derives
 * exactly that record. Assertion and retraction both keep it.
 */
module Soundness {
  import opened Wrappers
  import opened Logic
  import opened Records
  import opened Inference
  import opened Chaining
  import opened Retraction

  /** `j` names a stored fact and a stored rule whose step derives `item`. */
  predicate SoundStep(kb: KB, g: Guard, j: Justification, item: Item) {
    && IsFact(kb, j.fact) && IsRule(kb, j.rule) && |kb.store[j.rule].item.lhs| > 0
    && Derive(g, kb.store[j.fact].item.statement, kb.store[j.rule].item) == Some(item)
  }

  /** Every justification of every record is a step that derives that record. */
  predicate Sound(kb: KB, g: Guard) {
    forall d, j :: d in kb.store && j in kb.store[d].supportedBy ==> SoundStep(kb, g, j, kb.store[d].item)
  }

  lemma EmptySound(g: Guard)
    ensures Sound(EmptyKB(), g)
  {
  }

  /** A step stays sound while the records it names keep their items. */
  lemma SoundStepKept(a: KB, b: KB, g: Guard, j: Justification, item: Item)
    requires SoundStep(a, g, j, item)
    requires j.fact in b.store && b.store[j.fact].item == a.store[j.fact].item
    requires j.rule in b.store && b.store[j.rule].item == a.store[j.rule].item
    ensures SoundStep(b, g, j, item)
  {
  }

  lemma InsertSound(kb: KB, item: Item, asserted: bool, support: seq<Justification>, g: Guard)
    requires Valid(kb) && Sound(kb, g)
    requires forall j :: j in support ==> SoundStep(kb, g, j, item)
    ensures Sound(Insert(kb, item, asserted, support), g)
  {
    var kb' := Insert(kb, item, asserted, support);
    FreshHandle(kb);
    forall d, j | d in kb'.store && j in kb'.store[d].supportedBy
      ensures SoundStep(kb', g, j, kb'.store[d].item)
    {
      if d == kb.next {
        SoundStepKept(kb, kb', g, j, item);
      } else {
        SoundStepKept(kb, kb', g, j, kb.store[d].item);
      }
    }
  }

  lemma MergeSound(kb: KB, h: Handle, support: seq<Justification>, g: Guard)
    requires h in kb.store && Sound(kb, g)
    requires forall j :: j in support ==> SoundStep(kb, g, j, kb.store[h].item)
    ensures Sound(Merge(kb, h, support), g)
  {
    var kb' := Merge(kb, h, support);
    forall d, j | d in kb'.store && j in kb'.store[d].supportedBy
      ensures SoundStep(kb', g, j, kb'.store[d].item)
    {
      SoundStepKept(kb, kb', g, j, kb.store[d].item);
    }
  }

  lemma RegisterSound(kb: KB, f: Handle, r: Handle, d: Handle, g: Guard)
    requires f in kb.store && r in kb.store && d in kb.store
    ensures Sound(kb, g) ==> Sound(Register(kb, f, r, d), g)
  {
    var kb' := Register(kb, f, r, d);
    assert forall x :: x in kb.store ==>
      (x in kb'.store && kb'.store[x].item == kb.store[x].item && kb'.store[x].supportedBy == kb.store[x].supportedBy);
    if Sound(kb, g) {
      forall x, j | x in kb'.store && j in kb'.store[x].supportedBy
        ensures SoundStep(kb', g, j, kb'.store[x].item)
      {
        SoundStepKept(kb, kb', g, j, kb.store[x].item);
      }
    }
  }

  /** kb_add keeps provenance sound when the justifications it is given are sound. */
  lemma {:induction false} AddSound(kb: KB, item: Item, asserted: bool, support: seq<Justification>, fuel: nat,
                                    g: Guard, P: set<Pending>)
    requires Inv(kb, P) && WellFormedItem(item) && SupportOk(kb, support)
    requires asserted || |support| > 0
    requires Sound(kb, g) && forall j :: j in support ==> SoundStep(kb, g, j, item)
    ensures Add(kb, item, asserted, support, fuel, g, P).Ok? ==> Sound(Add(kb, item, asserted, support, fuel, g, P).kb, g)
    decreases fuel, 4
  {
    match Locate(kb, item)
    case Some(h) =>
      MergeSound(kb, h, support, g);
    case None =>
      var kb1 := Insert(kb, item, asserted, support);
      InsertKeepsInv(kb, item, asserted, support, P);
      InsertSound(kb, item, asserted, support, g);
      FreshHandle(kb);
      if item.FactItem? {
        InferFactSound(kb1, kb.next, 0, fuel, g, P + Pend(kb.next, support));
      } else {
        InferRuleSound(kb1, kb.next, 0, fuel, g, P + Pend(kb.next, support));
      }
  }

  lemma {:induction false} InferFactSound(kb: KB, f: Handle, i: nat, fuel: nat, g: Guard, P: set<Pending>)
    requires Inv(kb, P) && IsFact(kb, f) && i <= |kb.rules| && Sound(kb, g)
    ensures InferFact(kb, f, i, fuel, g, P).Ok? ==> Sound(InferFact(kb, f, i, fuel, g, P).kb, g)
    decreases fuel, 3
  {
    if i < |kb.rules| {
      var o := FcInfer(kb, f, kb.rules[i], fuel, g, P);
      FcInferSound(kb, f, kb.rules[i], fuel, g, P);
      if o.Ok? {
        InferFactSound(o.kb, f, i + 1, o.fuel, g, P);
      }
    }
  }

  lemma {:induction false} InferRuleSound(kb: KB, rl: Handle, i: nat, fuel: nat, g: Guard, P: set<Pending>)
    requires Inv(kb, P) && IsRule(kb, rl) && i <= |kb.facts| && Sound(kb, g)
    ensures InferRule(kb, rl, i, fuel, g, P).Ok? ==> Sound(InferRule(kb, rl, i, fuel, g, P).kb, g)
    decreases fuel, 3
  {
    if i < |kb.facts| {
      var o := FcInfer(kb, kb.facts[i], rl, fuel, g, P);
      FcInferSound(kb, kb.facts[i], rl, fuel, g, P);
      if o.Ok? {
        InferRuleSound(o.kb, rl, i + 1, o.fuel, g, P);
      }
    }
  }

  lemma {:induction false} FcInferSound(kb: KB, f: Handle, rl: Handle, fuel: nat, g: Guard, P: set<Pending>)
    requires Inv(kb, P) && IsFact(kb, f) && IsRule(kb, rl) && Sound(kb, g)
    ensures FcInfer(kb, f, rl, fuel, g, P).Ok? ==> Sound(FcInfer(kb, f, rl, fuel, g, P).kb, g)
    decreases fuel, 2
  {
    if fuel > 0 {
      match Derive(g, kb.store[f].item.statement, kb.store[rl].item)
      case None =>
      case Some(d) =>
        FireSound(kb, f, rl, d, fuel, g, P);
    }
  }

  /** A successful `Fire` is the `Add` of the derived item followed by its registration. */
  lemma FireUnfold(kb: KB, f: Handle, rl: Handle, d: Item, fuel: nat, g: Guard, P: set<Pending>)
    requires Inv(kb, P) && IsFact(kb, f) && IsRule(kb, rl) && WellFormedItem(d) && fuel > 0
    ensures var a := Add(kb, d, false, [Justification(f, rl)], Spend(fuel), g, P);
      Fire(kb, f, rl, d, fuel, g, P).Ok? ==>
        && a.Ok? && f in a.kb.store && rl in a.kb.store && HandleFor(kb, d) in a.kb.store
        && Fire(kb, f, rl, d, fuel, g, P).kb == Register(a.kb, f, rl, HandleFor(kb, d))
  {
  }

  lemma {:induction false} FireSound(kb: KB, f: Handle, rl: Handle, d: Item, fuel: nat, g: Guard, P: set<Pending>)
    requires Inv(kb, P) && IsFact(kb, f) && IsRule(kb, rl) && WellFormedItem(d) && fuel > 0 && Sound(kb, g)
    requires Derive(g, kb.store[f].item.statement, kb.store[rl].item) == Some(d)
    ensures Fire(kb, f, rl, d, fuel, g, P).Ok? ==> Sound(Fire(kb, f, rl, d, fuel, g, P).kb, g)
    decreases fuel, 0
  {
    var support := [Justification(f, rl)];
    assert SupportOk(kb, support);
    assert forall j :: j in support ==> SoundStep(kb, g, j, d);
    FireUnfold(kb, f, rl, d, fuel, g, P);
    AddSound(kb, d, false, support, Spend(fuel), g, P);
    var a := Add(kb, d, false, support, Spend(fuel), g, P);
    if a.Ok? && f in a.kb.store && rl in a.kb.store && HandleFor(kb, d) in a.kb.store {
      RegisterSound(a.kb, f, rl, HandleFor(kb, d), g);
    }
  }

  /** kb_assert keeps provenance sound. */
  lemma AssertSound(kb: KB, item: Item, fuel: nat, g: Guard)
    requires Inv(kb, {}) && WellFormedItem(item) && Sound(kb, g)
    ensures Assert(kb, item, fuel, g).Ok? ==> Sound(Assert(kb, item, fuel, g).kb, g)
  {
    assert Pend(HandleFor(kb, item), []) == {};
    AddSound(kb, item, true, [], fuel, g, {});
  }

  /** kb_retract keeps provenance sound: survivors keep a subset of their justifications, between survivors. */
  lemma RetractSound(kb: KB, item: Item, g: Guard)
    requires Inv(kb, {}) && Sound(kb, g)
    ensures Sound(Retract(kb, item), g)
  {
    if item.FactItem? && Locate(kb, item).Some? {
      var h := Locate(kb, item).value;
      var kb' := Unassert(kb, h);
      var r := Retract(kb, item);
      assert Sound(kb', g) by {
        forall d, j | d in kb'.store && j in kb'.store[d].supportedBy
          ensures SoundStep(kb', g, j, kb'.store[d].item)
        {
          SoundStepKept(kb, kb', g, j, kb.store[d].item);
        }
      }
      if |kb.store[h].supportedBy| == 0 {
        forall d, j | d in r.store && j in r.store[d].supportedBy
          ensures SoundStep(r, g, j, r.store[d].item)
        {
          assert j in kb'.store[d].supportedBy && j.fact in r.store && j.rule in r.store;
          SoundStepKept(kb', r, g, j, kb'.store[d].item);
        }
      }
    }
  }
}
