/**
 * Insertion with deduplication and merge, and forward chaining.
 *
 * Inserting a new record runs one forward-chaining step against every
 * record of the opposite kind, in storage order, and every record a step
 * derives is inserted in turn. The four functions below are therefore
 * mutually recursive. The source saturates without bound; here a fuel
 * budget counts forward-chaining steps, and `OutOfFuel` reports a
 * derivation chain longer than the budget.
 *
 * A step registers the back-references of a derived record only after
 * its insertion has returned, so during the nested insertion that
 * justification is still unregistered. The ghost set `P` lists those
 * pending pairs, and every function keeps `Inv(kb, P)`.
 */
module Chaining {
  import opened Wrappers
  import opened Logic
  import opened Records
  import opened Inference

  datatype Outcome = Ok(kb: KB, fuel: nat) | OutOfFuel

  /** Every justification refers to a stored fact and a stored rule. */
  predicate SupportOk(kb: KB, support: seq<Justification>) {
    forall j :: j in support ==> IsFact(kb, j.fact) && IsRule(kb, j.rule)
  }

  /** Stores `item` under the next fresh handle at the end of the list of its kind. */
  function Insert(kb: KB, item: Item, asserted: bool, support: seq<Justification>): (r: KB)
    ensures r.store.Keys == kb.store.Keys + {kb.next} && r.next == kb.next + 1
    ensures r.store[kb.next] == Record(item, asserted, support, [], [])
    ensures forall x :: x in kb.store && x != kb.next ==> r.store[x] == kb.store[x]
    ensures item.FactItem? ==> r.facts == kb.facts + [kb.next] && r.rules == kb.rules
    ensures item.RuleItem? ==> r.rules == kb.rules + [kb.next] && r.facts == kb.facts
  {
    KB(kb.store[kb.next := Record(item, asserted, support, [], [])],
       if item.FactItem? then kb.facts + [kb.next] else kb.facts,
       if item.RuleItem? then kb.rules + [kb.next] else kb.rules,
       kb.next + 1)
  }

  /** Re-insertion of a stored record: its justifications grow, or it becomes asserted. */
  function Merge(kb: KB, h: Handle, support: seq<Justification>): (r: KB)
    requires h in kb.store
    ensures r.store.Keys == kb.store.Keys && r.facts == kb.facts && r.rules == kb.rules && r.next == kb.next
    ensures forall x :: x in kb.store && x != h ==> r.store[x] == kb.store[x]
    ensures r.store[h].item == kb.store[h].item
    ensures |support| > 0 ==> r.store[h].supportedBy == kb.store[h].supportedBy + support
                              && r.store[h].asserted == kb.store[h].asserted
    ensures |support| == 0 ==> r.store[h].asserted && r.store[h].supportedBy == kb.store[h].supportedBy
  {
    var rec := kb.store[h];
    kb.(store := kb.store[h := if |support| > 0 then rec.(supportedBy := rec.supportedBy + support)
                               else rec.(asserted := true)])
  }

  function AddDependent(rec: Record, d: Handle, item: Item): Record {
    if item.FactItem? then rec.(supportsFacts := rec.supportsFacts + [d])
    else rec.(supportsRules := rec.supportsRules + [d])
  }

  /** The budget left after one forward-chaining step has been paid for. */
  function Spend(fuel: nat): (r: nat)
    requires fuel > 0
    ensures r < fuel
  {
    fuel - 1
  }

  /** Records `d` as derived from fact `f` and rule `r`. */
  function Register(kb: KB, f: Handle, r: Handle, d: Handle): (kb': KB)
    requires f in kb.store && r in kb.store && d in kb.store
    ensures kb'.store.Keys == kb.store.Keys && kb'.facts == kb.facts && kb'.rules == kb.rules && kb'.next == kb.next
    ensures forall x :: x in kb.store ==>
      && kb'.store[x].item == kb.store[x].item && kb'.store[x].asserted == kb.store[x].asserted
      && kb'.store[x].supportedBy == kb.store[x].supportedBy
    ensures d in DependentsOf(kb'.store[f], kb.store[d].item) && d in DependentsOf(kb'.store[r], kb.store[d].item)
    ensures forall x :: x in kb.store && x != f && x != r ==> kb'.store[x] == kb.store[x]
  {
    var item := kb.store[d].item;
    var kb1 := kb.(store := kb.store[f := AddDependent(kb.store[f], d, item)]);
    kb1.(store := kb1.store[r := AddDependent(kb1.store[r], d, item)])
  }

  /** Handles in use are below `kb.next`, so the next one is fresh. */
  lemma FreshHandle(kb: KB)
    requires Valid(kb)
    ensures kb.next !in kb.store && kb.next !in kb.facts && kb.next !in kb.rules
  {
    forall i | 0 <= i < |kb.facts| ensures kb.facts[i] != kb.next { assert IsFact(kb, kb.facts[i]); }
    forall i | 0 <= i < |kb.rules| ensures kb.rules[i] != kb.next { assert IsRule(kb, kb.rules[i]); }
  }

  lemma InsertValid(kb: KB, item: Item, asserted: bool, support: seq<Justification>)
    requires Valid(kb) && WellFormedItem(item)
    ensures Valid(Insert(kb, item, asserted, support))
    ensures Grows(kb, Insert(kb, item, asserted, support))
  {
    var kb' := Insert(kb, item, asserted, support);
    FreshHandle(kb);
    forall i | 0 <= i < |kb'.facts| ensures IsFact(kb', kb'.facts[i]) {
      if i < |kb.facts| { assert kb'.facts[i] == kb.facts[i]; }
    }
    forall i | 0 <= i < |kb'.rules| ensures IsRule(kb', kb'.rules[i]) {
      if i < |kb.rules| { assert kb'.rules[i] == kb.rules[i]; }
    }
  }

  lemma InsertNoDuplicates(kb: KB, item: Item, asserted: bool, support: seq<Justification>)
    requires Valid(kb) && NoDuplicates(kb) && Locate(kb, item).None?
    ensures NoDuplicates(Insert(kb, item, asserted, support))
  {
    FreshHandle(kb);
  }

  lemma InsertJustified(kb: KB, item: Item, asserted: bool, support: seq<Justification>)
    requires Valid(kb) && Justified(kb) && (asserted || |support| > 0)
    ensures Justified(Insert(kb, item, asserted, support))
  {
    FreshHandle(kb);
  }

  lemma InsertSupportsStored(kb: KB, item: Item, asserted: bool, support: seq<Justification>)
    requires Valid(kb) && SupportsStored(kb) && SupportOk(kb, support)
    ensures SupportsStored(Insert(kb, item, asserted, support))
  {
    FreshHandle(kb);
    var kb' := Insert(kb, item, asserted, support);
    forall d, j | d in kb'.store && j in kb'.store[d].supportedBy
      ensures IsFact(kb', j.fact) && IsRule(kb', j.rule)
    {
      if d != kb.next { assert j in kb.store[d].supportedBy; }
    }
  }

  lemma InsertBackRefs(kb: KB, item: Item, asserted: bool, support: seq<Justification>, P: set<Pending>)
    requires Valid(kb) && BackRefs(kb, P)
    ensures BackRefs(Insert(kb, item, asserted, support), P + Pend(kb.next, support))
  {
    FreshHandle(kb);
    var kb' := Insert(kb, item, asserted, support);
    assert forall j :: j in support ==> (kb.next, j) in Pend(kb.next, support);
    forall d, j | d in kb'.store && j in kb'.store[d].supportedBy && (d, j) !in P + Pend(kb.next, support)
      ensures Registered(kb', d, j)
    {
      if d != kb.next {
        assert j in kb.store[d].supportedBy;
        assert Registered(kb, d, j);
      }
    }
  }

  lemma InsertKeepsInv(kb: KB, item: Item, asserted: bool, support: seq<Justification>, P: set<Pending>)
    requires Inv(kb, P) && Locate(kb, item).None? && WellFormedItem(item)
    requires asserted || |support| > 0
    requires SupportOk(kb, support)
    ensures var kb' := Insert(kb, item, asserted, support);
      && Inv(kb', P + Pend(kb.next, support)) && Grows(kb, kb')
      && kb'.store[kb.next] == Record(item, asserted, support, [], [])
  {
    InsertValid(kb, item, asserted, support);
    InsertNoDuplicates(kb, item, asserted, support);
    InsertJustified(kb, item, asserted, support);
    InsertSupportsStored(kb, item, asserted, support);
    InsertBackRefs(kb, item, asserted, support, P);
  }

  lemma MergeBackRefs(kb: KB, h: Handle, support: seq<Justification>, P: set<Pending>)
    requires BackRefs(kb, P) && h in kb.store
    ensures BackRefs(Merge(kb, h, support), P + Pend(h, support))
  {
    var kb' := Merge(kb, h, support);
    assert forall j :: j in support ==> (h, j) in Pend(h, support);
    forall d, j | d in kb'.store && j in kb'.store[d].supportedBy && (d, j) !in P + Pend(h, support)
      ensures Registered(kb', d, j)
    {
      if d != h || j in kb.store[d].supportedBy {
        assert j in kb.store[d].supportedBy;
        assert Registered(kb, d, j);
      }
    }
  }

  lemma MergeSupportsStored(kb: KB, h: Handle, support: seq<Justification>)
    requires SupportsStored(kb) && h in kb.store && SupportOk(kb, support)
    ensures SupportsStored(Merge(kb, h, support))
  {
    var kb' := Merge(kb, h, support);
    forall d, j | d in kb'.store && j in kb'.store[d].supportedBy
      ensures IsFact(kb', j.fact) && IsRule(kb', j.rule)
    {
      if !(d == h && j in support) { assert j in kb.store[d].supportedBy; }
    }
  }

  lemma MergeShape(kb: KB, h: Handle, support: seq<Justification>)
    requires Valid(kb) && NoDuplicates(kb) && Justified(kb) && h in kb.store
    ensures Valid(Merge(kb, h, support)) && NoDuplicates(Merge(kb, h, support)) && Justified(Merge(kb, h, support))
    ensures |support| > 0 ==> Grows(kb, Merge(kb, h, support))
  {
    var kb' := Merge(kb, h, support);
    assert forall x :: x in kb.store ==> kb'.store[x].item == kb.store[x].item;
  }

  lemma MergeKeepsInv(kb: KB, h: Handle, support: seq<Justification>, P: set<Pending>)
    requires Inv(kb, P) && h in kb.store && SupportOk(kb, support)
    ensures Inv(Merge(kb, h, support), P + Pend(h, support))
    ensures |support| > 0 ==> Grows(kb, Merge(kb, h, support))
  {
    MergeShape(kb, h, support);
    MergeSupportsStored(kb, h, support);
    MergeBackRefs(kb, h, support, P);
  }

  lemma RegisterBackRefs(kb: KB, f: Handle, r: Handle, d: Handle, P: set<Pending>)
    requires BackRefs(kb, P + {(d, Justification(f, r))})
    requires f in kb.store && r in kb.store && d in kb.store
    ensures BackRefs(Register(kb, f, r, d), P)
  {
    var kb' := Register(kb, f, r, d);
    forall x, j | x in kb'.store && j in kb'.store[x].supportedBy && (x, j) !in P
      ensures Registered(kb', x, j)
    {
      assert kb'.store[x].item == kb.store[x].item;
      if (x, j) != (d, Justification(f, r)) {
        assert j in kb.store[x].supportedBy;
        assert Registered(kb, x, j);
        var item := kb.store[x].item;
        assert DependentsOf(kb.store[j.fact], item) <= DependentsOf(kb'.store[j.fact], item);
        assert DependentsOf(kb.store[j.rule], item) <= DependentsOf(kb'.store[j.rule], item);
      }
    }
  }

  /** `b` differs from `a` at most in the back-reference lists. */
  predicate SameProvenance(a: KB, b: KB) {
    && a.facts == b.facts && a.rules == b.rules && a.next == b.next
    && a.store.Keys == b.store.Keys
    && (forall x :: x in a.store ==> b.store[x].item == a.store[x].item)
    && (forall x :: x in a.store ==> b.store[x].asserted == a.store[x].asserted)
    && (forall x :: x in a.store ==> b.store[x].supportedBy == a.store[x].supportedBy)
  }

  lemma SameProvenanceShape(a: KB, b: KB)
    requires SameProvenance(a, b) && Valid(a) && NoDuplicates(a)
    ensures Valid(b) && NoDuplicates(b)
  {
    assert forall h :: IsFact(a, h) <==> IsFact(b, h);
    assert forall h :: IsRule(a, h) <==> IsRule(b, h);
  }

  lemma SameProvenanceSupport(a: KB, b: KB)
    requires SameProvenance(a, b) && Justified(a) && SupportsStored(a)
    ensures Justified(b) && SupportsStored(b)
  {
    assert forall h :: IsFact(a, h) <==> IsFact(b, h);
    assert forall h :: IsRule(a, h) <==> IsRule(b, h);
  }

  lemma RegisterShape(kb: KB, f: Handle, r: Handle, d: Handle)
    requires Valid(kb) && NoDuplicates(kb) && Justified(kb) && SupportsStored(kb)
    requires IsFact(kb, f) && IsRule(kb, r) && d in kb.store
    ensures var kb' := Register(kb, f, r, d);
      Valid(kb') && NoDuplicates(kb') && Justified(kb') && SupportsStored(kb') && Grows(kb, kb')
  {
    var kb' := Register(kb, f, r, d);
    assert SameProvenance(kb, kb');
    SameProvenanceShape(kb, kb');
    SameProvenanceSupport(kb, kb');
    assert forall x :: x in kb.store ==> RecordGrows(kb.store[x], kb'.store[x]);
  }

  lemma RegisterKeepsInv(kb: KB, f: Handle, r: Handle, d: Handle, P: set<Pending>)
    requires Inv(kb, P + {(d, Justification(f, r))})
    requires IsFact(kb, f) && IsRule(kb, r) && d in kb.store
    ensures Inv(Register(kb, f, r, d), P) && Grows(kb, Register(kb, f, r, d))
    ensures d in DependentsOf(Register(kb, f, r, d).store[f], kb.store[d].item)
    ensures d in DependentsOf(Register(kb, f, r, d).store[r], kb.store[d].item)
  {
    RegisterShape(kb, f, r, d);
    RegisterBackRefs(kb, f, r, d, P);
  }

  /** Registration touches only back-reference lists, and lists `d` under `f` and `r`. */
  lemma RegisterFacts(kb: KB, f: Handle, r: Handle, d: Handle)
    requires f in kb.store && r in kb.store && d in kb.store && f != r
    ensures var kb' := Register(kb, f, r, d);
      && d in kb'.store
      && kb'.store[d].item == kb.store[d].item
      && kb'.store[d].asserted == kb.store[d].asserted
      && kb'.store[d].supportedBy == kb.store[d].supportedBy
      && d in DependentsOf(kb'.store[f], kb.store[d].item)
      && d in DependentsOf(kb'.store[r], kb.store[d].item)
  {
  }

  /** A record inserted fresh with one justification keeps it first and stays unasserted while the KB grows. */
  lemma FreshRecordAfterGrowth(kb: KB, d: Item, j: Justification, a: KB)
    requires Grows(Insert(kb, d, false, [j]), a)
    ensures kb.next in a.store && !a.store[kb.next].asserted && a.store[kb.next].supportedBy[0] == j
  {
    assert RecordGrows(Insert(kb, d, false, [j]).store[kb.next], a.store[kb.next]);
  }

  /**
   * Inserts `item` with the given provenance (kb_add): a structurally equal
   * stored record is merged into; otherwise the item is stored and a
   * forward-chaining step is run against every record of the other kind.
   */
  function Add(kb: KB, item: Item, asserted: bool, support: seq<Justification>, fuel: nat, g: Guard,
               ghost P: set<Pending>): (r: Outcome)
    requires Inv(kb, P) && WellFormedItem(item) && SupportOk(kb, support)
    requires asserted || |support| > 0
    ensures Locate(kb, item).Some? ==> r.Ok? && r.fuel == fuel
    ensures r.Ok? ==> r.fuel <= fuel && Inv(r.kb, P + Pend(HandleFor(kb, item), support))
    ensures r.Ok? ==> HandleFor(kb, item) in r.kb.store && r.kb.store[HandleFor(kb, item)].item == item
    ensures r.Ok? && (|support| > 0 || Locate(kb, item).None?) ==> Grows(kb, r.kb)
    ensures r.Ok? && Locate(kb, item).None? ==> Grows(Insert(kb, item, asserted, support), r.kb)
    ensures r.Ok? ==> forall j :: j in support ==> j in r.kb.store[HandleFor(kb, item)].supportedBy
    decreases fuel, 3
  {
    match Locate(kb, item)
    case Some(h) =>
      MergeKeepsInv(kb, h, support, P);
      Ok(Merge(kb, h, support), fuel)
    case None =>
      var h := kb.next;
      InsertKeepsInv(kb, item, asserted, support, P);
      var kb1 := Insert(kb, item, asserted, support);
      var r := if item.FactItem? then InferFact(kb1, h, 0, fuel, g, P + Pend(h, support))
               else InferRule(kb1, h, 0, fuel, g, P + Pend(h, support));
      if r.Ok? then
        GrowsTransitive(kb, kb1, r.kb);
        PrefixMembers(kb1.store[h].supportedBy, r.kb.store[h].supportedBy);
        r
      else r
  }

  /** Runs the step of fact `f` against the stored rules from index `i` on, in storage order. */
  function InferFact(kb: KB, f: Handle, i: nat, fuel: nat, g: Guard, ghost P: set<Pending>): (r: Outcome)
    requires Inv(kb, P) && IsFact(kb, f) && i <= |kb.rules|
    ensures r.Ok? ==> r.fuel <= fuel && Inv(r.kb, P) && Grows(kb, r.kb)
    decreases fuel, 2
  {
    if i == |kb.rules| then Ok(kb, fuel)
    else
      match FcInfer(kb, f, kb.rules[i], fuel, g, P)
      case OutOfFuel => OutOfFuel
      case Ok(kb1, fuel1) =>
        var r := InferFact(kb1, f, i + 1, fuel1, g, P);
        if r.Ok? then GrowsTransitive(kb, kb1, r.kb); r else r
  }

  /** Runs the step of every stored fact from index `i` on against rule `rl`, in storage order. */
  function InferRule(kb: KB, rl: Handle, i: nat, fuel: nat, g: Guard, ghost P: set<Pending>): (r: Outcome)
    requires Inv(kb, P) && IsRule(kb, rl) && i <= |kb.facts|
    ensures r.Ok? ==> r.fuel <= fuel && Inv(r.kb, P) && Grows(kb, r.kb)
    decreases fuel, 2
  {
    if i == |kb.facts| then Ok(kb, fuel)
    else
      match FcInfer(kb, kb.facts[i], rl, fuel, g, P)
      case OutOfFuel => OutOfFuel
      case Ok(kb1, fuel1) =>
        var r := InferRule(kb1, rl, i + 1, fuel1, g, P);
        if r.Ok? then GrowsTransitive(kb, kb1, r.kb); r else r
  }

  /**
   * One forward-chaining step (fc_infer) of stored fact `f` against stored
   * rule `rl`: nothing happens when the fact does not unify with the first
   * conjunct; otherwise the derived record is inserted and registered.
   */
  function FcInfer(kb: KB, f: Handle, rl: Handle, fuel: nat, g: Guard, ghost P: set<Pending>): (r: Outcome)
    requires Inv(kb, P) && IsFact(kb, f) && IsRule(kb, rl)
    ensures r.Ok? ==> r.fuel < fuel && Inv(r.kb, P) && Grows(kb, r.kb)
    ensures r.Ok? && Derive(g, kb.store[f].item.statement, kb.store[rl].item).Some? ==>
      Derived(kb, f, rl, Derive(g, kb.store[f].item.statement, kb.store[rl].item).value, r.kb)
    ensures 0 < fuel && Derive(g, kb.store[f].item.statement, kb.store[rl].item).None? ==> r == Ok(kb, fuel - 1)
    decreases fuel, 1
  {
    if fuel == 0 then OutOfFuel
    else
      match Derive(g, kb.store[f].item.statement, kb.store[rl].item)
      case None => Ok(kb, fuel - 1)
      case Some(d) => Fire(kb, f, rl, d, fuel, g, P)
  }

  /**
   * After a step of `f` against `rl` derived `d`: `d` is stored, carries
   * the justification (f, rl), and is listed among the dependents of both;
   * when it was not stored before, it is unasserted and that justification
   * is its first.
   */
  predicate Derived(kb: KB, f: Handle, rl: Handle, d: Item, r: KB)
    requires Valid(kb)
  {
    var h := HandleFor(kb, d);
    && h in r.store && f in r.store && rl in r.store && r.store[h].item == d
    && Justification(f, rl) in r.store[h].supportedBy
    && h in DependentsOf(r.store[f], d) && h in DependentsOf(r.store[rl], d)
    && (Locate(kb, d).None? ==> h == kb.next && !r.store[h].asserted
                                && r.store[h].supportedBy[0] == Justification(f, rl))
  }

  /** Inserts what a step derived, with justification (f, rl), then registers it under both. */
  function Fire(kb: KB, f: Handle, rl: Handle, d: Item, fuel: nat, g: Guard, ghost P: set<Pending>): (r: Outcome)
    requires Inv(kb, P) && IsFact(kb, f) && IsRule(kb, rl) && WellFormedItem(d) && fuel > 0
    ensures r.Ok? ==> r.fuel < fuel && Inv(r.kb, P) && Grows(kb, r.kb)
    ensures r.Ok? ==> Derived(kb, f, rl, d, r.kb)
    decreases fuel, 0
  {
    var j := Justification(f, rl);
    var h := HandleFor(kb, d);
    match Add(kb, d, false, [j], Spend(fuel), g, P)
    case OutOfFuel => OutOfFuel
    case Ok(kb1, fuel1) =>
      assert Pend(h, [j]) == {(h, j)};
      RegisterKeepsInv(kb1, f, rl, h, P);
      GrowsTransitive(kb, kb1, Register(kb1, f, rl, h));
      RegisterFacts(kb1, f, rl, h);
      if Locate(kb, d).None? then
        FreshRecordAfterGrowth(kb, d, j, kb1);
        Ok(Register(kb1, f, rl, h), fuel1)
      else
        Ok(Register(kb1, f, rl, h), fuel1)
  }

  /**
   * A caller's assertion (kb_assert): the item is inserted as asserted and
   * without justification, and the knowledge base keeps its invariant.
   */
  function Assert(kb: KB, item: Item, fuel: nat, g: Guard): (r: Outcome)
    requires Inv(kb, {}) && WellFormedItem(item)
    ensures Locate(kb, item).Some? ==> r.Ok?
    ensures r.Ok? ==> Inv(r.kb, {})
    ensures r.Ok? ==> exists h :: h in r.kb.store && r.kb.store[h].item == item
  {
    assert Pend(HandleFor(kb, item), []) == {};
    Add(kb, item, true, [], fuel, g, {})
  }
}
