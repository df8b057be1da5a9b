/**
 * The retraction code as written, where it departs from the cascade in
 * `Retraction`: the justification loops delete from the list they iterate
 * over, and the clean-up of a rule that lost its last justification
 * neither checks the asserted flag of the facts it retracts nor looks at
 * the rules it helped derive.
 */
module RetractionAsWritten {
  import opened Wrappers
  import opened Logic
  import opened Records
  import opened Retraction

  /** List removal: deletes the first element equal to `e`, if any. */
  function RemoveFirst(s: seq<Justification>, e: Justification): (r: seq<Justification>)
    ensures e in s ==> |r| == |s| - 1
    ensures e !in s ==> r == s
    ensures forall x :: x in r ==> x in s
    ensures forall x :: x in s && x != e ==> x in r
    decreases |s|
  {
    if |s| == 0 then []
    else if s[0] == e then s[1..]
    else [s[0]] + RemoveFirst(s[1..], e)
  }

  /**
   * The loop over a record's justifications that deletes each one whose
   * fact is `f`: the iteration advances an index into the list while the
   * deletions shift the later elements down.
   */
  function StripLoop(s: seq<Justification>, f: Handle, i: nat): (r: seq<Justification>)
    ensures forall x :: x in r ==> x in s
    ensures forall x :: x in s && x.fact != f ==> x in r
    decreases if i <= |s| then |s| - i else 0
  {
    if i >= |s| then s
    else if s[i].fact == f then StripLoop(RemoveFirst(s, s[i]), f, i + 1)
    else StripLoop(s, f, i + 1)
  }

  function StripAsWritten(s: seq<Justification>, f: Handle): (r: seq<Justification>)
    ensures forall x :: x in r ==> x in s
    ensures forall x :: x in s && x.fact != f ==> x in r
  {
    StripLoop(s, f, 0)
  }

  /**
   * Two consecutive justifications by the same fact: the first is deleted,
   * the second moves into the slot already visited and survives, so the
   * record still refers to the fact being removed.
   */
  lemma StripAsWrittenSkipsSecond()
    ensures var s := [Justification(1, 2), Justification(1, 3)];
      && StripAsWritten(s, 1) == [Justification(1, 3)]
      && Strip(s, 1) == []
  {
    var s := [Justification(1, 2), Justification(1, 3)];
    assert RemoveFirst(s, s[0]) == [Justification(1, 3)];
    assert StripLoop(s, 1, 0) == StripLoop([Justification(1, 3)], 1, 1);
    assert Strip(s, 1) == [] + Strip(s[1..], 1);
    assert Strip(s[1..], 1) == [] + Strip(s[2..], 1);
  }

  /** The justifications of `js` whose rule is not `y`, in order. */
  function StripByRule(js: seq<Justification>, y: Handle): (r: seq<Justification>)
    ensures forall j :: j in r <==> j in js && j.rule != y
    decreases |js|
  {
    if |js| == 0 then []
    else (if js[0].rule == y then [] else [js[0]]) + StripByRule(js[1..], y)
  }

  /** The outcome of the clean-up of a rule: the knowledge base and the facts it goes on to retract. */
  datatype Dropped = Dropped(kb: KB, retracts: seq<Handle>)

  /**
   * The handles of `deps` stored in `after` that had a justification in
   * `before` and have none left in `after`, in order.
   */
  function Emptied(before: KB, after: KB, deps: seq<Handle>): (r: seq<Handle>)
    ensures forall x :: x in r <==>
      (x in deps && x in before.store && x in after.store
       && |before.store[x].supportedBy| > 0 && |after.store[x].supportedBy| == 0)
    decreases |deps|
  {
    if |deps| == 0 then []
    else (if deps[0] in before.store && deps[0] in after.store && |before.store[deps[0]].supportedBy| > 0
             && |after.store[deps[0]].supportedBy| == 0 then [deps[0]] else [])
         + Emptied(before, after, deps[1..])
  }

  /**
   * The clean-up of rule `y` once it has lost its last justification: the
   * facts it derived lose the justifications naming `y`, and each one
   * that loses its last justification is retracted, asserted or not; the rules it derived are not
   * visited; `y` leaves the rule list.
   */
  function DropRuleAsWritten(kb: KB, y: Handle): (r: Dropped)
    requires y in kb.store
    ensures r.kb.store.Keys == kb.store.Keys - {y}
    ensures forall x :: x in r.kb.store && x !in kb.store[y].supportsFacts ==> r.kb.store[x] == kb.store[x]
    ensures forall x :: x in r.kb.store ==> r.kb.store[x].asserted == kb.store[x].asserted
    ensures forall x :: x in r.retracts <==>
      (x in kb.store[y].supportsFacts && x in kb.store && x != y && |kb.store[x].supportedBy| > 0
       && forall j :: j in kb.store[x].supportedBy ==> j.rule == y)
  {
    var deps := kb.store[y].supportsFacts;
    var store := map x | x in kb.store && x != y ::
      if x in deps then kb.store[x].(supportedBy := StripByRule(kb.store[x].supportedBy, y)) else kb.store[x];
    var kb' := kb.(store := store, rules := Without(kb.rules, y));
    forall x | x in deps && x in store
      ensures |store[x].supportedBy| == 0 <==> forall j :: j in kb.store[x].supportedBy ==> j.rule == y
    {
      if |store[x].supportedBy| > 0 {
        assert store[x].supportedBy[0] in store[x].supportedBy;
      }
    }
    Dropped(kb', Emptied(kb, kb', deps))
  }

  function P(t: Term): Statement { Statement("p", [t]) }
  function Q(t: Term): Statement { Statement("q", [t]) }
  function R(t: Term): Statement { Statement("r", [t]) }

  /**
   * Rule 1, ((?x p)) -> (?x q), has just lost its last justification; it
   * had derived fact 2, (a q), from fact 0, (a p), and fact 2 is also
   * asserted by a caller.
   */
  function DerivedFactKB(): KB {
    KB(map[0 := Record(FactItem(P(Const("a"))), true, [], [2], []),
           1 := Record(RuleItem([P(Var("?x"))], Q(Var("?x"))), false, [], [2], []),
           2 := Record(FactItem(Q(Const("a"))), true, [Justification(0, 1)], [], [])],
       [0, 2], [1], 3)
  }

  /**
   * Rule 1, ((?x p), (?x r)) -> (?x q), has just lost its last
   * justification; it had derived rule 2, ((a r)) -> (a q), from fact 0.
   */
  function DerivedRuleKB(): KB {
    KB(map[0 := Record(FactItem(P(Const("a"))), true, [], [], [2]),
           1 := Record(RuleItem([P(Var("?x")), R(Var("?x"))], Q(Var("?x"))), false, [], [], [2]),
           2 := Record(RuleItem([R(Const("a"))], Q(Const("a"))), false, [Justification(0, 1)], [], [])],
       [0], [1, 2], 3)
  }

  /** The clean-up as written retracts fact 2 although a caller asserted it. */
  lemma DropRuleRetractsAssertedFact()
    ensures var kb := DerivedFactKB();
      2 in DropRuleAsWritten(kb, 1).retracts && kb.store[2].asserted
  {
    var kb := DerivedFactKB();
    assert 2 in kb.store[1].supportsFacts;
    assert forall j :: j in kb.store[2].supportedBy ==> j == Justification(0, 1);
  }

  /**
   * The clean-up as written leaves rule 2 stored with a justification
   * naming the removed rule 1: the knowledge base refers to a record it
   * no longer holds.
   */
  lemma DropRuleLeavesDanglingJustification()
    ensures var r := DropRuleAsWritten(DerivedRuleKB(), 1).kb;
      && 2 in r.store && 1 !in r.store && Justification(0, 1) in r.store[2].supportedBy
      && !SupportsStored(r)
  {
    var kb := DerivedRuleKB();
    var r := DropRuleAsWritten(kb, 1).kb;
    assert 2 !in kb.store[1].supportsFacts;
    assert r.store[2] == kb.store[2];
    assert Justification(0, 1) in r.store[2].supportedBy;
  }

  lemma DerivedFactKBTidy()
    ensures Tidy(DerivedFactKB()) && DeadQueued(DerivedFactKB(), [1])
  {
    var kb := DerivedFactKB();
    assert kb.store.Keys == {0, 1, 2};
    assert Registered(kb, 2, Justification(0, 1));
  }

  lemma DerivedRuleKBTidy()
    ensures Tidy(DerivedRuleKB()) && DeadQueued(DerivedRuleKB(), [1])
  {
    var kb := DerivedRuleKB();
    assert kb.store.Keys == {0, 1, 2};
    assert Registered(kb, 2, Justification(0, 1));
  }

  /** The cascade removes rule 1 but keeps the asserted fact 2, asserted. */
  lemma CascadeKeepsAssertedFact()
    ensures Tidy(DerivedFactKB()) && DeadQueued(DerivedFactKB(), [1])
    ensures var r := Cascade(DerivedFactKB(), [1]);
      1 !in r.store && 2 in r.store && r.store[2].asserted
  {
    DerivedFactKBTidy();
  }

  /** The cascade removes rule 1 and the rule it derived, so no justification dangles. */
  lemma CascadeRemovesDerivedRule()
    ensures Tidy(DerivedRuleKB()) && DeadQueued(DerivedRuleKB(), [1])
    ensures var r := Cascade(DerivedRuleKB(), [1]);
      1 !in r.store && 2 !in r.store && 0 in r.store
  {
    DerivedRuleKBTidy();
  }
}
