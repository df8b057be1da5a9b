/** What retraction promises about the records it keeps and removes. */
module RetractionProps {
  import opened Wrappers
  import opened Logic
  import opened Records
  import opened Retraction

  /**
   * Retraction never removes or unasserts an asserted record other than
   * the one retracted.
   */
  lemma RetractKeepsAsserted(kb: KB, item: Item, x: Handle)
    requires Inv(kb, {}) && x in kb.store && kb.store[x].asserted && kb.store[x].item != item
    ensures var r := Retract(kb, item);
      x in r.store && r.store[x].asserted && r.store[x].item == kb.store[x].item
  {
    if item.FactItem? && Locate(kb, item).Some? {
      var h := Locate(kb, item).value;
      assert x != h;
    }
  }

  /**
   * After retracting an unsupported fact, a record other than it survives
   * exactly when it is asserted or keeps a justification whose fact and
   * rule both survive: the surviving records support themselves. That
   * they are the largest such set is `RetractMinimal`.
   */
  lemma RetractFixpoint(kb: KB, item: Item, x: Handle)
    requires Inv(kb, {}) && item.FactItem? && Locate(kb, item).Some?
    requires |kb.store[Locate(kb, item).value].supportedBy| == 0
    requires x in kb.store && x != Locate(kb, item).value
    ensures var r := Retract(kb, item);
      x in r.store <==> kb.store[x].asserted || |Surviving(kb.store[x].supportedBy, r.store.Keys)| > 0
  {
    var h := Locate(kb, item).value;
    var r := Retract(kb, item);
    var kb' := Unassert(kb, h);
    assert kb'.store[x] == kb.store[x];
    if x in r.store {
      assert !Dead(r.store[x]);
    }
  }

  /**
   * Records of `S` each stay asserted or keep a justification whose fact
   * and rule are both in `S`.
   */
  predicate SelfSupporting(kb: KB, S: set<Handle>)
    requires S <= kb.store.Keys
  {
    forall x :: x in S ==>
      kb.store[x].asserted || exists j :: j in kb.store[x].supportedBy && j.fact in S && j.rule in S
  }

  lemma {:induction false} StripKeeps(js: seq<Justification>, h: Handle, j: Justification)
    requires j in js && !Mentions(j, h)
    ensures j in Strip(js, h)
  {
  }

  /**
   * The cascade removes only what has to go: a set of records that
   * supports itself and holds no queued dead record survives it whole.
   */
  lemma CascadeKeepsSelfSupporting(kb: KB, work: seq<Handle>, S: set<Handle>)
    requires Tidy(kb) && DeadQueued(kb, work)
    requires S <= kb.store.Keys && SelfSupporting(kb, S)
    ensures S <= Cascade(kb, work).store.Keys
    decreases kb.store.Keys, |work|
  {
    if |work| == 0 {
    } else if work[0] !in kb.store || !Dead(kb.store[work[0]]) {
      assert work == [work[0]] + work[1..];
      CascadeKeepsSelfSupporting(kb, work[1..], S);
    } else {
      var h := work[0];
      var kb' := Remove(kb, h);
      assert h !in S;
      RemoveTidy(kb, h);
      RemoveQueuesDead(kb, h, work);
      forall x | x in S
        ensures kb'.store[x].asserted || exists j :: j in kb'.store[x].supportedBy && j.fact in S && j.rule in S
      {
        if !kb.store[x].asserted {
          var j :| j in kb.store[x].supportedBy && j.fact in S && j.rule in S;
          StripKeeps(kb.store[x].supportedBy, h, j);
        }
      }
      CascadeKeepsSelfSupporting(kb', work[1..] + NewlyDead(kb', kb.store[h].supportsFacts + kb.store[h].supportsRules), S);
    }
  }

  /**
   * Retracting an unsupported fact keeps every set of other records that
   * supports itself: with `RetractFixpoint`, the records that survive are
   * the largest self-supporting set without the retracted fact, so records
   * that only support each other in a cycle are kept as well.
   */
  lemma RetractMinimal(kb: KB, item: Item, S: set<Handle>)
    requires Inv(kb, {}) && item.FactItem? && Locate(kb, item).Some?
    requires |kb.store[Locate(kb, item).value].supportedBy| == 0
    requires S <= kb.store.Keys && Locate(kb, item).value !in S && SelfSupporting(kb, S)
    ensures S <= Retract(kb, item).store.Keys
  {
    var h := Locate(kb, item).value;
    var kb' := Unassert(kb, h);
    UnassertTidy(kb, h);
    assert DeadQueued(kb', [h]);
    assert forall x :: x in S ==> kb'.store[x] == kb.store[x];
    assert SelfSupporting(kb', S);
    CascadeKeepsSelfSupporting(kb', [h], S);
  }

  /** A surviving record keeps exactly its justifications whose fact and rule survive. */
  lemma RetractKeepsSurvivingSupport(kb: KB, item: Item, x: Handle)
    requires Inv(kb, {}) && item.FactItem? && Locate(kb, item).Some?
    requires |kb.store[Locate(kb, item).value].supportedBy| == 0
    requires x in Retract(kb, item).store
    ensures var r := Retract(kb, item);
      && r.store[x].item == kb.store[x].item && r.store[x].asserted == kb.store[x].asserted
      && r.store[x].supportedBy == Surviving(kb.store[x].supportedBy, r.store.Keys)
  {
    var h := Locate(kb, item).value;
    assert Unassert(kb, h).store[x] == kb.store[x];
  }

  /** An unsupported fact is gone after its retraction: asking for it finds nothing. */
  lemma RetractForgets(kb: KB, item: Item)
    requires Inv(kb, {}) && item.FactItem? && Locate(kb, item).Some?
    requires |kb.store[Locate(kb, item).value].supportedBy| == 0
    ensures Locate(Retract(kb, item), item).None?
  {
    var h := Locate(kb, item).value;
    var r := Retract(kb, item);
    var kb' := Unassert(kb, h);
    forall x | x in r.store ensures r.store[x].item != item {
      assert x != h;
      assert r.store[x].item == kb'.store[x].item == kb.store[x].item;
    }
  }

  /** A fact with a justification left stays stored under the same handle, unasserted. */
  lemma RetractSupportedStays(kb: KB, item: Item)
    requires Inv(kb, {}) && item.FactItem? && Locate(kb, item).Some?
    requires |kb.store[Locate(kb, item).value].supportedBy| > 0
    ensures var h := Locate(kb, item).value;
      var r := Retract(kb, item);
      && Locate(r, item) == Some(h) && !r.store[h].asserted
      && r.store[h].supportedBy == kb.store[h].supportedBy
  {
    var h := Locate(kb, item).value;
    SearchSameItems(kb, Retract(kb, item), kb.facts, item);
  }

  /** Lookup depends only on the list and the items stored under its handles. */
  lemma {:induction false} SearchSameItems(a: KB, b: KB, hs: seq<Handle>, item: Item)
    requires forall i :: 0 <= i < |hs| ==> hs[i] in a.store && hs[i] in b.store
    requires forall i :: 0 <= i < |hs| ==> a.store[hs[i]].item == b.store[hs[i]].item
    ensures Search(a, hs, item) == Search(b, hs, item)
    decreases |hs|
  {
    if |hs| > 0 {
      SearchSameItems(a, b, hs[1..], item);
    }
  }

  /** Retracting twice is retracting once. */
  lemma RetractIdempotent(kb: KB, item: Item)
    requires Inv(kb, {})
    ensures Retract(Retract(kb, item), item) == Retract(kb, item)
  {
    if item.FactItem? && Locate(kb, item).Some? {
      var h := Locate(kb, item).value;
      var r := Retract(kb, item);
      if |kb.store[h].supportedBy| > 0 {
        RetractSupportedStays(kb, item);
        assert r.store[h := r.store[h].(asserted := false)] == r.store;
      } else {
        RetractForgets(kb, item);
      }
    }
  }
}
