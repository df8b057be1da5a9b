/**
 * Retraction with truth maintenance (kb_retract).
 *
 * Retracting a stored fact that still has a derivation only clears its
 * asserted flag. A fact without any derivation is removed, and removal
 * cascades: every justification that mentions a removed record is dropped,
 * and every record left neither asserted nor supported is removed in turn.
 * The source walks the back-references recursively; the model keeps a
 * worklist of records to remove, so the recursion is on the size of the
 * store.
 */
module Retraction {
  import opened Wrappers
  import opened Logic
  import opened Records

  /** Justification `j` names record `h` as its fact or its rule. */
  predicate Mentions(j: Justification, h: Handle) {
    j.fact == h || j.rule == h
  }

  /** The justifications of `js` that do not mention `h`, in order. */
  function Strip(js: seq<Justification>, h: Handle): (r: seq<Justification>)
    ensures forall j :: j in r <==> j in js && !Mentions(j, h)
    ensures |r| <= |js|
    decreases |js|
  {
    if |js| == 0 then []
    else (if Mentions(js[0], h) then [] else [js[0]]) + Strip(js[1..], h)
  }

  /**
   * Strip filters element by element: on a concatenation it is the
   * concatenation of the two filtered halves, so what it keeps stays in
   * order and keeps its multiplicity.
   */
  lemma {:induction false} StripAppend(a: seq<Justification>, b: seq<Justification>, h: Handle)
    ensures Strip(a + b, h) == Strip(a, h) + Strip(b, h)
    decreases |a|
  {
    if |a| == 0 {
      assert a + b == b;
    } else {
      assert (a + b)[0] == a[0] && (a + b)[1..] == a[1..] + b;
      StripAppend(a[1..], b, h);
    }
  }

  /** The justifications of `js` whose fact and rule are both in `keys`, in order. */
  function Surviving(js: seq<Justification>, keys: set<Handle>): (r: seq<Justification>)
    ensures forall j :: j in r <==> j in js && j.fact in keys && j.rule in keys
    ensures |r| <= |js|
    decreases |js|
  {
    if |js| == 0 then []
    else (if js[0].fact in keys && js[0].rule in keys then [js[0]] else []) + Surviving(js[1..], keys)
  }

  /** Stripping one handle from the survivors of `keys` leaves the survivors of `keys` without it. */
  lemma {:induction false} StripSurviving(js: seq<Justification>, keys: set<Handle>, h: Handle)
    ensures Strip(Surviving(js, keys), h) == Surviving(js, keys - {h})
    decreases |js|
  {
    if |js| > 0 {
      StripSurviving(js[1..], keys, h);
      var rest := Surviving(js[1..], keys);
      if js[0].fact in keys && js[0].rule in keys {
        assert Surviving(js, keys) == [js[0]] + rest;
        assert ([js[0]] + rest)[1..] == rest;
      } else {
        assert Surviving(js, keys) == rest;
      }
    }
  }

  lemma {:induction false} SurvivingTwice(js: seq<Justification>, k1: set<Handle>, k2: set<Handle>)
    requires k2 <= k1
    ensures Surviving(Surviving(js, k1), k2) == Surviving(js, k2)
    decreases |js|
  {
    if |js| > 0 {
      SurvivingTwice(js[1..], k1, k2);
      var rest := Surviving(js[1..], k1);
      if js[0].fact in k1 && js[0].rule in k1 {
        assert Surviving(js, k1) == [js[0]] + rest;
        assert ([js[0]] + rest)[1..] == rest;
      } else {
        assert Surviving(js, k1) == rest;
      }
    }
  }

  lemma {:induction false} SurvivingAll(js: seq<Justification>, keys: set<Handle>)
    requires forall j :: j in js ==> j.fact in keys && j.rule in keys
    ensures Surviving(js, keys) == js
    decreases |js|
  {
    if |js| > 0 {
      assert js[0] in js;
      assert forall j :: j in js[1..] ==> j in js;
      SurvivingAll(js[1..], keys);
      assert js == [js[0]] + js[1..];
    }
  }

  /** A list without any justification mentioning `h` is left alone by `Strip`. */
  lemma {:induction false} StripNone(js: seq<Justification>, h: Handle)
    requires forall j :: j in js ==> !Mentions(j, h)
    ensures Strip(js, h) == js
    decreases |js|
  {
    if |js| > 0 {
      assert js[0] in js;
      assert forall j :: j in js[1..] ==> j in js;
      StripNone(js[1..], h);
      assert js == [js[0]] + js[1..];
    }
  }

  /** The handles of `hs` other than `h`, in order: list removal on a list without repeats. */
  function Without(hs: seq<Handle>, h: Handle): (r: seq<Handle>)
    ensures forall x :: x in r <==> x in hs && x != h
    decreases |hs|
  {
    if |hs| == 0 then []
    else (if hs[0] == h then [] else [hs[0]]) + Without(hs[1..], h)
  }

  /** Without filters element by element, so the handles it keeps stay in order. */
  lemma {:induction false} WithoutAppend(a: seq<Handle>, b: seq<Handle>, h: Handle)
    ensures Without(a + b, h) == Without(a, h) + Without(b, h)
    decreases |a|
  {
    if |a| == 0 {
      assert a + b == b;
    } else {
      assert (a + b)[0] == a[0] && (a + b)[1..] == a[1..] + b;
      WithoutAppend(a[1..], b, h);
    }
  }

  /** The handles of `hs` that are in `keys`, in order. */
  function KeepIn(hs: seq<Handle>, keys: set<Handle>): (r: seq<Handle>)
    ensures forall x :: x in r <==> x in hs && x in keys
    decreases |hs|
  {
    if |hs| == 0 then []
    else (if hs[0] in keys then [hs[0]] else []) + KeepIn(hs[1..], keys)
  }

  lemma {:induction false} WithoutKeepIn(hs: seq<Handle>, keys: set<Handle>, h: Handle)
    ensures Without(KeepIn(hs, keys), h) == KeepIn(hs, keys - {h})
    decreases |hs|
  {
    if |hs| > 0 {
      WithoutKeepIn(hs[1..], keys, h);
      var rest := KeepIn(hs[1..], keys);
      if hs[0] in keys {
        assert KeepIn(hs, keys) == [hs[0]] + rest;
        assert ([hs[0]] + rest)[1..] == rest;
      } else {
        assert KeepIn(hs, keys) == rest;
      }
    }
  }

  lemma {:induction false} KeepInTwice(hs: seq<Handle>, k1: set<Handle>, k2: set<Handle>)
    requires k2 <= k1
    ensures KeepIn(KeepIn(hs, k1), k2) == KeepIn(hs, k2)
    decreases |hs|
  {
    if |hs| > 0 {
      KeepInTwice(hs[1..], k1, k2);
      var rest := KeepIn(hs[1..], k1);
      if hs[0] in k1 {
        assert KeepIn(hs, k1) == [hs[0]] + rest;
        assert ([hs[0]] + rest)[1..] == rest;
      } else {
        assert KeepIn(hs, k1) == rest;
      }
    }
  }

  lemma {:induction false} KeepInAll(hs: seq<Handle>, keys: set<Handle>)
    requires forall x :: x in hs ==> x in keys
    ensures KeepIn(hs, keys) == hs
    decreases |hs|
  {
    if |hs| > 0 {
      assert hs[0] in hs;
      assert forall x :: x in hs[1..] ==> x in hs;
      KeepInAll(hs[1..], keys);
      assert hs == [hs[0]] + hs[1..];
    }
  }

  lemma {:induction false} WithoutDistinct(hs: seq<Handle>, h: Handle)
    requires Distinct(hs)
    ensures Distinct(Without(hs, h))
    decreases |hs|
  {
    if |hs| > 0 {
      assert Distinct(hs[1..]) by {
        forall i, j | 0 <= i < j < |hs[1..]| ensures hs[1..][i] != hs[1..][j] {
          assert hs[1..][i] == hs[i + 1] && hs[1..][j] == hs[j + 1];
        }
      }
      WithoutDistinct(hs[1..], h);
      var rest := Without(hs[1..], h);
      if hs[0] != h {
        assert hs[0] !in hs[1..] by {
          forall i | 0 <= i < |hs[1..]| ensures hs[1..][i] != hs[0] { assert hs[1..][i] == hs[i + 1]; }
        }
        assert hs[0] !in rest;
        var w := [hs[0]] + rest;
        forall i, j | 0 <= i < j < |w| ensures w[i] != w[j] {
          if i == 0 { assert w[j] == rest[j - 1] && w[j] in rest; } else { assert w[i] == rest[i - 1] && w[j] == rest[j - 1]; }
        }
      }
    }
  }

  /**
   * Removes record `h`: it leaves the store and the lists, and every
   * remaining record drops the justifications that mention it.
   */
  function Remove(kb: KB, h: Handle): (r: KB)
    requires h in kb.store
    ensures r.store.Keys == kb.store.Keys - {h}
    ensures forall x :: x in r.store ==> r.store[x].item == kb.store[x].item && r.store[x].asserted == kb.store[x].asserted
    ensures forall x, j :: x in r.store ==>
      (j in r.store[x].supportedBy <==> j in kb.store[x].supportedBy && !Mentions(j, h))
    ensures forall x :: x in r.facts <==> x in kb.facts && x != h
    ensures forall x :: x in r.rules <==> x in kb.rules && x != h
    ensures r.next == kb.next
  {
    KB(map x | x in kb.store && x != h :: kb.store[x].(supportedBy := Strip(kb.store[x].supportedBy, h)),
       Without(kb.facts, h), Without(kb.rules, h), kb.next)
  }

  /** The invariant without `Justified`: what holds while dead records wait for removal. */
  predicate Tidy(kb: KB) {
    Valid(kb) && NoDuplicates(kb) && SupportsStored(kb) && BackRefs(kb, {})
  }

  /** Every dead record is queued in `work`. */
  predicate DeadQueued(kb: KB, work: seq<Handle>) {
    forall x :: x in kb.store && Dead(kb.store[x]) ==> x in work
  }

  /** The handles of `deps` whose records are stored and dead, in order. */
  function NewlyDead(kb: KB, deps: seq<Handle>): (r: seq<Handle>)
    ensures forall x :: x in r <==> x in deps && x in kb.store && Dead(kb.store[x])
    decreases |deps|
  {
    if |deps| == 0 then []
    else (if deps[0] in kb.store && Dead(kb.store[deps[0]]) then [deps[0]] else []) + NewlyDead(kb, deps[1..])
  }

  /**
   * The source strips only the records listed among `h`'s dependents; with
   * the back-references in place no other record mentions `h`, so
   * stripping every record changes only those.
   */
  lemma RemoveTouchesOnlyDependents(kb: KB, h: Handle, x: Handle)
    requires Valid(kb) && BackRefs(kb, {}) && h in kb.store && x in kb.store && x != h
    requires x !in kb.store[h].supportsFacts && x !in kb.store[h].supportsRules
    ensures Remove(kb, h).store[x] == kb.store[x]
  {
    var js := kb.store[x].supportedBy;
    forall j | j in js ensures !Mentions(j, h) {
      assert Registered(kb, x, j);
    }
    StripNone(js, h);
  }

  lemma RemoveValid(kb: KB, h: Handle)
    requires Valid(kb) && h in kb.store
    ensures Valid(Remove(kb, h))
  {
    var r := Remove(kb, h);
    forall i | 0 <= i < |r.facts| ensures IsFact(r, r.facts[i]) {
      assert r.facts[i] in r.facts;
      var k :| 0 <= k < |kb.facts| && kb.facts[k] == r.facts[i];
    }
    forall i | 0 <= i < |r.rules| ensures IsRule(r, r.rules[i]) {
      assert r.rules[i] in r.rules;
      var k :| 0 <= k < |kb.rules| && kb.rules[k] == r.rules[i];
    }
    WithoutDistinct(kb.facts, h);
    WithoutDistinct(kb.rules, h);
  }

  lemma RemoveSupportsStored(kb: KB, h: Handle)
    requires Valid(kb) && SupportsStored(kb) && h in kb.store
    ensures SupportsStored(Remove(kb, h))
  {
    var r := Remove(kb, h);
    forall d, j | d in r.store && j in r.store[d].supportedBy ensures IsFact(r, j.fact) && IsRule(r, j.rule) {
      assert j in kb.store[d].supportedBy;
    }
  }

  lemma RemoveBackRefs(kb: KB, h: Handle)
    requires BackRefs(kb, {}) && h in kb.store
    ensures BackRefs(Remove(kb, h), {})
  {
    var r := Remove(kb, h);
    forall d, j | d in r.store && j in r.store[d].supportedBy ensures Registered(r, d, j) {
      assert j in kb.store[d].supportedBy;
      assert Registered(kb, d, j);
    }
  }

  lemma RemoveTidy(kb: KB, h: Handle)
    requires Tidy(kb) && h in kb.store
    ensures Tidy(Remove(kb, h))
  {
    RemoveValid(kb, h);
    RemoveSupportsStored(kb, h);
    RemoveBackRefs(kb, h);
  }

  /**
   * A record that is dead after removing `h` was dead already, and so
   * queued, or lost its last justification to `h` and is one of `h`'s
   * dependents.
   */
  lemma RemoveQueuesDead(kb: KB, h: Handle, work: seq<Handle>)
    requires BackRefs(kb, {}) && DeadQueued(kb, work)
    requires |work| > 0 && work[0] == h && h in kb.store
    ensures var r := Remove(kb, h);
      DeadQueued(r, work[1..] + NewlyDead(r, kb.store[h].supportsFacts + kb.store[h].supportsRules))
  {
    var r := Remove(kb, h);
    var deps := kb.store[h].supportsFacts + kb.store[h].supportsRules;
    assert work == [h] + work[1..];
    forall x | x in r.store && Dead(r.store[x]) ensures x in work[1..] + NewlyDead(r, deps) {
      if !Dead(kb.store[x]) {
        var js := kb.store[x].supportedBy;
        assert js[0] in js && js[0] !in Strip(js, h);
        assert Registered(kb, x, js[0]);
        assert x in deps;
      }
    }
  }

  /**
   * `r` is what remains of `kb` after removals: fewer records, each
   * otherwise unchanged except that it keeps only the justifications whose
   * fact and rule remain, and the lists keep the remaining handles in order.
   */
  predicate Shrinks(kb: KB, r: KB) {
    && r.store.Keys <= kb.store.Keys && r.next == kb.next
    && r.facts == KeepIn(kb.facts, r.store.Keys) && r.rules == KeepIn(kb.rules, r.store.Keys)
    && (forall x :: x in r.store ==>
          r.store[x] == kb.store[x].(supportedBy := Surviving(kb.store[x].supportedBy, r.store.Keys)))
  }

  /** Every record of `kb` missing from `r` was unasserted and has no justification left in `r`. */
  predicate Settled(kb: KB, r: KB) {
    forall x :: x in kb.store && x !in r.store ==>
      !kb.store[x].asserted && Surviving(kb.store[x].supportedBy, r.store.Keys) == []
  }

  lemma ShrinksRefl(kb: KB)
    requires Valid(kb) && SupportsStored(kb)
    ensures Shrinks(kb, kb) && Settled(kb, kb)
  {
    forall x | x in kb.store ensures Surviving(kb.store[x].supportedBy, kb.store.Keys) == kb.store[x].supportedBy {
      SurvivingAll(kb.store[x].supportedBy, kb.store.Keys);
    }
    forall x | x in kb.facts ensures x in kb.store.Keys {
      var k :| 0 <= k < |kb.facts| && kb.facts[k] == x;
    }
    forall x | x in kb.rules ensures x in kb.store.Keys {
      var k :| 0 <= k < |kb.rules| && kb.rules[k] == x;
    }
    KeepInAll(kb.facts, kb.store.Keys);
    KeepInAll(kb.rules, kb.store.Keys);
  }

  lemma ShrinksRemove(kb: KB, h: Handle)
    requires Valid(kb) && SupportsStored(kb) && h in kb.store && Dead(kb.store[h])
    ensures Shrinks(kb, Remove(kb, h)) && Settled(kb, Remove(kb, h))
  {
    var r := Remove(kb, h);
    ShrinksRefl(kb);
    forall x | x in r.store
      ensures r.store[x] == kb.store[x].(supportedBy := Surviving(kb.store[x].supportedBy, r.store.Keys))
    {
      var js := kb.store[x].supportedBy;
      StripSurviving(js, kb.store.Keys, h);
    }
    WithoutKeepIn(kb.facts, kb.store.Keys, h);
    WithoutKeepIn(kb.rules, kb.store.Keys, h);
  }

  lemma ShrinksTransitive(a: KB, b: KB, c: KB)
    requires Shrinks(a, b) && Shrinks(b, c)
    ensures Shrinks(a, c)
  {
    forall x | x in c.store
      ensures c.store[x] == a.store[x].(supportedBy := Surviving(a.store[x].supportedBy, c.store.Keys))
    {
      SurvivingTwice(a.store[x].supportedBy, b.store.Keys, c.store.Keys);
    }
    KeepInTwice(a.facts, b.store.Keys, c.store.Keys);
    KeepInTwice(a.rules, b.store.Keys, c.store.Keys);
  }

  lemma SettledTransitive(a: KB, b: KB, c: KB)
    requires Shrinks(a, b) && Shrinks(b, c) && Settled(a, b) && Settled(b, c)
    ensures Settled(a, c)
  {
    forall x | x in a.store && x !in c.store
      ensures !a.store[x].asserted && Surviving(a.store[x].supportedBy, c.store.Keys) == []
    {
      SurvivingTwice(a.store[x].supportedBy, b.store.Keys, c.store.Keys);
    }
  }

  /**
   * Removes the queued records that are dead, one at a time, queueing the
   * dependents each removal leaves dead. The result satisfies the full
   * invariant, only shrinks `kb`, and removes nothing that keeps an
   * assertion or a surviving justification.
   */
  function Cascade(kb: KB, work: seq<Handle>): (r: KB)
    requires Tidy(kb) && DeadQueued(kb, work)
    ensures Inv(r, {}) && Shrinks(kb, r) && Settled(kb, r)
    decreases kb.store.Keys, |work|
  {
    if |work| == 0 then
      ShrinksRefl(kb);
      kb
    else if work[0] !in kb.store || !Dead(kb.store[work[0]]) then
      assert work == [work[0]] + work[1..];
      Cascade(kb, work[1..])
    else
      var h := work[0];
      var kb' := Remove(kb, h);
      RemoveTidy(kb, h);
      RemoveQueuesDead(kb, h, work);
      ShrinksRemove(kb, h);
      var r := Cascade(kb', work[1..] + NewlyDead(kb', kb.store[h].supportsFacts + kb.store[h].supportsRules));
      ShrinksTransitive(kb, kb', r);
      SettledTransitive(kb, kb', r);
      r
  }

  /** Clears the asserted flag of record `h`. */
  function Unassert(kb: KB, h: Handle): (r: KB)
    requires h in kb.store
    ensures r.store.Keys == kb.store.Keys && r.facts == kb.facts && r.rules == kb.rules && r.next == kb.next
    ensures !r.store[h].asserted && r.store[h].item == kb.store[h].item
    ensures r.store[h].supportedBy == kb.store[h].supportedBy
    ensures forall x :: x in kb.store && x != h ==> r.store[x] == kb.store[x]
  {
    kb.(store := kb.store[h := kb.store[h].(asserted := false)])
  }

  lemma UnassertTidy(kb: KB, h: Handle)
    requires Tidy(kb) && h in kb.store
    ensures Tidy(Unassert(kb, h))
  {
    var r := Unassert(kb, h);
    assert forall x :: x in kb.store ==> r.store[x].item == kb.store[x].item;
    assert forall x :: IsFact(kb, x) <==> IsFact(r, x);
    assert forall x :: IsRule(kb, x) <==> IsRule(r, x);
  }

  /**
   * kb_retract: nothing for a rule or an absent fact; a fact that still
   * has a justification only loses its assertion; otherwise the fact is
   * unasserted and removed, and the removal cascades.
   */
  function Retract(kb: KB, item: Item): (r: KB)
    requires Inv(kb, {})
    ensures Inv(r, {})
    ensures item.RuleItem? || Locate(kb, item).None? ==> r == kb
    ensures item.FactItem? && Locate(kb, item).Some? && |kb.store[Locate(kb, item).value].supportedBy| > 0 ==>
      r == Unassert(kb, Locate(kb, item).value)
    ensures item.FactItem? && Locate(kb, item).Some? && |kb.store[Locate(kb, item).value].supportedBy| == 0 ==>
      var kb' := Unassert(kb, Locate(kb, item).value);
      Shrinks(kb', r) && Settled(kb', r) && Locate(kb, item).value !in r.store
  {
    if item.RuleItem? then kb
    else match GetFact(kb, item.statement)
      case None => kb
      case Some(h) =>
        var kb' := Unassert(kb, h);
        UnassertTidy(kb, h);
        if |kb.store[h].supportedBy| > 0 then
          assert forall x :: x in kb.store ==> kb'.store[x].supportedBy == kb.store[x].supportedBy;
          kb'
        else
          var r := Cascade(kb', [h]);
          r
  }
}
