/**
 * Facts, rules and the knowledge base as an arena of records addressed by
 * handles. Every cross-reference between records (justifications and the
 * back-references to what a record helped derive) is a handle, and handles
 * are never reused, so a removed record can only leave stale handles behind,
 * never wrong ones.
 */
module Records {
  import opened Wrappers
  import opened Logic

  type Handle = nat

  /** The content of a record: a fact's statement, or a rule's conjunction and conclusion. */
  datatype Item = FactItem(statement: Statement) | RuleItem(lhs: seq<Statement>, rhs: Statement)

  /** One forward-chaining step: the fact and the rule that produced a record. */
  datatype Justification = Justification(fact: Handle, rule: Handle)

  /**
   * A stored fact or rule with its provenance: `asserted` when a caller
   * stated it directly, `supportedBy` for each derivation of it, and the
   * records it helped derive.
   */
  datatype Record = Record(
    item: Item,
    asserted: bool,
    supportedBy: seq<Justification>,
    supportsFacts: seq<Handle>,
    supportsRules: seq<Handle>)

  /** The arena, the facts and the rules in storage order, and the next fresh handle. */
  datatype KB = KB(store: map<Handle, Record>, facts: seq<Handle>, rules: seq<Handle>, next: Handle)

  /** A pair (dependent, justification) whose back-references are not yet registered. */
  type Pending = (Handle, Justification)

  function EmptyKB(): KB {
    KB(map[], [], [], 0)
  }

  /** A rule must have a first conjunct for forward chaining to look at. */
  predicate WellFormedItem(item: Item) {
    item.RuleItem? ==> |item.lhs| > 0
  }

  predicate IsFact(kb: KB, h: Handle) {
    h in kb.store && kb.store[h].item.FactItem?
  }

  predicate IsRule(kb: KB, h: Handle) {
    h in kb.store && kb.store[h].item.RuleItem?
  }

  predicate Distinct(hs: seq<Handle>) {
    forall i, j :: 0 <= i < j < |hs| ==> hs[i] != hs[j]
  }

  /** Neither asserted nor supported: such a record must not stay stored. */
  predicate Dead(rec: Record) {
    !rec.asserted && |rec.supportedBy| == 0
  }

  /** The back-reference list of `rec` that holds dependents of the kind of `item`. */
  function DependentsOf(rec: Record, item: Item): seq<Handle> {
    if item.FactItem? then rec.supportsFacts else rec.supportsRules
  }

  /** Shape of the arena: the two lists enumerate exactly the stored facts and rules, once each. */
  predicate Valid(kb: KB) {
    && (forall h :: h in kb.store ==> h < kb.next && WellFormedItem(kb.store[h].item))
    && (forall h :: h in kb.store ==> (h in kb.facts <==> kb.store[h].item.FactItem?))
    && (forall h :: h in kb.store ==> (h in kb.rules <==> kb.store[h].item.RuleItem?))
    && (forall i :: 0 <= i < |kb.facts| ==> IsFact(kb, kb.facts[i]))
    && (forall i :: 0 <= i < |kb.rules| ==> IsRule(kb, kb.rules[i]))
    && Distinct(kb.facts) && Distinct(kb.rules)
  }

  /** At most one stored record per structure. */
  predicate NoDuplicates(kb: KB) {
    forall h1, h2 :: h1 in kb.store && h2 in kb.store && h1 != h2 ==> kb.store[h1].item != kb.store[h2].item
  }

  /** Every stored record is asserted or supported. */
  predicate Justified(kb: KB) {
    forall h :: h in kb.store ==> !Dead(kb.store[h])
  }

  /** Every justification refers to a stored fact and a stored rule. */
  predicate SupportsStored(kb: KB) {
    forall d, j :: d in kb.store && j in kb.store[d].supportedBy ==> IsFact(kb, j.fact) && IsRule(kb, j.rule)
  }

  /** The back-references of `d`'s justification `j` are in place. */
  predicate Registered(kb: KB, d: Handle, j: Justification)
    requires d in kb.store
  {
    && j.fact in kb.store && j.rule in kb.store
    && d in DependentsOf(kb.store[j.fact], kb.store[d].item)
    && d in DependentsOf(kb.store[j.rule], kb.store[d].item)
  }

  /** Every justification outside `pending` is mirrored by back-references. */
  predicate BackRefs(kb: KB, pending: set<Pending>) {
    forall d, j :: d in kb.store && j in kb.store[d].supportedBy && (d, j) !in pending ==> Registered(kb, d, j)
  }

  /** The truth-maintenance invariant, up to the back-references still pending. */
  predicate Inv(kb: KB, pending: set<Pending>) {
    Valid(kb) && NoDuplicates(kb) && Justified(kb) && SupportsStored(kb) && BackRefs(kb, pending)
  }

  function Pend(d: Handle, support: seq<Justification>): set<Pending> {
    set j | j in support :: (d, j)
  }

  /** Only growth: nothing removed, flags kept, every list extended at its end. */
  predicate RecordGrows(x: Record, y: Record) {
    && x.item == y.item && x.asserted == y.asserted
    && x.supportedBy <= y.supportedBy
    && x.supportsFacts <= y.supportsFacts
    && x.supportsRules <= y.supportsRules
  }

  predicate Grows(a: KB, b: KB) {
    && a.next <= b.next
    && a.facts <= b.facts && a.rules <= b.rules
    && (forall h :: h in a.store ==> h in b.store && RecordGrows(a.store[h], b.store[h]))
  }

  lemma GrowsTransitive(a: KB, b: KB, c: KB)
    requires Grows(a, b) && Grows(b, c)
    ensures Grows(a, c)
  {
    forall h | h in a.store ensures h in c.store && RecordGrows(a.store[h], c.store[h]) {
      var x, y, z := a.store[h], b.store[h], c.store[h];
      assert x.supportedBy <= z.supportedBy by { PrefixTransitive(x.supportedBy, y.supportedBy, z.supportedBy); }
      assert x.supportsFacts <= z.supportsFacts by { PrefixTransitive(x.supportsFacts, y.supportsFacts, z.supportsFacts); }
      assert x.supportsRules <= z.supportsRules by { PrefixTransitive(x.supportsRules, y.supportsRules, z.supportsRules); }
    }
    PrefixTransitive(a.facts, b.facts, c.facts);
    PrefixTransitive(a.rules, b.rules, c.rules);
  }

  lemma PrefixTransitive<T>(x: seq<T>, y: seq<T>, z: seq<T>)
    requires x <= y && y <= z
    ensures x <= z
  {
    assert x == y[..|x|];
    assert y == z[..|y|];
    assert x == z[..|x|];
  }

  lemma PrefixMembers<T>(x: seq<T>, y: seq<T>)
    requires x <= y
    ensures forall e :: e in x ==> e in y
  {
    forall e | e in x ensures e in y {
      var i :| 0 <= i < |x| && x[i] == e;
      assert y[i] == e;
    }
  }

  /** The first handle of `hs` whose record holds `item`. */
  function Search(kb: KB, hs: seq<Handle>, item: Item): (r: Option<Handle>)
    requires forall i :: 0 <= i < |hs| ==> hs[i] in kb.store
    ensures r.Some? ==> r.value in hs && kb.store[r.value].item == item
    ensures r.None? ==> forall i :: 0 <= i < |hs| ==> kb.store[hs[i]].item != item
    ensures r.Some? ==> exists k :: 0 <= k < |hs| && hs[k] == r.value
                                 && forall i :: 0 <= i < k ==> kb.store[hs[i]].item != item
    decreases |hs|
  {
    if |hs| == 0 then None
    else if kb.store[hs[0]].item == item then Some(hs[0])
    else
      var r := Search(kb, hs[1..], item);
      if r.Some? then
        var k :| 0 <= k < |hs[1..]| && hs[1..][k] == r.value
                 && forall i :: 0 <= i < k ==> kb.store[hs[1..][i]].item != item;
        assert hs[k + 1] == r.value;
        assert forall i :: 0 <= i < k + 1 ==> kb.store[hs[i]].item != item by {
          forall i | 0 <= i < k + 1 ensures kb.store[hs[i]].item != item {
            if i > 0 { assert hs[i] == hs[1..][i - 1]; }
          }
        }
        r
      else r
  }

  /** The stored fact whose statement equals `s`, if any. */
  function GetFact(kb: KB, s: Statement): (r: Option<Handle>)
    requires Valid(kb)
    ensures r.Some? <==> exists h :: h in kb.store && kb.store[h].item == FactItem(s)
    ensures r.Some? ==> r.value in kb.facts && kb.store[r.value].item == FactItem(s)
  {
    var r := Search(kb, kb.facts, FactItem(s));
    if r.None? then
      forall h | h in kb.store && kb.store[h].item.FactItem?
        ensures kb.store[h].item != FactItem(s)
      {
        var i :| 0 <= i < |kb.facts| && kb.facts[i] == h;
      }
      r
    else r
  }

  /** The stored rule with conjunction `lhs` and conclusion `rhs`, if any. */
  function GetRule(kb: KB, lhs: seq<Statement>, rhs: Statement): (r: Option<Handle>)
    requires Valid(kb)
    ensures r.Some? <==> exists h :: h in kb.store && kb.store[h].item == RuleItem(lhs, rhs)
    ensures r.Some? ==> r.value in kb.rules && kb.store[r.value].item == RuleItem(lhs, rhs)
  {
    var r := Search(kb, kb.rules, RuleItem(lhs, rhs));
    if r.None? then
      forall h | h in kb.store && kb.store[h].item.RuleItem?
        ensures kb.store[h].item != RuleItem(lhs, rhs)
      {
        var i :| 0 <= i < |kb.rules| && kb.rules[i] == h;
      }
      r
    else r
  }

  /** The stored record structurally equal to `item`, looked up in the list of its kind. */
  function Locate(kb: KB, item: Item): (r: Option<Handle>)
    requires Valid(kb)
    ensures r.Some? <==> exists h :: h in kb.store && kb.store[h].item == item
    ensures r.Some? ==> r.value in kb.store && kb.store[r.value].item == item
  {
    match item
    case FactItem(s) => GetFact(kb, s)
    case RuleItem(lhs, rhs) => GetRule(kb, lhs, rhs)
  }

  /** The handle `item` has after insertion: its stored record, or the next fresh handle. */
  function HandleFor(kb: KB, item: Item): Handle
    requires Valid(kb)
  {
    match Locate(kb, item)
    case Some(h) => h
    case None => kb.next
  }
}
