/**
 * Queries (kb_ask) and the lookup half of kb_explain.
 *
 * A query is a fact pattern; every stored fact is unified with it in
 * storage order, and each success contributes its bindings paired with
 * that fact.
 */
module Query {
  import opened Wrappers
  import opened Logic
  import opened Records

  /** One answer: the bindings of a successful unification and the fact that produced them. */
  datatype Answer = Answer(bindings: Bindings, fact: Handle)

  /** Every handle of `hs` holds a stored fact. */
  predicate FactList(kb: KB, hs: seq<Handle>) {
    forall i :: 0 <= i < |hs| ==> hs[i] in kb.store && kb.store[hs[i]].item.FactItem?
  }

  lemma ValidFactList(kb: KB)
    requires Valid(kb)
    ensures FactList(kb, kb.facts)
  {
    forall i | 0 <= i < |kb.facts| ensures kb.facts[i] in kb.store && kb.store[kb.facts[i]].item.FactItem? {
      assert IsFact(kb, kb.facts[i]);
    }
  }

  /** The answers the facts of `hs` give to pattern `q`, in the order of `hs`. */
  function AnswersFrom(kb: KB, q: Statement, hs: seq<Handle>): (r: seq<Answer>)
    requires FactList(kb, hs)
    ensures |r| <= |hs|
    ensures forall k :: 0 <= k < |r| ==>
      r[k].fact in hs && Match(q, kb.store[r[k].fact].item.statement) == Some(r[k].bindings)
    ensures forall i :: 0 <= i < |hs| && Match(q, kb.store[hs[i]].item.statement).Some? ==>
      exists k :: 0 <= k < |r| && r[k].fact == hs[i]
    ensures Distinct(hs) ==> forall k1, k2 :: 0 <= k1 < k2 < |r| ==> r[k1].fact != r[k2].fact
    decreases |hs|
  {
    if |hs| == 0 then []
    else
      var rest := AnswersFrom(kb, q, hs[..|hs| - 1]);
      var h := hs[|hs| - 1];
      assert forall i :: 0 <= i < |hs| - 1 ==> hs[..|hs| - 1][i] == hs[i];
      match Match(q, kb.store[h].item.statement)
      case None => rest
      case Some(b) =>
        var r := rest + [Answer(b, h)];
        forall i | 0 <= i < |hs| - 1 && Match(q, kb.store[hs[i]].item.statement).Some?
          ensures exists k :: 0 <= k < |r| && r[k].fact == hs[i]
        {
          var k :| 0 <= k < |rest| && rest[k].fact == hs[..|hs| - 1][i];
          assert r[k] == rest[k];
        }
        assert r[|rest|].fact == h;
        assert Distinct(hs) ==> forall k :: 0 <= k < |rest| ==> rest[k].fact != h by {
          if Distinct(hs) {
            assert Distinct(hs[..|hs| - 1]);
            forall k | 0 <= k < |rest| ensures rest[k].fact != h {
              var i :| 0 <= i < |hs| - 1 && hs[..|hs| - 1][i] == rest[k].fact;
            }
          }
        }
        r
  }

  /** Answers keep storage order: an earlier answer comes from an earlier fact. */
  lemma {:induction false} AnswersInOrder(kb: KB, q: Statement, hs: seq<Handle>, k1: nat, k2: nat)
    requires FactList(kb, hs)
    requires Distinct(hs)
    requires k1 < k2 < |AnswersFrom(kb, q, hs)|
    ensures exists i1, i2 :: 0 <= i1 < i2 < |hs| && hs[i1] == AnswersFrom(kb, q, hs)[k1].fact
                                                && hs[i2] == AnswersFrom(kb, q, hs)[k2].fact
    decreases |hs|
  {
    var init := hs[..|hs| - 1];
    var r := AnswersFrom(kb, q, hs);
    var rest := AnswersFrom(kb, q, init);
    assert forall i :: 0 <= i < |init| ==> init[i] == hs[i];
    assert Distinct(init);
    if k2 < |rest| {
      assert r[k1] == rest[k1] && r[k2] == rest[k2];
      AnswersInOrder(kb, q, init, k1, k2);
      var i1, i2 :| 0 <= i1 < i2 < |init| && init[i1] == rest[k1].fact && init[i2] == rest[k2].fact;
      assert hs[i1] == r[k1].fact && hs[i2] == r[k2].fact;
    } else {
      assert r[k2].fact == hs[|hs| - 1];
      assert r[k1] == rest[k1];
      assert rest[k1].fact in init;
      var i1 :| 0 <= i1 < |init| && init[i1] == rest[k1].fact;
      assert hs[i1] == r[k1].fact;
    }
  }

  /**
   * kb_ask: a rule given as a query has no answers; otherwise the answers
   * of every stored fact, in storage order.
   */
  method Ask(kb: KB, query: Item) returns (r: seq<Answer>)
    requires Valid(kb)
    ensures query.RuleItem? ==> r == []
    ensures query.FactItem? ==> FactList(kb, kb.facts) && r == AnswersFrom(kb, query.statement, kb.facts)
    ensures query.FactItem? ==> forall k :: 0 <= k < |r| ==>
      r[k].fact in kb.facts && Match(query.statement, kb.store[r[k].fact].item.statement) == Some(r[k].bindings)
    ensures query.FactItem? ==> forall i :: 0 <= i < |kb.facts| && Match(query.statement, kb.store[kb.facts[i]].item.statement).Some? ==>
      exists k :: 0 <= k < |r| && r[k].fact == kb.facts[i]
    ensures forall k1, k2 :: 0 <= k1 < k2 < |r| ==> r[k1].fact != r[k2].fact
  {
    if query.RuleItem? {
      return [];
    }
    ValidFactList(kb);
    r := Scan(kb, query.statement, kb.facts);
  }

  /** Taking one more fact of `hs` adds at most its own answer at the end. */
  lemma AnswersFromStep(kb: KB, q: Statement, hs: seq<Handle>, i: nat)
    requires FactList(kb, hs) && i < |hs|
    ensures var b := Match(q, kb.store[hs[i]].item.statement);
      AnswersFrom(kb, q, hs[..i + 1])
        == AnswersFrom(kb, q, hs[..i]) + (if b.Some? then [Answer(b.value, hs[i])] else [])
  {
    assert hs[..i + 1][..i] == hs[..i];
  }

  /** The loop of kb_ask over the facts of `hs`, in order. */
  method Scan(kb: KB, q: Statement, hs: seq<Handle>) returns (r: seq<Answer>)
    requires FactList(kb, hs)
    ensures r == AnswersFrom(kb, q, hs)
  {
    r := [];
    var i := 0;
    while i < |hs|
      invariant 0 <= i <= |hs|
      invariant r == AnswersFrom(kb, q, hs[..i])
    {
      AnswersFromStep(kb, q, hs, i);
      var b := Match(q, kb.store[hs[i]].item.statement);
      if b.Some? {
        r := r + [Answer(b.value, hs[i])];
      }
      i := i + 1;
    }
    assert hs[..i] == hs;
  }

  /**
   * Soundness against ground facts: an answer's bindings turn the query
   * into the fact it came from.
   */
  lemma AnswerSound(kb: KB, q: Statement, hs: seq<Handle>, k: nat)
    requires FactList(kb, hs) && forall i :: 0 <= i < |hs| ==> Ground(kb.store[hs[i]].item.statement)
    requires k < |AnswersFrom(kb, q, hs)|
    ensures var a := AnswersFrom(kb, q, hs)[k];
      Instantiate(q, a.bindings) == kb.store[a.fact].item.statement
  {
    var a := AnswersFrom(kb, q, hs)[k];
    var i :| 0 <= i < |hs| && hs[i] == a.fact;
    MatchSound(q, kb.store[a.fact].item.statement);
  }

  /**
   * Completeness against ground facts: a fact that some substitution makes
   * the query equal to is among the answers.
   */
  lemma AnswerComplete(kb: KB, q: Statement, hs: seq<Handle>, i: nat, s: Bindings)
    requires FactList(kb, hs)
    requires i < |hs| && Ground(kb.store[hs[i]].item.statement)
    requires Instantiate(q, s) == kb.store[hs[i]].item.statement
    ensures exists k :: 0 <= k < |AnswersFrom(kb, q, hs)| && AnswersFrom(kb, q, hs)[k].fact == hs[i]
  {
    MatchComplete(q, kb.store[hs[i]].item.statement, s);
    var r := AnswersFrom(kb, q, hs);
    assert Match(q, kb.store[hs[i]].item.statement).Some?;
  }

  /**
   * kb_explain up to rendering: the not-found message for an item that is
   * not stored. For a stored item the source hands the renderer a list
   * index instead of the record, which the renderer recognises as neither
   * a fact nor a rule, so the result is None.
   */
  function Explain(kb: KB, item: Item): (r: Option<string>)
    requires Valid(kb)
    ensures r.None? <==> exists h :: h in kb.store && kb.store[h].item == item
    ensures r.Some? && item.FactItem? ==> r.value == "Fact is not in the KB"
    ensures r.Some? && item.RuleItem? ==> r.value == "Rule is not in the KB"
  {
    match item
    case RuleItem(lhs, rhs) => if GetRule(kb, lhs, rhs).Some? then None else Some("Rule is not in the KB")
    case FactItem(s) => if GetFact(kb, s).Some? then None else Some("Fact is not in the KB")
  }
}
