/** Option type shared by the lookups of the model. */
module Wrappers {
  datatype Option<T> = None | Some(value: T)
}

/**
 * Flat statements, substitutions and unification.
 *
 * The knowledge base imports `match` and `instantiate` from a utility
 * module that is not part of this model. This module supplies a minimal
 * flat unifier with the documented behaviour: equal predicates and
 * arities, position-wise comparison of terms, and a variable that is
 * bound once keeps its binding.
 */
module Logic {
  import opened Wrappers

  /** A term is a constant symbol or a variable. */
  datatype Term = Const(name: string) | Var(name: string)

  /** A predicate symbol applied to an ordered sequence of terms. */
  datatype Statement = Statement(pred: string, terms: seq<Term>)

  /** A substitution from variable names to terms. */
  type Bindings = map<string, Term>

  predicate GroundTerms(ts: seq<Term>) {
    forall i :: 0 <= i < |ts| ==> ts[i].Const?
  }

  /** A statement without variables. */
  predicate Ground(s: Statement) {
    GroundTerms(s.terms)
  }

  /** `b` agrees with `c` on every variable `b` binds. */
  predicate Extends(c: Bindings, b: Bindings) {
    forall v :: v in b ==> v in c && c[v] == b[v]
  }

  function Substitute(t: Term, b: Bindings): Term {
    if t.Var? && t.name in b then b[t.name] else t
  }

  function SubstituteAll(ts: seq<Term>, b: Bindings): seq<Term> {
    seq(|ts|, i requires 0 <= i < |ts| => Substitute(ts[i], b))
  }

  /**
   * Replaces every bound variable of `s` by its binding; unbound
   * variables and constants are left as they are.
   */
  function Instantiate(s: Statement, b: Bindings): (r: Statement)
    ensures r.pred == s.pred && |r.terms| == |s.terms|
    ensures forall i :: 0 <= i < |s.terms| && s.terms[i].Const? ==> r.terms[i] == s.terms[i]
    ensures forall i :: 0 <= i < |s.terms| && s.terms[i].Var? && s.terms[i].name !in b ==> r.terms[i] == s.terms[i]
    ensures forall i :: 0 <= i < |s.terms| && s.terms[i].Var? && s.terms[i].name in b ==> r.terms[i] == b[s.terms[i].name]
  {
    Statement(s.pred, SubstituteAll(s.terms, b))
  }

  /** Binds `v` to `t` unless `v` is already bound to something else. */
  function Bind(v: string, t: Term, b: Bindings): (r: Option<Bindings>)
    ensures r.Some? ==> Extends(r.value, b) && v in r.value && r.value[v] == t
    ensures r.None? ==> v in b && b[v] != t
  {
    if v in b then (if b[v] == t then Some(b) else None) else Some(b[v := t])
  }

  /**
   * Position-wise unification of two term lists: equal terms are skipped, a
   * variable on the left binds to the right term, otherwise a variable on
   * the right binds to the left term, and two distinct constants fail.
   */
  function MatchTerms(xs: seq<Term>, ys: seq<Term>, b: Bindings): (r: Option<Bindings>)
    requires |xs| == |ys|
    ensures r.Some? ==> Extends(r.value, b)
    decreases |xs|
  {
    if |xs| == 0 then Some(b)
    else if xs[0] == ys[0] then MatchTerms(xs[1..], ys[1..], b)
    else if xs[0].Var? then
      match Bind(xs[0].name, ys[0], b)
      case None => None
      case Some(b') => MatchTerms(xs[1..], ys[1..], b')
    else if ys[0].Var? then
      match Bind(ys[0].name, xs[0], b)
      case None => None
      case Some(b') => MatchTerms(xs[1..], ys[1..], b')
    else None
  }

  /** Unifies two statements; fails on a different predicate or arity. */
  function Match(p: Statement, t: Statement): (r: Option<Bindings>)
    ensures r.Some? ==> p.pred == t.pred && |p.terms| == |t.terms|
  {
    if p.pred != t.pred || |p.terms| != |t.terms| then None
    else MatchTerms(p.terms, t.terms, map[])
  }

  /** With one side ground, the order of the two term lists does not matter. */
  lemma {:induction false} MatchTermsSymmetric(xs: seq<Term>, ys: seq<Term>, b: Bindings)
    requires |xs| == |ys| && GroundTerms(ys)
    ensures MatchTerms(xs, ys, b) == MatchTerms(ys, xs, b)
    decreases |xs|
  {
    if |xs| > 0 {
      assert GroundTerms(ys[1..]) by {
        forall i | 0 <= i < |ys[1..]| ensures ys[1..][i].Const? { assert ys[1..][i] == ys[i + 1]; }
      }
      if xs[0] == ys[0] {
        MatchTermsSymmetric(xs[1..], ys[1..], b);
      } else if xs[0].Var? {
        match Bind(xs[0].name, ys[0], b)
        case None =>
        case Some(b') => MatchTermsSymmetric(xs[1..], ys[1..], b');
      }
    }
  }

  lemma MatchSymmetric(p: Statement, t: Statement)
    requires Ground(t)
    ensures Match(p, t) == Match(t, p)
  {
    if p.pred == t.pred && |p.terms| == |t.terms| {
      MatchTermsSymmetric(p.terms, t.terms, map[]);
    }
  }

  /** Matching a list against a ground list binds the list onto it. */
  lemma {:induction false} MatchTermsSound(xs: seq<Term>, ys: seq<Term>, b: Bindings, c: Bindings)
    requires |xs| == |ys| && GroundTerms(ys)
    requires MatchTerms(xs, ys, b) == Some(c)
    ensures SubstituteAll(xs, c) == ys
    decreases |xs|
  {
    if |xs| > 0 {
      assert GroundTerms(ys[1..]) by {
        forall i | 0 <= i < |ys[1..]| ensures ys[1..][i].Const? { assert ys[1..][i] == ys[i + 1]; }
      }
      var rest := xs[1..];
      if xs[0] == ys[0] {
        MatchTermsSound(rest, ys[1..], b, c);
        assert Substitute(xs[0], c) == ys[0];
      } else {
        assert xs[0].Var?;
        var b' := Bind(xs[0].name, ys[0], b).value;
        MatchTermsSound(rest, ys[1..], b', c);
        assert Substitute(xs[0], c) == ys[0];
      }
      assert SubstituteAll(xs, c) == [Substitute(xs[0], c)] + SubstituteAll(rest, c);
    }
  }

  /**
   * Soundness of the unifier against a ground target: the bindings it
   * returns turn the pattern into the target.
   */
  lemma MatchSound(p: Statement, t: Statement)
    requires Ground(t) && Match(p, t).Some?
    ensures Instantiate(p, Match(p, t).value) == t
  {
    MatchTermsSound(p.terms, t.terms, map[], Match(p, t).value);
  }

  /** Mirror of `MatchSound`: a ground pattern is reached from the target. */
  lemma MatchSoundMirror(p: Statement, t: Statement)
    requires Ground(p) && Match(p, t).Some?
    ensures Instantiate(t, Match(p, t).value) == p
  {
    MatchSymmetric(t, p);
    MatchSound(t, p);
  }

  lemma {:induction false} MatchTermsComplete(xs: seq<Term>, ys: seq<Term>, b: Bindings, s: Bindings)
    requires |xs| == |ys| && GroundTerms(ys)
    requires SubstituteAll(xs, s) == ys && Extends(s, b)
    ensures MatchTerms(xs, ys, b).Some?
    decreases |xs|
  {
    if |xs| > 0 {
      assert GroundTerms(ys[1..]) by {
        forall i | 0 <= i < |ys[1..]| ensures ys[1..][i].Const? { assert ys[1..][i] == ys[i + 1]; }
      }
      assert SubstituteAll(xs[1..], s) == ys[1..];
      assert Substitute(xs[0], s) == ys[0];
      if xs[0] == ys[0] {
        MatchTermsComplete(xs[1..], ys[1..], b, s);
      } else {
        assert xs[0].Var? && xs[0].name in s;
        var b' := Bind(xs[0].name, ys[0], b).value;
        MatchTermsComplete(xs[1..], ys[1..], b', s);
      }
    }
  }

  /**
   * Completeness against a ground target: if some substitution turns the
   * pattern into the target, the unifier succeeds.
   */
  lemma MatchComplete(p: Statement, t: Statement, s: Bindings)
    requires Ground(t) && Instantiate(p, s) == t
    ensures Match(p, t).Some?
  {
    MatchTermsComplete(p.terms, t.terms, map[], s);
  }

  lemma MatchCompleteMirror(p: Statement, t: Statement, s: Bindings)
    requires Ground(p) && Instantiate(t, s) == p
    ensures Match(p, t).Some?
  {
    MatchComplete(t, p, s);
    MatchSymmetric(t, p);
  }

  /** A statement unifies with itself without binding anything. */
  lemma {:induction false} MatchSelf(s: Statement)
    ensures Match(s, s) == Some(map[])
  {
    MatchTermsSelf(s.terms);
  }

  lemma {:induction false} MatchTermsSelf(ts: seq<Term>)
    ensures MatchTerms(ts, ts, map[]) == Some(map[])
    decreases |ts|
  {
    if |ts| > 0 {
      MatchTermsSelf(ts[1..]);
    }
  }
}
