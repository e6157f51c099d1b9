/** Deterministic automata over event traces. Every whole-run claim about the
    emitted events is stated as "this automaton, run over the trace, ends in ...". */
module Traces {
  import opened Telemetry

  function Fold<Q>(delta: (Q, Event) -> Q, q: Q, trace: seq<Event>): Q {
    if trace == [] then q else Fold(delta, delta(q, trace[0]), trace[1..])
  }

  lemma FoldOne<Q>(delta: (Q, Event) -> Q, q: Q, e: Event)
    ensures Fold(delta, q, [e]) == delta(q, e)
  {
  }

  lemma {:induction false} FoldConcat<Q>(delta: (Q, Event) -> Q, q: Q, a: seq<Event>, b: seq<Event>)
    ensures Fold(delta, q, a + b) == Fold(delta, Fold(delta, q, a), b)
    decreases |a|
  {
    if a == [] {
      assert a + b == b;
    } else {
      assert (a + b)[0] == a[0] && (a + b)[1..] == a[1..] + b;
      FoldConcat(delta, delta(q, a[0]), a[1..], b);
    }
  }

  /** Events on which the automaton stays put can be dropped. */
  lemma {:induction false} FoldSkip<Q>(delta: (Q, Event) -> Q, q: Q, a: seq<Event>)
    requires forall e :: e in a ==> delta(q, e) == q
    ensures Fold(delta, q, a) == q
    decreases |a|
  {
    if a != [] {
      assert a[0] in a;
      assert forall e :: e in a[1..] ==> e in a;
      FoldSkip(delta, q, a[1..]);
    }
  }
}
