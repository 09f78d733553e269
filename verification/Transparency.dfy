/**
 What it means for a transcript to be transparent: the inner future went through exactly the
 states, and gave exactly the answers, that it would have had when polled by itself.
 */
module Transparency {
  import opened Polling

  /** The inner future polled by itself. */
  function BareRun<S, A, R>(f: (S, A) -> (S, Poll<R>), s: S, ambients: seq<A>): (S, seq<Poll<R>>) {
    if ambients == [] then (s, [])
    else
      var (s1, outs) := BareRun(f, s, ambients[..|ambients| - 1]);
      var (s2, r) := f(s1, ambients[|ambients| - 1]);
      (s2, outs + [r])
  }

  /** What the inner future saw, and what it answered, in a transcript. */
  function Ambients<A, R>(tr: seq<Obs<A, R>>): seq<A> {
    if tr == [] then []
    else Ambients(tr[..|tr| - 1]) + match tr[|tr| - 1].act case Polled(a, _, _, _, _) => [a] case _ => []
  }

  function Outcomes<A, R>(tr: seq<Obs<A, R>>): seq<Poll<R>> {
    if tr == [] then []
    else Outcomes(tr[..|tr| - 1]) + match tr[|tr| - 1].act case Polled(_, r, _, _, _) => [r] case _ => []
  }

  lemma {:induction false} SeenSnoc<A, R>(tr: seq<Obs<A, R>>, o: Obs<A, R>)
    ensures o.act.Polled? ==> Ambients(tr + [o]) == Ambients(tr) + [o.act.ambient] && Outcomes(tr + [o]) == Outcomes(tr) + [o.act.outcome]
    ensures !o.act.Polled? ==> Ambients(tr + [o]) == Ambients(tr) && Outcomes(tr + [o]) == Outcomes(tr)
  {
    assert (tr + [o])[..|tr|] == tr;
  }

  lemma {:induction false} BareSnoc<S, A, R>(f: (S, A) -> (S, Poll<R>), s: S, ambients: seq<A>, a: A)
    ensures var (s1, outs) := BareRun(f, s, ambients);
            BareRun(f, s, ambients + [a]) == (f(s1, a).0, outs + [f(s1, a).1])
  {
    assert (ambients + [a])[..|ambients|] == ambients;
  }

  /** The inner state is the bare one for what the inner future saw, its answers are the bare
      answers, it pended until the wrapper finished, and the wrapper finished exactly when, and
      with what, the bare future did. */
  ghost predicate Faithful<S, A, R>(f: (S, A) -> (S, Poll<R>), s: S, inner: S, tr: seq<Obs<A, R>>) {
    var (bare, answers) := BareRun(f, s, Ambients(tr));
    && inner == bare
    && Outcomes(tr) == answers
    && (Finished(tr) <==> answers != [] && answers[|answers| - 1].Ready?)
    && (Finished(tr) ==> tr[|tr| - 1].act.outcome == answers[|answers| - 1])
    && (forall i :: 0 <= i < |answers| - 1 ==> answers[i].Pending?)
  }

  lemma {:induction false} FaithfulSnoc<S, A, R>(f: (S, A) -> (S, Poll<R>), s: S, inner: S, tr: seq<Obs<A, R>>, o: Obs<A, R>)
    requires Faithful(f, s, inner, tr) && !Finished(tr)
    requires o.act.Polled? ==> o.act.outcome == f(inner, o.act.ambient).1
    ensures Faithful(f, s, if o.act.Polled? then f(inner, o.act.ambient).0 else inner, tr + [o])
  {
    SeenSnoc(tr, o);
    if o.act.Polled? {
      BareSnoc(f, s, Ambients(tr), o.act.ambient);
    }
  }

  lemma {:induction false} FaithfulNew<S, A, R>(f: (S, A) -> (S, Poll<R>), s: S)
    ensures Faithful(f, s, s, [])
  {
  }
}
