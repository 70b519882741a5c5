/** Some run of a step function: what a method does when it is a run of a machine, without naming the actions. */
module Paths {

  /** Each state of the path follows from the one before it by one step. */
  ghost predicate Linked<S(!new), A(!new)>(step: (S, A) -> S, path: seq<S>, i: nat)
    requires i + 1 < |path|
  {
    exists a {:trigger step(path[i], a)} :: path[i + 1] == step(path[i], a)
  }

  ghost predicate IsPath<S(!new), A(!new)>(step: (S, A) -> S, path: seq<S>, s: S, q: S) {
    && |path| > 0 && path[0] == s && path[|path| - 1] == q
    && forall i: nat {:trigger Linked(step, path, i)} :: i + 1 < |path| ==> Linked(step, path, i)
  }

  /** Some sequence of steps leads from s to q. */
  ghost predicate Leads<S(!new), A(!new)>(step: (S, A) -> S, s: S, q: S) {
    exists path: seq<S> {:trigger IsPath(step, path, s, q)} :: IsPath(step, path, s, q)
  }

  lemma {:induction false} Stay<S(!new), A(!new)>(step: (S, A) -> S, s: S)
    ensures Leads(step, s, s)
  {
    assert IsPath(step, [s], s, s);
  }

  lemma {:induction false} StepOn<S(!new), A(!new)>(step: (S, A) -> S, s: S, q: S, a: A)
    requires Leads(step, s, q)
    ensures Leads(step, s, step(q, a))
  {
    var path :| IsPath(step, path, s, q);
    var longer := path + [step(q, a)];
    forall i: nat | i + 1 < |longer| ensures Linked(step, longer, i) {
      if i + 1 < |path| {
        assert Linked(step, path, i);
        assert longer[i] == path[i] && longer[i + 1] == path[i + 1];
      } else {
        assert longer[i] == q && longer[i + 1] == step(q, a);
      }
    }
    assert IsPath(step, longer, s, step(q, a));
  }

  lemma {:induction false} Through<S(!new), A(!new)>(step: (S, A) -> S, s: S, q: S, t: S)
    requires Leads(step, s, q) && Leads(step, q, t)
    ensures Leads(step, s, t)
  {
    var path :| IsPath(step, path, q, t);
    Along(step, s, q, path, |path| - 1);
  }

  lemma {:induction false} Along<S(!new), A(!new)>(step: (S, A) -> S, s: S, q: S, path: seq<S>, n: nat)
    requires Leads(step, s, q) && n < |path| && path[0] == q
    requires forall i: nat {:trigger Linked(step, path, i)} :: i + 1 < |path| ==> Linked(step, path, i)
    ensures Leads(step, s, path[n])
  {
    if n > 0 {
      Along(step, s, q, path, n - 1);
      assert Linked(step, path, n - 1);
      var a :| path[n] == step(path[n - 1], a);
      StepOn(step, s, path[n - 1], a);
    }
  }

  /** The actions behind a path. */
  function Folded<S, A>(step: (S, A) -> S, s: S, actions: seq<A>): S
    decreases actions
  {
    if actions == [] then s else Folded(step, step(s, actions[0]), actions[1..])
  }

  /** What a path leads to, a sequence of actions leads to, and the other way round. */
  lemma {:induction false} LeadsIsARun<S(!new), A(!new)>(step: (S, A) -> S, s: S, q: S) returns (actions: seq<A>)
    requires Leads(step, s, q)
    ensures Folded(step, s, actions) == q
  {
    var path :| IsPath(step, path, s, q);
    actions := ActionsBehind(step, path);
  }

  lemma {:induction false} ActionsBehind<S(!new), A(!new)>(step: (S, A) -> S, path: seq<S>) returns (actions: seq<A>)
    requires |path| > 0
    requires forall i: nat {:trigger Linked(step, path, i)} :: i + 1 < |path| ==> Linked(step, path, i)
    ensures Folded(step, path[0], actions) == path[|path| - 1]
    decreases |path|
  {
    if |path| == 1 {
      actions := [];
    } else {
      assert Linked(step, path, 0);
      var a :| path[1] == step(path[0], a);
      forall i: nat | i + 1 < |path[1..]| ensures Linked(step, path[1..], i) {
        assert Linked(step, path, i + 1);
        assert path[1..][i] == path[i + 1] && path[1..][i + 1] == path[i + 2];
      }
      var rest := ActionsBehind(step, path[1..]);
      actions := [a] + rest;
      assert actions[1..] == rest;
    }
  }

  lemma {:induction false} RunLeads<S(!new), A(!new)>(step: (S, A) -> S, s: S, actions: seq<A>)
    ensures Leads(step, s, Folded(step, s, actions))
    decreases actions
  {
    Stay(step, s);
    if actions != [] {
      StepOn(step, s, s, actions[0]);
      RunLeads(step, step(s, actions[0]), actions[1..]);
      Through(step, s, step(s, actions[0]), Folded(step, s, actions));
    }
  }
}
