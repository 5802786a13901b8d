/** What the worker achieves by its own steps, without intake, operators or crashes. */
module Progress {
  import opened Protocol

  /** A step of the worker, of the systems it talks to, or of time: not of intake, an operator or a crash. */
  predicate Internal(e: Event) {
    !(e.Intake? || e.Replay? || e.Reconcile? || e.Crash? || e.Propose? || e.Decide?)
  }

  /** A set of states the worker's own steps do not leave. */
  ghost predicate Closed(c: Config, within: iset<State>) {
    forall m, e | m in within && Internal(e) && Enabled(c, m, e) :: Next(c, m, e) in within
  }

  /** The worker's own steps lead from s to n: n is in every such set that s is in. */
  ghost predicate Works(c: Config, s: State, n: State) {
    forall within: iset<State> | Closed(c, within) && s in within :: n in within
  }

  lemma WorkStep(c: Config, s: State, m: State, e: Event)
    requires Works(c, s, m) && Enabled(c, m, e) && Internal(e)
    ensures Works(c, s, Next(c, m, e))
  {
  }

  ghost predicate InternalRun(r: Run) {
    r.From? || (InternalRun(r.past) && Internal(r.event))
  }

  ghost predicate WorksBy(c: Config, s: State, n: State, r: Run) {
    Valid(c, r) && InternalRun(r) && Start(r) == s && Final(c, r) == n
  }

  ghost predicate ByRun(c: Config, s: State, n: State) {
    exists r :: WorksBy(c, s, n, r)
  }

  /** That is, some history of such steps leads from s to n. */
  lemma WorkIsARun(c: Config, s: State, n: State)
    ensures Works(c, s, n) <==> ByRun(c, s, n)
  {
    if Works(c, s, n) {
      var within := iset m | ByRun(c, s, m);
      assert WorksBy(c, s, s, From(s));
      forall m, e | m in within && Internal(e) && Enabled(c, m, e)
        ensures Next(c, m, e) in within
      {
        var r :| WorksBy(c, s, m, r);
        assert WorksBy(c, s, Next(c, m, e), Then(r, e));
      }
      assert Closed(c, within);
    }
    if ByRun(c, s, n) {
      var r :| WorksBy(c, s, n, r);
      RunWorks(c, r);
    }
  }

  lemma {:induction false} RunWorks(c: Config, r: Run)
    requires Valid(c, r) && InternalRun(r)
    ensures Works(c, Start(r), Final(c, r))
  {
    if r.Then? {
      RunWorks(c, r.past);
      WorkStep(c, Start(r), Final(c, r.past), r.event);
    }
  }
}
