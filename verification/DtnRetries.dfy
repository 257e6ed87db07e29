/** A pass counts at most one retry per bundle, so retry_count is a number of passes. */
module DtnRetries {
  import opened DtnQueue
  import opened DtnRuns

  /** The passes that failed to dequeue the bundle. */
  function FailedPasses(log: seq<Event>, id: BundleId): set<PassId> {
    set e | e in log && e.RetryCounted? && e.id == id :: e.pass
  }

  /** A pass has counted no retry yet for the bundles still before it, and lists each once. */
  ghost predicate Ahead(s: State, p: PassId, w: Pass) {
    && DistinctIds(TodoOf(w))
    && (w.Swept? ==> forall id :: RetryCounted(p, id) !in s.log)
    && (forall it :: it in TodoOf(w) ==> RetryCounted(p, it.id) !in s.log)
    && (w.Writing? ==> RetryCounted(p, w.id) !in s.log && forall it :: it in w.todo ==> it.id != w.id)
  }

  ghost predicate Once(s: State) {
    && (forall p :: p in s.passes ==> p in s.begun && Ahead(s, p, s.passes[p]))
    && (forall e :: e in s.log && e.RetryCounted? ==> e.pass in s.begun)
    && forall id :: RetriesCounted(s.log, id) == |FailedPasses(s.log, id)|
  }

  /** Events that count no retry change nothing here. */
  lemma QuietEvents(log: seq<Event>, more: seq<Event>, id: BundleId)
    requires forall e :: e in more ==> !e.RetryCounted?
    ensures RetriesCounted(log + more, id) == RetriesCounted(log, id)
    ensures FailedPasses(log + more, id) == FailedPasses(log, id)
  {
    CountsConcat(log, more, id);
    NoRetries(more, id);
    assert forall e :: e in log + more && e.RetryCounted? <==> e in log && e.RetryCounted?;
  }

  lemma {:induction false} NoRetries(log: seq<Event>, id: BundleId)
    requires forall e :: e in log ==> !e.RetryCounted?
    ensures RetriesCounted(log, id) == 0
  {
    if log != [] {
      assert log[0] in log;
      NoRetries(log[1..], id);
    }
  }

  lemma OneRetry(log: seq<Event>, p: PassId, b: BundleId, id: BundleId)
    requires RetryCounted(p, b) !in log && RetriesCounted(log, id) == |FailedPasses(log, id)|
    ensures RetriesCounted(log + [RetryCounted(p, b)], id) == |FailedPasses(log + [RetryCounted(p, b)], id)|
  {
    var e := RetryCounted(p, b);
    CountsConcat(log, [e], id);
    CountOne(e, id);
    if b == id {
      assert FailedPasses(log + [e], id) == FailedPasses(log, id) + {p};
      assert p !in FailedPasses(log, id);
    } else {
      assert FailedPasses(log + [e], id) == FailedPasses(log, id);
    }
  }

  /** A step that counts no retry and leaves each pass with a part of its list. */
  lemma QuietStep(s: State, s': State, more: seq<Event>)
    requires Once(s) && s'.log == s.log + more && (forall e :: e in more ==> !e.RetryCounted?) && s.begun <= s'.begun
    requires forall p :: p in s'.passes ==> p in s'.begun && Ahead(s, p, s'.passes[p])
    ensures Once(s')
  {
    forall id ensures RetriesCounted(s'.log, id) == |FailedPasses(s'.log, id)| {
      QuietEvents(s.log, more, id);
    }
    forall p | p in s'.passes ensures Ahead(s', p, s'.passes[p]) {
      assert forall id :: RetryCounted(p, id) in s'.log ==> RetryCounted(p, id) in s.log;
    }
  }

  lemma BeginOnce(c: Config, s: State, step: Step)
    requires Once(s) && step.Begin? && Enabled(s, step)
    ensures Once(Next(c, s, step))
  {
    var s' := Next(c, s, step);
    forall p | p in s'.passes ensures p in s'.begun && Ahead(s, p, s'.passes[p]) {
      assert p != step.p ==> Ahead(s, p, s.passes[p]);
    }
    QuietStep(s, s', ExpiredEvents(step.gone, step.now));
  }

  lemma PlanOnce(c: Config, s: State, step: Step)
    requires Once(s) && (step.Enqueue? || step.List? || step.ReadOnline? || step.End? || step.Receive?) && Enabled(s, step)
    ensures Once(Next(c, s, step))
  {
    var s' := Next(c, s, step);
    forall p | p in s'.passes ensures p in s'.begun && Ahead(s, p, s'.passes[p]) {
      assert Ahead(s, p, s.passes[p]);
    }
    assert s'.log == s.log + [];
    QuietStep(s, s', []);
  }

  lemma AheadByOne(s: State, p: PassId, w: Pass, action: Action)
    requires w.Working? && w.todo != [] && Ahead(s, p, w)
    ensures Ahead(s, p, Writing(w.todo[1..], w.online, w.todo[0].id, action))
  {
    assert w.todo[0] in TodoOf(w);
    forall it | it in w.todo[1..] ensures it in TodoOf(w) && it.id != w.todo[0].id {
    }
  }

  lemma DecideOnce(c: Config, s: State, p: PassId, hasRoute: bool, delivered: bool)
    requires Once(s) && Enabled(s, Decide(p, hasRoute, delivered))
    ensures Once(Next(c, s, Decide(p, hasRoute, delivered)))
  {
    var s' := Next(c, s, Decide(p, hasRoute, delivered));
    AheadByOne(s, p, s.passes[p], s'.passes[p].action);
    var more := s'.log[|s.log|..];
    assert s'.log == s.log + more;
    QuietStep(s, s', more);
  }

  lemma WriteOnce(c: Config, s: State, p: PassId)
    requires Once(s) && Enabled(s, Write(p))
    ensures Once(Next(c, s, Write(p)))
  {
    var s' := Next(c, s, Write(p));
    var w := s.passes[p];
    assert Ahead(s, p, w);
    if w.id in s.queue && w.action == Retry {
      var e := RetryCounted(p, w.id);
      forall id ensures RetriesCounted(s'.log, id) == |FailedPasses(s'.log, id)| {
        OneRetry(s.log, p, w.id, id);
      }
      forall p' | p' in s'.passes ensures Ahead(s', p', s'.passes[p']) {
        assert Ahead(s, p', s.passes[p']);
      }
    } else {
      var more := s'.log[|s.log|..];
      assert s'.log == s.log + more;
      QuietStep(s, s', more);
    }
  }

  lemma NextOnce(c: Config, s: State, step: Step)
    requires Once(s) && Enabled(s, step)
    ensures Once(Next(c, s, step))
  {
    if step.Begin? {
      BeginOnce(c, s, step);
    } else if step.Decide? {
      DecideOnce(c, s, step.p, step.hasRoute, step.delivered);
    } else if step.Write? {
      WriteOnce(c, s, step.p);
    } else {
      PlanOnce(c, s, step);
    }
  }

  lemma {:induction false} RunOnce(c: Config, s: State, steps: seq<Step>)
    requires Once(s) && ValidRun(c, s, steps)
    ensures Once(Run(c, s, steps))
    decreases |steps|
  {
    if steps != [] {
      NextOnce(c, s, steps[0]);
      RunOnce(c, Next(c, s, steps[0]), steps[1..]);
    }
  }

  /** Under every interleaving, the retry count of a queued bundle is exactly the number of different
      passes that failed to dequeue it. */
  lemma RetriesAreFailedPasses(c: Config, steps: seq<Step>, id: BundleId)
    requires ValidRun(c, EMPTY, steps) && id in Run(c, EMPTY, steps).queue
    ensures var s := Run(c, EMPTY, steps); s.queue[id].retries == |FailedPasses(s.log, id)|
  {
    RunKeepsInv(c, EMPTY, steps);
    assert Accounted(Run(c, EMPTY, steps), id);
    RunOnce(c, EMPTY, steps);
  }
}
