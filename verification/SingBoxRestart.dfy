/** Skipping the engine restart when the configuration is unchanged.

    The worker runs one apply at a time: write, check, then either keep the running engine or
    restart it.  The engine may die at any point, the agent may be restarted and find an engine
    it did not start, and queued restarts run between applies.  `verdict` is the outcome of
    `sing-box check`, which depends on the configuration up to the order of its user lists. */
module SingBoxRestart {
  import opened Base
  import opened SingBoxConfig
  import opened SingBoxProtocol

  datatype Work = Resting | Wrote(target: Config) | Passed(target: Config)

  datatype Worker = Worker(m: Manager, work: Work)

  datatype Event =
    | Begin(spec: Spec)
    | RunCheck
    | Conclude
    | QueuedRestart
    | Unrevoke(names: seq<string>)
    | EngineDies
    | AgentRestarts

  /** The manager a new agent process starts with: the file and the engine process survive. */
  function Reborn(m: Manager): Manager {
    Manager(m.v2rayApi, m.disk, None, false, 0, {}, false,
            if m.engine.Some? then Some(m.engine.value.(owned := false)) else None)
  }

  /** One step of the worker; with `fast` false the engine is restarted by every apply. */
  function Step(w: Worker, verdict: Config -> bool, fast: bool, e: Event): Worker {
    match e
    case Begin(spec) =>
      if w.work != Resting then w else Worker(AfterWrite(w.m, spec), Wrote(Rendered(w.m, spec)))
    case RunCheck =>
      if !w.work.Wrote? then w
      else if w.work.target.inbounds == [] then Worker(AfterStop(w.m), Resting)
      else if verdict(Fingerprint(w.work.target)) then w.(work := Passed(w.work.target))
      else w.(work := Resting)
    case Conclude =>
      if !w.work.Passed? then w
      else if fast && w.m.noChange && w.m.engine.Some? then w.(work := Resting)
      else Worker(AfterRestart(w.m), Resting)
    case QueuedRestart => if w.work != Resting then w else w.(m := AfterRestart(w.m))
    case Unrevoke(names) => w.(m := AfterUnrevoke(w.m, NormalizeIdentifiers(names)))
    case EngineDies => w.(m := w.m.(engine := None))
    case AgentRestarts => Worker(Reborn(w.m), Resting)
  }

  function Exec(w: Worker, verdict: Config -> bool, fast: bool, es: seq<Event>): Worker
    decreases |es|
  {
    if es == [] then w else Exec(Step(w, verdict, fast, es[0]), verdict, fast, es[1..])
  }

  ghost predicate Serves(m: Manager, c: Config) {
    m.engine.Some? && SameUpToOrder(m.engine.value.config, c)
  }

  predicate Servable(c: Config, verdict: Config -> bool) {
    c.inbounds != [] && verdict(Fingerprint(c))
  }

  /** A live engine runs the file on disk, unless the file is one no engine would be started on;
      while an apply is under way, this holds of the file the apply found unchanged. */
  ghost predicate Inv(w: Worker, verdict: Config -> bool) {
    match w.work
    case Resting =>
      w.m.disk.Some? && Servable(w.m.disk.value, verdict) && w.m.engine.Some? ==> Serves(w.m, w.m.disk.value)
    case Wrote(c) =>
      w.m.disk == Some(c) && (w.m.noChange && Servable(c, verdict) && w.m.engine.Some? ==> Serves(w.m, c))
    case Passed(c) =>
      w.m.disk == Some(c) && Servable(c, verdict) && (w.m.noChange && w.m.engine.Some? ==> Serves(w.m, c))
  }

  lemma SameIsEquivalence(a: Config, b: Config, c: Config)
    ensures SameUpToOrder(a, a)
    ensures SameUpToOrder(a, b) ==> SameUpToOrder(b, a)
    ensures SameUpToOrder(a, b) && SameUpToOrder(b, c) ==> SameUpToOrder(a, c)
  {
    FingerprintIffSame(a, a);
    FingerprintIffSame(a, b);
    FingerprintIffSame(b, a);
    FingerprintIffSame(b, c);
    FingerprintIffSame(a, c);
  }

  lemma BeginKeepsInv(w: Worker, verdict: Config -> bool, spec: Spec)
    requires w.work == Resting && Inv(w, verdict)
    ensures Inv(Step(w, verdict, true, Begin(spec)), verdict)
  {
    var c := Rendered(w.m, spec);
    if w.m.disk.Some? && Fingerprint(c) == Fingerprint(w.m.disk.value) && w.m.engine.Some? && Servable(c, verdict) {
      var d := w.m.disk.value;
      FingerprintIffSame(c, d);
      assert Servable(d, verdict);
      SameIsEquivalence(c, d, c);
      SameIsEquivalence(w.m.engine.value.config, d, c);
    }
  }

  /** No agent restart falls between an apply's write and its end. */
  ghost predicate Orderly(w: Worker, e: Event) { e.AgentRestarts? ==> w.work == Resting }

  ghost predicate OrderlyRun(w: Worker, verdict: Config -> bool, es: seq<Event>)
    decreases |es|
  {
    es == [] || (Orderly(w, es[0]) && OrderlyRun(Step(w, verdict, true, es[0]), verdict, es[1..]))
  }

  lemma StepKeepsInv(w: Worker, verdict: Config -> bool, e: Event)
    requires Inv(w, verdict) && Orderly(w, e)
    ensures Inv(Step(w, verdict, true, e), verdict)
  {
    match e
    case Begin(spec) => if w.work == Resting { BeginKeepsInv(w, verdict, spec); }
    case Conclude => if w.work.Passed? { SameIsEquivalence(w.work.target, w.work.target, w.work.target); }
    case QueuedRestart =>
      if w.m.disk.Some? { SameIsEquivalence(w.m.disk.value, w.m.disk.value, w.m.disk.value); }
    case _ =>
  }

  lemma {:induction false} RunKeepsInv(w: Worker, verdict: Config -> bool, es: seq<Event>)
    requires Inv(w, verdict) && OrderlyRun(w, verdict, es)
    ensures Inv(Exec(w, verdict, true, es), verdict)
    decreases |es|
  {
    if es != [] {
      StepKeepsInv(w, verdict, es[0]);
      RunKeepsInv(Step(w, verdict, true, es[0]), verdict, es[1..]);
    }
  }

  /** After any run, however many checks failed, engines died or specs were empty: an apply that
      goes on to its end leaves an engine serving its configuration up to user order. */
  lemma FinishedApplyIsServed(w: Worker, verdict: Config -> bool, es: seq<Event>)
    requires w.work == Resting
    requires w.m.engine.Some? && w.m.disk.Some? ==> Serves(w.m, w.m.disk.value)
    requires OrderlyRun(w, verdict, es)
    ensures var v := Exec(w, verdict, true, es);
            v.work.Passed? ==> Serves(Step(v, verdict, true, Conclude).m, v.work.target)
  {
    RunKeepsInv(w, verdict, es);
    var v := Exec(w, verdict, true, es);
    if v.work.Passed? { SameIsEquivalence(v.work.target, v.work.target, v.work.target); }
  }

  // ------------------------------------------------------------------ refinement of "always restart"

  ghost predicate SameEngine(a: Option<Engine>, b: Option<Engine>) {
    a.Some? == b.Some? && (a.Some? ==> SameUpToOrder(a.value.config, b.value.config))
  }

  /** The two workers differ at most in the order of the users their engines were started with
      and in whether the agent process started them. */
  ghost predicate Related(a: Worker, b: Worker) {
    a.work == b.work && b.m == a.m.(engine := b.m.engine) && SameEngine(a.m.engine, b.m.engine)
  }

  /** The skipping worker runs an engine that an earlier agent process started. */
  predicate Orphaned(a: Worker) { a.m.engine.Some? && !a.m.engine.value.owned }

  /** Ownership differs only where an apply has kept an orphan that the other worker replaced. */
  ghost predicate Ownership(a: Worker, b: Worker, kept: bool) {
    a.m.engine.Some? && b.m.engine.Some? ==>
      (b.m.engine.value.owned <==> a.m.engine.value.owned || kept)
  }

  /** Whether an apply has kept an orphan since the agent started, followed along the skipping
      worker's own run. */
  function KeptAfter(a: Worker, kept: bool, e: Event): bool {
    match e
    case Conclude => kept || (a.work.Passed? && a.m.noChange && Orphaned(a))
    case AgentRestarts => false
    case EngineDies => false
    case _ => kept
  }

  /** The event is the end of an apply without inbounds, which is to stop the engine, and the
      engine is an orphan that an earlier apply kept: the agent cannot stop it. */
  predicate Strands(a: Worker, kept: bool, e: Event) {
    e == RunCheck && a.work.Wrote? && a.work.target.inbounds == [] && Orphaned(a) && kept
  }

  lemma OwnershipKept(a: Worker, b: Worker, kept: bool, verdict: Config -> bool, e: Event)
    requires Related(a, b) && Ownership(a, b, kept)
    ensures Ownership(Step(a, verdict, true, e), Step(b, verdict, false, e), KeptAfter(a, kept, e))
  {
  }

  /** One step keeps the two workers related if and only if it does not strand an orphan. */
  lemma StepRelatedIff(a: Worker, b: Worker, kept: bool, verdict: Config -> bool, e: Event)
    requires Related(a, b) && Inv(a, verdict) && Ownership(a, b, kept) && Orderly(a, e)
    ensures Related(Step(a, verdict, true, e), Step(b, verdict, false, e)) <==> !Strands(a, kept, e)
  {
    match e
    case Conclude =>
      if a.work.Passed? { SameIsEquivalence(a.work.target, a.work.target, a.work.target); }
    case QueuedRestart =>
      if a.m.disk.Some? { SameIsEquivalence(a.m.disk.value, a.m.disk.value, a.m.disk.value); }
    case _ =>
  }

  ghost predicate RelatedThroughout(a: Worker, b: Worker, verdict: Config -> bool, es: seq<Event>)
    decreases |es|
  {
    Related(a, b) &&
    (es == [] || RelatedThroughout(Step(a, verdict, true, es[0]), Step(b, verdict, false, es[0]), verdict, es[1..]))
  }

  /** The skipping worker's run never applies a spec without inbounds while it runs a kept orphan. */
  predicate NeverStrands(a: Worker, kept: bool, verdict: Config -> bool, es: seq<Event>)
    decreases |es|
  {
    es == [] ||
    (!Strands(a, kept, es[0]) &&
     NeverStrands(Step(a, verdict, true, es[0]), KeptAfter(a, kept, es[0]), verdict, es[1..]))
  }

  /** Keeping the engine refines restarting it, over every run whose agent restarts fall between
      applies: the two workers serve the same configuration, up to user order, at every point of
      the run if and only if the skipping one never strands an orphan. */
  lemma {:induction false} SkippingRefinesRestartingIff(
      a: Worker, b: Worker, kept: bool, verdict: Config -> bool, es: seq<Event>)
    requires Related(a, b) && Inv(a, verdict) && Ownership(a, b, kept) && OrderlyRun(a, verdict, es)
    ensures RelatedThroughout(a, b, verdict, es) <==> NeverStrands(a, kept, verdict, es)
    decreases |es|
  {
    if es != [] {
      var c, d := Step(a, verdict, true, es[0]), Step(b, verdict, false, es[0]);
      hide Step, Strands, KeptAfter, Inv, Related, Ownership;
      StepRelatedIff(a, b, kept, verdict, es[0]);
      OwnershipKept(a, b, kept, verdict, es[0]);
      StepKeepsInv(a, verdict, es[0]);
      if Strands(a, kept, es[0]) {
        NotRelatedThroughout(c, d, verdict, es[1..]);
      } else {
        SkippingRefinesRestartingIff(c, d, KeptAfter(a, kept, es[0]), verdict, es[1..]);
      }
    }
  }

  lemma NotRelatedThroughout(a: Worker, b: Worker, verdict: Config -> bool, es: seq<Event>)
    requires !Related(a, b)
    ensures !RelatedThroughout(a, b, verdict, es)
  {
  }

  /** A run that strands an engine: the agent restarts, the same configuration is applied
      again and finds nothing changed, and then a spec without inbounds is applied. The skipping
      worker goes on serving; the one that always restarts has stopped. */
  lemma KeptOrphanOutlivesEmptySpec(a: Worker, verdict: Config -> bool, spec: Spec, empty: Spec)
    requires a.work == Resting && a.m.engine.Some? && a.m.disk == Some(Rendered(Reborn(a.m), spec))
    requires Servable(a.m.disk.value, verdict) && empty.inbounds == []
    ensures var es := [AgentRestarts, Begin(spec), RunCheck, Conclude, Begin(empty), RunCheck];
            && OrderlyRun(a, verdict, es)
            && Exec(a, verdict, true, es).m.engine.Some?
            && Exec(a, verdict, false, es).m.engine == None
  {
    var es := [AgentRestarts, Begin(spec), RunCheck, Conclude, Begin(empty), RunCheck];
    SixSteps(a, verdict, true, es);
    SixSteps(a, verdict, false, es);
    var c := Rendered(Reborn(a.m), spec);
    var a1 := Step(a, verdict, true, es[0]);
    var a2 := Step(a1, verdict, true, es[1]);
    assert a2.work == Wrote(c) && a2.m.noChange && Orphaned(a2);
    var a3 := Step(a2, verdict, true, es[2]);
    var a4 := Step(a3, verdict, true, es[3]);
    assert a4.work == Resting && Orphaned(a4);
    var b3 := Step(Step(Step(a, verdict, false, es[0]), verdict, false, es[1]), verdict, false, es[2]);
    assert b3.work == Passed(c);
    var b4 := Step(b3, verdict, false, es[3]);
    assert b4.m.engine.Some? && b4.m.engine.value.owned;
    assert |Rendered(a4.m, empty).inbounds| == 0 && |Rendered(b4.m, empty).inbounds| == 0;
  }

  lemma SixSteps(w: Worker, verdict: Config -> bool, fast: bool, es: seq<Event>)
    requires |es| == 6 && es[0] == AgentRestarts && forall k :: 1 <= k < 6 ==> !es[k].AgentRestarts?
    ensures var w1 := Step(w, verdict, fast, es[0]);
            var w2 := Step(w1, verdict, fast, es[1]);
            var w3 := Step(w2, verdict, fast, es[2]);
            var w4 := Step(w3, verdict, fast, es[3]);
            var w5 := Step(w4, verdict, fast, es[4]);
            Exec(w, verdict, fast, es) == Step(w5, verdict, fast, es[5])
    ensures w.work == Resting && fast ==> OrderlyRun(w, verdict, es)
  {
    hide Step;
    FinalSteps(Step(w, verdict, fast, es[0]), verdict, fast, es[1..]);
  }

  lemma FinalSteps(w: Worker, verdict: Config -> bool, fast: bool, es: seq<Event>)
    requires |es| == 5 && forall k :: 0 <= k < 5 ==> !es[k].AgentRestarts?
    ensures var w2 := Step(w, verdict, fast, es[0]);
            var w3 := Step(w2, verdict, fast, es[1]);
            var w4 := Step(w3, verdict, fast, es[2]);
            var w5 := Step(w4, verdict, fast, es[3]);
            Exec(w, verdict, fast, es) == Step(w5, verdict, fast, es[4])
    ensures OrderlyRun(w, verdict, es)
  {
    hide Step;
    var e1, e2, e3, e4 := es[1..], es[2..], es[3..], es[4..];
    assert e1[1..] == e2 && e2[1..] == e3 && e3[1..] == e4 && e4[1..] == [];
    var w2 := Step(w, verdict, fast, es[0]);
    var w3 := Step(w2, verdict, fast, es[1]);
    var w4 := Step(w3, verdict, fast, es[2]);
    var w5 := Step(w4, verdict, fast, es[3]);
    assert Exec(w5, verdict, fast, e4) == Exec(Step(w5, verdict, fast, es[4]), verdict, fast, []);
    assert Exec(w4, verdict, fast, e3) == Exec(w5, verdict, fast, e4);
    assert Exec(w3, verdict, fast, e2) == Exec(w4, verdict, fast, e3);
    assert Exec(w2, verdict, fast, e1) == Exec(w3, verdict, fast, e2);
    QuietRunIsOrderly(w, verdict, es);
  }

  lemma {:induction false} QuietRunIsOrderly(w: Worker, verdict: Config -> bool, es: seq<Event>)
    requires forall k :: 0 <= k < |es| ==> !es[k].AgentRestarts?
    ensures OrderlyRun(w, verdict, es)
    decreases |es|
  {
    if es != [] {
      assert forall k :: 0 <= k < |es[1..]| ==> es[1..][k] == es[k + 1];
      QuietRunIsOrderly(Step(w, verdict, true, es[0]), verdict, es[1..]);
    }
  }

  // ------------------------------------------------------------------ agent restarts inside an apply

  function Reapply(spec: Spec): seq<Event> { [Begin(spec), RunCheck, Conclude] }

  lemma ExecThree(w: Worker, verdict: Config -> bool, fast: bool, a: Event, b: Event, c: Event)
    ensures Exec(w, verdict, fast, [a, b, c])
         == Step(Step(Step(w, verdict, fast, a), verdict, fast, b), verdict, fast, c)
  {
    hide Step;
    var es := [a, b, c];
    assert es[1..] == [b, c] && es[1..][1..] == [c] && [c][1..] == [];
    assert Exec(Step(w, verdict, fast, a), verdict, fast, [b, c])
        == Exec(Step(Step(w, verdict, fast, a), verdict, fast, b), verdict, fast, [c]);
  }

  /** The agent restarts after an apply has written its file, before or after the check. Applying
      the same configuration again then reaches a serving engine exactly when the engine that was
      running had died or already served it: otherwise the file looks unchanged and the old engine
      is kept. */
  lemma RestartInsideApply(w: Worker, verdict: Config -> bool, spec: Spec)
    requires w.work != Resting && Inv(w, verdict) && Servable(w.work.target, verdict)
    requires SameUpToOrder(Rendered(Reborn(w.m), spec), w.work.target)
    ensures var v := Exec(Step(w, verdict, true, AgentRestarts), verdict, true, Reapply(spec));
            Serves(v.m, w.work.target) <==> w.m.engine == None || Serves(w.m, w.work.target)
  {
    hide Fingerprint, Rendered;
    var c := Rendered(Reborn(w.m), spec);
    FingerprintIffSame(c, w.work.target);
    assert c.inbounds != [] by { assert |c.inbounds| == |w.work.target.inbounds|; }
    var w0 := Step(w, verdict, true, AgentRestarts);
    var w1 := Step(w0, verdict, true, Begin(spec));
    var w2 := Step(w1, verdict, true, RunCheck);
    var w3 := Step(w2, verdict, true, Conclude);
    assert w1.m.noChange && w2.work == Passed(c);
    ExecThree(w0, verdict, true, Begin(spec), RunCheck, Conclude);
    hide Exec;
    if w.m.engine == None { assert w3.m.engine.value.config == c; }
  }
}
