/** Whether the running sing-box engine still serves a revoked user once nothing is queued. */
module SingBoxEngine {
  import opened Base
  import opened SingBoxConfig
  import opened SingBoxProtocol

  /** The running engine was started on a configuration with a user who is now revoked. */
  ghost predicate Dirty(m: Manager) { m.engine.Some? && !Clean(m.engine.value.config, m.revoked) }

  predicate RestartTaken(s: System) { exists t :: t in s.tasks && s.tasks[t].RestartOnly? }

  /** A restart is queued or has been taken by a thread. */
  predicate RestartDue(s: System) { s.m.pendingRestart || RestartTaken(s) }

  /** The engine is free of revoked users or is about to be restarted. */
  ghost predicate Covered(s: System) { Dirty(s.m) ==> RestartDue(s) }

  /** The two ways a due restart is lost while the engine serves a revoked user: a thread that takes
      a spec takes the queued restart with it, and a revocation that finds nothing to remove from
      the file or the queue does not ask for one. */
  ghost predicate Loses(s: System, e: Event) {
    match e
    case Take(t) => t !in s.tasks && s.m.pending.Some? && Dirty(s.m) && !RestartTaken(s)
    case Revoke(names) =>
      var ids := NormalizeIdentifiers(names);
      ids != {} && Dropped(s.m, ids) == 0 && Dirty(AfterRevoke(s.m, ids)) && !RestartDue(s)
    case _ => false
  }

  lemma RestartCleans(m: Manager)
    requires DiskClean(m)
    ensures !Dirty(AfterRestart(m))
  {
  }

  /** Un-revoking never makes an engine dirty, and revoking never makes a dirty one clean. */
  lemma DirtyGrows(m: Manager, ids: set<string>)
    ensures Dirty(AfterUnrevoke(m, ids)) ==> Dirty(m)
    ensures Dirty(m) ==> Dirty(AfterRevoke(m, ids))
  {
    hide StripSpec, StripConfig, Dropped, NameMatches, EntryMatches;
    if m.engine.Some? {
      var c := m.engine.value.config;
      if Clean(c, m.revoked) { CleanShrinks(c, m.revoked, m.revoked - ids); }
      if Clean(c, m.revoked + ids) { CleanShrinks(c, m.revoked + ids, m.revoked); }
    }
  }

  lemma TakeCoversIff(s: System, t: nat)
    requires Covered(s)
    ensures Covered(TakeStep(s, t)) <==> !Loses(s, Take(t))
  {
    hide Dirty;
    var v := TakeStep(s, t);
    SameEngineSameDirt(s.m, v.m);
    if t !in s.tasks {
      if s.m.pending.Some? {
        assert RestartTaken(v) <==> RestartTaken(s) by { OtherTasks(s, v, t); }
      } else if s.m.pendingRestart {
        assert v.tasks[t].RestartOnly?;
      }
    }
  }

  lemma SameEngineSameDirt(m: Manager, n: Manager)
    ensures m.engine == n.engine && m.revoked == n.revoked ==> (Dirty(m) <==> Dirty(n))
  {
  }

  /** A change of one task that is no restart leaves the taken restarts as they are. */
  lemma OtherTasks(s: System, v: System, t: nat)
    requires forall x :: x != t ==> (x in s.tasks <==> x in v.tasks) && (x in s.tasks ==> s.tasks[x].RestartOnly? == v.tasks[x].RestartOnly?)
    requires t in s.tasks ==> !s.tasks[t].RestartOnly?
    requires t in v.tasks ==> !v.tasks[t].RestartOnly?
    ensures RestartTaken(s) <==> RestartTaken(v)
  {
  }

  lemma RevokeCoversIff(s: System, names: seq<string>)
    requires Covered(s)
    ensures Covered(Step(s, Revoke(names))) <==> !Loses(s, Revoke(names))
  {
    hide Dirty, NormalizeIdentifiers, Dropped, StripSpec, StripConfig;
    DirtyGrows(s.m, NormalizeIdentifiers(names));
  }

  /** A step of an apply that does not start an engine leaves engine, queue and taken restarts alone. */
  lemma ApplyStepCovers(s: System, e: Event)
    requires Covered(s) && DiskClean(s.m) && (e.Write? || e.Check? || e.Settle? || e.Finish?)
    ensures Covered(Step(s, e))
  {
    hide Dirty, Rendered, Fingerprint, StripSpec, DiskClean;
    var v, t := Step(s, e), e.thread;
    SameEngineSameDirt(s.m, v.m);
    RestartCleans(s.m);
    NoEngineNoDirt(s.m);
    if t in s.tasks && s.tasks[t].Apply? { OtherTasks(s, v, t); }
  }

  lemma NoEngineNoDirt(m: Manager)
    ensures !Dirty(m.(engine := None)) && (Dirty(AfterStop(m)) ==> Dirty(m))
  {
  }

  /** A step keeps the engine covered exactly when it does not lose a restart. */
  lemma StepCoversIff(s: System, e: Event)
    requires Covered(s) && DiskClean(s.m)
    ensures Covered(Step(s, e)) <==> !Loses(s, e)
  {
    match e
    case Take(t) => TakeCoversIff(s, t);
    case Revoke(names) => RevokeCoversIff(s, names);
    case Unrevoke(names) => hide NormalizeIdentifiers; DirtyGrows(s.m, NormalizeIdentifiers(names));
    case Direct(t, spec) =>
      var v := Step(s, e);
      if t !in s.tasks { OtherTasks(s, v, t); }
    case Schedule(_) =>
    case ScheduleRestart =>
    case EngineDies =>
    case _ => ApplyStepCovers(s, e);
  }

  ghost predicate CoveredThroughout(s: System, es: seq<Event>)
    decreases |es|
  {
    Covered(s) && (es == [] || CoveredThroughout(Step(s, es[0]), es[1..]))
  }

  ghost predicate NeverLoses(s: System, es: seq<Event>)
    decreases |es|
  {
    es == [] || (!Loses(s, es[0]) && NeverLoses(Step(s, es[0]), es[1..]))
  }

  /** Over every interleaving: the engine is free of revoked users, or a restart is due, in every
      state if and only if no due restart is lost on the way. */
  lemma {:induction false} CoveredThroughoutIff(s: System, es: seq<Event>)
    requires Covered(s) && DiskClean(s.m) && StartsClean(s.starts)
    ensures CoveredThroughout(s, es) <==> NeverLoses(s, es)
    decreases |es|
  {
    if es != [] {
      hide Step, Covered, Loses, DiskClean, StartsClean;
      StepCoversIff(s, es[0]);
      StepKeepsClean(s, es[0]);
      if !Loses(s, es[0]) { CoveredThroughoutIff(Step(s, es[0]), es[1..]); }
    }
  }

  /** Nothing is queued and no thread is at work. */
  predicate Drained(s: System) { s.tasks == map[] && s.m.pending == None && !s.m.pendingRestart }

  /** So once such a run has drained, the engine serves no revoked user. */
  lemma {:induction false} DrainedEngineIsClean(s: System, es: seq<Event>)
    requires Covered(s) && DiskClean(s.m) && StartsClean(s.starts) && NeverLoses(s, es)
    ensures Covered(Exec(s, es))
    ensures Drained(Exec(s, es)) ==> !Dirty(Exec(s, es).m)
    decreases |es|
  {
    if es != [] {
      hide Step, Loses, DiskClean, StartsClean, Dirty;
      StepCoversIff(s, es[0]);
      StepKeepsClean(s, es[0]);
      DrainedEngineIsClean(Step(s, es[0]), es[1..]);
    }
  }

  /** The run in which it goes wrong: a user is revoked, and the panel's next spec arrives before the
      restart is taken. The take swallows the restart, the spec renders to what the stripped file
      already says, and the old engine is kept: everything is drained and it serves on as before. */
  lemma RefreshSwallowsRestart(s: System, names: seq<string>, spec: Spec, t: nat)
    requires Drained(s) && s.m.disk.Some? && s.m.engine.Some? && spec.inbounds != []
    requires NormalizeIdentifiers(names) != {}
    requires var m := AfterRevoke(s.m, NormalizeIdentifiers(names));
             Fingerprint(Rendered(m, spec)) == Fingerprint(m.disk.value)
    ensures var v := Exec(s, [Revoke(names), Schedule(spec), Take(t), Write(t), Check(t, true), Settle(t), Finish(t)]);
            && Drained(v) && v.m.engine == s.m.engine && v.m.revoked == s.m.revoked + NormalizeIdentifiers(names)
            && (Dirty(v.m) <==> Dirty(AfterRevoke(s.m, NormalizeIdentifiers(names))))
  {
    hide *;
    var s3 := Step(Step(Step(s, Revoke(names)), Schedule(spec)), Take(t));
    TakenRefresh(s, names, spec, t);
    ExecThree(s, Revoke(names), Schedule(spec), Take(t));
    var tail := [Write(t), Check(t, true), Settle(t), Finish(t)];
    ExecAppend(s, [Revoke(names), Schedule(spec), Take(t)], tail);
    assert [Revoke(names), Schedule(spec), Take(t)] + tail
        == [Revoke(names), Schedule(spec), Take(t), Write(t), Check(t, true), Settle(t), Finish(t)];
    UndisturbedApply(s3, t, true);
    TasksAfterApply(s3, t);
    KeptEngine(s3, t);
    DrainedNow(Exec(s3, tail));
    SameEngineSameDirt(AfterRevoke(s.m, NormalizeIdentifiers(names)), Exec(s3, tail).m);
  }

  lemma DrainedNow(s: System)
    ensures Drained(s) <==> s.tasks == map[] && s.m.pending == None && !s.m.pendingRestart
  {
  }

  /** After the take: the spec is under way alone, nothing is queued, and the restart is forgotten. */
  lemma TakenRefresh(s: System, names: seq<string>, spec: Spec, t: nat)
    requires Drained(s) && s.m.disk.Some? && NormalizeIdentifiers(names) != {}
    ensures var m := AfterRevoke(s.m, NormalizeIdentifiers(names));
            var v := Step(Step(Step(s, Revoke(names)), Schedule(spec)), Take(t));
            && v.m == m.(pending := None, pendingRestart := false)
            && v.tasks == map[t := Apply(spec, Some(m.generation), Begun)]
            && At(v, t, Begun) && !Stale(v, t)
            && m.engine == s.m.engine && m.revoked == s.m.revoked + NormalizeIdentifiers(names) && m.disk.Some?
            && Rendered(v.m, spec) == Rendered(m, spec)
  {
    hide NormalizeIdentifiers, StripSpec, StripConfig, Dropped, RenderConfig;
  }

  /** An apply that finds its file unchanged and an engine alive keeps everything but the file. */
  lemma KeptEngine(s: System, t: nat)
    requires At(s, t, Begun) && !Stale(s, t) && s.tasks[t].spec.inbounds != [] && s.m.engine.Some? && s.m.disk.Some?
    requires Fingerprint(Rendered(s.m, s.tasks[t].spec)) == Fingerprint(s.m.disk.value)
    ensures ApplyResult(s.m, s.tasks[t].spec, s.tasks[t].generation, true) == AfterWrite(s.m, s.tasks[t].spec)
    ensures var m := AfterWrite(s.m, s.tasks[t].spec);
            m == s.m.(disk := m.disk, noChange := m.noChange)
  {
    hide Fingerprint, Rendered;
  }

  lemma ExecThree(s: System, a: Event, b: Event, c: Event)
    ensures Exec(s, [a, b, c]) == Step(Step(Step(s, a), b), c)
  {
    hide Step;
    ExecTwo(s, a, b);
    ExecAppend(s, [a, b], [c]);
    assert [a, b] + [c] == [a, b, c];
    var v := Step(Step(s, a), b);
    assert [c][1..] == [];
    assert Exec(v, [c]) == Exec(Step(v, c), []);
  }

  lemma TasksAfterApply(s: System, t: nat)
    requires At(s, t, Begun) && !Stale(s, t) && s.tasks == map[t := s.tasks[t]]
    requires s.tasks[t].spec.inbounds != [] && s.m.engine.Some?
    requires s.m.disk.Some? && Fingerprint(Rendered(s.m, s.tasks[t].spec)) == Fingerprint(s.m.disk.value)
    ensures Exec(s, [Write(t), Check(t, true), Settle(t), Finish(t)]).tasks == map[]
  {
    hide Fingerprint, RenderConfig;
    ExecTwo(s, Write(t), Check(t, true));
    WrittenTask(s, t);
    var w := Step(s, Write(t));
    var c := Step(w, Check(t, true));
    ExecTwo(c, Settle(t), Finish(t));
    ExecAppend(s, [Write(t), Check(t, true)], [Settle(t), Finish(t)]);
    assert [Write(t), Check(t, true)] + [Settle(t), Finish(t)] == [Write(t), Check(t, true), Settle(t), Finish(t)];
    assert At(c, t, Checked) && !Stale(c, t) && c.m.noChange;
    var d := Step(c, Settle(t));
    assert At(d, t, Settled(true)) && d.m.engine.Some?;
    assert Step(d, Finish(t)).tasks == map[];
  }
}
