/**
 Runs of the publish/unpublish system, built step by step: a history is a run together with
 the stretch at its end in which one volume's calls alone have stepped.
 */
module NbdHistory {
  import opened Options
  import opened NodeHost
  import opened NbdProtocol

  /** The run began in start; since it was in state origin, at mark, only the caller's calls
      have stepped. */
  datatype Session = Session(caller: Volume, mark: nat, origin: System, start: System)

  datatype History = History(states: seq<System>, events: seq<Event>, session: Session)

  predicate CallAt(events: seq<Event>, i: nat, v: Volume)
    requires i < |events|
  {
    events[i] == Call(v)
  }

  ghost predicate IsHistory(env: Env, t: History) {
    && IsRun(env, t.states, t.events)
    && t.states[0] == t.session.start
    && t.session.mark <= |t.events|
    && t.states[t.session.mark] == t.session.origin
    && forall i: nat :: t.session.mark <= i < |t.events| ==> CallAt(t.events, i, t.session.caller)
  }

  ghost function Last(t: History): System
    requires |t.states| > 0
  {
    t.states[|t.states| - 1]
  }

  /** The caller is v and its call is at pc, while nbdMu is as given. */
  ghost predicate Stands(env: Env, t: History, v: Volume, pc: Pc, lock: Option<Volume>) {
    && IsHistory(env, t)
    && t.session.caller == v
    && At(Last(t), v) == pc
    && Last(t).lock == lock
    && Last(t).reconciler == Looking
  }

  /** The caller is v, its call is at pc, and no other call holds nbdMu. */
  ghost predicate Arrived(env: Env, t: History, v: Volume, pc: Pc) {
    Stands(env, t, v, pc, if HoldsLock(pc) then Some(v) else None)
  }

  ghost predicate Reached(env: Env, t: History, v: Volume, pc: Pc, h: Host) {
    Arrived(env, t, v, pc) && Last(t).host == h
  }

  /** Volumes other than the caller are where they were when the session began. */
  lemma {:induction false} OthersRest(env: Env, t: History, u: Volume)
    requires IsHistory(env, t) && u != t.session.caller
    ensures At(Last(t), u) == At(t.session.origin, u)
    decreases |t.events|
  {
    var n := |t.events|;
    if t.session.mark < n {
      var t' := t.(states := t.states[..n], events := t.events[..n - 1]);
      forall i: nat | i < n - 1 ensures StepAt(env, t'.states, t'.events, i) {
        assert StepAt(env, t.states, t.events, i);
      }
      forall i: nat | t.session.mark <= i < n - 1 ensures CallAt(t'.events, i, t.session.caller) {
        assert CallAt(t.events, i, t.session.caller);
      }
      OthersRest(env, t', u);
      assert StepAt(env, t.states, t.events, n - 1) && CallAt(t.events, n - 1, t.session.caller);
    }
  }

  // ---- One more step ----

  /** Any event; the session of v begins behind it. */
  lemma Interlude(env: Env, t: History, v: Volume, s': System, e: Event) returns (t': History)
    requires IsHistory(env, t) && Next(env, Last(t), s', e)
    ensures IsHistory(env, t') && Last(t') == s'
    ensures t'.states == t.states + [s'] && t'.events == t.events + [e]
    ensures t'.session == Session(v, |t'.events|, s', t.session.start)
  {
    var states, events := t.states + [s'], t.events + [e];
    ExtendRun(env, t.states, t.events, s', e);
    t' := History(states, events, Session(v, |events|, s', t.session.start));
  }

  lemma ExtendRun(env: Env, states: seq<System>, events: seq<Event>, s': System, e: Event)
    requires IsRun(env, states, events) && Next(env, states[|events|], s', e)
    ensures IsRun(env, states + [s'], events + [e])
  {
    forall i: nat | i < |events| + 1 ensures StepAt(env, states + [s'], events + [e], i) {
      if i < |events| {
        assert StepAt(env, states, events, i);
      }
    }
  }

  /** A step of the caller. */
  lemma Append(env: Env, t: History, s': System) returns (t': History)
    requires IsHistory(env, t) && VolumeStep(env, Last(t), s', t.session.caller)
    ensures IsHistory(env, t') && Last(t') == s' && t'.session == t.session
  {
    var v := t.session.caller;
    var next := Interlude(env, t, v, s', Call(v));
    t' := next.(session := t.session);
    forall i: nat | t.session.mark <= i < |t'.events| ensures CallAt(t'.events, i, v) {
      assert i < |t.events| ==> CallAt(t.events, i, v);
    }
  }

  /** A history of one state. */
  lemma Begin(env: Env, s: System, v: Volume) returns (t: History)
    ensures IsHistory(env, t) && Last(t) == s && t.session == Session(v, 0, s, s)
  {
    t := History([s], [], Session(v, 0, s, s));
  }

  /** Another volume takes over. */
  lemma Switch(env: Env, t: History, v: Volume) returns (t': History)
    requires IsHistory(env, t)
    ensures IsHistory(env, t') && t'.states == t.states && t'.events == t.events
    ensures t'.session == Session(v, |t.events|, Last(t), t.session.start)
  {
    t' := t.(session := Session(v, |t.events|, Last(t), t.session.start));
  }

  ghost function Stepped(s: System, v: Volume, pc': Pc, h': Host, lock': Option<Volume>): System {
    System(h', s.calls[v := pc'], lock', s.reconciler)
  }

  lemma SteppedIsStep(env: Env, s: System, v: Volume, pc: Pc, pc': Pc, h': Host)
    requires At(s, v) == pc && Act(env, s.host, pc, v, h', pc')
    requires s.lock == if HoldsLock(pc) then Some(v) else None
    ensures VolumeStep(env, s, Stepped(s, v, pc', h', if HoldsLock(pc') then Some(v) else None), v)
  {
    assert At(Stepped(s, v, pc', h', if HoldsLock(pc') then Some(v) else None), v) == pc';
  }

  lemma Log(env: Env, t: History, v: Volume, pc: Pc, pc': Pc, h': Host) returns (t': History)
    requires Arrived(env, t, v, pc) && Act(env, Last(t).host, pc, v, h', pc')
    ensures Reached(env, t', v, pc', h') && t'.session == t.session
  {
    SteppedIsStep(env, Last(t), v, pc, pc', h');
    t' := Append(env, t, Stepped(Last(t), v, pc', h', if HoldsLock(pc') then Some(v) else None));
  }

  lemma BesideIsStep(env: Env, s: System, v: Volume, pc: Pc, pc': Pc, h': Host)
    requires At(s, v) == pc && Act(env, s.host, pc, v, h', pc') && !HoldsLock(pc) && !HoldsLock(pc')
    ensures VolumeStep(env, s, Stepped(s, v, pc', h', s.lock), v)
  {
    assert At(Stepped(s, v, pc', h', s.lock), v) == pc';
  }

  /** A step outside the locked regions, while another call may be inside one. */
  lemma LogBeside(env: Env, t: History, v: Volume, pc: Pc, pc': Pc, h': Host, lock: Option<Volume>)
    returns (t': History)
    requires Stands(env, t, v, pc, lock) && Act(env, Last(t).host, pc, v, h', pc')
    requires !HoldsLock(pc) && !HoldsLock(pc')
    ensures Stands(env, t', v, pc', lock) && Last(t').host == h' && t'.session == t.session
  {
    BesideIsStep(env, Last(t), v, pc, pc', h');
    t' := Append(env, t, Stepped(Last(t), v, pc', h', lock));
  }

  lemma LogUseBeside(env: Env, t: History, v: Volume, pc: Pc, pc': Pc, h': Host, lock: Option<Volume>)
    returns (t': History)
    requires Stands(env, t, v, pc, lock) && Using(pc) && !HoldsLock(pc')
    requires UseAct(env, Last(t).host, pc, v, h', pc')
    ensures Stands(env, t', v, pc', lock) && Last(t').host == h' && t'.session == t.session
  {
    t' := LogBeside(env, t, v, pc, pc', h', lock);
  }

  lemma LogUndoBeside(env: Env, t: History, v: Volume, pc: Pc, pc': Pc, h': Host, lock: Option<Volume>)
    returns (t': History)
    requires Stands(env, t, v, pc, lock) && Undoing(pc) && !HoldsLock(pc')
    requires UndoAct(env, Last(t).host, pc, v, h', pc')
    ensures Stands(env, t', v, pc', lock) && Last(t').host == h' && t'.session == t.session
  {
    t' := LogBeside(env, t, v, pc, pc', h', lock);
  }

  lemma LogClearBeside(env: Env, t: History, v: Volume, pc: Pc, pc': Pc, h': Host, lock: Option<Volume>)
    returns (t': History)
    requires Stands(env, t, v, pc, lock) && LockFree(pc) && !HoldsLock(pc')
    requires ClearAct(env, Last(t).host, pc, v, h', pc')
    ensures Stands(env, t', v, pc', lock) && Last(t').host == h' && t'.session == t.session
  {
    t' := LogBeside(env, t, v, pc, pc', h', lock);
  }

  lemma LogStart(env: Env, t: History, v: Volume, pc: Pc, pc': Pc, h': Host) returns (t': History)
    requires Arrived(env, t, v, pc) && Starting(pc) && StartAct(env, Last(t).host, pc, v, h', pc')
    ensures Reached(env, t', v, pc', h') && t'.session == t.session
  {
    t' := Log(env, t, v, pc, pc', h');
  }

  lemma LogReserve(env: Env, t: History, v: Volume, pc: Pc, pc': Pc, h': Host) returns (t': History)
    requires Arrived(env, t, v, pc) && Reserving(pc) && ReserveAct(env, Last(t).host, pc, v, h', pc')
    ensures Reached(env, t', v, pc', h') && t'.session == t.session
  {
    t' := Log(env, t, v, pc, pc', h');
  }

  lemma LogClear(env: Env, t: History, v: Volume, pc: Pc, pc': Pc, h': Host) returns (t': History)
    requires Arrived(env, t, v, pc) && Clearing(pc) && ClearAct(env, Last(t).host, pc, v, h', pc')
    ensures Reached(env, t', v, pc', h') && t'.session == t.session
  {
    t' := Log(env, t, v, pc, pc', h');
  }

  lemma LogUse(env: Env, t: History, v: Volume, pc: Pc, pc': Pc, h': Host) returns (t': History)
    requires Arrived(env, t, v, pc) && Using(pc) && UseAct(env, Last(t).host, pc, v, h', pc')
    ensures Reached(env, t', v, pc', h') && t'.session == t.session
  {
    t' := Log(env, t, v, pc, pc', h');
  }

  lemma LogUndo(env: Env, t: History, v: Volume, pc: Pc, pc': Pc, h': Host) returns (t': History)
    requires Arrived(env, t, v, pc) && Undoing(pc) && UndoAct(env, Last(t).host, pc, v, h', pc')
    ensures Reached(env, t', v, pc', h') && t'.session == t.session
  {
    t' := Log(env, t, v, pc, pc', h');
  }

  lemma LogUnpublish(env: Env, t: History, v: Volume, pc: Pc, pc': Pc, h': Host) returns (t': History)
    requires Arrived(env, t, v, pc) && Ending(pc) && UnpublishAct(env, Last(t).host, pc, v, h', pc')
    ensures Reached(env, t', v, pc', h') && t'.session == t.session
  {
    t' := Log(env, t, v, pc, pc', h');
  }

  /** The reconciler looks at device d and has its detach succeed or fail; the caller's
      steps count anew from there. */
  lemma LogReconcile(env: Env, t: History, v: Volume, pc: Pc, d: Device, detached: bool) returns (t': History)
    requires Arrived(env, t, v, pc) && Orphan(Last(t).host, d)
    ensures Reached(env, t', v, pc, DetachIf(Last(t).host, d, detached))
  {
    var s := Last(t);
    var s1 := s.(reconciler := Detaching(d));
    var s2 := s.(host := DetachIf(s.host, d, detached));
    assert LookStep(s, s1, d) && ReconcileStep(s1, s2);
    t' := Interlude(env, t, v, s1, Look(d));
    t' := Interlude(env, t', v, s2, Reconcile);
  }
}
