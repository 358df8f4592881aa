/**
 What every interleaved run of publishes and unpublishes guarantees.  Runs contain
 crashes, spontaneous disconnects and reconciler detaches unless a theorem says
 otherwise.
 */
module NbdTheorems {
  import opened Options
  import opened NodeHost
  import opened NbdProtocol
  import opened NbdInvariant

  /** A run under the orderly assumptions, from a state that satisfies the invariant, in which
      every clear without the lock is safe when it happens. */
  ghost predicate GoodRun(env: Env, states: seq<System>, events: seq<Event>) {
    Orderly(env) && IsRun(env, states, events) && CarefulRun(states, events) && Inv(states[0])
  }

  // ---- Where steps lead ----

  /** A volume that has had a call never looks untouched again; only the probe leads to a
      format, and only the drop of the record to the release of the reservation. */
  predicate Leads(h: Host, pc: Pc, v: Volume, h': Host, pc': Pc) {
    && pc' != Idle(Never)
    && (pc'.Format? ==> pc == Probe(pc'.dev))
    && (pc'.CleanRelease? ==> pc == CleanDrop(pc'.dev) && h' == RemoveRecord(h, v))
  }

  lemma StepsLead(env: Env, h: Host, pc: Pc, v: Volume, h': Host, pc': Pc)
    requires Act(env, h, pc, v, h', pc')
    ensures Leads(h, pc, v, h', pc')
  {
    if Reserving(pc) {
      ReserveLeads(env, h, pc, v, h', pc');
    } else if Clearing(pc) {
      ClearLeads(env, h, pc, v, h', pc');
    } else if Using(pc) {
      UseLeads(env, h, pc, v, h', pc');
    } else if Undoing(pc) {
      UndoLeads(env, h, pc, v, h', pc');
    } else if Ending(pc) {
      UnpublishLeads(env, h, pc, v, h', pc');
    } else {
      StartLeads(env, h, pc, v, h', pc');
    }
  }

  lemma ReserveLeads(env: Env, h: Host, pc: Pc, v: Volume, h': Host, pc': Pc)
    requires ReserveAct(env, h, pc, v, h', pc')
    ensures Leads(h, pc, v, h', pc')
  {
  }

  lemma ClearLeads(env: Env, h: Host, pc: Pc, v: Volume, h': Host, pc': Pc)
    requires ClearAct(env, h, pc, v, h', pc')
    ensures Leads(h, pc, v, h', pc')
  {
  }

  lemma UseLeads(env: Env, h: Host, pc: Pc, v: Volume, h': Host, pc': Pc)
    requires UseAct(env, h, pc, v, h', pc')
    ensures Leads(h, pc, v, h', pc')
  {
  }

  lemma UndoLeads(env: Env, h: Host, pc: Pc, v: Volume, h': Host, pc': Pc)
    requires UndoAct(env, h, pc, v, h', pc')
    ensures Leads(h, pc, v, h', pc')
  {
  }

  lemma UnpublishLeads(env: Env, h: Host, pc: Pc, v: Volume, h': Host, pc': Pc)
    requires UnpublishAct(env, h, pc, v, h', pc')
    ensures Leads(h, pc, v, h', pc')
  {
  }

  lemma StartLeads(env: Env, h: Host, pc: Pc, v: Volume, h': Host, pc': Pc)
    requires StartAct(env, h, pc, v, h', pc')
    ensures Leads(h, pc, v, h', pc')
  {
  }

  // ---- Runs that are careful of themselves ----

  /** The deferred clear waits for nbdMu, or it is one step and the detach before it succeeds. */
  predicate Tame(env: Env) {
    env.deferred == UnderLock || (env.deferred == OneStep && env.cleanupFails == {})
  }

  /** A clear without the lock, if any, is in one step and of a disconnected device. */
  predicate Calm(h: Host, pc: Pc) {
    match pc
    case CleanClear(d) => d !in h.attached
    case CleanDrop(_) => false
    case CleanRelease(_) => false
    case _ => true
  }

  ghost predicate AllCalm(s: System) {
    forall v :: Calm(s.host, At(s, v))
  }

  lemma TameActIsCalm(env: Env, h: Host, pc: Pc, v: Volume, h': Host, pc': Pc)
    requires Tame(env) && Calm(h, pc) && Act(env, h, pc, v, h', pc')
    ensures Calm(h', pc')
  {
    if Reserving(pc) {
      ReserveIsCalm(env, h, pc, v, h', pc');
    } else if Clearing(pc) {
      ClearIsCalm(env, h, pc, v, h', pc');
    } else if Using(pc) {
      UseIsCalm(env, h, pc, v, h', pc');
    } else if Undoing(pc) {
      UndoIsCalm(env, h, pc, v, h', pc');
    } else if Ending(pc) {
      UnpublishIsCalm(env, h, pc, v, h', pc');
    } else {
      StartIsCalm(env, h, pc, v, h', pc');
    }
  }

  lemma ReserveIsCalm(env: Env, h: Host, pc: Pc, v: Volume, h': Host, pc': Pc)
    requires ReserveAct(env, h, pc, v, h', pc')
    ensures Calm(h', pc')
  {
  }

  lemma ClearIsCalm(env: Env, h: Host, pc: Pc, v: Volume, h': Host, pc': Pc)
    requires Calm(h, pc) && ClearAct(env, h, pc, v, h', pc')
    ensures Calm(h', pc')
  {
  }

  lemma UseIsCalm(env: Env, h: Host, pc: Pc, v: Volume, h': Host, pc': Pc)
    requires UseAct(env, h, pc, v, h', pc')
    ensures Calm(h', pc')
  {
  }

  lemma UndoIsCalm(env: Env, h: Host, pc: Pc, v: Volume, h': Host, pc': Pc)
    requires Tame(env) && UndoAct(env, h, pc, v, h', pc')
    ensures Calm(h', pc')
  {
  }

  lemma UnpublishIsCalm(env: Env, h: Host, pc: Pc, v: Volume, h': Host, pc': Pc)
    requires UnpublishAct(env, h, pc, v, h', pc')
    ensures Calm(h', pc')
  {
  }

  lemma StartIsCalm(env: Env, h: Host, pc: Pc, v: Volume, h': Host, pc': Pc)
    requires StartAct(env, h, pc, v, h', pc')
    ensures Calm(h', pc')
  {
  }

  lemma TameNextIsCalm(env: Env, s: System, s': System, e: Event)
    requires Orderly(env) && Tame(env) && Inv(s) && AllCalm(s) && Next(env, s, s', e)
    ensures Careful(s, e) && AllCalm(s')
  {
    if e.Call? {
      assert Calm(s.host, At(s, e.v));
    }
    forall u ensures Calm(s'.host, At(s', u)) {
      assert Calm(s.host, At(s, u)) && Local(s.host, At(s, u), u);
      if e == Call(u) {
        TameActIsCalm(env, s.host, At(s, u), u, s'.host, At(s', u));
      } else if e.Call? {
        CalmIsFramed(env, s, s', e.v, u);
      }
    }
  }

  lemma CalmIsFramed(env: Env, s: System, s': System, v: Volume, u: Volume)
    requires Orderly(env) && Inv(s) && VolumeStep(env, s, s', v) && ClearIsSafe(s, v) && u != v
    requires Calm(s.host, At(s, u))
    ensures Calm(s'.host, At(s', u))
  {
    var h, h', pc, pc' := s.host, s'.host, At(s, v), At(s', v);
    assert Local(h, pc, v) && Local(h, At(s, u), u) && At(s', u) == At(s, u);
    ActIsLegal(env, h, pc, v, h', pc');
    LegalIsConfined(h, v, EffectOf(h, pc, v, h', pc'));
    if At(s, u).CleanClear? {
      assert SameConnection(h, h', At(s, u).dev) || Records(h, v, At(s, u).dev);
    }
  }

  /** Where the deferred clear waits for nbdMu, whatever detaches fail, and where it is one step
      at any time and the deferred cleanup's own detaches succeed, whatever others fail, every
      run is careful. */
  lemma TameRunsAreCareful(env: Env, states: seq<System>, events: seq<Event>)
    requires Orderly(env) && Tame(env) && IsRun(env, states, events) && Inv(states[0]) && AllCalm(states[0])
    ensures GoodRun(env, states, events)
  {
    forall i: nat | i < |events| ensures CarefulAt(states, events, i) {
      TamePrefixIsCalm(env, states, events, i);
      assert StepAt(env, states, events, i);
      TameNextIsCalm(env, states[i], states[i + 1], events[i]);
    }
  }

  lemma {:induction false} TamePrefixIsCalm(env: Env, states: seq<System>, events: seq<Event>, i: nat)
    requires Orderly(env) && Tame(env) && IsRun(env, states, events) && Inv(states[0]) && AllCalm(states[0])
    requires i < |states|
    ensures Inv(states[i]) && AllCalm(states[i])
  {
    if i > 0 {
      TamePrefixIsCalm(env, states, events, i - 1);
      assert StepAt(env, states, events, i - 1);
      TameNextIsCalm(env, states[i - 1], states[i], events[i - 1]);
      NextKeepsInvIff(env, states[i - 1], states[i], events[i - 1]);
    }
  }

  /** Only v's calls step. */
  ghost predicate Solo(events: seq<Event>, v: Volume) {
    forall i :: 0 <= i < |events| ==> events[i] == Call(v)
  }

  /** v is between two calls, and no call is inside a locked region. */
  predicate BetweenCalls(s: System, v: Volume) {
    At(s, v).Idle? && s.lock == None
  }

  /** No other call is inside a locked region, and nobody has taken the device v is releasing. */
  ghost predicate Lonely(s: System, v: Volume) {
    (s.lock == None || s.lock == Some(v)) && MayRelease(s.host, At(s, v))
  }

  lemma LonelyStepIsSafe(s: System, v: Volume)
    requires Inv(s) && Lonely(s, v)
    ensures ClearIsSafe(s, v)
  {
    forall u | u != v ensures !HoldsLock(At(s, u)) {
      assert HoldsLock(At(s, u)) <==> s.lock == Some(u);
    }
    assert forall u, d :: HasSeen(At(s, u), d) || HasReserved(At(s, u), d) ==> HoldsLock(At(s, u));
  }

  lemma LonelyStaysLonely(env: Env, s: System, s': System, v: Volume)
    requires Inv(s) && Lonely(s, v) && VolumeStep(env, s, s', v)
    ensures Lonely(s', v)
  {
    var h, h' := s.host, s'.host;
    assert HoldsLock(At(s, v)) <==> s.lock == Some(v);
    assert Local(h, At(s, v), v);
    if At(s', v).CleanRelease? {
      StepsLead(env, h, At(s, v), v, h', At(s', v));
      forall x ensures !Records(h', x, At(s', v).dev) {
        assert Records(h, x, At(s', v).dev) ==> Reserved(h, At(s', v).dev, x) && Reserved(h, At(s', v).dev, v);
      }
    }
  }

  /** A volume whose calls run alone is careful however its deferred clear goes. */
  lemma {:induction false} SoloPrefixIsLonely(env: Env, states: seq<System>, events: seq<Event>, i: nat, v: Volume)
    requires Orderly(env) && IsRun(env, states, events) && Solo(events, v) && Inv(states[0])
    requires BetweenCalls(states[0], v) && i < |states|
    ensures Inv(states[i]) && Lonely(states[i], v)
  {
    if i > 0 {
      SoloPrefixIsLonely(env, states, events, i - 1, v);
      assert StepAt(env, states, events, i - 1) && events[i - 1] == Call(v);
      LonelyStepIsSafe(states[i - 1], v);
      LonelyStaysLonely(env, states[i - 1], states[i], v);
      NextKeepsInvIff(env, states[i - 1], states[i], events[i - 1]);
    }
  }

  lemma SoloRunsAreCareful(env: Env, states: seq<System>, events: seq<Event>, v: Volume)
    requires Orderly(env) && IsRun(env, states, events) && Solo(events, v) && Inv(states[0])
    requires BetweenCalls(states[0], v)
    ensures GoodRun(env, states, events)
  {
    forall i: nat | i < |events| ensures CarefulAt(states, events, i) {
      SoloPrefixIsLonely(env, states, events, i, v);
      LonelyStepIsSafe(states[i], v);
      assert events[i] == Call(v);
    }
  }

  // ---- Exclusive allocation and isolation ----

  /** No two volumes record one device, and a recorded device is reserved for its volume. */
  lemma ExclusiveAllocation(env: Env, states: seq<System>, events: seq<Event>, i: nat)
    requires GoodRun(env, states, events) && i < |states|
    ensures forall v, d :: Records(states[i].host, v, d) ==> Reserved(states[i].host, d, v)
    ensures forall v, u, d :: Records(states[i].host, v, d) && Records(states[i].host, u, d) ==> v == u
  {
    RunKeepsInv(env, states, events, i);
  }

  /** A step of v's call changes state files, mounts and disks of no other volume. */
  lemma StepsStayIsolated(env: Env, states: seq<System>, events: seq<Event>, i: nat, v: Volume, u: Volume)
    requires GoodRun(env, states, events) && i < |events| && events[i] == Call(v) && u != v
    ensures SameFor(states[i].host, states[i + 1].host, u)
  {
    CallStepIsConfined(env, states, events, i, v);
  }

  lemma CallStepIsConfined(env: Env, states: seq<System>, events: seq<Event>, i: nat, v: Volume)
    requires GoodRun(env, states, events) && i < |events| && events[i] == Call(v)
    ensures Inv(states[i]) && Local(states[i].host, At(states[i], v), v)
    ensures Confined(states[i].host, states[i + 1].host, v)
  {
    RunKeepsInv(env, states, events, i);
    var s, s' := states[i], states[i + 1];
    assert StepAt(env, states, events, i) && CarefulAt(states, events, i);
    assert Local(s.host, At(s, v), v);
    ActIsLegal(env, s.host, At(s, v), v, s'.host, At(s', v));
    LegalIsConfined(s.host, v, EffectOf(s.host, At(s, v), v, s'.host, At(s', v)));
  }

  /** A publish of v formats or mounts a device only while that device serves v's disk
      (or nothing at all, in which case mkfs and mount fail). */
  lemma PublishUsesOwnDisk(env: Env, states: seq<System>, events: seq<Event>, i: nat, v: Volume, d: Device)
    requires GoodRun(env, states, events) && i < |states|
    requires At(states[i], v) == Format(d) || At(states[i], v) == MountFs(d)
    ensures d in states[i].host.attached ==> states[i].host.attached[d] == v
  {
    RunKeepsInv(env, states, events, i);
    assert Local(states[i].host, At(states[i], v), v);
  }

  /** Whatever is mounted on v's target over NBD comes from the device v records; that
      device serves v's disk if it is connected, and the disk carries a filesystem. */
  lemma MountedTargetIsBacked(env: Env, states: seq<System>, events: seq<Event>, i: nat, v: Volume, d: Device)
    requires GoodRun(env, states, events) && i < |states|
    requires v in states[i].host.mounts && states[i].host.mounts[v] == Nbd(d)
    ensures Records(states[i].host, v, d) && Reserved(states[i].host, d, v)
    ensures d in states[i].host.attached ==> states[i].host.attached[d] == v
    ensures HasFilesystem(states[i].host, v)
  {
    RunKeepsInv(env, states, events, i);
  }

  /** A connection that a step of v's call makes or breaks is on a device that v records,
      that no other volume records, and that serves no other volume's disk. */
  lemma DetachSafety(env: Env, states: seq<System>, events: seq<Event>, i: nat, v: Volume, d: Device)
    requires GoodRun(env, states, events) && i < |events| && events[i] == Call(v)
    requires !SameConnection(states[i].host, states[i + 1].host, d)
    ensures Records(states[i].host, v, d)
    ensures forall u :: u != v ==> !Records(states[i].host, u, d)
    ensures d in states[i].host.attached ==> states[i].host.attached[d] == v
  {
    CallStepIsConfined(env, states, events, i, v);
  }

  /** The device the call is about to detach, whether or not the detach will succeed. */
  function DetachTarget(pc: Pc): Option<Device> {
    match pc
    case StaleDetach(d) => Some(d)
    case Abort(d) => Some(d)
    case CleanDetach(d) => Some(d)
    case UnpDetach(Dev(d)) => Some(d)
    case _ => None
  }

  lemma DetachTargetsAreOwn(env: Env, states: seq<System>, events: seq<Event>, i: nat, v: Volume, d: Device)
    requires GoodRun(env, states, events) && i < |states|
    requires DetachTarget(At(states[i], v)) == Some(d)
    ensures Records(states[i].host, v, d)
    ensures forall u :: u != v ==> !Records(states[i].host, u, d)
    ensures d in states[i].host.attached ==> states[i].host.attached[d] == v
  {
    RunKeepsInv(env, states, events, i);
    assert Local(states[i].host, At(states[i], v), v);
  }

  /** reserveNBDDevice is always entered without a record, so its reuse branches are
      never taken, and the device it hands to the connect is not connected. */
  lemma FreshDevicePerPublish(env: Env, states: seq<System>, events: seq<Event>, i: nat, v: Volume)
    requires GoodRun(env, states, events) && i < |states|
    ensures At(states[i], v) == ReserveRead ==> Unrecorded(states[i].host, v)
    ensures !At(states[i], v).Reuse? && !(At(states[i], v).ClearRecord? && At(states[i], v).why == MissingDevice)
    ensures At(states[i], v).Connect? ==> At(states[i], v).dev !in states[i].host.attached
  {
    RunKeepsInv(env, states, events, i);
    assert Local(states[i].host, At(states[i], v), v);
  }

  // ---- Write-ahead records ----

  /** v's own detaches succeed and its device's connection state can be read; other volumes
      may have neither. */
  predicate Reliable(env: Env, v: Volume) {
    v !in env.detachFails && v !in env.cleanupFails && v !in env.sysfsFails
  }

  /** A device connected to v's disk is recorded by v. */
  ghost predicate WriteAhead(h: Host, v: Volume) {
    forall d :: d in h.attached && h.attached[d] == v ==> Records(h, v, d)
  }

  /** A clear of device d is due only once d is disconnected. */
  predicate Quiet(h: Host, pc: Pc) {
    match pc
    case Want(ClearRegion(Dev(d), _)) => d !in h.attached
    case ClearRecord(Dev(d), _) => d !in h.attached
    case CleanClear(d) => d !in h.attached
    case CleanDrop(d) => d !in h.attached
    case UnpPod(Dev(d)) => d !in h.attached
    case _ => true
  }

  ghost predicate Ahead(s: System, v: Volume) {
    WriteAhead(s.host, v) && Quiet(s.host, At(s, v))
  }

  lemma LegalKeepsWriteAhead(h: Host, v: Volume, e: Effect, u: Volume)
    requires HostInv(h) && Legal(h, v, e) && WriteAhead(h, u)
    requires u == v && (e == DropsRecord || e.Releases?) ==> forall d :: Records(h, v, d) ==> d !in h.attached
    ensures WriteAhead(Apply(h, v, e), u)
  {
    var h' := Apply(h, v, e);
    forall d | d in h'.attached && h'.attached[d] == u ensures Records(h', u, d) {
      assert Records(h, u, d);
    }
  }

  lemma ActKeepsQuiet(env: Env, h: Host, pc: Pc, v: Volume, h': Host, pc': Pc)
    requires Reliable(env, v) && Local(h, pc, v) && Act(env, h, pc, v, h', pc') && Quiet(h, pc)
    ensures Quiet(h', pc')
  {
    if Reserving(pc) {
      ReserveKeepsQuiet(env, h, pc, v, h', pc');
    } else if Clearing(pc) {
      ClearKeepsQuiet(env, h, pc, v, h', pc');
    } else if Using(pc) {
      UseKeepsQuiet(env, h, pc, v, h', pc');
    } else if Undoing(pc) {
      UndoKeepsQuiet(env, h, pc, v, h', pc');
    } else if Ending(pc) {
      UnpublishKeepsQuiet(env, h, pc, v, h', pc');
    } else {
      StartKeepsQuiet(env, h, pc, v, h', pc');
    }
  }

  lemma ReserveKeepsQuiet(env: Env, h: Host, pc: Pc, v: Volume, h': Host, pc': Pc)
    requires Reliable(env, v) && Local(h, pc, v) && ReserveAct(env, h, pc, v, h', pc') && Quiet(h, pc)
    ensures Quiet(h', pc')
  {
  }

  lemma ClearKeepsQuiet(env: Env, h: Host, pc: Pc, v: Volume, h': Host, pc': Pc)
    requires Reliable(env, v) && Local(h, pc, v) && ClearAct(env, h, pc, v, h', pc') && Quiet(h, pc)
    ensures Quiet(h', pc')
  {
  }

  lemma UseKeepsQuiet(env: Env, h: Host, pc: Pc, v: Volume, h': Host, pc': Pc)
    requires Reliable(env, v) && Local(h, pc, v) && UseAct(env, h, pc, v, h', pc') && Quiet(h, pc)
    ensures Quiet(h', pc')
  {
  }

  lemma UndoKeepsQuiet(env: Env, h: Host, pc: Pc, v: Volume, h': Host, pc': Pc)
    requires Reliable(env, v) && Local(h, pc, v) && UndoAct(env, h, pc, v, h', pc') && Quiet(h, pc)
    ensures Quiet(h', pc')
  {
  }

  lemma UnpublishKeepsQuiet(env: Env, h: Host, pc: Pc, v: Volume, h': Host, pc': Pc)
    requires Reliable(env, v) && Local(h, pc, v) && UnpublishAct(env, h, pc, v, h', pc') && Quiet(h, pc)
    ensures Quiet(h', pc')
  {
  }

  lemma StartKeepsQuiet(env: Env, h: Host, pc: Pc, v: Volume, h': Host, pc': Pc)
    requires Reliable(env, v) && Local(h, pc, v) && StartAct(env, h, pc, v, h', pc') && Quiet(h, pc)
    ensures Quiet(h', pc')
  {
  }

  lemma ActKeepsAhead(env: Env, h: Host, pc: Pc, v: Volume, h': Host, pc': Pc)
    requires Orderly(env) && Reliable(env, v)
    requires HostInv(h) && Local(h, pc, v) && Act(env, h, pc, v, h', pc') && MayRelease(h, pc)
    requires WriteAhead(h, v) && Quiet(h, pc)
    ensures WriteAhead(h', v) && Quiet(h', pc')
  {
    ActIsLegal(env, h, pc, v, h', pc');
    LegalKeepsWriteAhead(h, v, EffectOf(h, pc, v, h', pc'), v);
    ActKeepsQuiet(env, h, pc, v, h', pc');
  }

  lemma NextKeepsAhead(env: Env, s: System, s': System, e: Event, v: Volume)
    requires Orderly(env) && Reliable(env, v)
    requires Inv(s) && Ahead(s, v) && Next(env, s, s', e) && Careful(s, e)
    ensures Ahead(s', v)
  {
    if e.Call? {
      var h, h', pc, pc' := s.host, s'.host, At(s, e.v), At(s', e.v);
      assert Local(h, pc, e.v) && Local(h, At(s, v), v);
      if e.v == v {
        ActKeepsAhead(env, h, pc, v, h', pc');
      } else {
        ActIsLegal(env, h, pc, e.v, h', pc');
        LegalKeepsWriteAhead(h, e.v, EffectOf(h, pc, e.v, h', pc'), v);
        LegalIsConfined(h, e.v, EffectOf(h, pc, e.v, h', pc'));
        QuietIsFramed(h, h', e.v, v, At(s, v));
      }
    } else {
      assert forall d :: Records(s'.host, v, d) <==> Records(s.host, v, d);
    }
  }

  lemma QuietIsFramed(h: Host, h': Host, v: Volume, u: Volume, uc: Pc)
    requires HostInv(h) && Confined(h, h', v) && u != v && Local(h, uc, u) && Quiet(h, uc)
    ensures Quiet(h', uc)
  {
    match uc
    case Want(ClearRegion(Dev(d), _)) => assert SameConnection(h, h', d) || Records(h, v, d);
    case ClearRecord(Dev(d), _) => assert SameConnection(h, h', d) || Records(h, v, d);
    case CleanClear(d) => assert SameConnection(h, h', d) || Records(h, v, d);
    case CleanDrop(d) => assert SameConnection(h, h', d) || Records(h, v, d);
    case UnpPod(Dev(d)) => assert SameConnection(h, h', d) || Records(h, v, d);
    case _ =>
  }

  /** In every state of every run, crashes included, a device connected to v's disk is
      recorded by v, so v never has two devices connected; only v's own detaches and
      connection states matter for this. */
  lemma {:induction false} RecordsAreWrittenAhead(env: Env, states: seq<System>, events: seq<Event>, i: nat, v: Volume)
    requires GoodRun(env, states, events) && Reliable(env, v)
    requires Ahead(states[0], v) && i < |states|
    ensures Ahead(states[i], v)
    ensures forall d, e | d in states[i].host.attached && e in states[i].host.attached ::
              states[i].host.attached[d] == states[i].host.attached[e] == v ==> d == e
  {
    if i > 0 {
      RecordsAreWrittenAhead(env, states, events, i - 1, v);
      RunKeepsInv(env, states, events, i - 1);
      assert StepAt(env, states, events, i - 1) && CarefulAt(states, events, i - 1);
      NextKeepsAhead(env, states[i - 1], states[i], events[i - 1], v);
    }
  }

  /** After a crash at any point, one unpublish of v that runs to its end leaves no record and
      no mount of v, and whatever reservation still names v is one the next scan removes; if
      v's own detaches succeed, no device is left connected to v. */
  lemma UnpublishRecovers(env: Env, states: seq<System>, events: seq<Event>, i: nat, v: Volume)
    requires GoodRun(env, states, events) && i < |states|
    requires At(states[i], v) == Idle(Unpublished)
    ensures v !in states[i].host.records && v !in states[i].host.mounts
    ensures forall d :: Reserved(states[i].host, d, v) ==> Orphaned(states[i].host, d)
    ensures Reliable(env, v) && Ahead(states[0], v) ==>
              forall d :: d in states[i].host.attached ==> states[i].host.attached[d] != v
  {
    RunKeepsInv(env, states, events, i);
    assert Local(states[i].host, At(states[i], v), v);
    if Reliable(env, v) && Ahead(states[0], v) {
      RecordsAreWrittenAhead(env, states, events, i, v);
    }
  }

  // ---- Disks ----

  /** A disk is formatted at most once, and a call about to format v's disk over a live
      connection has an unformatted disk before it. */
  ghost predicate FormattedOnce(s: System) {
    && (forall v :: v in s.host.disks ==> s.host.disks[v].formats <= 1)
    && (forall v :: AwaitsFormat(s.host, At(s, v)) ==> !HasFilesystem(s.host, v))
  }

  predicate AwaitsFormat(h: Host, pc: Pc) {
    pc.Format? && pc.dev in h.attached
  }

  lemma CallKeepsFormatCounts(env: Env, s: System, s': System, v: Volume)
    requires Orderly(env) && Inv(s) && FormattedOnce(s)
    requires VolumeStep(env, s, s', v) && ClearIsSafe(s, v)
    ensures forall u :: u in s'.host.disks ==> s'.host.disks[u].formats <= 1
  {
    var h, h' := s.host, s'.host;
    assert Local(h, At(s, v), v);
    assert AwaitsFormat(h, At(s, v)) ==> !HasFilesystem(h, v);
    ActIsLegal(env, h, At(s, v), v, h', At(s', v));
  }

  lemma ProbeIsTruthful(env: Env, h: Host, pc: Pc, v: Volume, h': Host, pc': Pc)
    requires env.blkidTruthful && Owned(h) && Local(h, pc, v) && UseAct(env, h, pc, v, h', pc')
    requires AwaitsFormat(h', pc')
    ensures !HasFilesystem(h', v)
  {
  }

  lemma AwaitedFormatIsFramed(h: Host, h': Host, v: Volume, u: Volume, uc: Pc)
    requires HostInv(h) && Confined(h, h', v) && u != v && Local(h, uc, u)
    requires AwaitsFormat(h, uc) ==> !HasFilesystem(h, u)
    ensures AwaitsFormat(h', uc) ==> !HasFilesystem(h', u)
  {
    if uc.Format? {
      assert SameFor(h, h', u);
      assert SameConnection(h, h', uc.dev) || Records(h, v, uc.dev);
    }
  }

  lemma NextKeepsFormats(env: Env, s: System, s': System, e: Event)
    requires Orderly(env) && env.blkidTruthful && Inv(s) && FormattedOnce(s)
    requires Next(env, s, s', e) && Careful(s, e)
    ensures FormattedOnce(s')
  {
    match e
    case Call(v) =>
      var h, h' := s.host, s'.host;
      assert Local(h, At(s, v), v);
      CallKeepsFormatCounts(env, s, s', v);
      if AwaitsFormat(h', At(s', v)) {
        StepsLead(env, h, At(s, v), v, h', At(s', v));
        ProbeIsTruthful(env, h, At(s, v), v, h', At(s', v));
      }
      ActIsLegal(env, h, At(s, v), v, h', At(s', v));
      LegalIsConfined(h, v, EffectOf(h, At(s, v), v, h', At(s', v)));
      forall u | u != v ensures AwaitsFormat(h', At(s', u)) ==> !HasFilesystem(h', u) {
        assert At(s', u) == At(s, u) && Local(h, At(s, u), u);
        AwaitedFormatIsFramed(h, h', v, u, At(s, u));
      }
    case _ =>
      forall u | AwaitsFormat(s'.host, At(s', u)) ensures !HasFilesystem(s'.host, u) {
        assert AwaitsFormat(s.host, At(s, u));
      }
  }

  /** Over every run each disk is formatted at most once and sized exactly when it was absent. */
  lemma {:induction false} DataIsNeverReformatted(env: Env, states: seq<System>, events: seq<Event>, i: nat)
    requires GoodRun(env, states, events) && env.blkidTruthful && FormattedOnce(states[0]) && i < |states|
    ensures FormattedOnce(states[i])
    ensures forall v :: v in states[i].host.disks ==>
              states[i].host.disks[v].formats <= 1 && states[i].host.disks[v].sizings == 1
  {
    RunKeepsInv(env, states, events, i);
    if i > 0 {
      DataIsNeverReformatted(env, states, events, i - 1);
      RunKeepsInv(env, states, events, i - 1);
      assert StepAt(env, states, events, i - 1) && CarefulAt(states, events, i - 1);
      NextKeepsFormats(env, states[i - 1], states[i], events[i - 1]);
    }
  }

  // ---- No leaks ----

  /** Every reservation that names v is the one v records or is just making or freeing, and
      v's state file is empty only between its creation and its writing. */
  ghost predicate Tidy(h: Host, pc: Pc, v: Volume) {
    && (forall d :: Reserved(h, d, v) ==>
          || Records(h, v, d) || pc == Truncate(d) || pc == Fill(d)
          || (pc.ClearReservation? && pc.src == Dev(d)) || pc == CleanRelease(d))
    && (v in h.records && h.records[v] == Empty ==> pc.Fill?)
  }

  lemma ReserveKeepsTidy(env: Env, h: Host, pc: Pc, v: Volume, h': Host, pc': Pc)
    requires Orderly(env) && Local(h, pc, v) && ReserveAct(env, h, pc, v, h', pc') && Tidy(h, pc, v)
    ensures Tidy(h', pc', v)
  {
    ReserveKeepsRecordTidy(env, h, pc, v, h', pc');
    if pc.Discard? || (pc.Truncate? && pc' == CleanUmount) {
      assert forall d :: Reserved(h', d, v) ==> Reserved(h, d, v) && d != pc.dev;
    } else {
      ReserveMakesReservation(env, h, pc, v, h', pc');
      assert forall d :: Reserved(h', d, v) ==> Reserved(h, d, v) || pc == Name(d);
    }
  }

  lemma ReserveKeepsRecordTidy(env: Env, h: Host, pc: Pc, v: Volume, h': Host, pc': Pc)
    requires Orderly(env) && Local(h, pc, v) && ReserveAct(env, h, pc, v, h', pc') && Tidy(h, pc, v)
    ensures v in h'.records && h'.records[v] == Empty ==> pc'.Fill?
  {
  }

  lemma ClearKeepsTidy(env: Env, h: Host, pc: Pc, v: Volume, h': Host, pc': Pc)
    requires Orderly(env) && Local(h, pc, v) && ClearAct(env, h, pc, v, h', pc') && Tidy(h, pc, v)
    ensures Tidy(h', pc', v)
  {
    assert forall d :: Reserved(h', d, v) ==> Reserved(h, d, v);
  }

  lemma OwnActKeepsTidy(env: Env, h: Host, pc: Pc, v: Volume, h': Host, pc': Pc)
    requires Orderly(env) && HostInv(h) && Local(h, pc, v) && Act(env, h, pc, v, h', pc') && Tidy(h, pc, v)
    ensures Tidy(h', pc', v)
  {
    if Reserving(pc) {
      ReserveKeepsTidy(env, h, pc, v, h', pc');
    } else if Clearing(pc) {
      ClearKeepsTidy(env, h, pc, v, h', pc');
    } else {
      UnlockedAct(env, h, pc, v, h', pc');
      SameIndexesStayTidy(h, pc, v, h', pc');
    }
  }

  lemma SameIndexesStayTidy(h: Host, pc: Pc, v: Volume, h': Host, pc': Pc)
    requires Tidy(h, pc, v) && !Reserving(pc) && !Clearing(pc)
    requires h'.records == h.records && h'.reservations == h.reservations
    ensures Tidy(h', pc', v)
  {
    assert forall d :: Reserved(h', d, v) ==> Reserved(h, d, v) && Records(h, v, d) && Records(h', v, d);
  }

  /** A legal change of v's makes no reservation and no record for another volume, and
      connects no device to it. */
  lemma LegalLeavesOthers(h: Host, v: Volume, e: Effect, u: Volume)
    requires HostInv(h) && Legal(h, v, e) && u != v
    ensures forall d :: Reserved(Apply(h, v, e), d, u) ==> Reserved(h, d, u)
    ensures forall d :: Records(Apply(h, v, e), u, d) <==> Records(h, u, d)
    ensures SameFor(h, Apply(h, v, e), u)
    ensures forall d | d in Apply(h, v, e).attached ::
              Apply(h, v, e).attached[d] == u ==> d in h.attached && h.attached[d] == u
  {
  }

  /** Runs of a driver that does not crash. */
  ghost predicate CrashFree(events: seq<Event>) {
    forall i :: 0 <= i < |events| ==> events[i] != Crash
  }

  lemma CallKeepsTidy(env: Env, s: System, s': System, u: Volume, v: Volume)
    requires Orderly(env) && Inv(s) && Tidy(s.host, At(s, v), v)
    requires VolumeStep(env, s, s', u) && ClearIsSafe(s, u)
    ensures Tidy(s'.host, At(s', v), v)
  {
    assert Local(s.host, At(s, u), u);
    if u == v {
      OwnActKeepsTidy(env, s.host, At(s, v), v, s'.host, At(s', v));
    } else {
      ActIsLegal(env, s.host, At(s, u), u, s'.host, At(s', u));
      LegalLeavesOthers(s.host, u, EffectOf(s.host, At(s, u), u, s'.host, At(s', u)), v);
    }
  }

  lemma {:induction false} TidyStaysTidy(env: Env, states: seq<System>, events: seq<Event>, i: nat, v: Volume)
    requires GoodRun(env, states, events) && CrashFree(events) && i < |states|
    requires Tidy(states[0].host, At(states[0], v), v)
    ensures Tidy(states[i].host, At(states[i], v), v)
  {
    if i > 0 {
      TidyStaysTidy(env, states, events, i - 1, v);
      StepKeepsTidy(env, states, events, i - 1, v);
    }
  }

  lemma StepKeepsTidy(env: Env, states: seq<System>, events: seq<Event>, k: nat, v: Volume)
    requires GoodRun(env, states, events) && CrashFree(events) && k < |events|
    requires Tidy(states[k].host, At(states[k], v), v)
    ensures Tidy(states[k + 1].host, At(states[k + 1], v), v)
  {
    RunKeepsInv(env, states, events, k);
    assert StepAt(env, states, events, k) && CarefulAt(states, events, k) && events[k] != Crash;
    EventKeepsTidy(env, states[k], states[k + 1], events[k], v);
  }

  lemma EventKeepsTidy(env: Env, s: System, s': System, e: Event, v: Volume)
    requires Orderly(env) && Inv(s) && Tidy(s.host, At(s, v), v)
    requires Next(env, s, s', e) && Careful(s, e) && e != Crash
    ensures Tidy(s'.host, At(s', v), v)
  {
    if e.Call? {
      CallKeepsTidy(env, s, s', e.v, v);
    } else {
      assert At(s', v) == At(s, v);
      assert forall d :: Reserved(s'.host, d, v) ==> Reserved(s.host, d, v);
      assert forall d :: Records(s.host, v, d) ==> Records(s'.host, v, d);
    }
  }

  /** Whatever other volumes do meanwhile: of a volume that starts blank there is no record,
      no mount and no reservation whenever its last call was an unpublish or a publish that
      failed, at whatever stage; and if its own detaches succeed, it is blank again. */
  lemma NoLeak(env: Env, states: seq<System>, events: seq<Event>, i: nat, v: Volume)
    requires GoodRun(env, states, events) && CrashFree(events)
    requires Blank(states[0].host, v) && Quiet(states[0].host, At(states[0], v)) && i < |states|
    requires At(states[i], v) == Idle(Unpublished) || At(states[i], v) == Idle(Failed)
    ensures Traceless(states[i].host, v)
    ensures Reliable(env, v) ==> Blank(states[i].host, v)
  {
    TidyStaysTidy(env, states, events, i, v);
    RunKeepsInv(env, states, events, i);
    assert Local(states[i].host, At(states[i], v), v);
    if Reliable(env, v) {
      RecordsAreWrittenAhead(env, states, events, i, v);
    }
  }

  /** The regression script's claim for every run: when no volume is published and no call
      is in flight, nothing is recorded or mounted, no reservation names a volume, and what
      is still connected serves a volume whose own detach failed or whose device could not
      be read. */
  lemma NothingLeaksAtRest(env: Env, states: seq<System>, events: seq<Event>, i: nat)
    requires GoodRun(env, states, events) && CrashFree(events)
    requires FreshNode(states[0]) && (forall d, v :: !Reserved(states[0].host, d, v)) && i < |states|
    requires forall v :: At(states[i], v) in {Idle(Never), Idle(Unpublished), Idle(Failed)}
    ensures states[i].host.records == map[]
    ensures states[i].host.mounts == map[]
    ensures forall d, v :: !Reserved(states[i].host, d, v)
    ensures forall d :: d in states[i].host.attached ==> !Reliable(env, states[i].host.attached[d])
  {
    var h := states[i].host;
    forall v ensures Traceless(h, v) && (Reliable(env, v) ==> Blank(h, v)) {
      assert Blank(states[0].host, v) && Quiet(states[0].host, At(states[0], v));
      if At(states[i], v) == Idle(Never) {
        UntouchedStaysBlank(env, states, events, i, v);
      } else {
        assert At(states[i], v) in {Idle(Never), Idle(Unpublished), Idle(Failed)};
        NoLeak(env, states, events, i, v);
      }
    }
    assert forall v :: v in h.records ==> Traceless(h, v);
    assert h.records.Keys == {};
    assert forall v :: v in h.mounts ==> Traceless(h, v);
    assert h.mounts.Keys == {};
    assert forall d, v :: Reserved(h, d, v) ==> Traceless(h, v);
    forall d | d in h.attached ensures !Reliable(env, h.attached[d]) {
      assert Reliable(env, h.attached[d]) ==> Blank(h, h.attached[d]);
    }
  }

  lemma {:induction false} UntouchedStaysBlank(env: Env, states: seq<System>, events: seq<Event>, i: nat, v: Volume)
    requires GoodRun(env, states, events) && CrashFree(events) && i < |states|
    requires Blank(states[0].host, v) && At(states[i], v) == Idle(Never)
    ensures Blank(states[i].host, v)
  {
    if i > 0 {
      var s, s', e := states[i - 1], states[i], events[i - 1];
      assert StepAt(env, states, events, i - 1) && CarefulAt(states, events, i - 1) && e != Crash;
      RunKeepsInv(env, states, events, i - 1);
      if e.Call? {
        if e.v == v {
          StepsLead(env, s.host, At(s, v), v, s'.host, At(s', v));
          assert false;
        }
        assert At(s, v) == At(s', v);
        UntouchedStaysBlank(env, states, events, i - 1, v);
        CallLeavesOthersBlank(env, s, s', e.v, v);
      } else {
        assert At(s', v) == At(s, v);
        UntouchedStaysBlank(env, states, events, i - 1, v);
        assert forall d :: Reserved(s'.host, d, v) ==> Reserved(s.host, d, v);
      }
    }
  }

  lemma CallLeavesOthersBlank(env: Env, s: System, s': System, u: Volume, v: Volume)
    requires Orderly(env) && Inv(s) && u != v && Blank(s.host, v)
    requires VolumeStep(env, s, s', u) && ClearIsSafe(s, u)
    ensures Blank(s'.host, v)
  {
    assert Local(s.host, At(s, u), u);
    ActIsLegal(env, s.host, At(s, u), u, s'.host, At(s', u));
    LegalLeavesOthers(s.host, u, EffectOf(s.host, At(s, u), u, s'.host, At(s', u)), v);
  }

  // ---- One volume by itself: what a publish and unpublish cycle restores ----

  /** In h the reservation on d is empty or names a volume that does not record d. */
  predicate StaleReservation(h: Host, d: Device) {
    d in h.reservations && (h.reservations[d].Holds? ==> !Records(h, h.reservations[d].value, d))
  }

  /** h differs from h0 by v's own doings and by stale reservations that were collected. */
  ghost predicate Departs(h0: Host, h: Host, pc: Pc, v: Volume) {
    && (forall u :: u != v ==> SameFor(h0, h, u))
    && (forall d :: ConnectionKept(h0, h, v, d))
    && (forall d :: ReservationKept(h0, h, pc, v, d))
  }

  predicate ConnectionKept(h0: Host, h: Host, v: Volume, d: Device) {
    if d in h.attached && h.attached[d] == v then d !in h0.attached else SameConnection(h0, h, d)
  }

  predicate ReservationKept(h0: Host, h: Host, pc: Pc, v: Volume, d: Device) {
    || (d in h0.reservations && d in h.reservations && h.reservations[d] == h0.reservations[d])
    || ((d in h0.reservations ==> StaleReservation(h0, d)) &&
        (d in h.reservations ==> h.reservations[d] == Holds(v) || pc == Name(d)))
  }

  lemma LegalKeepsDeparture(h0: Host, h: Host, v: Volume, e: Effect)
    requires HostInv(h) && Legal(h, v, e)
    requires (forall u :: u != v ==> SameFor(h0, h, u)) && (forall d :: ConnectionKept(h0, h, v, d))
    ensures forall u :: u != v ==> SameFor(h0, Apply(h, v, e), u)
    ensures forall d :: ConnectionKept(h0, Apply(h, v, e), v, d)
  {
    var h' := Apply(h, v, e);
    LegalIsConfined(h, v, e);
    forall u | u != v ensures SameFor(h0, h', u) {
      assert SameFor(h0, h, u) && SameFor(h, h', u);
    }
    forall d ensures ConnectionKept(h0, h', v, d) {
      assert ConnectionKept(h0, h, v, d);
      assert SameConnection(h, h', d) || Records(h, v, d);
    }
  }

  lemma SoloStepDeparts(env: Env, h0: Host, h: Host, pc: Pc, v: Volume, h': Host, pc': Pc)
    requires Orderly(env) && HostInv(h) && Local(h, pc, v) && Act(env, h, pc, v, h', pc') && MayRelease(h, pc)
    requires Tidy(h, pc, v) && (forall d :: !Reserved(h0, d, v))
    requires Departs(h0, h, pc, v)
    ensures Departs(h0, h', pc', v)
  {
    ActIsLegal(env, h, pc, v, h', pc');
    LegalKeepsDeparture(h0, h, v, EffectOf(h, pc, v, h', pc'));
    forall d ensures ReservationKept(h0, h', pc', v, d) {
      assert ReservationKept(h0, h, pc, v, d);
      assert forall w :: Reserved(h, d, w) && w != v ==> SameFor(h0, h, w);
      SoloStepKeepsReservation(env, h0, h, pc, v, h', pc', d);
    }
  }

  lemma SoloStepKeepsReservation(env: Env, h0: Host, h: Host, pc: Pc, v: Volume, h': Host, pc': Pc, d: Device)
    requires Orderly(env) && HostInv(h) && Local(h, pc, v) && Act(env, h, pc, v, h', pc') && MayRelease(h, pc)
    requires Tidy(h, pc, v) && !Reserved(h0, d, v) && ReservationKept(h0, h, pc, v, d)
    requires forall w :: Reserved(h, d, w) && w != v ==> SameFor(h0, h, w)
    ensures ReservationKept(h0, h', pc', v, d)
  {
    if Reserving(pc) {
      ReserveKeepsReservation(env, h0, h, pc, v, h', pc', d);
    } else if Clearing(pc) {
      ClearKeepsReservation(env, h0, h, pc, v, h', pc', d);
    } else {
      UnlockedAct(env, h, pc, v, h', pc');
    }
  }

  lemma ClearKeepsReservation(env: Env, h0: Host, h: Host, pc: Pc, v: Volume, h': Host, pc': Pc, d: Device)
    requires Exclusive(h) && Local(h, pc, v) && ClearAct(env, h, pc, v, h', pc') && MayRelease(h, pc)
    requires ReservationKept(h0, h, pc, v, d) && !Reserved(h0, d, v)
    requires forall w :: Reserved(h, d, w) && w != v ==> SameFor(h0, h, w)
    ensures ReservationKept(h0, h', pc', v, d)
  {
    if pc.ClearReservation? && pc.src.Dev? {
      RemovalKeepsReservation(h0, h, pc, v, pc.src.dev, h', pc', d);
    } else if pc.CleanRelease? {
      RemovalKeepsReservation(h0, h, pc, v, pc.dev, h', pc', d);
    } else if pc.CleanClear? {
      assert Reserved(h, pc.dev, v);
      RemovalKeepsReservation(h0, h, pc, v, pc.dev, h', pc', d);
    }
  }

  /** Removing v's own reservation, or one of a device that nobody records, loses at most a
      reservation that was stale to begin with. */
  lemma RemovalKeepsReservation(h0: Host, h: Host, pc: Pc, v: Volume, e: Device, h': Host, pc': Pc, d: Device)
    requires ReservationKept(h0, h, pc, v, d) && !pc.Name? && !Reserved(h0, d, v)
    requires (Unclaimed(h, e) || Reserved(h, e, v)) && h'.reservations == h.reservations - {e}
    requires forall w :: Reserved(h, d, w) && w != v ==> SameFor(h0, h, w)
    ensures ReservationKept(h0, h', pc', v, d)
  {
    if d == e && d in h.reservations && h.reservations[d].Holds? {
      var w := h.reservations[d].value;
      assert Reserved(h, d, w);
      assert w != v ==> (Records(h0, w, d) <==> Records(h, w, d));
    }
  }

  lemma ReserveKeepsReservation(env: Env, h0: Host, h: Host, pc: Pc, v: Volume, h': Host, pc': Pc, d: Device)
    requires Orderly(env) && Local(h, pc, v) && ReserveAct(env, h, pc, v, h', pc')
    requires Tidy(h, pc, v) && ReservationKept(h0, h, pc, v, d)
    requires forall w :: Reserved(h, d, w) && w != v ==> SameFor(h0, h, w)
    requires !Reserved(h0, d, v)
    ensures ReservationKept(h0, h', pc', v, d)
  {
    if pc.Discard? || (pc.Truncate? && pc' == CleanUmount) {
      RemovalKeepsReservation(h0, h, pc, v, pc.dev, h', pc', d);
    } else {
      ReserveMakesReservation(env, h, pc, v, h', pc');
    }
  }

  /** Otherwise a reserving call changes a reservation only to make its own. */
  lemma ReserveMakesReservation(env: Env, h: Host, pc: Pc, v: Volume, h': Host, pc': Pc)
    requires Orderly(env) && Local(h, pc, v) && ReserveAct(env, h, pc, v, h', pc')
    requires !pc.Discard? && !(pc.Truncate? && pc' == CleanUmount)
    ensures || (h'.reservations == h.reservations && !pc.Name? && !pc'.Name?)
            || (pc.Create? && pc.dev !in h.reservations && pc' == Name(pc.dev)
                && h'.reservations == h.reservations[pc.dev := Empty])
            || (pc.Name? && h'.reservations == h.reservations[pc.dev := Holds(v)])
  {
  }

  lemma {:induction false} SoloRunDeparts(env: Env, states: seq<System>, events: seq<Event>, i: nat, v: Volume)
    requires GoodRun(env, states, events) && Solo(events, v) && i < |states|
    requires Blank(states[0].host, v) && At(states[0], v).Idle?
    ensures Departs(states[0].host, states[i].host, At(states[i], v), v)
  {
    if i > 0 {
      var s, s' := states[i - 1], states[i];
      assert events[i - 1] == Call(v) && StepAt(env, states, events, i - 1) && CarefulAt(states, events, i - 1);
      SoloRunDeparts(env, states, events, i - 1, v);
      TidyStaysTidy(env, states, events, i - 1, v);
      RunKeepsInv(env, states, events, i - 1);
      assert Local(s.host, At(s, v), v);
      SoloStepDeparts(env, states[0].host, s.host, At(s, v), v, s'.host, At(s', v));
    }
  }

  ghost predicate Restored(h0: Host, h: Host, v: Volume) {
    && h.attached == h0.attached
    && h.mounts == h0.mounts
    && h.records == h0.records
    && h.disks - {v} == h0.disks - {v}
    && (forall d :: d in h.reservations ==> d in h0.reservations && h.reservations[d] == h0.reservations[d])
    && (forall d :: d in h0.reservations && d !in h.reservations ==> StaleReservation(h0, d))
  }

  /** A host that departs from h0 and on which v is blank again is h0 restored. */
  lemma BlankDepartureIsRestored(h0: Host, h: Host, pc: Pc, v: Volume)
    requires Departs(h0, h, pc, v) && Blank(h0, v) && Blank(h, v) && !pc.Name?
    ensures Restored(h0, h, v)
  {
    forall u | u != v
      ensures u in h.records ==> u in h0.records && h.records[u] == h0.records[u]
      ensures u in h0.records ==> u in h.records
      ensures u in h.mounts ==> u in h0.mounts && h.mounts[u] == h0.mounts[u]
      ensures u in h0.mounts ==> u in h.mounts
      ensures u in h.disks ==> u in h0.disks && h.disks[u] == h0.disks[u]
      ensures u in h0.disks ==> u in h.disks
    {
      assert SameFor(h0, h, u);
    }
    forall d
      ensures d in h.attached ==> d in h0.attached && h.attached[d] == h0.attached[d]
      ensures d in h0.attached ==> d in h.attached
    {
      assert ConnectionKept(h0, h, v, d);
    }
    forall d
      ensures d in h.reservations ==> d in h0.reservations && h.reservations[d] == h0.reservations[d]
      ensures d in h0.reservations && d !in h.reservations ==> StaleReservation(h0, d)
    {
      assert ReservationKept(h0, h, pc, v, d) && !Reserved(h, d, v);
    }
  }

  /** Any number of publishes and unpublishes of a volume that starts blank, each publish
      stopping at whatever stage, restores the connections, the mounts, the records, every
      other disk and all reservations but stale ones that a scan collected. */
  lemma CycleRestoresNode(env: Env, states: seq<System>, events: seq<Event>, v: Volume)
    requires GoodRun(env, states, events) && Solo(events, v) && Reliable(env, v)
    requires Blank(states[0].host, v) && At(states[0], v).Idle?
    requires At(states[|events|], v) == Idle(Unpublished) || At(states[|events|], v) == Idle(Failed)
    ensures Restored(states[0].host, states[|events|].host, v)
  {
    var n := |events|;
    SoloRunDeparts(env, states, events, n, v);
    NoLeak(env, states, events, n, v);
    BlankDepartureIsRestored(states[0].host, states[n].host, At(states[n], v), v);
  }

  // ---- Idempotence ----

  /** What a step of the system does to the volumes that are not stepping. */
  lemma NextKeepsOthers(env: Env, s: System, s': System, e: Event, v: Volume)
    requires Orderly(env) && Inv(s) && Next(env, s, s', e) && Careful(s, e) && e != Call(v)
    ensures SameFor(s.host, s'.host, v)
    ensures At(s', v) == if e == Crash then Interrupt(At(s, v)) else At(s, v)
  {
    if e.Call? {
      var h, h', pc, pc' := s.host, s'.host, At(s, e.v), At(s', e.v);
      assert Local(h, pc, e.v);
      ActIsLegal(env, h, pc, e.v, h', pc');
      LegalIsConfined(h, e.v, EffectOf(h, pc, e.v, h', pc'));
    }
  }

  /** v is published, and between calls or in a repeated publish. */
  predicate Republishing(h: Host, pc: Pc, v: Volume) {
    v in h.mounts && h.mounts[v].Nbd? && (pc == Idle(Published) || pc == Idle(Interrupted) || pc == Check)
  }

  lemma PublishedIsRecorded(s: System, v: Volume)
    requires Inv(s) && (At(s, v) == Idle(Published) || Republishing(s.host, At(s, v), v))
    ensures Republishing(s.host, At(s, v), v) && Records(s.host, v, s.host.mounts[v].dev)
  {
    assert Local(s.host, At(s, v), v);
  }

  lemma EventKeepsPublished(env: Env, s: System, s': System, e: Event, v: Volume)
    requires Orderly(env) && Inv(s) && Next(env, s, s', e) && Careful(s, e)
    requires Republishing(s.host, At(s, v), v) && At(s', v) != UnpFind
    ensures Republishing(s'.host, At(s', v), v) && SameFor(s.host, s'.host, v)
    ensures e == Call(v) ==> s'.host == s.host && (At(s, v) == Check ==> At(s', v) == Idle(Published))
  {
    if e != Call(v) {
      NextKeepsOthers(env, s, s', e, v);
    }
  }

  /** From state i to state j, v's call is never at pc. */
  ghost predicate StaysOff(states: seq<System>, i: nat, j: nat, v: Volume, pc: Pc)
    requires j < |states|
  {
    forall k :: i <= k <= j ==> At(states[k], v) != pc
  }

  lemma RepublishedIsRecorded(env: Env, states: seq<System>, events: seq<Event>, k: nat, v: Volume)
    requires GoodRun(env, states, events) && k < |states| && Republishing(states[k].host, At(states[k], v), v)
    ensures Records(states[k].host, v, states[k].host.mounts[v].dev)
  {
    RunKeepsInv(env, states, events, k);
    PublishedIsRecorded(states[k], v);
  }

  lemma StepKeepsPublished(env: Env, states: seq<System>, events: seq<Event>, k: nat, v: Volume)
    requires GoodRun(env, states, events) && k < |events|
    requires Republishing(states[k].host, At(states[k], v), v) && At(states[k + 1], v) != UnpFind
    ensures Republishing(states[k + 1].host, At(states[k + 1], v), v)
    ensures SameFor(states[k].host, states[k + 1].host, v)
    ensures events[k] == Call(v) ==>
              && states[k + 1].host == states[k].host
              && (At(states[k], v) == Check ==> At(states[k + 1], v) == Idle(Published))
  {
    RunKeepsInv(env, states, events, k);
    assert StepAt(env, states, events, k) && CarefulAt(states, events, k);
    EventKeepsPublished(env, states[k], states[k + 1], events[k], v);
  }

  lemma {:induction false} PublishedStays(env: Env, states: seq<System>, events: seq<Event>, i: nat, j: nat, v: Volume)
    requires GoodRun(env, states, events) && i <= j < |states| && At(states[i], v) == Idle(Published)
    requires StaysOff(states, i, j, v, UnpFind)
    ensures Republishing(states[j].host, At(states[j], v), v)
    ensures SameFor(states[i].host, states[j].host, v)
  {
    if i == j {
      RunKeepsInv(env, states, events, j);
      PublishedIsRecorded(states[j], v);
    } else {
      PublishedStays(env, states, events, i, j - 1, v);
      StepKeepsPublished(env, states, events, j - 1, v);
    }
  }

  /** Publishing a published volume again returns success and changes nothing, whatever other
      volumes do and however often the driver crashes: until an unpublish begins, v keeps its
      record, its mount and its disk, and the target is mounted from the device v records; and
      every step of a publish of v leaves the whole host alone and leads to success. */
  lemma PublishTwiceIsPublishOnce(env: Env, states: seq<System>, events: seq<Event>, i: nat, j: nat, v: Volume)
    requires GoodRun(env, states, events) && i <= j < |states| && At(states[i], v) == Idle(Published)
    requires StaysOff(states, i, j, v, UnpFind)
    ensures Republishing(states[j].host, At(states[j], v), v) && SameFor(states[i].host, states[j].host, v)
    ensures Records(states[j].host, v, states[j].host.mounts[v].dev)
    ensures i < j && events[j - 1] == Call(v) ==>
              && states[j].host == states[j - 1].host
              && (At(states[j - 1], v) == Check ==> At(states[j], v) == Idle(Published))
  {
    PublishedStays(env, states, events, i, j, v);
    RepublishedIsRecorded(env, states, events, j, v);
    if i < j {
      PublishedStays(env, states, events, i, j - 1, v);
      StepKeepsPublished(env, states, events, j - 1, v);
    }
  }

  /** An unpublish in flight on a volume that has neither record nor mount. */
  predicate Repeating(h: Host, pc: Pc, v: Volume) {
    && v !in h.records && v !in h.mounts
    && match pc
       case Idle(last) => last == Unpublished || last == Interrupted
       case UnpFind => true
       case UnpUmount(src) => src == Unknown
       case UnpRead(src) => src == Unknown
       case UnpDetach(src) => src == Unknown
       case UnpPod(src) => src == Unknown
       case Want(r) => r == ClearRegion(Unknown, Unpublishing)
       case ClearRecord(src, why) => src == Unknown && why == Unpublishing
       case ClearReservation(src, why) => src == Unknown && why == Unpublishing
       case _ => false
  }

  /** Repeating an unpublish changes no device, mount or index at any of its steps. */
  lemma UnpublishTwiceIsUnpublishOnce(env: Env, h: Host, pc: Pc, v: Volume, h': Host, pc': Pc)
    requires Repeating(h, pc, v) && Act(env, h, pc, v, h', pc') && pc' != Check
    ensures h' == h && Repeating(h', pc', v)
  {
    RepeatingPc(h, pc, v);
    if Ending(pc) {
      RepeatedUnpublishStep(env, h, pc, v, h', pc');
    } else if Clearing(pc) {
      RepeatedClearStep(env, h, pc, v, h', pc');
    } else {
      RepeatedStartStep(env, h, pc, v, h', pc');
    }
  }

  lemma RepeatingPc(h: Host, pc: Pc, v: Volume)
    requires Repeating(h, pc, v)
    ensures Ending(pc) || Clearing(pc) || Starting(pc)
  {
  }

  lemma RepeatedUnpublishStep(env: Env, h: Host, pc: Pc, v: Volume, h': Host, pc': Pc)
    requires Repeating(h, pc, v) && UnpublishAct(env, h, pc, v, h', pc')
    ensures h' == h && Repeating(h', pc', v)
  {
    assert h.mounts - {v} == h.mounts;
  }

  lemma RepeatedStartStep(env: Env, h: Host, pc: Pc, v: Volume, h': Host, pc': Pc)
    requires Repeating(h, pc, v) && StartAct(env, h, pc, v, h', pc') && pc' != Check
    ensures h' == h && Repeating(h', pc', v)
  {
  }

  lemma RepeatedClearStep(env: Env, h: Host, pc: Pc, v: Volume, h': Host, pc': Pc)
    requires Repeating(h, pc, v) && ClearAct(env, h, pc, v, h', pc')
    ensures h' == h && Repeating(h', pc', v)
  {
    assert h.records - {v} == h.records;
  }

  /** Repeated unpublishes, whatever other volumes do meanwhile and however often the driver
      crashes: until a publish begins, v's steps leave the whole host alone, and v's record,
      mount and disk stay as they are. */
  lemma {:induction false} RepeatedUnpublishChangesNothing(env: Env, states: seq<System>, events: seq<Event>,
                                                           i: nat, j: nat, v: Volume)
    requires GoodRun(env, states, events) && i <= j < |states| && At(states[i], v) == Idle(Unpublished)
    requires StaysOff(states, i, j, v, Check)
    ensures Repeating(states[j].host, At(states[j], v), v) && SameFor(states[i].host, states[j].host, v)
    ensures i < j && events[j - 1] == Call(v) ==> states[j].host == states[j - 1].host
  {
    if i == j {
      RunKeepsInv(env, states, events, i);
      assert Local(states[i].host, At(states[i], v), v);
    } else {
      RepeatedUnpublishChangesNothing(env, states, events, i, j - 1, v);
      StepKeepsUnpublished(env, states, events, j - 1, v);
    }
  }

  lemma StepKeepsUnpublished(env: Env, states: seq<System>, events: seq<Event>, k: nat, v: Volume)
    requires GoodRun(env, states, events) && k < |events|
    requires Repeating(states[k].host, At(states[k], v), v) && At(states[k + 1], v) != Check
    ensures Repeating(states[k + 1].host, At(states[k + 1], v), v)
    ensures SameFor(states[k].host, states[k + 1].host, v)
    ensures events[k] == Call(v) ==> states[k + 1].host == states[k].host
  {
    RunKeepsInv(env, states, events, k);
    assert StepAt(env, states, events, k) && CarefulAt(states, events, k);
    EventKeepsUnpublished(env, states[k], states[k + 1], events[k], v);
  }

  lemma EventKeepsUnpublished(env: Env, s: System, s': System, e: Event, v: Volume)
    requires Orderly(env) && Inv(s) && Next(env, s, s', e) && Careful(s, e)
    requires Repeating(s.host, At(s, v), v) && At(s', v) != Check
    ensures Repeating(s'.host, At(s', v), v) && SameFor(s.host, s'.host, v)
    ensures e == Call(v) ==> s'.host == s.host
  {
    if e == Call(v) {
      UnpublishTwiceIsUnpublishOnce(env, s.host, At(s, v), v, s'.host, At(s', v));
    } else {
      NextKeepsOthers(env, s, s', e, v);
    }
  }
}
