/**
 Each assumption of Env is needed.  For every one there is a run that starts on a fresh
 node, uses all the other assumptions, and ends with a guarantee broken; and there is the
 exact condition under which the operation at fault keeps the guarantee.
 */
module NbdNecessity {
  import opened Options
  import opened NodeHost
  import opened NbdProtocol
  import opened NbdInvariant
  import opened NbdTheorems
  import opened NbdHistory
  import opened NbdScripts

  const ALL := Env(OneStep, true, true, true, true, {}, {}, {})

  const A := Volume("pvc-a")
  const B := Volume("pvc-b")

  // ---- Exact conditions ----

  /** Removing a reservation keeps allocation exclusive exactly when nobody records the device. */
  lemma RemovalIsSafeIffUnclaimed(h: Host, d: Device)
    requires Exclusive(h)
    ensures Exclusive(RemoveReservation(h, d)) <==> Unclaimed(h, d)
  {
    var h' := RemoveReservation(h, d);
    assert forall x, e :: Records(h', x, e) <==> Records(h, x, e);
    if Exclusive(h') {
      forall u ensures !Records(h, u, d) {
        assert Records(h', u, d) ==> Reserved(h', d, u);
      }
    } else {
      var x, e :| Records(h', x, e) && !Reserved(h', e, x);
      assert Records(h, x, e) && Reserved(h, e, x);
      assert e == d;
    }
  }

  /** Of the scan's three grounds for collecting a reservation, an empty file and a missing
      state file are always safe; the two-hour rule is safe exactly when the volume named in
      the reservation does not record the device. */
  lemma CollectionIsSafe(h: Host, d: Device)
    requires Exclusive(h) && d in h.reservations
    ensures Orphaned(h, d) ==> Exclusive(RemoveReservation(h, d))
    ensures !Orphaned(h, d) ==>
              (Exclusive(RemoveReservation(h, d)) <==> !Records(h, h.reservations[d].value, d))
  {
    RemovalIsSafeIffUnclaimed(h, d);
    forall u | Records(h, u, d) ensures h.reservations[d] == Holds(u) {
      assert Reserved(h, d, u);
    }
  }

  /** Writing a record keeps allocation exclusive exactly when the reservation names the volume. */
  lemma RecordIsSafeIffReserved(h: Host, v: Volume, d: Device)
    requires Exclusive(h)
    ensures Exclusive(WriteRecord(h, v, Holds(d))) <==> Reserved(h, d, v)
  {
    var h' := WriteRecord(h, v, Holds(d));
    assert Records(h', v, d);
    assert forall x, e :: Records(h', x, e) ==> Records(h, x, e) || (x == v && e == d);
  }

  /** Dropping v's state file keeps the device connected to v's disk recorded exactly when the
      device it names is disconnected; an unread connection state or a failed detach breaks
      this. */
  lemma DropIsSafeIffDisconnected(h: Host, v: Volume, d: Device)
    requires WriteAhead(h, v) && Owned(h) && Records(h, v, d)
    ensures WriteAhead(RemoveRecord(h, v), v) <==> d !in h.attached
  {
    var h' := RemoveRecord(h, v);
    assert forall e :: !Records(h', v, e);
    if d in h.attached {
      assert h'.attached[d] == v;
    } else {
      forall e | e in h'.attached ensures h'.attached[e] != v {
        assert h.attached[e] == v ==> Records(h, v, e);
      }
    }
  }

  /** Dropping v's state file keeps every mount backed by a record exactly when v is unmounted. */
  lemma DropIsSafeIffUnmounted(h: Host, v: Volume, d: Device)
    requires Backed(h) && Records(h, v, d)
    ensures Backed(RemoveRecord(h, v)) <==> v !in h.mounts
  {
    var h' := RemoveRecord(h, v);
    assert forall x, e :: Records(h', x, e) <==> Records(h, x, e) && x != v;
    if v in h.mounts {
      assert h'.mounts[v].Nbd? && !Records(h', v, h'.mounts[v].dev);
    }
  }

  /** A format keeps every disk formatted at most once exactly when the disk that the device
      serves has no filesystem. */
  lemma FormatIsSafeIffBlank(h: Host, d: Device)
    requires d in h.attached && h.attached[d] in h.disks
    requires forall v :: v in h.disks ==> h.disks[v].formats <= 1
    ensures (forall v :: v in FormatDevice(h, d).disks ==> FormatDevice(h, d).disks[v].formats <= 1) <==>
            !HasFilesystem(h, h.attached[d])
  {
    var u := h.attached[d];
    assert FormatDevice(h, d).disks[u].formats == h.disks[u].formats + 1;
  }

  // ---- Runs of one volume ----

  const FRESH := System(Host(map[], map[], map[], map[], map[]), map[], None, Looking)

  lemma FromFresh(env: Env, v: Volume) returns (t: History)
    ensures Reached(env, t, v, Idle(Never), FRESH.host) && t.session == Session(v, 0, FRESH, FRESH)
    ensures FreshNode(FRESH)
  {
    t := Begin(env, FRESH, v);
  }

  /** A has device 0 reserved and recorded, and no other volume has been there. */
  function Claiming(): Host {
    Reserve(Sized(FRESH.host, A), A, 0)
  }

  lemma ToClaiming(env: Env) returns (t: History)
    ensures Reached(env, t, A, Connect(0), Claiming()) && t.session == Session(A, 0, FRESH, FRESH)
    ensures FreshNode(FRESH)
  {
    t := FromFresh(env, A);
    t := ToConnect(env, t, A, FRESH.host, 0, Never);
  }

  /** A failed detach: the unpublish clears the record of a device that stays connected. */
  lemma UnpublishDetachFailureLosesRecord() returns (states: seq<System>, events: seq<Event>)
    ensures IsRun(ALL.(detachFails := {A}), states, events) && FreshNode(states[0])
    ensures !WriteAhead(states[|events|].host, A)
  {
    var env := ALL.(detachFails := {A});
    var t := FromFresh(env, A);
    t := Publish(env, t, A, FRESH.host, 0, Never);
    t := ToDropped(env, t, A, Up(FRESH.host, A, 0), 0, true, false);
    states, events := t.states, t.events;
    assert Last(t).host.attached[0] == A && !Records(Last(t).host, A, 0);
  }

  /** A failed detach: the deferred cleanup clears the record of a device that stays connected. */
  lemma DetachFailureLosesRecord() returns (states: seq<System>, events: seq<Event>)
    ensures IsRun(ALL.(cleanupFails := {A}), states, events) && FreshNode(states[0])
    ensures !WriteAhead(states[|events|].host, A)
  {
    var env := ALL.(cleanupFails := {A});
    var t := ToClaiming(env);
    t := FailBeside(env, t, A, Claiming(), 0, None);
    states, events := t.states, t.events;
    assert Last(t).host.attached[0] == A && !Records(Last(t).host, A, 0);
  }

  /** Unreadable sysfs: after a crash, the retried publish skips the detach but clears the
      record. */
  lemma UnreadableStateLosesRecord() returns (states: seq<System>, events: seq<Event>)
    ensures IsRun(ALL.(sysfsFails := {A}), states, events) && FreshNode(states[0])
    ensures !WriteAhead(states[|events|].host, A)
  {
    var env := ALL.(sysfsFails := {A});
    var h := Attach(Claiming(), 0, A);
    var t := ToClaiming(env);
    t := LogUse(env, t, A, Connect(0), Probe(0), h);
    t := Restart(env, t, A);
    t := ToStale(env, t, A, h);
    t := LogClear(env, t, A, StaleRead, ClearRecord(Dev(0), StaleState), h);
    t := LogClear(env, t, A, ClearRecord(Dev(0), StaleState), ClearReservation(Dev(0), StaleState), RemoveRecord(h, A));
    states, events := t.states, t.events;
    assert Last(t).host.attached[0] == A && !Records(Last(t).host, A, 0);
  }

  /** A failed umount: the unpublish clears the record of a device that is still mounted. */
  lemma UmountFailureLosesBacking() returns (states: seq<System>, events: seq<Event>)
    ensures IsRun(ALL.(umountEnds := false), states, events) && FreshNode(states[0])
    ensures A in states[|events|].host.mounts && A !in states[|events|].host.records
  {
    var env := ALL.(umountEnds := false);
    var t := FromFresh(env, A);
    t := Publish(env, t, A, FRESH.host, 0, Never);
    t := ToDropped(env, t, A, Up(FRESH.host, A, 0), 0, false, true);
    states, events := t.states, t.events;
  }

  /** The ignored error of writing the volume's name into a fresh reservation: A ends up
      recording a device whose reservation is empty, which the next scan collects. */
  lemma LostWriteLeavesEmptyReservation() returns (states: seq<System>, events: seq<Event>)
    ensures IsRun(ALL.(writesLand := false), states, events) && FreshNode(states[0])
    ensures Records(states[|events|].host, A, 0) && Orphaned(states[|events|].host, 0)
  {
    var env := ALL.(writesLand := false);
    var t := FromFresh(env, A);
    t := ToScan(env, t, A, FRESH.host, Never);
    t := ToCreate(env, t, A, Sized(FRESH.host, A), 0);
    t := Take(env, t, A, Sized(FRESH.host, A), 0, false);
    states, events := t.states, t.events;
  }

  /** An empty answer of blkid over a formatted disk: published, unpublished and published
      again, the disk is formatted a second time. */
  lemma BlkidErrorReformats() returns (states: seq<System>, events: seq<Event>)
    ensures IsRun(ALL.(blkidTruthful := false), states, events) && FreshNode(states[0])
    ensures A in states[|events|].host.disks && states[|events|].host.disks[A].formats == 2
  {
    var env := ALL.(blkidTruthful := false);
    var h := Up(FRESH.host, A, 0);
    var h' := RemoveReservation(RemoveRecord(Detach(Unmount(h, A), 0), A), 0);
    var t := FromFresh(env, A);
    t := Publish(env, t, A, FRESH.host, 0, Never);
    t := Unpublish(env, t, A, h, 0);
    t := ToConnect(env, t, A, h', 0, Unpublished);
    t := ToMount(env, t, A, Reserve(Sized(h', A), A, 0), 0);
    states, events := t.states, t.events;
  }

  // ---- Runs of two volumes ----

  /** The two-hour rule: A is published, its connection drops, and B's scan takes over the
      device that A records and that A's target is mounted from. */
  lemma AgedCollectionStealsReservation() returns (states: seq<System>, events: seq<Event>)
    ensures IsRun(ALL.(agedSafe := false), states, events) && FreshNode(states[0])
    ensures var h := states[|events|].host;
            A in h.mounts && h.mounts[A] == Nbd(0) && Records(h, A, 0) && Records(h, B, 0) && Reserved(h, 0, B)
  {
    var env := ALL.(agedSafe := false);
    var h := Detach(Up(FRESH.host, A, 0), 0);
    var t := FromFresh(env, A);
    t := Publish(env, t, A, FRESH.host, 0, Never);
    t := DropAndHandOver(env, t, B, 0);
    t := TakeOver(env, t, B, h, 0, Never);
    states, events := t.states, t.events;
  }

  /** Another volume, which has made no call yet, begins. */
  lemma HandOver(env: Env, t: History, u: Volume) returns (t': History)
    requires IsHistory(env, t) && t.session == Session(A, 0, FRESH, FRESH) && u != A
    requires Last(t).lock == None && Last(t).reconciler == Looking
    ensures Reached(env, t', u, Idle(Never), Last(t).host)
    ensures t'.session == Session(u, |t.events|, Last(t), FRESH)
  {
    OthersRest(env, t, u);
    t' := Switch(env, t, u);
  }

  /** A goes on where it stood when the other began. */
  lemma HandBack(env: Env, t: History, pc: Pc) returns (t': History)
    requires IsHistory(env, t) && t.session.caller != A && At(t.session.origin, A) == pc && !HoldsLock(pc)
    requires Last(t).lock == None && Last(t).reconciler == Looking
    ensures Reached(env, t', A, pc, Last(t).host) && t'.session.start == t.session.start
  {
    OthersRest(env, t, A);
    t' := Switch(env, t, A);
  }

  /** A's device drops its connection, and B, which has made no call yet, begins. */
  lemma DropAndHandOver(env: Env, t: History, v: Volume, d: Device) returns (t': History)
    requires IsHistory(env, t) && t.session == Session(A, 0, FRESH, FRESH) && v != A
    requires Last(t).lock == None && Last(t).reconciler == Looking
    ensures Reached(env, t', v, Idle(Never), Detach(Last(t).host, d)) && t'.session.start == FRESH
  {
    OthersRest(env, t, v);
    t' := Interlude(env, t, v, Last(t).(host := Detach(Last(t).host, d)), Drop(d));
  }

  /** The deferred cleanup's clear takes no lock: between its two removals B collects A's
      orphaned reservation, reserves the device, and A then removes B's reservation. */
  lemma UnlockedClearStealsReservation() returns (states: seq<System>, events: seq<Event>)
    ensures IsRun(ALL.(deferred := TwoSteps), states, events) && FreshNode(states[0])
    ensures Records(states[|events|].host, B, 0) && 0 !in states[|events|].host.reservations
  {
    var env := ALL.(deferred := TwoSteps);
    var h := RemoveRecord(Detach(Attach(Claiming(), 0, A), 0), A);
    var t := HalfCleared(env);
    t := TakeOverBetween(env, t, h);
    t := SecondRemoval(env, t, TakenOver(h, B, 0));
    states, events := t.states, t.events;
  }

  lemma SecondRemoval(env: Env, t: History, h: Host) returns (t': History)
    requires Reached(env, t, A, CleanRelease(0), h)
    ensures Reached(env, t', A, CleanPod, RemoveReservation(h, 0)) && t'.session == t.session
  {
    t' := LogClear(env, t, A, CleanRelease(0), CleanPod, RemoveReservation(h, 0));
  }

  /** B's whole reservation of device 0 while A is between its two removals. */
  lemma TakeOverBetween(env: Env, t: History, h: Host) returns (t': History)
    requires Reached(env, t, A, CleanRelease(0), h) && t.session == Session(A, 0, FRESH, FRESH)
    requires env.deferred == TwoSteps
    requires 0 !in h.attached && 0 in h.reservations && h.reservations[0] == Holds(A) && A !in h.records
    requires B !in h.mounts && B !in h.records
    ensures Reached(env, t', A, CleanRelease(0), TakenOver(h, B, 0)) && t'.session.start == FRESH
  {
    t' := HandOver(env, t, B);
    t' := TakeOver(env, t', B, h, 0, Never);
    t' := HandBack(env, t', CleanRelease(0));
  }

  /** The same with B one step earlier: it has made its reservation and emptied its state file.
      Nobody records the device and allocation is exclusive before and after A's removal, and
      yet B ends up recording a device without a reservation. */
  lemma UnlockedClearUndercutsReservation() returns (states: seq<System>, events: seq<Event>, i: nat)
    ensures IsRun(ALL.(deferred := TwoSteps), states, events) && FreshNode(states[0])
    ensures i + 2 == |events| && events[i] == Call(A)
    ensures Unclaimed(states[i].host, 0) && Exclusive(states[i].host) && Exclusive(states[i + 1].host)
    ensures Records(states[i + 2].host, B, 0) && 0 !in states[i + 2].host.reservations
  {
    var env := ALL.(deferred := TwoSteps);
    var t := FillingBetween(env);
    i := |t.events|;
    NobodyRecords(Last(t).host);
    var s1 := ReleaseBesideFill(env, Last(t));
    NobodyRecords(s1.host);
    t := Interlude(env, t, B, s1, Call(A));
    var s2 := FillWithoutReservation(env, s1);
    t := Interlude(env, t, B, s2, Call(B));
    states, events := t.states, t.events;
  }

  lemma NobodyRecords(h: Host)
    requires h.records == map[B := Empty]
    ensures Exclusive(h) && forall d :: Unclaimed(h, d)
  {
  }

  lemma ReleaseBesideFill(env: Env, s: System) returns (s': System)
    requires env == ALL.(deferred := TwoSteps)
    requires At(s, A) == CleanRelease(0) && At(s, B) == Fill(0) && s.lock == Some(B)
    ensures VolumeStep(env, s, s', A) && At(s', B) == Fill(0) && s'.lock == Some(B)
    ensures 0 !in s'.host.reservations && s'.host.records == s.host.records
  {
    var h' := RemoveReservation(s.host, 0);
    BesideIsStep(env, s, A, CleanRelease(0), CleanPod, h');
    s' := Stepped(s, A, CleanPod, h', Some(B));
  }

  lemma FillWithoutReservation(env: Env, s: System) returns (s': System)
    requires env == ALL.(deferred := TwoSteps) && At(s, B) == Fill(0) && s.lock == Some(B) && 0 !in s.host.reservations
    ensures VolumeStep(env, s, s', B) && Records(s'.host, B, 0) && 0 !in s'.host.reservations
  {
    var h' := WriteRecord(s.host, B, Holds(0));
    SteppedIsStep(env, s, B, Fill(0), Connect(0), h');
    s' := Stepped(s, B, Connect(0), h', None);
  }

  /** A is between its two removals, and B has yet to write its state file. */
  lemma FillingBetween(env: Env) returns (t: History)
    requires env == ALL.(deferred := TwoSteps)
    ensures IsHistory(env, t) && t.states[0] == FRESH && FreshNode(FRESH)
    ensures At(Last(t), A) == CleanRelease(0) && At(Last(t), B) == Fill(0) && Last(t).lock == Some(B)
    ensures var h := Last(t).host; h.records == map[B := Empty]
  {
    var h := RemoveRecord(Detach(Attach(Claiming(), 0, A), 0), A);
    t := HalfCleared(env);
    assert h.records == map[];
    t := FillBeside(env, t, h);
  }

  lemma FillBeside(env: Env, t: History, h: Host) returns (t': History)
    requires Reached(env, t, A, CleanRelease(0), h) && t.session == Session(A, 0, FRESH, FRESH)
    requires 0 !in h.attached && 0 in h.reservations && h.reservations[0] == Holds(A)
    requires B !in h.mounts && h.records == map[]
    ensures IsHistory(env, t') && t'.states[0] == FRESH
    ensures At(Last(t'), A) == CleanRelease(0) && At(Last(t'), B) == Fill(0) && Last(t').lock == Some(B)
    ensures Last(t').host.records == map[B := Empty]
  {
    t' := HandOver(env, t, B);
    t' := TakeToFill(env, t', B, h, 0, Never);
    OthersRest(env, t', A);
  }

  /** A's publish has failed, and of its index entries the record is gone. */
  lemma HalfCleared(env: Env) returns (t: History)
    requires env == ALL.(deferred := TwoSteps)
    ensures Reached(env, t, A, CleanRelease(0), RemoveRecord(Detach(Attach(Claiming(), 0, A), 0), A))
    ensures t.session == Session(A, 0, FRESH, FRESH) && FreshNode(FRESH)
  {
    var h := Attach(Claiming(), 0, A);
    t := ToClaiming(env);
    t := ToAbort(env, t, A, Claiming(), 0, None);
    t := ToClear(env, t, A, h, 0, None, true);
    t := LogClear(env, t, A, CleanDrop(0), CleanRelease(0), RemoveRecord(Detach(h, 0), A));
  }

  /** A clear in one step, after a failed detach, while B is inside its scan: B has seen the
      device unconnected before A connected it, finds the reservation gone and takes the device,
      which serves A; after a crash B's retried publish is about to detach it. */
  lemma OneStepClearMisleadsScan() returns (states: seq<System>, events: seq<Event>)
    ensures IsRun(ALL.(cleanupFails := {A}), states, events) && FreshNode(states[0])
    ensures var s := states[|events|];
            && Records(s.host, B, 0) && 0 in s.host.attached && s.host.attached[0] == A
            && DetachTarget(At(s, B)) == Some(0)
  {
    var env := ALL.(cleanupFails := {A});
    var t := ScanSeesDevice(env);
    var h := Sized(Claiming(), B);
    t := ClearBesideScan(env, t, h);
    h := Last(t).host;
    t := Take(env, t, B, h, 0, true);
    h := Reserve(h, B, 0);
    t := Restart(env, t, B);
    t := ToStale(env, t, B, h);
    t := LogClear(env, t, B, StaleRead, StaleDetach(0), h);
    states, events := t.states, t.events;
  }

  /** A has claimed device 0; B, inside its scan, has seen it unconnected. */
  lemma ScanSeesDevice(env: Env) returns (t: History)
    requires env == ALL.(cleanupFails := {A})
    ensures Reached(env, t, B, Create(0), Sized(Claiming(), B)) && t.session.start == FRESH
    ensures At(Last(t), A) == Connect(0) && B in Last(t).calls && FreshNode(FRESH)
  {
    t := ToClaiming(env);
    t := HandOver(env, t, B);
    t := ToScan(env, t, B, Claiming(), Never);
    t := ToCreateOver(env, t, B, Sized(Claiming(), B), 0, false);
    OthersRest(env, t, A);
  }

  /** While B waits at the create, A connects, fails, cannot detach, and clears. */
  lemma ClearBesideScan(env: Env, t: History, h: Host) returns (t': History)
    requires env == ALL.(cleanupFails := {A})
    requires Reached(env, t, B, Create(0), h) && At(Last(t), A) == Connect(0)
    requires 0 !in h.attached && A !in h.mounts && Records(h, A, 0) && !HasFilesystem(h, A)
    ensures Reached(env, t', B, Create(0), RemoveReservation(RemoveRecord(Attach(h, 0, A), A), 0))
    ensures t'.session.start == t.session.start
  {
    t' := Switch(env, t, A);
    t' := FailBeside(env, t', A, h, 0, Some(B));
    OthersRest(env, t', B);
    t' := Switch(env, t', B);
  }
}
