/**
 The inductive invariant of the publish/unpublish system and its preservation by
 every step of every call, by the surroundings and by a crash.
 */
module NbdInvariant {
  import opened Options
  import opened NodeHost
  import opened NbdProtocol

  /** The assumptions isolation rests on, beside the conduct of the deferred clear.  Detaches
      may fail, connection states may be unreadable and blkid may err: those matter for other
      theorems only. */
  predicate Orderly(env: Env) {
    env.agedSafe && env.umountEnds && env.writesLand
  }

  // ---- What holds of the host in every state ----

  /** A recorded device is reserved for the volume that records it. */
  ghost predicate Exclusive(h: Host) {
    forall v, d :: Records(h, v, d) ==> Reserved(h, d, v)
  }

  /** A recorded device serves nobody else's disk. */
  ghost predicate Owned(h: Host) {
    forall v, d :: Records(h, v, d) && d in h.attached ==> h.attached[d] == v
  }

  /** An NBD mount on v's target comes from the device v records, and v's disk carries a
      filesystem; while the 9p export is mounted, v records none. */
  ghost predicate Backed(h: Host) {
    forall v :: v in h.mounts ==>
      if h.mounts[v].Nbd? then Records(h, v, h.mounts[v].dev) && HasFilesystem(h, v)
      else Unrecorded(h, v)
  }

  ghost predicate SizedOnce(h: Host) {
    forall v :: v in h.disks ==> h.disks[v].sizings == 1
  }

  ghost predicate HostInv(h: Host) {
    Exclusive(h) && Owned(h) && Backed(h) && SizedOnce(h)
  }

  // ---- What a call knows at each of its steps ----

  /** v holds device d and has not mounted it. */
  predicate Holding(h: Host, v: Volume, d: Device) {
    v !in h.mounts && Records(h, v, d)
  }

  /** The source an unpublish or a clear works with is the device v records. */
  predicate Settled(h: Host, v: Volume, src: Source) {
    v !in h.mounts && if src.Dev? then Records(h, v, src.dev) else Unrecorded(h, v)
  }

  /** If d is connected, the volume it serves records it. */
  predicate ServesRecorder(h: Host, d: Device) {
    d in h.attached ==> Records(h, h.attached[d], d)
  }

  /** Nobody's state file names d. */
  ghost predicate Unclaimed(h: Host, d: Device) {
    forall u :: !Records(h, u, d)
  }

  /** Device d is created for v but nobody records or uses it yet. */
  ghost predicate Claimed(h: Host, d: Device) {
    && d in h.reservations
    && d !in h.attached
    && forall u :: !Records(h, u, d)
  }

  ghost predicate Local(h: Host, pc: Pc, v: Volume) {
    match pc
    case Idle(Published) => v in h.mounts && h.mounts[v].Nbd? && HasFilesystem(h, v)
    case Idle(Unpublished) => v !in h.records && v !in h.mounts
    case Idle(Failed) => Bare(h, v)
    case Idle(_) | Check | CleanUmount | UnpFind => true
    case DropStaleMount => Unrecorded(h, v)
    case Want(StaleRegion) | StaleRead | CleanRead => v !in h.mounts
    case StaleDetach(d) => Holding(h, v, d)
    case Want(ClearRegion(src, why)) => Settled(h, v, src) && why != MissingDevice
    case ClearRecord(src, why) => Settled(h, v, src) && why != MissingDevice
    case ClearReservation(src, why) =>
      v !in h.records && v !in h.mounts && (src.Dev? ==> Unclaimed(h, src.dev)) && why != MissingDevice
    case Prepare | Mount9p | CleanPod => Bare(h, v)
    case MakeDisk => v in h.mounts && h.mounts[v] == NineP
    case Umount9p => v in h.mounts && h.mounts[v] == NineP && v in h.disks
    case Want(ReserveRegion) | ReserveRead | Scan => Bare(h, v) && v in h.disks
    case Reuse(_) => false
    case Collect(d) => Bare(h, v) && v in h.disks && ServesRecorder(h, d)
    case Inspect(d, c) =>
      Bare(h, v) && v in h.disks && ServesRecorder(h, d) && (d in h.reservations ==> h.reservations[d] == c)
    case Discard(d) => Bare(h, v) && v in h.disks && ServesRecorder(h, d) && Unclaimed(h, d)
    case Create(d) => Bare(h, v) && v in h.disks && ServesRecorder(h, d)
    case Name(d) => Bare(h, v) && v in h.disks && Claimed(h, d) && h.reservations[d] == Empty
    case Truncate(d) => Bare(h, v) && v in h.disks && Claimed(h, d) && Reserved(h, d, v)
    case Fill(d) =>
      v !in h.mounts && v in h.records && h.records[v] == Empty && v in h.disks && Claimed(h, d) && Reserved(h, d, v)
    case Connect(d) => Holding(h, v, d) && v in h.disks && d !in h.attached
    case Probe(d) => Holding(h, v, d) && v in h.disks
    case Format(d) => Holding(h, v, d) && v in h.disks
    case MountFs(d) => Holding(h, v, d) && HasFilesystem(h, v)
    case Abort(d) => Records(h, v, d)
    case CleanDetach(d) => Holding(h, v, d)
    case CleanClear(d) => Holding(h, v, d)
    case CleanDrop(d) => Holding(h, v, d)
    case CleanRelease(_) => v !in h.records && v !in h.mounts
    case UnpUmount(src) =>
      && src == SourceOf(h, v)
    case UnpRead(src) =>
      && v !in h.mounts
      && (src.Dev? ==> Records(h, v, src.dev))
      && (src == Socket ==> Unrecorded(h, v))
    case UnpDetach(src) => Settled(h, v, src)
    case UnpPod(src) => Settled(h, v, src)
  }

  /** nbdMu is held by exactly the call inside a locked region. */
  ghost predicate Locked(s: System) {
    forall v :: HoldsLock(At(s, v)) <==> s.lock == Some(v)
  }

  ghost predicate Locals(s: System) {
    forall v :: Local(s.host, At(s, v), v)
  }

  ghost predicate Inv(s: System) {
    HostInv(s.host) && Locked(s) && Locals(s)
  }

  // ---- When a clear without the lock is safe ----

  /** The call has seen d unconnected and has not yet tried to reserve it. */
  predicate HasSeen(pc: Pc, d: Device) {
    (pc.Collect? || pc.Inspect? || pc.Discard? || pc.Create?) && pc.dev == d
  }

  /** The call has made a reservation of d and not yet recorded it. */
  predicate HasReserved(pc: Pc, d: Device) {
    (pc.Name? || pc.Truncate? || pc.Fill?) && pc.dev == d
  }

  /** v's call may take its next step: a record of d is dropped only if d is disconnected or no
      other call has seen it unconnected, a reservation of d only if nobody records d and no
      other call is about to. */
  ghost predicate ClearIsSafe(s: System, v: Volume) {
    match At(s, v)
    case CleanClear(d) => d !in s.host.attached || forall u :: u != v ==> !HasSeen(At(s, u), d)
    case CleanDrop(d) => d !in s.host.attached || forall u :: u != v ==> !HasSeen(At(s, u), d)
    case CleanRelease(d) => Unclaimed(s.host, d) && forall u :: u != v ==> !HasReserved(At(s, u), d)
    case _ => true
  }

  ghost predicate Careful(s: System, e: Event) {
    e.Call? ==> ClearIsSafe(s, e.v)
  }

  /** The part of it that concerns the host alone. */
  ghost predicate MayRelease(h: Host, pc: Pc) {
    pc.CleanRelease? ==> Unclaimed(h, pc.dev)
  }

  // ---- What a step of a call may do to the host ----

  /** The changes a call makes to the host. */
  datatype Effect =
    | Nothing
    | Unmounts
    | MountsExport
    | MountsDevice(dev: Device)
    | Connects(dev: Device)
    | Disconnects(dev: Device)
    | DropsRecord
    | BlanksRecord
    | FillsRecord(dev: Device)
    | DropsReservation(dev: Device)
    | Releases(dev: Device)
    | WritesReservation(dev: Device, content: Content<Volume>)
    | SizesDisk
    | MakesFilesystem(dev: Device)

  function Apply(h: Host, v: Volume, e: Effect): Host {
    match e
    case Nothing => h
    case Unmounts => Unmount(h, v)
    case MountsExport => MountOn(h, v, NineP)
    case MountsDevice(d) => MountOn(h, v, Nbd(d))
    case Connects(d) => Attach(h, d, v)
    case Disconnects(d) => Detach(h, d)
    case DropsRecord => RemoveRecord(h, v)
    case BlanksRecord => WriteRecord(h, v, Empty)
    case FillsRecord(d) => WriteRecord(h, v, Holds(d))
    case DropsReservation(d) => RemoveReservation(h, d)
    case Releases(d) => RemoveReservation(RemoveRecord(h, v), d)
    case WritesReservation(d, c) => WriteReservation(h, d, c)
    case SizesDisk => SizeDisk(h, v)
    case MakesFilesystem(d) => FormatDevice(h, d)
  }

  /** When v's call makes a change: it connects, disconnects, formats and mounts only the
      device v records, and touches a reservation only where nobody records the device. */
  ghost predicate Legal(h: Host, v: Volume, e: Effect) {
    match e
    case Nothing | Unmounts => true
    case MountsExport => Unrecorded(h, v)
    case MountsDevice(d) => Records(h, v, d) && HasFilesystem(h, v)
    case Connects(d) => Records(h, v, d) && d !in h.attached
    case Disconnects(d) => Records(h, v, d)
    case DropsRecord => v !in h.mounts
    case BlanksRecord => v !in h.mounts && Unrecorded(h, v)
    case FillsRecord(d) => v !in h.mounts && Unrecorded(h, v) && Reserved(h, d, v) && Claimed(h, d)
    case DropsReservation(d) => Unclaimed(h, d)
    case Releases(d) => v !in h.mounts && Records(h, v, d)
    case WritesReservation(d, c) => Unclaimed(h, d) && (c == Empty || c == Holds(v))
    case SizesDisk => v !in h.disks
    case MakesFilesystem(d) => Records(h, v, d) && d in h.attached && v in h.disks
  }

  /** The change a step from pc to pc' makes. */
  ghost function EffectOf(h: Host, pc: Pc, v: Volume, h': Host, pc': Pc): Effect {
    if h' == h then Nothing else
    match pc
    case DropStaleMount | Umount9p | CleanUmount | UnpUmount(_) => Unmounts
    case Mount9p => MountsExport
    case MountFs(d) => MountsDevice(d)
    case Connect(d) => Connects(d)
    case StaleDetach(d) => Disconnects(d)
    case CleanDetach(d) => Disconnects(d)
    case Abort(d) => Disconnects(d)
    case UnpDetach(Dev(d)) => Disconnects(d)
    case ClearRecord(_, _) => DropsRecord
    case ClearReservation(Dev(d), _) => DropsReservation(d)
    case CleanClear(d) => Releases(d)
    case CleanDrop(_) => DropsRecord
    case CleanRelease(d) => DropsReservation(d)
    case Discard(d) => DropsReservation(d)
    case Truncate(d) => if pc' == Fill(d) then BlanksRecord else DropsReservation(d)
    case Fill(d) => FillsRecord(d)
    case Create(d) => WritesReservation(d, Empty)
    case Name(d) => WritesReservation(d, Holds(v))
    case MakeDisk => SizesDisk
    case Format(d) => MakesFilesystem(d)
    case _ => Nothing
  }

  lemma StartIsLegal(env: Env, h: Host, pc: Pc, v: Volume, h': Host, pc': Pc)
    requires Orderly(env) && HostInv(h) && Local(h, pc, v) && StartAct(env, h, pc, v, h', pc')
    ensures Legal(h, v, EffectOf(h, pc, v, h', pc'))
    ensures h' == Apply(h, v, EffectOf(h, pc, v, h', pc'))
  {
  }

  lemma ReserveIsLegal(env: Env, h: Host, pc: Pc, v: Volume, h': Host, pc': Pc)
    requires Orderly(env) && HostInv(h) && Local(h, pc, v) && ReserveAct(env, h, pc, v, h', pc')
    ensures Legal(h, v, EffectOf(h, pc, v, h', pc'))
    ensures h' == Apply(h, v, EffectOf(h, pc, v, h', pc'))
  {
  }

  lemma ClearIsLegal(env: Env, h: Host, pc: Pc, v: Volume, h': Host, pc': Pc)
    requires Orderly(env) && HostInv(h) && Local(h, pc, v) && ClearAct(env, h, pc, v, h', pc')
    requires MayRelease(h, pc)
    ensures Legal(h, v, EffectOf(h, pc, v, h', pc'))
    ensures h' == Apply(h, v, EffectOf(h, pc, v, h', pc'))
  {
  }

  lemma UseIsLegal(env: Env, h: Host, pc: Pc, v: Volume, h': Host, pc': Pc)
    requires Orderly(env) && HostInv(h) && Local(h, pc, v) && UseAct(env, h, pc, v, h', pc')
    ensures Legal(h, v, EffectOf(h, pc, v, h', pc'))
    ensures h' == Apply(h, v, EffectOf(h, pc, v, h', pc'))
  {
  }

  lemma UndoIsLegal(env: Env, h: Host, pc: Pc, v: Volume, h': Host, pc': Pc)
    requires Orderly(env) && HostInv(h) && Local(h, pc, v) && UndoAct(env, h, pc, v, h', pc')
    ensures Legal(h, v, EffectOf(h, pc, v, h', pc'))
    ensures h' == Apply(h, v, EffectOf(h, pc, v, h', pc'))
  {
  }

  lemma UnpublishIsLegal(env: Env, h: Host, pc: Pc, v: Volume, h': Host, pc': Pc)
    requires Orderly(env) && HostInv(h) && Local(h, pc, v) && UnpublishAct(env, h, pc, v, h', pc')
    ensures Legal(h, v, EffectOf(h, pc, v, h', pc'))
    ensures h' == Apply(h, v, EffectOf(h, pc, v, h', pc'))
  {
  }

  lemma ActIsLegal(env: Env, h: Host, pc: Pc, v: Volume, h': Host, pc': Pc)
    requires Orderly(env) && HostInv(h) && Local(h, pc, v) && Act(env, h, pc, v, h', pc') && MayRelease(h, pc)
    ensures Legal(h, v, EffectOf(h, pc, v, h', pc'))
    ensures h' == Apply(h, v, EffectOf(h, pc, v, h', pc'))
  {
    if Reserving(pc) {
      ReserveIsLegal(env, h, pc, v, h', pc');
    } else if Clearing(pc) {
      ClearIsLegal(env, h, pc, v, h', pc');
    } else if Using(pc) {
      UseIsLegal(env, h, pc, v, h', pc');
    } else if Undoing(pc) {
      UndoIsLegal(env, h, pc, v, h', pc');
    } else if Ending(pc) {
      UnpublishIsLegal(env, h, pc, v, h', pc');
    } else {
      StartIsLegal(env, h, pc, v, h', pc');
    }
  }

  lemma LegalKeepsHost(h: Host, v: Volume, e: Effect)
    requires HostInv(h) && Legal(h, v, e)
    ensures HostInv(Apply(h, v, e))
  {
    var h' := Apply(h, v, e);
    assert forall x, d :: Records(h', x, d) ==> Records(h, x, d) || (x == v && e == FillsRecord(d));
  }

  predicate SameFor(h: Host, h': Host, u: Volume) {
    && (u in h'.records <==> u in h.records) && (u in h.records ==> h'.records[u] == h.records[u])
    && (u in h'.mounts <==> u in h.mounts) && (u in h.mounts ==> h'.mounts[u] == h.mounts[u])
    && (u in h'.disks <==> u in h.disks) && (u in h.disks ==> h'.disks[u] == h.disks[u])
  }

  predicate SameConnection(h: Host, h': Host, d: Device) {
    && (d in h'.attached <==> d in h.attached)
    && (d in h.attached ==> h'.attached[d] == h.attached[d])
  }

  /** A step of v's call changes no state file, mount or disk of another volume, and
      connects or disconnects only a device v records. */
  ghost predicate Confined(h: Host, h': Host, v: Volume) {
    && (forall u :: u != v ==> SameFor(h, h', u))
    && (forall d :: !SameConnection(h, h', d) ==> Records(h, v, d) && (d in h'.attached ==> h'.attached[d] == v))
  }

  lemma LegalIsConfined(h: Host, v: Volume, e: Effect)
    requires HostInv(h) && Legal(h, v, e)
    ensures Confined(h, Apply(h, v, e), v)
  {
  }

  // ---- Preservation ----

  lemma StartKeepsLocal(env: Env, h: Host, pc: Pc, v: Volume, h': Host, pc': Pc)
    requires Orderly(env) && Backed(h) && Local(h, pc, v) && StartAct(env, h, pc, v, h', pc')
    ensures Local(h', pc', v)
  {
  }

  lemma ReserveKeepsLocal(env: Env, h: Host, pc: Pc, v: Volume, h': Host, pc': Pc)
    requires Orderly(env) && Exclusive(h) && Local(h, pc, v) && ReserveAct(env, h, pc, v, h', pc')
    ensures Local(h', pc', v)
  {
    assert forall x, d :: Records(h', x, d) ==> Records(h, x, d) || (x == v && pc == Fill(d));
  }

  lemma ClearKeepsLocal(env: Env, h: Host, pc: Pc, v: Volume, h': Host, pc': Pc)
    requires Orderly(env) && Exclusive(h) && Local(h, pc, v) && ClearAct(env, h, pc, v, h', pc')
    ensures Local(h', pc', v)
  {
    assert forall x, d :: Records(h', x, d) ==> Records(h, x, d);
    if pc.ClearRecord? && pc.src.Dev? {
      forall x ensures !Records(h', x, pc.src.dev) {
        assert Records(h, x, pc.src.dev) ==> Reserved(h, pc.src.dev, x) && Reserved(h, pc.src.dev, v);
      }
    }
  }

  lemma UseKeepsLocal(env: Env, h: Host, pc: Pc, v: Volume, h': Host, pc': Pc)
    requires Orderly(env) && Owned(h) && Local(h, pc, v) && UseAct(env, h, pc, v, h', pc')
    ensures Local(h', pc', v)
  {
  }

  lemma UndoKeepsLocal(env: Env, h: Host, pc: Pc, v: Volume, h': Host, pc': Pc)
    requires Orderly(env) && Backed(h) && Local(h, pc, v) && UndoAct(env, h, pc, v, h', pc')
    ensures Local(h', pc', v)
  {
  }

  lemma UnpublishKeepsLocal(env: Env, h: Host, pc: Pc, v: Volume, h': Host, pc': Pc)
    requires Orderly(env) && Backed(h) && Local(h, pc, v) && UnpublishAct(env, h, pc, v, h', pc')
    ensures Local(h', pc', v)
  {
  }

  lemma ActKeepsOwnLocal(env: Env, h: Host, pc: Pc, v: Volume, h': Host, pc': Pc)
    requires Orderly(env) && HostInv(h) && Local(h, pc, v) && Act(env, h, pc, v, h', pc')
    ensures Local(h', pc', v)
  {
    if Reserving(pc) {
      ReserveKeepsLocal(env, h, pc, v, h', pc');
    } else if Clearing(pc) {
      ClearKeepsLocal(env, h, pc, v, h', pc');
    } else if Using(pc) {
      UseKeepsLocal(env, h, pc, v, h', pc');
    } else if Undoing(pc) {
      UndoKeepsLocal(env, h, pc, v, h', pc');
    } else if Ending(pc) {
      UnpublishKeepsLocal(env, h, pc, v, h', pc');
    } else {
      StartKeepsLocal(env, h, pc, v, h', pc');
    }
  }

  /** Outside the locked regions a call changes neither index, unless it clears without the lock. */
  lemma UnlockedAct(env: Env, h: Host, pc: Pc, v: Volume, h': Host, pc': Pc)
    requires Orderly(env) && HostInv(h) && Local(h, pc, v) && Act(env, h, pc, v, h', pc')
    requires !HoldsLock(pc) && !LockFree(pc)
    ensures h'.records == h.records && h'.reservations == h.reservations
  {
    ActIsLegal(env, h, pc, v, h', pc');
  }

  /** Dropping v's record of d, with or without the reservation, leaves another call's
      knowledge intact exactly when d is disconnected or that call has not seen it unconnected. */
  lemma DropSparesCallIff(h: Host, h': Host, v: Volume, d: Device, u: Volume, uc: Pc)
    requires HostInv(h) && Holding(h, v, d) && u != v && Local(h, uc, u)
    requires h' == RemoveRecord(h, v) || h' == RemoveReservation(RemoveRecord(h, v), d)
    ensures Local(h', uc, u) <==> d !in h.attached || !HasSeen(uc, d)
  {
    assert forall x, e :: Records(h', x, e) <==> Records(h, x, e) && x != v;
    if HasSeen(uc, d) {
      DropSparesSeeing(h, h', v, d, u, uc);
    } else {
      DropSparesOthers(h, h', v, d, u, uc);
    }
  }

  lemma DropSparesSeeing(h: Host, h': Host, v: Volume, d: Device, u: Volume, uc: Pc)
    requires HostInv(h) && Holding(h, v, d) && u != v && Local(h, uc, u) && HasSeen(uc, d)
    requires h' == RemoveRecord(h, v) || h' == RemoveReservation(RemoveRecord(h, v), d)
    requires forall x, e :: Records(h', x, e) <==> Records(h, x, e) && x != v
    ensures Local(h', uc, u) <==> d !in h.attached
  {
    assert d in h.attached ==> h'.attached[d] == v && !Records(h', v, d);
    assert Bare(h', u) <==> Bare(h, u);
  }

  lemma DropSparesOthers(h: Host, h': Host, v: Volume, d: Device, u: Volume, uc: Pc)
    requires HostInv(h) && Holding(h, v, d) && u != v && Local(h, uc, u) && !HasSeen(uc, d)
    requires h' == RemoveRecord(h, v) || h' == RemoveReservation(RemoveRecord(h, v), d)
    requires forall x, e :: Records(h', x, e) <==> Records(h, x, e) && x != v
    ensures Local(h', uc, u)
  {
    assert Reserved(h, d, v);
    if uc.Collect? || uc.Inspect? || uc.Discard? || uc.Create? {
      assert ServesRecorder(h', uc.dev);
    }
  }

  /** Dropping an unclaimed reservation of d leaves another call's knowledge intact exactly
      when that call has not just made it. */
  lemma ReleaseSparesCallIff(h: Host, v: Volume, d: Device, u: Volume, uc: Pc)
    requires HostInv(h) && Unclaimed(h, d) && u != v && Local(h, uc, u)
    ensures Local(RemoveReservation(h, d), uc, u) <==> !HasReserved(uc, d)
  {
    var h' := RemoveReservation(h, d);
    assert forall x, e :: Records(h', x, e) <==> Records(h, x, e);
  }

  /** Inside reserveNBDDevice a call knows what the indexes say, and relies on no connection
      but that of recorded devices. */
  lemma FramedReserving(h: Host, h': Host, v: Volume, u: Volume, uc: Pc)
    requires HostInv(h) && Confined(h, h', v) && u != v && Local(h, uc, u) && Reserving(uc)
    requires h'.records == h.records && h'.reservations == h.reservations
    ensures Local(h', uc, u)
  {
    assert SameFor(h, h', u);
    assert forall x, d :: Records(h', x, d) <==> Records(h, x, d);
    assert forall d :: SameConnection(h, h', d) || Records(h, v, d);
  }

  lemma FramedLocal(env: Env, h: Host, h': Host, v: Volume, u: Volume, uc: Pc)
    requires Orderly(env) && HostInv(h) && Confined(h, h', v) && u != v && Local(h, uc, u)
    requires HoldsLock(uc) ==> h'.records == h.records && h'.reservations == h.reservations
    ensures Local(h', uc, u)
  {
    if Reserving(uc) {
      FramedReserving(h, h', v, u, uc);
    } else {
      assert SameFor(h, h', u);
      if uc.ClearReservation? {
        assert forall x, d :: Records(h', x, d) <==> Records(h, x, d);
      } else if uc.Connect? {
        assert SameConnection(h, h', uc.dev) || Records(h, v, uc.dev);
      }
    }
  }

  /** A step that is no clear without the lock. */
  lemma OrdinaryStepKeepsInv(env: Env, s: System, s': System, v: Volume)
    requires Orderly(env) && Inv(s) && VolumeStep(env, s, s', v) && !LockFree(At(s, v))
    ensures Inv(s')
  {
    var h, pc, h', pc' := s.host, At(s, v), s'.host, At(s', v);
    assert Local(h, pc, v);
    ActIsLegal(env, h, pc, v, h', pc');
    LegalKeepsHost(h, v, EffectOf(h, pc, v, h', pc'));
    LegalIsConfined(h, v, EffectOf(h, pc, v, h', pc'));
    forall u ensures Local(h', At(s', u), u) {
      if u == v {
        ActKeepsOwnLocal(env, h, pc, v, h', pc');
      } else {
        assert Local(h, At(s, u), u);
        if HoldsLock(At(s, u)) {
          assert !HoldsLock(pc);
          UnlockedAct(env, h, pc, v, h', pc');
        }
        FramedLocal(env, h, h', v, u, At(s, u));
      }
    }
    StepKeepsLocked(env, s, s', v);
  }

  /** Dropping the record without the lock, alone or with the reservation. */
  lemma DropStepIsSafeIff(env: Env, s: System, s': System, v: Volume, d: Device)
    requires Inv(s) && VolumeStep(env, s, s', v) && (At(s, v) == CleanClear(d) || At(s, v) == CleanDrop(d))
    ensures Inv(s') <==> ClearIsSafe(s, v)
  {
    var h, h' := s.host, s'.host;
    assert Local(h, At(s, v), v);
    StepKeepsLocked(env, s, s', v);
    LegalKeepsHost(h, v, if At(s, v).CleanClear? then Releases(d) else DropsRecord);
    forall u | u != v
      ensures Local(h', At(s', u), u) <==> d !in h.attached || !HasSeen(At(s, u), d)
    {
      assert At(s', u) == At(s, u) && Local(h, At(s, u), u);
      DropSparesCallIff(h, h', v, d, u, At(s, u));
    }
    assert Local(h', At(s', v), v);
  }

  /** Dropping the reservation without the lock, after the record. */
  lemma ReleaseStepIsSafeIff(env: Env, s: System, s': System, v: Volume, d: Device)
    requires Inv(s) && VolumeStep(env, s, s', v) && At(s, v) == CleanRelease(d)
    ensures Inv(s') <==> ClearIsSafe(s, v)
  {
    var h, h' := s.host, s'.host;
    assert Local(h, At(s, v), v);
    StepKeepsLocked(env, s, s', v);
    if Unclaimed(h, d) {
      LegalKeepsHost(h, v, DropsReservation(d));
      forall u | u != v ensures Local(h', At(s', u), u) <==> !HasReserved(At(s, u), d) {
        assert At(s', u) == At(s, u) && Local(h, At(s, u), u);
        ReleaseSparesCallIff(h, v, d, u, At(s, u));
      }
      assert Local(h', At(s', v), v);
    } else {
      var u :| Records(h, u, d);
      assert Records(h', u, d) && !Reserved(h', d, u);
    }
  }

  /** A call's step keeps the invariant exactly when it is no unsafe clear without the lock. */
  lemma VolumeStepKeepsInvIff(env: Env, s: System, s': System, v: Volume)
    requires Orderly(env) && Inv(s) && VolumeStep(env, s, s', v)
    ensures Inv(s') <==> ClearIsSafe(s, v)
  {
    var pc := At(s, v);
    if !LockFree(pc) {
      OrdinaryStepKeepsInv(env, s, s', v);
    } else if pc.CleanRelease? {
      ReleaseStepIsSafeIff(env, s, s', v, pc.dev);
    } else {
      DropStepIsSafeIff(env, s, s', v, pc.dev);
    }
  }

  lemma StepKeepsLocked(env: Env, s: System, s': System, v: Volume)
    requires Locked(s) && VolumeStep(env, s, s', v)
    ensures Locked(s')
  {
    assert HoldsLock(At(s, v)) <==> s.lock == Some(v);
    forall u ensures HoldsLock(At(s', u)) <==> s'.lock == Some(u) {
      if u != v {
        assert At(s', u) == At(s, u);
        assert HoldsLock(At(s, u)) <==> s.lock == Some(u);
      }
    }
  }

  lemma DisconnectKeepsLocal(h: Host, d: Device, u: Volume, uc: Pc)
    requires Local(h, uc, u)
    ensures Local(Detach(h, d), uc, u)
  {
    assert forall x, e :: Records(Detach(h, d), x, e) <==> Records(h, x, e);
  }

  /** Losing a connection, by itself or through the reconciler, disturbs no call. */
  lemma DisconnectKeepsInv(s: System, s': System, d: Device)
    requires Inv(s)
    requires s'.host == Detach(s.host, d) && s'.calls == s.calls && s'.lock == s.lock
    ensures Inv(s')
  {
    assert forall x, e :: Records(s'.host, x, e) <==> Records(s.host, x, e);
    forall u ensures At(s', u) == At(s, u) && Local(s'.host, At(s', u), u) {
      assert Local(s.host, At(s, u), u);
      DisconnectKeepsLocal(s.host, d, u, At(s, u));
    }
  }

  lemma CrashKeepsInv(s: System)
    requires Inv(s)
    ensures Inv(Crashed(s))
  {
    var s' := Crashed(s);
    forall u ensures Local(s'.host, At(s', u), u) && !HoldsLock(At(s', u)) {
      assert Local(s.host, At(s, u), u);
    }
  }

  /** So does the system's step: nothing else can break the invariant. */
  lemma NextKeepsInvIff(env: Env, s: System, s': System, e: Event)
    requires Orderly(env) && Inv(s) && Next(env, s, s', e)
    ensures Inv(s') <==> Careful(s, e)
  {
    match e
    case Call(v) => VolumeStepKeepsInvIff(env, s, s', v);
    case Drop(d) => DisconnectKeepsInv(s, s', d);
    case Look(d) => UnchangedKeepsInv(s, s');
    case Reconcile =>
      if s'.host == s.host {
        UnchangedKeepsInv(s, s');
      } else {
        DisconnectKeepsInv(s, s', s.reconciler.dev);
      }
    case Crash => CrashKeepsInv(s);
  }

  lemma UnchangedKeepsInv(s: System, s': System)
    requires Inv(s) && s' == s.(reconciler := s'.reconciler)
    ensures Inv(s')
  {
    assert forall u :: At(s', u) == At(s, u);
  }

  ghost predicate CarefulAt(states: seq<System>, events: seq<Event>, i: nat)
    requires i < |events| && |states| == |events| + 1
  {
    Careful(states[i], events[i])
  }

  /** Every clear without the lock in the run is safe when it happens. */
  ghost predicate CarefulRun(states: seq<System>, events: seq<Event>)
    requires |states| == |events| + 1
  {
    forall i: nat :: i < |events| ==> CarefulAt(states, events, i)
  }

  /** The invariant holds in every state of every careful run that starts in it. */
  lemma {:induction false} RunKeepsInv(env: Env, states: seq<System>, events: seq<Event>, i: nat)
    requires Orderly(env) && IsRun(env, states, events) && CarefulRun(states, events) && Inv(states[0])
    requires i < |states|
    ensures Inv(states[i])
  {
    if i > 0 {
      RunKeepsInv(env, states, events, i - 1);
      assert StepAt(env, states, events, i - 1) && CarefulAt(states, events, i - 1);
      NextKeepsInvIff(env, states[i - 1], states[i], events[i - 1]);
    }
  }

  /** And in no other: a run is careful exactly when the invariant holds in all its states. */
  lemma InvariantRunsAreCareful(env: Env, states: seq<System>, events: seq<Event>)
    requires Orderly(env) && IsRun(env, states, events) && Inv(states[0])
    ensures CarefulRun(states, events) <==> forall i :: 0 <= i < |states| ==> Inv(states[i])
  {
    if CarefulRun(states, events) {
      forall i | 0 <= i < |states| ensures Inv(states[i]) {
        RunKeepsInv(env, states, events, i);
      }
    } else if forall i :: 0 <= i < |states| ==> Inv(states[i]) {
      forall i: nat | i < |events| ensures CarefulAt(states, events, i) {
        assert StepAt(env, states, events, i) && Inv(states[i]) && Inv(states[i + 1]);
        NextKeepsInvIff(env, states[i], states[i + 1], events[i]);
      }
    }
  }

  /** A node with no volumes on it and no call made yet, whatever reservations and disk files
      are left from before. */
  ghost predicate FreshNode(s: System) {
    && s.host.records == map[] && s.host.attached == map[] && s.host.mounts == map[]
    && SizedOnce(s.host)
    && (forall v :: At(s, v) == Idle(Never)) && s.lock == None && s.reconciler == Looking
  }

  lemma FreshNodeHasInv(s: System)
    requires FreshNode(s)
    ensures Inv(s)
  {
  }
}
