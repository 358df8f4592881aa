/**
 NodePublishVolume and NodeUnpublishVolume as a small-step system.

 Every volume has at most one call in flight, and the calls of different volumes
 interleave at every step.  A step makes at most one change: to an index file, a
 mount, a disk or a connection.  Reads that nobody else can upset are part of the
 step that acts on them; what a scan reads of another volume is a step by itself.
 So a crash can fall between the creation of an index file and its writing.  (The
 exceptions: the one-step form of the deferred clear, and the re-creation of a
 reservation in a branch of reserveNBDDevice that no run takes.)  nbdMu is
 explicit: steps inside a locked region are taken by the holder only, the others
 run freely beside it.  The startup reconciler looks at a device and detaches it
 later without taking the lock, and a device may drop its connection at any time.
 */
module NbdProtocol {
  import opened Options
  import opened NodeHost

  /** How the clear in a failed publish's deferred cleanup goes, which takes no lock: as two
      removals, with steps of other calls between them; as a single step; or as if it took
      nbdMu.  The first two happen at any time, inside another call's locked region too. */
  datatype Deferral = TwoSteps | OneStep | UnderLock

  /** What may be relied on about the node; each field is one assumption. */
  datatype Env = Env(
    deferred: Deferral,
    agedSafe: bool,           // the two-hour rule spares a reservation whose volume records the device
    umountEnds: bool,         // umount leaves the target unmounted
    writesLand: bool,         // index-file writes either land or leave nothing behind
    blkidTruthful: bool,      // blkid prints nothing only where there is no filesystem
    detachFails: set<Volume>, // volumes whose device a stale cleanup or an unpublish may fail to detach
    cleanupFails: set<Volume>, // volumes whose device the deferred cleanup may fail to detach
    sysfsFails: set<Volume>)  // volumes the connection state of whose device may be unreadable

  /** How the last call of a volume ended. */
  datatype Outcome = Never | Published | Failed | Unpublished | Interrupted

  /** The device NodeUnpublishVolume settles on: found by findmnt or in the state
      file, the 9p socket of a half-done publish, or none. */
  datatype Source = Unknown | Socket | Dev(dev: Device)

  datatype ClearReason = StaleState | MissingDevice | ConnectFailed | Deferred | Unpublishing

  datatype Region = StaleRegion | ReserveRegion | ClearRegion(src: Source, why: ClearReason)

  datatype Pc =
    | Idle(last: Outcome)
    // publish: idempotency check, stale state
    | Check
    | DropStaleMount
    | Want(region: Region)
    | StaleRead
    | StaleDetach(dev: Device)
    // clearVolumeNBDState
    | ClearRecord(src: Source, why: ClearReason)
    | ClearReservation(src: Source, why: ClearReason)
    // publish: pod, 9p, disk file
    | Prepare
    | Mount9p
    | MakeDisk
    | Umount9p
    // reserveNBDDevice
    | ReserveRead
    | Reuse(dev: Device)
    | Scan
    | Collect(dev: Device)
    | Inspect(dev: Device, content: Content<Volume>)
    | Discard(dev: Device)
    | Create(dev: Device)
    | Name(dev: Device)
    | Truncate(dev: Device)
    | Fill(dev: Device)
    // publish: connect, format, mount
    | Connect(dev: Device)
    | Probe(dev: Device)
    | Format(dev: Device)
    | MountFs(dev: Device)
    | Abort(dev: Device)
    // publish: deferred cleanup
    | CleanUmount
    | CleanRead
    | CleanDetach(dev: Device)
    | CleanClear(dev: Device)    // both removals, or ...
    | CleanDrop(dev: Device)     // ... that of the record
    | CleanRelease(dev: Device)  // ... and that of the reservation
    | CleanPod
    // unpublish
    | UnpFind
    | UnpUmount(src: Source)
    | UnpRead(src: Source)
    | UnpDetach(src: Source)
    | UnpPod(src: Source)

  datatype Reconciler = Looking | Detaching(dev: Device)

  datatype System = System(
    host: Host,
    calls: map<Volume, Pc>,
    lock: Option<Volume>,
    reconciler: Reconciler)

  function At(s: System, v: Volume): Pc {
    if v in s.calls then s.calls[v] else Idle(Never)
  }

  // ---- Fallible operations ----

  predicate Unmounting(env: Env, h: Host, h': Host, v: Volume) {
    h' == Unmount(h, v) || (!env.umountEnds && h' == h)
  }

  predicate DetachTry(fails: set<Volume>, h: Host, h': Host, v: Volume, d: Device) {
    h' == Detach(h, d) || (v in fails && h' == h)
  }

  function SourceOf(h: Host, v: Volume): Source {
    if v !in h.mounts then Unknown
    else if h.mounts[v].Nbd? then Dev(h.mounts[v].dev)
    else Socket
  }

  function Enter(r: Region): Pc {
    match r
    case StaleRegion => StaleRead
    case ReserveRegion => ReserveRead
    case ClearRegion(src, why) => ClearRecord(src, why)
  }

  function AfterClear(why: ClearReason): Pc {
    match why
    case StaleState => Prepare
    case MissingDevice => Scan
    case ConnectFailed => CleanUmount
    case Deferred => CleanPod
    case Unpublishing => Idle(Unpublished)
  }

  /** Where clearVolumeNBDState begins. */
  function ClearPc(env: Env, src: Source, why: ClearReason): Pc {
    if why != Deferred || !src.Dev? || env.deferred == UnderLock then ClearRecord(src, why)
    else if env.deferred == OneStep then CleanClear(src.dev)
    else CleanDrop(src.dev)
  }

  /** The clear of a failed publish's deferred cleanup holds no lock of its own. */
  function AfterCleanDetach(env: Env, d: Device): Pc {
    if env.deferred == UnderLock then Want(ClearRegion(Dev(d), Deferred)) else ClearPc(env, Dev(d), Deferred)
  }

  predicate HoldsLock(pc: Pc) {
    match pc
    case ClearRecord(_, _) | ClearReservation(_, _) | StaleRead | StaleDetach(_) | ReserveRead | Reuse(_) | Scan
       | Collect(_) | Inspect(_, _) | Discard(_) | Create(_) | Name(_) | Truncate(_) | Fill(_) => true
    case _ => false
  }

  // ---- One step of one call ----

  /** Inside reserveNBDDevice. */
  predicate Reserving(pc: Pc) {
    || pc.ReserveRead? || pc.Reuse? || pc.Scan? || pc.Collect? || pc.Inspect? || pc.Discard?
    || pc.Create? || pc.Name? || pc.Truncate? || pc.Fill?
  }

  /** Inside a clear that takes no lock. */
  predicate LockFree(pc: Pc) {
    pc.CleanClear? || pc.CleanDrop? || pc.CleanRelease?
  }

  /** Inside the cleanup of stale state, or clearVolumeNBDState. */
  predicate Clearing(pc: Pc) {
    pc.StaleRead? || pc.StaleDetach? || pc.ClearRecord? || pc.ClearReservation? || LockFree(pc)
  }

  /** Publishing over a reserved device. */
  predicate Using(pc: Pc) {
    pc.Connect? || pc.Probe? || pc.Format? || pc.MountFs? || pc.Abort?
  }

  /** The deferred cleanup of a failed publish. */
  predicate Undoing(pc: Pc) {
    pc.CleanUmount? || pc.CleanRead? || pc.CleanDetach? || pc.CleanPod?
  }

  /** Inside an unpublish, before its clear. */
  predicate Ending(pc: Pc) {
    pc.UnpFind? || pc.UnpUmount? || pc.UnpRead? || pc.UnpDetach? || pc.UnpPod?
  }

  /** The rest: idle, waiting for the lock, or publishing before a device is reserved. */
  predicate Starting(pc: Pc) {
    !Reserving(pc) && !Clearing(pc) && !Using(pc) && !Undoing(pc) && !Ending(pc)
  }

  predicate StartAct(env: Env, h: Host, pc: Pc, v: Volume, h': Host, pc': Pc) {
    match pc
    case Idle(_) =>
      h' == h && (pc' == Check || pc' == UnpFind)
    case Check =>
      && h' == h
      && pc' == (if v !in h.mounts then Want(StaleRegion)
                 else if h.mounts[v].Nbd? then Idle(Published)
                 else DropStaleMount)
    case DropStaleMount =>
      Unmounting(env, h, h', v) && pc' == Want(StaleRegion)
    case Want(r) =>
      h' == h && pc' == Enter(r)
    case Prepare =>
      h' == h && (pc' == Mount9p || pc' == CleanUmount)
    case Mount9p =>
      || (h' == MountOn(h, v, NineP) && pc' == MakeDisk)
      || (v in h.mounts && h' == h && pc' == MakeDisk)
      || (h' == h && pc' == CleanUmount)
    case MakeDisk =>
      || (h' == Sized(h, v) && pc' == Umount9p)
      || (h' == h && pc' == CleanUmount)
    case Umount9p =>
      || (h' == Unmount(h, v) && pc' == Want(ReserveRegion))
      || (h' == h && pc' == CleanUmount)
    case _ => false
  }

  predicate ReserveAct(env: Env, h: Host, pc: Pc, v: Volume, h': Host, pc': Pc) {
    match pc
    case ReserveRead =>
      && h' == h
      && (|| pc' == CleanUmount
          || (if v in h.records && h.records[v].Holds?
              then pc' == Reuse(h.records[v].value) || pc' == ClearRecord(Dev(h.records[v].value), MissingDevice)
              else pc' == Scan))
    case Reuse(d) =>
      && (|| h' == h
          || (&& d !in h.reservations
              && (h' == WriteReservation(h, d, Holds(v)) || (!env.writesLand && h' == WriteReservation(h, d, Empty)))))
      && pc' == Connect(d)
    case Scan =>
      && h' == h
      && (pc' == CleanUmount || (pc'.Collect? && pc'.dev !in h.attached))
    case Collect(d) =>
      h' == h && pc' == if d in h.reservations then Inspect(d, h.reservations[d]) else Create(d)
    case Inspect(d, c) =>
      && h' == h
      && if c == Empty || c.value !in h.records then pc' == Discard(d)
         else pc' == Create(d) || ((env.agedSafe ==> !Records(h, c.value, d)) && pc' == Discard(d))
    case Discard(d) =>
      h' == RemoveReservation(h, d) && pc' == Create(d)
    case Create(d) =>
      || (d !in h.reservations && h' == WriteReservation(h, d, Empty) && pc' == Name(d))
      || (h' == h && pc' == Scan)
    case Name(d) =>
      && (h' == WriteReservation(h, d, Holds(v)) || (!env.writesLand && h' == h))
      && pc' == Truncate(d)
    case Truncate(d) =>
      || (h' == WriteRecord(h, v, Empty) && pc' == Fill(d))
      || (h' == RemoveReservation(h, d) && pc' == CleanUmount)
    case Fill(d) =>
      || (h' == WriteRecord(h, v, Holds(d)) && pc' == Connect(d))
      || (!env.writesLand && h' == RemoveReservation(h, d) && pc' == CleanUmount)
    case _ => false
  }

  predicate ClearAct(env: Env, h: Host, pc: Pc, v: Volume, h': Host, pc': Pc) {
    match pc
    case StaleRead =>
      && h' == h
      && if v in h.records && h.records[v].Holds? then
           var d := h.records[v].value;
           || (d in h.attached && pc' == StaleDetach(d))
           || ((d in h.attached ==> v in env.sysfsFails) && pc' == ClearRecord(Dev(d), StaleState))
         else pc' == Prepare
    case StaleDetach(d) =>
      DetachTry(env.detachFails, h, h', v, d) && pc' == ClearRecord(Dev(d), StaleState)
    case ClearRecord(src, why) =>
      h' == RemoveRecord(h, v) && pc' == ClearReservation(src, why)
    case ClearReservation(src, why) =>
      h' == (if src.Dev? then RemoveReservation(h, src.dev) else h) && pc' == AfterClear(why)
    case CleanClear(d) =>
      h' == RemoveReservation(RemoveRecord(h, v), d) && pc' == AfterClear(Deferred)
    case CleanDrop(d) =>
      h' == RemoveRecord(h, v) && pc' == CleanRelease(d)
    case CleanRelease(d) =>
      h' == RemoveReservation(h, d) && pc' == AfterClear(Deferred)
    case _ => false
  }

  predicate UseAct(env: Env, h: Host, pc: Pc, v: Volume, h': Host, pc': Pc) {
    match pc
    case Connect(d) =>
      || (d !in h.attached && h' == Attach(h, d, v) && pc' == Probe(d))
      || (h' == h && pc' == Want(ClearRegion(Dev(d), ConnectFailed)))
    case Probe(d) =>
      && h' == h
      && (|| (d in h.attached && HasFilesystem(h, h.attached[d]) && pc' == MountFs(d))
          || ((env.blkidTruthful ==> !(d in h.attached && HasFilesystem(h, h.attached[d]))) && pc' == Format(d)))
    case Format(d) =>
      || (d in h.attached && h' == FormatDevice(h, d) && (pc' == MountFs(d) || pc' == Abort(d)))
      || (h' == h && pc' == Abort(d))
    case MountFs(d) =>
      || (&& d in h.attached && HasFilesystem(h, h.attached[d])
          && h' == MountOn(h, v, Nbd(d)) && (pc' == Idle(Published) || pc' == Abort(d)))
      || (h' == h && pc' == Abort(d))
    case Abort(d) =>
      (h' == Detach(h, d) || h' == h) && pc' == CleanUmount
    case _ => false
  }

  predicate UndoAct(env: Env, h: Host, pc: Pc, v: Volume, h': Host, pc': Pc) {
    match pc
    case CleanUmount =>
      Unmounting(env, h, h', v) && pc' == CleanRead
    case CleanRead =>
      && h' == h
      && pc' == (if v in h.records && h.records[v].Holds? then CleanDetach(h.records[v].value) else CleanPod)
    case CleanDetach(d) =>
      DetachTry(env.cleanupFails, h, h', v, d) && pc' == AfterCleanDetach(env, d)
    case CleanPod =>
      h' == h && pc' == Idle(Failed)
    case _ => false
  }

  predicate UnpublishAct(env: Env, h: Host, pc: Pc, v: Volume, h': Host, pc': Pc) {
    match pc
    case UnpFind =>
      h' == h && pc' == UnpUmount(SourceOf(h, v))
    case UnpUmount(src) =>
      Unmounting(env, h, h', v) && pc' == UnpRead(src)
    case UnpRead(src) =>
      && h' == h
      && pc' == UnpDetach(if src == Unknown && v in h.records && h.records[v].Holds?
                          then Dev(h.records[v].value) else src)
    case UnpDetach(src) =>
      (if src.Dev? then DetachTry(env.detachFails, h, h', v, src.dev) else h' == h) && pc' == UnpPod(src)
    case UnpPod(src) =>
      h' == h && pc' == Want(ClearRegion(src, Unpublishing))
    case _ => false
  }

  /** From (h, pc) the call of v can go to (h', pc'). */
  predicate Act(env: Env, h: Host, pc: Pc, v: Volume, h': Host, pc': Pc) {
    if Reserving(pc) then ReserveAct(env, h, pc, v, h', pc')
    else if Clearing(pc) then ClearAct(env, h, pc, v, h', pc')
    else if Using(pc) then UseAct(env, h, pc, v, h', pc')
    else if Undoing(pc) then UndoAct(env, h, pc, v, h', pc')
    else if Ending(pc) then UnpublishAct(env, h, pc, v, h', pc')
    else StartAct(env, h, pc, v, h', pc')
  }

  /** Volume v's call takes one step; a step into a locked region waits for nbdMu. */
  predicate VolumeStep(env: Env, s: System, s': System, v: Volume) {
    var pc, pc' := At(s, v), At(s', v);
    && Act(env, s.host, pc, v, s'.host, pc')
    && s'.calls == s.calls[v := pc']
    && s'.reconciler == s.reconciler
    && (if !HoldsLock(pc) && HoldsLock(pc') then s.lock == None && s'.lock == Some(v)
        else if HoldsLock(pc) && !HoldsLock(pc') then s'.lock == None
        else s'.lock == s.lock)
  }

  // ---- Steps of the surroundings ----

  /** A connection drops by itself. */
  predicate DropStep(s: System, s': System, d: Device) {
    s' == s.(host := Detach(s.host, d))
  }

  /** The reconciler picks a device that is connected and mounted nowhere ... */
  ghost predicate LookStep(s: System, s': System, d: Device) {
    && s.reconciler == Looking
    && d in s.host.attached
    && (forall v :: v in s.host.mounts ==> s.host.mounts[v] != Nbd(d))
    && s' == s.(reconciler := Detaching(d))
  }

  /** ... and detaches it, whatever has happened to it in the meantime. */
  predicate ReconcileStep(s: System, s': System) {
    && s.reconciler.Detaching?
    && (|| s' == s.(host := Detach(s.host, s.reconciler.dev), reconciler := Looking)
        || s' == s.(reconciler := Looking))
  }

  function Interrupt(pc: Pc): Pc {
    if pc.Idle? then pc else Idle(Interrupted)
  }

  /** The driver dies and restarts: calls and the mutex are gone, the host stays. */
  function Crashed(s: System): System {
    System(s.host, map v | v in s.calls :: Interrupt(s.calls[v]), None, Looking)
  }

  datatype Event = Call(v: Volume) | Drop(d: Device) | Look(d: Device) | Reconcile | Crash

  ghost predicate Next(env: Env, s: System, s': System, e: Event) {
    match e
    case Call(v) => VolumeStep(env, s, s', v)
    case Drop(d) => DropStep(s, s', d)
    case Look(d) => LookStep(s, s', d)
    case Reconcile => ReconcileStep(s, s')
    case Crash => s' == Crashed(s)
  }

  ghost predicate StepAt(env: Env, states: seq<System>, events: seq<Event>, i: nat)
    requires i < |events| && |states| == |events| + 1
  {
    Next(env, states[i], states[i + 1], events[i])
  }

  /** A run: |events| steps through |events| + 1 states. */
  ghost predicate IsRun(env: Env, states: seq<System>, events: seq<Event>) {
    && |states| == |events| + 1
    && forall i: nat :: i < |events| ==> StepAt(env, states, events, i)
  }
}
