/**
 The node service as imperative code: reserveNBDDevice, clearVolumeNBDState and the other
 functions of pkg/csi/nbd.go, the startup reconciler, NodePublishVolume and
 NodeUnpublishVolume of pkg/csi/node.go.

 A Node carries, as ghost state, the run of the protocol that its executed statements
 make up: every operation appends the step it takes, and Ready() says that the result is
 a run.  The theorems about runs thereby hold of this code, called one volume at a time;
 the interleaving of calls is the protocol's.
 */
module NodeService {
  import opened Options
  import opened NodeHost
  import opened NbdDevices
  import opened NbdProtocol
  import opened NbdHistory

  /** detachNBDDeviceBestEffort tries five times; the given number of tries fails first. */
  predicate Succeeds(failures: nat) {
    failures < 5
  }

  /** How the fallible operations of a publish turn out. */
  datatype PublishWorld = PublishWorld(
    staleUmounts: bool,        // umount of what an earlier attempt left on the target works
    staleReadable: bool,       // connection state of a stale device can be read
    staleDetach: nat,          // failing attempts before it is detached
    prepared: bool,            // target directory, configMapName, pod and socket are there
    mounted9p: bool,
    diskReady: bool,           // capacity given, stat and truncate work
    umounted9p: bool,
    scan: ScanWorld,
    connects: bool,
    blkidErrs: bool,           // blkid prints nothing although there is a filesystem
    mkfsWrites: bool,          // a filesystem gets written ...
    mkfsSucceeds: bool,        // ... and mkfs says so
    mountTakes: bool,          // the device gets mounted ...
    mountSucceeds: bool,       // ... and mount says so
    abortDetaches: bool,       // the single detach after a failed mkfs or mount
    cleanupUmounts: bool,      // umount in the deferred cleanup works
    cleanupDetach: nat)        // failing attempts of the deferred cleanup

  /** The outcomes are among those the environment allows. */
  ghost predicate Allows(env: Env, w: PublishWorld, v: Volume) {
    && (v !in env.detachFails ==> Succeeds(w.staleDetach))
    && (v !in env.cleanupFails ==> Succeeds(w.cleanupDetach))
    && (v !in env.sysfsFails ==> w.staleReadable)
    && (env.umountEnds ==> w.staleUmounts && w.cleanupUmounts)
    && (env.blkidTruthful ==> !w.blkidErrs)
    && (env.writesLand ==> w.scan.nameLands && !w.scan.emptyLeft)
    && (w.mkfsSucceeds ==> w.mkfsWrites)
    && (w.mountSucceeds ==> w.mountTakes)
  }

  ghost predicate AllowsScan(env: Env, h: Host, w: ScanWorld) {
    && (env.agedSafe ==> AgedUnrecorded(h, w.aged))
    && (env.writesLand ==> w.nameLands && !w.emptyLeft)
  }

  /** The two-hour rule meets no reservation whose volume records the device. */
  ghost predicate AgedUnrecorded(h: Host, aged: set<Device>) {
    forall d :: d in aged && d in h.reservations && h.reservations[d].Holds? ==>
      !Records(h, h.reservations[d].value, d)
  }

  // ---- Host changes made of several operations ----

  function ClearState(h: Host, v: Volume, src: Source): Host {
    if src.Dev? then RemoveReservation(RemoveRecord(h, v), src.dev) else RemoveRecord(h, v)
  }

  /** Where clearVolumeNBDState stands between its two removals. */
  function Between(pc: Pc): Pc {
    match pc
    case ClearRecord(src, why) => ClearReservation(src, why)
    case CleanDrop(d) => CleanRelease(d)
    case _ => pc
  }

  function UnmountIf(h: Host, v: Volume, unmounted: bool): Host {
    if unmounted then Unmount(h, v) else h
  }

  /** What the cleanup of stale state, or of a failed publish, makes of the host. */
  function Forget(h: Host, v: Volume, detached: bool): Host {
    if v in h.records && h.records[v].Holds?
    then ClearState(DetachIf(h, h.records[v].value, detached), v, Dev(h.records[v].value))
    else h
  }

  class Node {
    var records: map<Volume, Content<Device>>
    var reservations: map<Device, Content<Volume>>
    var attached: map<Device, Volume>
    var mounts: map<Volume, Mount>
    var disks: map<Volume, Disk>

    ghost const env: Env
    ghost var run: History

    /** A node on which the given run has ended between two calls of its caller. */
    constructor (h: Host, ghost env: Env, ghost t: History, ghost last: Outcome)
      requires Reached(env, t, t.session.caller, Idle(last), h)
      ensures this.env == env && run == t && Now() == h && Ready(t.session.caller, Idle(last))
    {
      records, reservations, attached, mounts, disks := h.records, h.reservations, h.attached, h.mounts, h.disks;
      this.env, run := env, t;
    }

    ghost function Now(): Host
      reads this
    {
      Host(records, reservations, attached, mounts, disks)
    }

    /** v's call is at pc and everything it did is part of the run. */
    ghost predicate Ready(v: Volume, pc: Pc)
      reads this
    {
      Reached(env, run, v, pc, Now())
    }

    // ---- pkg/csi/nbd.go ----

    method ReadVolumeNBDState(v: Volume) returns (dev: Option<Device>)
      ensures dev.Some? <==> v in records && records[v].Holds?
      ensures dev.Some? ==> Records(Now(), v, dev.value)
    {
      dev := if v in records && records[v].Holds? then Some(records[v].value) else None;
    }

    /** nbd-client -d, up to five times. */
    method DetachNBDDeviceBestEffort(d: Device, failures: nat)
      modifies this`attached
      ensures attached == if failures < 5 then old(attached) - {d} else old(attached)
    {
      for i := 0 to 5
        invariant attached == old(attached)
        invariant i <= failures
      {
        if i == failures {
          attached := attached - {d};
          return;
        }
      }
    }

    /** Removes v's state file and, when the device is known, its reservation. */
    method ClearVolumeNBDState(v: Volume, src: Source, ghost why: ClearReason, ghost next: Pc)
      requires Ready(v, ClearPc(env, src, why)) && next == AfterClear(why)
      modifies this`records, this`reservations, this`run
      ensures Now() == ClearState(old(Now()), v, src)
      ensures run.session == old(run.session)
      ensures Ready(v, next)
    {
      ghost var between := RemoveStateFile(v, src, why);
      if src.Dev? {
        reservations := reservations - {src.dev};
      }
      run := LogClear(env, run, v, between, next, Now());
    }

    /** Where the clear is one step of the run, the step is still to be taken. */
    method RemoveStateFile(v: Volume, ghost src: Source, ghost why: ClearReason) returns (ghost between: Pc)
      requires Ready(v, ClearPc(env, src, why))
      modifies this`records, this`run
      ensures Now() == RemoveRecord(old(Now()), v)
      ensures run.session == old(run.session)
      ensures between == Between(ClearPc(env, src, why))
      ensures Arrived(env, run, v, between) && Last(run).host == if between.CleanClear? then old(Now()) else Now()
    {
      ghost var pc := ClearPc(env, src, why);
      between := Between(pc);
      records := records - {v};
      if !pc.CleanClear? {
        run := LogClear(env, run, v, pc, between, Now());
      }
    }

    // ---- pkg/csi/nbd.go: reserveNBDDevice ----

    /** Garbage collection of the reservation on an unconnected device. */
    method CollectReservation(v: Volume, d: Device, w: ScanWorld)
      requires Ready(v, Scan) && d !in attached && AllowsScan(env, Now(), w)
      modifies this`reservations, this`run
      ensures Now() == if Collectible(old(Now()), w, d) then RemoveReservation(old(Now()), d) else old(Now())
      ensures run.session == old(run.session)
      ensures Ready(v, Create(d))
    {
      run := LogReserve(env, run, v, Scan, Collect(d), Now());
      if d in reservations {
        InspectReservation(v, d, w);
      } else {
        run := LogReserve(env, run, v, Collect(d), Create(d), Now());
      }
    }

    /** Reads the reservation and looks for the state file of the volume it names. */
    method InspectReservation(v: Volume, d: Device, w: ScanWorld)
      requires Ready(v, Collect(d)) && d in reservations && AllowsScan(env, Now(), w)
      modifies this`reservations, this`run
      ensures Now() == if Collectible(old(Now()), w, d) then RemoveReservation(old(Now()), d) else old(Now())
      ensures run.session == old(run.session)
      ensures Ready(v, Create(d))
    {
      var c := reservations[d];
      run := LogReserve(env, run, v, Collect(d), Inspect(d, c), Now());
      if c == Empty || c.value !in records || d in w.aged {
        run := LogReserve(env, run, v, Inspect(d, c), Discard(d), Now());
        DiscardReservation(v, d);
      } else {
        run := LogReserve(env, run, v, Inspect(d, c), Create(d), Now());
      }
    }

    method DiscardReservation(v: Volume, d: Device)
      requires Ready(v, Discard(d))
      modifies this`reservations, this`run
      ensures Now() == RemoveReservation(old(Now()), d)
      ensures run.session == old(run.session)
      ensures Ready(v, Create(d))
    {
      reservations := reservations - {d};
      run := LogReserve(env, run, v, Discard(d), Create(d), Now());
    }

    /** O_CREATE|O_EXCL on the reservation, then the volume's name. */
    method CreateReservation(v: Volume, d: Device, creatable: bool, lands: bool) returns (created: bool)
      requires Ready(v, Create(d)) && (env.writesLand ==> lands)
      modifies this`reservations, this`run
      ensures created == (creatable && d !in old(reservations))
      ensures !created ==> Now() == old(Now())
      ensures created ==> Now() == WriteReservation(old(Now()), d, if lands then Holds(v) else Empty)
      ensures run.session == old(run.session)
      ensures created ==> Ready(v, Truncate(d))
      ensures !created ==> Ready(v, Scan)
    {
      created := creatable && d !in reservations;
      if !created {
        run := LogReserve(env, run, v, Create(d), Scan, Now());
        return;
      }
      WrittenTwice(Now(), v, d);
      MakeReservation(v, d);
      NameReservation(v, d, lands);
    }

    method MakeReservation(v: Volume, d: Device)
      requires Ready(v, Create(d)) && d !in reservations
      modifies this`reservations, this`run
      ensures Now() == WriteReservation(old(Now()), d, Empty)
      ensures run.session == old(run.session)
      ensures Ready(v, Name(d))
    {
      reservations := reservations[d := Empty];
      run := LogReserve(env, run, v, Create(d), Name(d), Now());
    }

    method NameReservation(v: Volume, d: Device, lands: bool)
      requires Ready(v, Name(d)) && (env.writesLand ==> lands)
      modifies this`reservations, this`run
      ensures Now() == if lands then WriteReservation(old(Now()), d, Holds(v)) else old(Now())
      ensures run.session == old(run.session)
      ensures Ready(v, Truncate(d))
    {
      if lands {
        reservations := reservations[d := Holds(v)];
      }
      run := LogReserve(env, run, v, Name(d), Truncate(d), Now());
    }

    /** The state file: created empty, then written; on failure the reservation goes too. */
    method WriteVolumeNBDState(v: Volume, d: Device, w: ScanWorld)
      requires Ready(v, Truncate(d)) && (env.writesLand ==> !w.emptyLeft)
      modifies this`records, this`reservations, this`run
      ensures Now() == if w.recordWritable then WriteRecord(old(Now()), v, Holds(d))
                       else RemoveReservation(Unwritten(old(Now()), v, w), d)
      ensures run.session == old(run.session)
      ensures w.recordWritable ==> Ready(v, Connect(d))
      ensures !w.recordWritable ==> Ready(v, CleanUmount)
    {
      if w.recordWritable || w.emptyLeft {
        WrittenTwice(Now(), v, d);
        CreateStateFile(v, d);
        FillStateFile(v, d, w.recordWritable);
      } else {
        TakeBackReservation(v, d);
      }
    }

    method TakeBackReservation(v: Volume, d: Device)
      requires Ready(v, Truncate(d))
      modifies this`reservations, this`run
      ensures Now() == RemoveReservation(old(Now()), d)
      ensures run.session == old(run.session)
      ensures Ready(v, CleanUmount)
    {
      reservations := reservations - {d};
      run := LogReserve(env, run, v, Truncate(d), CleanUmount, Now());
    }

    method CreateStateFile(v: Volume, d: Device)
      requires Ready(v, Truncate(d))
      modifies this`records, this`run
      ensures Now() == WriteRecord(old(Now()), v, Empty)
      ensures run.session == old(run.session)
      ensures Ready(v, Fill(d))
    {
      records := records[v := Empty];
      run := LogReserve(env, run, v, Truncate(d), Fill(d), Now());
    }

    method FillStateFile(v: Volume, d: Device, writable: bool)
      requires Ready(v, Fill(d)) && (env.writesLand ==> writable)
      modifies this`records, this`reservations, this`run
      ensures Now() == if writable then WriteRecord(old(Now()), v, Holds(d)) else RemoveReservation(old(Now()), d)
      ensures run.session == old(run.session)
      ensures writable ==> Ready(v, Connect(d))
      ensures !writable ==> Ready(v, CleanUmount)
    {
      if writable {
        records := records[v := Holds(d)];
      } else {
        reservations := reservations - {d};
      }
      run := LogReserve(env, run, v, Fill(d), if writable then Connect(d) else CleanUmount, Now());
    }

    /** One turn of the scan. */
    method TryDevice(v: Volume, d: Device, w: ScanWorld) returns (taken: bool)
      requires Ready(v, Scan)
      requires AllowsScan(env, Now(), w)
      modifies this`records, this`reservations, this`run
      ensures taken == (Free(old(Now()), w, d) && d !in w.uncreatable)
      ensures Now() == Tried(old(Now()), v, w, d)
      ensures run.session == old(run.session)
      ensures !taken ==> Ready(v, Scan)
      ensures taken && w.recordWritable ==> Ready(v, Connect(d))
      ensures taken && !w.recordWritable ==> Ready(v, CleanUmount)
    {
      TrialsByCase(Now(), v, w, d);
      if d in w.unreadable || d in attached {
        return false;
      }
      CollectReservation(v, d, w);
      taken := CreateReservation(v, d, d !in w.uncreatable, w.nameLands);
      if taken {
        WriteVolumeNBDState(v, d, w);
      }
    }

    /** Picks and reserves a device for v; nbdMu is held throughout. */
    method ReserveNBDDevice(v: Volume, w: ScanWorld) returns (r: Option<Device>)
      requires Ready(v, ReserveRead)
      requires AllowsScan(env, Now(), w)
      modifies this`records, this`reservations, this`run
      ensures !w.runDirs ==> r.None? && Now() == old(Now())
      ensures w.runDirs && Unrecorded(old(Now()), v) ==> Scanned(old(Now()), v, w, r, Now())
      ensures forall d :: w.runDirs && Records(old(Now()), v, d) && d in w.nodes ==>
                && r == Some(d) && records == old(records)
                && reservations == if d in old(reservations) || d in w.uncreatable then old(reservations)
                                   else old(reservations)[d := NameOf(w, v)]
      ensures forall d :: w.runDirs && Records(old(Now()), v, d) && d !in w.nodes ==>
                Scanned(RemoveReservation(RemoveRecord(old(Now()), v), d), v, w, r, Now())
      ensures run.session == old(run.session)
      ensures r.Some? ==> Ready(v, Connect(r.value))
      ensures r.None? ==> Ready(v, CleanUmount)
    {
      if !w.runDirs {
        run := LogReserve(env, run, v, ReserveRead, CleanUmount, Now());
        return None;
      }
      var existing := ReadVolumeNBDState(v);
      if existing.Some? && existing.value in w.nodes {
        ReuseDevice(v, existing.value, w);
        return existing;
      }
      if existing.Some? {
        DropMissingDevice(v, existing.value);
      } else {
        run := LogReserve(env, run, v, ReserveRead, Scan, Now());
      }
      FewerRecordsStayUnrecorded(old(Now()), Now(), w.aged);
      r := ScanDevices(v, w);
    }

    method ReuseDevice(v: Volume, d: Device, w: ScanWorld)
      requires Ready(v, ReserveRead) && Records(Now(), v, d) && AllowsScan(env, Now(), w)
      modifies this`reservations, this`run
      ensures reservations == if d in old(reservations) || d in w.uncreatable then old(reservations)
                              else old(reservations)[d := NameOf(w, v)]
      ensures run.session == old(run.session)
      ensures Ready(v, Connect(d))
    {
      run := LogReserve(env, run, v, ReserveRead, Reuse(d), Now());
      if d !in reservations && d !in w.uncreatable {
        reservations := reservations[d := if w.nameLands then Holds(v) else Empty];
      }
      run := LogReserve(env, run, v, Reuse(d), Connect(d), Now());
    }

    method DropMissingDevice(v: Volume, d: Device)
      requires Ready(v, ReserveRead) && Records(Now(), v, d)
      modifies this`records, this`reservations, this`run
      ensures Now() == ClearState(old(Now()), v, Dev(d))
      ensures run.session == old(run.session)
      ensures Ready(v, Scan)
    {
      run := LogReserve(env, run, v, ReserveRead, ClearRecord(Dev(d), MissingDevice), Now());
      ClearVolumeNBDState(v, Dev(d), MissingDevice, Scan);
    }

    /** The scan: the first device in order that can be read, is not connected and whose
        reservation, if it has one, is empty, orphaned or aged. */
    method ScanDevices(v: Volume, w: ScanWorld) returns (r: Option<Device>)
      requires Ready(v, Scan) && AllowsScan(env, Now(), w)
      modifies this`records, this`reservations, this`run
      ensures Scanned(old(Now()), v, w, r, Now())
      ensures r.Some? ==>
                && Whole(r.value) in w.entries && r.value !in w.unreadable && r.value !in attached
                && (r.value in old(reservations) ==>
                      || old(reservations)[r.value] == Empty || old(reservations)[r.value].value !in old(records)
                      || r.value in w.aged)
      ensures r.Some? || w.recordWritable ==>
                forall e: Device :: Whole(e) in w.entries && (r.None? || e < r.value) ==>
                  || e in w.unreadable || e in attached || e in w.uncreatable
                  || (&& e in old(reservations) && old(reservations)[e] != Empty
                      && old(reservations)[e].value in old(records) && e !in w.aged)
      ensures run.session == old(run.session)
      ensures r.Some? ==> Ready(v, Connect(r.value))
      ensures r.None? ==> Ready(v, CleanUmount)
    {
      r := ScanInOrder(v, w);
      ScanIsFirstFit(old(Now()), v, w, r, Now());
    }

    method ScanInOrder(v: Volume, w: ScanWorld) returns (r: Option<Device>)
      requires Ready(v, Scan) && AllowsScan(env, Now(), w)
      modifies this`records, this`reservations, this`run
      ensures Scanned(old(Now()), v, w, r, Now())
      ensures run.session == old(run.session)
      ensures r.Some? ==> Ready(v, Connect(r.value))
      ensures r.None? ==> Ready(v, CleanUmount)
    {
      ghost var h := Now();
      var devs := ListNBDDevices(w.entries);
      assert SpoiledAmong(h, w, devs[..0]) == {};
      var i := 0;
      while i < |devs|
        invariant 0 <= i <= |devs|
        invariant run.session == old(run.session) && Ready(v, Scan)
        invariant Now() == Spoil(h, w, devs[..i])
        invariant forall d :: d in devs[..i] ==> !Fits(h, w, d)
      {
        var taken := ScanTurn(v, w, devs, i, h);
        if taken {
          return if w.recordWritable then Some(devs[i]) else None;
        }
        i := i + 1;
      }
      assert devs[..i] == devs;
      ExhaustedIsScanned(h, v, w, devs, Now());
      GiveUp(v);
      r := None;
    }

    /** The i-th turn of a scan that started on h. */
    method ScanTurn(v: Volume, w: ScanWorld, devs: seq<Device>, i: nat, ghost h: Host) returns (taken: bool)
      requires Sorted(devs) && i < |devs| && (forall n :: n in devs <==> Whole(n) in w.entries)
      requires Ready(v, Scan) && Now() == Spoil(h, w, devs[..i])
      requires AllowsScan(env, h, w)
      requires forall d :: d in devs[..i] ==> !Fits(h, w, d)
      modifies this`records, this`reservations, this`run
      ensures !taken ==> Now() == Spoil(h, w, devs[..i + 1]) && forall d :: d in devs[..i + 1] ==> !Fits(h, w, d)
      ensures taken ==> Scanned(h, v, w, if w.recordWritable then Some(devs[i]) else None, Now())
      ensures run.session == old(run.session)
      ensures !taken ==> Ready(v, Scan)
      ensures taken && w.recordWritable ==> Ready(v, Connect(devs[i]))
      ensures taken && !w.recordWritable ==> Ready(v, CleanUmount)
    {
      SpoilingKeepsFree(h, w, devs[..i], devs[i]);
      taken := TryDevice(v, devs[i], w);
      if taken {
        TakenIsScanned(h, v, w, devs, i, Now());
      } else {
        SpoilsGrow(h, w, devs, i);
      }
    }

    /** No free device: the publish turns to its cleanup. */
    ghost method GiveUp(v: Volume)
      requires Ready(v, Scan)
      modifies this`run
      ensures run.session == old(run.session)
      ensures Ready(v, CleanUmount)
    {
      run := LogReserve(env, run, v, Scan, CleanUmount, Now());
    }

    // ---- pkg/csi/node.go: NodePublishVolume, stage by stage ----

    /** The idempotency check; a 9p export left on the target is unmounted. */
    method CheckTarget(v: Volume, umounts: bool, ghost last: Outcome) returns (done: bool)
      requires Ready(v, Idle(last)) && (env.umountEnds ==> umounts)
      modifies this`mounts, this`run
      ensures done == (v in old(mounts) && old(mounts)[v].Nbd?)
      ensures Now() == if done then old(Now()) else UnmountIf(old(Now()), v, umounts)
      ensures run.session == old(run.session)
      ensures done ==> Ready(v, Idle(Published))
      ensures !done ==> Ready(v, Want(StaleRegion))
    {
      run := LogStart(env, run, v, Idle(last), Check, Now());
      done := v in mounts && mounts[v].Nbd?;
      if done {
        run := LogStart(env, run, v, Check, Idle(Published), Now());
      } else if v in mounts {
        run := LogStart(env, run, v, Check, DropStaleMount, Now());
        DropTarget(v, umounts);
      } else {
        assert mounts - {v} == mounts;
        run := LogStart(env, run, v, Check, Want(StaleRegion), Now());
      }
    }

    method DropTarget(v: Volume, umounts: bool)
      requires Ready(v, DropStaleMount) && (env.umountEnds ==> umounts)
      modifies this`mounts, this`run
      ensures Now() == UnmountIf(old(Now()), v, umounts)
      ensures run.session == old(run.session)
      ensures Ready(v, Want(StaleRegion))
    {
      if umounts {
        mounts := mounts - {v};
      }
      run := LogStart(env, run, v, DropStaleMount, Want(StaleRegion), Now());
    }

    /** Under nbdMu: detaches and forgets the device of an earlier attempt.  Where its
        connection state cannot be read, the device is forgotten without a detach. */
    method CleanStaleState(v: Volume, readable: bool, failures: nat)
      requires Ready(v, Want(StaleRegion))
      requires (v !in env.sysfsFails ==> readable) && (v !in env.detachFails ==> Succeeds(failures))
      modifies this`records, this`reservations, this`attached, this`run
      ensures Now() == Forget(old(Now()), v, readable && Succeeds(failures))
      ensures run.session == old(run.session)
      ensures Ready(v, Prepare)
    {
      run := LogStart(env, run, v, Want(StaleRegion), StaleRead, Now());
      var stale := ReadVolumeNBDState(v);
      if stale.Some? {
        DetachStale(v, stale.value, readable, failures);
        ClearVolumeNBDState(v, Dev(stale.value), StaleState, Prepare);
      } else {
        run := LogClear(env, run, v, StaleRead, Prepare, Now());
      }
    }

    method DetachStale(v: Volume, d: Device, readable: bool, failures: nat)
      requires Ready(v, StaleRead) && Records(Now(), v, d)
      requires (v !in env.sysfsFails ==> readable) && (v !in env.detachFails ==> Succeeds(failures))
      modifies this`attached, this`run
      ensures Now() == DetachIf(old(Now()), d, readable && Succeeds(failures))
      ensures run.session == old(run.session)
      ensures Ready(v, ClearRecord(Dev(d), StaleState))
    {
      if readable && d in attached {
        run := LogClear(env, run, v, StaleRead, StaleDetach(d), Now());
        DetachNBDDeviceBestEffort(d, failures);
        run := LogClear(env, run, v, StaleDetach(d), ClearRecord(Dev(d), StaleState), Now());
      } else {
        assert d !in attached ==> attached - {d} == attached;
        run := LogClear(env, run, v, StaleRead, ClearRecord(Dev(d), StaleState), Now());
      }
    }

    /** Target directory, pod and socket, then the 9p export on the target; a mount that fails
        where something is mounted already does not stop the publish. */
    method MountExport(v: Volume, prepared: bool, mounted: bool) returns (ok: bool)
      requires Ready(v, Prepare)
      modifies this`mounts, this`run
      ensures ok == (prepared && (mounted || v in old(mounts)))
      ensures Now() == if prepared && mounted then MountOn(old(Now()), v, NineP) else old(Now())
      ensures run.session == old(run.session)
      ensures ok ==> Ready(v, MakeDisk)
      ensures !ok ==> Ready(v, CleanUmount)
    {
      if !prepared {
        run := LogStart(env, run, v, Prepare, CleanUmount, Now());
        return false;
      }
      run := LogStart(env, run, v, Prepare, Mount9p, Now());
      ok := MountOverSocket(v, mounted);
    }

    method MountOverSocket(v: Volume, mounted: bool) returns (ok: bool)
      requires Ready(v, Mount9p)
      modifies this`mounts, this`run
      ensures ok == (mounted || v in old(mounts))
      ensures Now() == if mounted then MountOn(old(Now()), v, NineP) else old(Now())
      ensures run.session == old(run.session)
      ensures ok ==> Ready(v, MakeDisk)
      ensures !ok ==> Ready(v, CleanUmount)
    {
      ok := mounted || v in mounts;
      if mounted {
        mounts := mounts[v := NineP];
      }
      run := LogStart(env, run, v, Mount9p, if ok then MakeDisk else CleanUmount, Now());
    }

    /** Sizes the disk file if it is absent, and unmounts the export. */
    method MakeDiskFile(v: Volume, ready: bool, umounted: bool) returns (ok: bool)
      requires Ready(v, MakeDisk)
      modifies this`disks, this`mounts, this`run
      ensures ok == (ready && umounted)
      ensures ok ==> Now() == Unmount(Sized(old(Now()), v), v)
      ensures !ok ==> Now() == if ready then Sized(old(Now()), v) else old(Now())
      ensures run.session == old(run.session)
      ensures ok ==> Ready(v, Want(ReserveRegion))
      ensures !ok ==> Ready(v, CleanUmount)
    {
      if !ready {
        run := LogStart(env, run, v, MakeDisk, CleanUmount, Now());
        return false;
      }
      SizeDiskFile(v);
      ok := UnmountExport(v, umounted);
    }

    method SizeDiskFile(v: Volume)
      requires Ready(v, MakeDisk)
      modifies this`disks, this`run
      ensures Now() == Sized(old(Now()), v)
      ensures run.session == old(run.session)
      ensures Ready(v, Umount9p)
    {
      if v !in disks {
        disks := disks[v := Disk(1, 0)];
      }
      run := LogStart(env, run, v, MakeDisk, Umount9p, Now());
    }

    method UnmountExport(v: Volume, umounted: bool) returns (ok: bool)
      requires Ready(v, Umount9p)
      modifies this`mounts, this`run
      ensures ok == umounted && Now() == if ok then Unmount(old(Now()), v) else old(Now())
      ensures run.session == old(run.session)
      ensures ok ==> Ready(v, Want(ReserveRegion))
      ensures !ok ==> Ready(v, CleanUmount)
    {
      ok := umounted;
      if ok {
        mounts := mounts - {v};
      }
      run := LogStart(env, run, v, Umount9p, if ok then Want(ReserveRegion) else CleanUmount, Now());
    }

    /** Takes nbdMu and reserves; a reusable record is covered by ReserveNBDDevice. */
    method LockAndReserve(v: Volume, w: ScanWorld) returns (r: Option<Device>)
      requires Ready(v, Want(ReserveRegion))
      requires AllowsScan(env, Now(), w)
      modifies this`records, this`reservations, this`run
      ensures !w.runDirs ==> r.None? && Now() == old(Now())
      ensures w.runDirs && Unrecorded(old(Now()), v) ==> Scanned(old(Now()), v, w, r, Now())
      ensures run.session == old(run.session)
      ensures r.Some? ==> Ready(v, Connect(r.value))
      ensures r.None? ==> Ready(v, CleanUmount)
    {
      run := LogStart(env, run, v, Want(ReserveRegion), ReserveRead, Now());
      r := ReserveNBDDevice(v, w);
    }

    /** Connects the reserved device to v's disk; a failure gives the device back. */
    method ConnectDevice(v: Volume, d: Device, connects: bool) returns (ok: bool)
      requires Ready(v, Connect(d))
      modifies this`attached, this`records, this`reservations, this`run
      ensures ok == (connects && d !in old(attached))
      ensures Now() == if ok then Attach(old(Now()), d, v) else ClearState(old(Now()), v, Dev(d))
      ensures run.session == old(run.session)
      ensures ok ==> Ready(v, Probe(d))
      ensures !ok ==> Ready(v, CleanUmount)
    {
      ok := connects && d !in attached;
      if ok {
        attached := attached[d := v];
        run := LogUse(env, run, v, Connect(d), Probe(d), Now());
      } else {
        EnterFailedConnectClear(v, d);
        ClearVolumeNBDState(v, Dev(d), ConnectFailed, CleanUmount);
      }
    }

    ghost method EnterFailedConnectClear(v: Volume, d: Device)
      requires Ready(v, Connect(d))
      modifies this`run
      ensures run.session == old(run.session)
      ensures Ready(v, ClearRecord(Dev(d), ConnectFailed))
    {
      run := LogUse(env, run, v, Connect(d), Want(ClearRegion(Dev(d), ConnectFailed)), Now());
      EnterClear(v, Dev(d), ConnectFailed);
    }

    /** blkid, and mkfs where it finds nothing. */
    method FormatIfBlank(v: Volume, d: Device, errs: bool, writes: bool, succeeds: bool) returns (ok: bool)
      requires Ready(v, Probe(d)) && (succeeds ==> writes) && (env.blkidTruthful ==> !errs)
      modifies this`disks, this`run
      ensures ok == ((Mountable(old(Now()), d) && !errs) || (succeeds && d in attached))
      ensures Now() == if (Mountable(old(Now()), d) && !errs) || !writes then old(Now())
                       else FormatDevice(old(Now()), d)
      ensures run.session == old(run.session)
      ensures ok ==> Ready(v, MountFs(d))
      ensures !ok ==> Ready(v, Abort(d))
    {
      if d in attached && attached[d] in disks && disks[attached[d]].formats > 0 && !errs {
        run := LogUse(env, run, v, Probe(d), MountFs(d), Now());
        return true;
      }
      run := LogUse(env, run, v, Probe(d), Format(d), Now());
      ok := MakeFilesystem(v, d, writes, succeeds);
    }

    method MakeFilesystem(v: Volume, d: Device, writes: bool, succeeds: bool) returns (ok: bool)
      requires Ready(v, Format(d)) && (succeeds ==> writes)
      modifies this`disks, this`run
      ensures ok == (succeeds && d in attached)
      ensures Now() == if writes then FormatDevice(old(Now()), d) else old(Now())
      ensures run.session == old(run.session)
      ensures ok ==> Ready(v, MountFs(d))
      ensures !ok ==> Ready(v, Abort(d))
    {
      ok := succeeds && d in attached;
      if writes && d in attached && attached[d] in disks {
        var u := attached[d];
        disks := disks[u := Disk(disks[u].sizings, disks[u].formats + 1)];
      }
      run := LogUse(env, run, v, Format(d), if ok then MountFs(d) else Abort(d), Now());
    }

    /** Mounts the device on the target; without a connected filesystem mount fails. */
    method MountDevice(v: Volume, d: Device, takes: bool, succeeds: bool) returns (ok: bool)
      requires Ready(v, MountFs(d)) && (succeeds ==> takes)
      modifies this`mounts, this`run
      ensures ok == (succeeds && Mountable(old(Now()), d))
      ensures Now() == if takes && Mountable(old(Now()), d) then MountOn(old(Now()), v, Nbd(d)) else old(Now())
      ensures run.session == old(run.session)
      ensures ok ==> Ready(v, Idle(Published))
      ensures !ok ==> Ready(v, Abort(d))
    {
      var mountable := d in attached && attached[d] in disks && disks[attached[d]].formats > 0;
      ok := succeeds && mountable;
      if takes && mountable {
        mounts := mounts[v := Nbd(d)];
      }
      run := LogUse(env, run, v, MountFs(d), if ok then Idle(Published) else Abort(d), Now());
    }

    /** The single detach attempted at once after a failed mkfs or mount. */
    method AbortDevice(v: Volume, d: Device, detaches: bool)
      requires Ready(v, Abort(d))
      modifies this`attached, this`run
      ensures Now() == DetachIf(old(Now()), d, detaches)
      ensures run.session == old(run.session)
      ensures Ready(v, CleanUmount)
    {
      if detaches {
        attached := attached - {d};
      }
      run := LogUse(env, run, v, Abort(d), CleanUmount, Now());
    }

    /** Connect, format and mount; whatever fails ends at the deferred cleanup. */
    method UseDevice(v: Volume, d: Device, w: PublishWorld) returns (ok: bool)
      requires Ready(v, Connect(d)) && Allows(env, w, v)
      modifies this`records, this`reservations, this`attached, this`mounts, this`disks, this`run
      ensures d !in old(attached) && v in old(disks) ==>
                ok == (w.connects && GetsFilesystem(old(Now()), v, w) && w.mountSucceeds)
      ensures ok ==> Now() == InUse(old(Now()), v, d, w)
      ensures d !in old(attached) && !ok ==> GivenUp(old(Now()), Now(), v, d, w)
      ensures run.session == old(run.session)
      ensures ok ==> Ready(v, Idle(Published))
      ensures !ok ==> Ready(v, CleanUmount)
    {
      ok := ConnectDevice(v, d, w.connects);
      if ok {
        ok := FormatAndMount(v, d, w);
      }
    }

    method FormatAndMount(v: Volume, d: Device, w: PublishWorld) returns (ok: bool)
      requires Ready(v, Probe(d)) && d in attached && attached[d] == v && Allows(env, w, v)
      modifies this`attached, this`mounts, this`disks, this`run
      ensures v in old(disks) ==> ok == (GetsFilesystem(old(Now()), v, w) && w.mountSucceeds)
      ensures ok ==> Now() == MountOn(Formatted(old(Now()), d, w), v, Nbd(d))
      ensures !ok ==> Aborted(old(Now()), Now(), v, d, w)
      ensures run.session == old(run.session)
      ensures ok ==> Ready(v, Idle(Published))
      ensures !ok ==> Ready(v, CleanUmount)
    {
      FormattedIsMountable(Now(), v, d, w);
      FormattedIsOwn(Now(), v, d, w);
      ok := FormatIfBlank(v, d, w.blkidErrs, w.mkfsWrites, w.mkfsSucceeds);
      if ok {
        ok := MountOrAbort(v, d, w);
      } else {
        AbortDevice(v, d, w.abortDetaches);
      }
    }

    method MountOrAbort(v: Volume, d: Device, w: PublishWorld) returns (ok: bool)
      requires Ready(v, MountFs(d)) && Allows(env, w, v)
      modifies this`attached, this`mounts, this`run
      ensures ok == (w.mountSucceeds && Mountable(old(Now()), d))
      ensures ok ==> Now() == MountOn(old(Now()), v, Nbd(d))
      ensures !ok ==> Aborted(old(Now()), Now(), v, d, w)
      ensures run.session == old(run.session)
      ensures ok ==> Ready(v, Idle(Published))
      ensures !ok ==> Ready(v, CleanUmount)
    {
      assert MountOn(Now(), v, Nbd(d)).mounts - {v} == mounts - {v};
      ok := MountDevice(v, d, w.mountTakes, w.mountSucceeds);
      if !ok {
        AbortDevice(v, d, w.abortDetaches);
      }
    }

    /** Everything between the stale-state cleanup and the deferred cleanup: succeeds exactly
        when every stage works and some device fits, and then with the first that does. */
    method PublishStages(v: Volume, w: PublishWorld) returns (ok: bool)
      requires Ready(v, Prepare) && Unrecorded(Now(), v) && Allows(env, w, v) && AllowsScan(env, Now(), w.scan)
      modifies this`records, this`reservations, this`attached, this`mounts, this`disks, this`run
      ensures ok <==> Publishable(old(Now()), v, w)
      ensures ok ==> IsPublished(old(Now()), Now(), v, w)
      ensures !ok ==> Unfinished(old(Now()), Now(), v, w)
      ensures run.session == old(run.session)
      ensures ok ==> Ready(v, Idle(Published))
      ensures !ok ==> Ready(v, CleanUmount)
    {
      ok := MakeDiskOver9p(v, w);
      if !ok {
        return;
      }
      ghost var h := Now();
      var r := LockAndReserve(v, w.scan);
      ghost var h' := Now();
      if r.None? {
        ok := false;
      } else {
        ok := UseDevice(v, r.value, w);
      }
      PublishUsesFirstFit(old(Now()), h, v, w, r, h', ok, Now());
      if !ok {
        StoppedIsUnfinished(old(Now()), h, v, w, r, h', Now());
      }
    }

    method MakeDiskOver9p(v: Volume, w: PublishWorld) returns (ok: bool)
      requires Ready(v, Prepare) && AllowsScan(env, Now(), w.scan)
      modifies this`mounts, this`disks, this`run
      ensures ok == (w.prepared && ExportIsThere(old(Now()), v, w) && w.diskReady && w.umounted9p)
      ensures ok ==> Now() == Unmount(Sized(old(Now()), v), v)
      ensures !ok ==> OnlyTarget(old(Now()), Now(), v)
      ensures AllowsScan(env, Now(), w.scan)
      ensures run.session == old(run.session)
      ensures ok ==> Ready(v, Want(ReserveRegion))
      ensures !ok ==> Ready(v, CleanUmount)
    {
      ok := MountExport(v, w.prepared, w.mounted9p);
      if ok {
        assert old(mounts)[v := NineP] - {v} == old(mounts) - {v};
        ok := MakeDiskFile(v, w.diskReady, w.umounted9p);
      }
      TargetOnly(old(Now()), v);
      FewerRecordsStayUnrecorded(old(Now()), Now(), w.scan.aged);
    }

    /** The deferred cleanup of a publish that did not succeed. */
    method CleanUpPublish(v: Volume, umounts: bool, failures: nat)
      requires Ready(v, CleanUmount) && (env.umountEnds ==> umounts) && (v !in env.cleanupFails ==> Succeeds(failures))
      modifies this`records, this`reservations, this`attached, this`mounts, this`run
      ensures Now() == Forget(UnmountIf(old(Now()), v, umounts), v, Succeeds(failures))
      ensures run.session == old(run.session)
      ensures Ready(v, Idle(Failed))
    {
      if umounts {
        mounts := mounts - {v};
      }
      run := LogUndo(env, run, v, CleanUmount, CleanRead, Now());
      var dev := ReadVolumeNBDState(v);
      if dev.Some? {
        ReleaseDevice(v, dev.value, failures);
      } else {
        run := LogUndo(env, run, v, CleanRead, CleanPod, Now());
      }
      EndCleanup(v);
    }

    method ReleaseDevice(v: Volume, d: Device, failures: nat)
      requires Ready(v, CleanRead) && Records(Now(), v, d) && (v !in env.cleanupFails ==> Succeeds(failures))
      modifies this`records, this`reservations, this`attached, this`run
      ensures Now() == ClearState(DetachIf(old(Now()), d, Succeeds(failures)), v, Dev(d))
      ensures run.session == old(run.session)
      ensures Ready(v, CleanPod)
    {
      DetachRecorded(v, d, failures);
      ghost var h := Now();
      ClearVolumeNBDState(v, Dev(d), Deferred, CleanPod);
      assert Now() == ClearState(h, v, Dev(d));
    }

    method DetachRecorded(v: Volume, d: Device, failures: nat)
      requires Ready(v, CleanRead) && Records(Now(), v, d) && (v !in env.cleanupFails ==> Succeeds(failures))
      modifies this`attached, this`run
      ensures Now() == DetachIf(old(Now()), d, Succeeds(failures))
      ensures run.session == old(run.session)
      ensures Ready(v, ClearPc(env, Dev(d), Deferred))
    {
      run := LogUndo(env, run, v, CleanRead, CleanDetach(d), Now());
      DetachNBDDeviceBestEffort(d, failures);
      run := LogUndo(env, run, v, CleanDetach(d), AfterCleanDetach(env, d), Now());
      EnterDeferredClear(v, d);
    }

    /** Where the environment orders the unlocked clear, it does so as the lock would. */
    ghost method EnterDeferredClear(v: Volume, d: Device)
      requires Ready(v, AfterCleanDetach(env, d))
      modifies this`run
      ensures run.session == old(run.session)
      ensures Ready(v, ClearPc(env, Dev(d), Deferred))
    {
      if env.deferred == UnderLock {
        EnterClear(v, Dev(d), Deferred);
      }
    }

    /** RemovePod changes nothing of the host. */
    ghost method EndCleanup(v: Volume)
      requires Ready(v, CleanPod)
      modifies this`run
      ensures run.session == old(run.session)
      ensures Ready(v, Idle(Failed))
    {
      run := LogUndo(env, run, v, CleanPod, Idle(Failed), Now());
    }

    /** NodePublishVolume.  An invalid request is refused without touching anything; a target
        already mounted from an NBD device is left as it is; otherwise the publish succeeds
        exactly when, on the host that the cleanup of stale state leaves, every stage works and
        some device fits, and then the volume is published over the first one that does. */
    method NodePublishVolume(v: Volume, valid: bool, w: PublishWorld, ghost last: Outcome) returns (ok: bool)
      requires Ready(v, Idle(last)) && Allows(env, w, v)
      requires AllowsScan(env, Now(), w.scan)
      modifies this`records, this`reservations, this`attached, this`mounts, this`disks, this`run
      ensures !valid ==> !ok && Now() == old(Now()) && run == old(run)
      ensures valid && v in old(mounts) && old(mounts)[v].Nbd? ==> ok && Now() == old(Now())
      ensures valid && !(v in old(mounts) && old(mounts)[v].Nbd?) ==>
                && (ok <==> Publishable(Retried(old(Now()), v, w), v, w))
                && (ok ==> IsPublished(Retried(old(Now()), v, w), Now(), v, w))
                && (!ok ==> IsCleanedUp(Retried(old(Now()), v, w), Now(), v, w))
      ensures run.session == old(run.session)
      ensures valid && ok ==> Ready(v, Idle(Published))
      ensures valid && !ok ==> Ready(v, Idle(Failed))
    {
      if !valid {
        return false;
      }
      ok := CheckTarget(v, w.staleUmounts, last);
      if ok {
        return;
      }
      CleanStaleState(v, w.staleReadable, w.staleDetach);
      FewerRecordsStayUnrecorded(old(Now()), Now(), w.scan.aged);
      ok := PublishStages(v, w);
      if !ok {
        UnfinishedIsCleanedUp(Retried(old(Now()), v, w), Now(), v, w);
        CleanUpPublish(v, w.cleanupUmounts, w.cleanupDetach);
      }
    }

    // ---- pkg/csi/node.go: NodeUnpublishVolume ----

    /** NodeUnpublishVolume: unmounts, detaches the device found on the target or else in the
        state file, and clears v's state together with that device's reservation. */
    method NodeUnpublishVolume(v: Volume, valid: bool, umounts: bool, detaches: bool, ghost last: Outcome)
      returns (ok: bool)
      requires Ready(v, Idle(last)) && (env.umountEnds ==> umounts) && (v !in env.detachFails ==> detaches)
      modifies this`records, this`reservations, this`attached, this`mounts, this`run
      ensures ok == valid
      ensures !valid ==> Now() == old(Now()) && run == old(run)
      ensures valid ==> Now() == Unpublish(old(Now()), v, umounts, detaches)
      ensures run.session == old(run.session)
      ensures valid ==> Ready(v, Idle(Unpublished))
    {
      if !valid {
        return false;
      }
      var found := FindAndUnmount(v, umounts, last);
      var src := DetachFound(v, found, detaches);
      ClearUnpublished(v, src);
      ok := true;
    }

    /** RemovePod and the wait for its end, then the clear under nbdMu. */
    method ClearUnpublished(v: Volume, src: Source)
      requires Ready(v, UnpPod(src))
      modifies this`records, this`reservations, this`run
      ensures Now() == ClearState(old(Now()), v, src)
      ensures run.session == old(run.session)
      ensures Ready(v, Idle(Unpublished))
    {
      EnterUnpublishClear(v, src);
      ClearVolumeNBDState(v, src, Unpublishing, Idle(Unpublished));
    }

    /** findmnt on the target, then umount. */
    method FindAndUnmount(v: Volume, umounts: bool, ghost last: Outcome) returns (src: Source)
      requires Ready(v, Idle(last)) && (env.umountEnds ==> umounts)
      modifies this`mounts, this`run
      ensures src == SourceOf(old(Now()), v) && Now() == UnmountIf(old(Now()), v, umounts)
      ensures run.session == old(run.session)
      ensures Ready(v, UnpRead(src))
    {
      run := LogStart(env, run, v, Idle(last), UnpFind, Now());
      src := if v !in mounts then Unknown else if mounts[v].Nbd? then Dev(mounts[v].dev) else Socket;
      run := LogUnpublish(env, run, v, UnpFind, UnpUmount(src), Now());
      UnmountTarget(v, umounts, src);
    }

    method UnmountTarget(v: Volume, umounts: bool, ghost src: Source)
      requires Ready(v, UnpUmount(src)) && (env.umountEnds ==> umounts)
      modifies this`mounts, this`run
      ensures Now() == UnmountIf(old(Now()), v, umounts)
      ensures run.session == old(run.session)
      ensures Ready(v, UnpRead(src))
    {
      if umounts {
        mounts := mounts - {v};
      }
      run := LogUnpublish(env, run, v, UnpUmount(src), UnpRead(src), Now());
    }

    /** The state file where findmnt had no answer, then one nbd-client -d. */
    method DetachFound(v: Volume, found: Source, detaches: bool) returns (src: Source)
      requires Ready(v, UnpRead(found)) && (v !in env.detachFails ==> detaches)
      modifies this`attached, this`run
      ensures src == SettledSource(old(Now()), v, found)
      ensures Now() == if src.Dev? then DetachIf(old(Now()), src.dev, detaches) else old(Now())
      ensures run.session == old(run.session)
      ensures Ready(v, UnpPod(src))
    {
      src := SettleSource(v, found);
      DetachSource(v, src, detaches);
    }

    method SettleSource(v: Volume, found: Source) returns (src: Source)
      requires Ready(v, UnpRead(found))
      modifies this`run
      ensures src == SettledSource(Now(), v, found)
      ensures run.session == old(run.session)
      ensures Ready(v, UnpDetach(src))
    {
      src := found;
      if found == Unknown {
        var dev := ReadVolumeNBDState(v);
        if dev.Some? {
          src := Dev(dev.value);
        }
      }
      run := LogUnpublish(env, run, v, UnpRead(found), UnpDetach(src), Now());
    }

    method DetachSource(v: Volume, src: Source, detaches: bool)
      requires Ready(v, UnpDetach(src)) && (v !in env.detachFails ==> detaches)
      modifies this`attached, this`run
      ensures Now() == if src.Dev? then DetachIf(old(Now()), src.dev, detaches) else old(Now())
      ensures run.session == old(run.session)
      ensures Ready(v, UnpPod(src))
    {
      if src.Dev? && detaches {
        attached := attached - {src.dev};
      }
      run := LogUnpublish(env, run, v, UnpDetach(src), UnpPod(src), Now());
    }

    ghost method EnterUnpublishClear(v: Volume, src: Source)
      requires Ready(v, UnpPod(src))
      modifies this`run
      ensures run.session == old(run.session)
      ensures Ready(v, ClearRecord(src, Unpublishing))
    {
      run := LogUnpublish(env, run, v, UnpPod(src), Want(ClearRegion(src, Unpublishing)), Now());
      EnterClear(v, src, Unpublishing);
    }

    /** nbdMu is taken for a clear. */
    ghost method EnterClear(v: Volume, src: Source, why: ClearReason)
      requires Ready(v, Want(ClearRegion(src, why)))
      modifies this`run
      ensures run.session == old(run.session)
      ensures Ready(v, ClearRecord(src, why))
    {
      run := LogStart(env, run, v, Want(ClearRegion(src, why)), ClearRecord(src, why), Now());
    }

    // ---- pkg/csi/node.go: reconcileOrphanedNBDDevices ----

    /** Detaches every listed device that is connected but mounted nowhere; stops when the
        context is done, before the given number of devices.  A stuck device survives its
        five attempts. */
    method ReconcileOrphanedNBDDevices(v: Volume, entries: seq<DevEntry>, unreadable: set<Device>, stuck: set<Device>,
                                       limit: nat, ghost last: Outcome)
      returns (devs: seq<Device>)
      requires Ready(v, Idle(last))
      modifies this`attached, this`run
      ensures Sorted(devs) && forall n :: n in devs <==> Whole(n) in entries
      ensures Now() == DetachAll(old(Now()), Orphans(old(Now()), Visited(devs, limit), unreadable, stuck))
      ensures limit >= |devs| ==>
                Now() == DetachAll(old(Now()), Orphans(old(Now()), Listed(entries), unreadable, stuck))
      ensures Ready(v, Idle(last))
    {
      devs := ListNBDDevices(entries);
      VisitedDevices(devs, entries, limit);
      ReconcileListed(v, devs, unreadable, stuck, limit, last);
    }

    method ReconcileListed(v: Volume, devs: seq<Device>, unreadable: set<Device>, stuck: set<Device>, limit: nat,
                           ghost last: Outcome)
      requires Ready(v, Idle(last))
      modifies this`attached, this`run
      ensures Now() == DetachAll(old(Now()), Orphans(old(Now()), Visited(devs, limit), unreadable, stuck))
      ensures Ready(v, Idle(last))
    {
      ghost var h := Now();
      assert Orphans(h, Visited(devs, 0), unreadable, stuck) == {};
      var i := 0;
      while i < |devs| && i < limit
        invariant 0 <= i <= |devs| && i <= limit
        invariant Now() == DetachAll(h, Orphans(h, Visited(devs, i), unreadable, stuck))
        invariant Ready(v, Idle(last))
      {
        ReconcileDevice(v, devs[i], unreadable, stuck, last);
        OrphansGrow(h, devs, i, unreadable, stuck);
        i := i + 1;
      }
      assert Visited(devs, i) == Visited(devs, limit);
    }

    method ReconcileDevice(v: Volume, d: Device, unreadable: set<Device>, stuck: set<Device>, ghost last: Outcome)
      requires Ready(v, Idle(last))
      modifies this`attached, this`run
      ensures Now() == DetachIf(old(Now()), d, Orphan(old(Now()), d) && d !in unreadable && d !in stuck)
      ensures Ready(v, Idle(last))
    {
      if d in unreadable || d !in attached || Nbd(d) in mounts.Values {
        return;
      }
      assert Orphan(Now(), d);
      DetachNBDDeviceBestEffort(d, if d in stuck then 5 else 0);
      run := LogReconcile(env, run, v, Idle(last), d, d !in stuck);
    }
  }

  // ---- What the reconciler detaches ----

  /** The devices among devs that the reconciler detaches from h. */
  function Orphans(h: Host, devs: set<Device>, unreadable: set<Device>, stuck: set<Device>): set<Device> {
    set d | d in h.attached && d in devs && d !in unreadable && d !in stuck && Orphan(h, d)
  }

  function DetachAll(h: Host, gone: set<Device>): Host {
    h.(attached := h.attached - gone)
  }

  function Listed(entries: seq<DevEntry>): set<Device> {
    set e | e in entries && e.Whole? :: e.n
  }

  /** The first so many devices. */
  function Visited(devs: seq<Device>, n: nat): set<Device> {
    set i | 0 <= i < |devs| && i < n :: devs[i]
  }

  lemma VisitedDevices(devs: seq<Device>, entries: seq<DevEntry>, limit: nat)
    requires forall n :: n in devs <==> Whole(n) in entries
    ensures limit >= |devs| ==> Visited(devs, limit) == Listed(entries)
  {
    if limit >= |devs| {
      forall x ensures x in Visited(devs, limit) <==> x in Listed(entries) {
        if x in devs {
          var j :| 0 <= j < |devs| && devs[j] == x;
          assert Whole(x) in entries && Whole(x).n == x;
        }
      }
    }
  }

  lemma OrphansGrow(h: Host, devs: seq<Device>, i: nat, unreadable: set<Device>, stuck: set<Device>)
    requires i < |devs|
    ensures var done := DetachAll(h, Orphans(h, Visited(devs, i), unreadable, stuck));
            DetachAll(h, Orphans(h, Visited(devs, i + 1), unreadable, stuck)) ==
              DetachIf(done, devs[i], Orphan(done, devs[i]) && devs[i] !in unreadable && devs[i] !in stuck)
  {
    assert Visited(devs, i + 1) == Visited(devs, i) + {devs[i]};
  }

  /** What the reconciler leaves when its context ends before the given number of devices. */
  lemma ReconciledIs(h: Host, devs: seq<Device>, limit: nat, unreadable: set<Device>, stuck: set<Device>, d: Device)
    ensures d in DetachAll(h, Orphans(h, Visited(devs, limit), unreadable, stuck)).attached <==>
            && d in h.attached
            && (|| d in unreadable || d in stuck || d !in devs[..if limit < |devs| then limit else |devs|]
                || exists v :: v in h.mounts && h.mounts[v] == Nbd(d))
  {
    var n := if limit < |devs| then limit else |devs|;
    if d in devs[..n] {
      var i :| 0 <= i < n && devs[..n][i] == d;
      assert devs[i] == d;
    }
    if d in Visited(devs, limit) {
      var i :| 0 <= i < |devs| && i < limit && devs[i] == d;
      assert devs[..n][i] == d;
    }
  }

  /** Where every detach succeeds and the context lives on, the listed devices left connected
      are exactly those that were connected and are mounted or could not be read. */
  lemma ReconcilerLeavesUsedDevices(h: Host, entries: seq<DevEntry>, unreadable: set<Device>, d: Device)
    requires Whole(d) in entries
    ensures d in DetachAll(h, Orphans(h, Listed(entries), unreadable, {})).attached <==>
              d in h.attached && (d in unreadable || exists v :: v in h.mounts && h.mounts[v] == Nbd(d))
  {
  }

  // ---- Specification of the stages ----

  /** d is connected to a disk that carries a filesystem. */
  predicate Mountable(h: Host, d: Device) {
    d in h.attached && HasFilesystem(h, h.attached[d])
  }

  function SettledSource(h: Host, v: Volume, found: Source): Source {
    if found == Unknown && v in h.records && h.records[v].Holds? then Dev(h.records[v].value) else found
  }

  function Unpublish(h: Host, v: Volume, umounts: bool, detaches: bool): Host {
    var h1 := UnmountIf(h, v, umounts);
    var src := SettledSource(h1, v, SourceOf(h, v));
    ClearState(if src.Dev? then DetachIf(h1, src.dev, detaches) else h1, v, src)
  }

  /** What one turn of the scan makes of the host. */
  function Tried(h: Host, v: Volume, w: ScanWorld, d: Device): Host {
    if !Free(h, w, d) then h
    else if d in w.uncreatable then RemoveReservation(h, d)
    else if !w.recordWritable then RemoveReservation(Unwritten(h, v, w), d)
    else WriteReservation(WriteRecord(h, v, Holds(d)), d, NameOf(w, v))
  }

  /** A file created empty and then written is as good as written at once. */
  lemma WrittenTwice(h: Host, v: Volume, d: Device)
    ensures WriteRecord(WriteRecord(h, v, Empty), v, Holds(d)) == WriteRecord(h, v, Holds(d))
    ensures WriteReservation(WriteReservation(h, d, Empty), d, Holds(v)) == WriteReservation(h, d, Holds(v))
  {
    assert h.records[v := Empty][v := Holds(d)] == h.records[v := Holds(d)];
    assert h.reservations[d := Empty][d := Holds(v)] == h.reservations[d := Holds(v)];
  }

  lemma TrialsByCase(h: Host, v: Volume, w: ScanWorld, d: Device)
    ensures (h.reservations - {d})[d := NameOf(w, v)] == h.reservations[d := NameOf(w, v)]
    ensures h.reservations[d := NameOf(w, v)] - {d} == h.reservations - {d}
    ensures d !in h.reservations ==> h.reservations - {d} == h.reservations
  {
  }

  // ---- What a publish comes to ----

  /** The host as the cleanup of an earlier attempt leaves it. */
  function Retried(h: Host, v: Volume, w: PublishWorld): Host {
    Forget(UnmountIf(h, v, w.staleUmounts), v, w.staleReadable && Succeeds(w.staleDetach))
  }

  /** Every operation works but for the choice of a device and the filesystem. */
  predicate StagesWork(h: Host, v: Volume, w: PublishWorld) {
    && w.prepared && ExportIsThere(h, v, w) && w.diskReady && w.umounted9p
    && w.scan.runDirs && w.scan.recordWritable && w.connects && w.mountSucceeds
  }

  /** The 9p export gets mounted, or an earlier attempt's is still there. */
  predicate ExportIsThere(h: Host, v: Volume, w: PublishWorld) {
    w.mounted9p || v in h.mounts
  }

  predicate GetsFilesystem(h: Host, v: Volume, w: PublishWorld) {
    (HasFilesystem(h, v) && !w.blkidErrs) || w.mkfsSucceeds
  }

  ghost predicate Publishable(h: Host, v: Volume, w: PublishWorld) {
    StagesWork(h, v, w) && GetsFilesystem(h, v, w) && exists d :: FirstFit(h, w.scan, d)
  }

  function Formatted(h: Host, d: Device, w: PublishWorld): Host {
    if (Mountable(h, d) && !w.blkidErrs) || !w.mkfsWrites then h else FormatDevice(h, d)
  }

  lemma FormattedIsMountable(h: Host, v: Volume, d: Device, w: PublishWorld)
    requires d in h.attached && h.attached[d] == v && (w.mkfsSucceeds ==> w.mkfsWrites)
    ensures Mountable(h, d) <==> HasFilesystem(h, v)
    ensures v in h.disks && GetsFilesystem(h, v, w) ==> Mountable(Formatted(h, d, w), d)
  {
  }

  lemma FormattedIsOwn(h: Host, v: Volume, d: Device, w: PublishWorld)
    requires d in h.attached && h.attached[d] == v
    ensures Formatted(h, d, w) == h.(disks := Formatted(h, d, w).disks)
    ensures Formatted(h, d, w).disks - {v} == h.disks - {v}
    ensures FormatDevice(h, d) == h.(disks := FormatDevice(h, d).disks)
    ensures FormatDevice(h, d).disks - {v} == h.disks - {v}
  {
  }

  /** d is connected to v's disk, which has a filesystem, and is mounted on v's target. */
  function InUse(h: Host, v: Volume, d: Device, w: PublishWorld): Host {
    MountOn(Formatted(Attach(h, d, v), d, w), v, Nbd(d))
  }

  /** The first fit is recorded and reserved for v and in use, over a disk sized if it was
      absent; nothing else has changed but reservations that the scan lost on its way. */
  ghost predicate IsPublished(h: Host, h': Host, v: Volume, w: PublishWorld) {
    exists d ::
      && FirstFit(h, w.scan, d)
      && h' == InUse(Taken(h, v, d, w), v, d, w)
  }

  /** The disk is sized if it was absent, and both index entries are written. */
  function Taken(h: Host, v: Volume, d: Device, w: PublishWorld): Host {
    var left := h.reservations - SpoiledBelow(h, w.scan, Some(d));
    Sized(h, v).(records := h.records[v := Holds(d)], reservations := left[d := NameOf(w.scan, v)])
  }

  lemma PublishUsesFirstFit(h0: Host, h: Host, v: Volume, w: PublishWorld, r: Option<Device>, h': Host,
                            ok: bool, end: Host)
    requires w.prepared && ExportIsThere(h0, v, w) && w.diskReady && w.umounted9p && h == Unmount(Sized(h0, v), v)
    requires if w.scan.runDirs then Scanned(h, v, w.scan, r, h') else r.None?
    requires r.None? ==> !ok
    requires r.Some? && r.value !in h'.attached && v in h'.disks ==>
               ok == (w.connects && GetsFilesystem(h', v, w) && w.mountSucceeds)
    requires r.Some? && ok ==> end == InUse(h', v, r.value, w)
    ensures ok <==> Publishable(h0, v, w)
    ensures ok ==> IsPublished(h0, end, v, w)
  {
    SameFits(h0, h, w.scan);
    if r.Some? {
      var d := r.value;
      assert FirstFit(h0, w.scan, d);
      if ok {
        UnmountedUse(h0, h, h', v, d, w);
      }
    }
  }

  /** Neither mounts nor disks matter to a scan. */
  lemma SameFits(h0: Host, h: Host, w: ScanWorld)
    requires h.records == h0.records && h.reservations == h0.reservations && h.attached == h0.attached
    ensures forall d :: Fits(h, w, d) <==> Fits(h0, w, d)
    ensures forall d :: FirstFit(h, w, d) <==> FirstFit(h0, w, d)
    ensures forall limit :: SpoiledBelow(h, w, limit) == SpoiledBelow(h0, w, limit)
  {
    assert forall d :: Free(h, w, d) <==> Free(h0, w, d);
    assert forall d :: Fits(h, w, d) <==> Fits(h0, w, d);
  }

  lemma UnmountedUse(h0: Host, h: Host, h': Host, v: Volume, d: Device, w: PublishWorld)
    requires h == Unmount(Sized(h0, v), v) && Scanned(h, v, w.scan, Some(d), h')
    ensures InUse(h', v, d, w) == InUse(Taken(h0, v, d, w), v, d, w)
  {
    SameFits(h0, h, w.scan);
    assert h' == Unmount(Taken(h0, v, d, w), v);
    UseReplacesMount(Taken(h0, v, d, w), v, d, w);
  }

  lemma UseReplacesMount(h: Host, v: Volume, d: Device, w: PublishWorld)
    ensures InUse(Unmount(h, v), v, d, w) == InUse(h, v, d, w)
  {
    assert (h.mounts - {v})[v := Nbd(d)] == h.mounts[v := Nbd(d)];
  }

  // ---- What a publish that fails leaves ----

  /** Only v's mount and v's disk may differ. */
  ghost predicate OnlyTarget(h: Host, h': Host, v: Volume) {
    && h'.records == h.records && h'.reservations == h.reservations && h'.attached == h.attached
    && h'.mounts - {v} == h.mounts - {v} && h'.disks - {v} == h.disks - {v}
  }

  lemma TargetOnly(h: Host, v: Volume)
    ensures OnlyTarget(h, h, v) && OnlyTarget(h, MountOn(h, v, NineP), v)
    ensures OnlyTarget(h, Sized(h, v), v) && OnlyTarget(h, Sized(MountOn(h, v, NineP), v), v)
  {
    var h' := Sized(h, v);
    assert h'.disks - {v} == h.disks - {v};
    assert MountOn(h, v, NineP).mounts - {v} == h.mounts - {v};
  }

  /** From a connected device: detached again if the single attempt works. */
  ghost predicate Aborted(h: Host, h': Host, v: Volume, d: Device, w: PublishWorld) {
    && h'.records == h.records && h'.reservations == h.reservations
    && h'.attached == (if w.abortDetaches then h.attached - {d} else h.attached)
    && h'.mounts - {v} == h.mounts - {v} && h'.disks - {v} == h.disks - {v}
  }

  /** From a reserved device: given back when the connect fails, or aborted. */
  ghost predicate GivenUp(h: Host, h': Host, v: Volume, d: Device, w: PublishWorld) {
    || h' == RemoveReservation(RemoveRecord(h, v), d)
    || Aborted(Attach(h, d, v), h', v, d, w)
  }

  /** No reservation was made or changed, but for the one on d. */
  ghost predicate FewerReservations(h: Host, h': Host, d: Option<Device>) {
    forall e :: e in h'.reservations && Some(e) != d ==> e in h.reservations && h'.reservations[e] == h.reservations[e]
  }

  /** Where the stages of a publish stop: v has no device, or it has one that was unconnected
      and is connected to it now unless the abort has detached it. */
  ghost predicate Unfinished(h: Host, h': Host, v: Volume, w: PublishWorld) {
    && h'.records - {v} == h.records - {v} && h'.mounts - {v} == h.mounts - {v} && h'.disks - {v} == h.disks - {v}
    && if v in h'.records && h'.records[v].Holds? then
         var d := h'.records[v].value;
         && d !in h.attached && FewerReservations(h, h', Some(d))
         && h'.attached == if w.abortDetaches then h.attached else h.attached[d := v]
       else
         h'.attached == h.attached && FewerReservations(h, h', None)
  }

  /** What the deferred cleanup makes of it: v has no device, nothing of other volumes has
      changed, no reservation is new, the target is unmounted if umount works, and every
      connection is as before if one of the two detaches worked. */
  ghost predicate IsCleanedUp(h: Host, h': Host, v: Volume, w: PublishWorld) {
    && Unrecorded(h', v) && h'.records - {v} == h.records - {v}
    && h'.mounts - {v} == h.mounts - {v} && (w.cleanupUmounts ==> v !in h'.mounts)
    && h'.disks - {v} == h.disks - {v}
    && (forall e :: e in h'.reservations ==> e in h.reservations && h'.reservations[e] == h.reservations[e])
    && (w.abortDetaches || w.cleanupDetach < 5 ==> h'.attached == h.attached)
    && (forall e :: e in h.attached ==> e in h'.attached && h'.attached[e] == h.attached[e])
    && (forall e :: e in h'.attached && e !in h.attached ==> h'.attached[e] == v)
  }

  lemma StoppedIsUnfinished(h0: Host, h: Host, v: Volume, w: PublishWorld, r: Option<Device>, h': Host, end: Host)
    requires Unrecorded(h0, v) && h == Unmount(Sized(h0, v), v)
    requires if w.scan.runDirs then Scanned(h, v, w.scan, r, h') else r.None? && h' == h
    requires if r.Some? then GivenUp(h', end, v, r.value, w) else end == h'
    ensures Unfinished(h0, end, v, w)
  {
    assert h.mounts - {v} == h0.mounts - {v} && h.disks - {v} == h0.disks - {v};
    if r.Some? {
      TakenIsUnfinished(h0, h, v, w, r.value, h', end);
    } else {
      UntakenIsUnfinished(h0, h, v, w, h');
    }
  }

  lemma UntakenIsUnfinished(h0: Host, h: Host, v: Volume, w: PublishWorld, end: Host)
    requires h.records == h0.records && h.reservations == h0.reservations && h.attached == h0.attached
    requires h.mounts - {v} == h0.mounts - {v} && h.disks - {v} == h0.disks - {v} && Unrecorded(h0, v)
    requires if w.scan.runDirs then Scanned(h, v, w.scan, None, end) else end == h
    ensures Unfinished(h0, end, v, w)
  {
    assert end.records - {v} == h.records - {v};
  }

  lemma TakenIsUnfinished(h0: Host, h: Host, v: Volume, w: PublishWorld, d: Device, h': Host, end: Host)
    requires h.records == h0.records && h.reservations == h0.reservations && h.attached == h0.attached
    requires h.mounts - {v} == h0.mounts - {v} && h.disks - {v} == h0.disks - {v}
    requires Scanned(h, v, w.scan, Some(d), h') && GivenUp(h', end, v, d, w)
    ensures Unfinished(h0, end, v, w)
  {
    assert h.records[v := Holds(d)] - {v} == h.records - {v};
    assert d !in h.attached && h.attached[d := v] - {d} == h.attached;
  }

  lemma UnfinishedIsCleanedUp(h: Host, h': Host, v: Volume, w: PublishWorld)
    requires Unfinished(h, h', v, w)
    ensures IsCleanedUp(h, Forget(UnmountIf(h', v, w.cleanupUmounts), v, Succeeds(w.cleanupDetach)), v, w)
  {
    var h1 := UnmountIf(h', v, w.cleanupUmounts);
    assert h1.mounts - {v} == h'.mounts - {v};
    if v in h'.records && h'.records[v].Holds? {
      ForgottenIsCleanedUp(h, h1, v, h'.records[v].value, w);
    }
  }

  lemma ForgottenIsCleanedUp(h: Host, h1: Host, v: Volume, d: Device, w: PublishWorld)
    requires Records(h1, v, d) && d !in h.attached && FewerReservations(h, h1, Some(d))
    requires h1.records - {v} == h.records - {v} && h1.mounts - {v} == h.mounts - {v} && h1.disks - {v} == h.disks - {v}
    requires w.cleanupUmounts ==> v !in h1.mounts
    requires h1.attached == if w.abortDetaches then h.attached else h.attached[d := v]
    ensures IsCleanedUp(h, Forget(h1, v, Succeeds(w.cleanupDetach)), v, w)
  {
    assert h.attached[d := v] - {d} == h.attached && h.attached - {d} == h.attached;
    assert (h1.records - {v}) - {v} == h1.records - {v};
  }

  // ---- The specification in terms of files, devices and mounts ----

  /** When a publish succeeds, outcome by outcome. */
  lemma PublishableIff(h: Host, v: Volume, w: PublishWorld)
    ensures Publishable(h, v, w) <==>
            && w.prepared && (w.mounted9p || v in h.mounts) && w.diskReady && w.umounted9p
            && w.scan.runDirs && w.scan.recordWritable && w.connects && w.mountSucceeds
            && ((v in h.disks && h.disks[v].formats > 0 && !w.blkidErrs) || w.mkfsSucceeds)
            && exists d: Device ::
                 && Whole(d) in w.scan.entries && d !in w.scan.unreadable && d !in w.scan.uncreatable
                 && d !in h.attached
                 && (d in h.reservations ==>
                       h.reservations[d] == Empty || h.reservations[d].value !in h.records || d in w.scan.aged)
  {
    assert forall d: Device :: Fits(h, w.scan, d) <==>
        && Whole(d) in w.scan.entries && d !in w.scan.unreadable && d !in w.scan.uncreatable
        && d !in h.attached
        && (d in h.reservations ==>
              h.reservations[d] == Empty || h.reservations[d].value !in h.records || d in w.scan.aged);
    if d: Device :| Fits(h, w.scan, d) {
      var first := FirstFitExists(h, w.scan, d);
    }
  }

  /** What a publish that succeeds leaves, file by file: the target is mounted from a device that
      was free, the lowest of them, which is recorded, reserved and connected for v. */
  lemma PublishedIs(h: Host, h': Host, v: Volume, w: PublishWorld)
    requires IsPublished(h, h', v, w)
    ensures v in h'.mounts && h'.mounts[v].Nbd?
    ensures var d := h'.mounts[v].dev;
            && Whole(d) in w.scan.entries && d !in w.scan.unreadable && d !in w.scan.uncreatable && d !in h.attached
            && (forall e: Device :: Whole(e) in w.scan.entries && e < d ==>
                  || e in w.scan.unreadable || e in h.attached || e in w.scan.uncreatable
                  || (&& e in h.reservations && h.reservations[e] != Empty && h.reservations[e].value in h.records
                      && e !in w.scan.aged))
            && h'.mounts == h.mounts[v := Nbd(d)] && h'.attached == h.attached[d := v]
            && h'.records == h.records[v := Holds(d)]
            && d in h'.reservations && (w.scan.nameLands ==> h'.reservations[d] == Holds(v))
            && (forall e :: e != d && e !in w.scan.uncreatable ==>
                  && (e in h'.reservations <==> e in h.reservations)
                  && (e in h.reservations ==> h'.reservations[e] == h.reservations[e]))
  {
    var d :| FirstFit(h, w.scan, d) && h' == InUse(Taken(h, v, d, w), v, d, w);
    assert forall e ::
        Whole(e) in w.scan.entries && e !in w.scan.uncreatable && Free(h, w.scan, e) ==> Fits(h, w.scan, e);
  }

  /** v's disk has been sized if it was absent and formatted if blkid saw no filesystem. */
  lemma PublishedDiskIs(h: Host, h': Host, v: Volume, w: PublishWorld)
    requires IsPublished(h, h', v, w) && (w.mkfsSucceeds ==> w.mkfsWrites) && GetsFilesystem(h, v, w)
    ensures h'.disks - {v} == h.disks - {v} && v in h'.disks
    ensures v in h.disks && h.disks[v].formats > 0 && !w.blkidErrs ==> h'.disks[v] == h.disks[v]
    ensures v in h.disks && !(h.disks[v].formats > 0 && !w.blkidErrs) ==>
              h'.disks[v] == Disk(h.disks[v].sizings, h.disks[v].formats + 1)
    ensures v !in h.disks ==> h'.disks[v] == Disk(1, 1)
  {
    var d :| FirstFit(h, w.scan, d) && h' == InUse(Taken(h, v, d, w), v, d, w);
    var x := Attach(Taken(h, v, d, w), d, v);
    assert x.disks == Sized(h, v).disks && h'.disks == Formatted(x, d, w).disks;
  }

  /** What the cleanup of an earlier attempt leaves. */
  lemma RetriedIs(h: Host, v: Volume, w: PublishWorld)
    ensures Retried(h, v, w).mounts == (if w.staleUmounts then h.mounts - {v} else h.mounts)
    ensures Retried(h, v, w).disks == h.disks
    ensures Unrecorded(h, v) ==>
              && Retried(h, v, w).records == h.records && Retried(h, v, w).reservations == h.reservations
              && Retried(h, v, w).attached == h.attached
    ensures forall d :: Records(h, v, d) ==>
              && Retried(h, v, w).records == h.records - {v} && Retried(h, v, w).reservations == h.reservations - {d}
              && Retried(h, v, w).attached ==
                   if w.staleReadable && w.staleDetach < 5 then h.attached - {d} else h.attached
  {
  }

  /** What an unpublish leaves whatever device v has: no record, and no mount if umount works. */
  lemma UnpublishedTargetIs(h: Host, v: Volume, umounts: bool, detaches: bool)
    ensures var h' := Unpublish(h, v, umounts, detaches);
            && h'.mounts == (if umounts then h.mounts - {v} else h.mounts)
            && h'.records == h.records - {v} && h'.disks == h.disks
  {
  }

  /** What an unpublish leaves: the device on the target, or else the recorded one, is detached
      if that works and its reservation goes; without either, only the record does. */
  lemma UnpublishedIs(h: Host, v: Volume, d: Device, umounts: bool, detaches: bool)
    ensures (v in h.mounts && h.mounts[v] == Nbd(d)) || (v !in h.mounts && Records(h, v, d)) ==>
              && Unpublish(h, v, umounts, detaches).attached == (if detaches then h.attached - {d} else h.attached)
              && Unpublish(h, v, umounts, detaches).reservations == h.reservations - {d}
    ensures (v in h.mounts && h.mounts[v] == NineP) || (v !in h.mounts && Unrecorded(h, v)) ==>
              && Unpublish(h, v, umounts, detaches).attached == h.attached
              && Unpublish(h, v, umounts, detaches).reservations == h.reservations
  {
    var h1 := UnmountIf(h, v, umounts);
    assert h1.records == h.records && h1.reservations == h.reservations && h1.attached == h.attached;
    var src := SettledSource(h1, v, SourceOf(h, v));
    if v in h.mounts && h.mounts[v] == Nbd(d) {
      assert src == Dev(d);
    } else if v !in h.mounts && Records(h, v, d) {
      assert src == Dev(d);
    } else if (v in h.mounts && h.mounts[v] == NineP) || (v !in h.mounts && Unrecorded(h, v)) {
      assert !src.Dev?;
    }
  }

  // ---- What a scan has lost so far ----

  function SpoiledAmong(h: Host, w: ScanWorld, devs: seq<Device>): set<Device> {
    set d | d in h.reservations && d in devs && Spoiled(h, w, d)
  }

  function Spoil(h: Host, w: ScanWorld, devs: seq<Device>): Host {
    h.(reservations := h.reservations - SpoiledAmong(h, w, devs))
  }

  /** Losing spoiled reservations does not change which devices are free. */
  lemma SpoilingKeepsFree(h: Host, w: ScanWorld, devs: seq<Device>, d: Device)
    ensures Free(Spoil(h, w, devs), w, d) <==> Free(h, w, d)
    ensures AgedUnrecorded(h, w.aged) ==> AgedUnrecorded(Spoil(h, w, devs), w.aged)
  {
  }

  lemma SpoilsGrow(h: Host, w: ScanWorld, devs: seq<Device>, i: nat)
    requires i < |devs| && Whole(devs[i]) in w.entries && !Fits(h, w, devs[i])
    requires forall d :: d in devs[..i] ==> !Fits(h, w, d)
    ensures forall d :: d in devs[..i + 1] ==> !Fits(h, w, d)
    ensures Spoil(h, w, devs[..i + 1]) ==
              if Free(h, w, devs[i]) then RemoveReservation(Spoil(h, w, devs[..i]), devs[i])
              else Spoil(h, w, devs[..i])
  {
    assert devs[..i + 1] == devs[..i] + [devs[i]];
    assert SpoiledAmong(h, w, devs[..i + 1]) ==
             SpoiledAmong(h, w, devs[..i]) + if Free(h, w, devs[i]) && devs[i] in h.reservations then {devs[i]} else {};
  }

  lemma SortedSpoils(h: Host, w: ScanWorld, devs: seq<Device>, i: nat)
    requires Sorted(devs) && i < |devs| && Fits(h, w, devs[i])
    requires forall n :: n in devs <==> Whole(n) in w.entries
    requires forall d :: d in devs[..i] ==> !Fits(h, w, d)
    ensures FirstFit(h, w, devs[i])
    ensures SpoiledAmong(h, w, devs[..i]) == SpoiledBelow(h, w, Some(devs[i]))
  {
    forall j | 0 <= j < |devs| && devs[j] !in devs[..i] ensures devs[i] <= devs[j] {
      assert forall k :: 0 <= k < i ==> devs[..i][k] == devs[k];
    }
    forall e | e in devs[..i] ensures e <= devs[i] {
      var j :| 0 <= j < i && devs[..i][j] == e;
    }
  }

  lemma TakenIsScanned(h: Host, v: Volume, w: ScanWorld, devs: seq<Device>, i: nat, h': Host)
    requires Sorted(devs) && i < |devs| && Fits(h, w, devs[i])
    requires forall n :: n in devs <==> Whole(n) in w.entries
    requires forall d :: d in devs[..i] ==> !Fits(h, w, d)
    requires var m := Spoil(h, w, devs[..i]);
             h' == if w.recordWritable then WriteReservation(WriteRecord(m, v, Holds(devs[i])), devs[i], NameOf(w, v))
                   else RemoveReservation(Unwritten(m, v, w), devs[i])
    ensures Scanned(h, v, w, if w.recordWritable then Some(devs[i]) else None, h')
  {
    SortedSpoils(h, w, devs, i);
  }

  lemma ExhaustedIsScanned(h: Host, v: Volume, w: ScanWorld, devs: seq<Device>, h': Host)
    requires forall n :: n in devs <==> Whole(n) in w.entries
    requires forall d :: d in devs ==> !Fits(h, w, d)
    requires h' == Spoil(h, w, devs)
    ensures Scanned(h, v, w, None, h')
  {
    assert SpoiledAmong(h, w, devs) == SpoiledBelow(h, w, None);
  }

  lemma FewerRecordsStayUnrecorded(h: Host, h': Host, aged: set<Device>)
    requires forall v :: v in h'.records ==> v in h.records && h'.records[v] == h.records[v]
    requires forall d :: d in h'.reservations ==> d in h.reservations && h'.reservations[d] == h.reservations[d]
    ensures AgedUnrecorded(h, aged) ==> AgedUnrecorded(h', aged)
  {
    assert forall v, d :: Records(h', v, d) ==> Records(h, v, d);
  }
}
