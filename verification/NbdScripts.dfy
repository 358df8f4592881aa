/**
 Stretches of publish and unpublish calls, to be put together into whole runs: each lemma
 continues a history by some steps of its caller.
 */
module NbdScripts {
  import opened Options
  import opened NodeHost
  import opened NbdProtocol
  import opened NbdHistory

  // ---- Publishing over a device that nobody has ----

  lemma ToPrepare(env: Env, t: History, v: Volume, h: Host, last: Outcome) returns (t': History)
    requires Reached(env, t, v, Idle(last), h) && v !in h.mounts && v !in h.records
    ensures Reached(env, t', v, Prepare, h) && t'.session == t.session
  {
    t' := LogStart(env, t, v, Idle(last), Check, h);
    t' := LogStart(env, t', v, Check, Want(StaleRegion), h);
    t' := LogStart(env, t', v, Want(StaleRegion), StaleRead, h);
    t' := LogClear(env, t', v, StaleRead, Prepare, h);
  }

  lemma OverExport(env: Env, t: History, v: Volume, h: Host) returns (t': History)
    requires Reached(env, t, v, Prepare, h) && v !in h.mounts
    ensures Reached(env, t', v, Want(ReserveRegion), Sized(h, v)) && t'.session == t.session
  {
    var h1 := MountOn(h, v, NineP);
    t' := LogStart(env, t, v, Prepare, Mount9p, h);
    t' := LogStart(env, t', v, Mount9p, MakeDisk, h1);
    t' := SizeDiskFile(env, t', v, h1);
    SizedUnderMount(h, v);
  }

  lemma SizeDiskFile(env: Env, t: History, v: Volume, h: Host) returns (t': History)
    requires Reached(env, t, v, MakeDisk, h)
    ensures Reached(env, t', v, Want(ReserveRegion), Unmount(Sized(h, v), v)) && t'.session == t.session
  {
    t' := LogStart(env, t, v, MakeDisk, Umount9p, Sized(h, v));
    t' := LogStart(env, t', v, Umount9p, Want(ReserveRegion), Unmount(Sized(h, v), v));
  }

  lemma SizedUnderMount(h: Host, v: Volume)
    requires v !in h.mounts
    ensures Unmount(Sized(MountOn(h, v, NineP), v), v) == Sized(h, v)
  {
    assert h.mounts[v := NineP] - {v} == h.mounts;
  }

  lemma ToScan(env: Env, t: History, v: Volume, h: Host, last: Outcome) returns (t': History)
    requires Reached(env, t, v, Idle(last), h) && v !in h.mounts && v !in h.records
    ensures Reached(env, t', v, Scan, Sized(h, v)) && t'.session == t.session
  {
    t' := ToPrepare(env, t, v, h, last);
    t' := OverExport(env, t', v, h);
    t' := LogStart(env, t', v, Want(ReserveRegion), ReserveRead, Sized(h, v));
    t' := LogReserve(env, t', v, ReserveRead, Scan, Sized(h, v));
  }

  /** From the exclusive create to the state file, still empty. */
  lemma ToFill(env: Env, t: History, v: Volume, h: Host, d: Device) returns (t': History)
    requires Reached(env, t, v, Create(d), h) && d !in h.reservations
    ensures Reached(env, t', v, Fill(d), WriteReservation(WriteRecord(h, v, Empty), d, Holds(v)))
    ensures t'.session == t.session
  {
    var h1, h2 := WriteReservation(h, d, Empty), WriteReservation(h, d, Holds(v));
    t' := LogReserve(env, t, v, Create(d), Name(d), h1);
    assert h1.reservations[d := Holds(v)] == h.reservations[d := Holds(v)];
    t' := LogReserve(env, t', v, Name(d), Truncate(d), h2);
    t' := LogReserve(env, t', v, Truncate(d), Fill(d), WriteRecord(h2, v, Empty));
  }

  /** From the exclusive create on; the name may get lost. */
  lemma Take(env: Env, t: History, v: Volume, h: Host, d: Device, lands: bool) returns (t': History)
    requires Reached(env, t, v, Create(d), h) && d !in h.reservations && (env.writesLand ==> lands)
    ensures Reached(env, t', v, Connect(d),
                    WriteReservation(WriteRecord(h, v, Holds(d)), d, if lands then Holds(v) else Empty))
    ensures t'.session == t.session
  {
    var h1 := WriteReservation(h, d, Empty);
    var h2 := WriteReservation(h, d, if lands then Holds(v) else Empty);
    t' := LogReserve(env, t, v, Create(d), Name(d), h1);
    assert h1.reservations[d := Holds(v)] == h.reservations[d := Holds(v)];
    t' := LogReserve(env, t', v, Name(d), Truncate(d), h2);
    t' := Record(env, t', v, h2, d);
  }

  lemma Record(env: Env, t: History, v: Volume, h: Host, d: Device) returns (t': History)
    requires Reached(env, t, v, Truncate(d), h)
    ensures Reached(env, t', v, Connect(d), WriteRecord(h, v, Holds(d))) && t'.session == t.session
  {
    t' := LogReserve(env, t, v, Truncate(d), Fill(d), WriteRecord(h, v, Empty));
    assert h.records[v := Empty][v := Holds(d)] == h.records[v := Holds(d)];
    t' := LogReserve(env, t', v, Fill(d), Connect(d), WriteRecord(h, v, Holds(d)));
  }

  lemma ToCreate(env: Env, t: History, v: Volume, h: Host, d: Device) returns (t': History)
    requires Reached(env, t, v, Scan, h) && d !in h.attached && d !in h.reservations
    ensures Reached(env, t', v, Create(d), h) && t'.session == t.session
  {
    t' := LogReserve(env, t, v, Scan, Collect(d), h);
    t' := LogReserve(env, t', v, Collect(d), Create(d), h);
  }

  /** The scan comes upon a reservation that it leaves alone, or collects. */
  lemma ToCreateOver(env: Env, t: History, v: Volume, h: Host, d: Device, collect: bool) returns (t': History)
    requires Reached(env, t, v, Scan, h) && d !in h.attached && d in h.reservations && h.reservations[d].Holds?
    requires collect ==> h.reservations[d].value !in h.records || !env.agedSafe
    requires !collect ==> h.reservations[d].value in h.records
    ensures Reached(env, t', v, Create(d), if collect then RemoveReservation(h, d) else h) && t'.session == t.session
  {
    var c := h.reservations[d];
    t' := LogReserve(env, t, v, Scan, Collect(d), h);
    t' := LogReserve(env, t', v, Collect(d), Inspect(d, c), h);
    if collect {
      t' := LogReserve(env, t', v, Inspect(d, c), Discard(d), h);
      t' := LogReserve(env, t', v, Discard(d), Create(d), RemoveReservation(h, d));
    } else {
      t' := LogReserve(env, t', v, Inspect(d, c), Create(d), h);
    }
  }

  lemma ToConnect(env: Env, t: History, v: Volume, h: Host, d: Device, last: Outcome) returns (t': History)
    requires Reached(env, t, v, Idle(last), h) && v !in h.mounts && v !in h.records
    requires d !in h.attached && d !in h.reservations
    ensures Reached(env, t', v, Connect(d), Reserve(Sized(h, v), v, d)) && t'.session == t.session
  {
    t' := ToScan(env, t, v, h, last);
    t' := ToCreate(env, t', v, Sized(h, v), d);
    t' := Take(env, t', v, Sized(h, v), d, true);
  }

  /** The host with d taken over by v from whoever had it reserved. */
  function TakenOver(h: Host, v: Volume, d: Device): Host {
    Reserve(RemoveReservation(Sized(h, v), d), v, d)
  }

  lemma TakeOver(env: Env, t: History, v: Volume, h: Host, d: Device, last: Outcome) returns (t': History)
    requires Reached(env, t, v, Idle(last), h) && v !in h.mounts && v !in h.records
    requires d !in h.attached && d in h.reservations && h.reservations[d].Holds?
    requires h.reservations[d].value !in h.records || !env.agedSafe
    ensures Reached(env, t', v, Connect(d), TakenOver(h, v, d)) && t'.session == t.session
  {
    t' := ToScan(env, t, v, h, last);
    t' := ToCreateOver(env, t', v, Sized(h, v), d, true);
    t' := Take(env, t', v, RemoveReservation(Sized(h, v), d), d, true);
  }

  lemma TakeToFill(env: Env, t: History, v: Volume, h: Host, d: Device, last: Outcome) returns (t': History)
    requires Reached(env, t, v, Idle(last), h) && v !in h.mounts && v !in h.records
    requires d !in h.attached && d in h.reservations && h.reservations[d].Holds?
    requires h.reservations[d].value !in h.records || !env.agedSafe
    ensures Arrived(env, t', v, Fill(d)) && Last(t').host.records == h.records[v := Empty] && t'.session == t.session
  {
    t' := ToScan(env, t, v, h, last);
    t' := ToCreateOver(env, t', v, Sized(h, v), d, true);
    t' := ToFill(env, t', v, RemoveReservation(Sized(h, v), d), d);
  }

  /** Connects and formats a disk that has no filesystem, or seems to have none. */
  lemma ToMount(env: Env, t: History, v: Volume, h: Host, d: Device) returns (t': History)
    requires Reached(env, t, v, Connect(d), h) && d !in h.attached
    requires env.blkidTruthful ==> !HasFilesystem(h, v)
    ensures Reached(env, t', v, MountFs(d), FormatDevice(Attach(h, d, v), d)) && t'.session == t.session
  {
    var h1 := Attach(h, d, v);
    t' := LogUse(env, t, v, Connect(d), Probe(d), h1);
    t' := LogUse(env, t', v, Probe(d), Format(d), h1);
    t' := LogUse(env, t', v, Format(d), MountFs(d), FormatDevice(h1, d));
  }

  /** The host with v newly published over d. */
  function Up(h: Host, v: Volume, d: Device): Host {
    MountOn(FormatDevice(Attach(Reserve(Sized(h, v), v, d), d, v), d), v, Nbd(d))
  }

  lemma UpIsMountable(h: Host, v: Volume, d: Device)
    requires v in h.disks
    ensures var h' := FormatDevice(Attach(h, d, v), d); d in h'.attached && HasFilesystem(h', h'.attached[d])
  {
  }

  lemma Publish(env: Env, t: History, v: Volume, h: Host, d: Device, last: Outcome) returns (t': History)
    requires Reached(env, t, v, Idle(last), h) && v !in h.mounts && v !in h.records && !HasFilesystem(h, v)
    requires d !in h.attached && d !in h.reservations
    ensures Reached(env, t', v, Idle(Published), Up(h, v, d)) && t'.session == t.session
  {
    var h1 := Reserve(Sized(h, v), v, d);
    t' := ToConnect(env, t, v, h, d, last);
    assert h1.disks == Sized(h, v).disks && d !in h1.attached && !HasFilesystem(h1, v);
    t' := ToMount(env, t', v, h1, d);
    UpIsMountable(h1, v, d);
    t' := LogUse(env, t', v, MountFs(d), Idle(Published), Up(h, v, d));
  }

  // ---- Unpublishing ----

  /** Up to the removal of the record; umount and detach may fail. */
  lemma ToDropped(env: Env, t: History, v: Volume, h: Host, d: Device, umounts: bool, detaches: bool)
    returns (t': History)
    requires Reached(env, t, v, Idle(Published), h) && v in h.mounts && h.mounts[v] == Nbd(d)
    requires (env.umountEnds ==> umounts) && (v !in env.detachFails ==> detaches)
    ensures Reached(env, t', v, ClearReservation(Dev(d), Unpublishing),
                    RemoveRecord(DetachIf(if umounts then Unmount(h, v) else h, d, detaches), v))
    ensures t'.session == t.session
  {
    var h1 := if umounts then Unmount(h, v) else h;
    t' := LogStart(env, t, v, Idle(Published), UnpFind, h);
    t' := LogUnpublish(env, t', v, UnpFind, UnpUmount(Dev(d)), h);
    t' := LogUnpublish(env, t', v, UnpUmount(Dev(d)), UnpRead(Dev(d)), h1);
    t' := DetachAndDrop(env, t', v, h1, d, detaches);
  }

  lemma DetachAndDrop(env: Env, t: History, v: Volume, h: Host, d: Device, detaches: bool) returns (t': History)
    requires Reached(env, t, v, UnpRead(Dev(d)), h) && (v !in env.detachFails ==> detaches)
    ensures Reached(env, t', v, ClearReservation(Dev(d), Unpublishing), RemoveRecord(DetachIf(h, d, detaches), v))
    ensures t'.session == t.session
  {
    var h1, r := DetachIf(h, d, detaches), ClearRegion(Dev(d), Unpublishing);
    t' := LogUnpublish(env, t, v, UnpRead(Dev(d)), UnpDetach(Dev(d)), h);
    t' := LogUnpublish(env, t', v, UnpDetach(Dev(d)), UnpPod(Dev(d)), h1);
    t' := LogUnpublish(env, t', v, UnpPod(Dev(d)), Want(r), h1);
    t' := DropUnderLock(env, t', v, h1, Dev(d), Unpublishing);
  }

  lemma DropUnderLock(env: Env, t: History, v: Volume, h: Host, src: Source, why: ClearReason) returns (t': History)
    requires Reached(env, t, v, Want(ClearRegion(src, why)), h)
    ensures Reached(env, t', v, ClearReservation(src, why), RemoveRecord(h, v)) && t'.session == t.session
  {
    t' := LogStart(env, t, v, Want(ClearRegion(src, why)), ClearRecord(src, why), h);
    t' := LogClear(env, t', v, ClearRecord(src, why), ClearReservation(src, why), RemoveRecord(h, v));
  }

  lemma Unpublish(env: Env, t: History, v: Volume, h: Host, d: Device) returns (t': History)
    requires Reached(env, t, v, Idle(Published), h) && v in h.mounts && h.mounts[v] == Nbd(d)
    ensures Reached(env, t', v, Idle(Unpublished), RemoveReservation(RemoveRecord(Detach(Unmount(h, v), d), v), d))
    ensures t'.session == t.session
  {
    var h1 := RemoveRecord(Detach(Unmount(h, v), d), v);
    t' := ToDropped(env, t, v, h, d, true, true);
    t' := LogClear(env, t', v, ClearReservation(Dev(d), Unpublishing), Idle(Unpublished), RemoveReservation(h1, d));
  }

  // ---- A publish that fails after its connect, beside whoever holds nbdMu ----

  lemma ToAbort(env: Env, t: History, v: Volume, h: Host, d: Device, lock: Option<Volume>) returns (t': History)
    requires Stands(env, t, v, Connect(d), lock) && Last(t).host == h && d !in h.attached && !HasFilesystem(h, v)
    ensures Stands(env, t', v, Abort(d), lock) && Last(t').host == Attach(h, d, v) && t'.session == t.session
  {
    var h1 := Attach(h, d, v);
    t' := LogUseBeside(env, t, v, Connect(d), Probe(d), h1, lock);
    t' := LogUseBeside(env, t', v, Probe(d), Format(d), h1, lock);
    t' := LogUseBeside(env, t', v, Format(d), Abort(d), h1, lock);
  }

  /** The device stays connected through both attempts to detach it, or goes at the first. */
  lemma ToClear(env: Env, t: History, v: Volume, h: Host, d: Device, lock: Option<Volume>, detached: bool)
    returns (t': History)
    requires Stands(env, t, v, Abort(d), lock) && Last(t).host == h && v !in h.mounts && Records(h, v, d)
    requires (!detached ==> v in env.cleanupFails) && env.deferred != UnderLock
    ensures Stands(env, t', v, ClearPc(env, Dev(d), Deferred), lock)
    ensures Last(t').host == DetachIf(h, d, detached) && t'.session == t.session
  {
    var h1 := DetachIf(h, d, detached);
    t' := LogUseBeside(env, t, v, Abort(d), CleanUmount, h1, lock);
    t' := CleanUp(env, t', v, h1, d, lock);
  }

  lemma CleanUp(env: Env, t: History, v: Volume, h: Host, d: Device, lock: Option<Volume>) returns (t': History)
    requires Stands(env, t, v, CleanUmount, lock) && Last(t).host == h && v !in h.mounts && Records(h, v, d)
    requires (d in h.attached ==> v in env.cleanupFails) && env.deferred != UnderLock
    ensures Stands(env, t', v, ClearPc(env, Dev(d), Deferred), lock) && Last(t').host == h && t'.session == t.session
  {
    assert h.mounts - {v} == h.mounts;
    t' := LogUndoBeside(env, t, v, CleanUmount, CleanRead, h, lock);
    t' := LogUndoBeside(env, t', v, CleanRead, CleanDetach(d), h, lock);
    t' := StayConnected(env, t', v, h, d, lock);
  }

  lemma StayConnected(env: Env, t: History, v: Volume, h: Host, d: Device, lock: Option<Volume>) returns (t': History)
    requires Stands(env, t, v, CleanDetach(d), lock) && Last(t).host == h
    requires (d in h.attached ==> v in env.cleanupFails) && env.deferred != UnderLock
    ensures Stands(env, t', v, ClearPc(env, Dev(d), Deferred), lock) && Last(t').host == h && t'.session == t.session
  {
    assert d !in h.attached ==> h.attached - {d} == h.attached;
    t' := LogUndoBeside(env, t, v, CleanDetach(d), ClearPc(env, Dev(d), Deferred), h, lock);
  }

  /** From the connect to the clear in one step, with neither detach succeeding. */
  lemma FailBeside(env: Env, t: History, v: Volume, h: Host, d: Device, lock: Option<Volume>) returns (t': History)
    requires Stands(env, t, v, Connect(d), lock) && Last(t).host == h && d !in h.attached && !HasFilesystem(h, v)
    requires v !in h.mounts && Records(h, v, d) && v in env.cleanupFails && env.deferred == OneStep
    ensures Stands(env, t', v, CleanPod, lock) && t'.session == t.session
    ensures Last(t').host == RemoveReservation(RemoveRecord(Attach(h, d, v), v), d)
  {
    t' := ToAbort(env, t, v, h, d, lock);
    t' := ToClear(env, t', v, Attach(h, d, v), d, lock, false);
    t' := ClearBeside(env, t', v, Attach(h, d, v), d, lock);
  }

  lemma ClearBeside(env: Env, t: History, v: Volume, h: Host, d: Device, lock: Option<Volume>) returns (t': History)
    requires Stands(env, t, v, CleanClear(d), lock) && Last(t).host == h
    ensures Stands(env, t', v, CleanPod, lock) && t'.session == t.session
    ensures Last(t').host == RemoveReservation(RemoveRecord(h, v), d)
  {
    t' := LogClearBeside(env, t, v, CleanClear(d), CleanPod, RemoveReservation(RemoveRecord(h, v), d), lock);
  }

  // ---- The driver dies ----

  /** v's call is interrupted, and v calls again. */
  lemma Restart(env: Env, t: History, v: Volume) returns (t': History)
    requires IsHistory(env, t) && !At(Last(t), v).Idle? && v in Last(t).calls
    ensures Reached(env, t', v, Idle(Interrupted), Last(t).host) && t'.session.start == t.session.start
  {
    t' := Interlude(env, t, v, Crashed(Last(t)), Crash);
  }

  /** A retried publish comes upon the device of the attempt that was cut off. */
  lemma ToStale(env: Env, t: History, v: Volume, h: Host) returns (t': History)
    requires Reached(env, t, v, Idle(Interrupted), h) && v !in h.mounts
    ensures Reached(env, t', v, StaleRead, h) && t'.session == t.session
  {
    t' := LogStart(env, t, v, Idle(Interrupted), Check, h);
    t' := LogStart(env, t', v, Check, Want(StaleRegion), h);
    t' := LogStart(env, t', v, Want(StaleRegion), StaleRead, h);
  }
}
