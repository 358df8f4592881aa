/**
 The device side of pkg/csi/nbd.go: which /dev entries are NBD devices and in what order
 they are tried, and what makes a device free for a scan.
 */
module NbdDevices {
  import opened Options
  import opened NodeHost

  /** What the glob /dev/nbd* can match: whole devices, their partitions, anything else. */
  datatype DevEntry = Whole(n: Device) | Partition(n: Device, part: nat) | Other(name: string)

  /** What reserveNBDDevice finds around the two indexes. */
  datatype ScanWorld = ScanWorld(
    entries: seq<DevEntry>,     // matches of /dev/nbd*
    runDirs: bool,              // /run/zerofs-csi exists or can be made
    nodes: set<Device>,         // devices whose node can be stat'ed
    unreadable: set<Device>,    // devices whose connection state cannot be read
    aged: set<Device>,          // reservations older than two hours
    uncreatable: set<Device>,   // reservations that cannot be created though absent
    nameLands: bool,            // the volume's name gets into a reservation just created
    recordWritable: bool,       // the state file can be written ...
    emptyLeft: bool)            // ... or else is left behind empty

  predicate Sorted(s: seq<Device>) {
    forall i, j :: 0 <= i < j < |s| ==> s[i] <= s[j]
  }

  predicate AtMost(s: seq<Device>, bound: Device) {
    forall i :: 0 <= i < |s| ==> s[i] <= bound
  }

  /** Inserts n behind everything not above it. */
  function Insert(s: seq<Device>, n: Device): seq<Device> {
    if s == [] || s[|s| - 1] <= n then s + [n] else Insert(s[..|s| - 1], n) + [s[|s| - 1]]
  }

  lemma {:induction false} InsertAdds(s: seq<Device>, n: Device)
    ensures multiset(Insert(s, n)) == multiset(s) + multiset{n}
  {
    if s != [] && s[|s| - 1] > n {
      InsertAdds(s[..|s| - 1], n);
      assert s == s[..|s| - 1] + [s[|s| - 1]];
    }
  }

  lemma {:induction false} InsertSorts(s: seq<Device>, n: Device)
    requires Sorted(s)
    ensures Sorted(Insert(s, n))
    ensures forall b :: AtMost(s, b) && n <= b ==> AtMost(Insert(s, n), b)
  {
    if s != [] && s[|s| - 1] > n {
      InsertSorts(s[..|s| - 1], n);
      assert AtMost(s[..|s| - 1], s[|s| - 1]);
    }
  }

  function WholeDevices(entries: seq<DevEntry>): multiset<Device> {
    if entries == [] then multiset{}
    else
      var rest := WholeDevices(entries[..|entries| - 1]);
      var e := entries[|entries| - 1];
      if e.Whole? then rest + multiset{e.n} else rest
  }

  lemma {:induction false} WholeDevicesAreListed(entries: seq<DevEntry>, n: Device)
    ensures n in WholeDevices(entries) <==> Whole(n) in entries
  {
    if entries != [] {
      var front := entries[..|entries| - 1];
      WholeDevicesAreListed(front, n);
      assert entries == front + [entries[|entries| - 1]];
    }
  }

  /** The whole devices among the matches, lowest number first. */
  method ListNBDDevices(entries: seq<DevEntry>) returns (devs: seq<Device>)
    ensures Sorted(devs) && multiset(devs) == WholeDevices(entries)
    ensures forall i, j :: 0 <= i < j < |devs| ==> devs[i] <= devs[j]
    ensures forall n :: n in devs <==> Whole(n) in entries
  {
    devs := [];
    for i := 0 to |entries|
      invariant Sorted(devs) && multiset(devs) == WholeDevices(entries[..i])
    {
      assert entries[..i + 1][..i] == entries[..i];
      if entries[i].Whole? {
        InsertAdds(devs, entries[i].n);
        InsertSorts(devs, entries[i].n);
        devs := Insert(devs, entries[i].n);
      }
    }
    assert entries[..|entries|] == entries;
    forall n ensures n in devs <==> Whole(n) in entries {
      WholeDevicesAreListed(entries, n);
      assert n in devs <==> n in multiset(devs);
    }
  }

  /** The scan removes the reservation on d before trying to take d. */
  predicate Collectible(h: Host, w: ScanWorld, d: Device) {
    d in h.reservations && (Orphaned(h, d) || d in w.aged)
  }

  predicate Free(h: Host, w: ScanWorld, d: Device) {
    d !in w.unreadable && d !in h.attached && (d !in h.reservations || Collectible(h, w, d))
  }

  /** Device d can be taken by a scan. */
  predicate Fits(h: Host, w: ScanWorld, d: Device) {
    Whole(d) in w.entries && Free(h, w, d) && d !in w.uncreatable
  }

  /** The lowest-numbered device that can be taken. */
  ghost predicate FirstFit(h: Host, w: ScanWorld, d: Device) {
    Fits(h, w, d) && forall e :: Fits(h, w, e) ==> d <= e
  }

  /** Reservations collected on devices that then could not be taken. */
  predicate Spoiled(h: Host, w: ScanWorld, d: Device) {
    Whole(d) in w.entries && Free(h, w, d) && d in w.uncreatable
  }

  /** The reservations lost that way on the devices numbered below the limit. */
  function SpoiledBelow(h: Host, w: ScanWorld, limit: Option<Device>): set<Device> {
    set d | d in h.reservations && Spoiled(h, w, d) && (limit.Some? ==> d < limit.value)
  }

  /** What a reservation made for v holds. */
  function NameOf(w: ScanWorld, v: Volume): Content<Volume> {
    if w.nameLands then Holds(v) else Empty
  }

  /** What a failed write of v's state file leaves. */
  function Unwritten(h: Host, v: Volume, w: ScanWorld): Host {
    if w.emptyLeft then WriteRecord(h, v, Empty) else h
  }

  /** What a scan for v started on h ends with. */
  ghost predicate Scanned(h: Host, v: Volume, w: ScanWorld, r: Option<Device>, h': Host) {
    match r
    case Some(d) =>
      && FirstFit(h, w, d)
      && w.recordWritable
      && h' == h.(records := h.records[v := Holds(d)],
                  reservations := (h.reservations - SpoiledBelow(h, w, r))[d := NameOf(w, v)])
    case None =>
      || (&& (forall d :: !Fits(h, w, d))
          && h' == h.(reservations := h.reservations - SpoiledBelow(h, w, None)))
      || (&& !w.recordWritable
          && exists d :: FirstFit(h, w, d)
               && h' == Unwritten(h, v, w).(reservations := h.reservations - SpoiledBelow(h, w, Some(d)) - {d}))
  }

  /** What a scan answers and does, in terms of the files and devices it looks at.  A device it
      returns is listed, can be read, is not connected, and has no reservation, an empty one,
      one of a volume without a state file, or an aged one; every listed device below it, or
      every listed device if it returns none, fails one of these or cannot be created.  Other
      reservations go only where creating failed; with working file operations a scan changes
      nothing but the two index entries of the device it returns. */
  lemma ScanIsFirstFit(h: Host, v: Volume, w: ScanWorld, r: Option<Device>, h': Host)
    requires Scanned(h, v, w, r, h')
    ensures r.Some? ==>
              && Whole(r.value) in w.entries && r.value !in w.unreadable && r.value !in h.attached
              && (r.value in h.reservations ==>
                    || h.reservations[r.value] == Empty || h.reservations[r.value].value !in h.records
                    || r.value in w.aged)
              && r.value !in w.uncreatable && w.recordWritable
    ensures r.Some? || w.recordWritable ==>
              forall e: Device :: Whole(e) in w.entries && (r.None? || e < r.value) ==>
                || e in w.unreadable || e in h.attached || e in w.uncreatable
                || (&& e in h.reservations && h.reservations[e] != Empty && h.reservations[e].value in h.records
                    && e !in w.aged)
    ensures h'.attached == h.attached && h'.mounts == h.mounts && h'.disks == h.disks
    ensures r.Some? ==> h'.records == h.records[v := Holds(r.value)]
    ensures r.Some? && w.nameLands ==> r.value in h'.reservations && h'.reservations[r.value] == Holds(v)
    ensures r.Some? || w.recordWritable ==>
              forall e :: e !in w.uncreatable && r != Some(e) ==>
                && (e in h'.reservations <==> e in h.reservations)
                && (e in h.reservations ==> h'.reservations[e] == h.reservations[e])
    ensures r.None? && w.recordWritable && w.uncreatable == {} ==> h' == h
  {
    assert forall e :: Whole(e) in w.entries && e !in w.uncreatable && Free(h, w, e) ==> Fits(h, w, e);
    if r.None? && w.recordWritable && w.uncreatable == {} {
      assert SpoiledBelow(h, w, None) == {};
      assert h.reservations - {} == h.reservations;
    }
  }

  /** Where some device fits, some device is the first. */
  lemma {:induction false} FirstFitExists(h: Host, w: ScanWorld, d: Device) returns (first: Device)
    requires Fits(h, w, d)
    ensures FirstFit(h, w, first)
  {
    if e: Device :| Fits(h, w, e) && e < d {
      first := FirstFitExists(h, w, e);
    } else {
      first := d;
    }
  }
}
