/**
 The part of a node that the driver reads and changes while it publishes and
 unpublishes volumes: the two file-backed indexes under /run/zerofs-csi, the
 kernel's NBD connections, the target mounts and the disk files.

 A device is the number N of /dev/nbdN.  A volume is known by its handle, which
 is one path segment; there is one target path for each volume and no two
 volumes share one, so mounts are indexed by volume.
 */
module NodeHost {

  datatype Volume = Volume(id: string)

  type Device = nat

  /** What a small index file holds.  A file is created (or truncated) before it
      is written, so a process that dies in between leaves an empty one. */
  datatype Content<+T> = Empty | Holds(value: T)

  datatype Mount = NineP | Nbd(dev: Device)

  /** A volume's disk file: how often it was sized and how often a filesystem was
      made on it. */
  datatype Disk = Disk(sizings: nat, formats: nat)

  datatype Host = Host(
    records: map<Volume, Content<Device>>,       // /run/zerofs-csi/<volume>
    reservations: map<Device, Content<Volume>>,  // /run/zerofs-csi/by-device/nbdN
    attached: map<Device, Volume>,               // whose disk a connected device serves
    mounts: map<Volume, Mount>,                  // what is mounted on the volume's target
    disks: map<Volume, Disk>)

  /** Volume v's state file names device d. */
  predicate Records(h: Host, v: Volume, d: Device) {
    v in h.records && h.records[v] == Holds(d)
  }

  /** v's state file is missing or empty: reading it yields no device. */
  predicate Unrecorded(h: Host, v: Volume) {
    v in h.records ==> h.records[v] == Empty
  }

  /** Nothing is mounted on v's target and reading its state file yields no device. */
  predicate Bare(h: Host, v: Volume) {
    v !in h.mounts && Unrecorded(h, v)
  }

  predicate Reserved(h: Host, d: Device, v: Volume) {
    d in h.reservations && h.reservations[d] == Holds(v)
  }

  predicate HasFilesystem(h: Host, v: Volume) {
    v in h.disks && h.disks[v].formats > 0
  }

  /** The reservation on d is empty, or names a volume without a state file. */
  predicate Orphaned(h: Host, d: Device) {
    && d in h.reservations
    && (h.reservations[d].Holds? ==> h.reservations[d].value !in h.records)
  }

  /** v has neither record nor mount nor reservation. */
  ghost predicate Traceless(h: Host, v: Volume) {
    v !in h.records && v !in h.mounts && forall d :: !Reserved(h, d, v)
  }

  /** Nothing of v is left on the node, apart from its disk file. */
  ghost predicate Blank(h: Host, v: Volume) {
    Traceless(h, v) && forall d :: d in h.attached ==> h.attached[d] != v
  }

  /** Connected, but mounted nowhere. */
  predicate Orphan(h: Host, d: Device) {
    d in h.attached && forall v :: v in h.mounts ==> h.mounts[v] != Nbd(d)
  }

  // ---- Effects of single operations ----

  function RemoveRecord(h: Host, v: Volume): Host {
    h.(records := h.records - {v})
  }

  function RemoveReservation(h: Host, d: Device): Host {
    h.(reservations := h.reservations - {d})
  }

  function WriteRecord(h: Host, v: Volume, c: Content<Device>): Host {
    h.(records := h.records[v := c])
  }

  function WriteReservation(h: Host, d: Device, c: Content<Volume>): Host {
    h.(reservations := h.reservations[d := c])
  }

  function Attach(h: Host, d: Device, v: Volume): Host {
    h.(attached := h.attached[d := v])
  }

  function Detach(h: Host, d: Device): Host {
    h.(attached := h.attached - {d})
  }

  function MountOn(h: Host, v: Volume, m: Mount): Host {
    h.(mounts := h.mounts[v := m])
  }

  function Unmount(h: Host, v: Volume): Host {
    h.(mounts := h.mounts - {v})
  }

  /** Sizing creates the disk file the 9p export of v shows. */
  function SizeDisk(h: Host, v: Volume): Host {
    var n := if v in h.disks then h.disks[v].sizings else 0;
    h.(disks := h.disks[v := Disk(n + 1, 0)])
  }

  function Sized(h: Host, v: Volume): Host {
    if v in h.disks then h else SizeDisk(h, v)
  }

  /** Making a filesystem on device d writes to whatever disk d is serving. */
  function FormatDevice(h: Host, d: Device): Host {
    if d in h.attached && h.attached[d] in h.disks then
      var u := h.attached[d];
      h.(disks := h.disks[u := h.disks[u].(formats := h.disks[u].formats + 1)])
    else h
  }

  function DetachIf(h: Host, d: Device, detached: bool): Host {
    if detached then Detach(h, d) else h
  }

  /** The two index entries of a device taken by v. */
  function Reserve(h: Host, v: Volume, d: Device): Host {
    WriteReservation(WriteRecord(h, v, Holds(d)), d, Holds(v))
  }
}
