/**
 * The jail descriptor, its permission set, and the setters that send one
 * parameter to an existing jail: each permission is granted and revoked
 * through two distinct parameter names, always with the value int32(1).
 */
module JailTypes {
  import opened Wrappers
  import opened GoTypes
  import opened JailSyscall
  import opened JailParams

  /** The capability toggles of a jail (Go's Perms struct, one constructor per field). */
  datatype Perm =
    | SetHostname | Extattr | ReservedPorts | SetTime | Root | Chflags | RawSockets
    | Mount | MountDevfs | MountProcfs | MountTmpfs | MountNullfs | MountZfs
    | Mlock | ReadMsgbuf | SocketAF | Quotas | AdjTime | Routing | SetAudit
    | UnprivilegedProcDebug | UnprivilegedParentTampering | VMM

  /** A snapshot of one jail; perms holds the toggles that are on. */
  datatype Jail = Jail(
    name: GoString,
    path: GoString,
    hostname: GoString,
    osRelease: GoString,
    osRelDate: int32,
    id: int32,
    secureLevel: int32,
    parent: int32,
    enforceStatfs: int32,
    devfsRuleset: int32,
    vnet: bool,
    dying: bool,
    persist: bool,
    perms: set<Perm>)

  /**
   * The kernel's name for a permission without its "allow." prefix; the
   * Allow helper of p sets "allow." + PermSuffix(p) and the Deny helper
   * "allow.no" + PermSuffix(p).
   */
  function PermSuffix(p: Perm): GoString {
    match p
    case SetHostname => "set_hostname"
    case Extattr => "extattr"
    case SetTime => "settime"
    case Root => "suser"
    case Chflags => "chflags"
    case ReservedPorts => "reserved_ports"
    case RawSockets => "raw_sockets"
    case Mount => "mount"
    case MountDevfs => "mount.devfs"
    case MountProcfs => "mount.procfs"
    case MountTmpfs => "mount.tmpfs"
    case MountNullfs => "mount.nullfs"
    case MountZfs => "mount.zfs"
    case Mlock => "mlock"
    case ReadMsgbuf => "read_msgbuf"
    case SocketAF => "socket_af"
    case Quotas => "quotas"
    case AdjTime => "adjtime"
    case Routing => "routing"
    case SetAudit => "setaudit"
    case UnprivilegedProcDebug => "unprivileged_proc_debug"
    case UnprivilegedParentTampering => "unprivileged_parent_tampering"
    case VMM => "vmm"
  }

  /** The parameter each Allow helper sets, int32(1) meaning "grant". */
  function AllowName(p: Perm): (name: GoString)
    ensures name != "jid"
  {
    "allow." + PermSuffix(p)
  }

  /** The parameter each Deny helper sets, int32(1) meaning "revoke". */
  function DenyName(p: Perm): (name: GoString)
    ensures name != "jid"
  {
    "allow.no" + PermSuffix(p)
  }

  /**
   * Granting and revoking are two distinct parameters, never one parameter
   * with a boolean value.
   */
  lemma DenyDiffersFromAllow(p: Perm)
    ensures DenyName(p) != AllowName(p)
  {
    assert DenyName(p)[6] == 'n';
    assert |PermSuffix(p)| > 0 && PermSuffix(p)[0] != 'n';
    assert AllowName(p)[6] == PermSuffix(p)[0];
  }

  /** The request a setter hands to Set: a fresh container and the flag word. */
  datatype SetCall = SetCall(params: Params, flags: bv64)

  /**
   * SetParam: a fresh container holding "jid" -> the jail's id and
   * name -> v, sent with the update flag only. The second Add's error is
   * ignored, so naming "jid" again leaves just the id.
   */
  method SetParam(j: Jail, name: GoString, v: Value) returns (call: SetCall)
    ensures fresh(call.params)
    ensures call.flags == UpdateFlag
    ensures call.params.entries ==
      if name == "jid" then map["jid" := Int32(j.id)] else map["jid" := Int32(j.id), name := v]
  {
    var p := new Params();
    var _ := Add(p, "jid", Int32(j.id));
    var _ := Add(p, name, v);
    call := SetCall(p, UpdateFlag);
  }

  /** The Allow helpers: grant p by setting its name to int32(1). */
  method Allow(j: Jail, p: Perm) returns (call: SetCall)
    ensures fresh(call.params) && call.flags == UpdateFlag
    ensures call.params.entries == map["jid" := Int32(j.id), AllowName(p) := Int32(1)]
  {
    call := SetParam(j, AllowName(p), Int32(1));
  }

  /** The Deny helpers: revoke p by setting its negated name to int32(1). */
  method Deny(j: Jail, p: Perm) returns (call: SetCall)
    ensures fresh(call.params) && call.flags == UpdateFlag
    ensures call.params.entries == map["jid" := Int32(j.id), DenyName(p) := Int32(1)]
  {
    call := SetParam(j, DenyName(p), Int32(1));
  }

  /** SetName: set the jail's "name". */
  method SetName(j: Jail, name: GoString) returns (call: SetCall)
    ensures fresh(call.params) && call.flags == UpdateFlag
    ensures call.params.entries == map["jid" := Int32(j.id), "name" := Str(name)]
  {
    call := SetParam(j, "name", Str(name));
  }

  /** SetHostname: set the jail's "host.hostname". */
  method SetHostname(j: Jail, name: GoString) returns (call: SetCall)
    ensures fresh(call.params) && call.flags == UpdateFlag
    ensures call.params.entries == map["jid" := Int32(j.id), "host.hostname" := Str(name)]
  {
    call := SetParam(j, "host.hostname", Str(name));
  }
}
