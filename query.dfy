/**
 * Reading jails back from the kernel: the decoding of FindByID's filled
 * buffers, the cursor walk of AllByID over the jail ids, and All,
 * AllByName, Living and Dying built on them.
 */
module JailQuery {
  import opened Wrappers
  import opened GoTypes
  import opened JailSyscall
  import opened JailGet
  import opened JailTypes
  import Seqs

  /** The parameter FindByID queries for each permission, as its request spells it. */
  function PermQueryName(p: Perm): GoString {
    match p
    case SetHostname => "allow.set_hostname"
    case Extattr => "allow.extattr"
    case SetTime => "allow.settime"
    case Root => "allow.suser"
    case Chflags => "allow.chflags"
    case ReservedPorts => "allow.reserved_ports"
    case RawSockets => "allow.raw_sockets"
    case Mount => "allow.mount"
    case MountDevfs => "allow.mount.devfs"
    case MountProcfs => "allow.mount.procfs"
    case MountTmpfs => "allow.mount.tmpfs"
    case MountNullfs => "allow.mount.nullfs"
    case MountZfs => "allow.mount.zfs"
    case Mlock => "allow.mlock"
    case ReadMsgbuf => "allow.read_msgbuf"
    case SocketAF => "allow.socket_af"
    case Quotas => "allow.quotas"
    case AdjTime => "allow.adjtime"
    case Routing => "allow.routing"
    case SetAudit => "allow.setaudit"
    case UnprivilegedProcDebug => "allow.unprivileged_proc_debug"
    case UnprivilegedParentTampering => "allow.unprivileged_parent_tampering"
    case VMM => "allow.vmm"
  }

  lemma QueryNamesPart1(p: Perm)
    requires p.SetHostname? || p.Extattr? || p.SetTime?
    ensures AllowName(p) == PermQueryName(p)
  {
  }

  lemma QueryNamesPart2(p: Perm)
    requires p.Root? || p.Chflags? || p.ReservedPorts?
    ensures AllowName(p) == PermQueryName(p)
  {
  }

  lemma QueryNamesPart3(p: Perm)
    requires p.RawSockets? || p.Mount? || p.MountDevfs?
    ensures AllowName(p) == PermQueryName(p)
  {
  }

  lemma QueryNamesPart4(p: Perm)
    requires p.MountProcfs? || p.MountTmpfs? || p.MountNullfs?
    ensures AllowName(p) == PermQueryName(p)
  {
  }

  lemma QueryNamesPart5(p: Perm)
    requires p.MountZfs? || p.Mlock? || p.ReadMsgbuf?
    ensures AllowName(p) == PermQueryName(p)
  {
  }

  lemma QueryNamesPart6(p: Perm)
    requires p.SocketAF? || p.Quotas? || p.AdjTime?
    ensures AllowName(p) == PermQueryName(p)
  {
  }

  lemma QueryNamesPart7(p: Perm)
    requires p.Routing? || p.SetAudit? || p.UnprivilegedProcDebug?
    ensures AllowName(p) == PermQueryName(p)
  {
  }

  lemma QueryNamesPart8(p: Perm)
    requires p.UnprivilegedParentTampering? || p.VMM?
    ensures AllowName(p) == PermQueryName(p)
  {
  }

  /**
   * The parameter each Allow helper sets is the very one FindByID reads
   * the permission back from (and, since Deny names differ from Allow
   * names, never the one a Deny helper sets).
   */
  lemma AllowNameMatchesQuery(p: Perm)
    ensures AllowName(p) == PermQueryName(p)
    ensures DenyName(p) != PermQueryName(p)
  {
    DenyDiffersFromAllow(p);
    match p
    case SetHostname => QueryNamesPart1(p);
    case Extattr => QueryNamesPart1(p);
    case SetTime => QueryNamesPart1(p);
    case Root => QueryNamesPart2(p);
    case Chflags => QueryNamesPart2(p);
    case ReservedPorts => QueryNamesPart2(p);
    case RawSockets => QueryNamesPart3(p);
    case Mount => QueryNamesPart3(p);
    case MountDevfs => QueryNamesPart3(p);
    case MountProcfs => QueryNamesPart4(p);
    case MountTmpfs => QueryNamesPart4(p);
    case MountNullfs => QueryNamesPart4(p);
    case MountZfs => QueryNamesPart5(p);
    case Mlock => QueryNamesPart5(p);
    case ReadMsgbuf => QueryNamesPart5(p);
    case SocketAF => QueryNamesPart6(p);
    case Quotas => QueryNamesPart6(p);
    case AdjTime => QueryNamesPart6(p);
    case Routing => QueryNamesPart7(p);
    case SetAudit => QueryNamesPart7(p);
    case UnprivilegedProcDebug => QueryNamesPart7(p);
    case UnprivilegedParentTampering => QueryNamesPart8(p);
    case VMM => QueryNamesPart8(p);
  }

  /** The number of NUL bytes b starts with. */
  function LeadingNul(b: seq<byte>): (n: nat)
    ensures n <= |b| && (n == |b| || b[n] != 0)
    ensures forall j | 0 <= j < n :: b[j] == 0
  {
    if b != [] && b[0] == 0 then 1 + LeadingNul(b[1..]) else 0
  }

  /** The number of NUL bytes b ends with. */
  function TrailingNul(b: seq<byte>): (n: nat)
    ensures n <= |b| && (n == |b| || b[|b| - n - 1] != 0)
    ensures forall j | |b| - n <= j < |b| :: b[j] == 0
  {
    if b != [] && b[|b| - 1] == 0 then 1 + TrailingNul(b[..|b| - 1]) else 0
  }

  /** bytes.Trim(b, "\x00"): b without the NUL bytes at either end. */
  function TrimNul(b: seq<byte>): seq<byte> {
    if LeadingNul(b) == |b| then [] else b[LeadingNul(b)..|b| - TrailingNul(b)]
  }

  /**
   * TrimNul removes NULs only, from the two ends only: what remains is a
   * slice of b, all bytes cut from either side are NUL, and the slice is
   * empty or starts and ends with a non-NUL byte.
   */
  lemma TrimNulSlice(b: seq<byte>)
    ensures exists i, k | 0 <= i <= k <= |b| ::
      && TrimNul(b) == b[i..k]
      && (forall j | 0 <= j < i :: b[j] == 0)
      && (forall j | k <= j < |b| :: b[j] == 0)
    ensures TrimNul(b) == [] || (TrimNul(b)[0] != 0 && TrimNul(b)[|TrimNul(b)| - 1] != 0)
  {
    var n, m := LeadingNul(b), TrailingNul(b);
    if n == |b| {
      assert TrimNul(b) == b[|b|..|b|];
    } else {
      assert b[|b| - m - 1] != 0;
      assert n <= |b| - m;
      assert TrimNul(b) == b[n..|b| - m];
    }
  }

  predicate AllNul(b: seq<byte>) {
    forall j | 0 <= j < |b| :: b[j] == 0
  }

  /**
   * A value the kernel writes between NUL padding (at the start of a
   * zeroed buffer, say) is read back unchanged, provided it neither starts
   * nor ends with a NUL.
   */
  lemma TrimNulRoundTrip(pre: seq<byte>, s: seq<byte>, post: seq<byte>)
    requires AllNul(pre) && AllNul(post)
    requires s == [] || (s[0] != 0 && s[|s| - 1] != 0)
    ensures TrimNul(pre + s + post) == s
  {
    var b := pre + s + post;
    if s == [] {
      assert AllNul(b);
    } else {
      assert b[|pre|] == s[0];
      assert LeadingNul(b) == |pre|;
      assert b[|pre| + |s| - 1] == s[|s| - 1];
      assert TrailingNul(b) == |post|;
      assert b[|pre|..|b| - |post|] == s;
    }
  }

  /** What the kernel leaves in FindByID's variables after a successful call. */
  datatype Raw = Raw(
    name: seq<byte>,
    path: seq<byte>,
    hostname: seq<byte>,
    osRelease: seq<byte>,
    vnet: int32,
    enforceStatfs: int32,
    osRelDate: int32,
    secureLevel: int32,
    parent: int32,
    dying: int32,
    persist: int32,
    devfsRuleset: int32,
    perm: GoString -> int32)

  /** The descriptor of jail jid decoded from the kernel's answer. */
  function Decode(jid: int32, raw: Raw): (j: Jail)
    ensures j.id == jid
  {
    Jail(
      name := FromBytes(TrimNul(raw.name)),
      path := FromBytes(TrimNul(raw.path)),
      hostname := FromBytes(TrimNul(raw.hostname)),
      osRelease := FromBytes(TrimNul(raw.osRelease)),
      osRelDate := raw.osRelDate,
      id := jid,
      secureLevel := raw.secureLevel,
      parent := raw.parent,
      enforceStatfs := raw.enforceStatfs,
      devfsRuleset := raw.devfsRuleset,
      vnet := IsOn(raw.vnet),
      dying := IsOn(raw.dying),
      persist := IsOn(raw.persist),
      perms := set p: Perm | IsOn(raw.perm(PermQueryName(p))))
  }

  /**
   * What the descriptor says: strings are the buffers with NULs trimmed,
   * each flag and permission is on exactly when the kernel wrote 1 into
   * the parameter queried for it, and the other fields are copied.
   */
  lemma DecodeFields(jid: int32, raw: Raw)
    ensures var j := Decode(jid, raw);
      && ToBytes(j.name) == TrimNul(raw.name)
      && ToBytes(j.path) == TrimNul(raw.path)
      && ToBytes(j.hostname) == TrimNul(raw.hostname)
      && ToBytes(j.osRelease) == TrimNul(raw.osRelease)
    ensures var j := Decode(jid, raw);
      && (j.vnet <==> raw.vnet == 1)
      && (j.dying <==> raw.dying == 1)
      && (j.persist <==> raw.persist == 1)
      && (forall p: Perm :: p in j.perms <==> raw.perm(PermQueryName(p)) == 1)
    ensures var j := Decode(jid, raw);
      && j.osRelDate == raw.osRelDate && j.secureLevel == raw.secureLevel
      && j.parent == raw.parent && j.enforceStatfs == raw.enforceStatfs
      && j.devfsRuleset == raw.devfsRuleset
  {
  }

  /** The kernel's answer to FindByID's single Get for a jail id: the filled variables, or the error. */
  type Lookup = int32 -> Result<Raw, GetError>

  /** A flag the kernel reports is on exactly when it wrote 1. */
  function IsOn(x: int32): bool {
    x == 1
  }

  /** FindByID, past its Get: a failed Get is returned as it is, with no descriptor. */
  function FindByID(jid: int32, got: Result<Raw, GetError>): (r: Result<Jail, GetError>)
    ensures got.Failure? <==> r.Failure?
    ensures got.Failure? ==> r.error == got.error
    ensures got.Success? ==> r.value == Decode(jid, got.value)
  {
    match got
    case Failure(e) => Failure(e)
    case Success(raw) => Success(Decode(jid, raw))
  }

  /**
   * One step of the enumeration: the errno of Get with {"jid": &jid,
   * "lastjid": &lastjid}, and the id the kernel wrote into jid.
   */
  datatype Step = Step(errno: Errno, jid: int32)

  /** The kernel's answer to an enumeration step, given lastjid. */
  type Cursor = int32 -> Step

  /** The kernel hands out jails after lastjid, so the walk moves forward. */
  predicate Progressing(cursor: Cursor) {
    forall last: int32 :: cursor(last).errno == 0 ==> cursor(last).jid > last
  }

  /** The ids a walk collected, and the error it stopped on, if any. */
  datatype Walk = Walk(ids: seq<int32>, err: Option<GetError>)

  /**
   * The ids the walk collects from cursor position last on, and how it
   * ends: no error when the kernel says ENOENT, the error otherwise.
   */
  function Enumerate(codes: Errnos, cursor: Cursor, last: int32): Walk
    requires Progressing(cursor)
    decreases 0x8000_0000 - last
  {
    var step := cursor(last);
    if step.errno == 0 then
      var rest := Enumerate(codes, cursor, step.jid);
      Walk([step.jid] + rest.ids, rest.err)
    else
      var err := ErrorOf(codes, step.errno);
      if Is(err, codes.noEnt) then Walk([], None) else Walk([], Some(err))
  }

  /** The cursor in force before the i-th id of a walk that started at last. */
  function CursorBefore(last: int32, ids: seq<int32>, i: nat): int32
    requires i <= |ids|
  {
    if i == 0 then last else ids[i - 1]
  }

  /**
   * The walk from last: each id is the kernel's answer for the previous
   * cursor, the ids strictly increase, and the walk stops at the first
   * failing step, successfully exactly when that step failed with ENOENT.
   */
  lemma {:induction false} EnumerateWalk(codes: Errnos, cursor: Cursor, last: int32)
    requires Progressing(cursor)
    ensures var Walk(ids, err) := Enumerate(codes, cursor, last);
      && (forall i | 0 <= i < |ids| ::
            cursor(CursorBefore(last, ids, i)) == Step(0, ids[i]) && CursorBefore(last, ids, i) < ids[i])
      && var fin := cursor(CursorBefore(last, ids, |ids|));
      && fin.errno != 0
      && (err == None <==> fin.errno == codes.noEnt)
      && (err != None ==> err == Some(ErrorOf(codes, fin.errno)))
    decreases 0x8000_0000 - last
  {
    var step := cursor(last);
    if step.errno == 0 {
      EnumerateWalk(codes, cursor, step.jid);
      var Walk(rest, err) := Enumerate(codes, cursor, step.jid);
      var ids := [step.jid] + rest;
      forall i | 0 <= i < |ids|
        ensures cursor(CursorBefore(last, ids, i)) == Step(0, ids[i]) && CursorBefore(last, ids, i) < ids[i]
      {
        if i > 0 {
          assert CursorBefore(last, ids, i) == CursorBefore(step.jid, rest, i - 1);
        }
      }
      assert CursorBefore(last, ids, |ids|) == CursorBefore(step.jid, rest, |rest|);
    }
  }

  /**
   * AllByID: walk the jail ids from lastjid 0, appending each id the
   * kernel returns and making it the next cursor, until a step fails.
   * The ids collected so far are returned on every exit.
   */
  method AllByID(codes: Errnos, cursor: Cursor) returns (jids: seq<int32>, err: Option<GetError>)
    requires Progressing(cursor)
    ensures Walk(jids, err) == Enumerate(codes, cursor, 0)
  {
    jids := [];
    var jid: int32 := 0;
    var lastjid: int32 := 0;
    while true
      invariant Enumerate(codes, cursor, 0).ids == jids + Enumerate(codes, cursor, lastjid).ids
      invariant Enumerate(codes, cursor, 0).err == Enumerate(codes, cursor, lastjid).err
      decreases 0x8000_0000 - lastjid
    {
      var step := cursor(lastjid);
      if step.errno != 0 {
        var e := ErrorOf(codes, step.errno);
        if Is(e, codes.noEnt) {
          return jids, None;
        }
        return jids, Some(e);
      }
      jid := step.jid;
      jids := jids + [jid];
      lastjid := jid;
    }
  }

  /** A kernel holding jails 7, 12 and 40 is walked to exactly those ids, without error. */
  lemma EnumerateExample(codes: Errnos)
    requires codes.Valid()
    ensures var cursor: Cursor := last =>
        if last < 7 then Step(0, 7) else if last < 12 then Step(0, 12)
        else if last < 40 then Step(0, 40) else Step(codes.noEnt, 0);
      Progressing(cursor) && Enumerate(codes, cursor, 0) == Walk([7, 12, 40], None)
  {
    var cursor: Cursor := last =>
      if last < 7 then Step(0, 7) else if last < 12 then Step(0, 12)
      else if last < 40 then Step(0, 40) else Step(codes.noEnt, 0);
    assert Enumerate(codes, cursor, 40) == Walk([], None);
    assert Enumerate(codes, cursor, 12) == Walk([40], None);
    assert Enumerate(codes, cursor, 7) == Walk([12, 40], None);
  }

  /** Look up every id in order; the first failure decides. */
  function FindAll(ids: seq<int32>, lookup: Lookup): Result<seq<Jail>, GetError> {
    if ids == [] then Success([])
    else
      match FindAll(ids[..|ids| - 1], lookup)
      case Failure(e) => Failure(e)
      case Success(jails) =>
        var last := ids[|ids| - 1];
        match lookup(last)
        case Failure(e) => Failure(e)
        case Success(raw) => Success(jails + [Decode(last, raw)])
  }

  /** The lookup of id succeeds, and so does FindByID for it. */
  predicate Found(id: int32, lookup: Lookup) {
    lookup(id).Success?
  }

  predicate AllFound(ids: seq<int32>, lookup: Lookup) {
    forall i | 0 <= i < |ids| :: Found(ids[i], lookup)
  }

  /** FindAll takes one step: the lookups of all ids but the last, then the last. */
  lemma FindAllStep(ids: seq<int32>, lookup: Lookup)
    requires ids != []
    ensures var n := |ids| - 1;
      FindAll(ids, lookup).Success? <==> FindAll(ids[..n], lookup).Success? && Found(ids[n], lookup)
    ensures var n := |ids| - 1;
      AllFound(ids, lookup) <==> AllFound(ids[..n], lookup) && Found(ids[n], lookup)
  {
    var n := |ids| - 1;
    assert forall i | 0 <= i < n :: ids[..n][i] == ids[i];
  }

  /** FindAll succeeds exactly when every lookup does. */
  lemma {:induction false} FindAllSuccess(ids: seq<int32>, lookup: Lookup)
    ensures FindAll(ids, lookup).Success? <==> AllFound(ids, lookup)
  {
    if ids != [] {
      FindAllStep(ids, lookup);
      FindAllSuccess(ids[..|ids| - 1], lookup);
    }
  }

  /** A successful FindAll holds one descriptor per id, in order. */
  lemma {:induction false} FindAllValues(ids: seq<int32>, lookup: Lookup)
    requires FindAll(ids, lookup).Success?
    ensures AllFound(ids, lookup)
    ensures |FindAll(ids, lookup).value| == |ids|
    ensures forall i | 0 <= i < |ids| :: FindAll(ids, lookup).value[i] == Decode(ids[i], lookup(ids[i]).value)
  {
    FindAllSuccess(ids, lookup);
    if ids != [] {
      var n := |ids| - 1;
      var ids' := ids[..n];
      assert ids[..n + 1] == ids;
      FindAllStep(ids, lookup);
      FindAllSnoc(ids, n, lookup);
      FindAllValues(ids', lookup);
      var describe := (id: int32) requires Found(id, lookup) => Decode(id, lookup(id).value);
      var prev := FindAll(ids', lookup).value;
      assert forall i | 0 <= i < n :: prev[i] == describe(ids[i]) by {
        assert forall i | 0 <= i < n :: ids'[i] == ids[i];
      }
      Seqs.SnocPointwise(ids, describe, prev);
    }
  }

  /** A failing FindAll fails with the error of the first lookup that fails. */
  lemma {:induction false} FindAllFailure(ids: seq<int32>, lookup: Lookup)
    requires FindAll(ids, lookup).Failure?
    ensures exists i | 0 <= i < |ids| ::
      && lookup(ids[i]) == Failure(FindAll(ids, lookup).error)
      && forall k | 0 <= k < i :: Found(ids[k], lookup)
  {
    var n := |ids| - 1;
    var ids' := ids[..n];
    assert forall i | 0 <= i < n :: ids'[i] == ids[i];
    if FindAll(ids', lookup).Failure? {
      FindAllFailure(ids', lookup);
      var i :| 0 <= i < n && lookup(ids'[i]) == Failure(FindAll(ids', lookup).error)
        && forall k | 0 <= k < i :: Found(ids'[k], lookup);
      assert lookup(ids[i]) == Failure(FindAll(ids, lookup).error);
    } else {
      FindAllSuccess(ids', lookup);
      assert lookup(ids[n]) == Failure(FindAll(ids, lookup).error);
    }
  }

  /** Extending the ids by one looks up the new id and appends its descriptor. */
  lemma FindAllSnoc(ids: seq<int32>, i: nat, lookup: Lookup)
    requires i < |ids| && FindAll(ids[..i], lookup).Success?
    ensures lookup(ids[i]).Failure? ==> FindAll(ids[..i + 1], lookup) == Failure(lookup(ids[i]).error)
    ensures lookup(ids[i]).Success? ==>
      FindAll(ids[..i + 1], lookup) == Success(FindAll(ids[..i], lookup).value + [Decode(ids[i], lookup(ids[i]).value)])
  {
    assert ids[..i + 1][..i] == ids[..i];
  }

  /** Once a prefix of the ids fails, the whole lookup fails the same way. */
  lemma {:induction false} FindAllPrefixFailure(ids: seq<int32>, n: nat, lookup: Lookup)
    requires n <= |ids| && FindAll(ids[..n], lookup).Failure?
    ensures FindAll(ids, lookup) == FindAll(ids[..n], lookup)
    decreases |ids| - n
  {
    if n < |ids| {
      assert ids[..n + 1][..n] == ids[..n];
      FindAllPrefixFailure(ids, n + 1, lookup);
    } else {
      assert ids[..n] == ids;
    }
  }

  /** What All returns: the walk's error, or the lookup of every id it found. */
  function AllOf(codes: Errnos, cursor: Cursor, lookup: Lookup): Result<seq<Jail>, GetError>
    requires Progressing(cursor)
  {
    var walk := Enumerate(codes, cursor, 0);
    if walk.err.Some? then Failure(walk.err.value) else FindAll(walk.ids, lookup)
  }

  /** All: every jail, living or dying, or the first error met. */
  method All(codes: Errnos, cursor: Cursor, lookup: Lookup) returns (r: Result<seq<Jail>, GetError>)
    requires Progressing(cursor)
    ensures r == AllOf(codes, cursor, lookup)
  {
    var ids, err := AllByID(codes, cursor);
    if err.Some? {
      return Failure(err.value);
    }
    var jails: seq<Jail> := [];
    for i := 0 to |ids|
      invariant FindAll(ids[..i], lookup) == Success(jails)
    {
      FindAllSnoc(ids, i, lookup);
      var j := FindByID(ids[i], lookup(ids[i]));
      if j.Failure? {
        FindAllPrefixFailure(ids, i + 1, lookup);
        return Failure(j.error);
      }
      jails := jails + [j.value];
    }
    assert ids[..|ids|] == ids;
    r := Success(jails);
  }

  function Names(jails: seq<Jail>): (names: seq<GoString>)
    ensures |names| == |jails| && forall i | 0 <= i < |jails| :: names[i] == jails[i].name
  {
    seq(|jails|, i requires 0 <= i < |jails| => jails[i].name)
  }

  /** One more jail adds its name at the end. */
  lemma NamesSnoc(jails: seq<Jail>, j: Jail)
    ensures Names(jails + [j]) == Names(jails) + [j.name]
  {
    assert forall i | 0 <= i < |jails| :: (jails + [j])[i] == jails[i];
  }

  /** AllByName: the name of every jail, in walk order, or the first error met. */
  method AllByName(codes: Errnos, cursor: Cursor, lookup: Lookup) returns (r: Result<seq<GoString>, GetError>)
    requires Progressing(cursor)
    ensures AllOf(codes, cursor, lookup).Failure? ==> r == Failure(AllOf(codes, cursor, lookup).error)
    ensures AllOf(codes, cursor, lookup).Success? ==> r == Success(Names(AllOf(codes, cursor, lookup).value))
  {
    var ids, err := AllByID(codes, cursor);
    if err != None {
      return Failure(err.value);
    }
    var names: seq<GoString> := [];
    ghost var jails: seq<Jail> := [];
    for i := 0 to |ids|
      invariant FindAll(ids[..i], lookup) == Success(jails)
      invariant names == Names(jails)
    {
      FindAllSnoc(ids, i, lookup);
      var j := FindByID(ids[i], lookup(ids[i]));
      if j.Failure? {
        FindAllPrefixFailure(ids, i + 1, lookup);
        return Failure(j.error);
      }
      NamesSnoc(jails, j.value);
      names := names + [j.value.name];
      jails := jails + [j.value];
    }
    assert ids[..|ids|] == ids;
    r := Success(names);
  }

  function DyingIs(dying: bool): Jail -> bool {
    (j: Jail) => j.dying == dying
  }

  /** The jails of a result whose dying flag is `dying`; an error passes through. */
  function Select(all: Result<seq<Jail>, GetError>, dying: bool): Result<seq<Jail>, GetError> {
    match all
    case Failure(e) => Failure(e)
    case Success(jails) => Success(Seqs.Filter(jails, DyingIs(dying)))
  }

  /** filterByDying: All, keeping the jails whose dying flag is `dying`, in order. */
  method FilterByDying(dying: bool, codes: Errnos, cursor: Cursor, lookup: Lookup)
    returns (r: Result<seq<Jail>, GetError>)
    requires Progressing(cursor)
    ensures r == Select(AllOf(codes, cursor, lookup), dying)
  {
    var all := All(codes, cursor, lookup);
    if all.Failure? {
      return Failure(all.error);
    }
    var jails := all.value;
    var slice: seq<Jail> := [];
    for i := 0 to |jails|
      invariant slice == Seqs.Filter(jails[..i], DyingIs(dying))
    {
      Seqs.FilterSnoc(jails, i, DyingIs(dying));
      if jails[i].dying == dying {
        slice := slice + [jails[i]];
      }
    }
    assert jails[..|jails|] == jails;
    r := Success(slice);
  }

  /** Living: the jails that are not dying. */
  method Living(codes: Errnos, cursor: Cursor, lookup: Lookup) returns (r: Result<seq<Jail>, GetError>)
    requires Progressing(cursor)
    ensures r == Select(AllOf(codes, cursor, lookup), false)
  {
    r := FilterByDying(false, codes, cursor, lookup);
  }

  /** Dying: the jails that are dying. */
  method Dying(codes: Errnos, cursor: Cursor, lookup: Lookup) returns (r: Result<seq<Jail>, GetError>)
    requires Progressing(cursor)
    ensures r == Select(AllOf(codes, cursor, lookup), true)
  {
    r := FilterByDying(true, codes, cursor, lookup);
  }

  /**
   * Living and Dying split All: both fail with All's error when it fails;
   * otherwise every jail lands in exactly one of them, by its dying flag.
   */
  lemma LivingDyingPartition(all: Result<seq<Jail>, GetError>)
    ensures all.Failure? ==> Select(all, false) == all && Select(all, true) == all
    ensures all.Success? ==>
      && multiset(Select(all, false).value) + multiset(Select(all, true).value) == multiset(all.value)
      && (forall j | j in Select(all, false).value :: !j.dying)
      && (forall j | j in Select(all, true).value :: j.dying)
  {
    if all.Success? {
      Seqs.FilterPartition(all.value, DyingIs(false), DyingIs(true));
      forall j | j in Select(all, false).value ensures !j.dying {
        Seqs.FilterMembers(all.value, DyingIs(false), j);
      }
      forall j | j in Select(all, true).value ensures j.dying {
        Seqs.FilterMembers(all.value, DyingIs(true), j);
      }
    }
  }
}
