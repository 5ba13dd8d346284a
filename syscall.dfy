/**
 * The fixed kernel contract: system-call numbers, the flag word of
 * jail_set(2) and jail_get(2), and the error codes the wrappers test for.
 */
module JailSyscall {

  const SysJail: int := 338
  const SysJailAttach: int := 436
  const SysJailGet: int := 506
  const SysJailSet: int := 507
  const SysJailRemove: int := 508

  /** Create a new jail. */
  const CreateFlag: bv64 := 0x01
  /** Modify an existing jail. */
  const UpdateFlag: bv64 := 0x02
  /** Attach the calling process to the jail as well. */
  const AttachFlag: bv64 := 0x04
  /** Allow acting on a jail that is being removed. */
  const DyingFlag: bv64 := 0x08
  /** Every flag jail_set(2) accepts. */
  const SetMaskFlag: bv64 := 0x0f
  /** Every flag jail_get(2) accepts. */
  const GetMaskFlag: bv64 := 0x08

  lemma SyscallNumbersDistinct()
    ensures |{SysJail, SysJailAttach, SysJailGet, SysJailSet, SysJailRemove}| == 5
  {
  }

  predicate SingleBit(f: bv64) {
    f != 0 && f & (f - 1) == 0
  }

  /** The four set flags are single bits, no two of them share a bit. */
  lemma FlagsAreDistinctBits()
    ensures SingleBit(CreateFlag) && SingleBit(UpdateFlag)
    ensures SingleBit(AttachFlag) && SingleBit(DyingFlag)
    ensures CreateFlag & UpdateFlag == 0 && CreateFlag & AttachFlag == 0 && CreateFlag & DyingFlag == 0
    ensures UpdateFlag & AttachFlag == 0 && UpdateFlag & DyingFlag == 0 && AttachFlag & DyingFlag == 0
  {
  }

  /** The set mask is the union of the four set flags; the get mask is the dying flag. */
  lemma MasksAreUnions()
    ensures SetMaskFlag == CreateFlag | UpdateFlag | AttachFlag | DyingFlag
    ensures GetMaskFlag == DyingFlag
  {
  }

  /**
   * The flag word for a choice of set options. Each option can be read
   * back from the word independently and the word lies within the set mask.
   */
  function SetFlags(create: bool, update: bool, attach: bool, dying: bool): (f: bv64)
    ensures f & SetMaskFlag == f
    ensures (f & CreateFlag != 0) == create && (f & UpdateFlag != 0) == update
    ensures (f & AttachFlag != 0) == attach && (f & DyingFlag != 0) == dying
  {
    (if create then CreateFlag else 0) | (if update then UpdateFlag else 0)
      | (if attach then AttachFlag else 0) | (if dying then DyingFlag else 0)
  }

  /** A nonzero errno value as the kernel reports it; zero means success. */
  type Errno = nat

  /**
   * The error codes the wrappers compare against. Their values are defined
   * outside the files this model covers, so they stay abstract here.
   */
  datatype Errnos = Errnos(
    getFault: Errno,          // jail_get(2): fault outside of allocated space
    noEnt: Errno,             // ENOENT
    inval: Errno,             // EINVAL
    attachUnprivileged: Errno, // jail_attach(2): caller is not privileged
    attachNoJid: Errno         // jail_attach(2): no jail with that id
  ) {
    /**
     * Each code is nonzero, and the codes that appear as cases of one Go
     * switch are distinct (Go rejects duplicate constant cases).
     */
    predicate Valid() {
      && getFault != 0 && noEnt != 0 && inval != 0
      && attachUnprivileged != 0 && attachNoJid != 0
      && getFault != noEnt && getFault != inval && noEnt != inval
      && attachUnprivileged != attachNoJid
    }
  }
}
