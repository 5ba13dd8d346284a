/**
 * The jail_attach(2) and jail_remove(2) wrappers. Both pass one jail id to
 * the kernel and share one errno mapping, which reports two codes and
 * drops every other code silently.
 */
module JailAttach {
  import opened Wrappers
  import opened GoTypes
  import opened JailSyscall

  /**
   * The kernel's jail_attach(2) and jail_remove(2): from the call number and
   * the int jid the kernel reads (the low 32 bits of the argument word) to an errno.
   */
  type Kernel = (int, int32) -> Errno

  /** The errors reported; like errors created by fmt.Errorf without %w, they wrap no errno. */
  datatype AttachError =
    | UnprivilegedUser // "unprivileged user"
    | JidNotExist      // "JID does not exist"

  /** The switch of attachRemove: zero and every unknown code give no error. */
  function ErrorOf(codes: Errnos, e: Errno): (r: Option<AttachError>)
    ensures r == Some(UnprivilegedUser) <==> e != 0 && e == codes.attachUnprivileged
    ensures r == Some(JidNotExist) <==>
      e != 0 && e != codes.attachUnprivileged && e == codes.attachNoJid
    ensures r == None <==> e == 0 || (e != codes.attachUnprivileged && e != codes.attachNoJid)
  {
    if e != 0 && e == codes.attachUnprivileged then Some(UnprivilegedUser)
    else if e != 0 && e == codes.attachNoJid then Some(JidNotExist)
    else None
  }

  /** The jid the kernel reads from an argument word. */
  function KernelJid(arg: uint64): int32 {
    Int32Of(arg)
  }

  /**
   * attachRemove as corrected: the argument word is uintptr(jailID), so the
   * kernel acts on jailID itself.
   */
  function AttachRemove(codes: Errnos, call: int, jailID: int32, kernel: Kernel): (r: Option<AttachError>)
    ensures r == ErrorOf(codes, kernel(call, jailID))
  {
    Int32OfWord(jailID);
    ErrorOf(codes, kernel(call, KernelJid(Word(jailID))))
  }

  /**
   * attachRemove as written: the argument word is the address of the local
   * copy of jailID (`addr`), so the kernel acts on whichever jid the low 32
   * bits of that address spell.
   */
  function AttachRemoveAsWritten(codes: Errnos, call: int, jailID: int32, addr: uint64, kernel: Kernel)
    : (r: Option<AttachError>)
    ensures r == AttachRemove(codes, call, Int32Of(addr), kernel)
  {
    ErrorOf(codes, kernel(call, KernelJid(addr)))
  }

  /**
   * As written, a jail that exists is reported missing: the kernel below
   * knows only jail 5 and answers EINVAL otherwise, and the local copy of
   * the id lives at an address whose low 32 bits are not 5.
   */
  lemma AsWrittenMissesExistingJail()
    ensures var codes := Errnos(14, 2, 22, 1, 22);
      var kernel: Kernel := (call, jid) => if jid == 5 then 0 else 22;
      && AttachRemoveAsWritten(codes, SysJailAttach, 5, 0xc0_0001_2340, kernel) == Some(JidNotExist)
      && AttachRemove(codes, SysJailAttach, 5, kernel) == None
  {
    var codes := Errnos(14, 2, 22, 1, 22);
    var kernel: Kernel := (call, jid) => if jid == 5 then 0 else 22;
    assert KernelJid(0xc0_0001_2340) == 0x1_2340;
  }

  /** Attach: move the calling process into the jail. */
  function Attach(codes: Errnos, jailID: int32, kernel: Kernel): (r: Option<AttachError>)
    ensures r == ErrorOf(codes, kernel(SysJailAttach, jailID))
  {
    AttachRemove(codes, SysJailAttach, jailID, kernel)
  }

  /** Remove: remove the jail. */
  function Remove(codes: Errnos, jailID: int32, kernel: Kernel): (r: Option<AttachError>)
    ensures r == ErrorOf(codes, kernel(SysJailRemove, jailID))
  {
    AttachRemove(codes, SysJailRemove, jailID, kernel)
  }
}
