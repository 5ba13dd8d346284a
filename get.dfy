/**
 * The jail_get(2) wrapper: build the vector from a container, call the
 * kernel, and turn a nonzero errno into an error that wraps it.
 */
module JailGet {
  import opened Wrappers
  import opened GoTypes
  import opened JailSyscall
  import opened JailParams

  /** What the system call hands back: the result register and the errno. */
  datatype Reply = Reply(ret: uint64, errno: Errno)

  /** The kernel's jail_get(2) as the caller sees it: the vector and the flags in, a reply out. */
  type Kernel = (seq<Segment>, bv64) -> Reply

  datatype GetError =
    | Build(cause: ParamError)           // the container did not encode; no call was made
    | Syscall(msg: string, errno: Errno) // fmt.Errorf("<msg>: %w", errno), or "%w" alone when msg is empty

  const FaultMsg: string := "fault outside of allocated space"
  const NotFoundMsg: string := "jail referred to either does not exist or is inaccessible"
  const InvalidParamMsg: string := "invalid param provided"

  /** errors.Is(err, code): err wraps the errno code. */
  predicate Is(e: GetError, code: Errno) {
    e.Syscall? && e.errno == code
  }

  /** The error made of a nonzero errno; the cases are tried in order and the first match decides. */
  function ErrorOf(codes: Errnos, e: Errno): (err: GetError)
    requires e != 0
    ensures Is(err, e)
  {
    if e == codes.getFault then Syscall(FaultMsg, e)
    else if e == codes.noEnt then Syscall(NotFoundMsg, e)
    else if e == codes.inval then Syscall(InvalidParamMsg, e)
    else Syscall("", e)
  }

  /** get: the result of the call, from the kernel's reply. */
  function Outcome(codes: Errnos, reply: Reply): (r: Result<int32, GetError>)
    ensures r.Success? <==> reply.errno == 0
    ensures r.Success? ==> r.value == Int32Of(reply.ret)
    ensures r.Failure? ==> Is(r.error, reply.errno) && !r.error.Build?
  {
    if reply.errno != 0 then Failure(ErrorOf(codes, reply.errno)) else Success(Int32Of(reply.ret))
  }

  /**
   * The three known codes carry their own distinct messages, every other
   * nonzero code an empty one.
   */
  lemma ErrorMessages(codes: Errnos, e: Errno)
    requires codes.Valid() && e != 0
    ensures ErrorOf(codes, codes.getFault).msg == FaultMsg
    ensures ErrorOf(codes, codes.noEnt).msg == NotFoundMsg
    ensures ErrorOf(codes, codes.inval).msg == InvalidParamMsg
    ensures e !in {codes.getFault, codes.noEnt, codes.inval} ==> ErrorOf(codes, e).msg == ""
    ensures |{FaultMsg, NotFoundMsg, InvalidParamMsg, ""}| == 4
  {
  }

  /** A failed call is reported as "not found" exactly when the kernel said ENOENT. */
  lemma IsNotFoundExactly(codes: Errnos, reply: Reply)
    requires Outcome(codes, reply).Failure?
    ensures Is(Outcome(codes, reply).error, codes.noEnt) <==> reply.errno == codes.noEnt
  {
  }

  /**
   * Get: build the vector, then call the kernel with it. A container that
   * does not encode fails with the build error and the kernel is never
   * consulted; otherwise the kernel sees the laid-out vector.
   * The container must not be empty: get takes the address of the
   * vector's first entry.
   */
  method Get(p: Params, flags: bv64, codes: Errnos, kernel: Kernel)
    returns (r: Result<int32, GetError>, ghost order: seq<GoString>)
    requires p.entries != map[]
    ensures (r.Failure? && r.error.Build?) <==> !AllEncodable(p.entries)
    ensures r.Failure? && r.error.Build? ==>
      && r.error.cause.InvalidValueForKey?
      && r.error.cause.key in p.entries
      && !Encodable(p.entries[r.error.cause.key])
    ensures AllEncodable(p.entries) ==>
      && IsOrderOf(order, p.entries.Keys)
      && r == Outcome(codes, kernel(Layout(p.entries, order).segments, flags))
  {
    var iov;
    iov, order := p.BuildIovec();
    if iov.Failure? {
      return Failure(Build(iov.error)), order;
    }
    r := Outcome(codes, kernel(iov.value.segments, flags));
  }
}
