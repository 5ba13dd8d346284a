/**
 * Creating a jail with jail(2): the checks on the options and the
 * selection of the fields of the argument struct made before the call.
 */
module JailCreate {
  import opened Wrappers
  import opened GoTypes

  /** The options a caller fills in. */
  datatype Opts = Opts(
    version: uint32,
    path: GoString,
    name: GoString,
    hostname: GoString,
    ip4: GoString,
    chdir: bool)

  datatype CreateError =
    | MissingPath             // "missing path"
    | MissingName             // "missing name"
    | HasNul                  // EINVAL: a string holds a NUL byte and cannot become a C string
    | BadAddress(ip4: GoString) // the IPv4 text did not parse as an address

  /** validate: a path is required first, then a name. */
  function Validate(o: Opts): (err: Option<CreateError>)
    ensures err == None <==> o.path != "" && o.name != ""
    ensures o.path == "" ==> err == Some(MissingPath)
    ensures o.path != "" && o.name == "" ==> err == Some(MissingName)
  {
    if o.path == "" then Some(MissingPath)
    else if o.name == "" then Some(MissingName)
    else None
  }

  /** unix.BytePtrFromString: the bytes of s and a terminating NUL, unless s already holds a NUL. */
  function CString(s: GoString): (r: Result<seq<byte>, CreateError>)
    ensures r.Failure? <==> 0 in ToBytes(s)
    ensures r.Failure? ==> r.error == HasNul
    ensures r.Success? ==> |r.value| == |s| + 1 && r.value[|s|] == 0 && r.value[..|s|] == ToBytes(s)
  {
    if 0 in ToBytes(s) then Failure(HasNul) else Success(ToBytes(s) + [0])
  }

  /** What a C reader of a pointer to p sees: the bytes before the first NUL. */
  function CStringRead(p: seq<byte>): (b: seq<byte>)
    ensures |b| <= |p| && b == p[..|b|] && 0 !in b
    ensures |b| < |p| ==> p[|b|] == 0
  {
    if p == [] || p[0] == 0 then [] else [p[0]] + CStringRead(p[1..])
  }

  lemma {:induction false} CStringReadTerminated(b: seq<byte>)
    requires 0 !in b
    ensures CStringRead(b + [0]) == b
  {
    if b != [] {
      assert (b + [0])[1..] == b[1..] + [0];
      CStringReadTerminated(b[1..]);
    }
  }

  /** The kernel reads back from a converted string exactly the string's bytes. */
  lemma CStringRoundTrip(s: GoString)
    requires CString(s).Success?
    ensures CStringRead(CString(s).value) == ToBytes(s)
  {
    CStringReadTerminated(ToBytes(s));
  }

  /**
   * ip2int: the IPv4 address in a parsed net.IP as a uint32 read
   * little-endian, so that in memory its bytes are the four octets in
   * order; a 16-byte (IPv4-in-IPv6) form contributes its last four bytes,
   * any other form its first four.
   */
  function Ip2Int(ip: seq<byte>): (r: uint32)
    requires |ip| >= 4
    ensures ToLE(r, 4) == if |ip| == 16 then ip[12..16] else ip[..4]
  {
    var octets := if |ip| == 16 then ip[12..16] else ip[..4];
    Pow256Widths();
    ToLEFromLE(octets);
    FromLE(octets)
  }

  /** In the 16-byte form only bytes 12 to 15 matter. */
  lemma Ip2IntIgnoresPrefix(a: seq<byte>, b: seq<byte>)
    requires |a| == 16 && |b| == 16 && a[12..] == b[12..]
    ensures Ip2Int(a) == Ip2Int(b)
  {
    assert a[12..16] == a[12..] && b[12..16] == b[12..];
    Pow256Widths();
    FromLEToLE(Ip2Int(a), 4);
    FromLEToLE(Ip2Int(b), 4);
  }

  /** The struct jail handed to jail(2); the IPv4 address is behind a pointer, nil when absent. */
  datatype JailArgs = JailArgs(
    version: uint32,
    path: seq<byte>,
    name: seq<byte>,
    hostname: seq<byte>,
    ip4s: uint32,
    ip6s: uint32,
    ip4: Option<uint32>)

  /** Create gets past validation and the three string conversions. */
  predicate Converts(o: Opts) {
    Validate(o) == None && CString(o.name).Success? && CString(o.path).Success?
  }

  /**
   * Create up to its system call, as written: `parsed` is what
   * net.ParseIP returned for o.ip4 (empty for nil). ip2int then indexes
   * the first four bytes of the parse, so a non-empty ip4 that does not
   * parse makes the call fail outright.
   */
  function CreateArgsAsWritten(o: Opts, parsed: seq<byte>): (r: Result<JailArgs, CreateError>)
    requires Converts(o) && o.ip4 != "" ==> |parsed| >= 4
    ensures o.ip4 == "" || |parsed| >= 4 ==> r == CreateArgs(o, parsed)
  {
    match Validate(o)
    case Some(e) => Failure(e)
    case None =>
      match CString(o.name)
      case Failure(e) => Failure(e)
      case Success(jn) =>
        match CString(o.path)
        case Failure(e) => Failure(e)
        case Success(jp) =>
          var hn := CString(o.name).value;
          var j := JailArgs(o.version, jp, jn, hn, 0, 0, None);
          if o.ip4 != "" then Success(j.(ip4s := 1, ip6s := 0, ip4 := Some(Ip2Int(parsed))))
          else Success(j)
  }

  /** A jail with a valid path and name and an IPv4 text that is not an address. */
  const UnparsableOpts: Opts := Opts(0, "/jails/www", "www", "", "www.example", false)

  /**
   * net.ParseIP yields nil for UnparsableOpts's address, and the options
   * pass every earlier check, so as written ip2int is reached with an empty
   * address: outside what it accepts, where Go's bounds check panics.
   * The corrected Create reports the address instead.
   */
  lemma UnparsableAddressReachesIp2Int()
    ensures Converts(UnparsableOpts) && UnparsableOpts.ip4 != ""
    ensures CreateArgs(UnparsableOpts, []) == Failure(BadAddress("www.example"))
  {
  }

  /**
   * Create up to its system call: validation first, then the name, path
   * and hostname conversions, where the hostname the kernel gets is made
   * from o.name; then the IPv4 fields, set only when o.ip4 is non-empty.
   * An address that did not parse is reported as BadAddress.
   */
  function CreateArgs(o: Opts, parsed: seq<byte>): (r: Result<JailArgs, CreateError>)
    ensures Validate(o).Some? ==> r == Failure(Validate(o).value)
    ensures Validate(o) == None && !Converts(o) ==> r == Failure(HasNul)
    ensures r.Success? <==> Converts(o) && (o.ip4 != "" ==> |parsed| >= 4)
    ensures Converts(o) && o.ip4 != "" && |parsed| < 4 ==> r == Failure(BadAddress(o.ip4))
    ensures r.Success? ==>
      && r.value.version == o.version
      && r.value.path == CString(o.path).value
      && r.value.name == CString(o.name).value
      && r.value.hostname == r.value.name
    ensures r.Success? ==>
      && (r.value.ip4.Some? <==> o.ip4 != "")
      && r.value.ip4s == (if o.ip4 != "" then 1 else 0)
      && r.value.ip6s == 0
      && (o.ip4 != "" ==> r.value.ip4 == Some(Ip2Int(parsed)))
  {
    match Validate(o)
    case Some(e) => Failure(e)
    case None =>
      match CString(o.name)
      case Failure(e) => Failure(e)
      case Success(jn) =>
        match CString(o.path)
        case Failure(e) => Failure(e)
        case Success(jp) =>
          var hn := CString(o.name).value;
          var j := JailArgs(o.version, jp, jn, hn, 0, 0, None);
          if o.ip4 == "" then Success(j)
          else if |parsed| < 4 then Failure(BadAddress(o.ip4))
          else Success(j.(ip4s := 1, ip6s := 0, ip4 := Some(Ip2Int(parsed))))
  }

  /** The Hostname option is never read: only the name reaches the kernel as hostname. */
  lemma HostnameOptionIgnored(o: Opts, h: GoString, parsed: seq<byte>)
    ensures CreateArgs(o.(hostname := h), parsed) == CreateArgs(o, parsed)
  {
  }
}
