# FreeBSD jail bindings for Go, modelled in Dafny

This project models the core of the Go package `jail`. The package manages FreeBSD
jails through the system calls jail(2), jail_get(2), jail_set(2), jail_attach(2)
and jail_remove(2). The model covers:

- **Parameter container** (`JailParams`). `Params` is a map from parameter name to
  value. `Add` refuses a nil map and a key that is already present.
  `encodeParamValue` turns each value into one iovec segment plus the object that
  must stay alive during the call. `buildIovec` interleaves a NUL-terminated name
  segment with each value segment. Go's reflection-driven dispatch becomes a closed
  `Value` variant. A pointer parameter is a `Cell` object and a byte slice an
  `array<byte>`; their segments refer to that storage by identity, so the model
  records which caller storage the kernel is handed, not what the kernel writes
  there (the kernel's written values enter the query layer as the `Raw` record).
  A copied value becomes the byte sequence of its in-memory representation: two's
  complement, little-endian.
- **jail_get(2) wrapper** (`JailGet`). The wrapper builds the vector, calls the
  kernel, and turns a nonzero errno into an error that wraps it. The kernel is a
  function parameter.
- **jail_attach(2) and jail_remove(2) wrappers** (`JailAttach`). They share one
  errno mapping. Only two codes become errors; every other code is dropped.
- **Query layer** (`JailQuery`). This covers:
  - the cursor walk over jail ids (`AllByID`);
  - the decoding of one jail's kernel-filled variables (`FindByID`): trimming NULs
    from the name buffers, and reading an int32 as true only when it equals 1;
  - `All`, `AllByName`, and the dying filter behind `Living` and `Dying`.
- **Setters and the permission table** (`JailTypes`). Each Allow/Deny helper sends
  one parameter with the value `int32(1)` through `SetParam`.
- **System-call numbers and flag word** (`JailSyscall`).
- **Jail creation up to the system call** (`JailCreate`): option validation, C
  string conversion, `ip2int`, and the filling of `struct jail`.
- **jls selection** (`Jls`): `filter`.

Helper modules:

- `GoTypes` holds Go's integer widths, `int32(...)` truncation, string/byte
  conversion and little-endian encoding.
- `Seqs` holds the order-preserving selection used by every loop that appends
  matches to a new slice.
- `Wrappers` holds `Option` and `Result`.

The kernel, the errno values and Go's map iteration order are parameters.
Properties are proved for every kernel and every order, with two stated
conditions: the enumeration members (`AllByID`, `All`, `AllByName`,
`FilterByDying`, `Living`, `Dying`) assume a kernel whose cursor answers are
ids above the cursor (`Progressing`), and `JailGet.ErrorMessages` assumes
nonzero, pairwise distinct errno codes (`Errnos.Valid`), as Go's switch needs.

A Go `string` is modelled as `GoString`, a sequence of characters that stands
for its bytes, one character per byte: `[]byte(s)` takes each character modulo
256. Non-ASCII text is therefore not UTF-8 encoded by the model, and the string
round trips (`FromToBytes`, `EncodeRoundTrip`) are stated for strings whose
characters are bytes (`IsByteString`).

Three behaviours of the code that the model keeps:

- `attachRemove` silently drops unknown errnos (jail_attach.go:25-34).
- Every encoder failure is the single error "invalid value" (jail_params.go:84, 95, 102, 126).
- `FindByID` treats no parameter as optional: any failing `Get` fails the lookup (jail_query.go:87-89).

## Model

| member | source | states |
|---|---|---|
| JailParams.Params.constructor | jail_params.go:37-39 | NewParams gives an empty container |
| JailParams.Add | jail_params.go:42-53 | Adding to a nil map fails with the nil-map error and stores nothing. A new key is stored with exactly its value; no other entry changes. A present key fails with the duplicate error carrying the existing value, and the map is unchanged (no overwrite). |
| JailParams.Encode | jail_params.go:80-129 | Encoding succeeds exactly for the encodable values: a non-empty byte slice, a string, a bool, int/int8/16/32/64, or a non-nil pointer to a bool/int kind. All other values fail with "invalid value". On success, the segment length is the value's width (len+1 for strings; 4 for bools; 8/1/2/4/8 for the integers; the pointee size for pointers) and the kept owner is the segment's storage. Exactly the by-value kinds are copied. A byte slice is passed as the caller's own buffer. A pointer points at the caller's cell and keeps that cell, not a copy. |
| JailParams.EncodeRoundTrip | jail_params.go:87-124 | Every by-value parameter decodes back from its copied bytes: a string from the bytes before the trailing NUL, a bool from a 4-byte int32 that is 1 for true and 0 for false, each integer from two's complement at its width |
| JailParams.NameBytes | jail_params.go:61 | A name segment is the key's bytes followed by one 0, so its length is len(k)+1 |
| JailParams.LayoutAppend | jail_params.go:60-75 | Visiting one more key appends that key's name segment and then its value segment, and the owners of both |
| JailParams.LayoutSegments | jail_params.go:58-76 | For a visit order of n keys, the vector has 2·n segments and as many owners. Segment 2i is the NUL-terminated name of the i-th key, and segment 2i+1 is that key's encoded value. |
| JailParams.LayoutOwners | jail_params.go:60-75 | The owner list runs parallel to the vector, and each owner is the storage its segment points into |
| JailParams.LayoutCoversKeys | jail_params.go:58-76 | When the visit order lists every key once, the vector has two segments per key, and each key's name segment is followed by its own value segment |
| JailParams.Params.BuildIovec | jail_params.go:57-78 | Building succeeds exactly when every value encodes. On success, the vector is the layout for an order that lists every key exactly once (any order). On failure, the only result is an error naming a key whose value does not encode; no vector is returned. |
| JailGet.ErrorOf | jail_get.go:24-34 | Every nonzero errno becomes an error that wraps that errno |
| JailGet.ErrorMessages | jail_get.go:25-34 | The messages are checked in order (fault, ENOENT, EINVAL). These three codes get three distinct messages, and any other code gets the bare errno. |
| JailGet.Outcome | jail_get.go:24-36 | Zero errno gives the kernel's result truncated to int32. A nonzero errno gives an error wrapping it, never a build error. |
| JailGet.IsNotFoundExactly | jail_get.go:27-33 | errors.Is(err, ENOENT) holds for a failed call exactly when the kernel answered ENOENT |
| JailGet.Get | jail_get.go:12-18 | A build error is returned exactly when some value does not encode. It names such a key, and the kernel is not consulted. Otherwise the result is the kernel's reply to the laid-out vector, with the caller's flags. |
| JailAttach.ErrorOf | jail_attach.go:25-34 | The unprivileged code gives "unprivileged user". The no-such-jid code gives "JID does not exist". Zero and every other code give no error. |
| JailAttach.AttachRemove | jail_attach.go:22-35 | With the jid passed by value, the result is the mapping of the kernel's errno for that very jid |
| JailAttach.AttachRemoveAsWritten | jail_attach.go:22-35 | As written, the result is the corrected call for the jid spelled by the low 32 bits of the id's address |
| JailAttach.AsWrittenMissesExistingJail | jail_attach.go:23 | For an existing jail 5, the as-written call reports "JID does not exist", while the corrected call succeeds |
| JailAttach.Attach | jail_attach.go:12-14 | Attach is the shared mapping applied to the jail_attach(2) errno (corrected call; the as-written variant is `AttachRemoveAsWritten`) |
| JailAttach.Remove | jail_attach.go:17-19 | Remove is the shared mapping applied to the jail_remove(2) errno; it differs from Attach only in the call number (corrected call; the as-written variant is `AttachRemoveAsWritten`) |
| JailSyscall.SyscallNumbersDistinct | jail_syscall.go:5-11 | The five system-call numbers are pairwise distinct |
| JailSyscall.FlagsAreDistinctBits | jail_syscall.go:16-29 | CreateFlag, UpdateFlag, AttachFlag and DyingFlag are single bits, no two alike |
| JailSyscall.MasksAreUnions | jail_syscall.go:32-35 | SetMaskFlag is the OR of the four flags; GetMaskFlag equals DyingFlag |
| JailSyscall.SetFlags | jail_syscall.go:16-32 | Any combination of the four flags lies within SetMaskFlag, and each flag can be read back independently |
| JailTypes.AllowName | jail_types.go:47-268 | The name an Allow helper sets is never "jid" |
| JailTypes.DenyName | jail_types.go:52-273 | The name a Deny helper sets is never "jid" |
| JailTypes.DenyDiffersFromAllow | jail_types.go:47-273 | Granting and revoking a permission use two distinct parameter names ("allow.X" vs "allow.noX"), never a boolean value |
| JailTypes.SetParam | jail_types.go:287-292 | SetParam sends a fresh container holding "jid" → the jail's id and name → v, with exactly UpdateFlag. When name is "jid", the ignored duplicate error leaves only the id. |
| JailTypes.Allow | jail_types.go:47-268 | An Allow helper sends "jid" and its allow name with value int32(1), under UpdateFlag |
| JailTypes.Deny | jail_types.go:52-273 | A Deny helper sends "jid" and its "allow.no…" name with value int32(1), under UpdateFlag |
| JailTypes.SetName | jail_types.go:277-279 | SetName sends the new name under "name" |
| JailTypes.SetHostname | jail_types.go:282-284 | SetHostname sends the new hostname under "host.hostname" |
| JailQuery.AllowNameMatchesQuery | jail_query.go:64-86 | The parameter each Allow helper sets (jail_types.go) is the one FindByID reads that permission from, and the Deny parameter is not |
| JailQuery.LeadingNul | jail_query.go:92-95 | The leading run of NULs: all bytes before it are 0 and the next byte is not |
| JailQuery.TrailingNul | jail_query.go:92-95 | The trailing run of NULs: all bytes after it are 0 and the byte before is not |
| JailQuery.TrimNulSlice | jail_query.go:92-95 | Trimming yields a slice of the buffer, cut only where the bytes are NUL, that is empty or starts and ends with a non-NUL byte |
| JailQuery.TrimNulRoundTrip | jail_query.go:92-95 | A value with non-NUL ends, padded with NULs on either side, trims back to itself |
| JailQuery.Decode | jail_query.go:90-91 | The descriptor carries the id it was asked for |
| JailQuery.DecodeFields | jail_query.go:90-129 | The descriptor has the four trimmed buffers. vnet, dying, persist and every permission are on exactly when the kernel wrote 1 to their variables. The int32 fields are copied. |
| JailQuery.FindByID | jail_query.go:87-129 | A failed Get returns its error and no descriptor; a successful one returns the decoded descriptor |
| JailQuery.EnumerateWalk | jail_query.go:160-178 | The walk starts at lastjid 0. Each collected id is the kernel's answer for the previous cursor, and the ids strictly increase. The walk stops at the first failing step: without error exactly when that step was ENOENT, otherwise with that step's error. |
| JailQuery.AllByID | jail_query.go:160-178 | The loop returns exactly the walk's ids and outcome, including the ids collected before an error |
| JailQuery.EnumerateExample | jail_query.go:160-178 | A kernel holding jails 7, 12 and 40 is enumerated as [7, 12, 40] with no error |
| JailQuery.FindAllSuccess | jail_query.go:147-155 | Looking up the ids succeeds exactly when every single lookup does |
| JailQuery.FindAllValues | jail_query.go:147-155 | A successful lookup of the ids yields one descriptor per id, in order, each decoded from that id's answer |
| JailQuery.FindAllStep | jail_query.go:148-153 | Looking up the ids succeeds exactly when the lookup of all but the last succeeds and the last id is found |
| JailQuery.FindAllSnoc | jail_query.go:148-153 | When the prefix ids[..i] was found, looking up ids[..i+1] fails with the error of ids[i] or appends the descriptor decoded for ids[i] |
| JailQuery.FindAllFailure | jail_query.go:148-151 | A failing lookup of the ids fails with the error of the first id whose lookup fails |
| JailQuery.FindAllPrefixFailure | jail_query.go:149-150 | Once a prefix of the ids fails, the whole lookup fails the same way |
| JailQuery.All | jail_query.go:143-156 | All returns the walk's error, or the lookup of every enumerated id |
| JailQuery.Names | jail_query.go:193 | One name per jail, in order |
| JailQuery.NamesSnoc | jail_query.go:187-193 | One more jail adds exactly its name at the end of the names |
| JailQuery.AllByName | jail_query.go:182-195 | AllByName fails exactly as All does; otherwise it returns the names of All's jails in order |
| JailQuery.FilterByDying | jail_query.go:199-210 | filterByDying returns All's error, or All's jails whose dying flag is d, in order |
| JailQuery.Living | jail_query.go:133-135 | Living is the dying filter with false |
| JailQuery.Dying | jail_query.go:138-140 | Dying is the dying filter with true |
| JailQuery.LivingDyingPartition | jail_query.go:133-140 | Living and Dying together hold every jail of All exactly once (as multisets), split by the dying flag; both fail when All fails |
| JailCreate.Validate | jail_create.go:89-97 | A missing path is reported first, then a missing name; validation passes exactly when both are non-empty |
| JailCreate.CString | jail_create.go:31-44 | Conversion fails exactly when the string holds a NUL byte. Otherwise it gives the string's bytes and one terminating 0. |
| JailCreate.CStringRead | jail_create.go:48-50 | A C reader takes the bytes before the first NUL |
| JailCreate.CStringRoundTrip | jail_create.go:31-50 | The kernel reads back exactly the bytes of a converted string |
| JailCreate.Ip2Int | jail_create.go:139-145 | The little-endian bytes of the result are ip[12..16] for a 16-byte address, otherwise ip[0..4] |
| JailCreate.Ip2IntIgnoresPrefix | jail_create.go:140-142 | For 16-byte addresses, bytes 0 to 11 do not affect the result |
| JailCreate.CreateArgs | jail_create.go:26-60 | A validation error is returned first, before anything is built. Then come the string conversions. Success gives the version, the path, and the name, also used as the hostname. ip4s=1, ip6s=0 and the address are set exactly when IP4 is non-empty. An unparsable address is reported. |
| JailCreate.CreateArgsAsWritten | jail_create.go:26-60 | As written, the result agrees with CreateArgs wherever ip2int's input has four bytes, and cannot be computed for a parse result shorter than that |
| JailCreate.UnparsableAddressReachesIp2Int | jail_create.go:53 | Options with a valid path and name and an unparsable IP4 pass every earlier check, so ip2int is reached with nil |
| JailCreate.HostnameOptionIgnored | jail_create.go:41-49 | The Hostname option never affects what reaches the kernel |
| Jls.Filter | cmd/jls/jls.go:77-88 | jid -1 returns the input unchanged; any other jid keeps the jails whose id equals int32(jid), in order |
| Jls.FilterSelection | cmd/jls/jls.go:81-87 | The selection holds exactly the input jails with the truncated id. It is a subsequence of the input, so it is never longer. |
| Jls.FilterTruncatesJid | cmd/jls/jls.go:83 | The jid is truncated to 32 bits: 2^32+5 selects jail 5 |
| Seqs.Filter | jail_query.go:203-209 | Selection never lengthens a sequence |
| Seqs.FilterSnoc | jail_query.go:204-208 | Extending the input by one element extends the selection by it exactly when it passes the test |
| Seqs.SnocPointwise | jail_query.go:148-153 | Values that agree with a lookup on all keys but the last, followed by its value at the last key, agree with it on every key |
| Seqs.FilterSubsequence | jail_query.go:204-208 | The k-th selected element sits at the k-th of increasing positions of the input |
| Seqs.PositionsSelect | jail_query.go:205 | The selected positions are exactly those whose elements pass the test |
| Seqs.FilterMembers | jail_query.go:205 | An element is selected exactly when it is in the input and passes the test |
| Seqs.FilterPartition | jail_query.go:133-140 | Selecting by a test and by its negation splits the input, as multisets and in length |
| GoTypes.Int32Of | jail_get.go:36 | int32(x) keeps x modulo 2^32 and is x itself on the int32 range |
| GoTypes.Int32OfWord | jail_attach.go:23 | A jid widened to a machine word and cut back to 32 bits is unchanged |
| GoTypes.FromToBytes | jail_query.go:92-95 | string(bytes) and []byte(s) are inverse for byte strings |
| GoTypes.SignedRoundTrip | jail_params.go:105-124 | An integer's w-byte two's complement little-endian image decodes back to it |

## Left out

- The system calls themselves, `runtime.KeepAlive` and `unsafe` pointer arithmetic. The kernel is a function parameter (`JailGet.Kernel`, `JailAttach.Kernel`, `JailQuery.Cursor`/`Lookup`), and addresses are byte sequences, arrays or `Cell` references.
- Go's map iteration order: `BuildIovec` picks keys in an unspecified order, and its results are stated for the order it used.
- The concrete errno values (`ErrJail*`, `enoent`, `einval`) are not defined in the files modelled. They are the abstract record `Errnos`.
- `JailQuery.AllByID` is proved for a kernel that answers with a jid above `lastjid`. A kernel that never answers ENOENT and keeps returning old ids would make the Go loop run forever; that case is not modelled.
- `JailQuery.FindByID` models the decoding after the single `Get`. The 36 `Add` calls that build the request (jail_query.go:51-86: the jid by value and the 35 output variables) and the kernel's writes are given as the `Raw` record of filled variables, keyed by parameter name. The 1024-byte capacity is not enforced.
- `JailQuery.Living`, `Dying`: the enumeration (`Cursor`) and the lookups (`Lookup`) are independent parameters, so a jail that vanishes between the walk and its lookup is covered. What is not modelled is that each of `Living` and `Dying` calls `All` afresh and may see a different kernel state; `LivingDyingPartition` is stated for one kernel state shared by both.
- `JailGet.Get`: the kernel is a function of the segments and the flags; it neither reads nor writes the storage (`Cell`, `array<byte>`) its segments point to, so the values written through `&lastjid`-style pointers and into byte buffers are not modelled here, only which storage is handed over.
- `JailGet.Get` requires a non-empty container: Go's `get` takes `&iov[0]`, which panics on an empty vector.
- `Create`'s jail(2) call and its errno messages, `os.Chdir`, `Clone` and `uint32ip` are OS calls or `net.IP` formatting. `net.ParseIP` is a library parser; its result is the `parsed` parameter.
- The `ip6` pointer of `struct jail` is never set by `Create`, so `JailArgs` has no field for it.
- `jail_set.go`, `jail_remove.go` and `jail_new.go` are not part of this model. `Set` is where `SetParam`'s request goes: the setters return the request (`SetCall`) instead of its result.
- `Jail.Attach` and `Jail.Remove` (jail_types.go:296-303) are one-line delegations to `Attach` and `Remove`.
- `GetBool`, `GetString`, `GetInt32`, `GetAny` and `SetSecureLevel` are not defined in the files modelled.
- jls's flag parsing, printing and exit handling are not part of this model.
- The unused `JailParam` struct and flag constants (jail_params.go:12-29) are not part of this model.

## Findings

| source | as written | input that shows it | evidently intended | confidence | as-written member | corrected member |
|---|---|---|---|---|---|---|
| jail_attach.go:23 | The jid argument of jail_attach(2)/jail_remove(2) is `uintptr(unsafe.Pointer(&jailID))`, the address of the id | `Attach(5)` with jail 5 present, where the local copy of the id lives at 0xc000012340: the kernel is asked about jid 0x12340 and answers EINVAL, reported as "JID does not exist" | pass `uintptr(jailID)`, as jail_remove.go:11 does | high; not executed | JailAttach.AttachRemoveAsWritten, JailAttach.AsWrittenMissesExistingJail | JailAttach.AttachRemove |
| jail_create.go:53 | `ip2int(net.ParseIP(o.IP4))` with no nil check; `ip2int` reads four bytes of its input | `Opts{Path: "/jails/www", Name: "www", IP4: "www.example"}`: ParseIP returns nil, and `binary.LittleEndian.Uint32` panics on the empty slice | report an unparsable address as an error | high; not executed | JailCreate.CreateArgsAsWritten, JailCreate.UnparsableAddressReachesIp2Int | JailCreate.CreateArgs |
