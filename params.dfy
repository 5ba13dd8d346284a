/**
 * The parameter container of the jail package and its marshaling into the
 * scatter/gather vector (struct iovec array) that jail_get(2) and
 * jail_set(2) take: name segments, each followed by its value's segment.
 */
module JailParams {
  import opened Wrappers
  import opened GoTypes

  /** The kind, as reflection reports it, of what a pointer parameter points at. */
  datatype Kind = BoolKind | IntKind | Int8Kind | Int16Kind | Int32Kind | Int64Kind | OtherKind

  /** Size in bytes of a pointee of a scalar kind; Go's int is 64 bits wide on the targets. */
  function KindSize(k: Kind): nat
    requires k != OtherKind
  {
    match k
    case BoolKind => 1
    case IntKind => 8
    case Int8Kind => 1
    case Int16Kind => 2
    case Int32Kind => 4
    case Int64Kind => 8
  }

  /** A variable of the caller that a pointer parameter refers to; the kernel writes into it. */
  class Cell {
    const kind: Kind
    var value: int

    constructor (kind: Kind, value: int)
      ensures this.kind == kind && this.value == value
    {
      this.kind := kind;
      this.value := value;
    }
  }

  /** The dynamic values a parameter may hold. */
  datatype Value =
    | ByteSlice(buf: array<byte>)  // []byte: the caller's buffer, which the kernel may fill
    | Str(s: GoString)
    | Bool(b: bool)
    | Int(n: int64)                // Go's int
    | Int8(n8: int8)
    | Int16(n16: int16)
    | Int32(n32: int32)
    | Int64(n64: int64)
    | Pointer(target: Cell?)       // *T, possibly nil
    | Unsupported                  // any other dynamic type

  /** One (base, length) entry of the vector. */
  datatype Segment =
    | Copy(data: seq<byte>)         // storage the encoder allocated and filled
    | Shared(buf: array<byte>)      // the caller's byte slice itself
    | Target(cell: Cell, size: nat) // the caller's scalar variable itself

  function Len(s: Segment): nat {
    match s
    case Copy(data) => |data|
    case Shared(buf) => buf.Length
    case Target(_, size) => size
  }

  /** A value kept reachable for the duration of the system call. */
  datatype Owner = OwnsCopy(data: seq<byte>) | OwnsSlice(buf: array<byte>) | OwnsCell(cell: Cell)

  /** The owner is the storage the segment points into. */
  predicate Backs(o: Owner, s: Segment) {
    match s
    case Copy(data) => o == OwnsCopy(data)
    case Shared(buf) => o == OwnsSlice(buf)
    case Target(cell, _) => o == OwnsCell(cell)
  }

  datatype Encoded = Encoded(seg: Segment, keep: Owner)

  datatype ParamError =
    | NilMap                                       // "cannot assign values to nil map"
    | DuplicateKey(key: GoString, existing: Value) // "key of %q already set with value of %v"
    | InvalidValue                                 // "invalid value"
    | InvalidValueForKey(key: GoString)            // "invalid value passed in for key: " + key

  /** The values the encoder accepts. */
  predicate Encodable(v: Value) {
    match v
    case ByteSlice(buf) => buf.Length > 0
    case Pointer(p) => p != null && p.kind != OtherKind
    case Unsupported => false
    case _ => true
  }

  /** The values that are passed by value, as a fresh copy. */
  predicate ByValue(v: Value) {
    v.Str? || v.Bool? || v.Int? || v.Int8? || v.Int16? || v.Int32? || v.Int64?
  }

  /** The length of the segment the kernel sees for an encodable value. */
  function Width(v: Value): nat
    requires Encodable(v)
  {
    match v
    case ByteSlice(buf) => buf.Length
    case Str(s) => |s| + 1
    case Bool(_) => 4
    case Int(_) => 8
    case Int8(_) => 1
    case Int16(_) => 2
    case Int32(_) => 4
    case Int64(_) => 8
    case Pointer(p) => KindSize(p.kind)
  }

  function Copied(data: seq<byte>): Result<Encoded, ParamError> {
    Success(Encoded(Copy(data), OwnsCopy(data)))
  }

  /**
   * encodeParamValue: the segment for one value and the owner to keep alive.
   * By-value kinds are copied (a boolean becomes a 4-byte int32 1 or 0, a
   * string gains a trailing NUL); a byte slice and a pointer are passed
   * through, so the kernel reads and writes the caller's own storage.
   */
  function Encode(v: Value): (r: Result<Encoded, ParamError>)
    ensures r.Success? <==> Encodable(v)
    ensures r.Failure? ==> r.error == InvalidValue
    ensures r.Success? ==> Len(r.value.seg) == Width(v) && Backs(r.value.keep, r.value.seg)
    ensures r.Success? ==> (r.value.seg.Copy? <==> ByValue(v))
    ensures r.Success? && v.ByteSlice? ==> r.value.seg == Shared(v.buf)
    ensures r.Success? && v.Pointer? ==>
      r.value.seg == Target(v.target, KindSize(v.target.kind)) && r.value.keep == OwnsCell(v.target)
  {
    Pow256Widths();
    match v
    case ByteSlice(buf) =>
      if buf.Length == 0 then Failure(InvalidValue) else Success(Encoded(Shared(buf), OwnsSlice(buf)))
    case Str(s) => Copied(ToBytes(s) + [0])
    case Bool(b) => Copied(SignedToLE(if b then 1 else 0, 4))
    case Int(n) => Copied(SignedToLE(n, 8))
    case Int8(n) => Copied(SignedToLE(n, 1))
    case Int16(n) => Copied(SignedToLE(n, 2))
    case Int32(n) => Copied(SignedToLE(n, 4))
    case Int64(n) => Copied(SignedToLE(n, 8))
    case Pointer(p) =>
      if p == null || p.kind == OtherKind then Failure(InvalidValue)
      else Success(Encoded(Target(p, KindSize(p.kind)), OwnsCell(p)))
    case Unsupported => Failure(InvalidValue)
  }

  /**
   * How a reader of copied bytes recovers a by-value parameter of the same
   * kind as `shape`: a NUL-terminated string, an int32 that is 1 for true
   * and 0 for false (any other int32 is not a boolean's image), or a two's
   * complement integer of the kind's width.
   */
  function DecodeAs(shape: Value, data: seq<byte>): Option<Value> {
    Pow256Widths();
    match shape
    case Str(_) =>
      if |data| > 0 && data[|data| - 1] == 0 then Some(Str(FromBytes(data[..|data| - 1]))) else None
    case Bool(_) =>
      if |data| == 4 && (SignedFromLE(data) == 0 || SignedFromLE(data) == 1)
      then Some(Bool(SignedFromLE(data) == 1)) else None
    case Int(_) => if |data| == 8 then Some(Int(SignedFromLE(data))) else None
    case Int8(_) => if |data| == 1 then Some(Int8(SignedFromLE(data))) else None
    case Int16(_) => if |data| == 2 then Some(Int16(SignedFromLE(data))) else None
    case Int32(_) => if |data| == 4 then Some(Int32(SignedFromLE(data))) else None
    case Int64(_) => if |data| == 8 then Some(Int64(SignedFromLE(data))) else None
    case _ => None
  }

  /** Every by-value parameter can be read back from its copied bytes. */
  lemma EncodeRoundTrip(v: Value)
    requires ByValue(v) && (v.Str? ==> IsByteString(v.s))
    ensures Encode(v).Success? && Encode(v).value.seg.Copy?
    ensures DecodeAs(v, Encode(v).value.seg.data) == Some(v)
  {
    Pow256Widths();
    match v
    case Str(s) =>
      var data := ToBytes(s) + [0];
      assert data[..|data| - 1] == ToBytes(s);
      FromToBytes(s);
    case Bool(b) => SignedRoundTrip(if b then 1 else 0, 4);
    case Int(n) => SignedRoundTrip(n, 8);
    case Int8(n) => SignedRoundTrip(n, 1);
    case Int16(n) => SignedRoundTrip(n, 2);
    case Int32(n) => SignedRoundTrip(n, 4);
    case Int64(n) => SignedRoundTrip(n, 8);
  }

  /** The name segment of a key: its bytes and a terminating NUL. */
  function NameBytes(k: GoString): (b: seq<byte>)
    ensures |b| == |k| + 1 && b[|k|] == 0 && b[..|k|] == ToBytes(k)
  {
    ToBytes(k) + [0]
  }

  /** The vector handed to the kernel and the owners kept alive beside it. */
  datatype Iovec = Iovec(segments: seq<Segment>, keep: seq<Owner>)

  predicate AllEncodable(m: map<GoString, Value>) {
    forall k | k in m :: Encodable(m[k])
  }

  /** order lists every key of the container exactly once. */
  predicate IsOrderOf(order: seq<GoString>, keys: set<GoString>) {
    && |order| == |keys|
    && (forall i, j | 0 <= i < j < |order| :: order[i] != order[j])
    && (forall k | k in keys :: k in order)
    && (forall i | 0 <= i < |order| :: order[i] in keys)
  }

  /** The vector for the keys of m visited in the given order. */
  function Layout(m: map<GoString, Value>, order: seq<GoString>): Iovec
    requires forall k | k in order :: k in m && Encodable(m[k])
  {
    if order == [] then Iovec([], [])
    else
      var prev := Layout(m, order[..|order| - 1]);
      var k := order[|order| - 1];
      var e := Encode(m[k]).value;
      Iovec(prev.segments + [Copy(NameBytes(k)), e.seg], prev.keep + [OwnsCopy(NameBytes(k)), e.keep])
  }

  /** Visiting one more key appends its name segment and its value segment. */
  lemma LayoutAppend(m: map<GoString, Value>, order: seq<GoString>, k: GoString)
    requires forall k' | k' in order :: k' in m && Encodable(m[k'])
    requires k in m && Encodable(m[k])
    ensures var prev, e := Layout(m, order), Encode(m[k]).value;
      Layout(m, order + [k]) ==
        Iovec(prev.segments + [Copy(NameBytes(k))] + [e.seg], prev.keep + [OwnsCopy(NameBytes(k))] + [e.keep])
  {
    assert (order + [k])[..|order|] == order;
  }

  /** Segment 2i is the i-th key's name, segment 2i+1 its value. */
  lemma {:induction false} LayoutSegments(m: map<GoString, Value>, order: seq<GoString>)
    requires forall k | k in order :: k in m && Encodable(m[k])
    ensures var v := Layout(m, order);
      && |v.segments| == 2 * |order| && |v.keep| == |v.segments|
      && (forall i | 0 <= i < |order| ::
            && v.segments[2 * i] == Copy(NameBytes(order[i]))
            && v.segments[2 * i + 1] == Encode(m[order[i]]).value.seg)
  {
    if order != [] {
      var order', k := order[..|order| - 1], order[|order| - 1];
      LayoutSegments(m, order');
      var prev, v := Layout(m, order'), Layout(m, order);
      assert v.segments == prev.segments + [Copy(NameBytes(k)), Encode(m[k]).value.seg];
      forall i | 0 <= i < |order|
        ensures v.segments[2 * i] == Copy(NameBytes(order[i]))
        ensures v.segments[2 * i + 1] == Encode(m[order[i]]).value.seg
      {
        if i < |order'| {
          assert order'[i] == order[i];
          assert v.segments[2 * i] == prev.segments[2 * i];
          assert v.segments[2 * i + 1] == prev.segments[2 * i + 1];
        }
      }
    }
  }

  /** The owner list runs parallel to the vector; each owner is the storage of its segment. */
  lemma {:induction false} LayoutOwners(m: map<GoString, Value>, order: seq<GoString>)
    requires forall k | k in order :: k in m && Encodable(m[k])
    ensures var v := Layout(m, order);
      && |v.keep| == |v.segments|
      && forall j | 0 <= j < |v.segments| :: Backs(v.keep[j], v.segments[j])
  {
    if order != [] {
      var order', k := order[..|order| - 1], order[|order| - 1];
      LayoutOwners(m, order');
      var prev, v := Layout(m, order'), Layout(m, order);
      var e := Encode(m[k]).value;
      assert v.segments == prev.segments + [Copy(NameBytes(k)), e.seg];
      assert v.keep == prev.keep + [OwnsCopy(NameBytes(k)), e.keep];
      forall j | 0 <= j < |v.segments|
        ensures Backs(v.keep[j], v.segments[j])
      {
        if j < |prev.segments| {
          assert v.keep[j] == prev.keep[j] && v.segments[j] == prev.segments[j];
        }
      }
    }
  }

  /**
   * Laid out in an order that lists every key once, the vector holds
   * 2·|m| segments, and every key of m has its name segment at some even
   * position with its own value segment right after it.
   */
  lemma LayoutCoversKeys(m: map<GoString, Value>, order: seq<GoString>)
    requires IsOrderOf(order, m.Keys) && AllEncodable(m)
    ensures |Layout(m, order).segments| == 2 * |m|
    ensures forall k | k in m :: exists i | 0 <= i < |order| ::
      && Layout(m, order).segments[2 * i] == Copy(NameBytes(k))
      && Layout(m, order).segments[2 * i + 1] == Encode(m[k]).value.seg
  {
    LayoutSegments(m, order);
    assert |m| == |m.Keys|;
    forall k | k in m
      ensures exists i | 0 <= i < |order| ::
        && Layout(m, order).segments[2 * i] == Copy(NameBytes(k))
        && Layout(m, order).segments[2 * i + 1] == Encode(m[k]).value.seg
    {
      var i :| 0 <= i < |order| && order[i] == k;
    }
  }

  /** The container: Go's Params, a map from parameter name to value. */
  class Params {
    var entries: map<GoString, Value>

    /** NewParams: an empty container. */
    constructor ()
      ensures entries == map[]
    {
      entries := map[];
    }

    /**
     * buildIovec: visit the keys in an unspecified order and lay out each
     * key's name and value. Fails, naming a key, when any value does not
     * encode, and then returns no vector.
     */
    method BuildIovec() returns (r: Result<Iovec, ParamError>, ghost order: seq<GoString>)
      ensures r.Success? <==> AllEncodable(entries)
      ensures r.Success? ==> IsOrderOf(order, entries.Keys) && r.value == Layout(entries, order)
      ensures r.Failure? ==>
        r.error.InvalidValueForKey? && r.error.key in entries && !Encodable(entries[r.error.key])
    {
      var segments: seq<Segment>, keep: seq<Owner> := [], [];
      var remaining := entries.Keys;
      order := [];
      while remaining != {}
        invariant remaining <= entries.Keys
        invariant forall k :: k in order <==> k in entries && k !in remaining
        invariant forall i, j | 0 <= i < j < |order| :: order[i] != order[j]
        invariant |order| + |remaining| == |entries.Keys|
        invariant forall k | k in order :: Encodable(entries[k])
        invariant Iovec(segments, keep) == Layout(entries, order)
        decreases remaining
      {
        var k :| k in remaining;
        var kb := NameBytes(k);
        segments := segments + [Copy(kb)];
        keep := keep + [OwnsCopy(kb)];
        var enc := Encode(entries[k]);
        if enc.Failure? {
          return Failure(InvalidValueForKey(k)), order;
        }
        keep := keep + [enc.value.keep];
        segments := segments + [enc.value.seg];
        LayoutAppend(entries, order, k);
        order := order + [k];
        remaining := remaining - {k};
      }
      r := Success(Iovec(segments, keep));
    }
  }

  /**
   * Add: store v under k when k is new; refuse a nil container and a key
   * that is already present, leaving the container as it was.
   */
  method Add(p: Params?, k: GoString, v: Value) returns (err: Option<ParamError>)
    modifies p
    ensures p == null ==> err == Some(NilMap)
    ensures p != null && k !in old(p.entries) ==> err == None && p.entries == old(p.entries)[k := v]
    ensures p != null && k in old(p.entries) ==>
      err == Some(DuplicateKey(k, old(p.entries)[k])) && p.entries == old(p.entries)
  {
    if p == null {
      return Some(NilMap);
    }
    if k !in p.entries {
      p.entries := p.entries[k := v];
      return None;
    }
    return Some(DuplicateKey(k, p.entries[k]));
  }
}
