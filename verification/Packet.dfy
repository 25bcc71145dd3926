/**
 * Packets as bytes: metadata, base region with the common header in front, then the heap.  Sender
 * and receiver check the same layout; the receiver also wants the buffer to be exactly as long as
 * the metadata says.
 */
module Packet {
  import opened ActionTypes

  const META_STRUCT: nat := 20
  const META_SIZE: nat := 24
  const ALIGNMENT: nat := 8
  const INT_MAX: nat := 0x7fff_ffff
  const GOAL_BYTES: nat := 16

  /** The two constants that mark metadata as initialised. */
  datatype Marks = Marks(magic: nat, version: nat)

  datatype Metadata = Metadata(magic: nat, version: nat, baseOff: nat, heapOff: nat, totalSize: nat)

  // ----- numbers -----

  function Put32(n: nat): (b: seq<Byte>)
    requires n < TWO_TO_32
    ensures |b| == 4
  {
    var (n1, n2, n3) := (n / 256, n / 256 / 256, n / 256 / 256 / 256);
    [(n % 256) as Byte, (n1 % 256) as Byte, (n2 % 256) as Byte, n3 as Byte]
  }

  /** Little-endian 32-bit field. */
  function Get32(p: seq<Byte>, at: nat): (n: nat)
    requires at + 4 <= |p|
    ensures n < TWO_TO_32
  {
    p[at] as nat + 256 * (p[at + 1] as nat + 256 * (p[at + 2] as nat + 256 * p[at + 3] as nat))
  }

  lemma Get32Put32(n: nat)
    requires n < TWO_TO_32
    ensures Get32(Put32(n), 0) == n
  {
    var (n1, n2) := (n / 256, n / 256 / 256);
    assert n == n % 256 + 256 * n1;
    assert n1 == n1 % 256 + 256 * n2;
    assert n2 == n2 % 256 + 256 * (n2 / 256);
  }

  /** Bit masking with a power of two, written as arithmetic. */
  function AlignedSize(size: nat): (r: nat)
    ensures r % ALIGNMENT == 0 && size <= r < size + ALIGNMENT
  {
    (size + ALIGNMENT - 1) / ALIGNMENT * ALIGNMENT
  }

  predicate SupportedCapacity(baseSize: nat, heapCapacity: nat) {
    && baseSize <= INT_MAX && heapCapacity <= INT_MAX
    && META_SIZE + AlignedSize(baseSize) <= INT_MAX
    && AlignedSize(heapCapacity) <= INT_MAX - (META_SIZE + AlignedSize(baseSize))
  }

  // ----- metadata -----

  function MetadataOf(p: seq<Byte>): Metadata
    requires |p| >= META_STRUCT
  {
    Metadata(Get32(p, 0), Get32(p, 4), Get32(p, 8), Get32(p, 12), Get32(p, 16))
  }

  predicate ValidPrefix(marks: Marks, p: seq<Byte>, baseSize: nat) {
    |p| >= META_STRUCT &&
    var m := MetadataOf(p);
    && m.magic == marks.magic && m.version == marks.version
    && m.baseOff == META_SIZE && m.baseOff <= |p|
    && baseSize <= |p| - m.baseOff
    && m.heapOff >= m.baseOff + baseSize
    && m.heapOff <= m.totalSize <= |p|
  }

  /** The size to put on the wire, if the packet keeps to its configured limits. */
  function ValidateCapacity(marks: Marks, p: seq<Byte>, baseSize: nat, heapCapacity: nat, exact: bool): Option<nat> {
    if !ValidPrefix(marks, p, 0) || !SupportedCapacity(baseSize, heapCapacity) then None else
    var m := MetadataOf(p);
    if m.totalSize > |p| || (exact && m.totalSize != |p|) || m.totalSize - m.heapOff > AlignedSize(heapCapacity)
      then None
    else Some(m.totalSize)
  }

  // ----- headers -----

  type GoalBytes = g: seq<Byte> | |g| == GOAL_BYTES witness seq(GOAL_BYTES, _ => 0)

  datatype Header =
    | RequestHeader(version: Byte, kind: Byte, goal: GoalBytes)
    | ResponseHeader(version: Byte, kind: Byte, status: Byte, goal: GoalBytes)
    | FeedbackHeader(version: Byte, goal: GoalBytes, sequence: nat)
  {
    predicate Fits32() { FeedbackHeader? ==> sequence < TWO_TO_32 }
  }

  datatype HeaderKind = RequestKind | ResponseKind | FeedbackKind

  function KindOf(h: Header): HeaderKind {
    match h
    case RequestHeader(_, _, _) => RequestKind
    case ResponseHeader(_, _, _, _) => ResponseKind
    case FeedbackHeader(_, _, _) => FeedbackKind
  }

  function HeaderSize(k: HeaderKind): nat { if k == FeedbackKind then 24 else 20 }

  function Encode(h: Header): (b: seq<Byte>)
    requires h.Fits32()
    ensures |b| == HeaderSize(KindOf(h))
  {
    match h
    case RequestHeader(version, kind, goal) => [version, kind, 0, 0] + goal
    case ResponseHeader(version, kind, status, goal) => [version, kind, status, 0] + goal
    case FeedbackHeader(version, goal, sequence) => [version, 0, 0, 0] + goal + Put32(sequence)
  }

  function Decode(k: HeaderKind, b: seq<Byte>): Header
    requires |b| == HeaderSize(k)
  {
    match k
    case RequestKind => RequestHeader(b[0], b[1], b[4..20])
    case ResponseKind => ResponseHeader(b[0], b[1], b[2], b[4..20])
    case FeedbackKind => FeedbackHeader(b[0], b[4..20], Get32(b, 20))
  }

  lemma DecodeEncode(h: Header)
    requires h.Fits32()
    ensures Decode(KindOf(h), Encode(h)) == h
  {
    var b := Encode(h);
    assert b[4..20] == h.goal;
    if h.FeedbackHeader? {
      var tail := Put32(h.sequence);
      Get32Put32(h.sequence);
      assert b[20] == tail[0] && b[21] == tail[1] && b[22] == tail[2] && b[23] == tail[3];
    }
  }

  // ----- sending and receiving -----

  /** The header goes to the front of the base region; nothing else is touched. */
  function WriteHeader(marks: Marks, p: seq<Byte>, h: Header): (r: Option<seq<Byte>>)
    requires h.Fits32()
    ensures r.Some? ==> |r.value| == |p|
  {
    var n := HeaderSize(KindOf(h));
    if !ValidPrefix(marks, p, n) then None
    else Some(p[..META_SIZE] + Encode(h) + p[META_SIZE + n..])
  }

  function ReadHeader(marks: Marks, p: seq<Byte>, k: HeaderKind): Option<Header> {
    if !ValidPrefix(marks, p, HeaderSize(k)) then None
    else Some(Decode(k, p[META_SIZE..META_SIZE + HeaderSize(k)]))
  }

  /** Capacity check, header write, and the cut to the wire size. */
  function Prepare(marks: Marks, p: seq<Byte>, baseSize: nat, heapCapacity: nat, h: Header): Option<seq<Byte>>
    requires h.Fits32()
  {
    match ValidateCapacity(marks, p, baseSize, heapCapacity, false)
    case None => None
    case Some(size) =>
      match WriteHeader(marks, p, h)
      case None => None
      case Some(written) => Some(written[..size])
  }

  lemma MetadataSame(p: seq<Byte>, q: seq<Byte>)
    requires |p| >= META_STRUCT && |q| >= META_STRUCT && p[..META_STRUCT] == q[..META_STRUCT]
    ensures MetadataOf(p) == MetadataOf(q)
  {
    assert forall i | 0 <= i < META_STRUCT :: p[i] == p[..META_STRUCT][i] == q[i];
  }

  /** Overwriting a stretch in the middle and cutting behind it. */
  lemma OverwriteAndCut(p: seq<Byte>, e: seq<Byte>, m: nat, size: nat, heap: nat)
    requires m + |e| <= heap <= size <= |p|
    ensures var wire := (p[..m] + e + p[m + |e|..])[..size];
            && wire[..m] == p[..m] && wire[m..m + |e|] == e && wire[m + |e|..] == p[m + |e|..size]
               && wire[heap..] == p[heap..size]
  {
    var wire := (p[..m] + e + p[m + |e|..])[..size];
    assert wire == p[..m] + e + p[m + |e|..size];
  }

  /**
   * Hand-over: what the sender puts on the wire passes the receiver's exact-size check under the
   * same limits and yields the header that was written; metadata, the rest of the base region and
   * the heap arrive as the application wrote them.
   */
  lemma HandOver(marks: Marks, p: seq<Byte>, baseSize: nat, heapCapacity: nat, h: Header)
    requires h.Fits32() && Prepare(marks, p, baseSize, heapCapacity, h).Some?
    ensures var wire := Prepare(marks, p, baseSize, heapCapacity, h).value;
            && ValidateCapacity(marks, wire, baseSize, heapCapacity, true) == Some(|wire|)
            && ReadHeader(marks, wire, KindOf(h)) == Some(h)
            && |wire| <= |p| && |wire| == MetadataOf(p).totalSize
            && META_SIZE + HeaderSize(KindOf(h)) <= MetadataOf(p).heapOff <= |wire|
            && wire[..META_SIZE] == p[..META_SIZE]
            && wire[META_SIZE + HeaderSize(KindOf(h))..] == p[META_SIZE + HeaderSize(KindOf(h))..|wire|]
            && wire[MetadataOf(p).heapOff..] == p[MetadataOf(p).heapOff..|wire|]
  {
    var wire := Prepare(marks, p, baseSize, heapCapacity, h).value;
    var m := MetadataOf(p);
    OverwriteAndCut(p, Encode(h), META_SIZE, m.totalSize, m.heapOff);
    assert wire[..META_STRUCT] == wire[..META_SIZE][..META_STRUCT] && p[..META_STRUCT] == p[..META_SIZE][..META_STRUCT];
    MetadataSame(p, wire);
    DecodeEncode(h);
  }

  // ----- the layout of a packet -----

  /** A packet taken apart: what its metadata says, the padding behind it, base region, heap, and spare room. */
  datatype Layout = Layout(marks: Marks, padding: seq<Byte>, base: seq<Byte>, heap: seq<Byte>, spare: seq<Byte>)
  {
    predicate Fits() {
      marks.magic < TWO_TO_32 && marks.version < TWO_TO_32 && |padding| == 4 && 24 + |base| + |heap| < TWO_TO_32
    }
  }

  function Lay(l: Layout): (p: seq<Byte>)
    requires l.Fits()
    ensures |p| == 24 + |l.base| + |l.heap| + |l.spare|
  {
    MetaBytes(l) + (l.padding + l.base + l.heap + l.spare)
  }

  function MetaBytes(l: Layout): (b: seq<Byte>)
    requires l.Fits()
    ensures |b| == META_STRUCT
  {
    Put32(l.marks.magic) + Put32(l.marks.version) + Put32(24) + Put32(24 + |l.base|) + Put32(24 + |l.base| + |l.heap|)
  }

  lemma Get32Between(front: seq<Byte>, n: nat, back: seq<Byte>)
    requires n < TWO_TO_32
    ensures Get32(front + Put32(n) + back, |front|) == n
  {
    var (p, b, at) := (front + Put32(n) + back, Put32(n), |front|);
    Get32Put32(n);
    assert p[at] == b[0] && p[at + 1] == b[1] && p[at + 2] == b[2] && p[at + 3] == b[3];
  }

  /** Five fields in a row, seen from each of them. */
  lemma FiveFields(a: nat, b: nat, c: nat, d: nat, e: nat, rest: seq<Byte>)
    requires a < TWO_TO_32 && b < TWO_TO_32 && c < TWO_TO_32 && d < TWO_TO_32 && e < TWO_TO_32
    ensures MetadataOf(Put32(a) + Put32(b) + Put32(c) + Put32(d) + Put32(e) + rest) == Metadata(a, b, c, d, e)
  {
    var (pa, pb, pc, pd, pe) := (Put32(a), Put32(b), Put32(c), Put32(d), Put32(e));
    var p := pa + pb + pc + pd + pe + rest;
    Get32Between([], a, pb + pc + pd + pe + rest);
    assert p == [] + pa + (pb + pc + pd + pe + rest);
    Get32Between(pa, b, pc + pd + pe + rest);
    assert p == pa + pb + (pc + pd + pe + rest);
    Get32Between(pa + pb, c, pd + pe + rest);
    assert p == (pa + pb) + pc + (pd + pe + rest);
    Get32Between(pa + pb + pc, d, pe + rest);
    assert p == (pa + pb + pc) + pd + (pe + rest);
    Get32Between(pa + pb + pc + pd, e, rest);
  }

  lemma MetadataOfLay(l: Layout)
    requires l.Fits()
    ensures MetadataOf(Lay(l)) ==
            Metadata(l.marks.magic, l.marks.version, 24, 24 + |l.base|, 24 + |l.base| + |l.heap|)
  {
    var rest := l.padding + l.base + l.heap + l.spare;
    FiveFields(l.marks.magic, l.marks.version, 24, 24 + |l.base|, 24 + |l.base| + |l.heap|, rest);
  }

  lemma Regrouped(a: seq<Byte>, b: seq<Byte>, c: seq<Byte>, d: seq<Byte>, e: seq<Byte>)
    ensures a + (b + c + d + e) == (a + b) + c + d + e
  {
  }

  lemma LayIs(l: Layout)
    requires l.Fits()
    ensures Lay(l) == (MetaBytes(l) + l.padding) + l.base + l.heap + l.spare
  {
    Regrouped(MetaBytes(l), l.padding, l.base, l.heap, l.spare);
  }

  lemma PartsOf(front: seq<Byte>, base: seq<Byte>, heap: seq<Byte>, spare: seq<Byte>)
    ensures var (p, b, h, t) := (front + base + heap + spare, |front|, |front| + |base|, |front| + |base| + |heap|);
            p[..b] == front && p[b..h] == base && p[h..t] == heap && p[t..] == spare
  {
  }

  lemma LayParts(l: Layout)
    requires l.Fits()
    ensures var (p, h, t) := (Lay(l), 24 + |l.base|, 24 + |l.base| + |l.heap|);
            && p[..24] == MetaBytes(l) + l.padding && p[24..h] == l.base && p[h..t] == l.heap && p[t..] == l.spare
  {
    var front := MetaBytes(l) + l.padding;
    LayIs(l);
    PartsOf(front, l.base, l.heap, l.spare);
  }

  lemma Put32Get32(p: seq<Byte>, at: nat)
    requires at + 4 <= |p|
    ensures Put32(Get32(p, at)) == p[at..at + 4]
  {
    var (b0, b1, b2, b3) := (p[at] as nat, p[at + 1] as nat, p[at + 2] as nat, p[at + 3] as nat);
    var n3 := b3;
    var n2 := b2 + 256 * n3;
    var n1 := b1 + 256 * n2;
    var n := b0 + 256 * n1;
    assert n % 256 == b0 && n / 256 == n1;
    assert n1 % 256 == b1 && n1 / 256 == n2;
    assert n2 % 256 == b2 && n2 / 256 == n3;
  }

  /** The pieces of any packet whose metadata makes sense. */
  function PiecesOf(marks: Marks, p: seq<Byte>): Layout
    requires ValidPrefix(marks, p, 0)
  {
    var m := MetadataOf(p);
    Layout(marks, p[20..24], p[24..m.heapOff], p[m.heapOff..m.totalSize], p[m.totalSize..])
  }

  /** The prefix check passes exactly the packets that are laid out: no others have all the fields it wants. */
  lemma ValidPrefixIsLaidOut(marks: Marks, p: seq<Byte>)
    requires ValidPrefix(marks, p, 0)
    ensures var l := PiecesOf(marks, p); l.Fits() && Lay(l) == p
  {
    var (m, l) := (MetadataOf(p), PiecesOf(marks, p));
    FieldsAreBytes(p);
    assert MetaBytes(l) == p[..20];
    CutAndJoined(p, 20, 24, m.heapOff, m.totalSize);
  }

  lemma CutAndJoined(p: seq<Byte>, a: nat, b: nat, c: nat, d: nat)
    requires a <= b <= c <= d <= |p|
    ensures p == p[..a] + (p[a..b] + p[b..c] + p[c..d] + p[d..])
  {
  }

  lemma FieldsAreBytes(p: seq<Byte>)
    requires |p| >= 20
    ensures var m := MetadataOf(p);
            Put32(m.magic) + Put32(m.version) + Put32(m.baseOff) + Put32(m.heapOff) + Put32(m.totalSize) == p[..20]
  {
    Put32Get32(p, 0);
    Put32Get32(p, 4);
    Put32Get32(p, 8);
    Put32Get32(p, 12);
    Put32Get32(p, 16);
    assert p[..20] == p[0..4] + p[4..8] + p[8..12] + p[12..16] + p[16..20];
  }

  lemma LaidOutIsValidPrefix(l: Layout, needed: nat)
    requires l.Fits()
    ensures ValidPrefix(l.marks, Lay(l), needed) <==> needed <= |l.base|
  {
    MetadataOfLay(l);
  }

  /** The least multiple of 8 that is not below `n`. */
  function RoundedUp(n: nat): nat { if n % 8 == 0 then n else n + 8 - n % 8 }

  lemma AlignedIsRounded(n: nat)
    ensures AlignedSize(n) == RoundedUp(n)
  {
  }

  /** Limits that a packet of either direction can have at all. */
  predicate Supported(baseSize: nat, heapCapacity: nat) {
    24 + RoundedUp(baseSize) + RoundedUp(heapCapacity) <= 0x7fff_ffff
  }

  lemma SupportedExactly(baseSize: nat, heapCapacity: nat)
    ensures SupportedCapacity(baseSize, heapCapacity) <==> Supported(baseSize, heapCapacity)
  {
    AlignedIsRounded(baseSize);
    AlignedIsRounded(heapCapacity);
  }

  /**
   * The capacity check on the layout: a laid-out packet passes, with the size of everything but its spare room,
   * exactly if the limits are supported and the heap is within its rounded limit, and for the receiver if there
   * is no spare room besides.
   */
  lemma CapacityExactly(l: Layout, baseSize: nat, heapCapacity: nat, exact: bool)
    requires l.Fits()
    ensures ValidateCapacity(l.marks, Lay(l), baseSize, heapCapacity, exact) ==
            if Supported(baseSize, heapCapacity) && |l.heap| <= RoundedUp(heapCapacity) && (exact ==> l.spare == [])
            then Some(24 + |l.base| + |l.heap|) else None
  {
    MetadataOfLay(l);
    LaidOutIsValidPrefix(l, 0);
    SupportedExactly(baseSize, heapCapacity);
    AlignedIsRounded(heapCapacity);
  }

  /** And any other packet fails it. */
  lemma CapacityNeedsLayout(marks: Marks, p: seq<Byte>, baseSize: nat, heapCapacity: nat, exact: bool, h: Header)
    requires h.Fits32() && forall l: Layout | l.marks == marks && l.Fits() :: Lay(l) != p
    ensures ValidateCapacity(marks, p, baseSize, heapCapacity, exact) == None
    ensures Prepare(marks, p, baseSize, heapCapacity, h) == None
  {
    if ValidPrefix(marks, p, 0) { ValidPrefixIsLaidOut(marks, p); }
  }

  /** The layout with the header in front of the base region, and the spare room cut off. */
  function WithHeader(l: Layout, h: Header): Layout
    requires h.Fits32() && HeaderSize(KindOf(h)) <= |l.base|
  {
    l.(base := Encode(h) + l.base[HeaderSize(KindOf(h))..], spare := [])
  }

  /** Exactly what the sender makes of a packet: refused for its limits, its heap or its base region, or prepared. */
  lemma PrepareFailsExactly(l: Layout, baseSize: nat, heapCapacity: nat, h: Header)
    requires l.Fits() && h.Fits32()
    ensures var fits := && Supported(baseSize, heapCapacity) && |l.heap| <= RoundedUp(heapCapacity)
                        && HeaderSize(KindOf(h)) <= |l.base|;
            Prepare(l.marks, Lay(l), baseSize, heapCapacity, h) == if fits then Some(Lay(WithHeader(l, h))) else None
  {
    CapacityExactly(l, baseSize, heapCapacity, false);
    LaidOutIsValidPrefix(l, HeaderSize(KindOf(h)));
    if HeaderSize(KindOf(h)) <= |l.base| { WrittenIsLaidOut(l, h); }
  }

  lemma WrittenIsLaidOut(l: Layout, h: Header)
    requires l.Fits() && h.Fits32() && HeaderSize(KindOf(h)) <= |l.base|
    ensures var (p, n) := (Lay(l), HeaderSize(KindOf(h)));
            (p[..24] + Encode(h) + p[24 + n..])[..24 + |l.base| + |l.heap|] == Lay(WithHeader(l, h))
  {
    var (m, front) := (WithHeader(l, h), MetaBytes(l) + l.padding);
    LayIs(l);
    LayIs(m);
    SameMeta(l, m);
    WrittenAndCut(front, l.base, l.heap, l.spare, Encode(h));
    NothingBehind(front + m.base + m.heap);
  }

  lemma NothingBehind(p: seq<Byte>)
    ensures p + [] == p
  {
  }

  lemma SameMeta(l: Layout, m: Layout)
    requires l.Fits() && m.Fits() && m.marks == l.marks && |m.base| == |l.base| && |m.heap| == |l.heap|
    ensures MetaBytes(m) == MetaBytes(l)
  {
  }

  lemma WrittenAndCut(front: seq<Byte>, base: seq<Byte>, heap: seq<Byte>, spare: seq<Byte>, e: seq<Byte>)
    requires |e| <= |base|
    ensures var p := front + base + heap + spare;
            (p[..|front|] + e + p[|front| + |e|..])[..|front| + |base| + |heap|] == front + (e + base[|e|..]) + heap
  {
    var (p, t) := (front + base + heap + spare, |front| + |base| + |heap|);
    assert p[|front| + |e|..t] == base[|e|..] + heap;
    assert (p[..|front|] + e + p[|front| + |e|..])[..t] == p[..|front|] + e + p[|front| + |e|..t];
  }

  /** The receiver reads the header off the front of the base region. */
  lemma ReadHeaderExactly(l: Layout, k: HeaderKind)
    requires l.Fits()
    ensures ReadHeader(l.marks, Lay(l), k) ==
            if HeaderSize(k) <= |l.base| then Some(Decode(k, l.base[..HeaderSize(k)])) else None
  {
    LaidOutIsValidPrefix(l, HeaderSize(k));
    LayParts(l);
    if HeaderSize(k) <= |l.base| {
      assert Lay(l)[24..24 + HeaderSize(k)] == Lay(l)[24..24 + |l.base|][..HeaderSize(k)];
    }
  }

  /** The protocol model's view of an application's packet. */
  function Seen(marks: Marks, p: seq<Byte>, baseSize: nat, heapCapacity: nat, k: HeaderKind, body: Payload): AppPdu {
    if p == [] then EmptyPdu
    else AppPdu(ValidateCapacity(marks, p, baseSize, heapCapacity, false).Some?,
                ValidPrefix(marks, p, HeaderSize(k)), body)
  }

  lemma SendableExactly(marks: Marks, p: seq<Byte>, baseSize: nat, heapCapacity: nat, h: Header, body: Payload)
    requires h.Fits32()
    ensures Seen(marks, p, baseSize, heapCapacity, KindOf(h), body).Sendable() <==>
            Prepare(marks, p, baseSize, heapCapacity, h).Some?
  {
  }

  /** Without the cut, spare room behind the packet makes the receiver refuse it. */
  lemma CutIsNeeded(marks: Marks, p: seq<Byte>, baseSize: nat, heapCapacity: nat)
    requires ValidateCapacity(marks, p, baseSize, heapCapacity, false).Some?
    ensures ValidateCapacity(marks, p, baseSize, heapCapacity, true).Some? <==> |p| == MetadataOf(p).totalSize
  {
  }

  /** The sender's header write, in the application's own buffer. */
  method WriteHeaderInPlace(marks: Marks, buffer: array<Byte>, h: Header) returns (ok: bool)
    requires h.Fits32()
    modifies buffer
    ensures ok == WriteHeader(marks, old(buffer[..]), h).Some?
    ensures buffer[..] == if ok then WriteHeader(marks, old(buffer[..]), h).value else old(buffer[..])
  {
    var n := HeaderSize(KindOf(h));
    if !ValidPrefix(marks, buffer[..], n) { return false; }
    var header := Encode(h);
    ghost var was := buffer[..];
    for i := 0 to n
      invariant forall j | 0 <= j < buffer.Length ::
                  buffer[j] == if META_SIZE <= j < META_SIZE + i then header[j - META_SIZE] else was[j]
    {
      buffer[META_SIZE + i] := header[i];
    }
    assert buffer[..] == was[..META_SIZE] + header + was[META_SIZE + n..];
    ok := true;
  }

  // ----- Goal IDs as numbers -----

  /** The number the protocol model uses for a 16-byte Goal ID. */
  function GoalNumber(g: seq<Byte>): GoalId {
    if g == [] then 0 else 256 * GoalNumber(g[..|g| - 1]) + g[|g| - 1] as nat
  }

  lemma LastDigit(x: nat, y: nat, a: Byte, b: Byte)
    requires 256 * x + a as nat == 256 * y + b as nat
    ensures x == y && a == b
  {
  }

  /** Different IDs of one length have different numbers, and the invalid all-zero ID is number 0. */
  lemma {:induction false} GoalNumberInjective(g: seq<Byte>, h: seq<Byte>)
    requires |g| == |h| && GoalNumber(g) == GoalNumber(h)
    ensures g == h
  {
    if g == [] {
    } else {
      var n := |g| - 1;
      LastDigit(GoalNumber(g[..n]), GoalNumber(h[..n]), g[n], h[n]);
      GoalNumberInjective(g[..n], h[..n]);
      assert g == g[..n] + [g[n]] && h == h[..n] + [h[n]];
    }
  }

  lemma {:induction false} InvalidIsZero(g: seq<Byte>)
    ensures ValidGoalId(GoalNumber(g)) <==> exists i :: 0 <= i < |g| && g[i] != 0
  {
    if g == [] {
    } else {
      var n := |g| - 1;
      InvalidIsZero(g[..n]);
      if exists i :: 0 <= i < n && g[..n][i] != 0 {
        var i :| 0 <= i < n && g[..n][i] != 0;
        assert g[i] != 0;
      }
    }
  }
}
