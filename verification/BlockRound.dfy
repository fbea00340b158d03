/**
 The round and parent round of a live block (`src/protocol.rs`): the first header triple in the
 decompressed block, read either from the fully decompressed block or from a bounded decode of its
 first bytes.
 */
module BlockRound {
  import opened Primitives
  import opened Lz4

  const ROUND_SCAN_BYTES: nat := 0x400
  const MAX_PARENT_ROUND_GAP: u32 := 256
  const MAX_DECOMPRESSED_BLOCK: nat := 4_000_000

  function LeU32(b: seq<byte>, o: nat): u32
    requires o + 4 <= |b|
  {
    var b0: int, b1: int, b2: int, b3: int := b[o], b[o + 1], b[o + 2], b[o + 3];
    b0 + 0x100 * b1 + 0x1_0000 * b2 + 0x100_0000 * b3
  }

  // ---- the header scan ----

  function ScanEnd(dec: seq<byte>): nat {
    if |dec| <= ROUND_SCAN_BYTES then |dec| else ROUND_SCAN_BYTES
  }

  // A varint triple at `o` whose second and third rounds precede it closely: a parent chain.
  predicate HeaderAt(dec: seq<byte>, o: nat)
    requires o + 15 <= |dec|
  {
    && dec[o] == 0xfc && dec[o + 5] == 0xfc && dec[o + 10] == 0xfc
    && var r, r1, r2 := LeU32(dec, o + 1), LeU32(dec, o + 6), LeU32(dec, o + 11);
       r1 < r && r - r1 <= MAX_PARENT_ROUND_GAP && r2 < r1 && r1 - r2 <= MAX_PARENT_ROUND_GAP
  }

  function FindFrom(dec: seq<byte>, o: nat): Option<(u32, u32)>
    decreases ScanEnd(dec) - o
  {
    if o + 15 > ScanEnd(dec) then None
    else if HeaderAt(dec, o) then Some((LeU32(dec, o + 1), LeU32(dec, o + 6)))
    else FindFrom(dec, o + 1)
  }

  // The round and parent of a decompressed block.
  function Find(dec: seq<byte>): Option<(u32, u32)> {
    FindFrom(dec, 0)
  }

  // It is the first header triple within the scanned bytes, if there is one.
  lemma {:induction false} FindIsFirst(dec: seq<byte>)
    ensures Find(dec) == None <==> forall o: nat | o + 15 <= ScanEnd(dec) :: !HeaderAt(dec, o)
    ensures Find(dec).Some? ==>
      exists o: nat :: o + 15 <= ScanEnd(dec) && HeaderAt(dec, o)
                       && (forall p: nat | p < o :: !HeaderAt(dec, p))
                       && Find(dec).value == (LeU32(dec, o + 1), LeU32(dec, o + 6))
  {
    var o := FindWhere(dec, 0);
  }

  lemma {:induction false} FindWhere(dec: seq<byte>, from: nat) returns (o: nat)
    ensures FindFrom(dec, from).None? ==> forall p: nat | from <= p && p + 15 <= ScanEnd(dec) :: !HeaderAt(dec, p)
    ensures FindFrom(dec, from).Some? ==>
      && from <= o && o + 15 <= ScanEnd(dec) && HeaderAt(dec, o)
      && (forall p: nat | from <= p < o :: !HeaderAt(dec, p))
      && FindFrom(dec, from).value == (LeU32(dec, o + 1), LeU32(dec, o + 6))
    decreases ScanEnd(dec) - from
  {
    o := from;
    if from + 15 <= ScanEnd(dec) && !HeaderAt(dec, from) {
      o := FindWhere(dec, from + 1);
    }
  }

  // Only the scanned bytes matter.
  lemma {:induction false} FindReadsPrefix(x: seq<byte>, y: seq<byte>, o: nat)
    requires ScanEnd(x) == ScanEnd(y) && x[..ScanEnd(x)] == y[..ScanEnd(y)]
    ensures FindFrom(x, o) == FindFrom(y, o)
    decreases ScanEnd(x) - o
  {
    if o + 15 <= ScanEnd(x) {
      assert forall i | 0 <= i < ScanEnd(x) :: x[i] == x[..ScanEnd(x)][i] == y[i];
      if !HeaderAt(x, o) {
        FindReadsPrefix(x, y, o + 1);
      }
    }
  }

  method FindBlockRoundParent(dec: seq<byte>) returns (r: Option<(u32, u32)>)
    ensures r == Find(dec)
  {
    var end := ScanEnd(dec);
    var o := 0;
    while o + 15 <= end
      invariant FindFrom(dec, o) == Find(dec)
    {
      if HeaderAt(dec, o) {
        return Some((LeU32(dec, o + 1), LeU32(dec, o + 6)));
      }
      o := o + 1;
    }
    return None;
  }

  // ---- full and bounded decoding of a payload ----

  // The size a payload declares is one a block can have.
  predicate DeclaredSizeOk(payload: seq<byte>) {
    |payload| >= 4 && LeU32(payload, 0) <= MAX_DECOMPRESSED_BLOCK
  }

  // The fully decompressed block: at most as long as declared.
  function Decompress(payload: seq<byte>): Option<seq<byte>> {
    if !DeclaredSizeOk(payload) then None
    else
      var d := Decode(payload[4..]);
      if d.Some? && |d.value| <= LeU32(payload, 0) then d else None
  }

  function FullRoundParent(payload: seq<byte>): Option<(u32, u32)> {
    var d := Decompress(payload);
    if d.None? then None else Find(d.value)
  }

  // The bytes the bounded decoder produces for the header scan.
  function HeaderBytes(payload: seq<byte>): Option<seq<byte>> {
    if |payload| < 5 || !DeclaredSizeOk(payload) then None
    else
      var p := DecodeUntil(payload[4..], 0, [], ROUND_SCAN_BYTES);
      if p.None? then None else Some(p.value[..ScanEnd(p.value)])
  }

  // What the gateway reads: from the bounded decode, or fully where that has no answer.
  function RoundParent(payload: seq<byte>): Option<(u32, u32)> {
    var h := HeaderBytes(payload);
    if h.Some? then Find(h.value) else FullRoundParent(payload)
  }

  function RoundOf(r: Option<(u32, u32)>): Option<u32> {
    if r.None? then None else Some(r.value.0)
  }

  // For every payload that decompresses, the bounded reading is the full one.
  lemma {:induction false} BoundedIsFull(payload: seq<byte>)
    requires Decompress(payload).Some?
    ensures RoundParent(payload) == Find(Decompress(payload).value)
  {
    var input, d := payload[4..], Decompress(payload).value;
    UntilIsPrefix(input, 0, [], ROUND_SCAN_BYTES);
    var p := DecodeUntil(input, 0, [], ROUND_SCAN_BYTES).value;
    FindReadsPrefix(p[..ScanEnd(p)], d, 0);
  }

  method BlockRoundFull(payload: seq<byte>) returns (r: Option<u32>)
    ensures r == RoundOf(FullRoundParent(payload))
  {
    var d := Decompress(payload);
    if d.None? {
      return None;
    }
    var found := FindBlockRoundParent(d.value);
    return RoundOf(found);
  }

  method BlockRound(payload: seq<byte>) returns (r: Option<u32>)
    ensures r == RoundOf(RoundParent(payload))
    ensures Decompress(payload).Some? ==> r == RoundOf(Find(Decompress(payload).value))
  {
    if Decompress(payload).Some? {
      BoundedIsFull(payload);
    }
    if |payload| < 5 || !DeclaredSizeOk(payload) {
      r := BlockRoundFull(payload);
      return;
    }
    var buf := new byte[ROUND_SCAN_BYTES];
    var n := FirstN(payload[4..], buf);
    if n.None? {
      r := BlockRoundFull(payload);
      return;
    }
    var found := FindBlockRoundParent(buf[..n.value]);
    return RoundOf(found);
  }

  method BlockRoundParent(payload: seq<byte>) returns (r: Option<(u32, u32)>)
    ensures r == RoundParent(payload)
    ensures Decompress(payload).Some? ==> r == Find(Decompress(payload).value)
  {
    if Decompress(payload).Some? {
      BoundedIsFull(payload);
    }
    if |payload| >= 5 && DeclaredSizeOk(payload) {
      var buf := new byte[ROUND_SCAN_BYTES];
      var n := FirstN(payload[4..], buf);
      if n.Some? {
        r := FindBlockRoundParent(buf[..n.value]);
        return;
      }
    }
    var d := Decompress(payload);
    if d.None? {
      return None;
    }
    r := FindBlockRoundParent(d.value);
  }
}
