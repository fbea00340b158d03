/**
 Decoding LZ4 blocks. `Decode` is the full decoder of the LZ4 Block Format Description (section
 "Compressed block format"): a block is a list of sequences, each a token, literals and a match copy,
 ending with a sequence that has only literals. `FirstN` is the bounded decoder the gateway uses to
 read a block's header (`src/protocol.rs`, `lz4_first_n`).
 */
module Lz4 {
  import opened Primitives

  // ---- lengths ----

  // A length continued over bytes of 255; the length and where the next field starts.
  function ReadLength(input: seq<byte>, ip: nat, acc: nat): (r: Option<(nat, nat)>)
    requires ip <= |input|
    ensures r.Some? ==> ip < r.value.1 <= |input|
    decreases |input| - ip
  {
    if ip >= |input| then None
    else if input[ip] != 255 then Some((acc + input[ip], ip + 1))
    else ReadLength(input, ip + 1, acc + 255)
  }

  // A length whose nibble `n` of the token is 15 is continued.
  function Length(input: seq<byte>, ip: nat, n: nat): (r: Option<(nat, nat)>)
    requires ip <= |input|
    ensures r.Some? ==> ip <= r.value.1 <= |input|
  {
    if n == 15 then ReadLength(input, ip, 15) else Some((n, ip))
  }

  // ---- one sequence ----

  // Copy `len` bytes from `offset` back, byte by byte: the copy may read what it has just written.
  function CopyMatch(out: seq<byte>, offset: nat, len: nat): (r: seq<byte>)
    requires 0 < offset <= |out|
    ensures |r| == |out| + len && r[..|out|] == out
    decreases len
  {
    if len == 0 then out
    else
      var r := CopyMatch(out, offset, len - 1);
      r + [r[|r| - offset]]
  }

  // The literals of the sequence at `ip`: the output with them, and where the offset starts.
  function Literals(input: seq<byte>, ip: nat, out: seq<byte>): (r: Option<(seq<byte>, nat)>)
    requires ip < |input|
    ensures r.Some? ==> ip < r.value.1 <= |input|
    ensures r.Some? ==> |out| <= |r.value.0| && r.value.0[..|out|] == out
  {
    var lit := Length(input, ip + 1, input[ip] / 16);
    if lit.None? || lit.value.1 + lit.value.0 > |input| then None
    else Some((out + input[lit.value.1..lit.value.1 + lit.value.0], lit.value.1 + lit.value.0))
  }

  // A match's 16-bit little-endian offset.
  function Offset(input: seq<byte>, ip: nat): nat
    requires ip + 2 <= |input|
  {
    var lo: int, hi: int := input[ip], input[ip + 1];
    lo + 256 * hi
  }

  // The match of a sequence whose token is `token` and whose offset starts at `ip`.
  function Match(input: seq<byte>, ip: nat, token: byte, out: seq<byte>): (r: Option<(seq<byte>, nat)>)
    requires ip < |input|
    ensures r.Some? ==> ip < r.value.1 <= |input|
    ensures r.Some? ==> |out| < |r.value.0| && r.value.0[..|out|] == out
  {
    if ip + 2 > |input| then None
    else
      var offset := Offset(input, ip);
      if offset == 0 || offset > |out| then None
      else
        var len := Length(input, ip + 2, token % 16);
        if len.None? then None
        else Some((CopyMatch(out, offset, len.value.0 + 4), len.value.1))
  }

  // ---- the full decoder ----

  // Decode from `ip`, with `out` already produced. The block must end with literals.
  function DecodeFrom(input: seq<byte>, ip: nat, out: seq<byte>): (r: Option<seq<byte>>)
    requires ip <= |input|
    ensures r.Some? ==> |out| <= |r.value| && r.value[..|out|] == out
    decreases |input| - ip
  {
    if ip == |input| then None
    else
      var lits := Literals(input, ip, out);
      if lits.None? then None
      else if lits.value.1 == |input| then Some(lits.value.0)
      else
        var m := Match(input, lits.value.1, input[ip], lits.value.0);
        if m.None? then None else DecodeFrom(input, m.value.1, m.value.0)
  }

  function Decode(input: seq<byte>): Option<seq<byte>> {
    DecodeFrom(input, 0, [])
  }

  // ---- decoding no more than is asked for ----

  // Decode until at least `n` bytes are produced, or the input ends. Unlike the full decoder it does
  // not look at the rest of the block, and lets a block end with a match.
  function DecodeUntil(input: seq<byte>, ip: nat, out: seq<byte>, n: nat): Option<seq<byte>>
    requires ip <= |input|
    decreases |input| - ip
  {
    if ip == |input| then Some(out)
    else
      var lits := Literals(input, ip, out);
      if lits.None? then None
      else if |lits.value.0| > |out| && |lits.value.0| >= n then Some(lits.value.0)
      else if lits.value.1 == |input| then Some(lits.value.0)
      else
        var m := Match(input, lits.value.1, input[ip], lits.value.0);
        if m.None? then None
        else if |m.value.0| >= n then Some(m.value.0)
        else DecodeUntil(input, m.value.1, m.value.0, n)
  }

  // Where the full decoder succeeds, decoding until `n` bytes gives a prefix of its output: at least
  // `n` bytes of it, or all of it.
  lemma {:induction false} UntilIsPrefix(input: seq<byte>, ip: nat, out: seq<byte>, n: nat)
    requires ip <= |input| && DecodeFrom(input, ip, out).Some?
    ensures DecodeUntil(input, ip, out, n).Some?
    ensures var p, d := DecodeUntil(input, ip, out, n).value, DecodeFrom(input, ip, out).value;
            p <= d && (|p| >= n || p == d)
    decreases |input| - ip
  {
    var lits := Literals(input, ip, out);
    if lits.value.1 < |input| {
      var m := Match(input, lits.value.1, input[ip], lits.value.0);
      UntilIsPrefix(input, m.value.1, m.value.0, n);
    }
  }

  // ---- the bounded decoder ----

  method FirstN(input: seq<byte>, out: array<byte>) returns (r: Option<nat>)
    modifies out
    ensures Writes(r, out[..], DecodeUntil(input, 0, [], out.Length))
    // for every block the full decoder accepts: exactly the asked-for prefix of its output
    ensures Decode(input).Some? ==> Writes(r, out[..], Decode(input))
  {
    if Decode(input).Some? {
      UntilIsPrefix(input, 0, [], out.Length);
    }
    r := FirstUntil(input, out);
  }

  method FirstUntil(input: seq<byte>, out: array<byte>) returns (r: Option<nat>)
    modifies out
    ensures Writes(r, out[..], DecodeUntil(input, 0, [], out.Length))
  {
    var ip: nat, op: nat := 0, 0;
    ghost var whole := DecodeUntil(input, 0, [], out.Length);
    while ip < |input|
      invariant ip <= |input| && (op < out.Length || op == 0)
      invariant DecodeUntil(input, ip, out[..op], out.Length) == whole
      decreases |input| - ip
    {
      var next, finished := Sequence(input, ip, out, op);
      if next.None? {
        return None;
      }
      op, ip := next.value.0, next.value.1;
      if finished {
        return Some(op);
      }
    }
    return Some(op);
  }

  // Decode the sequence at `ip`: how far the output and the input then are, and whether that is all.
  method Sequence(input: seq<byte>, ip: nat, out: array<byte>, op: nat)
    returns (r: Option<(nat, nat)>, finished: bool)
    requires ip < |input| && (op < out.Length || op == 0)
    modifies out
    ensures r.None? ==> old(DecodeUntil(input, ip, out[..op], out.Length)) == None
    ensures r.Some? ==> ip < r.value.1 <= |input| && r.value.0 <= out.Length
    ensures r.Some? && finished ==> Writes(Some(r.value.0), out[..], old(DecodeUntil(input, ip, out[..op], out.Length)))
    ensures r.Some? && !finished ==>
      && r.value.0 < out.Length
      && DecodeUntil(input, r.value.1, out[..r.value.0], out.Length) == old(DecodeUntil(input, ip, out[..op], out.Length))
  {
    var n := out.Length;
    ghost var done := out[..op];
    ghost var lits := Literals(input, ip, done);
    finished := true;
    var after := LiteralsAt(input, ip, out, op, done);
    if after.None? {
      return None, finished;
    }
    var (lit, at) := after.value;
    var end := Room(out, op + lit);
    if (lit > 0 && end >= n) || at >= |input| {
      return Some((end, at)), finished;
    }
    assert out[..end] == lits.value.0;
    ghost var m := Match(input, at, input[ip], lits.value.0);
    var copied := MatchAt(input, at, input[ip], out, end, lits.value.0);
    if copied.None? {
      return None, finished;
    }
    end := Room(out, end + copied.value.0);
    finished := end >= n;
    if !finished {
      assert out[..end] == m.value.0;
    }
    return Some((end, copied.value.1)), finished;
  }

  // `r` bytes of `out` hold as much of the decoded `d` as fits; no result if there is no `d`.
  ghost predicate Writes(r: Option<nat>, out: seq<byte>, d: Option<seq<byte>>) {
    if d.None? then r == None
    else r == Some(Min(|out|, |d.value|)) && out[..r.value] == d.value[..r.value]
  }

  function Room(out: array<byte>, end: nat): nat {
    if end <= out.Length then end else out.Length
  }

  // Read and copy the literals of the sequence at `ip`: how many there are and where they end.
  method LiteralsAt(input: seq<byte>, ip: nat, out: array<byte>, op: nat, ghost done: seq<byte>)
    returns (r: Option<(nat, nat)>)
    requires ip < |input| && op <= out.Length && out[..op] == done
    modifies out
    ensures r.None? <==> Literals(input, ip, done).None?
    ensures r.Some? ==>
      && r.value.1 == Literals(input, ip, done).value.1
      && |Literals(input, ip, done).value.0| == op + r.value.0
      && out[..Room(out, op + r.value.0)] == Literals(input, ip, done).value.0[..Room(out, op + r.value.0)]
  {
    var lit := LengthAt(input, ip + 1, input[ip] / 16);
    if lit.None? {
      return None;
    }
    var (len, at) := lit.value;
    if len > 0 {
      if at + len > |input| {
        return None;
      }
      var _ := CopyLiterals(input, at, len, out, op, done);
    } else {
      assert done + input[at..at] == done;
    }
    return Some((len, at + len));
  }

  // Read and copy the match at `ip`: how long it is and where the next sequence starts.
  method MatchAt(input: seq<byte>, ip: nat, token: byte, out: array<byte>, op: nat, ghost done: seq<byte>)
    returns (r: Option<(nat, nat)>)
    requires ip < |input| && op <= out.Length && out[..op] == done
    modifies out
    ensures r.None? <==> Match(input, ip, token, done).None?
    ensures r.Some? ==>
      && r.value.1 == Match(input, ip, token, done).value.1
      && |Match(input, ip, token, done).value.0| == op + r.value.0
      && out[..Room(out, op + r.value.0)] == Match(input, ip, token, done).value.0[..Room(out, op + r.value.0)]
  {
    if ip + 2 > |input| {
      return None;
    }
    var offset := Offset(input, ip);
    if offset == 0 || offset > op {
      return None;
    }
    var len := LengthAt(input, ip + 2, token % 16);
    if len.None? {
      return None;
    }
    var _ := CopyBack(out, op, offset, len.value.0 + 4, done);
    return Some((len.value.0 + 4, len.value.1));
  }

  // The continuation loop of a length.
  method LengthAt(input: seq<byte>, ip: nat, n: nat) returns (r: Option<(nat, nat)>)
    requires ip <= |input|
    ensures r == Length(input, ip, n)
  {
    if n != 15 {
      return Some((n, ip));
    }
    var at: nat, len: nat := ip, n;
    while true
      invariant ip <= at <= |input|
      invariant ReadLength(input, at, len) == ReadLength(input, ip, 15)
      decreases |input| - at
    {
      if at >= |input| {
        return None;
      }
      var b := input[at];
      at := at + 1;
      len := len + b as int;
      if b != 255 {
        return Some((len, at));
      }
    }
  }

  // Copy as many of `lit` literals as there is room for.
  method CopyLiterals(input: seq<byte>, ip: nat, lit: nat, out: array<byte>, op: nat, ghost done: seq<byte>)
    returns (end: nat)
    requires ip + lit <= |input| && op <= out.Length && out[..op] == done
    modifies out
    ensures end == Min(out.Length, op + lit)
    ensures out[..end] == (done + input[ip..ip + lit])[..end]
  {
    var take := if lit <= out.Length - op then lit else out.Length - op;
    end := op + take;
    forall i | 0 <= i < take {
      out[op + i] := input[ip + i];
    }
    assert out[..op] == done;
  }

  // Copy a match byte by byte, as far as there is room.
  method CopyBack(out: array<byte>, op: nat, offset: nat, len: nat, ghost done: seq<byte>) returns (end: nat)
    requires 0 < offset <= op <= out.Length && out[..op] == done
    modifies out
    ensures end == Min(out.Length, op + len)
    ensures out[..end] == CopyMatch(done, offset, len)[..end]
  {
    var take := if len <= out.Length - op then len else out.Length - op;
    end := op;
    for i := 0 to take
      invariant end == op + i
      invariant out[..end] == CopyMatch(done, offset, i)
    {
      out[end] := out[end - offset];
      end := end + 1;
      assert out[..end] == CopyMatch(done, offset, i) + [CopyMatch(done, offset, i)[op + i - offset]];
    }
    CopyMatchPrefix(done, offset, take, len);
  }

  lemma {:induction false} CopyMatchPrefix(out: seq<byte>, offset: nat, k: nat, len: nat)
    requires 0 < offset <= |out| && k <= len
    ensures CopyMatch(out, offset, len)[..|out| + k] == CopyMatch(out, offset, k)
    decreases len
  {
    if k < len {
      CopyMatchPrefix(out, offset, k, len - 1);
    }
  }

  // ---- a block of literals only, as a peer may encode it ----

  function EncodeLength(n: nat): seq<byte> {
    if n < 255 then [n] else [255] + EncodeLength(n - 255)
  }

  function EncodeLiterals(d: seq<byte>): seq<byte> {
    if |d| < 15 then [16 * |d|] + d else [0xf0] + EncodeLength(|d| - 15) + d
  }

  lemma {:induction false} ReadsEncodedLength(before: seq<byte>, n: nat, after: seq<byte>, acc: nat)
    ensures ReadLength(before + EncodeLength(n) + after, |before|, acc) == Some((acc + n, |before| + |EncodeLength(n)|))
    decreases n
  {
    var input := before + EncodeLength(n) + after;
    if n >= 255 {
      ReadsEncodedLength(before + [255], n - 255, after, acc + 255);
      assert input == (before + [255]) + EncodeLength(n - 255) + after;
      assert input[|before|] == 255;
    } else {
      assert input[|before|] == n;
    }
  }

  // Every byte string is the decoding of its literals-only block.
  lemma DecodesLiterals(d: seq<byte>)
    ensures Decode(EncodeLiterals(d)) == Some(d)
  {
    var input := EncodeLiterals(d);
    if |d| >= 15 {
      ReadsEncodedLength([0xf0], |d| - 15, d, 15);
      var at := 1 + |EncodeLength(|d| - 15)|;
      assert input[at..at + |d|] == d;
      assert Literals(input, 0, []) == Some((d, |input|));
    } else {
      assert input[1..1 + |d|] == d;
      assert Literals(input, 0, []) == Some((d, |input|));
    }
  }
}
