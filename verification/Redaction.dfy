/**
 Redacting priority peers' addresses from log lines (`src/priority.rs`, `redact_with`): each listed
 address, where it stands whole, is replaced by its label, one address after another, in place.

 The reference is a single pass over the original line that replaces every whole occurrence of any
 listed address at once. The in-place rewriting computes the same: no replacement makes or breaks
 another address.
 */
module Redaction {
  import opened Primitives

  predicate IsDigit(c: char) {
    '0' <= c <= '9'
  }

  predicate IsAddressChar(c: char) {
    IsDigit(c) || c == '.'
  }

  // Digits and dots, starting with a digit, each dot followed by a digit.
  predicate DigitGroups(p: string) {
    && p != [] && IsDigit(p[0])
    && (forall i | 0 <= i < |p| :: IsAddressChar(p[i]))
    && (forall i | 0 <= i < |p| :: DotFollowed(p, i))
  }

  predicate DotFollowed(p: string, i: nat)
    requires i < |p|
  {
    p[i] == '.' ==> i + 1 < |p| && IsDigit(p[i + 1])
  }

  // A dotted address: at least two groups of digits. Every IPv4 address in text form is one.
  predicate Dotted(p: string) {
    DigitGroups(p) && exists i :: 0 <= i < |p| && p[i] == '.'
  }

  predicate AllDotted(peers: seq<string>) {
    forall i | 0 <= i < |peers| :: Dotted(peers[i])
  }

  function Decimal(n: nat): (s: string)
    ensures s != [] && forall i | 0 <= i < |s| :: IsDigit(s[i])
  {
    if n < 10 then [('0' as int + n) as char] else Decimal(n / 10) + [('0' as int + n % 10) as char]
  }

  lemma JoinDotted(p: string, g: string)
    requires DigitGroups(p) && g != [] && forall i | 0 <= i < |g| :: IsDigit(g[i])
    ensures Dotted(p + "." + g)
  {
    var s := p + "." + g;
    assert forall i | 0 <= i < |p| :: s[i] == p[i];
    assert s[|p|] == '.';
    assert forall i | |p| < i < |s| :: s[i] == g[i - |p| - 1];
    forall i | 0 <= i < |s| ensures DotFollowed(s, i) {
      if i < |p| {
        assert DotFollowed(p, i);
      }
    }
  }

  predicate Digits(g: string) {
    g != [] && forall i | 0 <= i < |g| :: IsDigit(g[i])
  }

  lemma FourGroups(a: string, b: string, c: string, d: string)
    requires Digits(a) && Digits(b) && Digits(c) && Digits(d)
    ensures Dotted(a + "." + b + "." + c + "." + d)
  {
    JoinDotted(a, b);
    JoinDotted(a + "." + b, c);
    JoinDotted(a + "." + b + "." + c, d);
  }

  lemma {:induction false} IPv4IsDotted(a: byte, b: byte, c: byte, d: byte)
    ensures Dotted(Decimal(a) + "." + Decimal(b) + "." + Decimal(c) + "." + Decimal(d))
  {
    FourGroups(Decimal(a), Decimal(b), Decimal(c), Decimal(d));
  }

  // The label of the `i`th peer.
  function Label(i: nat): string {
    "prio-" + Decimal(i + 1)
  }

  // ---- whole occurrences ----

  predicate At(s: string, p: string, pos: nat) {
    pos + |p| <= |s| && forall i | 0 <= i < |p| :: s[pos + i] == p[i]
  }

  predicate BeforeOk(s: string, pos: nat)
    requires pos <= |s|
  {
    pos == 0 || !IsAddressChar(s[pos - 1])
  }

  predicate AfterOk(s: string, end: nat)
    requires end <= |s|
  {
    || end == |s|
    || (!IsDigit(s[end]) && (s[end] == '.' ==> end + 1 == |s| || !IsDigit(s[end + 1])))
  }

  // `p` occurs at `pos`, not glued to more of an address on either side.
  predicate WholeAt(s: string, p: string, pos: nat) {
    At(s, p, pos) && BeforeOk(s, pos) && AfterOk(s, pos + |p|)
  }

  ghost predicate NoWhole(s: string, p: string) {
    forall pos: nat :: !WholeAt(s, p, pos)
  }

  lemma AtChar(s: string, p: string, pos: nat, i: nat)
    requires At(s, p, pos) && i < |p|
    ensures s[pos + i] == p[i]
  {
    assert s[pos..pos + |p|][i] == s[pos + i];
  }

  lemma NotAt(s: string, p: string, pos: nat, i: nat)
    requires i < |p| && pos + i < |s| && s[pos + i] != p[i]
    ensures !At(s, p, pos)
  {
    if pos + |p| <= |s| {
      assert s[pos..pos + |p|][i] == s[pos + i];
    }
  }

  // No two different addresses stand whole at the same place.
  lemma WholeUnique(s: string, p: string, q: string, pos: nat)
    requires Dotted(p) && Dotted(q) && WholeAt(s, p, pos) && WholeAt(s, q, pos)
    ensures p == q
  {
    if |p| < |q| {
      PrefixNotWhole(s, p, q, pos);
      assert false;
    } else if |q| < |p| {
      PrefixNotWhole(s, q, p, pos);
      assert false;
    }
  }

  // Where a longer address stands, a shorter one is glued to the rest of it.
  lemma PrefixNotWhole(s: string, p: string, q: string, pos: nat)
    requires Dotted(q) && At(s, q, pos) && |p| < |q|
    ensures !WholeAt(s, p, pos)
  {
    AtChar(s, q, pos, |p|);
    assert DotFollowed(q, |p|);
    if q[|p|] == '.' {
      AtChar(s, q, pos, |p| + 1);
    }
  }

  // ---- the reference: all at once ----

  // The first peer that stands whole at `pos`, from the `i`th on.
  function FirstWhole(s: string, peers: seq<string>, pos: nat, i: nat): (r: Option<nat>)
    ensures r.Some? ==> i <= r.value < |peers| && WholeAt(s, peers[r.value], pos)
    decreases |peers| - i
  {
    if i >= |peers| then None
    else if WholeAt(s, peers[i], pos) then Some(i)
    else FirstWhole(s, peers, pos, i + 1)
  }

  // A line being written.
  datatype Line = Line(text: string) {
    function Plus(more: string): Line {
      Line(text + more)
    }
  }

  // What to put in place of the `len` characters at some place.
  datatype Hit = Hit(len: nat, text: string)

  function HitAt(s: string, peers: seq<string>, pos: nat): Option<Hit> {
    var i := FirstWhole(s, peers, pos, 0);
    if i.Some? then Some(Hit(|peers[i.value]|, Label(i.value))) else None
  }

  function Hits(s: string, peers: seq<string>): (h: seq<Option<Hit>>)
    ensures |h| == |s|
  {
    seq(|s|, pos requires 0 <= pos => HitAt(s, peers, pos))
  }

  function Piece(s: string, h: seq<Option<Hit>>, pos: nat): string
    requires |h| == |s| && pos < |s|
  {
    if h[pos].Some? && h[pos].value.len > 0 then h[pos].value.text else [s[pos]]
  }

  function Advance(h: Option<Hit>): (n: nat)
    ensures n > 0
  {
    if h.Some? && h.value.len > 0 then h.value.len else 1
  }

  // `out`, then the line from `pos` on, every hit replaced.
  function Rendered(s: string, h: seq<Option<Hit>>, pos: nat, out: Line): Line
    requires |h| == |s|
    decreases |s| - pos
  {
    if pos >= |s| then out else Rendered(s, h, pos + Advance(h[pos]), out.Plus(Piece(s, h, pos)))
  }

  function Redacted(s: string, peers: seq<string>): string {
    Rendered(s, Hits(s, peers), 0, Line([])).text
  }

  lemma {:induction false} FirstWholeNone(s: string, peers: seq<string>, pos: nat, i: nat)
    requires forall j | i <= j < |peers| :: !WholeAt(s, peers[j], pos)
    ensures FirstWhole(s, peers, pos, i).None?
    decreases |peers| - i
  {
    if i < |peers| {
      FirstWholeNone(s, peers, pos, i + 1);
    }
  }

  lemma {:induction false} FirstWholeIs(s: string, peers: seq<string>, pos: nat, i: nat, f: nat)
    requires i <= f < |peers| && WholeAt(s, peers[f], pos)
    requires forall j | i <= j < f :: !WholeAt(s, peers[j], pos)
    ensures FirstWhole(s, peers, pos, i) == Some(f)
    decreases f - i
  {
    if i < f {
      FirstWholeIs(s, peers, pos, i + 1, f);
    }
  }

  // Where nothing is hit, the text stays.
  lemma {:induction false} TextStays(s: string, h: seq<Option<Hit>>, i: nat, n: nat, out: Line)
    requires |h| == |s| && i + n <= |s|
    requires forall k | i <= k < i + n :: h[k].None?
    ensures Rendered(s, h, i, out) == Rendered(s, h, i + n, out.Plus(s[i..i + n]))
    decreases n
  {
    if n == 0 {
      assert out.text + s[i..i + n] == out.text;
    } else {
      TextStays(s, h, i + 1, n - 1, out.Plus([s[i]]));
      assert out.text + s[i..i + n] == out.text + [s[i]] + s[i + 1..i + n];
      assert Piece(s, h, i) == [s[i]];
    }
  }

  lemma NothingToRedact(s: string, peers: seq<string>)
    requires forall j | 0 <= j < |peers| :: NoWhole(s, peers[j])
    ensures Redacted(s, peers) == s
  {
    var h := Hits(s, peers);
    forall k | 0 <= k < |s| ensures h[k].None? {
      FirstWholeNone(s, peers, k, 0);
    }
    TextStays(s, h, 0, |s|, Line([]));
    assert [] + s[0..|s|] == s;
  }

  // ---- one replacement ----

  // `s` with the whole occurrence of `p` after `a` replaced by `l`.
  ghost predicate Replaces(s: string, s': string, a: string, p: string, l: string, b: string) {
    && s == a + p + b && s' == a + l + b
    && Dotted(p) && WholeAt(s, p, |a|)
    && IsLabel(l)
  }

  // A label: letters and a dash, then digits.
  ghost predicate IsLabel(l: string) {
    && |l| > 5 && l[..5] == "prio-"
    && forall i | 5 <= i < |l| :: IsDigit(l[i])
  }

  lemma LabelIsLabel(i: nat)
    ensures IsLabel(Label(i))
  {
    assert Label(i)[..5] == "prio-";
    assert forall k | 5 <= k < |Label(i)| :: Label(i)[k] == Decimal(i + 1)[k - 5];
  }

  // An address cannot run across a character that is not part of one.
  lemma StopsBefore(s: string, q: string, j: nat, stop: nat)
    requires Dotted(q) && At(s, q, j) && j <= stop < |s| && !IsAddressChar(s[stop])
    ensures j + |q| <= stop
  {
    if j + |q| > stop {
      AtChar(s, q, j, stop - j);
    }
  }

  // Before the replacement, the same addresses stand whole.
  lemma WholeBefore(s: string, s': string, a: string, p: string, l: string, b: string, q: string, j: nat)
    requires Replaces(s, s', a, p, l, b) && Dotted(q) && j < |a|
    ensures WholeAt(s, q, j) <==> WholeAt(s', q, j)
    ensures WholeAt(s, q, j) ==> j + |q| <= |a|
  {
    var stop := |a| - 1;
    assert s[stop] == a[stop] == s'[stop];
    if At(s, q, j) {
      StopsBefore(s, q, j, stop);
      assert s[j..j + |q|] == a[j..j + |q|] == s'[j..j + |q|];
    }
    if At(s', q, j) {
      StopsBefore(s', q, j, stop);
      assert s[j..j + |q|] == a[j..j + |q|] == s'[j..j + |q|];
    }
  }

  lemma SameAfter(s: string, s': string, a: string, p: string, l: string, b: string, k: nat)
    requires s == a + p + b && s' == a + l + b && k <= |b|
    ensures AfterOk(s, |a| + |p| + k) == AfterOk(s', |a| + |l| + k)
  {
    if k < |b| {
      assert s[|a| + |p| + k] == b[k] == s'[|a| + |l| + k];
      if k + 1 < |b| {
        assert s[|a| + |p| + k + 1] == b[k + 1] == s'[|a| + |l| + k + 1];
      }
    }
  }

  // After it, too.
  lemma WholeAfter(s: string, s': string, a: string, p: string, l: string, b: string, q: string, k: nat)
    requires Replaces(s, s', a, p, l, b)
    ensures WholeAt(s, q, |a| + |p| + k) <==> WholeAt(s', q, |a| + |l| + k)
  {
    var i, i' := |a| + |p| + k, |a| + |l| + k;
    if k + |q| <= |b| {
      assert At(s, q, i) == At(b, q, k) == At(s', q, i');
      if k == 0 {
        assert s[i - 1] == p[|p| - 1] && IsAddressChar(p[|p| - 1]);
        assert s'[i' - 1] == l[|l| - 1];
      } else {
        assert s[i - 1] == b[k - 1] == s'[i' - 1];
      }
      SameAfter(s, s', a, p, l, b, k + |q|);
    }
  }

  // No address starts in the label.
  lemma LabelInert(s: string, s': string, a: string, p: string, l: string, b: string, q: string, m: nat)
    requires Replaces(s, s', a, p, l, b) && Dotted(q) && m < |l|
    ensures !At(s', q, |a| + m)
  {
    if m < 5 {
      assert s'[|a| + m] == l[m] == l[..5][m] == "prio-"[m];
      NotAt(s', q, |a| + m, 0);
    } else {
      LabelDigitsInert(s, s', a, p, l, b, q, m);
    }
  }

  // One starting in the label's digits would need its first dot right after the label, but there no
  // digit follows a dot.
  lemma LabelDigitsInert(s: string, s': string, a: string, p: string, l: string, b: string, q: string, m: nat)
    requires Replaces(s, s', a, p, l, b) && Dotted(q) && 5 <= m < |l|
    ensures !At(s', q, |a| + m)
  {
    var d :| 0 <= d < |q| && q[d] == '.';
    var e := |l| - m;
    if d < e {
      assert s'[|a| + m + d] == l[m + d];
      NotAt(s', q, |a| + m, d);
    } else if b != [] {
      assert DotFollowed(q, e);
      assert s'[|a| + m + e] == b[0] == s[|a| + |p|];
      if b[0] != q[e] {
        NotAt(s', q, |a| + m, e);
      } else if |b| > 1 {
        assert s'[|a| + m + e + 1] == b[1] == s[|a| + |p| + 1];
        NotAt(s', q, |a| + m, e + 1);
      }
    }
  }

  lemma NoWholeKept(s: string, s': string, a: string, p: string, l: string, b: string, q: string)
    requires Replaces(s, s', a, p, l, b) && Dotted(q) && NoWhole(s, q)
    ensures NoWhole(s', q)
  {
    forall j: nat ensures !WholeAt(s', q, j) {
      if j < |a| {
        WholeBefore(s, s', a, p, l, b, q, j);
      } else if j < |a| + |l| {
        LabelInert(s, s', a, p, l, b, q, j - |a|);
      } else {
        WholeAfter(s, s', a, p, l, b, q, j - |a| - |l|);
      }
    }
  }

  // ---- a replacement leaves the reference unchanged ----

  // The same character and the same hit, `k` after `i` and `k` after `i'`.
  ghost predicate SameAt(s: string, h: seq<Option<Hit>>, s': string, h': seq<Option<Hit>>, i: nat, i': nat, k: nat)
    requires |h| == |s| && |h'| == |s'|
  {
    i + k < |s| && i' + k < |s'| && s[i + k] == s'[i' + k] && h[i + k] == h'[i' + k]
  }

  lemma {:induction false} SameTails(s: string, h: seq<Option<Hit>>, s': string, h': seq<Option<Hit>>,
                                     i: nat, i': nat, n: nat, k: nat, out: Line)
    requires |h| == |s| == i + n && |h'| == |s'| == i' + n
    requires forall j | 0 <= j < n :: SameAt(s, h, s', h', i, i', j)
    ensures Rendered(s, h, i + k, out) == Rendered(s', h', i' + k, out)
    decreases n - k
  {
    if k < n {
      assert SameAt(s, h, s', h', i, i', k);
      SameTails(s, h, s', h', i, i', n, k + Advance(h[i + k]), out.Plus(Piece(s, h, i + k)));
    }
  }

  // Replacing the `n` characters hit at `x` by their text, where the text itself holds no hit and no
  // hit before reaches it.
  lemma {:induction false} SameRendering(s: string, h: seq<Option<Hit>>, s': string, h': seq<Option<Hit>>,
                                         x: nat, n: nat, l: string, y: nat, y': nat, m: nat, j: nat, out: Line)
    requires y == x + n && y' == x + |l| && n > 0 && j <= x
    requires |h| == |s| == y + m && |h'| == |s'| == y' + m
    requires h[x] == Some(Hit(n, l))
    requires forall k | 0 <= k < x :: SameAt(s, h, s', h', 0, 0, k) && k + Advance(h[k]) <= x
    requires s'[x..y'] == l && forall k | x <= k < y' :: h'[k].None?
    requires forall k | 0 <= k < m :: SameAt(s, h, s', h', y, y', k)
    ensures Rendered(s, h, j, out) == Rendered(s', h', j, out)
    decreases x - j
  {
    if j < x {
      assert SameAt(s, h, s', h', 0, 0, j);
      SameRendering(s, h, s', h', x, n, l, y, y', m, j + Advance(h[j]), out.Plus(Piece(s, h, j)));
    } else {
      LabelRendered(s', h', x, l, out);
      SameFromHit(s, h, s', h', x, n, l, y, y', m, out);
    }
  }

  lemma {:induction false} LabelRendered(s: string, h: seq<Option<Hit>>, x: nat, l: string, out: Line)
    requires |h| == |s| && x + |l| <= |s| && s[x..x + |l|] == l
    requires forall k | x <= k < x + |l| :: h[k].None?
    ensures Rendered(s, h, x, out) == Rendered(s, h, x + |l|, out.Plus(l))
  {
    TextStays(s, h, x, |l|, out);
  }

  lemma {:induction false} SameFromHit(s: string, h: seq<Option<Hit>>, s': string, h': seq<Option<Hit>>,
                    x: nat, n: nat, l: string, y: nat, y': nat, m: nat, out: Line)
    requires y == x + n && y' == x + |l| && n > 0
    requires |h| == |s| == y + m && |h'| == |s'| == y' + m
    requires h[x] == Some(Hit(n, l))
    requires Rendered(s', h', x, out) == Rendered(s', h', y', out.Plus(l))
    requires forall k | 0 <= k < m :: SameAt(s, h, s', h', y, y', k)
    ensures Rendered(s, h, x, out) == Rendered(s', h', x, out)
  {
    SameTails(s, h, s', h', y, y', m, 0, out.Plus(l));
    HitRendered(s, h, x, n, l, out);
  }

  lemma {:induction false} HitRendered(s: string, h: seq<Option<Hit>>, x: nat, n: nat, l: string, out: Line)
    requires |h| == |s| && n > 0 && x < |s| && h[x] == Some(Hit(n, l))
    ensures Rendered(s, h, x, out) == Rendered(s, h, x + n, out.Plus(l))
  {
  }

  lemma {:induction false} SameFirstAfter(s: string, s': string, a: string, p: string, l: string, b: string,
                                          peers: seq<string>, k: nat, i: nat)
    requires Replaces(s, s', a, p, l, b)
    ensures FirstWhole(s, peers, |a| + |p| + k, i) == FirstWhole(s', peers, |a| + |l| + k, i)
    decreases |peers| - i
  {
    if i < |peers| {
      WholeAfter(s, s', a, p, l, b, peers[i], k);
      SameFirstAfter(s, s', a, p, l, b, peers, k, i + 1);
    }
  }

  lemma {:induction false} SameFirstBefore(s: string, s': string, a: string, p: string, l: string, b: string,
                                           peers: seq<string>, j: nat, i: nat)
    requires Replaces(s, s', a, p, l, b) && AllDotted(peers) && j < |a|
    ensures FirstWhole(s, peers, j, i) == FirstWhole(s', peers, j, i)
    ensures FirstWhole(s, peers, j, i).Some? ==> j + |peers[FirstWhole(s, peers, j, i).value]| <= |a|
    decreases |peers| - i
  {
    if i < |peers| {
      WholeBefore(s, s', a, p, l, b, peers[i], j);
      SameFirstBefore(s, s', a, p, l, b, peers, j, i + 1);
    }
  }

  lemma HitsBefore(s: string, s': string, a: string, p: string, l: string, b: string, peers: seq<string>, k: nat)
    requires Replaces(s, s', a, p, l, b) && AllDotted(peers) && k < |a|
    ensures SameAt(s, Hits(s, peers), s', Hits(s', peers), 0, 0, k)
    ensures k + Advance(Hits(s, peers)[k]) <= |a|
  {
    SameFirstBefore(s, s', a, p, l, b, peers, k, 0);
    assert s[k] == a[k] == s'[k];
  }

  lemma HitsAfter(s: string, s': string, a: string, p: string, l: string, b: string, peers: seq<string>, k: nat)
    requires Replaces(s, s', a, p, l, b) && k < |b|
    ensures SameAt(s, Hits(s, peers), s', Hits(s', peers), |a| + |p|, |a| + |l|, k)
  {
    SameFirstAfter(s, s', a, p, l, b, peers, k, 0);
    assert s[|a| + |p| + k] == b[k] == s'[|a| + |l| + k];
  }

  lemma NoHitInLabel(s: string, s': string, a: string, p: string, l: string, b: string, peers: seq<string>)
    requires Replaces(s, s', a, p, l, b) && AllDotted(peers)
    ensures forall k | |a| <= k < |a| + |l| :: Hits(s', peers)[k].None?
  {
    forall k | |a| <= k < |a| + |l| ensures HitAt(s', peers, k).None? {
      forall j | 0 <= j < |peers| ensures !WholeAt(s', peers[j], k) {
        LabelInert(s, s', a, p, l, b, peers[j], k - |a|);
      }
      FirstWholeNone(s', peers, k, 0);
    }
  }

  lemma SameRedaction(s: string, s': string, a: string, b: string, peers: seq<string>, i: nat)
    requires i < |peers| && Replaces(s, s', a, peers[i], Label(i), b) && AllDotted(peers)
    requires forall k | 0 <= k < i :: !WholeAt(s, peers[k], |a|)
    ensures Redacted(s, peers) == Redacted(s', peers)
  {
    var p, l := peers[i], Label(i);
    var h, h' := Hits(s, peers), Hits(s', peers);
    FirstWholeIs(s, peers, |a|, 0, i);
    forall k | 0 <= k < |a| ensures SameAt(s, h, s', h', 0, 0, k) && k + Advance(h[k]) <= |a| {
      HitsBefore(s, s', a, p, l, b, peers, k);
    }
    NoHitInLabel(s, s', a, p, l, b, peers);
    var y, y' := |a| + |p|, |a| + |l|;
    forall k | 0 <= k < |b| ensures SameAt(s, h, s', h', y, y', k) {
      HitsAfter(s, s', a, p, l, b, peers, k);
    }
    SameRendering(s, h, s', h', |a|, |p|, l, y, y', |b|, 0, Line([]));
  }

  // ---- the rewriting, one address at a time ----

  function Find(s: string, p: string, from: nat): (r: Option<nat>)
    ensures r.Some? ==> from <= r.value && At(s, p, r.value) && forall k | from <= k < r.value :: !At(s, p, k)
    ensures r.None? ==> forall k | from <= k :: !At(s, p, k)
    decreases |s| - from
  {
    if from + |p| > |s| then None
    else if At(s, p, from) then Some(from)
    else Find(s, p, from + 1)
  }

  function ReplaceAt(s: string, pos: nat, end: nat, l: string): string
    requires pos <= end <= |s|
  {
    s[..pos] + l + s[end..]
  }

  // No listed address before the `i`th stands whole anywhere.
  ghost predicate Done(s: string, peers: seq<string>, i: nat) {
    forall j | 0 <= j < i && j < |peers| :: NoWhole(s, peers[j])
  }

  ghost predicate NoneBefore(s: string, p: string, n: nat) {
    forall k: nat | k < n :: !WholeAt(s, p, k)
  }

  lemma NoneLeft(s: string, p: string, from: nat)
    requires NoneBefore(s, p, from) && Find(s, p, from).None?
    ensures NoWhole(s, p)
  {
    forall k: nat ensures !WholeAt(s, p, k) {
      if k >= from {
        assert !At(s, p, k);
      }
    }
  }

  lemma {:induction false} NoneUpTo(s: string, p: string, from: nat)
    requires NoneBefore(s, p, from) && Find(s, p, from).Some?
    ensures NoneBefore(s, p, Find(s, p, from).value)
    ensures !WholeAt(s, p, Find(s, p, from).value) ==> NoneBefore(s, p, Find(s, p, from).value + 1)
  {
    forall k: nat | k < Find(s, p, from).value ensures !WholeAt(s, p, k) {
      if k >= from {
        assert !At(s, p, k);
      }
    }
  }

  lemma ReplacementKeeps(s: string, peers: seq<string>, i: nat, pos: nat)
    requires AllDotted(peers) && i < |peers| && Done(s, peers, i) && WholeAt(s, peers[i], pos)
    requires NoneBefore(s, peers[i], pos)
    ensures var s' := ReplaceAt(s, pos, pos + |peers[i]|, Label(i));
            && Done(s', peers, i)
            && NoneBefore(s', peers[i], pos + |Label(i)|)
            && Redacted(s', peers) == Redacted(s, peers)
  {
    var p, l := peers[i], Label(i);
    var a, b, s' := s[..pos], s[pos + |p|..], ReplaceAt(s, pos, pos + |p|, l);
    LabelIsLabel(i);
    assert s == a + p + b;
    assert Replaces(s, s', a, p, l, b);
    forall j | 0 <= j < i && j < |peers| ensures NoWhole(s', peers[j]) {
      NoWholeKept(s, s', a, p, l, b, peers[j]);
    }
    NoneUpToLabel(s, s', a, p, l, b);
    SameRedaction(s, s', a, b, peers, i);
  }

  lemma NoneUpToLabel(s: string, s': string, a: string, p: string, l: string, b: string)
    requires Replaces(s, s', a, p, l, b) && NoneBefore(s, p, |a|)
    ensures NoneBefore(s', p, |a| + |l|)
  {
    forall k: nat | k < |a| + |l| ensures !WholeAt(s', p, k) {
      if k < |a| {
        WholeBefore(s, s', a, p, l, b, p, k);
      } else {
        LabelInert(s, s', a, p, l, b, p, k - |a|);
      }
    }
  }

  // The occurrences of one address. Each turn leaves less of the line ahead of it, however long the
  // label is.
  method RedactPeer(s: string, peers: seq<string>, i: nat) returns (out: string)
    requires AllDotted(peers) && i < |peers| && Done(s, peers, i)
    ensures Done(out, peers, i + 1)
    ensures Redacted(out, peers) == Redacted(s, peers)
  {
    var p, name := peers[i], Label(i);
    ghost var want := Redacted(s, peers);
    out := s;
    var from: nat := 0;
    while true
      invariant Done(out, peers, i) && NoneBefore(out, p, from)
      invariant Redacted(out, peers) == want
      decreases |out| - from
    {
      var found := Find(out, p, from);
      if found.None? {
        NoneLeft(out, p, from);
        break;
      }
      NoneUpTo(out, p, from);
      var pos := found.value;
      if WholeAt(out, p, pos) {
        ReplacementKeeps(out, peers, i, pos);
        out := ReplaceAt(out, pos, pos + |p|, name);
        from := pos + |name|;
      } else {
        from := pos + 1;
      }
    }
  }

  method RedactWith(line: string, peers: seq<string>) returns (out: string)
    requires AllDotted(peers)
    ensures out == Redacted(line, peers) == Redacted(out, peers)
    ensures forall j | 0 <= j < |peers| :: NoWhole(out, peers[j])
  {
    if forall i | 0 <= i < |peers| :: Find(line, peers[i], 0).None? {
      out := line;
    } else {
      out := line;
      for i := 0 to |peers|
        invariant Done(out, peers, i)
        invariant Redacted(out, peers) == Redacted(line, peers)
      {
        out := RedactPeer(out, peers, i);
      }
    }
    NothingToRedact(out, peers);
  }
}
