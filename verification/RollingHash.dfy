/** The rolling window hash of one region, and why it equals hashing every window from scratch. */
module WrappingArithmetic {
  import opened Base

  const TWO_64: int := 0x1_0000_0000_0000_0000

  /** The value a 64-bit register holds after an exact result `x` wraps around. */
  function Wrap(x: int): u64 {
    x % TWO_64
  }

  lemma {:induction false} WrapShift(x: int, k: int)
    ensures Wrap(x + TWO_64 * k) == Wrap(x)
  {
  }

  lemma {:induction false} WrapOfProduct(a: int, b: int)
    ensures Wrap(Wrap(a) * b) == Wrap(a * b)
  {
    var q, r := a / TWO_64, a % TWO_64;
    assert a == TWO_64 * q + r;
    assert a * b == r * b + TWO_64 * (q * b);
    WrapShift(r * b, q * b);
  }

  lemma {:induction false} WrapOfSum(a: int, b: int)
    ensures Wrap(Wrap(a) + b) == Wrap(a + b)
  {
    WrapShift(a % TWO_64 + b, a / TWO_64);
  }

  lemma {:induction false} WrapOfDifference(a: int, b: int)
    ensures Wrap(Wrap(a) - Wrap(b)) == Wrap(a - b)
  {
    WrapShift(a % TWO_64 - b % TWO_64, a / TWO_64 - b / TWO_64);
  }
}

module RollingHash {
  import opened Base
  import opened WrappingArithmetic

  const ROLLING_BASE: int := 0x0000_0100_0000_01b3

  function Power(n: nat): int {
    if n == 0 then 1 else ROLLING_BASE * Power(n - 1)
  }

  /** A byte counts one higher than its value, so that leading zeros matter. */
  function Value(b: u8): int {
    b as int + 1
  }

  /** The polynomial over all bytes before wrapping. */
  function Polynomial(s: bytes): int {
    if s == [] then 0 else Polynomial(s[..|s| - 1]) * ROLLING_BASE + Value(s[|s| - 1])
  }

  /** The hash of one window, from scratch. */
  function WindowHash(s: bytes): u64 {
    Wrap(Polynomial(s))
  }

  lemma {:induction false} PolynomialOfFirst(x: u8, s: bytes)
    ensures Polynomial([x] + s) == Value(x) * Power(|s|) + Polynomial(s)
  {
    if s == [] {
      assert [x] + s == [x] && [x][..0] == [];
    } else {
      var n := |s| - 1;
      assert ([x] + s)[..|s|] == [x] + s[..n];
      PolynomialOfFirst(x, s[..n]);
      assert (Value(x) * Power(n) + Polynomial(s[..n])) * ROLLING_BASE
             == Value(x) * (ROLLING_BASE * Power(n)) + Polynomial(s[..n]) * ROLLING_BASE;
    }
  }

  /** Moving the window one byte on, on exact values. */
  lemma {:induction false} PolynomialSlides(window: bytes, byte: u8)
    requires window != []
    ensures Polynomial(window[1..] + [byte])
            == Polynomial(window) * ROLLING_BASE + Value(byte) - Value(window[0]) * Power(|window|)
  {
    var longer := window + [byte];
    assert longer[..|window|] == window;
    assert longer == [window[0]] + (window[1..] + [byte]);
    PolynomialOfFirst(window[0], window[1..] + [byte]);
  }

  /** What the register computes: multiply, add, subtract, each wrapping. */
  function Roll(hash: u64, removed: int, basePower: u64, added: int): u64 {
    Wrap(Wrap(Wrap(hash * ROLLING_BASE) + added) - Wrap(removed * basePower))
  }

  lemma {:induction false} RollIsExact(polynomial: int, removed: int, power: int, added: int)
    ensures Roll(Wrap(polynomial), removed, Wrap(power), added)
            == Wrap(polynomial * ROLLING_BASE + added - removed * power)
  {
    WrapOfProduct(polynomial, ROLLING_BASE);
    WrapOfSum(polynomial * ROLLING_BASE, added);
    WrapOfProduct(power, removed);
    assert Wrap(Wrap(power) * removed) == Wrap(removed * Wrap(power));
    WrapOfDifference(polynomial * ROLLING_BASE + added, removed * power);
  }

  lemma {:induction false} RollSlides(window: bytes, byte: u8)
    requires window != []
    ensures Roll(WindowHash(window), Value(window[0]), Wrap(Power(|window|)), Value(byte))
            == WindowHash(window[1..] + [byte])
  {
    PolynomialSlides(window, byte);
    RollIsExact(Polynomial(window), Value(window[0]), Power(|window|), Value(byte));
  }

  lemma {:induction false} GrowWindow(s: bytes, byte: u8)
    ensures Wrap(Wrap(WindowHash(s) * ROLLING_BASE) + Value(byte)) == WindowHash(s + [byte])
  {
    assert (s + [byte])[..|s|] == s;
    WrapOfProduct(Polynomial(s), ROLLING_BASE);
    WrapOfSum(Polynomial(s) * ROLLING_BASE, Value(byte));
  }

  /** The largest hash of any `w` consecutive bytes; 0 when there are none. */
  function Maximum(s: bytes, w: nat): u64 {
    if w == 0 || |s| < w then 0
    else if |s| == w then WindowHash(s)
    else
      var before, last := Maximum(s[..|s| - 1], w), WindowHash(s[|s| - w..]);
      if last > before then last else before
  }

  function WindowAt(s: bytes, w: nat, k: nat): u64
    requires k + w <= |s|
  {
    WindowHash(s[k..k + w])
  }

  lemma {:induction false} FrontWindow(s: bytes, w: nat, k: nat)
    requires k + w < |s|
    ensures WindowAt(s[..|s| - 1], w, k) == WindowAt(s, w, k)
  {
    assert s[..|s| - 1][k..k + w] == s[k..k + w];
  }

  lemma {:induction false} LastWindow(s: bytes, w: nat)
    requires w <= |s|
    ensures WindowAt(s, w, |s| - w) == WindowHash(s[|s| - w..])
  {
    assert s[|s| - w..|s|] == s[|s| - w..];
  }

  ghost predicate IsGreatest(s: bytes, w: nat, maximum: u64)
    requires w <= |s|
  {
    && (forall k | 0 <= k <= |s| - w :: WindowAt(s, w, k) <= maximum)
    && exists k :: 0 <= k <= |s| - w && WindowAt(s, w, k) == maximum
  }

  lemma {:induction false} GreatestOfOneMore(s: bytes, w: nat, before: u64, last: u64)
    requires 0 < w < |s| && IsGreatest(s[..|s| - 1], w, before) && last == WindowAt(s, w, |s| - w)
    ensures IsGreatest(s, w, if last > before then last else before)
  {
    var front := s[..|s| - 1];
    forall k | 0 <= k < |s| - w ensures WindowAt(s, w, k) <= before {
      FrontWindow(s, w, k);
      assert WindowAt(front, w, k) <= before;
    }
    var k :| 0 <= k <= |front| - w && WindowAt(front, w, k) == before;
    FrontWindow(s, w, k);
  }

  /** It is the maximum: attained by some window, and no window exceeds it. */
  lemma {:induction false} MaximumIsGreatest(s: bytes, w: nat)
    requires 0 < w <= |s|
    ensures IsGreatest(s, w, Maximum(s, w))
  {
    LastWindow(s, w);
    if |s| == w {
      assert s[0..] == s;
      assert WindowAt(s, w, 0) == Maximum(s, w);
    } else {
      var before, last := Maximum(s[..|s| - 1], w), WindowHash(s[|s| - w..]);
      MaximumIsGreatest(s[..|s| - 1], w);
      GreatestOfOneMore(s, w, before, last);
    }
  }

  // ----- RollingRegion -----

  /** The window bytes in order: the ring from its cursor on, then from its start. */
  function Unrolled(ring: bytes, cursor: nat): bytes
    requires cursor <= |ring|
  {
    ring[cursor..] + ring[..cursor]
  }

  lemma {:induction false} NextCursor(cursor: nat, n: nat)
    requires cursor < n
    ensures (cursor + 1) % n == if cursor + 1 == n then 0 else cursor + 1
  {
  }

  /** A ring in three parts: what is before the cursor, the byte there, and what follows. */
  lemma {:induction false} RingParts(before: bytes, x: u8, after: bytes, ring: bytes)
    requires ring == before + [x] + after
    ensures Unrolled(ring, |before|) == [x] + (after + before) && ring[|before|] == x
  {
    assert ring[|before|..] == [x] + after && ring[..|before|] == before;
  }

  lemma {:induction false} RingSlides(ring: bytes, cursor: nat, byte: u8, next: nat)
    requires cursor < |ring| && next == if cursor + 1 == |ring| then 0 else cursor + 1
    ensures ring[cursor] == Unrolled(ring, cursor)[0]
    ensures Unrolled(ring[cursor := byte], next) == Unrolled(ring, cursor)[1..] + [byte]
  {
    var before, after := ring[..cursor], ring[cursor + 1..];
    RingParts(before, ring[cursor], after, ring);
    var longer := before + [byte];
    assert ring[cursor := byte] == longer + after;
    if after == [] {
      assert Unrolled(longer, 0) == longer;
    } else {
      assert longer + after == longer + [after[0]] + after[1..];
      RingParts(longer, after[0], after[1..], longer + after);
      assert [after[0]] + (after[1..] + longer) == after + longer;
    }
  }

  /** The ring holds the last `window` bytes seen, and the hash is theirs; before that, all bytes seen. */
  predicate RingOk(window: nat, seen: bytes, ring: bytes, cursor: nat, hash: u64) {
    if |seen| < window then ring == seen && cursor == 0 && hash == WindowHash(seen)
    else
      && |ring| == window && (if window == 0 then cursor == 0 else cursor < window)
      && Unrolled(ring, cursor) == seen[|seen| - window..]
      && hash == WindowHash(seen[|seen| - window..])
  }

  /** While the ring fills, the byte is appended; the first full window is also the first maximum. */
  lemma {:induction false} RingFills(window: nat, seen: bytes, ring: bytes, cursor: nat, hash: u64, byte: u8,
                                     hash': u64)
    requires RingOk(window, seen, ring, cursor, hash) && |ring| < window
    requires hash' == Wrap(Wrap(hash * ROLLING_BASE) + Value(byte))
    ensures |seen| < window && RingOk(window, seen + [byte], ring + [byte], cursor, hash')
    ensures Maximum(seen, window) == 0
    ensures Maximum(seen + [byte], window) == if |ring| + 1 == window then hash' else 0
  {
    GrowWindow(seen, byte);
    var longer := seen + [byte];
    if |longer| == window {
      assert longer[0..] == longer && longer[..0] == [];
    }
  }

  /** Once it is full, the oldest byte is replaced and the hash rolls on. */
  lemma {:induction false} RingRolls(window: nat, seen: bytes, ring: bytes, cursor: nat, hash: u64, byte: u8,
                                     cursor': nat, hash': u64)
    requires RingOk(window, seen, ring, cursor, hash) && 0 < window == |ring| && cursor < window && window <= |seen|
    requires cursor' == (cursor + 1) % window
    requires hash' == Roll(hash, Value(ring[cursor]), Wrap(Power(window)), Value(byte))
    ensures RingOk(window, seen + [byte], ring[cursor := byte], cursor', hash')
    ensures Maximum(seen + [byte], window) == if hash' > Maximum(seen, window) then hash' else Maximum(seen, window)
  {
    NextCursor(cursor, window);
    RingSlides(ring, cursor, byte, cursor');
    RollSlides(seen[|seen| - window..], byte);
    SlideMaximum(seen, byte, window);
  }

  lemma {:induction false} FullRing(window: nat, seen: bytes, ring: bytes, cursor: nat, hash: u64)
    requires RingOk(window, seen, ring, cursor, hash) && |ring| >= window > 0
    ensures |ring| == window && cursor < window && window <= |seen|
  {
  }

  lemma {:induction false} SlideMaximum(s: bytes, byte: u8, w: nat)
    requires 0 < w <= |s|
    ensures (s + [byte])[|s| + 1 - w..] == s[|s| - w..][1..] + [byte]
    ensures Maximum(s + [byte], w)
            == if WindowHash(s[|s| - w..][1..] + [byte]) > Maximum(s, w) then WindowHash(s[|s| - w..][1..] + [byte])
              else Maximum(s, w)
  {
    assert (s + [byte])[..|s|] == s;
  }

  class RollingRegion {
    const window: nat
    const expected: nat
    const basePower: u64
    var ring: bytes
    var cursor: nat
    var hash: u64
    var maximum: u64
    var bytesSeen: nat
    /** All bytes pushed so far. */
    ghost var seen: bytes

    ghost predicate Valid()
      reads this
    {
      && window <= expected && (window == 0 ==> expected == 0)
      && basePower == Wrap(Power(window))
      && bytesSeen == |seen| <= expected
      && maximum == Maximum(seen, window)
      && RingOk(window, seen, ring, cursor, hash)
    }

    constructor (expected: nat, configuredWindow: nat)
      requires configuredWindow > 0
      ensures Valid() && seen == [] && this.expected == expected
      ensures window == if expected < configuredWindow then expected else configuredWindow
    {
      var w := if expected < configuredWindow then expected else configuredWindow;
      var power: u64 := 1;
      for i := 0 to w
        invariant power == Wrap(Power(i))
      {
        WrapOfProduct(Power(i), ROLLING_BASE);
        power := Wrap(power * ROLLING_BASE);
      }
      this.window, this.expected, this.basePower := w, expected, power;
      ring, cursor, hash, maximum, bytesSeen := [], 0, 0, 0, 0;
      seen := [];
    }

    /** Takes one byte and keeps the maximum that of all windows so far; refuses the byte once the region is full. */
    method Push(byte: u8) returns (r: Result<(), PithosError>)
      requires Valid()
      modifies this
      ensures Valid()
      ensures r.Success? <==> |old(seen)| < expected
      ensures seen == if r.Success? then old(seen) + [byte] else old(seen)
    {
      if bytesSeen >= expected || window == 0 {
        return Failure(InvalidMetadata("superfeature region length"));
      }
      if |ring| < window {
        var next := Wrap(Wrap(hash * ROLLING_BASE) + Value(byte));
        RingFills(window, seen, ring, cursor, hash, byte, next);
        maximum := if |ring| + 1 == window then next else maximum;
        ring, hash := ring + [byte], next;
      } else {
        FullRing(window, seen, ring, cursor, hash);
        var next, after := Roll(hash, Value(ring[cursor]), basePower, Value(byte)), (cursor + 1) % window;
        RingRolls(window, seen, ring, cursor, hash, byte, after, next);
        ring, cursor, hash, maximum := ring[cursor := byte], after, next, if next > maximum then next else maximum;
      }
      bytesSeen := bytesSeen + 1;
      seen := seen + [byte];
      return Success(());
    }
  }
}
