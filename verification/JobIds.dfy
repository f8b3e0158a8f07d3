/** Job ids, session ids and idempotency keys: the string encodings the job store relies on. */
module JobIds {
  import opened Base

  // ----- job-{:016x} -----

  function HexDigit(d: nat): char
    requires d < 16
  {
    "0123456789abcdef"[d]
  }

  /** Both letter cases are hexadecimal digits to the parser. */
  function HexValue(c: char): Option<nat> {
    if '0' <= c <= '9' then Some(c as nat - '0' as nat)
    else if 'a' <= c <= 'f' then Some(c as nat - 'a' as nat + 10)
    else if 'A' <= c <= 'F' then Some(c as nat - 'A' as nat + 10)
    else None
  }

  function Hex(n: nat, width: nat): (s: string)
    ensures |s| == width
  {
    if width == 0 then [] else Hex(n / 16, width - 1) + [HexDigit(n % 16)]
  }

  function ParseHex(s: string): (r: Option<nat>) {
    if s == [] then Some(0)
    else
      var high, low := ParseHex(s[..|s| - 1]), HexValue(s[|s| - 1]);
      if high.Some? && low.Some? then Some(16 * high.value + low.value) else None
  }

  function Pow16(k: nat): nat {
    if k == 0 then 1 else 16 * Pow16(k - 1)
  }

  lemma {:induction false} HexRoundTrip(n: nat, width: nat)
    requires n < Pow16(width)
    ensures ParseHex(Hex(n, width)) == Some(n)
  {
    if width > 0 {
      var s := Hex(n, width);
      assert s[..|s| - 1] == Hex(n / 16, width - 1);
      HexRoundTrip(n / 16, width - 1);
    }
  }

  function FormatJobId(n: u64): string {
    "job-" + Hex(n, 16)
  }

  function ParseJobNumber(id: string): Option<nat> {
    if |id| == 20 && id[..4] == "job-" then ParseHex(id[4..]) else None
  }

  lemma {:induction false} JobIdRoundTrip(n: u64)
    ensures ParseJobNumber(FormatJobId(n)) == Some(n)
  {
    assert Pow16(16) == 0x1_0000_0000_0000_0000 by {
      assert Pow16(4) == 0x1_0000;
      assert Pow16(8) == 0x1_0000_0000;
      assert Pow16(12) == 0x1_0000_0000_0000;
    }
    HexRoundTrip(n, 16);
    var id := FormatJobId(n);
    assert id[..4] == "job-" && id[4..] == Hex(n, 16);
  }

  // ----- Session ids and idempotency keys -----

  predicate AlphanumericOrDash(c: char) {
    '0' <= c <= '9' || 'a' <= c <= 'z' || 'A' <= c <= 'Z' || c == '-'
  }

  predicate ValidIdentifier(value: string, prefix: string) {
    |prefix| + 8 <= |value| <= 96 && prefix <= value && forall c | c in value :: AlphanumericOrDash(c)
  }

  predicate AsciiGraphic(c: char) {
    '!' <= c <= '~'
  }

  const MAX_IDEMPOTENCY_KEY_BYTES: nat := 256

  predicate ValidIdempotencyKey(key: string) {
    key != [] && |key| <= MAX_IDEMPOTENCY_KEY_BYTES && forall c | c in key :: AsciiGraphic(c)
  }

  function MapKey(owner: string, key: string): string {
    owner + ":" + key
  }

  /** The index key determines owner and key, because a session id has no colon; the key itself may. */
  lemma {:induction false} MapKeyInjective(owner1: string, key1: string, owner2: string, key2: string)
    requires ValidIdentifier(owner1, "session-") && ValidIdentifier(owner2, "session-")
    requires MapKey(owner1, key1) == MapKey(owner2, key2)
    ensures owner1 == owner2 && key1 == key2
  {
    var s, t := MapKey(owner1, key1), MapKey(owner2, key2);
    assert s[|owner1|] == ':' && t[|owner2|] == ':';
    assert forall i | 0 <= i < |owner1| :: s[i] == owner1[i] && s[i] in owner1;
    assert forall i | 0 <= i < |owner2| :: t[i] == owner2[i] && t[i] in owner2;
    assert |owner1| == |owner2|;
    assert s[..|owner1|] == owner1 && t[..|owner2|] == owner2;
    assert s[|owner1| + 1..] == key1 && t[|owner2| + 1..] == key2;
  }
}
