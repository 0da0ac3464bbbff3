/** Voucher codes: roll, ticket, checksum and a magic number packed into a 64-bit word, a
    big-endian buffer, RSA without padding, and digits over a configurable alphabet. */
module Voucher {
  import opened Wrappers
  import opened Arith

  const U64 := 0x1_0000_0000_0000_0000
  const U32 := 0x1_0000_0000
  const MAX_RSA_KEY_LEN := 8
  const MAX_VOUCHER_LEN := 64

  // ----- big-endian buffers -----

  function BigEndian(v: nat, len: nat): seq<byte> {
    if len == 0 then [] else BigEndian(v / 256, len - 1) + [v % 256]
  }

  function Value(s: seq<byte>): nat {
    if s == [] then 0 else Value(s[..|s| - 1]) * 256 + s[|s| - 1]
  }

  lemma {:induction false} BigEndianLength(v: nat, len: nat)
    ensures |BigEndian(v, len)| == len
  {
    if len > 0 { BigEndianLength(v / 256, len - 1); }
  }

  /** Writing and reading back keeps what fits the buffer. */
  lemma {:induction false} ValueOfBigEndian(v: nat, len: nat)
    ensures Pow(256, len) > 0 && Value(BigEndian(v, len)) == v % Pow(256, len)
  {
    PowPositive(256, len);
    if len > 0 {
      var s := BigEndian(v, len);
      assert s[..|s| - 1] == BigEndian(v / 256, len - 1);
      ValueOfBigEndian(v / 256, len - 1);
      DivDiv(v, 256, Pow(256, len - 1));
    }
  }

  lemma {:induction false} ValueBound(s: seq<byte>)
    ensures Value(s) < Pow(256, |s|)
  {
    if s != [] { ValueBound(s[..|s| - 1]); }
  }

  /** Reading and writing back restores the buffer. */
  lemma {:induction false} BigEndianOfValue(s: seq<byte>)
    ensures BigEndian(Value(s), |s|) == s
  {
    if s != [] {
      var t := s[..|s| - 1];
      DivMod(Value(t), 256, s[|s| - 1]);
      BigEndianOfValue(t);
      assert s == t + [s[|s| - 1]];
    }
  }

  /** ll2buf. */
  method Ll2Buf(v: nat, buf: array<byte>, len: nat)
    requires len <= buf.Length
    modifies buf
    ensures buf[..len] == BigEndian(v, len)
    ensures buf[len..] == old(buf[len..])
  {
    var ll, i := v, len;
    BigEndianLength(v, len);
    while i > 0
      invariant 0 <= i <= len
      invariant BigEndian(v, len) == BigEndian(ll, i) + buf[i..len]
      invariant buf[len..] == old(buf[len..])
    {
      i := i - 1;
      assert BigEndian(ll, i + 1) + buf[i + 1..len] == BigEndian(ll / 256, i) + ([ll % 256] + buf[i + 1..len]);
      buf[i] := ll % 256;
      ll := ll / 256;
      assert buf[i..len] == [buf[i]] + buf[i + 1..len];
    }
  }

  /** buf2ll, in 64-bit arithmetic. */
  method Buf2Ll(buf: array<byte>, len: nat) returns (ll: nat)
    requires 1 <= len <= buf.Length
    ensures ll == Value(buf[..len]) % U64
  {
    ll := buf[0];
    assert buf[..1] == [buf[0]];
    for i := 1 to len
      invariant ll == Value(buf[..i]) % U64
    {
      assert buf[..i + 1][..i] == buf[..i];
      ModEarly(Value(buf[..i]), 256, buf[i], U64);
      ModEarly(ll * 256, 1, buf[i], U64);
      ll := (ll * 256) % U64;
      ll := (ll + buf[i]) % U64;
    }
  }

  // ----- configuration -----

  datatype Config = Config(rollBits: nat, ticketBits: nat, checksumBits: nat, magic: nat, charset: string)

  /** An RSA key: its size in bits, its modulus, and the two primitives. */
  datatype Key = Key(bits: nat, modulus: nat, sign: nat -> nat, recover: nat -> nat)

  /** A modulus of exactly so many bits, a multiple of eight. */
  ghost predicate KeySize(bits: nat, modulus: nat) {
    bits >= 8 && bits % 8 == 0 && Pow(2, bits - 1) <= modulus < Pow(2, bits)
  }

  /** The primitives RSASP1 and RSAVP1 of sections 5.2.1 and 5.2.2 of RFC 8017: inverse to
      each other below the modulus, which has exactly the key's number of bits. */
  ghost predicate ValidKey(k: Key) {
    && KeySize(k.bits, k.modulus)
    && (forall x: nat | x < k.modulus :: k.sign(x) < k.modulus && k.recover(k.sign(x)) == x)
    && (forall y: nat | y < k.modulus :: k.recover(y) < k.modulus && k.sign(k.recover(y)) == y)
  }

  datatype ConfigError = KeyTooLarge | CharsetTooShort | TooManyBits | TooLargeForKey

  /** What the configuration amounts to for a key: the buffer length and the reduced magic. */
  datatype Setup = Setup(cryptLen: nat, magicBits: nat, magic: nat)

  function PayloadBits(c: Config): nat {
    c.rollBits + c.ticketBits + c.checksumBits
  }

  function Prepare(c: Config, k: Key): Result<Setup, ConfigError> {
    var len := k.bits / 8;
    if len > MAX_RSA_KEY_LEN then Err(KeyTooLarge)
    else if |c.charset| < 2 then Err(CharsetTooShort)
    else if c.rollBits > 31 || c.ticketBits > 31 || c.checksumBits > 31 then Err(TooManyBits)
    else
      var avail := if len < 8 then len else 8;
      if 1 + PayloadBits(c) / 8 > avail then Err(TooLargeForKey)
      else
        var magicBits := avail * 8 - (PayloadBits(c) + 1);
        PowPositive(2, magicBits);
        Ok(Setup(len, magicBits, if magicBits > 0 then c.magic % Pow(2, magicBits) else 0))
  }

  function Rolls(c: Config): (n: nat)
    ensures n > 0
  {
    PowPositive(2, c.rollBits);
    Pow(2, c.rollBits)
  }

  function Tickets(c: Config): (n: nat)
    ensures n > 0
  {
    PowPositive(2, c.ticketBits);
    Pow(2, c.ticketBits)
  }

  function Checksums(c: Config): (n: nat)
    ensures n > 0
  {
    PowPositive(2, c.checksumBits);
    Pow(2, c.checksumBits)
  }

  // ----- packing -----

  /** One more digit to the right. */
  function Horner(v: nat, base: nat, digit: nat): nat {
    v * base + digit
  }

  /** The word as a number: magic, checksum, ticket and roll side by side. */
  function Packed(c: Config, magic: nat, roll: nat, ticket: nat): nat {
    Joined(magic, (ticket + roll) % Checksums(c), ticket, roll, Checksums(c), Tickets(c), Rolls(c))
  }

  /** Four fields side by side; the last three are digits to the given bases. */
  function Joined(m: nat, k: nat, t: nat, r: nat, cs: nat, ts: nat, rs: nat): nat {
    Horner(Horner(Horner(m, cs, k), ts, t), rs, r)
  }

  /** 64-bit addition and shift (by a power of two, as multiplication). */
  function Add64(x: nat, y: nat): nat {
    (x + y) % U64
  }

  function Shl64(x: nat, m: nat): nat {
    (x * m) % U64
  }

  /** The word as computed: every shift and sum in 64 bits, then the top bit of the key's
      length masked off. */
  function PackWord(c: Config, s: Setup, roll: nat, ticket: nat): nat
    requires 1 <= s.cryptLen <= 8
  {
    var checksum := (ticket + roll) % U32 % Checksums(c);
    var a := Add64(Shl64(s.magic, Checksums(c)), checksum);
    var b := Add64(Shl64(a, Tickets(c)), ticket);
    PowPositive(2, 8 * s.cryptLen - 1);
    Add64(Shl64(b, Rolls(c)), roll) % Pow(2, 8 * s.cryptLen - 1)
  }

  datatype Pair = Pair(roll: nat, ticket: nat)

  /** CHECK's reading of a recovered word; the checksum passes through 32 bits. */
  function Unpacked(c: Config, magic: nat, word: nat): Option<Pair> {
    var roll := word % Rolls(c);
    var ticket := word / Rolls(c) % Tickets(c);
    var checksum := word / (Rolls(c) * Tickets(c)) % U32 % Checksums(c);
    if magic != word / (Rolls(c) * Tickets(c) * Checksums(c)) then None
    else if (ticket + roll) % U32 % Checksums(c) != checksum then None
    else Some(Pair(roll, ticket))
  }

  /** A word splits into its four fields and nothing else. */
  lemma Fields(m: nat, k: nat, t: nat, r: nat, cs: nat, ts: nat, rs: nat)
    requires k < cs && t < ts && r < rs
    ensures rs * ts > 0 && rs * ts * cs > 0
    ensures var x := Joined(m, k, t, r, cs, ts, rs);
            x % rs == r && x / rs % ts == t && x / (rs * ts) % cs == k && x / (rs * ts * cs) == m
  {
    var a := Horner(m, cs, k);
    var b := Horner(a, ts, t);
    var x := Horner(b, rs, r);
    HornerSplit(b, rs, r);
    HornerSplit(a, ts, t);
    HornerSplit(m, cs, k);
    hide Horner;
    DivDiv(x, rs, ts);
    DivDiv(x, rs * ts, cs);
  }

  lemma HornerSplit(q: nat, d: nat, r: nat)
    requires r < d
    ensures Horner(q, d, r) / d == q && Horner(q, d, r) % d == r
  {
    DivMod(q, d, r);
  }

  lemma HornerBack(x: nat, d: nat)
    requires d > 0
    ensures Horner(x / d, d, x % d) == x
  {
    DivModBack(x, d);
  }

  lemma FieldsBack(x: nat, cs: nat, ts: nat, rs: nat)
    requires cs > 0 && ts > 0 && rs > 0
    ensures rs * ts > 0 && rs * ts * cs > 0
    ensures x == Joined(x / (rs * ts * cs), x / (rs * ts) % cs, x / rs % ts, x % rs, cs, ts, rs)
  {
    hide Horner;
    HornerBack(x, rs);
    DivDiv(x, rs, ts);
    HornerBack(x / rs, ts);
    DivDiv(x, rs * ts, cs);
    HornerBack(x / rs / ts, cs);
  }

  datatype Quad = Quad(magic: nat, checksum: nat, ticket: nat, roll: nat)

  lemma Positive(a: nat, b: nat)
    requires a > 0 && b > 0
    ensures a * b > 0
  {}

  /** The four fields of a word. */
  function Split(x: nat, cs: nat, ts: nat, rs: nat): Quad
    requires cs > 0 && ts > 0 && rs > 0
  {
    Positive(rs, ts);
    Positive(rs * ts, cs);
    Quad(x / (rs * ts * cs), x / (rs * ts) % cs, x / rs % ts, x % rs)
  }

  lemma SplitJoined(q: Quad, cs: nat, ts: nat, rs: nat)
    requires q.checksum < cs && q.ticket < ts && q.roll < rs
    ensures Split(Joined(q.magic, q.checksum, q.ticket, q.roll, cs, ts, rs), cs, ts, rs) == q
  {
    hide Joined;
    Fields(q.magic, q.checksum, q.ticket, q.roll, cs, ts, rs);
  }

  lemma JoinedSplit(x: nat, cs: nat, ts: nat, rs: nat)
    requires cs > 0 && ts > 0 && rs > 0
    ensures var q := Split(x, cs, ts, rs);
            && q.checksum < cs && q.ticket < ts && q.roll < rs
            && Joined(q.magic, q.checksum, q.ticket, q.roll, cs, ts, rs) == x
  {
    hide Joined;
    FieldsBack(x, cs, ts, rs);
    ModRange(x, rs);
    ModRange(x / rs, ts);
    ModRange(x / (rs * ts), cs);
  }

  /** The fields of a word are the given ones exactly when it is the word that joins them. */
  lemma FieldsIff(q: Quad, x: nat, cs: nat, ts: nat, rs: nat)
    requires cs > 0 && ts > 0 && rs > 0
    ensures Split(x, cs, ts, rs) == q
            <==> q.checksum < cs && q.ticket < ts && q.roll < rs
                 && x == Joined(q.magic, q.checksum, q.ticket, q.roll, cs, ts, rs)
  {
    hide Joined, Split;
    JoinedSplit(x, cs, ts, rs);
    if q.checksum < cs && q.ticket < ts && q.roll < rs { SplitJoined(q, cs, ts, rs); }
  }

  lemma ModRange(x: nat, d: nat)
    requires d > 0
    ensures 0 <= x % d < d
  {}

  lemma {:induction false} PowersOfTwo()
    ensures Pow(2, 31) == 0x8000_0000 && Pow(2, 32) == U32 && Pow(2, 64) == U64
  {
    assert Pow(2, 8) == 256;
    PowPow(2, 8, 4);
    PowPow(2, 8, 8);
    assert Pow(256, 4) == U32;
    assert Pow(256, 8) == U64 by { PowAdd(256, 4, 4); }
    assert Pow(2, 32) == 2 * Pow(2, 31);
  }

  /** Every field of at most 31 bits is the remainder of a 32-bit one. */
  lemma Through32(x: nat, bits: nat)
    requires bits <= 31
    ensures Pow(2, bits) > 0 && x % U32 % Pow(2, bits) == x % Pow(2, bits)
  {
    PowersOfTwo();
    PowPositive(2, bits);
    PowPositive(2, 32 - bits);
    PowAdd(2, bits, 32 - bits);
    ModMod(x, Pow(2, bits), Pow(2, 32 - bits));
  }

  /** CHECK accepts a word for a pair exactly when it is the one packed word of that pair:
      distinct words never verify as the same voucher. */
  lemma AcceptsOnlyPacked(c: Config, magic: nat, word: nat, roll: nat, ticket: nat)
    requires c.checksumBits <= 31
    ensures Unpacked(c, magic, word) == Some(Pair(roll, ticket)) <==>
            roll < Rolls(c) && ticket < Tickets(c) && word == Packed(c, magic, roll, ticket)
  {
    hide Pow, Joined;
    var rs, ts, cs := Rolls(c), Tickets(c), Checksums(c);
    var t, r := word / rs % ts, word % rs;
    FieldsIff(Quad(magic, (ticket + roll) % cs, ticket, roll), word, cs, ts, rs);
    Through32(word / (rs * ts), c.checksumBits);
    Through32(t + r, c.checksumBits);
    ModRange(ticket + roll, cs);
  }

  lemma FieldsBelow(m: nat, k: nat, t: nat, r: nat, cs: nat, ts: nat, rs: nat)
    requires k < cs && t < ts && r < rs
    ensures Joined(m, k, t, r, cs, ts, rs) < (m + 1) * cs * ts * rs
  {
    var a := Horner(m, cs, k);
    var b := Horner(a, ts, t);
    HornerBelow(m, cs, k);
    HornerBelow(a, ts, t);
    HornerBelow(b, rs, r);
    hide Horner;
    MulUp(a + 1, (m + 1) * cs, ts);
    MulUp(b + 1, (m + 1) * cs * ts, rs);
  }

  lemma HornerBelow(v: nat, base: nat, digit: nat)
    requires digit < base
    ensures Horner(v, base, digit) + 1 <= (v + 1) * base
  {
    assert (v + 1) * base == v * base + base;
  }

  /** No stage of the packing exceeds the packed word. */
  lemma StagesBelow(m: nat, k: nat, t: nat, r: nat, cs: nat, ts: nat, rs: nat)
    requires ts > 0 && rs > 0
    ensures Horner(m, cs, k) <= Horner(Horner(m, cs, k), ts, t) <= Joined(m, k, t, r, cs, ts, rs)
  {
    MulUp(1, ts, Horner(m, cs, k));
    MulUp(1, rs, Horner(Horner(m, cs, k), ts, t));
  }

  /** The magic number, reduced, leaves room for the payload below the key's top bit. */
  lemma PackedFits(c: Config, s: Setup, roll: nat, ticket: nat)
    requires s.magic < Pow(2, s.magicBits) && s.magicBits + PayloadBits(c) == 8 * s.cryptLen - 1
    requires roll < Rolls(c) && ticket < Tickets(c)
    ensures Packed(c, s.magic, roll, ticket) < Pow(2, 8 * s.cryptLen - 1)
  {
    hide Pow, Joined;
    var rs, ts, cs, p := Rolls(c), Tickets(c), Checksums(c), Pow(2, s.magicBits);
    FieldsBelow(s.magic, (ticket + roll) % cs, ticket, roll, cs, ts, rs);
    PowSplit(s.magicBits, c.checksumBits, c.ticketBits, c.rollBits);
    MulUp(s.magic + 1, p, cs);
    MulUp((s.magic + 1) * cs, p * cs, ts);
    MulUp((s.magic + 1) * cs * ts, p * cs * ts, rs);
  }

  lemma PowSplit(m: nat, n: nat, o: nat, p: nat)
    ensures Pow(2, m + (p + o + n)) == Pow(2, m) * Pow(2, n) * Pow(2, o) * Pow(2, p)
  {
    PowAdd(2, m, n);
    PowAdd(2, m + n, o);
    PowAdd(2, m + n + o, p);
    hide Pow;
  }

  lemma SetupFits(c: Config, k: Key)
    requires Prepare(c, k).Ok?
    ensures var s := Prepare(c, k).value;
            && 1 <= s.cryptLen <= 8 && s.cryptLen == k.bits / 8
            && s.magicBits + PayloadBits(c) == 8 * s.cryptLen - 1
            && s.magic < Pow(2, s.magicBits) && s.magic == c.magic % Pow(2, s.magicBits)
            && c.rollBits <= 31 && c.ticketBits <= 31 && c.checksumBits <= 31
  {
    PowPositive(2, Prepare(c, k).value.magicBits);
    assert Pow(2, 0) == 1;
  }

  lemma SmallIds(c: Config, roll: nat, ticket: nat)
    requires c.rollBits <= 31 && c.ticketBits <= 31 && roll < Rolls(c) && ticket < Tickets(c)
    ensures ticket + roll < U32
  {
    PowersOfTwo();
    PowMono(2, c.rollBits, 31);
    PowMono(2, c.ticketBits, 31);
  }

  /** 64-bit arithmetic and the mask lose nothing: the word computed is the packed word. */
  lemma PackExact(c: Config, k: Key, roll: nat, ticket: nat)
    requires Prepare(c, k).Ok? && roll < Rolls(c) && ticket < Tickets(c)
    ensures var s := Prepare(c, k).value;
            && 1 <= s.cryptLen <= 8
            && PackWord(c, s, roll, ticket) == Packed(c, s.magic, roll, ticket) < Pow(2, 8 * s.cryptLen - 1)
  {
    hide Prepare;
    var s := Prepare(c, k).value;
    SetupFits(c, k);
    PackedFits(c, s, roll, ticket);
    SmallIds(c, roll, ticket);
    assert Pow(2, 8 * s.cryptLen - 1) <= U64 by { PowersOfTwo(); PowMono(2, 8 * s.cryptLen - 1, 64); }
    PackStages(c, s, roll, ticket);
  }

  lemma PackStages(c: Config, s: Setup, roll: nat, ticket: nat)
    requires 1 <= s.cryptLen <= 8 && ticket + roll < U32
    requires Packed(c, s.magic, roll, ticket) < Pow(2, 8 * s.cryptLen - 1) <= U64
    ensures PackWord(c, s, roll, ticket) == Packed(c, s.magic, roll, ticket)
  {
    hide Pow, Add64, Shl64, Horner;
    var k := (ticket + roll) % Checksums(c);
    SmallMod(ticket + roll, U32);
    StagesBelow(s.magic, k, ticket, roll, Checksums(c), Tickets(c), Rolls(c));
    var a := Stage64(s.magic, Checksums(c), k);
    var b := Stage64(a, Tickets(c), ticket);
    var x := Stage64(b, Rolls(c), roll);
    SmallMod(x, Pow(2, 8 * s.cryptLen - 1));
  }

  lemma Stage64(x: nat, m: nat, y: nat) returns (z: nat)
    requires Horner(x, m, y) < U64
    ensures z == Horner(x, m, y) && Add64(Shl64(x, m), y) == z
  {
    z := x * m + y;
    SmallMod(x * m, U64);
    SmallMod(z, U64);
  }

  // ----- digits over the alphabet -----

  /** Digits, least significant first. */
  function Digits(n: nat, base: nat): seq<nat>
    requires base >= 2
    decreases n
  {
    if n == 0 then [] else [n % base] + Digits(n / base, base)
  }

  function Text(digits: seq<nat>, charset: string): string {
    if digits == [] then ""
    else [if digits[0] < |charset| then charset[digits[0]] else ' '] + Text(digits[1..], charset)
  }

  /** strchr: the first position of a character. */
  function IndexOf(charset: string, ch: char): (r: Option<nat>)
    ensures r.Some? ==> r.value < |charset| && charset[r.value] == ch && ch !in charset[..r.value]
    ensures r.None? ==> ch !in charset
  {
    if charset == "" then None
    else if charset[0] == ch then Some(0)
    else match IndexOf(charset[1..], ch)
      case None => None
      case Some(i) => Some(i + 1)
  }

  /** The number a text stands for, reading every character by its first position. */
  function TextValue(charset: string, text: string): Option<nat> {
    if text == "" then Some(0)
    else match TextValue(charset, text[1..])
      case None => None
      case Some(v) =>
        match IndexOf(charset, text[0])
        case None => None
        case Some(i) => Some(Horner(v, |charset|, i))
  }

  ghost predicate FirstPositions(digits: seq<nat>, charset: string) {
    digits == [] || (digits[0] < |charset| && IndexOf(charset, charset[digits[0]]) == Some(digits[0])
                     && FirstPositions(digits[1..], charset))
  }

  lemma {:induction false} IndexOfAt(charset: string, d: nat)
    requires d < |charset|
    ensures IndexOf(charset, charset[d]).Some? && IndexOf(charset, charset[d]).value <= d
  {
    if d > 0 && charset[0] != charset[d] { IndexOfAt(charset[1..], d - 1); }
  }

  /** Printing and reading a number gives it back exactly when each of its digits is the
      first position of its character; a repeated character can only lower the value. */
  lemma {:induction false} TextExact(charset: string, n: nat)
    requires |charset| >= 2
    ensures var t := TextValue(charset, Text(Digits(n, |charset|), charset));
            t.Some? && t.value <= n && (t.value == n <==> FirstPositions(Digits(n, |charset|), charset))
    decreases n
  {
    hide IndexOf, Horner, Digits, Text, TextValue, FirstPositions;
    if n > 0 {
      var q, d := n / |charset|, n % |charset|;
      var ds, text := Digits(q, |charset|), Text(Digits(q, |charset|), charset);
      TextCons(charset, n);
      DigitsStep(n, |charset|);
      DivShrinks(n, |charset|);
      TextExact(charset, q);
      IndexOfAt(charset, d);
      ReadStep(charset, charset[d], text);
      FirstPositionsCons(d, ds, charset);
      HornerExact(TextValue(charset, text).value, n, |charset|, IndexOf(charset, charset[d]).value);
    } else {
      NoDigits(|charset|, charset);
      NoText(charset);
    }
  }

  lemma NoText(charset: string)
    ensures TextValue(charset, "") == Some(0) && FirstPositions([], charset)
  {}

  lemma FirstPositionsCons(d: nat, ds: seq<nat>, charset: string)
    requires d < |charset|
    ensures FirstPositions([d] + ds, charset) <==>
            IndexOf(charset, charset[d]) == Some(d) && FirstPositions(ds, charset)
  {
    assert ([d] + ds)[1..] == ds;
  }

  lemma TextStep(charset: string, n: nat)
    requires |charset| >= 2 && n > 0
    ensures Digits(n, |charset|)[0] == n % |charset| && Digits(n, |charset|)[1..] == Digits(n / |charset|, |charset|)
    ensures var text := Text(Digits(n, |charset|), charset);
            text != "" && text[0] == charset[n % |charset|]
                && text[1..] == Text(Digits(n / |charset|, |charset|), charset)
    ensures Digits(n, |charset|) != [] && n / |charset| < n && n % |charset| < |charset|
  {
    DivShrinks(n, |charset|);
    DigitsStep(n, |charset|);
    hide Digits;
  }

  lemma DigitsStep(n: nat, base: nat)
    requires base >= 2 && n > 0
    ensures Digits(n, base) == [n % base] + Digits(n / base, base)
  {}

  lemma HornerExact(v: nat, n: nat, base: nat, i: nat)
    requires base > 0 && v <= n / base && i <= n % base
    ensures Horner(v, base, i) <= n
    ensures Horner(v, base, i) == n <==> v == n / base && i == n % base
  {
    DivModBack(n, base);
    MulUp(v, n / base, base);
    if v < n / base { MulUp(v + 1, n / base, base); }
  }

  // ----- printing and checking -----

  datatype PrintError = CannotSign | TooLong

  datatype CheckError = IllegalCharacter | InvalidCode | InvalidFields

  /** What ends up between the quotes for one ticket. */
  function Printed(c: Config, k: Key, s: Setup, roll: nat, ticket: nat): Result<string, PrintError>
    requires 1 <= s.cryptLen <= 8 && |c.charset| >= 2
  {
    var clear := Value(BigEndian(PackWord(c, s, roll, ticket), s.cryptLen));
    if clear >= k.modulus then Err(CannotSign)
    else
      var crypt := Value(BigEndian(k.sign(clear), s.cryptLen)) % U64;
      var digits := Digits(crypt, |c.charset|);
      if |digits| > MAX_VOUCHER_LEN then Err(TooLong) else Ok(Text(digits, c.charset))
  }

  /** The part of the text that is read: everything after its last space. */
  function AfterSpace(text: string): string {
    if text == "" then ""
    else if text[|text| - 1] == ' ' then ""
    else AfterSpace(text[..|text| - 1]) + [text[|text| - 1]]
  }

  function Checked(c: Config, k: Key, s: Setup, text: string): Result<Pair, CheckError>
    requires 1 <= s.cryptLen <= 8
  {
    match TextValue(c.charset, AfterSpace(text))
    case None => Err(IllegalCharacter)
    case Some(v) =>
      var crypt := Value(BigEndian(v % U64, s.cryptLen));
      if crypt >= k.modulus then Err(InvalidCode)
      else match Unpacked(c, s.magic, Value(BigEndian(k.recover(crypt), s.cryptLen)) % U64)
        case None => Err(InvalidFields)
        case Some(p) => Ok(p)
  }

  lemma {:induction false} DigitsLength(n: nat, base: nat, k: nat)
    requires base >= 2 && n < Pow(2, k)
    ensures |Digits(n, base)| <= k
    decreases k
  {
    hide Digits, Pow;
    PowDouble(k);
    if n > 0 {
      DigitsStep(n, base);
      HalfBelow(n, base, Pow(2, k - 1));
      DigitsLength(n / base, base, k - 1);
    } else {
      NoDigits(base, "");
    }
  }

  lemma PowDouble(k: nat)
    ensures if k == 0 then Pow(2, k) == 1 else Pow(2, k) == 2 * Pow(2, k - 1)
  {}

  lemma HalfBelow(n: nat, base: nat, p: nat)
    requires base >= 2 && n < 2 * p
    ensures n / base < p
  {
    MulUp(2, base, p);
    DivBelow(n, p, base);
  }

  /** Below the length of the buffer nothing is cut on the way through it. */
  lemma ThroughBuffer(v: nat, len: nat)
    requires 1 <= len <= 8 && v < Pow(2, 8 * len)
    ensures Value(BigEndian(v, len)) == v < U64
  {
    ValueOfBigEndian(v, len);
    PowPow(2, 8, len);
    assert Pow(2, 8) == 256;
    PowersOfTwo();
    PowMono(2, 8 * len, 64);
    SmallMod(v, Pow(256, len));
  }

  lemma {:induction false} AfterSpaceNone(text: string)
    requires ' ' !in text
    ensures AfterSpace(text) == text && AfterSpace(" " + text) == text
  {
    if text != "" {
      var t := text[..|text| - 1];
      assert text == t + [text[|text| - 1]];
      AfterSpaceNone(t);
      assert (" " + text)[..|text|] == " " + t;
    }
  }

  lemma {:induction false} TextInCharset(digits: seq<nat>, charset: string)
    requires forall i | 0 <= i < |digits| :: digits[i] < |charset|
    ensures forall ch | ch in Text(digits, charset) :: ch in charset
  {
    if digits != [] { TextInCharset(digits[1..], charset); }
  }

  lemma {:induction false} DigitsBelow(n: nat, base: nat)
    requires base >= 2
    ensures forall i | 0 <= i < |Digits(n, base)| :: Digits(n, base)[i] < base && Digits(n, base)[i] <= n
    decreases n
  {
    if n > 0 {
      DivShrinks(n, base);
      DigitsStep(n, base);
      DigitsBelow(n / base, base);
      hide Digits;
      var rest := Digits(n / base, base);
      assert forall i | 0 < i <= |rest| :: ([n % base] + rest)[i] == rest[i - 1];
    }
  }

  /** No two positions that can be digits below the modulus hold the same character. */
  ghost predicate Distinguishes(charset: string, modulus: nat) {
    forall i, j | 0 <= i < j < |charset| && j < modulus :: charset[i] != charset[j]
  }

  lemma {:induction false} FirstIfDistinct(digits: seq<nat>, charset: string, modulus: nat)
    requires Distinguishes(charset, modulus)
    requires forall i | 0 <= i < |digits| :: digits[i] < |charset| && digits[i] < modulus
    ensures FirstPositions(digits, charset)
  {
    if digits != [] {
      IndexOfAt(charset, digits[0]);
      FirstIfDistinct(digits[1..], charset, modulus);
    }
  }

  lemma KeyFits(c: Config, k: Key)
    requires ValidKey(k) && Prepare(c, k).Ok?
    ensures var s := Prepare(c, k).value;
            1 <= s.cryptLen <= 8 && |c.charset| >= 2 && 8 * s.cryptLen == k.bits
  {
    SetupFits(c, k);
  }

  /** The word of a voucher can always be signed, and its code always fits the buffer of 64
      characters. */
  lemma PrintSucceeds(c: Config, k: Key, roll: nat, ticket: nat)
    requires ValidKey(k) && Prepare(c, k).Ok? && roll < Rolls(c) && ticket < Tickets(c)
    ensures var s := Prepare(c, k).value;
            && 1 <= s.cryptLen <= 8 && |c.charset| >= 2
            && var word := Packed(c, s.magic, roll, ticket);
            && word < k.modulus && k.sign(word) < k.modulus
            && Printed(c, k, s, roll, ticket) == Ok(Text(Digits(k.sign(word), |c.charset|), c.charset))
            && |Digits(k.sign(word), |c.charset|)| <= MAX_VOUCHER_LEN
  {
    hide Prepare, Packed, PackWord, BigEndian, Value, Digits, Text;
    var s := Prepare(c, k).value;
    KeyFits(c, k);
    PackExact(c, k, roll, ticket);
    var word := Packed(c, s.magic, roll, ticket);
    PowMono(2, 8 * s.cryptLen - 1, 8 * s.cryptLen);
    ThroughBuffer(word, s.cryptLen);
    ThroughBuffer(k.sign(word), s.cryptLen);
    SmallMod(k.sign(word), U64);
    PowersOfTwo();
    DigitsLength(k.sign(word), |c.charset|, 64);
  }

  /** What CHECK makes of a code that stands for `v`. */
  lemma CheckOf(c: Config, k: Key, text: string, v: nat)
    requires ValidKey(k) && Prepare(c, k).Ok? && v < k.modulus && TextValue(c.charset, AfterSpace(text)) == Some(v)
    ensures var s := Prepare(c, k).value;
            && 1 <= s.cryptLen <= 8
            && Checked(c, k, s, text) ==
               match Unpacked(c, s.magic, k.recover(v)) case None => Err(InvalidFields) case Some(p) => Ok(p)
  {
    hide Prepare, Unpacked, BigEndian, Value, TextValue, AfterSpace;
    var s := Prepare(c, k).value;
    KeyFits(c, k);
    ThroughBuffer(v, s.cryptLen);
    SmallMod(v, U64);
    ThroughBuffer(k.recover(v), s.cryptLen);
    SmallMod(k.recover(v), U64);
  }

  /** The voucher printed for a roll and a ticket checks as that roll and ticket, with or
      without its leading space, exactly when each of its digits is the first position of its
      character in the alphabet. */
  lemma PrintThenCheck(c: Config, k: Key, roll: nat, ticket: nat)
    requires ValidKey(k) && Prepare(c, k).Ok? && roll < Rolls(c) && ticket < Tickets(c) && ' ' !in c.charset
    ensures var s := Prepare(c, k).value;
            && 1 <= s.cryptLen <= 8 && |c.charset| >= 2 && Printed(c, k, s, roll, ticket).Ok?
            && var text := Printed(c, k, s, roll, ticket).value;
            && Checked(c, k, s, " " + text) == Checked(c, k, s, text)
            && (Checked(c, k, s, text) == Ok(Pair(roll, ticket)) <==>
                FirstPositions(Digits(k.sign(Packed(c, s.magic, roll, ticket)), |c.charset|), c.charset))
  {
    hide Prepare, Printed, Packed, Unpacked, Digits, Text, TextValue, AfterSpace, FirstPositions;
    var s := Prepare(c, k).value;
    PrintSucceeds(c, k, roll, ticket);
    SetupFits(c, k);
    var word := Packed(c, s.magic, roll, ticket);
    var digits := Digits(k.sign(word), |c.charset|);
    var text := Text(digits, c.charset);
    DigitsBelow(k.sign(word), |c.charset|);
    TextInCharset(digits, c.charset);
    AfterSpaceNone(text);
    TextExact(c.charset, k.sign(word));
    var v := TextValue(c.charset, text).value;
    CheckOf(c, k, text, v);
    CheckOf(c, k, " " + text, v);
    AcceptsOnlyPacked(c, s.magic, k.recover(v), roll, ticket);
  }

  /** An accepted configuration whose alphabet repeats a character, and a key of 8 bits. */
  const REPEATING := Config(2, 2, 2, 0, "aa")

  const SMALL_KEY := Key(8, 200, (x: nat) => x, (x: nat) => x)

  /** With it, the voucher of roll 1 and ticket 1 does not check as that pair. */
  lemma RepeatedCharacterFails()
    ensures ValidKey(SMALL_KEY) && Prepare(REPEATING, SMALL_KEY) == Ok(Setup(1, 1, 0))
    ensures var s := Setup(1, 1, 0);
            && Printed(REPEATING, SMALL_KEY, s, 1, 1).Ok?
            && Checked(REPEATING, SMALL_KEY, s, Printed(REPEATING, SMALL_KEY, s, 1, 1).value) != Ok(Pair(1, 1))
  {
    SmallSetup();
    SmallWord();
    hide Printed, Checked, Packed, Prepare, ValidKey;
    PrintThenCheck(REPEATING, SMALL_KEY, 1, 1);
    ThirtySeven();
  }

  lemma SmallSetup()
    ensures ValidKey(SMALL_KEY) && Prepare(REPEATING, SMALL_KEY) == Ok(Setup(1, 1, 0))
  {
    SmallPowers();
    hide Pow;
  }

  lemma SmallWord()
    ensures Packed(REPEATING, 0, 1, 1) == 37 && 1 < Rolls(REPEATING) && 1 < Tickets(REPEATING)
  {
    SmallPowers();
    hide Pow;
  }

  /** The lowest digit of 37 to base 2 is 1, and the character there stands at position 0 too. */
  lemma ThirtySeven()
    ensures !FirstPositions(Digits(37, 2), "aa")
  {
    DigitsStep(37, 2);
    hide Digits, FirstPositions;
    FirstPositionsCons(1, Digits(18, 2), "aa");
  }

  lemma SmallPowers()
    ensures Pow(2, 1) == 2 && Pow(2, 2) == 4 && Pow(2, 7) == 128 && Pow(2, 8) == 256
  {
    assert Pow(2, 4) == 16;
  }

  /** The voucher printed for this roll and ticket checks as them. */
  ghost predicate RoundTrips(c: Config, k: Key, roll: nat, ticket: nat) {
    && Prepare(c, k).Ok?
    && var s := Prepare(c, k).value;
    && 1 <= s.cryptLen <= 8 && |c.charset| >= 2 && Printed(c, k, s, roll, ticket).Ok?
    && Checked(c, k, s, Printed(c, k, s, roll, ticket).value) == Ok(Pair(roll, ticket))
  }

  /** Every voucher of a configuration whose alphabet tells the digits below the modulus apart
      checks as what it was printed for. */
  lemma VoucherRoundTrip(c: Config, k: Key, roll: nat, ticket: nat)
    requires ValidKey(k) && Prepare(c, k).Ok? && roll < Rolls(c) && ticket < Tickets(c)
    requires ' ' !in c.charset && Distinguishes(c.charset, k.modulus)
    ensures RoundTrips(c, k, roll, ticket)
  {
    hide Prepare, Printed, Checked, Packed, Digits;
    var s := Prepare(c, k).value;
    PrintThenCheck(c, k, roll, ticket);
    PrintSucceeds(c, k, roll, ticket);
    var n := k.sign(Packed(c, s.magic, roll, ticket));
    DigitsBelow(n, |c.charset|);
    FirstIfDistinct(Digits(n, |c.charset|), c.charset, k.modulus);
  }

  function Swapped(a: nat, b: nat, x: nat): nat {
    if x == a then b else if x == b then a else x
  }

  /** A key whose primitives exchange two numbers. */
  function SwapKey(bits: nat, modulus: nat, a: nat, b: nat): Key {
    Key(bits, modulus, (x: nat) => Swapped(a, b, x), (x: nat) => Swapped(a, b, x))
  }

  lemma SwapKeyValid(bits: nat, modulus: nat, a: nat, b: nat)
    requires KeySize(bits, modulus) && a < modulus && b < modulus
    ensures ValidKey(SwapKey(bits, modulus, a, b))
  {
    hide Pow;
  }

  /** If the alphabet confuses two digits below the modulus, some key of that modulus prints a
      voucher for this roll and ticket that does not check as them. */
  lemma ConfusedVoucher(c: Config, bits: nat, modulus: nat, roll: nat, ticket: nat, i: nat, j: nat) returns (k: Key)
    requires KeySize(bits, modulus) && Prepare(c, SwapKey(bits, modulus, 0, 0)).Ok?
    requires roll < Rolls(c) && ticket < Tickets(c) && ' ' !in c.charset
    requires i < j < |c.charset| && j < modulus && c.charset[i] == c.charset[j]
    ensures ValidKey(k) && k.bits == bits && k.modulus == modulus && !RoundTrips(c, k, roll, ticket)
  {
    var some := SwapKey(bits, modulus, 0, 0);
    var magic := Prepare(c, some).value.magic;
    hide Prepare, Packed, Printed, Checked, Digits, FirstPositions, KeySize, Pow;
    assert modulus > 0;
    SwapKeyValid(bits, modulus, 0, 0);
    PrintSucceeds(c, some, roll, ticket);
    var word := Packed(c, magic, roll, ticket);
    k := SwapKey(bits, modulus, word, j);
    SwapKeyValid(bits, modulus, word, j);
    SamePreparation(c, some, k);
    PrintThenCheck(c, k, roll, ticket);
    OneDigit(c.charset, j);
    NotFirst(c.charset, i, j);
  }

  lemma SamePreparation(c: Config, k: Key, k': Key)
    requires k.bits == k'.bits
    ensures Prepare(c, k) == Prepare(c, k')
  {}

  lemma OneDigit(charset: string, j: nat)
    requires 0 < j < |charset| && |charset| >= 2
    ensures Digits(j, |charset|) == [j]
  {
    SmallMod(j, |charset|);
    assert j / |charset| == 0;
  }

  lemma NotFirst(charset: string, i: nat, j: nat)
    requires i < j < |charset| && charset[i] == charset[j]
    ensures !FirstPositions([j], charset)
  {
    IndexOfAt(charset, i);
  }

  /** The exact condition on the alphabet, for any roll and ticket: the voucher checks with every key
      of a modulus if and only if the alphabet tells the digits below that modulus apart. */
  lemma AlphabetExact(c: Config, bits: nat, modulus: nat, roll: nat, ticket: nat)
    requires KeySize(bits, modulus) && Prepare(c, SwapKey(bits, modulus, 0, 0)).Ok?
    requires roll < Rolls(c) && ticket < Tickets(c) && ' ' !in c.charset
    ensures Distinguishes(c.charset, modulus)
            <==> forall k: Key | ValidKey(k) && k.bits == bits && k.modulus == modulus :: RoundTrips(c, k, roll, ticket)
  {
    hide Prepare, RoundTrips, ValidKey, KeySize;
    if Distinguishes(c.charset, modulus) {
      forall k: Key | ValidKey(k) && k.bits == bits && k.modulus == modulus ensures RoundTrips(c, k, roll, ticket) {
        SamePreparation(c, SwapKey(bits, modulus, 0, 0), k);
        VoucherRoundTrip(c, k, roll, ticket);
      }
    } else {
      var i: nat, j: nat :| i < j < |c.charset| && j < modulus && c.charset[i] == c.charset[j];
      var k := ConfusedVoucher(c, bits, modulus, roll, ticket, i, j);
    }
  }

  // ----- the loops -----

  /** PRINT for one ticket. */
  method PrintVoucher(c: Config, k: Key, s: Setup, roll: nat, ticket: nat) returns (r: Result<string, PrintError>)
    requires 1 <= s.cryptLen <= 8 && |c.charset| >= 2
    ensures r == Printed(c, k, s, roll, ticket)
  {
    hide PackWord, BigEndian, Value;
    var clearbuf, cryptbuf := new byte[8], new byte[8];
    Ll2Buf(PackWord(c, s, roll, ticket), clearbuf, s.cryptLen);
    var clear := Value(clearbuf[..s.cryptLen]);
    if clear >= k.modulus { return Err(CannotSign); }
    Ll2Buf(k.sign(clear), cryptbuf, s.cryptLen);
    var cryptcode := Buf2Ll(cryptbuf, s.cryptLen);
    r := PrintDigits(cryptcode, c.charset);
  }

  /** PRINT for tickets 1..count of a roll: refused out of range; otherwise one code per ticket, and
      with an alphabet that tells the digits apart every code checks as its own ticket. */
  method PrintRoll(c: Config, k: Key, roll: nat, count: nat) returns (r: Option<seq<string>>)
    requires ValidKey(k) && Prepare(c, k).Ok?
    ensures r.Some? <==> 1 <= count < Tickets(c) && roll < Rolls(c)
    ensures r.Some? ==> 1 <= Prepare(c, k).value.cryptLen <= 8 && |c.charset| >= 2 && |r.value| == count
    ensures r.Some? ==>
              forall i | 0 <= i < count :: Printed(c, k, Prepare(c, k).value, roll, i + 1) == Ok(r.value[i])
    ensures r.Some? && ' ' !in c.charset && Distinguishes(c.charset, k.modulus) ==>
              forall i | 0 <= i < count :: Checked(c, k, Prepare(c, k).value, r.value[i]) == Ok(Pair(roll, i + 1))
  {
    hide Prepare, Printed, Checked;
    if count >= Tickets(c) || count < 1 || roll >= Rolls(c) { return None; }
    var s := Prepare(c, k).value;
    KeyFits(c, k);
    var codes: seq<string> := [];
    for ticketid := 1 to count + 1
      invariant |codes| == ticketid - 1
      invariant forall i | 0 <= i < |codes| :: Printed(c, k, s, roll, i + 1) == Ok(codes[i])
    {
      PrintSucceeds(c, k, roll, ticketid);
      var code := PrintVoucher(c, k, s, roll, ticketid);
      codes := codes + [code.value];
    }
    if ' ' !in c.charset && Distinguishes(c.charset, k.modulus) {
      forall i | 0 <= i < count ensures Checked(c, k, s, codes[i]) == Ok(Pair(roll, i + 1)) {
        VoucherRoundTrip(c, k, roll, i + 1);
      }
    }
    return Some(codes);
  }

  /** The loop that prints digits into a buffer of 64 characters. */
  method PrintDigits(n: nat, charset: string) returns (r: Result<string, PrintError>)
    requires |charset| >= 2
    ensures var d := Digits(n, |charset|);
            r == if |d| > MAX_VOUCHER_LEN then Err(TooLong) else Ok(Text(d, charset))
  {
    hide Digits, Text;
    var base := |charset|;
    var codebuf: string, rest: nat, num: nat := "", n, MAX_VOUCHER_LEN;
    assert "" + Text(Digits(n, base), charset) == Text(Digits(n, base), charset);
    while rest > 0 && num > 0
      invariant |codebuf| + num == MAX_VOUCHER_LEN
      invariant |Digits(n, base)| == |codebuf| + |Digits(rest, base)|
      invariant Text(Digits(n, base), charset) == codebuf + Text(Digits(rest, base), charset)
      decreases num
    {
      TextCons(charset, rest);
      assert codebuf + ([charset[rest % base]] + Text(Digits(rest / base, base), charset))
          == (codebuf + [charset[rest % base]]) + Text(Digits(rest / base, base), charset);
      codebuf := codebuf + [charset[rest % base]];
      rest := rest / base;
      num := num - 1;
    }
    if rest > 0 {
      TextCons(charset, rest);
      return Err(TooLong);
    }
    NoDigits(base, charset);
    assert codebuf + "" == codebuf;
    return Ok(codebuf);
  }

  lemma NoDigits(base: nat, charset: string)
    requires base >= 2
    ensures Digits(0, base) == [] && Text([], charset) == ""
  {}

  lemma TextCons(charset: string, n: nat)
    requires |charset| >= 2 && n > 0
    ensures n % |charset| < |charset|
    ensures Text(Digits(n, |charset|), charset) ==
            [charset[n % |charset|]] + Text(Digits(n / |charset|, |charset|), charset)
    ensures |Digits(n, |charset|)| == 1 + |Digits(n / |charset|, |charset|)|
  {
    hide Digits, Text;
    TextStep(charset, n);
    DigitsStep(n, |charset|);
    var text := Text(Digits(n, |charset|), charset);
    assert text == [text[0]] + text[1..];
  }

  /** The loop that reads a code from its end. */
  method ReadCode(charset: string, text: string) returns (r: Option<nat>)
    ensures r == match TextValue(charset, AfterSpace(text)) case None => None case Some(v) => Some(v % U64)
  {
    hide AfterSpace, TextValue, Horner;
    var i: nat, cryptcode: nat := |text|, 0;
    ghost var tail: string, value: nat := "", 0;
    ReadStart(charset, text);
    while i > 0
      invariant 0 <= i <= |text|
      invariant AfterSpace(text) == AfterSpace(text[..i]) + tail
      invariant TextValue(charset, tail) == Some(value) && cryptcode == value % U64
    {
      i := i - 1;
      var ch := text[i];
      AfterSpaceStep(text, i, tail);
      if ch == ' ' {
        return Some(cryptcode);
      }
      ReadStep(charset, ch, tail);
      match IndexOf(charset, ch)
      case None =>
        NoValue(charset, AfterSpace(text[..i]), [ch] + tail);
        return None;
      case Some(q) =>
        HornerMod(value, |charset|, q);
        cryptcode := (cryptcode * |charset|) % U64;
        cryptcode := (cryptcode + q) % U64;
        tail, value := [ch] + tail, Horner(value, |charset|, q);
    }
    AfterSpaceEnd(text, tail);
    return Some(cryptcode);
  }

  lemma ReadStart(charset: string, text: string)
    ensures AfterSpace(text) == AfterSpace(text[..|text|]) + "" && TextValue(charset, "") == Some(0)
  {
    assert text[..|text|] == text;
  }

  lemma AfterSpaceStep(text: string, i: nat, tail: string)
    requires i < |text|
    ensures AfterSpace(text[..i + 1]) + tail ==
            if text[i] == ' ' then tail else AfterSpace(text[..i]) + ([text[i]] + tail)
  {
    var t := text[..i + 1];
    assert t[..i] == text[..i] && t[|t| - 1] == text[i];
    if text[i] == ' ' {
      assert "" + tail == tail;
    } else {
      assert (AfterSpace(text[..i]) + [text[i]]) + tail == AfterSpace(text[..i]) + ([text[i]] + tail);
    }
  }

  lemma AfterSpaceEnd(text: string, tail: string)
    ensures AfterSpace(text[..0]) + tail == tail
  {
    assert text[..0] == "";
  }

  lemma ReadStep(charset: string, ch: char, tail: string)
    ensures TextValue(charset, [ch] + tail) ==
            match TextValue(charset, tail)
            case None => None
            case Some(v) => match IndexOf(charset, ch) case None => None case Some(q) => Some(Horner(v, |charset|, q))
  {
    assert ([ch] + tail)[1..] == tail;
  }

  lemma HornerMod(v: nat, base: nat, q: nat)
    ensures ((v % U64 * base) % U64 + q) % U64 == Horner(v, base, q) % U64
  {
    ModEarly(v, base, q, U64);
    ModEarly(v % U64 * base, 1, q, U64);
  }

  lemma {:induction false} NoValue(charset: string, x: string, y: string)
    requires TextValue(charset, y).None?
    ensures TextValue(charset, x + y).None?
  {
    if x == "" {
      assert x + y == y;
    } else {
      assert (x + y)[1..] == x[1..] + y;
      NoValue(charset, x[1..], y);
    }
  }

  /** CHECK for one code. */
  method CheckVoucher(c: Config, k: Key, s: Setup, text: string) returns (r: Result<Pair, CheckError>)
    requires 1 <= s.cryptLen <= 8
    ensures r == Checked(c, k, s, text)
  {
    hide BigEndian, Value, TextValue, AfterSpace, Unpacked;
    var code := ReadCode(c.charset, text);
    if code.None? { return Err(IllegalCharacter); }
    var cryptbuf, clearbuf := new byte[8], new byte[8];
    Ll2Buf(code.value, cryptbuf, s.cryptLen);
    var crypt := Value(cryptbuf[..s.cryptLen]);
    if crypt >= k.modulus { return Err(InvalidCode); }
    Ll2Buf(k.recover(crypt), clearbuf, s.cryptLen);
    var clearcode := Buf2Ll(clearbuf, s.cryptLen);
    match Unpacked(c, s.magic, clearcode)
    case None => return Err(InvalidFields);
    case Some(p) => return Ok(p);
  }
}
