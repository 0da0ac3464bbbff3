/** Vouchers from outside: which configurations are accepted, what a printed code consists of, and
    what CHECK accepts, all said in the configuration's own numbers. */
module VoucherCodes {
  import opened Wrappers
  import opened Arith
  import opened Voucher

  /** The bits that are left for the magic number. */
  function MagicBits(c: Config, k: Key): int {
    8 * (k.bits / 8) - 1 - (c.rollBits + c.ticketBits + c.checksumBits)
  }

  /** A configuration is accepted exactly when the key has at most 64 bits, the alphabet two characters,
      each field at most 31 bits, and the fields leave the top bit of the key free; the magic number is
      then the configured one modulo what is left. */
  lemma PreparesExactly(c: Config, k: Key)
    ensures Prepare(c, k).Ok? <==>
            && k.bits / 8 <= 8 && |c.charset| >= 2
            && c.rollBits <= 31 && c.ticketBits <= 31 && c.checksumBits <= 31 && MagicBits(c, k) >= 0
    ensures Prepare(c, k).Ok? ==>
              && Pow(2, MagicBits(c, k)) > 0
              && Prepare(c, k).value == Setup(k.bits / 8, MagicBits(c, k), c.magic % Pow(2, MagicBits(c, k)))
  {
    if MagicBits(c, k) >= 0 {
      PowPositive(2, MagicBits(c, k));
      ModOne(c.magic);
    }
  }

  lemma ModOne(x: nat)
    ensures x % Pow(2, 0) == 0
  {}

  // ----- what a code consists of -----

  /** The word of a voucher, bit by bit: the roll in the lowest bits, then the ticket, then the sum of
      both as far as it goes, then the magic number as far as there is room below the top bit. */
  ghost predicate IsWord(c: Config, k: Key, roll: nat, ticket: nat, word: nat) {
    && MagicBits(c, k) >= 0
    && var r, t, s, m := Pow(2, c.rollBits), Pow(2, c.ticketBits), Pow(2, c.checksumBits), Pow(2, MagicBits(c, k));
    && r > 0 && t > 0 && s > 0 && m > 0 && r * t > 0 && r * t * s > 0
    && word % r == roll && word / r % t == ticket
    && word / (r * t) % s == (ticket + roll) % s && word / (r * t * s) == c.magic % m
  }

  /** The text of a number: character j is the alphabet's character for its digit j, the lowest digit
      first, and there are as many as the number has digits. */
  ghost predicate IsText(charset: string, n: nat, text: string)
    requires |charset| >= 2
  {
    && n < Pow(|charset|, |text|) && (text == "" || n >= Pow(|charset|, |text| - 1))
    && forall j: nat | j < |text| ::
         Pow(|charset|, j) > 0 && n / Pow(|charset|, j) % |charset| < |charset|
         && text[j] == charset[n / Pow(|charset|, j) % |charset|]
  }

  lemma TextAt(charset: string, n: nat, j: nat)
    requires |charset| >= 2 && j < |Text(Digits(n, |charset|), charset)|
    ensures Pow(|charset|, j) > 0 && n / Pow(|charset|, j) % |charset| < |charset|
    ensures Text(Digits(n, |charset|), charset)[j] == charset[n / Pow(|charset|, j) % |charset|]
    decreases n
  {
    hide Digits, Text;
    PowPositive(|charset|, j);
    if n == 0 {
      NoDigits(|charset|, charset);
    } else {
      DivShrinks(n, |charset|);
      TextCons(charset, n);
      if j == 0 {
        DivOne(n);
      } else {
        TextAt(charset, n / |charset|, j - 1);
        DivDiv(n, |charset|, Pow(|charset|, j - 1));
      }
    }
  }

  lemma DivOne(n: nat)
    ensures forall b: nat :: Pow(b, 0) == 1 && n / Pow(b, 0) == n
  {}

  lemma {:induction false} TextSize(charset: string, n: nat)
    requires |charset| >= 2
    ensures var text := Text(Digits(n, |charset|), charset);
            n < Pow(|charset|, |text|) && (text == "" || n >= Pow(|charset|, |text| - 1))
    decreases n
  {
    hide Digits, Text;
    if n == 0 {
      NoDigits(|charset|, charset);
    } else {
      var b, q := |charset|, n / |charset|;
      DivShrinks(n, b);
      TextCons(charset, n);
      TextSize(charset, q);
      var len := |Text(Digits(q, b), charset)|;
      SizeStep(n, b, len, q);
    }
  }

  lemma SizeStep(n: nat, b: nat, len: nat, q: nat)
    requires b >= 2 && n > 0 && q == n / b && q < Pow(b, len) && (len == 0 || q >= Pow(b, len - 1))
    ensures n < Pow(b, len + 1) && n >= Pow(b, len)
  {
    PowStep(b, len);
    if len > 0 { PowStep(b, len - 1); } else { DivOne(n); }
    hide Pow;
    Bracket(n, b, q, Pow(b, len), if len > 0 then Pow(b, len - 1) else 0);
  }

  lemma PowStep(b: nat, n: nat)
    ensures Pow(b, n + 1) == b * Pow(b, n)
  {}

  lemma Bracket(n: nat, b: nat, q: nat, above: nat, below: nat)
    requires b > 0 && q == n / b && below <= q < above
    ensures below * b <= n < above * b
  {
    DivModBack(n, b);
    MulUp(q + 1, above, b);
    MulUp(below, q, b);
    assert (q + 1) * b == q * b + b;
  }

  lemma TextIs(charset: string, n: nat)
    requires |charset| >= 2
    ensures IsText(charset, n, Text(Digits(n, |charset|), charset))
  {
    hide Digits, Text;
    TextSize(charset, n);
    forall j: nat | j < |Text(Digits(n, |charset|), charset)|
      ensures Pow(|charset|, j) > 0 && n / Pow(|charset|, j) % |charset| < |charset|
      ensures Text(Digits(n, |charset|), charset)[j] == charset[n / Pow(|charset|, j) % |charset|]
    {
      TextAt(charset, n, j);
    }
  }

  lemma PackedIsWord(c: Config, k: Key, roll: nat, ticket: nat)
    requires Prepare(c, k).Ok? && roll < Rolls(c) && ticket < Tickets(c)
    ensures IsWord(c, k, roll, ticket, Packed(c, Prepare(c, k).value.magic, roll, ticket))
  {
    PreparesExactly(c, k);
    hide Prepare, Pow, Joined;
    var rs, ts, cs := Rolls(c), Tickets(c), Checksums(c);
    ModRange(ticket + roll, cs);
    Fields(Prepare(c, k).value.magic, (ticket + roll) % cs, ticket, roll, cs, ts, rs);
  }

  lemma OneWord(c: Config, k: Key, roll: nat, ticket: nat, word: nat)
    requires Prepare(c, k).Ok? && IsWord(c, k, roll, ticket, word)
    ensures roll < Rolls(c) && ticket < Tickets(c) && word == Packed(c, Prepare(c, k).value.magic, roll, ticket)
  {
    PreparesExactly(c, k);
    hide Prepare, Pow, Joined;
    var rs, ts, cs := Rolls(c), Tickets(c), Checksums(c);
    ModRange(word, rs);
    ModRange(word / rs, ts);
    FieldsBack(word, cs, ts, rs);
  }

  /** PRINT from end to end: the code of a ticket is the text of the signature of its word. */
  lemma PrintedIs(c: Config, k: Key, roll: nat, ticket: nat) returns (word: nat)
    requires ValidKey(k) && Prepare(c, k).Ok?
    requires roll < Pow(2, c.rollBits) && ticket < Pow(2, c.ticketBits)
    ensures 1 <= k.bits / 8 <= 8 && |c.charset| >= 2 && Printed(c, k, Prepare(c, k).value, roll, ticket).Ok?
    ensures IsWord(c, k, roll, ticket, word) && word < k.modulus
    ensures IsText(c.charset, k.sign(word), Printed(c, k, Prepare(c, k).value, roll, ticket).value)
  {
    hide Packed, Digits, Text, Printed, IsWord, IsText;
    PrintSucceeds(c, k, roll, ticket);
    PackedIsWord(c, k, roll, ticket);
    word := Packed(c, Prepare(c, k).value.magic, roll, ticket);
    TextIs(c.charset, k.sign(word));
  }

  // ----- what CHECK accepts -----

  /** What is read of a text is what follows its last space. */
  lemma {:induction false} AfterSpaceIs(text: string) returns (head: string)
    ensures text == head + AfterSpace(text) && ' ' !in AfterSpace(text)
    ensures head == "" || head[|head| - 1] == ' '
  {
    if text == "" || text[|text| - 1] == ' ' {
      assert text == text + "";
      return text;
    }
    var t, last := text[..|text| - 1], text[|text| - 1];
    head := AfterSpaceIs(t);
    assert AfterSpace(text) == AfterSpace(t) + [last];
    hide AfterSpace;
    Regrouped(text, head, AfterSpace(t), last);
  }

  lemma Regrouped(text: string, head: string, tail: string, last: char)
    requires text != "" && text[..|text| - 1] == head + tail && text[|text| - 1] == last
    ensures text == head + (tail + [last])
  {
    assert text == text[..|text| - 1] + [last];
  }

  /** A text stands for a number exactly when all its characters are in the alphabet; the first
      character counts least. */
  lemma {:induction false} TextValueIs(charset: string, text: string)
    ensures TextValue(charset, text).Some? <==> forall i | 0 <= i < |text| :: text[i] in charset
    ensures text != "" && TextValue(charset, text).Some? ==>
              && TextValue(charset, text[1..]).Some? && IndexOf(charset, text[0]).Some?
              && TextValue(charset, text).value ==
                 TextValue(charset, text[1..]).value * |charset| + IndexOf(charset, text[0]).value
  {
    if text != "" {
      TextValueIs(charset, text[1..]);
      assert forall i | 0 < i < |text| :: text[i] == text[1..][i - 1];
    }
  }

  /** CHECK from end to end: a text is accepted as a roll and ticket exactly when what follows its last
      space stands for a number that, cut to the key's size, is below the modulus and recovers to the
      word of that roll and ticket. */
  lemma ChecksExactly(c: Config, k: Key, text: string, roll: nat, ticket: nat)
    requires ValidKey(k) && Prepare(c, k).Ok?
    ensures 1 <= k.bits / 8 <= 8 && Pow(2, k.bits) > 0
    ensures var v := TextValue(c.charset, AfterSpace(text));
            Checked(c, k, Prepare(c, k).value, text) == Ok(Pair(roll, ticket)) <==>
            && v.Some? && v.value % Pow(2, k.bits) < k.modulus
            && IsWord(c, k, roll, ticket, k.recover(v.value % Pow(2, k.bits)))
  {
    PreparesExactly(c, k);
    KeyFits(c, k);
    PowPositive(2, k.bits);
    hide Prepare, TextValue, AfterSpace, Packed, Unpacked, IsWord, BigEndian, Value, Pow;
    var s, v := Prepare(c, k).value, TextValue(c.charset, AfterSpace(text));
    if v.Some? {
      CutToKey(v.value, s.cryptLen);
      var crypt := v.value % Pow(2, k.bits);
      if crypt < k.modulus {
        ThroughBuffer(k.recover(crypt), s.cryptLen);
        SmallMod(k.recover(crypt), U64);
        AcceptsWord(c, k, k.recover(crypt), roll, ticket);
      }
    }
  }

  lemma AcceptsWord(c: Config, k: Key, word: nat, roll: nat, ticket: nat)
    requires Prepare(c, k).Ok?
    ensures Unpacked(c, Prepare(c, k).value.magic, word) == Some(Pair(roll, ticket)) <==>
            IsWord(c, k, roll, ticket, word)
  {
    PreparesExactly(c, k);
    hide Prepare, Unpacked, Packed, IsWord;
    AcceptsOnlyPacked(c, Prepare(c, k).value.magic, word, roll, ticket);
    if roll < Rolls(c) && ticket < Tickets(c) { PackedIsWord(c, k, roll, ticket); }
    if IsWord(c, k, roll, ticket, word) { OneWord(c, k, roll, ticket, word); }
  }

  /** The 64-bit number, written to a buffer of the key's length, is cut to that length. */
  lemma CutToKey(v: nat, len: nat)
    requires 1 <= len <= 8
    ensures Pow(2, 8 * len) > 0 && Value(BigEndian(v % U64, len)) == v % Pow(2, 8 * len)
  {
    PowPositive(2, 8 * len);
    PowPositive(2, 64 - 8 * len);
    ValueOfBigEndian(v % U64, len);
    PowPow(2, 8, len);
    assert Pow(2, 8) == 256;
    PowersOfTwo();
    PowAdd(2, 8 * len, 64 - 8 * len);
    ModMod(v, Pow(2, 8 * len), Pow(2, 64 - 8 * len));
  }

  // ----- the magic number -----

  /** A voucher printed under one magic number checks under another, with the same key and the same
      alphabet and fields, if and only if the two agree in the bits that there is room for. */
  lemma MagicDecides(c: Config, magic: nat, k: Key, roll: nat, ticket: nat)
    requires ValidKey(k) && Prepare(c, k).Ok? && ' ' !in c.charset && Distinguishes(c.charset, k.modulus)
    requires roll < Pow(2, c.rollBits) && ticket < Pow(2, c.ticketBits)
    ensures var c' := c.(magic := magic);
            && Prepare(c', k).Ok? && 1 <= k.bits / 8 <= 8 && |c.charset| >= 2 && MagicBits(c, k) >= 0
            && Pow(2, MagicBits(c, k)) > 0
            && Printed(c, k, Prepare(c, k).value, roll, ticket).Ok?
            && var code := Printed(c, k, Prepare(c, k).value, roll, ticket).value;
            (Checked(c', k, Prepare(c', k).value, code) == Ok(Pair(roll, ticket)) <==>
             c.magic % Pow(2, MagicBits(c, k)) == magic % Pow(2, MagicBits(c, k)))
  {
    var c' := c.(magic := magic);
    PreparesExactly(c, k);
    PreparesExactly(c', k);
    PrintSucceeds(c, k, roll, ticket);
    hide Prepare, Packed, Printed, Checked, Unpacked, Digits, Text, TextValue, AfterSpace, Pow;
    var s, s' := Prepare(c, k).value, Prepare(c', k).value;
    var word := Packed(c, s.magic, roll, ticket);
    var code := Printed(c, k, s, roll, ticket).value;
    CodeReads(c, k, roll, ticket);
    CheckOf(c', k, code, k.sign(word));
    AcceptsOnlyPacked(c', s'.magic, word, roll, ticket);
    MagicShows(c, s.magic, s'.magic, roll, ticket);
    SamePacked(c, magic, s'.magic, roll, ticket);
  }

  lemma SamePacked(c: Config, x: nat, magic: nat, roll: nat, ticket: nat)
    ensures Packed(c.(magic := x), magic, roll, ticket) == Packed(c, magic, roll, ticket)
    ensures Rolls(c.(magic := x)) == Rolls(c) && Tickets(c.(magic := x)) == Tickets(c)
  {}

  /** The code, as CHECK reads it, stands for the signature of the word. */
  lemma CodeReads(c: Config, k: Key, roll: nat, ticket: nat)
    requires ValidKey(k) && Prepare(c, k).Ok? && roll < Rolls(c) && ticket < Tickets(c)
    requires ' ' !in c.charset && Distinguishes(c.charset, k.modulus)
    ensures var s := Prepare(c, k).value;
            && 1 <= s.cryptLen <= 8 && |c.charset| >= 2 && Printed(c, k, s, roll, ticket).Ok?
            && TextValue(c.charset, AfterSpace(Printed(c, k, s, roll, ticket).value)) ==
               Some(k.sign(Packed(c, s.magic, roll, ticket)))
  {
    hide Prepare, Packed, Printed, Digits, Text, TextValue, AfterSpace, FirstPositions, Pow;
    PrintSucceeds(c, k, roll, ticket);
    var n := k.sign(Packed(c, Prepare(c, k).value.magic, roll, ticket));
    var digits := Digits(n, |c.charset|);
    DigitsBelow(n, |c.charset|);
    FirstIfDistinct(digits, c.charset, k.modulus);
    TextInCharset(digits, c.charset);
    AfterSpaceNone(Text(digits, c.charset));
    TextExact(c.charset, n);
  }

  /** Packed words of one roll and ticket differ exactly when the magic numbers do. */
  lemma MagicShows(c: Config, m: nat, m': nat, roll: nat, ticket: nat)
    requires roll < Rolls(c) && ticket < Tickets(c)
    ensures Packed(c, m, roll, ticket) == Packed(c, m', roll, ticket) <==> m == m'
  {
    hide Pow, Joined;
    var rs, ts, cs := Rolls(c), Tickets(c), Checksums(c);
    ModRange(ticket + roll, cs);
    Fields(m, (ticket + roll) % cs, ticket, roll, cs, ts, rs);
    Fields(m', (ticket + roll) % cs, ticket, roll, cs, ts, rs);
  }
}
