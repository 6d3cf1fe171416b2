/** Base 32 of Totp.java (RFC 4648, section 6, without padding) and the recovery code of identity.ts. */
module Base32 {
  import opened Wrappers
  import opened BitStreams

  // Both use one 32-bit accumulator that is never cleared and overflows on longer inputs.

  /** n consecutive characters. */
  function Range(first: char, n: nat): (s: string)
    requires first as nat + n < 256
    ensures |s| == n
  {
    seq(n, i requires 0 <= i < n => (first as nat + i) as char)
  }

  /** A to Z, 2 to 7. */
  const ALPHABET: string := Range('A', 26) + Range('2', 6)

  /** 0 to 9 and A to Z without I, L, O and U. */
  const CROCKFORD: string := Range('0', 10) + Range('A', 8) + Range('J', 2) + Range('M', 2) + Range('P', 5)
                             + Range('V', 5)

  type Bytes = s: seq<nat> | AllBelow(256, s)
  type Symbols = s: seq<nat> | AllBelow(32, s)

  // -- What base 32 is ---------------------------------------------------------

  /** The symbols spell the bytes' bits, five at a time, the last symbol filled up with zeros. */
  predicate IsEncoding(data: Bytes, symbols: Symbols) {
    var fill := 5 * |symbols| - 8 * |data|;
    0 <= fill < 5 && Stream(symbols, 5) == Stream(data, 8) + Zeros(fill)
  }

  /** The bytes are the symbols' bits, eight at a time; fewer than eight left-over bits are dropped. */
  predicate IsDecoding(symbols: Symbols, data: Bytes) {
    var rest := 5 * |symbols| - 8 * |data|;
    0 <= rest < 8 && Stream(data, 8) <= Stream(symbols, 5)
  }

  /** Decoding what was encoded gives the bytes back, for every byte string. */
  lemma DecodeEncode(data: Bytes, symbols: Symbols, again: Bytes)
    requires IsEncoding(data, symbols) && IsDecoding(symbols, again)
    ensures again == data
  {
    Powers();
    StreamLength(again, 8);
    StreamLength(data, 8);
    assert |again| == |data|;
    assert Stream(again, 8) == Stream(data, 8);
    StreamInjective(again, data, 8);
  }

  /** Bytes have one encoding, and different bytes of one length have different encodings. */
  lemma EncodingExact(a: Bytes, b: Bytes, sa: Symbols, sb: Symbols)
    requires |a| == |b| && IsEncoding(a, sa) && IsEncoding(b, sb)
    ensures a == b <==> sa == sb
  {
    Powers();
    StreamLength(a, 8);
    StreamLength(b, 8);
    assert |sa| == |sb|;
    if a == b {
      StreamInjective(sa, sb, 5);
    } else if sa == sb {
      assert Stream(a, 8) == Stream(sa, 5)[..8 * |a|] && Stream(b, 8) == Stream(sb, 5)[..8 * |b|];
      StreamInjective(a, b, 8);
    }
  }

  // -- Characters --------------------------------------------------------------

  function Spell(symbols: Symbols, alphabet: string): (s: string)
    requires |alphabet| == 32
    ensures |s| == |symbols| && forall i :: 0 <= i < |s| ==> s[i] == alphabet[symbols[i]]
  {
    seq(|symbols|, i requires 0 <= i < |symbols| => alphabet[symbols[i]])
  }

  /** Java's indexOf. */
  function IndexOf(alphabet: string, c: char): (at: int)
    ensures -1 <= at < |alphabet|
    ensures at >= 0 ==> alphabet[at] == c && forall i :: 0 <= i < at ==> alphabet[i] != c
    ensures at < 0 ==> c !in alphabet
  {
    if alphabet == [] then -1
    else if alphabet[0] == c then 0
    else
      var at := IndexOf(alphabet[1..], c);
      if at < 0 then -1 else at + 1
  }

  function Upper(c: char): char {
    if 'a' <= c <= 'z' then c - 32 as char else c
  }

  /** toUpperCase on ASCII letters, then without '=' and blanks. */
  function Clean(s: string): string {
    if s == [] then []
    else
      var c := Upper(s[|s| - 1]);
      Clean(s[..|s| - 1]) + if c == '=' || c == ' ' then [] else [c]
  }

  predicate IsBase32(s: string) {
    forall i :: 0 <= i < |s| ==> IndexOf(ALPHABET, s[i]) >= 0
  }

  function Read(s: string): (symbols: Symbols)
    requires IsBase32(s)
    ensures |symbols| == |s|
  {
    seq(|s|, i requires 0 <= i < |s| => IndexOf(ALPHABET, s[i]) as nat)
  }

  // -- The accumulator ---------------------------------------------------------

  lemma Associates(a: seq<bool>, b: seq<bool>, c: seq<bool>)
    ensures (a + b) + c == a + (b + c)
  {
  }

  /** buffer << 8 | digit (or << 5): the shifted word ends in zeros, and the digit just fills them. */
  method Push(buffer: int, ghost bits: nat, m: nat, digit: nat, ghost done: seq<bool>) returns (word: int)
    requires (m == 256 && bits <= 24) || (m == 32 && bits <= 27)
    requires digit < m
    ensures var w := if m == 256 then 8 else 5;
            done + Bits(word, bits + w) == (done + Bits(buffer, bits)) + Bits(digit, w)
  {
    ghost var w := if m == 256 then 8 else 5;
    word := Wrap(buffer * m) + digit;
    Powers();
    BitsOfShift(buffer, bits, w, digit);
    BitsOfWrapPlus(buffer * m, digit, bits + w);
    Associates(done, Bits(buffer, bits), Bits(digit, w));
  }

  /** (buffer >> bits - w) & (m - 1): the topmost w of the pending bits. */
  method Peek(buffer: int, bits: nat, m: nat, ghost done: seq<bool>) returns (digit: nat)
    requires (m == 32 && 5 <= bits) || (m == 256 && 8 <= bits)
    ensures digit < m
    ensures var w := if m == 256 then 8 else 5;
            done + Bits(buffer, bits) == (done + Bits(digit, w)) + Bits(buffer, bits - w)
  {
    var w := if m == 256 then 8 else 5;
    digit := Shr(buffer, bits - w) % m;
    Powers();
    BitsSplit(buffer, w, bits - w);
    BitsOfMod(Shr(buffer, bits - w), w);
    Associates(done, Bits(digit, w), Bits(buffer, bits - w));
  }

  /** (buffer << 5 - bits) & 31: the pending bits moved to the top of a symbol. */
  method PeekLast(buffer: int, bits: nat, ghost done: seq<bool>) returns (digit: nat)
    requires 0 < bits < 5
    ensures digit < 32 && done + Bits(digit, 5) == (done + Bits(buffer, bits)) + Zeros(5 - bits)
  {
    digit := Wrap(buffer * Pow2(5 - bits)) % 32;
    Powers();
    BitsOfMod(Wrap(buffer * Pow2(5 - bits)), 5);
    BitsOfWrap(buffer * Pow2(5 - bits), 5);
    BitsOfShift(buffer, bits, 5 - bits, 0);
    BitsOfZero(5 - bits);
    Associates(done, Bits(buffer, bits), Zeros(5 - bits));
  }

  // -- The loops ---------------------------------------------------------------

  lemma SpellSnoc(symbols: Symbols, symbol: nat, alphabet: string)
    requires symbol < 32 == |alphabet|
    ensures AllBelow(32, symbols + [symbol])
    ensures Spell(symbols + [symbol], alphabet) == Spell(symbols, alphabet) + [alphabet[symbol]]
    ensures Stream(symbols + [symbol], 5) == Stream(symbols, 5) + Bits(symbol, 5)
  {
    StreamSnoc(symbols, symbol, 5);
  }

  /** Whole symbols are written off the accumulator until fewer than five bits are left. */
  method Drain(buffer: int, bits0: nat, ghost symbols0: Symbols, s0: string, alphabet: string)
      returns (bits: nat, ghost symbols: Symbols, s: string)
    requires |alphabet| == 32 && s0 == Spell(symbols0, alphabet)
    ensures bits < 5 && 5 * |symbols| + bits == 5 * |symbols0| + bits0
    ensures Stream(symbols, 5) + Bits(buffer, bits) == Stream(symbols0, 5) + Bits(buffer, bits0)
    ensures s == Spell(symbols, alphabet)
  {
    bits, symbols, s := bits0, symbols0, s0;
    while bits >= 5
      invariant 5 * |symbols| + bits == 5 * |symbols0| + bits0
      invariant Stream(symbols, 5) + Bits(buffer, bits) == Stream(symbols0, 5) + Bits(buffer, bits0)
      invariant s == Spell(symbols, alphabet)
    {
      var symbol := Peek(buffer, bits, 32, Stream(symbols, 5));
      SpellSnoc(symbols, symbol, alphabet);
      s := s + [alphabet[symbol]];
      symbols := symbols + [symbol];
      bits := bits - 5;
    }
  }

  /** Both writers' loop over the bytes: whole symbols written, fewer than five bits pending. */
  method WriteSymbols(data: Bytes, alphabet: string) returns (buffer: int, bits: nat, ghost symbols: Symbols, s: string)
    requires |alphabet| == 32
    ensures bits < 5 && 5 * |symbols| + bits == 8 * |data|
    ensures Stream(symbols, 5) + Bits(buffer, bits) == Stream(data, 8)
    ensures s == Spell(symbols, alphabet)
  {
    buffer, bits, symbols, s := 0, 0, [], "";
    var i := 0;
    while i < |data|
      invariant 0 <= i <= |data| && bits < 5 && 5 * |symbols| + bits == 8 * i
      invariant Stream(symbols, 5) + Bits(buffer, bits) == Stream(data[..i], 8)
      invariant s == Spell(symbols, alphabet)
    {
      StreamStep(data, i, 8);
      buffer := Push(buffer, bits, 256, data[i], Stream(symbols, 5));
      bits, symbols, s := Drain(buffer, bits + 8, symbols, s, alphabet);
      i := i + 1;
    }
    assert data[..|data|] == data;
  }

  /** The bits written and the bits left, with the last symbol filled up, are an encoding. */
  lemma Whole(data: Bytes, symbols: Symbols, buffer: int, bits: nat)
    requires bits < 5 && 5 * |symbols| + bits == 8 * |data|
             && Stream(symbols, 5) + Bits(buffer, bits) == Stream(data, 8)
    ensures bits == 0 ==> IsEncoding(data, symbols)
    ensures forall symbol: nat :: 0 < bits && symbol < 32
                                  && Stream(symbols, 5) + Bits(symbol, 5) == Stream(data, 8) + Zeros(5 - bits) ==>
              IsEncoding(data, symbols + [symbol])
  {
    if bits == 0 {
      assert Bits(buffer, 0) == [] && Zeros(0) == [];
    } else {
      forall symbol: nat | symbol < 32 && Stream(symbols, 5) + Bits(symbol, 5) == Stream(data, 8) + Zeros(5 - bits)
        ensures IsEncoding(data, symbols + [symbol])
      {
        StreamSnoc(symbols, symbol, 5);
      }
    }
  }

  method Base32Encode(data: Bytes) returns (s: string)
    ensures exists symbols: Symbols :: s == Spell(symbols, ALPHABET) && IsEncoding(data, symbols)
  {
    var buffer, bits;
    ghost var symbols;
    buffer, bits, symbols, s := WriteSymbols(data, ALPHABET);
    Whole(data, symbols, buffer, bits);
    if bits > 0 {
      var symbol := PeekLast(buffer, bits, Stream(symbols, 5));
      SpellSnoc(symbols, symbol, ALPHABET);
      s := s + [ALPHABET[symbol]];
      symbols := symbols + [symbol];
    }
    assert IsEncoding(data, symbols);
  }

  datatype Base32Error = InvalidBase32

  /** Reading one more character. */
  lemma ReadStep(clean: string, i: nat)
    requires i < |clean| && IsBase32(clean[..i])
    ensures IndexOf(ALPHABET, clean[i]) < 0 ==> !IsBase32(clean)
    ensures IndexOf(ALPHABET, clean[i]) >= 0 ==>
              var val := IndexOf(ALPHABET, clean[i]);
              && IsBase32(clean[..i + 1]) && Read(clean[..i + 1]) == Read(clean[..i]) + [val]
              && Stream(Read(clean[..i + 1]), 5) == Stream(Read(clean[..i]), 5) + Bits(val, 5)
  {
    if IndexOf(ALPHABET, clean[i]) >= 0 {
      assert clean[..i + 1] == clean[..i] + [clean[i]];
      StreamSnoc(Read(clean[..i]), IndexOf(ALPHABET, clean[i]), 5);
    }
  }

  /** A whole byte, if there is one, is put into the decoder's buffer. */
  method PutByte(buffer: int, bits0: nat, out0: seq<nat>, capacity: nat) returns (bits: nat, out: seq<nat>)
    requires bits0 < 13 && AllBelow(256, out0) && 8 * |out0| + bits0 <= 8 * capacity + 7
    ensures bits < 8 && 8 * |out| + bits == 8 * |out0| + bits0 && AllBelow(256, out)
    ensures Stream(out, 8) + Bits(buffer, bits) == Stream(out0, 8) + Bits(buffer, bits0)
  {
    bits, out := bits0, out0;
    if bits >= 8 {
      var byte := Peek(buffer, bits, 256, Stream(out, 8));
      StreamSnoc(out, byte, 8);
      assert |out| < capacity;
      out := out + [byte];
      bits := bits - 8;
    }
  }

  /** The decoder's buffer is allocated once and filled to the last byte: no put overflows it, none is missing. */
  method Base32Decode(s: string) returns (r: Result<seq<nat>, Base32Error>)
    ensures if IsBase32(Clean(s))
            then r.Ok? && AllBelow(256, r.value) && IsDecoding(Read(Clean(s)), r.value)
            else r == Err(InvalidBase32)
  {
    var clean := Clean(s);
    var capacity := |clean| * 5 / 8;
    var out: seq<nat>, buffer, bits, i := [], 0, 0, 0;
    while i < |clean|
      invariant 0 <= i <= |clean| && 0 <= bits < 8 && 8 * |out| + bits == 5 * i
      invariant IsBase32(clean[..i]) && AllBelow(256, out)
      invariant Stream(out, 8) + Bits(buffer, bits) == Stream(Read(clean[..i]), 5)
    {
      var val := IndexOf(ALPHABET, clean[i]);
      ReadStep(clean, i);
      if val < 0 {
        return Err(InvalidBase32);
      }
      buffer := Push(buffer, bits, 32, val, Stream(out, 8));
      bits, out := PutByte(buffer, bits + 5, out, capacity);
      i := i + 1;
    }
    assert clean[..|clean|] == clean;
    assert |out| == capacity;
    r := Ok(out);
  }

  // -- From bytes to text and back ---------------------------------------------

  lemma AlphabetsAre()
    ensures ALPHABET == "ABCDEFGHIJKLMNOPQRSTUVWXYZ234567"
    ensures CROCKFORD == "0123456789ABCDEFGHJKMNPQRSTVWXYZ"
  {
  }

  /** Every letter of the alphabet stands once, and cleaning leaves it alone. */
  lemma AlphabetPlain(i: nat)
    requires i < 32
    ensures IndexOf(ALPHABET, ALPHABET[i]) == i
    ensures Upper(ALPHABET[i]) == ALPHABET[i] && ALPHABET[i] != '=' && ALPHABET[i] != ' '
  {
    var at := IndexOf(ALPHABET, ALPHABET[i]);
    assert at >= 0 && ALPHABET[at] == ALPHABET[i];
  }

  lemma {:induction false} CleanPlain(s: string)
    requires forall i :: 0 <= i < |s| ==> Upper(s[i]) == s[i] && s[i] != '=' && s[i] != ' '
    ensures Clean(s) == s
  {
    if s != [] {
      CleanPlain(s[..|s| - 1]);
    }
  }

  /** What decoding makes of one character among others: capitals for letters, and nothing for '=' and blanks. */
  lemma {:induction false} CleanReads(a: string, c: char, b: string)
    ensures Clean(a + [c] + b) ==
            Clean(a + (if c == '=' || c == ' ' then [] else if 'a' <= c <= 'z' then [c - 32 as char] else [c]) + b)
  {
    var read := if c == '=' || c == ' ' then [] else if 'a' <= c <= 'z' then [c - 32 as char] else [c];
    if b == [] {
      assert a + [c] + b == a + [c] && (a + [c])[..|a|] == a;
      assert a + read + b == a + read;
      if read != [] {
        assert (a + read)[..|a|] == a;
      } else {
        assert a + read == a;
      }
    } else {
      var front := b[..|b| - 1];
      assert (a + [c] + b)[..|a| + |b|] == a + [c] + front;
      assert (a + read + b)[..|a| + |read| + |b| - 1] == a + read + front;
      CleanReads(a, c, front);
    }
  }

  lemma ReadSpelled(symbols: Symbols)
    ensures var s := Spell(symbols, ALPHABET);
            Clean(s) == s && IsBase32(s) && Read(s) == symbols
  {
    var s := Spell(symbols, ALPHABET);
    forall i | 0 <= i < |s|
      ensures IndexOf(ALPHABET, s[i]) == symbols[i] && Upper(s[i]) == s[i] && s[i] != '=' && s[i] != ' '
    {
      AlphabetPlain(symbols[i]);
    }
    CleanPlain(s);
  }

  /** What the decoder returns for what the encoder wrote is the bytes themselves, for every byte string. */
  method RoundTrip(data: Bytes) returns (again: Result<seq<nat>, Base32Error>)
    ensures again == Ok(data)
  {
    var s := Base32Encode(data);
    ghost var symbols: Symbols :| s == Spell(symbols, ALPHABET) && IsEncoding(data, symbols);
    ReadSpelled(symbols);
    again := Base32Decode(s);
    DecodeEncode(data, symbols, again.value);
  }

  // -- The recovery code -------------------------------------------------------

  /** Groups of four with dashes between. */
  function Grouped(s: string): string {
    if |s| <= 4 then s else s[..4] + "-" + Grouped(s[4..])
  }

  predicate IsCodeChar(c: char) {
    '0' <= c <= '9' || 'A' <= c <= 'Z'
  }

  /** Every character replaced by a string of its own. */
  function Replaced(f: char -> string, s: string): string {
    if s == [] then [] else f(s[0]) + Replaced(f, s[1..])
  }

  function Kept(c: char): string {
    if IsCodeChar(Upper(c)) then [Upper(c)] else []
  }

  /** What the restore screen makes of a typed code: upper case, digits and letters only. */
  function Normalized(s: string): string {
    Replaced(Kept, s)
  }

  /**
   * However a code is typed: a small letter counts as the capital, and whatever is neither digit nor letter as nothing.
   */
  lemma NormalizedReads(a: string, c: char, b: string)
    ensures var read := if 'a' <= c <= 'z' then [c - 32 as char]
                        else if '0' <= c <= '9' || 'A' <= c <= 'Z' then [c] else [];
            Normalized(a + [c] + b) == Normalized(a) + read + Normalized(b)
  {
    ReplacedAdds(Kept, a + [c], b);
    ReplacedAdds(Kept, a, [c]);
    assert [c][1..] == [];
    assert Replaced(Kept, [c]) == Kept(c) + Replaced(Kept, []);
  }

  predicate IsCode(s: string) {
    forall i :: 0 <= i < |s| ==> IsCodeChar(s[i])
  }

  lemma {:induction false} ReplacedAdds(f: char -> string, a: string, b: string)
    ensures Replaced(f, a + b) == Replaced(f, a) + Replaced(f, b)
  {
    if a == [] {
      assert a + b == b;
    } else {
      assert (a + b)[1..] == a[1..] + b;
      ReplacedAdds(f, a[1..], b);
    }
  }

  lemma {:induction false} ReplacedPlain(f: char -> string, s: string)
    requires forall i :: 0 <= i < |s| ==> f(s[i]) == [s[i]]
    ensures Replaced(f, s) == s
  {
    if s != [] {
      ReplacedPlain(f, s[1..]);
      assert s == [s[0]] + s[1..];
    }
  }

  /** Dropping the dashes and nothing else undoes the grouping. */
  lemma {:induction false} ReplacedGrouped(f: char -> string, s: string)
    requires (forall i :: 0 <= i < |s| ==> f(s[i]) == [s[i]]) && f('-') == []
    ensures Replaced(f, Grouped(s)) == s
  {
    if |s| <= 4 {
      ReplacedPlain(f, s);
    } else {
      var group, rest := s[..4], Grouped(s[4..]);
      ReplacedGrouped(f, s[4..]);
      ReplacedPlain(f, group);
      assert Grouped(s) == group + ("-" + rest);
      ReplacedAdds(f, group, "-" + rest);
      assert ("-" + rest)[1..] == rest;
    }
  }

  lemma NormalizedGrouped(s: string)
    requires IsCode(s)
    ensures Normalized(Grouped(s)) == s
  {
    ReplacedGrouped(Kept, s);
  }

  lemma CrockfordPlain(i: nat, j: nat)
    requires i < 32 && j < 32
    ensures IsCodeChar(CROCKFORD[i])
    ensures CROCKFORD[i] == CROCKFORD[j] ==> i == j
  {
  }

  lemma SpelledCode(a: Symbols, b: Symbols)
    ensures IsCode(Spell(a, CROCKFORD))
    ensures Spell(a, CROCKFORD) == Spell(b, CROCKFORD) ==> a == b
  {
    var sa, sb := Spell(a, CROCKFORD), Spell(b, CROCKFORD);
    forall i | 0 <= i < |a|
      ensures IsCodeChar(sa[i])
      ensures |b| == |a| && sb[i] == sa[i] ==> b[i] == a[i]
    {
      CrockfordPlain(a[i], if |b| == |a| then b[i] else 0);
    }
  }

  /** The code of 20 random bytes: exactly 32 symbols that spell all 160 bits, in groups of four. */
  ghost predicate IsRecoveryCode(bytes: Bytes, code: string) {
    exists symbols: Symbols ::
      |symbols| == 32 && code == Grouped(Spell(symbols, CROCKFORD)) && Stream(symbols, 5) == Stream(bytes, 8)
  }

  lemma TwentyBytes(symbols: Symbols, bits: nat, buffer: int, stream: seq<bool>)
    requires bits < 5 && 5 * |symbols| + bits == 160 && Stream(symbols, 5) + Bits(buffer, bits) == stream
    ensures |symbols| == 32 && bits == 0 && Stream(symbols, 5) == stream
  {
    assert Bits(buffer, 0) == [];
  }

  method GenerateRecoveryCode(bytes: Bytes) returns (code: string)
    requires |bytes| == 20
    ensures IsRecoveryCode(bytes, code)
  {
    var buffer, bits, s;
    ghost var symbols;
    buffer, bits, symbols, s := WriteSymbols(bytes, CROCKFORD);
    TwentyBytes(symbols, bits, buffer, Stream(bytes, 8));
    assert s[..32] == s;
    code := Grouped(s[..32]);
  }

  /**
   * Different bytes give different codes, however a code is typed back in: upper or lower case, with dashes or without.
   */
  lemma RecoveryCodesDiffer(a: Bytes, b: Bytes, codeA: string, codeB: string)
    requires |a| == |b| == 20 && IsRecoveryCode(a, codeA) && IsRecoveryCode(b, codeB)
    ensures Normalized(codeA) == Normalized(codeB) <==> a == b
  {
    var sa: Symbols :| |sa| == 32 && codeA == Grouped(Spell(sa, CROCKFORD)) && Stream(sa, 5) == Stream(a, 8);
    var sb: Symbols :| |sb| == 32 && codeB == Grouped(Spell(sb, CROCKFORD)) && Stream(sb, 5) == Stream(b, 8);
    Powers();
    SpelledCode(sa, sb);
    SpelledCode(sb, sa);
    NormalizedGrouped(Spell(sa, CROCKFORD));
    NormalizedGrouped(Spell(sb, CROCKFORD));
    if a == b {
      StreamInjective(sa, sb, 5);
    } else if sa == sb {
      StreamInjective(a, b, 8);
    }
  }
}
