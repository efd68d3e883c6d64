/**
 * Base32 (section 6 of RFC 4648, unpadded), as the TOTP secrets use it: two loops over a 32-bit
 * accumulator that is shifted and never masked, so its high bits wrap away.
 */
module Base32 {
  import opened Base

  const WORD: nat := 0x1_0000_0000
  const ALPHABET := "ABCDEFGHIJKLMNOPQRSTUVWXYZ234567"

  type Byte = b: nat | b < 256
  type Digit = d: nat | d < 32

  function Pow2(n: nat): (p: nat)
    ensures p > 0
  {
    if n == 0 then 1 else 2 * Pow2(n - 1)
  }

  /** A number without its last `bits` bits. */
  function High(n: nat, bits: nat): nat
    decreases bits
  {
    if bits == 0 then n else High(n / 2, bits - 1)
  }

  lemma DivMod(n: nat, d: nat)
    requires d > 0
    ensures n == d * (n / d) + n % d && 0 <= n % d < d && n / d >= 0
  {
  }

  // ----- The reference: one number, read in two bases ------------------------------------------

  /** The number a big-endian digit string spells in the given base. */
  function Number(digits: seq<nat>, base: nat): nat {
    if digits == [] then 0
    else Number(digits[..|digits| - 1], base) * base + digits[|digits| - 1]
  }

  /** The last `length` digits of a number in the given base, big-endian. */
  function Expand(n: nat, length: nat, base: nat): (digits: seq<nat>)
    requires base > 0
    ensures |digits| == length && forall k :: 0 <= k < length ==> digits[k] < base
    decreases length
  {
    if length == 0 then [] else Expand(n / base, length - 1, base) + [n % base]
  }

  /** How many base32 digits hold `n` bytes. */
  function DigitsFor(n: nat): nat {
    (8 * n + 4) / 5
  }

  /** The zero bits that fill the last digit. */
  function FillBits(n: nat): nat {
    5 * DigitsFor(n) - 8 * n
  }

  /** The bytes' bits, zero bits appended to fill the last digit, in groups of five. */
  function EncodedDigits(bytes: seq<Byte>): seq<nat> {
    Expand(Number(bytes, 256) * Pow2(FillBits(|bytes|)), DigitsFor(|bytes|), 32)
  }

  function Letters(digits: seq<nat>): string
    requires forall k :: 0 <= k < |digits| ==> digits[k] < 32
  {
    seq(|digits|, k requires 0 <= k < |digits| => ALPHABET[digits[k]])
  }

  function Encoded(bytes: seq<Byte>): string {
    Letters(EncodedDigits(bytes))
  }

  function IndexFrom(c: char, k: nat): int
    requires k <= 32
    decreases 32 - k
  {
    if k == 32 then -1 else if ALPHABET[k] == c then k else IndexFrom(c, k + 1)
  }

  /** The position of a character in the alphabet, or -1. */
  function IndexOf(c: char): int {
    IndexFrom(c, 0)
  }

  predicate AllLetters(text: string) {
    forall k :: 0 <= k < |text| ==> IndexOf(text[k]) >= 0
  }

  function Indices(text: string): (digits: seq<nat>)
    requires AllLetters(text)
    ensures |digits| == |text|
  {
    seq(|text|, k requires 0 <= k < |text| => IndexOf(text[k]))
  }

  /** The letters, ligatures and the sharp s outside ASCII whose upper case is plain letters. */
  function SpecialUpper(c: char): string {
    match c
    case '\U{00DF}' => "SS"
    case '\U{0131}' => "I"
    case '\U{017F}' => "S"
    case '\U{FB00}' => "FF"
    case '\U{FB01}' => "FI"
    case '\U{FB02}' => "FL"
    case '\U{FB03}' => "FFI"
    case '\U{FB04}' => "FFL"
    case '\U{FB05}' => "ST"
    case '\U{FB06}' => "ST"
    case _ => [c]
  }

  /** Unicode upper case, as far as it reaches the alphabet: any other holds a character outside it. */
  function Upper(c: char): string {
    if 'a' <= c <= 'z' then [(c as int - 32) as char]
    else if c as int < 128 then [c]
    else SpecialUpper(c)
  }

  /** The characters the pattern \s matches. */
  predicate IsSpace(c: char) {
    var n := c as int;
    || 9 <= n <= 13 || n == 0x20 || n == 0xA0 || n == 0x1680 || 0x2000 <= n <= 0x200A
    || n == 0x2028 || n == 0x2029 || n == 0x202F || n == 0x205F || n == 0x3000 || n == 0xFEFF
  }

  /** The text with each character replaced by its image. */
  function Mapped(text: string, image: char -> string): string {
    if text == [] then [] else Mapped(text[..|text| - 1], image) + image(text[|text| - 1])
  }

  function UpperAll(text: string): string {
    Mapped(text, Upper)
  }

  function StripPadding(text: string): string {
    if text != [] && text[|text| - 1] == '=' then StripPadding(text[..|text| - 1]) else text
  }

  function DropSpaces(text: string): string {
    if text == [] then []
    else DropSpaces(text[..|text| - 1]) + if IsSpace(text[|text| - 1]) then [] else [text[|text| - 1]]
  }

  function Clean(text: string): string {
    DropSpaces(StripPadding(UpperAll(text)))
  }

  /** The bits of the digits in groups of eight, the incomplete last group dropped. */
  function DecodedDigits(digits: seq<nat>): seq<nat> {
    Expand(High(Number(digits, 32), 5 * |digits| % 8), 5 * |digits| / 8, 256)
  }

  /** What cleaned text decodes to: no bytes at all when it holds an unknown character. */
  function DecodedClean(clean: string): seq<nat> {
    if AllLetters(clean) then DecodedDigits(Indices(clean)) else []
  }

  function Decoded(text: string): seq<nat> {
    DecodedClean(Clean(text))
  }

  // ----- Arithmetic ------------------------------------------------------------------------------

  lemma {:induction false} PowAdd(a: nat, b: nat)
    ensures Pow2(a + b) == Pow2(a) * Pow2(b)
  {
    if a > 0 {
      PowAdd(a - 1, b);
      assert Pow2(a + b) == 2 * Pow2((a - 1) + b);
      Associate(2, Pow2(a - 1), Pow2(b));
    }
  }

  lemma Distribute(a: int, b: int, c: int)
    ensures (a + b) * c == a * c + b * c
  {
  }

  lemma Associate(a: int, b: int, c: int)
    ensures (a * b) * c == a * (b * c)
  {
  }

  lemma DivDiv(n: nat, a: nat, b: nat)
    requires a > 0 && b > 0
    ensures a * b > 0 && (n / a) / b == n / (a * b)
  {
    MulAtLeast(a, b);
    var q, r := n / a, n % a;
    DivMod(n, a);
    DivMod(q, b);
    MulLe(a, q % b, b - 1);
    calc {
      n;
      a * q + r;
      a * (b * (q / b) + q % b) + r;
      { Distribute(b * (q / b), q % b, a); }
      a * (b * (q / b)) + a * (q % b) + r;
      { Associate(a, b, q / b); }
      (a * b) * (q / b) + (a * (q % b) + r);
    }
    assert a * (b - 1) == a * b - a;
    DivUnique(n, a * b, q / b, a * (q % b) + r);
  }

  lemma {:induction false} HighIsDiv(n: nat, bits: nat)
    ensures High(n, bits) == n / Pow2(bits)
    decreases bits
  {
    if bits > 0 {
      HighIsDiv(n / 2, bits - 1);
      DivDiv(n, 2, Pow2(bits - 1));
    }
  }

  lemma MulDiv(n: nat, d: nat)
    requires d > 0
    ensures n * d / d == n
  {
    DivUnique(n * d, d, n, 0);
  }

  /** Dropping multiples of d * e * f from a number keeps its digit `e` at position `d`. */
  lemma DigitOfResidue(n: nat, d: nat, e: nat, f: nat)
    requires d > 0 && e > 0 && d * (e * f) > 0
    ensures (n % (d * (e * f))) / d % e == n / d % e
  {
    var m := d * (e * f);
    var high, low := n / m, n % m;
    DivMod(n, m);
    DivMod(low, d);
    DivMod(low / d, e);
    calc {
      n;
      m * high + low;
      { Associate(d, e * f, high); }
      d * ((e * f) * high) + (d * (low / d) + low % d);
      { Distribute((e * f) * high, low / d, d); }
      d * ((e * f) * high + low / d) + low % d;
    }
    DivUnique(n, d, (e * f) * high + low / d, low % d);
    calc {
      n / d;
      (e * f) * high + low / d;
      { Associate(e, f, high); }
      e * (f * high) + (e * ((low / d) / e) + (low / d) % e);
      { Distribute(f * high, (low / d) / e, e); }
      e * (f * high + (low / d) / e) + (low / d) % e;
    }
    DivUnique(n / d, e, f * high + (low / d) / e, (low / d) % e);
  }

  lemma PowersUsed()
    ensures Pow2(5) == 32 && Pow2(8) == 256 && Pow2(32) == WORD
  {
    assert Pow2(4) == 16;
    assert Pow2(8) == 256;
    PowAdd(8, 8);
    PowAdd(16, 16);
  }

  lemma WordParts(k: nat, width: nat)
    requires k + width <= 32
    ensures WORD == Pow2(k) * (Pow2(width) * Pow2(32 - k - width))
  {
    PowersUsed();
    PowAdd(width, 32 - k - width);
    PowAdd(k, 32 - k);
  }

  // ----- Numbers and their expansions ---------------------------------------------------------------

  function Power(base: nat, n: nat): nat {
    if n == 0 then 1 else Power(base, n - 1) * base
  }

  lemma {:induction false} PowerOfPow2(k: nat, n: nat)
    ensures Power(Pow2(k), n) == Pow2(k * n)
  {
    if n > 0 {
      PowerOfPow2(k, n - 1);
      PowAdd(k * (n - 1), k);
      assert k * (n - 1) + k == k * n;
    }
  }

  lemma DigitBelow(n: nat, p: nat, base: nat, d: nat)
    requires n < p && d < base
    ensures n * base + d < p * base
  {
    MulLe(base, n + 1, p);
    Distribute(n, 1, base);
  }

  lemma {:induction false} NumberBelow(digits: seq<nat>, base: nat)
    requires forall k :: 0 <= k < |digits| ==> digits[k] < base
    ensures Number(digits, base) < Power(base, |digits|)
  {
    if digits != [] {
      var n := |digits| - 1;
      NumberBelow(digits[..n], base);
      DigitBelow(Number(digits[..n], base), Power(base, n), base, digits[n]);
    }
  }

  lemma QuotientBelow(n: nat, base: nat, p: nat)
    requires base > 0 && n < p * base
    ensures n / base < p
  {
    DivMod(n, base);
    if n / base >= p {
      MulLe(base, p, n / base);
    }
  }

  lemma NumberPush(digits: seq<nat>, d: nat, base: nat)
    ensures Number(digits + [d], base) == Number(digits, base) * base + d
  {
    assert (digits + [d])[..|digits|] == digits;
  }

  lemma {:induction false} NumberOfExpand(n: nat, length: nat, base: nat)
    requires base > 0 && n < Power(base, length)
    ensures Number(Expand(n, length, base), base) == n
    decreases length
  {
    if length > 0 {
      QuotientBelow(n, base, Power(base, length - 1));
      Recompose(n, base);
      NumberOfExpand(n / base, length - 1, base);
      NumberPush(Expand(n / base, length - 1, base), n % base, base);
    }
  }

  lemma Recompose(n: nat, base: nat)
    requires base > 0
    ensures 0 <= n / base && 0 <= n % base && n / base * base + n % base == n
  {
    DivMod(n, base);
  }

  lemma {:induction false} ExpandOfNumber(digits: seq<nat>, base: nat)
    requires base > 0 && forall k :: 0 <= k < |digits| ==> digits[k] < base
    ensures Expand(Number(digits, base), |digits|, base) == digits
  {
    if digits != [] {
      var n := |digits| - 1;
      ExpandOfNumber(digits[..n], base);
      DivUnique(Number(digits, base), base, Number(digits[..n], base), digits[n]);
    }
  }

  // ----- Letters -----------------------------------------------------------------------------------------

  lemma LetterCode(d: nat)
    requires d < 32
    ensures ALPHABET[d] as int == if d < 26 then 65 + d else 24 + d
  {
  }

  lemma {:induction false} IndexFromLetter(d: nat, k: nat)
    requires k <= d < 32
    ensures IndexFrom(ALPHABET[d], k) == d
    decreases d - k
  {
    if k < d {
      LetterCode(k);
      LetterCode(d);
      IndexFromLetter(d, k + 1);
    }
  }

  lemma IndicesOfLetters(digits: seq<nat>)
    requires forall k :: 0 <= k < |digits| ==> digits[k] < 32
    ensures AllLetters(Letters(digits)) && Indices(Letters(digits)) == digits
  {
    forall k | 0 <= k < |digits| ensures IndexOf(Letters(digits)[k]) == digits[k] {
      IndexFromLetter(digits[k], 0);
    }
  }

  lemma LetterIsPlain(d: nat)
    requires d < 32
    ensures Upper(ALPHABET[d]) == [ALPHABET[d]] && !IsSpace(ALPHABET[d]) && ALPHABET[d] != '='
  {
    LetterCode(d);
  }

  lemma MappedPush(text: string, c: char, image: char -> string)
    ensures Mapped(text + [c], image) == Mapped(text, image) + image(c)
  {
    assert (text + [c])[..|text|] == text;
  }

  lemma Regroup(a: string, b: string, c: char)
    ensures (a + b) + [c] == a + (b + [c])
  {
  }

  predicate OwnImage(text: string, image: char -> string) {
    forall k :: 0 <= k < |text| ==> image(text[k]) == [text[k]]
  }

  /** Appending characters that are their own image. */
  lemma {:induction false} MappedPlain(text: string, plain: string, image: char -> string)
    requires OwnImage(plain, image)
    ensures Mapped(text + plain, image) == Mapped(text, image) + plain
  {
    if plain == [] {
      assert text + plain == text;
    } else {
      var front, c := plain[..|plain| - 1], plain[|plain| - 1];
      assert plain == front + [c];
      MappedPlain(text, front, image);
      Regroup(text, front, c);
      MappedPush(text + front, c, image);
      Regroup(Mapped(text, image), front, c);
    }
  }

  lemma LettersStay(digits: seq<nat>)
    requires forall k :: 0 <= k < |digits| ==> digits[k] < 32
    ensures OwnImage(Letters(digits), Upper)
  {
    forall k | 0 <= k < |digits| ensures Upper(Letters(digits)[k]) == [Letters(digits)[k]] {
      LetterIsPlain(digits[k]);
    }
  }

  lemma MappedWhole(text: string, image: char -> string)
    requires OwnImage(text, image)
    ensures Mapped(text, image) == text
  {
    MappedPlain([], text, image);
    assert [] + text == text;
  }

  lemma LettersAreUpper(digits: seq<nat>)
    requires forall k :: 0 <= k < |digits| ==> digits[k] < 32
    ensures UpperAll(Letters(digits)) == Letters(digits)
  {
    LettersStay(digits);
    MappedWhole(Letters(digits), Upper);
  }

  lemma {:induction false} NoSpacesToDrop(text: string)
    requires forall k :: 0 <= k < |text| ==> !IsSpace(text[k])
    ensures DropSpaces(text) == text
  {
    if text != [] {
      NoSpacesToDrop(text[..|text| - 1]);
    }
  }

  function Padding(n: nat): string {
    seq(n, _ => '=')
  }

  lemma {:induction false} PaddingStrips(text: string, n: nat)
    requires text != [] ==> text[|text| - 1] != '='
    ensures StripPadding(text + Padding(n)) == text
  {
    if n == 0 {
      assert text + Padding(0) == text;
    } else {
      PaddingStrips(text, n - 1);
      assert (text + Padding(n))[..|text| + n - 1] == text + Padding(n - 1);
    }
  }

  /** Padding and lower case do not reach the decoder. */
  lemma CleanLetters(digits: seq<nat>, typed: string, n: nat)
    requires forall k :: 0 <= k < |digits| ==> digits[k] < 32
    requires UpperAll(typed) == Letters(digits)
    ensures Clean(typed + Padding(n)) == Letters(digits)
  {
    var text := Letters(digits);
    MappedPlain(typed, Padding(n), Upper);
    forall k | 0 <= k < |text| ensures !IsSpace(text[k]) && text[k] != '=' {
      LetterIsPlain(digits[k]);
    }
    PaddingStrips(text, n);
    NoSpacesToDrop(text);
  }

  // ----- Round trip ------------------------------------------------------------------------------------------

  lemma MulLess(a: nat, b: nat, c: nat)
    requires a < b && c > 0
    ensures a * c < b * c
  {
    MulLe(c, a + 1, b);
    Distribute(a, 1, c);
  }

  lemma BytesFit(bytes: seq<Byte>)
    ensures Number(bytes, 256) < Pow2(8 * |bytes|)
  {
    NumberBelow(bytes, 256);
    PowersUsed();
    PowerOfPow2(8, |bytes|);
  }

  lemma NumberOfShifted(v: nat, n: nat, pad: nat, m: nat)
    requires v < Pow2(8 * n) && 8 * n + pad == 5 * m
    ensures Number(Expand(v * Pow2(pad), m, 32), 32) == v * Pow2(pad)
  {
    PowAdd(8 * n, pad);
    MulLess(v, Pow2(8 * n), Pow2(pad));
    PowersUsed();
    PowerOfPow2(5, m);
    NumberOfExpand(v * Pow2(pad), m, 32);
  }

  /** The digits spell the bytes' number, shifted past the filling zero bits. */
  lemma EncodedNumber(bytes: seq<Byte>)
    ensures Number(EncodedDigits(bytes), 32) == Number(bytes, 256) * Pow2(FillBits(|bytes|))
  {
    BytesFit(bytes);
    NumberOfShifted(Number(bytes, 256), |bytes|, FillBits(|bytes|), DigitsFor(|bytes|));
  }

  /** The encoding has ceil(8n/5) letters, and its bits, the filling zeros dropped, are the bytes. */
  lemma CleanRoundTrip(bytes: seq<Byte>)
    ensures DecodedClean(Encoded(bytes)) == bytes
    ensures 5 * (|Encoded(bytes)| - 1) < 8 * |bytes| <= 5 * |Encoded(bytes)|
  {
    var n, m := |bytes|, DigitsFor(|bytes|);
    var pad := FillBits(n);
    var digits := EncodedDigits(bytes);
    IndicesOfLetters(digits);
    EncodedNumber(bytes);
    assert 5 * m / 8 == n && 5 * m % 8 == pad;
    MulDiv(Number(bytes, 256), Pow2(pad));
    HighIsDiv(Number(digits, 32), pad);
    assert High(Number(digits, 32), pad) == Number(bytes, 256);
    ExpandOfNumber(bytes, 256);
  }

  /**
   * For every byte sequence the encoding has ceil(8n/5) letters, and decoding it, in either case and
   * with any number of trailing '=' signs, gives the bytes back.
   */
  lemma RoundTrip(bytes: seq<Byte>, typed: string, padding: nat)
    requires UpperAll(typed) == Encoded(bytes)
    ensures Decoded(typed + Padding(padding)) == bytes
    ensures 5 * (|Encoded(bytes)| - 1) < 8 * |bytes| <= 5 * |Encoded(bytes)|
  {
    CleanLetters(EncodedDigits(bytes), typed, padding);
    CleanRoundTrip(bytes);
  }

  // ----- What people type -------------------------------------------------------------------------------

  /** White space, by its code points. */
  predicate Blank(c: char) {
    || c as int in {0x09, 0x0A, 0x0B, 0x0C, 0x0D, 0x20, 0xA0, 0x1680, 0x2028, 0x2029, 0x202F, 0x205F, 0x3000, 0xFEFF}
    || 0x2000 <= c as int <= 0x200A
  }

  /** The typed character is the letter, in either case. */
  predicate TypedAs(c: char, letter: char) {
    c == letter || ('A' <= letter <= 'Z' && c as int == letter as int + 32)
  }

  /** The text, its letters in either case, with white space anywhere. */
  predicate Spells(typed: string, text: string)
    decreases typed
  {
    if typed == [] then text == []
    else
      var front, c := typed[..|typed| - 1], typed[|typed| - 1];
      if Blank(c) then Spells(front, text)
      else text != [] && TypedAs(c, text[|text| - 1]) && Spells(front, text[..|text| - 1])
  }

  lemma TypedUppers(c: char, d: nat)
    requires d < 32 && TypedAs(c, ALPHABET[d])
    ensures Upper(c) == [ALPHABET[d]]
  {
    LetterCode(d);
  }

  lemma BlankStays(c: char)
    requires Blank(c)
    ensures Upper(c) == [c] && IsSpace(c) && c != '='
  {
  }

  lemma DropSpacesPush(text: string, c: char)
    ensures DropSpaces(text + [c]) == DropSpaces(text) + if IsSpace(c) then [] else [c]
  {
    assert (text + [c])[..|text|] == text;
  }

  /** What is left of a text once it is upper case and without white space. */
  function Plain(typed: string): string {
    DropSpaces(UpperAll(typed))
  }

  predicate EndsPlain(typed: string) {
    UpperAll(typed) != [] ==> UpperAll(typed)[|UpperAll(typed)| - 1] != '='
  }

  lemma BlankTyped(front: string, c: char)
    requires Blank(c)
    ensures Plain(front + [c]) == Plain(front) && EndsPlain(front + [c])
  {
    MappedPush(front, c, Upper);
    BlankStays(c);
    DropSpacesPush(UpperAll(front), c);
  }

  lemma LetterTyped(front: string, c: char, d: nat)
    requires d < 32 && TypedAs(c, ALPHABET[d])
    ensures Plain(front + [c]) == Plain(front) + [ALPHABET[d]] && EndsPlain(front + [c])
  {
    MappedPush(front, c, Upper);
    TypedUppers(c, d);
    LetterIsPlain(d);
    DropSpacesPush(UpperAll(front), ALPHABET[d]);
  }

  lemma LettersSplit(digits: seq<nat>)
    requires digits != [] && forall k :: 0 <= k < |digits| ==> digits[k] < 32
    ensures var n := |digits| - 1;
      Letters(digits)[..n] == Letters(digits[..n]) && Letters(digits) == Letters(digits[..n]) + [ALPHABET[digits[n]]]
  {
  }

  lemma {:induction false} TypedCleans(typed: string, digits: seq<nat>)
    requires forall k :: 0 <= k < |digits| ==> digits[k] < 32
    requires Spells(typed, Letters(digits))
    ensures Plain(typed) == Letters(digits) && EndsPlain(typed)
    decreases typed
  {
    if typed != [] {
      var front, c := typed[..|typed| - 1], typed[|typed| - 1];
      assert typed == front + [c];
      if Blank(c) {
        TypedCleans(front, digits);
        BlankTyped(front, c);
      } else {
        LettersSplit(digits);
        TypedCleans(front, digits[..|digits| - 1]);
        LetterTyped(front, c, digits[|digits| - 1]);
      }
    }
  }

  lemma PaddingStays(n: nat)
    ensures OwnImage(Padding(n), Upper)
  {
  }

  /**
   * However a secret is typed - letters in either case, white space anywhere, '=' signs at its end - it
   * decodes to the bytes it encodes.
   */
  lemma TypedDecodes(bytes: seq<Byte>, typed: string, padding: nat)
    requires Spells(typed, Encoded(bytes))
    ensures Decoded(typed + Padding(padding)) == bytes
  {
    TypedCleans(typed, EncodedDigits(bytes));
    PaddingStays(padding);
    MappedPlain(typed, Padding(padding), Upper);
    PaddingStrips(UpperAll(typed), padding);
    assert Clean(typed + Padding(padding)) == Encoded(bytes);
    CleanRoundTrip(bytes);
  }

  lemma {:induction false} MappedConcat(a: string, b: string, image: char -> string)
    ensures Mapped(a + b, image) == Mapped(a, image) + Mapped(b, image)
  {
    if b == [] {
      assert a + b == a;
    } else {
      var front, c := b[..|b| - 1], b[|b| - 1];
      assert b == front + [c];
      MappedConcat(a, front, image);
      Regroup(a, front, c);
      MappedPush(a + front, c, image);
      MappedPush(front, c, image);
      RegroupAll(Mapped(a, image), Mapped(front, image), image(c));
    }
  }

  lemma RegroupAll(a: string, b: string, c: string)
    ensures (a + b) + c == a + (b + c)
  {
  }

  lemma MappedReplaces(before: string, c: char, letters: string, after: string, image: char -> string)
    requires Mapped(letters, image) == image(c)
    ensures Mapped(before + [c] + after, image) == Mapped(before + letters + after, image)
  {
    MappedConcat(before + [c], after, image);
    MappedConcat(before + letters, after, image);
    MappedConcat(before, letters, image);
    MappedPush(before, c, image);
  }

  /** The characters outside ASCII that stand for letters, and the letters they stand for. */
  predicate StandsFor(c: char, letters: string) {
    (c as int, letters) in {
      (0xDF, "SS"), (0x131, "I"), (0x17F, "S"), (0xFB00, "FF"), (0xFB01, "FI"), (0xFB02, "FL"),
      (0xFB03, "FFI"), (0xFB04, "FFL"), (0xFB05, "ST"), (0xFB06, "ST")}
  }

  lemma StandsForUpper(c: char, letters: string)
    requires StandsFor(c, letters)
    ensures Upper(c) == letters && OwnImage(letters, Upper)
  {
  }

  /** Such a character anywhere in a text decodes like the letters it stands for. */
  lemma LigatureDecodes(before: string, c: char, letters: string, after: string)
    requires StandsFor(c, letters)
    ensures Decoded(before + [c] + after) == Decoded(before + letters + after)
  {
    StandsForUpper(c, letters);
    MappedWhole(letters, Upper);
    MappedReplaces(before, c, letters, after, Upper);
  }

  lemma {:induction false} IndexFromFinds(c: char, k: nat, j: nat)
    requires k <= j < 32 && ALPHABET[j] == c
    ensures IndexFrom(c, k) >= 0
    decreases j - k
  {
    if k < j {
      IndexFromFinds(c, k + 1, j);
    }
  }

  lemma {:induction false} IndexFromHits(c: char, k: nat)
    requires k <= 32
    ensures IndexFrom(c, k) >= 0 ==> k <= IndexFrom(c, k) < 32 && ALPHABET[IndexFrom(c, k)] == c
    decreases 32 - k
  {
    if k < 32 {
      IndexFromHits(c, k + 1);
    }
  }

  lemma IndexOfExact(c: char)
    ensures IndexOf(c) >= 0 <==> c in ALPHABET
  {
    IndexFromHits(c, 0);
    if c in ALPHABET {
      var j: nat :| j < |ALPHABET| && ALPHABET[j] == c;
      IndexFromFinds(c, 0, j);
    }
  }

  /** A text decodes to five bits a letter, or, once a character outside the alphabet is left in it, to nothing. */
  lemma DecodedLength(text: string)
    ensures (exists k :: 0 <= k < |Clean(text)| && Clean(text)[k] !in ALPHABET) ==> Decoded(text) == []
    ensures (forall k :: 0 <= k < |Clean(text)| ==> Clean(text)[k] in ALPHABET) ==> |Decoded(text)| == 5 * |Clean(text)| / 8
  {
    forall k | 0 <= k < |Clean(text)| ensures IndexOf(Clean(text)[k]) >= 0 <==> Clean(text)[k] in ALPHABET {
      IndexOfExact(Clean(text)[k]);
    }
  }

  lemma {:induction false} MappedKeeps(text: string, k: nat, image: char -> string)
    requires k < |text| && image(text[k]) == [text[k]]
    ensures text[k] in Mapped(text, image)
  {
    var n := |text| - 1;
    if k < n {
      MappedKeeps(text[..n], k, image);
    }
  }

  lemma {:induction false} StripKeeps(text: string, c: char)
    requires c in text && c != '='
    ensures c in StripPadding(text)
  {
    var n := |text| - 1;
    if text[n] == '=' {
      assert text == text[..n] + [text[n]];
      StripKeeps(text[..n], c);
    }
  }

  lemma {:induction false} DropSpacesKeeps(text: string, c: char)
    requires c in text && !IsSpace(c)
    ensures c in DropSpaces(text)
  {
    var n := |text| - 1;
    assert text == text[..n] + [text[n]];
    if c in text[..n] {
      DropSpacesKeeps(text[..n], c);
    }
  }

  /** One character that is neither a letter in some case, nor white space, nor '=' spoils the whole text. */
  lemma UnknownCharacterDecodesToNothing(text: string, k: nat)
    requires k < |text| && Upper(text[k]) == [text[k]]
    requires text[k] !in ALPHABET && !Blank(text[k]) && text[k] != '='
    ensures Decoded(text) == []
  {
    MappedKeeps(text, k, Upper);
    StripKeeps(UpperAll(text), text[k]);
    DropSpacesKeeps(StripPadding(UpperAll(text)), text[k]);
    DecodedLength(text);
  }

  lemma EncodedIsUpper(bytes: seq<Byte>)
    ensures UpperAll(Encoded(bytes)) == Encoded(bytes)
  {
    LettersAreUpper(EncodedDigits(bytes));
  }

  /** Two secrets never share an encoding. */
  lemma EncodingIsInjective(a: seq<Byte>, b: seq<Byte>)
    requires Encoded(a) == Encoded(b)
    ensures a == b
  {
    EncodedIsUpper(a);
    RoundTrip(a, Encoded(a), 0);
    RoundTrip(b, Encoded(a), 0);
  }

  // ----- The accumulator -----------------------------------------------------------------------------------------

  /** `(value << k) | low` on 32 bits, with factor 2^k: the bits shifted in are zero, so OR adds. */
  function ShiftIn(value: nat, factor: nat, low: nat): nat {
    (value * factor + low) % WORD
  }

  /** `(value >>> shift) & mask` on 32 bits, with base mask + 1. */
  function DigitAt(value: nat, shift: nat, base: nat): nat
    requires base > 0
  {
    High(value, shift) % base
  }

  lemma ModOfMod(n: nat, k: nat, low: nat)
    ensures ((n % WORD) * k + low) % WORD == (n * k + low) % WORD
  {
    DivMod(n, WORD);
    var x := (n % WORD) * k + low;
    DivMod(x, WORD);
    Distribute(WORD * (n / WORD), n % WORD, k);
    Associate(WORD, n / WORD, k);
    Distribute(n / WORD * k, x / WORD, WORD);
    DivUnique(n * k + low, WORD, n / WORD * k + x / WORD, x % WORD);
  }

  /** Although the accumulator wraps, its next digit is that of the whole number read so far. */
  lemma DigitSurvivesWrap(n: nat, shift: nat, width: nat)
    requires shift + width <= 32
    ensures DigitAt(n % WORD, shift, Pow2(width)) == High(n, shift) % Pow2(width)
  {
    WordParts(shift, width);
    HighIsDiv(n, shift);
    HighIsDiv(n % WORD, shift);
    DigitOfResidue(n, Pow2(shift), Pow2(width), Pow2(32 - shift - width));
  }

  /** Emitting one digit of `width` bits. */
  lemma Emit(n: nat, bits: nat, width: nat, base: nat, length: nat)
    requires width <= bits && base == Pow2(width)
    ensures Expand(High(n, bits - width), length + 1, base)
         == Expand(High(n, bits), length, base) + [High(n, bits - width) % base]
  {
    HighIsDiv(n, bits);
    HighIsDiv(n, bits - width);
    PowAdd(bits - width, width);
    DivDiv(n, Pow2(bits - width), base);
  }

  /** Reading one digit of `width` bits leaves what is already complete unchanged. */
  lemma Absorb(n: nat, bits: nat, width: nat, base: nat, low: nat)
    requires low < base == Pow2(width)
    ensures High(n * base + low, bits + width) == High(n, bits)
  {
    HighIsDiv(n, bits);
    HighIsDiv(n * base + low, bits + width);
    PowAdd(width, bits);
    DivUnique(n * base + low, base, n, low);
    DivDiv(n * base + low, base, Pow2(bits));
  }

  lemma LettersPush(digits: seq<nat>, d: nat)
    requires d < 32 && forall k :: 0 <= k < |digits| ==> digits[k] < 32
    ensures Letters(digits + [d]) == Letters(digits) + [ALPHABET[d]]
  {
  }

  /** What is read of the input so far: `value` wraps, the digits already emitted stay. */
  lemma Read(n: nat, value: nat, bits: nat, width: nat, base: nat, low: nat)
    requires value == n % WORD && low < base == Pow2(width)
    ensures ShiftIn(value, base, low) == (n * base + low) % WORD
    ensures High(n * base + low, bits + width) == High(n, bits)
  {
    ModOfMod(n, base, low);
    Absorb(n, bits, width, base, low);
  }

  /** The digit taken from the wrapped `value` is the next digit of the whole number. */
  lemma Write(n: nat, value: nat, bits: nat, width: nat, base: nat, length: nat)
    requires value == n % WORD && width <= bits <= 32 && base == Pow2(width)
    ensures Expand(High(n, bits - width), length + 1, base)
         == Expand(High(n, bits), length, base) + [DigitAt(value, bits - width, base)]
  {
    DigitSurvivesWrap(n, bits - width, width);
    Emit(n, bits, width, base, length);
  }

  /**
   * Where a recoding loop stands after reading digits that spell `n`: `value` is n wrapped to 32
   * bits, `bits` of n are still unwritten and the rest are the digits written so far.
   */
  predicate Recoding(n: nat, value: nat, bits: nat, written: seq<nat>, base: nat)
    requires base > 0
  {
    value == n % WORD && written == Expand(High(n, bits), |written|, base)
  }

  lemma RecodingReads(n: nat, value: nat, bits: nat, written: seq<nat>, base: nat, width: nat, factor: nat, low: nat)
    requires base > 0 && Recoding(n, value, bits, written, base) && low < factor == Pow2(width)
    ensures Recoding(n * factor + low, ShiftIn(value, factor, low), bits + width, written, base)
  {
    Read(n, value, bits, width, factor, low);
  }

  lemma RecodingWrites(n: nat, value: nat, bits: nat, written: seq<nat>, width: nat, base: nat)
    requires base > 0 && Recoding(n, value, bits, written, base) && width <= bits <= 32 && base == Pow2(width)
    ensures Recoding(n, value, bits - width, written + [DigitAt(value, bits - width, base)], base)
  {
    Write(n, value, bits, width, base, |written|);
  }

  lemma EncodingEnds(bytes: seq<Byte>, value: nat, bits: nat, digits: seq<nat>)
    requires bits < 5 && 8 * |bytes| == 5 * |digits| + bits
    requires Recoding(Number(bytes, 256), value, bits, digits, 32)
    ensures EncodedDigits(bytes)
         == if bits > 0 then digits + [DigitAt(ShiftIn(value, Pow2(5 - bits), 0), 0, 32)] else digits
  {
    if bits > 0 {
      assert DigitsFor(|bytes|) == |digits| + 1 && FillBits(|bytes|) == 5 - bits;
      LastDigit(Number(bytes, 256), bits, |digits|);
    } else {
      assert DigitsFor(|bytes|) == |digits| && FillBits(|bytes|) == 0;
    }
  }

  lemma LastDigit(n: nat, bits: nat, length: nat)
    requires 0 < bits < 5
    ensures Expand(n * Pow2(5 - bits), length + 1, 32)
         == Expand(High(n, bits), length, 32) + [DigitAt(ShiftIn(n % WORD, Pow2(5 - bits), 0), 0, 32)]
  {
    PowersUsed();
    var shifted := n * Pow2(5 - bits);
    Read(n, n % WORD, bits, 5 - bits, Pow2(5 - bits), 0);
    Write(shifted, shifted % WORD, 5, 5, 32, length);
  }

  lemma BytePushed(bytes: seq<Byte>, i: nat)
    requires i < |bytes|
    ensures Number(bytes[..i + 1], 256) == Number(bytes[..i], 256) * 256 + bytes[i]
  {
    assert bytes[..i + 1] == bytes[..i] + [bytes[i]];
    NumberPush(bytes[..i], bytes[i], 256);
  }

  /** The encoder: a letter whenever five bits are ready, then the last bits filled with zeros. */
  method Encode(bytes: seq<Byte>) returns (output: string)
    ensures output == Encoded(bytes)
  {
    var bits: nat, value: nat := 0, 0;
    output := "";
    ghost var digits: seq<nat> := [];
    PowersUsed();
    for i := 0 to |bytes|
      invariant bits < 5 && 8 * i == 5 * |digits| + bits
      invariant Recoding(Number(bytes[..i], 256), value, bits, digits, 32)
      invariant output == Letters(digits)
    {
      BytePushed(bytes, i);
      ghost var n := Number(bytes[..i + 1], 256);
      RecodingReads(Number(bytes[..i], 256), value, bits, digits, 32, 8, 256, bytes[i]);
      value := ShiftIn(value, 256, bytes[i]);
      bits := bits + 8;
      while bits >= 5
        invariant bits <= 12 && 8 * (i + 1) == 5 * |digits| + bits
        invariant Recoding(n, value, bits, digits, 32)
        invariant output == Letters(digits)
      {
        RecodingWrites(n, value, bits, digits, 5, 32);
        LettersPush(digits, DigitAt(value, bits - 5, 32));
        digits := digits + [DigitAt(value, bits - 5, 32)];
        output := output + [ALPHABET[DigitAt(value, bits - 5, 32)]];
        bits := bits - 5;
      }
    }
    assert bytes[..|bytes|] == bytes;
    EncodingEnds(bytes, value, bits, digits);
    if bits > 0 {
      LettersPush(digits, DigitAt(ShiftIn(value, Pow2(5 - bits), 0), 0, 32));
      output := output + [ALPHABET[DigitAt(ShiftIn(value, Pow2(5 - bits), 0), 0, 32)]];
    }
  }

  predicate Matches(clean: string, digits: seq<nat>, i: nat) {
    |digits| == i <= |clean| && forall k :: 0 <= k < i ==> IndexOf(clean[k]) == digits[k]
  }

  lemma DecodingEnds(digits: seq<nat>, value: nat, bits: nat, out: seq<nat>)
    requires bits < 8 && 5 * |digits| == 8 * |out| + bits && Recoding(Number(digits, 32), value, bits, out, 256)
    ensures out == DecodedDigits(digits)
  {
    assert 5 * |digits| % 8 == bits && 5 * |digits| / 8 == |out|;
  }

  lemma DecodingReads(n: nat, value: nat, bits: nat, out: seq<nat>, idx: nat)
    requires Recoding(n, value, bits, out, 256) && idx < 32
    ensures Recoding(n * 32 + idx, ShiftIn(value, 32, idx), bits + 5, out, 256)
  {
    PowersUsed();
    RecodingReads(n, value, bits, out, 256, 5, 32, idx);
  }

  /** The next letter, known to be one, is taken into the accumulator. */
  lemma DecodingTakes(clean: string, digits: seq<nat>, i: nat, value: nat, bits: nat, out: seq<nat>)
    requires i < |clean| && Matches(clean, digits, i) && 0 <= IndexOf(clean[i]) < 32
    requires Recoding(Number(digits, 32), value, bits, out, 256)
    ensures var idx := IndexOf(clean[i]);
      && Matches(clean, digits + [idx], i + 1)
      && Recoding(Number(digits + [idx], 32), ShiftIn(value, 32, idx), bits + 5, out, 256)
  {
    DecodingReads(Number(digits, 32), value, bits, out, IndexOf(clean[i]));
    NumberPush(digits, IndexOf(clean[i]), 32);
  }

  lemma DecodingWrites(n: nat, value: nat, bits: nat, out: seq<nat>)
    requires Recoding(n, value, bits, out, 256) && 8 <= bits <= 32
    ensures Recoding(n, value, bits - 8, out + [DigitAt(value, bits - 8, 256)], 256)
  {
    PowersUsed();
    RecodingWrites(n, value, bits, out, 8, 256);
  }

  /** The decoder: a byte whenever eight bits are ready; an unknown character yields no bytes. */
  method Decode(input: string) returns (out: seq<nat>)
    ensures out == Decoded(input)
    ensures (exists k :: 0 <= k < |Clean(input)| && Clean(input)[k] !in ALPHABET) ==> out == []
  {
    DecodedLength(input);
    out := DecodeCleaned(Clean(input));
  }

  method DecodeCleaned(clean: string) returns (out: seq<nat>)
    ensures out == DecodedClean(clean)
  {
    var bits: nat, value: nat := 0, 0;
    out := [];
    ghost var digits: seq<nat> := [];
    for i := 0 to |clean|
      invariant Matches(clean, digits, i)
      invariant bits < 8 && 5 * i == 8 * |out| + bits
      invariant Recoding(Number(digits, 32), value, bits, out, 256)
    {
      var idx := IndexOf(clean[i]);
      IndexBelow(clean[i], 0);
      if idx == -1 {
        return [];
      }
      DecodingTakes(clean, digits, i, value, bits, out);
      digits := digits + [idx];
      value := ShiftIn(value, 32, idx);
      bits := bits + 5;
      if bits >= 8 {
        DecodingWrites(Number(digits, 32), value, bits, out);
        out := out + [DigitAt(value, bits - 8, 256)];
        bits := bits - 8;
      }
    }
    DecodingEnds(digits, value, bits, out);
    assert AllLetters(clean) && Indices(clean) == digits;
  }

  lemma {:induction false} IndexBelow(c: char, k: nat)
    requires k <= 32
    ensures -1 <= IndexFrom(c, k) < 32
    decreases 32 - k
  {
    if k < 32 {
      IndexBelow(c, k + 1);
    }
  }

  /** base32Decode(base32Encode(b)) == b. */
  method EncodeThenDecode(bytes: seq<Byte>) returns (back: seq<nat>)
    ensures back == bytes
  {
    var text := Encode(bytes);
    back := Decode(text);
    EncodedIsUpper(bytes);
    RoundTrip(bytes, text, 0);
    assert text + Padding(0) == text;
  }
}
