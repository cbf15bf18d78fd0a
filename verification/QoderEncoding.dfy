/** The encoding of request bodies: standard base64 (section 4 of RFC 4648), the outer thirds
    swapped, and a substitution of all 65 symbols. A byte is an integer below 256; a character
    of the encoded text is one byte. */
module QoderEncoding {
  import opened Collections

  type Byte = x: int | 0 <= x < 256
  type Sextet = x: int | 0 <= x < 64

  const PAD := '='
  const CUSTOM_PAD := '$'

  // ----- standard base64

  function Symbol(v: Sextet): char {
    if v < 26 then 'A' + v as char
    else if v < 52 then 'a' + (v - 26) as char
    else if v < 62 then '0' + (v - 52) as char
    else if v == 62 then '+' else '/'
  }

  function ValueOf(c: char): Option<Sextet> {
    if 'A' <= c <= 'Z' then Some(c as int - 'A' as int)
    else if 'a' <= c <= 'z' then Some(c as int - 'a' as int + 26)
    else if '0' <= c <= '9' then Some(c as int - '0' as int + 52)
    else if c == '+' then Some(62)
    else if c == '/' then Some(63)
    else None
  }

  function Base64(b: seq<Byte>): string {
    if b == [] then ""
    else if |b| == 1 then [Symbol(b[0] / 4), Symbol(b[0] % 4 * 16), PAD, PAD]
    else if |b| == 2 then [Symbol(b[0] / 4), Symbol(b[0] % 4 * 16 + b[1] / 16), Symbol(b[1] % 16 * 4), PAD]
    else Quad(b[0], b[1], b[2]) + Base64(b[3..])
  }

  function Quad(a: Byte, b: Byte, c: Byte): string {
    [Symbol(a / 4), Symbol(a % 4 * 16 + b / 16), Symbol(b % 16 * 4 + c / 64), Symbol(c % 64)]
  }

  /** Decoding, four symbols at a time; padding may only end the text. */
  function Decode(s: string): Option<seq<Byte>> {
    if s == "" then Some([])
    else if |s| < 4 then None
    else
      var v0, v1, v2, v3 := ValueOf(s[0]), ValueOf(s[1]), ValueOf(s[2]), ValueOf(s[3]);
      if v0.None? || v1.None? then None
      else if s[2] == PAD && s[3] == PAD && |s| == 4 then Some([v0.value * 4 + v1.value / 16])
      else if v2.None? then None
      else if s[3] == PAD && |s| == 4 then Some([v0.value * 4 + v1.value / 16, v1.value % 16 * 16 + v2.value / 4])
      else if v3.None? then None
      else
        var rest := Decode(s[4..]);
        if rest.None? then None
        else
          var first, second := v0.value * 4 + v1.value / 16, v1.value % 16 * 16 + v2.value / 4;
          Some([first, second, v2.value % 4 * 64 + v3.value] + rest.value)
  }

  lemma SymbolHasValue(v: Sextet)
    ensures ValueOf(Symbol(v)) == Some(v) && Symbol(v) != PAD && Symbol(v) as int < 128
  {
  }

  lemma {:induction false} Base64RoundTrip(b: seq<Byte>)
    ensures Decode(Base64(b)) == Some(b)
  {
    if b == [] {
    } else if |b| == 1 {
      OneByteDecodes(b[0]);
      assert [b[0]] == b;
    } else if |b| == 2 {
      TwoBytesDecode(b[0], b[1]);
      assert [b[0], b[1]] == b;
    } else {
      hide Decode, Symbol;
      Base64RoundTrip(b[3..]);
      QuadDecodes(b[0], b[1], b[2], Base64(b[3..]));
      assert [b[0], b[1], b[2]] + b[3..] == b;
    }
  }

  lemma OneByteDecodes(a: Byte)
    ensures Decode(Base64([a])) == Some([a])
  {
    SymbolHasValue(a / 4);
    SymbolHasValue(a % 4 * 16);
    hide Symbol, ValueOf;
  }

  lemma TwoBytesDecode(a: Byte, b: Byte)
    ensures Decode(Base64([a, b])) == Some([a, b])
  {
    SymbolHasValue(a / 4);
    SymbolHasValue(a % 4 * 16 + b / 16);
    SymbolHasValue(b % 16 * 4);
    SextetsRejoin(a, b, 0);
    hide Symbol, ValueOf;
  }

  lemma SextetsRejoin(a: Byte, b: Byte, c: Byte)
    ensures var v1, v2 := a % 4 * 16 + b / 16, b % 16 * 4 + c / 64;
      a / 4 * 4 + v1 / 16 == a && v1 % 16 * 16 + v2 / 4 == b && v2 % 4 * 64 + c % 64 == c
  {
  }

  lemma QuadDecodes(a: Byte, b: Byte, c: Byte, rest: string)
    requires Decode(rest).Some?
    ensures Decode(Quad(a, b, c) + rest) == Some([a, b, c] + Decode(rest).value)
  {
    SymbolHasValue(a / 4);
    SymbolHasValue(a % 4 * 16 + b / 16);
    SymbolHasValue(b % 16 * 4 + c / 64);
    SymbolHasValue(c % 64);
    SextetsRejoin(a, b, c);
    hide Symbol, ValueOf;
    assert (Quad(a, b, c) + rest)[4..] == rest;
  }

  /** Bit j of the bytes, most significant first, and 0 past the end. */
  function Bit(b: seq<Byte>, j: nat): (bit: nat)
    ensures bit < 2
  {
    if j / 8 < |b| then b[j / 8] / [128, 64, 32, 16, 8, 4, 2, 1][j % 8] % 2 else 0
  }

  /** The number that six bits make. */
  function SixBits(b: seq<Byte>, j: nat): (v: Sextet) {
    32 * Bit(b, j) + 16 * Bit(b, j + 1) + 8 * Bit(b, j + 2) + 4 * Bit(b, j + 3) + 2 * Bit(b, j + 4) + Bit(b, j + 5)
  }

  /** The symbol at i stands for the six bits from bit 6 i on, and there is a pad where no bit of
      the input is left. */
  lemma {:induction false} Base64Is(b: seq<Byte>, i: nat)
    requires i < |Base64(b)|
    ensures Base64(b)[i] == if 6 * i < 8 * |b| then STANDARD[SixBits(b, 6 * i)] else '='
  {
    hide SixBits, Symbol;
    if |b| > 2 && i >= 4 {
      Base64Is(b[3..], i - 4);
      ThreeBytesOn(b, 6 * i);
    } else {
      FirstSymbols(b);
    }
  }

  lemma ThreeBytesOn(b: seq<Byte>, j: nat)
    requires |b| >= 3 && j >= 24
    ensures SixBits(b, j) == SixBits(b[3..], j - 24)
  {
    forall k: nat | j <= k < j + 6 ensures Bit(b, k) == Bit(b[3..], k - 24) {
      assert k / 8 == (k - 24) / 8 + 3 && k % 8 == (k - 24) % 8;
    }
  }

  lemma FirstSymbols(b: seq<Byte>)
    requires b != []
    ensures var b1, b2 := if |b| > 1 then b[1] else 0, if |b| > 2 then b[2] else 0;
      && SixBits(b, 0) == b[0] / 4 && SixBits(b, 6) == b[0] % 4 * 16 + b1 / 16
      && SixBits(b, 12) == b1 % 16 * 4 + b2 / 64 && SixBits(b, 18) == b2 % 64
  {
    hide Bit;
    var b1, b2 := if |b| > 1 then b[1] else 0, if |b| > 2 then b[2] else 0;
    assert SixBits(b, 0) == b[0] / 4 by { ByteBits(b, 0); }
    assert SixBits(b, 6) == b[0] % 4 * 16 + b1 / 16 by { ByteBits(b, 0); ByteBits(b, 1); }
    assert SixBits(b, 12) == b1 % 16 * 4 + b2 / 64 by { ByteBits(b, 1); ByteBits(b, 2); }
    assert SixBits(b, 18) == b2 % 64 by { ByteBits(b, 2); }
  }

  /** The pieces of a byte that fall into one symbol, from their bits. */
  lemma ByteBits(b: seq<Byte>, k: nat)
    ensures var x := if k < |b| then b[k] else 0;
      && x / 64 == 2 * Bit(b, 8 * k) + Bit(b, 8 * k + 1)
      && x / 16 == 8 * Bit(b, 8 * k) + 4 * Bit(b, 8 * k + 1) + 2 * Bit(b, 8 * k + 2) + Bit(b, 8 * k + 3)
      && x % 16 == 8 * Bit(b, 8 * k + 4) + 4 * Bit(b, 8 * k + 5) + 2 * Bit(b, 8 * k + 6) + Bit(b, 8 * k + 7)
      && x / 4 == 4 * (x / 16) + 2 * Bit(b, 8 * k + 4) + Bit(b, 8 * k + 5)
      && x % 4 == 2 * Bit(b, 8 * k + 6) + Bit(b, 8 * k + 7)
      && x % 64 == 32 * Bit(b, 8 * k + 2) + 16 * Bit(b, 8 * k + 3) + x % 16
  {
    var x: Byte := if k < |b| then b[k] else 0;
    BitsAt(b, k);
    hide Bit;
    Halves(x);
    Nibble(x / 16);
    Nibble(x % 16);
    NibblesOf(x);
  }

  lemma BitsAt(b: seq<Byte>, k: nat)
    ensures var x := if k < |b| then b[k] else 0;
      && Bit(b, 8 * k) == x / 128 % 2 && Bit(b, 8 * k + 1) == x / 64 % 2 && Bit(b, 8 * k + 2) == x / 32 % 2
      && Bit(b, 8 * k + 3) == x / 16 % 2 && Bit(b, 8 * k + 4) == x / 8 % 2 && Bit(b, 8 * k + 5) == x / 4 % 2
      && Bit(b, 8 * k + 6) == x / 2 % 2 && Bit(b, 8 * k + 7) == x % 2
  {
    hide Bit;
    BitAt(b, k, 0);
    BitAt(b, k, 1);
    BitAt(b, k, 2);
    BitAt(b, k, 3);
    BitAt(b, k, 4);
    BitAt(b, k, 5);
    BitAt(b, k, 6);
    BitAt(b, k, 7);
  }

  lemma BitAt(b: seq<Byte>, k: nat, m: nat)
    requires m < 8
    ensures Bit(b, 8 * k + m) == if k < |b| then b[k] / [128, 64, 32, 16, 8, 4, 2, 1][m] % 2 else 0
  {
    assert (8 * k + m) / 8 == k && (8 * k + m) % 8 == m;
  }

  /** The bits of a byte are those of its halves. */
  lemma Halves(x: Byte)
    ensures x / 128 == x / 16 / 8 && x / 64 == x / 16 / 4 && x / 32 == x / 16 / 2
    ensures x / 8 % 2 == x % 16 / 8 % 2 && x / 4 % 2 == x % 16 / 4 % 2
    ensures x / 2 % 2 == x % 16 / 2 % 2 && x % 2 == x % 16 % 2
  {
    LowBits(x / 16, x % 16);
  }

  lemma LowBits(high: int, low: int)
    requires 0 <= low < 16
    ensures var x := 16 * high + low;
      && x / 8 % 2 == low / 8 % 2 && x / 4 % 2 == low / 4 % 2 && x / 2 % 2 == low / 2 % 2 && x % 2 == low % 2
  {
    var x := 16 * high + low;
    assert x / 8 == 2 * high + low / 8;
    assert x / 4 == 2 * (2 * high) + low / 4;
    assert x / 2 == 2 * (4 * high) + low / 2;
    EvenPart(high, low / 8);
    EvenPart(2 * high, low / 4);
    EvenPart(4 * high, low / 2);
    EvenPart(8 * high, low);
  }

  lemma EvenPart(a: int, b: int)
    ensures (2 * a + b) % 2 == b % 2
  {
  }

  lemma Nibble(h: int)
    requires 0 <= h < 16
    ensures h == 8 * (h / 8 % 2) + 4 * (h / 4 % 2) + 2 * (h / 2 % 2) + h % 2
    ensures h / 4 == 2 * (h / 8 % 2) + h / 4 % 2 && h % 4 == 2 * (h / 2 % 2) + h % 2
  {
    match h
    case 0 => case 1 => case 2 => case 3 => case 4 => case 5 => case 6 => case 7 =>
    case 8 => case 9 => case 10 => case 11 => case 12 => case 13 => case 14 => case _ =>
  }

  lemma NibblesOf(x: Byte)
    ensures x / 64 == x / 16 / 4 && x / 4 == 4 * (x / 16) + x % 16 / 4
    ensures x % 4 == x % 16 % 4 && x % 64 == 16 * (x / 16 % 4) + x % 16
  {
  }

  // ----- the thirds swap

  function Swap(s: string): string {
    var n := |s|;
    var a := n / 3;
    s[n - a..] + s[a..n - a] + s[..a]
  }

  /** Swapping the outer thirds again restores the text. */
  lemma SwapTwice(s: string)
    ensures |Swap(s)| == |s| && Swap(Swap(s)) == s
  {
    var n := |s|;
    var a := n / 3;
    var r := Swap(s);
    assert r[n - a..] == s[..a];
    assert r[a..n - a] == s[a..n - a];
    assert r[..a] == s[n - a..];
    assert s == s[..a] + s[a..n - a] + s[n - a..];
  }

  /** Swapping moves symbols and adds none. */
  lemma SwapPermutes(s: string)
    ensures multiset(Swap(s)) == multiset(s)
  {
    var n := |s|;
    var a := n / 3;
    assert s == s[..a] + s[a..n - a] + s[n - a..];
  }

  // ----- the substitution

  /** The custom alphabet, symbol by symbol. */
  function CustomCode(v: Sextet): (r: int)
    ensures 0 < r < 128
  {
    match v
    case 0 => '_' as int case 1 => 'd' as int case 2 => 'o' as int case 3 => 'R' as int
    case 4 => 'T' as int case 5 => 'g' as int case 6 => 'H' as int case 7 => 'Z' as int
    case 8 => 'B' as int case 9 => 'K' as int case 10 => 'c' as int case 11 => 'G' as int
    case 12 => 'V' as int case 13 => 'j' as int case 14 => 'l' as int case 15 => 'v' as int
    case 16 => 'p' as int case 17 => 'C' as int case 18 => ',' as int case 19 => '@' as int
    case 20 => 'a' as int case 21 => 'F' as int case 22 => 'S' as int case 23 => 'x' as int
    case 24 => '#' as int case 25 => 'D' as int case 26 => 'P' as int case 27 => 'u' as int
    case 28 => 'N' as int case 29 => 'J' as int case 30 => 'm' as int case 31 => 'e' as int
    case 32 => '&' as int case 33 => 'i' as int case 34 => '*' as int case 35 => 'M' as int
    case 36 => 'z' as int case 37 => 'L' as int case 38 => 'O' as int case 39 => 'E' as int
    case 40 => 'n' as int case 41 => ')' as int case 42 => 's' as int case 43 => 'U' as int
    case 44 => 'r' as int case 45 => 't' as int case 46 => 'h' as int case 47 => 'b' as int
    case 48 => 'f' as int case 49 => '%' as int case 50 => 'Y' as int case 51 => '^' as int
    case 52 => 'w' as int case 53 => '.' as int case 54 => '(' as int case 55 => 'k' as int
    case 56 => 'I' as int case 57 => 'Q' as int case 58 => 'y' as int case 59 => 'X' as int
    case 60 => 'q' as int case 61 => 'W' as int case 62 => 'A' as int case _ => '!' as int
  }

  function CustomSymbol(v: Sextet): char {
    CustomCode(v) as char
  }

  /** The position in the custom alphabet of the symbol with this code, or 64. */
  function CodeValue(code: int): (r: int)
    ensures 0 <= r <= 64
  {
    match code
    case 95 => 0 case 100 => 1 case 111 => 2 case 82 => 3 case 84 => 4 case 103 => 5 case 72 => 6 case 90 => 7
    case 66 => 8 case 75 => 9 case 99 => 10 case 71 => 11 case 86 => 12 case 106 => 13 case 108 => 14 case 118 => 15
    case 112 => 16 case 67 => 17 case 44 => 18 case 64 => 19 case 97 => 20 case 70 => 21 case 83 => 22 case 120 => 23
    case 35 => 24 case 68 => 25 case 80 => 26 case 117 => 27 case 78 => 28 case 74 => 29 case 109 => 30 case 101 => 31
    case 38 => 32 case 105 => 33 case 42 => 34 case 77 => 35 case 122 => 36 case 76 => 37 case 79 => 38 case 69 => 39
    case 110 => 40 case 41 => 41 case 115 => 42 case 85 => 43 case 114 => 44 case 116 => 45 case 104 => 46 case 98 => 47
    case 102 => 48 case 37 => 49 case 89 => 50 case 94 => 51 case 119 => 52 case 46 => 53 case 40 => 54 case 107 => 55
    case 73 => 56 case 81 => 57 case 121 => 58 case 88 => 59 case 113 => 60 case 87 => 61 case 65 => 62 case 33 => 63
    case _ => 64
  }

  function CustomValue(c: char): int {
    CodeValue(c as int)
  }

  /** The value of a standard symbol, its position in the standard alphabet, or 64. */
  function StandardValue(c: char): (r: int)
    ensures 0 <= r <= 64 && (r < 64 <==> ValueOf(c).Some?)
  {
    if ValueOf(c).Some? then ValueOf(c).value else 64
  }

  const STANDARD: string := seq(64, i requires 0 <= i < 64 => Symbol(i))
  const CUSTOM: string := seq(64, i requires 0 <= i < 64 => CustomSymbol(i))

  lemma StandardAt(v: Sextet)
    requires v < 32
    ensures Symbol(v) == "ABCDEFGHIJKLMNOPQRSTUVWXYZabcdef"[v]
    ensures Symbol(v + 32) == "ghijklmnopqrstuvwxyz0123456789+/"[v]
  {
    if v < 16 {} else {}
  }

  lemma CustomAt(v: Sextet)
    requires v < 32
    ensures CustomSymbol(v) == "_doRTgHZBKcGVjlvpC,@aFSx#DPuNJme"[v]
    ensures CustomSymbol(v + 32) == "&i*MzLOEn)sUrthbf%Y^w.(kIQyXqWA!"[v]
  {
  }

  /** The two alphabets. */
  lemma AlphabetsAre()
    ensures STANDARD == "ABCDEFGHIJKLMNOPQRSTUVWXYZabcdef" + "ghijklmnopqrstuvwxyz0123456789+/"
    ensures CUSTOM == "_doRTgHZBKcGVjlvpC,@aFSx#DPuNJme" + "&i*MzLOEn)sUrthbf%Y^w.(kIQyXqWA!"
  {
    hide Symbol, CustomCode;
    forall v: Sextet | v < 32
      ensures STANDARD[v] == "ABCDEFGHIJKLMNOPQRSTUVWXYZabcdef"[v] && CUSTOM[v] == "_doRTgHZBKcGVjlvpC,@aFSx#DPuNJme"[v]
      ensures STANDARD[v + 32] == "ghijklmnopqrstuvwxyz0123456789+/"[v]
      ensures CUSTOM[v + 32] == "&i*MzLOEn)sUrthbf%Y^w.(kIQyXqWA!"[v]
    {
      StandardAt(v);
      CustomAt(v);
    }
  }

  lemma CodeRoundTrip(v: Sextet)
    ensures CodeValue(CustomCode(v)) == v && CustomCode(v) != 36
  {
  }

  lemma CustomSymbolHasValue(v: Sextet)
    ensures CustomValue(CustomSymbol(v)) == v && CustomSymbol(v) != CUSTOM_PAD && 0 < CustomSymbol(v) as int < 128
  {
    CodeRoundTrip(v);
    hide CodeValue, CustomCode;
  }

  lemma PadsStandApart()
    ensures ValueOf(PAD).None? && CustomValue(CUSTOM_PAD) == 64
  {
  }

  lemma CustomValueHasSymbol(c: char)
    ensures 0 <= CustomValue(c) <= 64
    ensures CustomValue(c) < 64 ==> CustomSymbol(CustomValue(c)) == c
  {
    ValueRoundTrip(c as int);
    hide CodeValue, CustomCode;
  }

  lemma ValueRoundTrip(code: int)
    ensures CodeValue(code) < 64 ==> CustomCode(CodeValue(code)) == code
  {
  }

  /** The substitution of one symbol; anything outside the 65 symbols is left alone. */
  function Substitute(c: char): char {
    if c == PAD then CUSTOM_PAD else if ValueOf(c).Some? then CustomSymbol(ValueOf(c).value) else c
  }

  function Restore(c: char): char {
    if c == CUSTOM_PAD then PAD else if CustomValue(c) < 64 then Symbol(CustomValue(c)) else c
  }

  function Map(f: char -> char, s: string): string {
    seq(|s|, i requires 0 <= i < |s| => f(s[i]))
  }

  predicate IsSymbol(c: char) {
    c == PAD || ValueOf(c).Some?
  }

  predicate IsCustom(c: char) {
    c == CUSTOM_PAD || CustomValue(c) < 64
  }

  /** A bijection between the two sets of 65 symbols. */
  lemma SubstitutionIsBijective(c: char)
    ensures IsSymbol(c) ==> IsCustom(Substitute(c)) && Restore(Substitute(c)) == c
    ensures IsCustom(c) ==> IsSymbol(Restore(c)) && Substitute(Restore(c)) == c
  {
    if ValueOf(c).Some? { CustomSymbolHasValue(ValueOf(c).value); ValueHasSymbol(c); }
    CustomValueHasSymbol(c);
    if CustomValue(c) < 64 { SymbolHasValue(CustomValue(c)); }
  }

  lemma ValueHasSymbol(c: char)
    requires ValueOf(c).Some?
    ensures Symbol(ValueOf(c).value) == c
  {
  }

  lemma {:induction false} Base64Symbols(b: seq<Byte>)
    ensures forall c | c in Base64(b) :: IsSymbol(c)
    ensures |Base64(b)| == (|b| + 2) / 3 * 4
  {
    SymbolsAreSymbols();
    hide Symbol, IsSymbol;
    if |b| > 2 {
      Base64Symbols(b[3..]);
    }
  }

  lemma SymbolsAreSymbols()
    ensures IsSymbol(PAD) && forall v: Sextet :: IsSymbol(Symbol(v))
  {
    forall v: Sextet ensures IsSymbol(Symbol(v)) { SymbolHasValue(v); }
  }

  // ----- the encoder

  /** The encoding, as one function. */
  function Encoded(plain: seq<Byte>): string {
    Map(Substitute, Swap(Base64(plain)))
  }

  /** Where the symbol at i comes from: of n symbols the first third is the last one of the base64
      text, the last third its first, and the middle stays. */
  function SwapSource(n: nat, i: nat): nat
    requires i < n
  {
    if i < n / 3 then n - n / 3 + i else if i < n - n / 3 then i else i - (n - n / 3)
  }

  lemma SwapAt(s: string, i: nat)
    requires i < |s|
    ensures |Swap(s)| == |s| && SwapSource(|s|, i) < |s| && Swap(s)[i] == s[SwapSource(|s|, i)]
  {
  }

  /** Every symbol of an encoding, position by position: the custom symbol with the value that six
      bits of the input make, and '$' where the base64 text is padded. */
  lemma EncodedAt(plain: seq<Byte>, i: nat)
    requires i < |Encoded(plain)|
    ensures |Encoded(plain)| == |Base64(plain)|
    ensures var from := SwapSource(|Base64(plain)|, i);
      && from < |Base64(plain)|
      && Encoded(plain)[i] == if 6 * from < 8 * |plain| then CUSTOM[SixBits(plain, 6 * from)] else '$'
  {
    hide Base64, Swap, Symbol, SixBits, ValueOf, SwapSource, CustomCode;
    var std := Base64(plain);
    SwapTwice(std);
    var from := SwapSource(|std|, i);
    SwapAt(std, i);
    assert Encoded(plain)[i] == Substitute(std[from]);
    Base64Is(plain, from);
    if 6 * from < 8 * |plain| { SymbolHasValue(SixBits(plain, 6 * from)); }
  }

  /** Undoing the steps in reverse order recovers every byte string. */
  lemma RoundTrip(plain: seq<Byte>)
    ensures Decode(Swap(Map(Restore, Encoded(plain)))) == Some(plain)
  {
    var std := Base64(plain);
    Base64Symbols(plain);
    SwapPermutes(std);
    var swapped := Swap(std);
    hide Base64, Decode, Swap, Substitute, Restore;
    forall i | 0 <= i < |swapped| ensures Map(Restore, Map(Substitute, swapped))[i] == swapped[i] {
      assert swapped[i] in multiset(swapped);
      assert swapped[i] in std;
      SubstitutionIsBijective(swapped[i]);
    }
    assert Map(Restore, Map(Substitute, swapped)) == swapped;
    SwapTwice(std);
    Base64RoundTrip(plain);
  }

  /** So no two byte strings share an encoding, and every encoding is built from the custom
      symbols alone, four for every three bytes begun. */
  lemma EncodingIsInjective(a: seq<Byte>, b: seq<Byte>)
    requires Encoded(a) == Encoded(b)
    ensures a == b
  {
    RoundTrip(a);
    RoundTrip(b);
  }

  lemma EncodedSymbols(plain: seq<Byte>)
    ensures |Encoded(plain)| == (|plain| + 2) / 3 * 4
    ensures forall c | c in Encoded(plain) :: IsCustom(c)
  {
    var std := Base64(plain);
    Base64Symbols(plain);
    SwapPermutes(std);
    SwapTwice(std);
    forall i | 0 <= i < |std| ensures IsCustom(Encoded(plain)[i]) {
      assert Swap(std)[i] in multiset(Swap(std));
      assert Swap(std)[i] in std;
      SubstitutionIsBijective(Swap(std)[i]);
    }
  }

  /** The lookup arrays, with the zero character where there is no symbol. */
  ghost predicate FillsTables(s2c: seq<char>, c2s: seq<char>)
  {
    && |s2c| == |c2s| == 128
    && (forall c: char | c as int < 128 :: s2c[c as int] == if IsSymbol(c) then Substitute(c) else '\0')
    && (forall c: char | c as int < 128 :: c2s[c as int] == if IsCustom(c) then Restore(c) else '\0')
  }

  /** The two arrays are each other's inverse on their 65 symbols. */
  lemma TablesInvert(s2c: seq<char>, c2s: seq<char>, c: char)
    requires FillsTables(s2c, c2s)
    ensures IsSymbol(c) ==> c as int < 128 && s2c[c as int] as int < 128 && c2s[s2c[c as int] as int] == c
    ensures IsCustom(c) ==> c as int < 128 && c2s[c as int] as int < 128 && s2c[c2s[c as int] as int] == c
  {
    SubstitutionIsBijective(c);
    CodesAreSmall(c);
    CodesAreSmall(Substitute(c));
    CodesAreSmall(Restore(c));
    hide IsSymbol, IsCustom, Substitute, Restore;
  }

  lemma CodesAreSmall(c: char)
    ensures IsSymbol(c) || IsCustom(c) ==> c as int < 128
  {
    if ValueOf(c).Some? { ValueHasSymbol(c); SymbolHasValue(ValueOf(c).value); }
    CustomValueHasSymbol(c);
    hide ValueOf, Symbol, CodeValue, CustomCode;
  }

  class Codec {
    const s2c: array<char>
    const c2s: array<char>

    ghost predicate Valid()
      reads this, s2c, c2s
    {
      s2c != c2s && s2c.Length == c2s.Length == 128 && FillsTables(s2c[..], c2s[..])
    }

    constructor ()
      ensures Valid() && fresh(s2c) && fresh(c2s)
    {
      s2c := new char[128](_ => '\0');
      c2s := new char[128](_ => '\0');
      new;
      FillTables();
    }

    method FillTables()
      requires s2c != c2s && s2c.Length == 128 && c2s.Length == 128
      requires forall i | 0 <= i < 128 :: s2c[i] == '\0' && c2s[i] == '\0'
      modifies s2c, c2s
      ensures Valid()
    {
      hide CodeValue, CustomCode, ValueOf, Symbol;
      for i := 0 to 64
        invariant forall c: char | c as int < 128 ::
          s2c[c as int] == if StandardValue(c) < i then Substitute(c) else '\0'
        invariant forall c: char | c as int < 128 :: c2s[c as int] == if CustomValue(c) < i then Restore(c) else '\0'
      {
        SymbolHasValue(i);
        CustomSymbolHasValue(i);
        SubstitutionIsBijective(STANDARD[i]);
        forall c: char ensures StandardValue(c) == i ==> c == STANDARD[i] { if ValueOf(c).Some? { ValueHasSymbol(c); } }
        forall c: char ensures CustomValue(c) == i ==> c == CUSTOM[i] { CustomValueHasSymbol(c); }
        s2c[STANDARD[i] as int] := CUSTOM[i];
        c2s[CUSTOM[i] as int] := STANDARD[i];
      }
      PadsStandApart();
      label Filled:
      s2c[PAD as int] := CUSTOM_PAD;
      c2s[CUSTOM_PAD as int] := PAD;
      forall c: char | c as int < 128
        ensures s2c[..][c as int] == if IsSymbol(c) then Substitute(c) else '\0'
        ensures c2s[..][c as int] == if IsCustom(c) then Restore(c) else '\0'
      {
        assert c != PAD ==> old@Filled(s2c[c as int]) == if StandardValue(c) < 64 then Substitute(c) else '\0';
        assert c != PAD ==> s2c[c as int] == old@Filled(s2c[c as int]);
        assert s2c[..][c as int] == s2c[c as int] && c2s[..][c as int] == c2s[c as int];
      }
    }

    lemma BigCodesStand(c: char)
      ensures c as int >= 128 ==> Substitute(c) == c
    {
    }

    lemma TableEntry(c: char)
      requires Valid() && c as int < 128
      ensures s2c[c as int] == if IsSymbol(c) then Substitute(c) else '\0'
      ensures IsSymbol(c) ==> s2c[c as int] != '\0'
      ensures !IsSymbol(c) ==> Substitute(c) == c
    {
      assert s2c[..][c as int] == s2c[c as int];
      if ValueOf(c).Some? { CustomSymbolHasValue(ValueOf(c).value); }
    }

    method Encode(plain: seq<Byte>) returns (r: string)
      requires Valid()
      ensures r == Encoded(plain)
    {
      hide Base64, Substitute, IsSymbol, FillsTables;
      var std := Base64(plain);
      var n := |std|;
      var a := n / 3;
      var rearranged := std[n - a..] + std[a..n - a] + std[..a];
      r := "";
      assert rearranged == Swap(std);
      SwapTwice(std);
      for i := 0 to n
        invariant r == Encoded(plain)[..i]
      {
        var c := rearranged[i];
        assert Encoded(plain)[i] == Substitute(c);
        BigCodesStand(c);
        if c as int < 128 { TableEntry(c); }
        if c as int >= 128 || s2c[c as int] == '\0' {
          r := r + [c];
        } else {
          r := r + [s2c[c as int]];
        }
      }
    }
  }
}
