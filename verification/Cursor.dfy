/**
 The opaque page cursor: encodeCursor and decodeCursor in
 internal/store/ip_history.go, and the identical pair in
 internal/store/audit_log.go. Decimal formatting, base64 (RFC 4648 section 4) and
 integer parsing are written out as the library functions behave.
 */
module Cursor {
  import opened Int64
  import opened Options

  type Octet = n: nat | n < 256
  type Sextet = n: nat | n < 64

  const PLUS: Octet := 43
  const MINUS: Octet := 45
  const COLON: Octet := 58

  /** A position in a (time, id) descending walk. */
  datatype Key = Key(time: int, id: int)

  // -------------------------------------------------------------------- base64

  function CharOf(v: Sextet): char {
    if v < 26 then 'A' + v as char
    else if v < 52 then 'a' + (v - 26) as char
    else if v < 62 then '0' + (v - 52) as char
    else if v == 62 then '+' else '/'
  }

  function SextetOf(c: char): Option<Sextet> {
    if 'A' <= c <= 'Z' then Some((c - 'A') as nat)
    else if 'a' <= c <= 'z' then Some((c - 'a') as nat + 26)
    else if '0' <= c <= '9' then Some((c - '0') as nat + 52)
    else if c == '+' then Some(62)
    else if c == '/' then Some(63)
    else None
  }

  lemma CharRoundTrip(v: Sextet)
    ensures SextetOf(CharOf(v)) == Some(v)
    ensures CharOf(v) !in {'=', '\r', '\n'}
  {
  }

  /** The alphabet of RFC 4648, section 4: letters, digits, plus and slash, in order. */
  lemma AlphabetRuns(v: Sextet)
    ensures CharOf(0) == 'A' && CharOf(25) == 'Z' && CharOf(26) == 'a' && CharOf(51) == 'z'
    ensures CharOf(52) == '0' && CharOf(61) == '9' && CharOf(62) == '+' && CharOf(63) == '/'
    ensures v < 62 && v !in {25, 51, 61} ==> CharOf(v + 1) as int == CharOf(v) as int + 1
  {
  }

  function Encode64(b: seq<Octet>): string {
    if |b| == 0 then ""
    else if |b| == 1 then [CharOf(b[0] / 4), CharOf(b[0] % 4 * 16), '=', '=']
    else if |b| == 2 then [CharOf(b[0] / 4), CharOf(b[0] % 4 * 16 + b[1] / 16), CharOf(b[1] % 16 * 4), '=']
    else [CharOf(b[0] / 4), CharOf(b[0] % 4 * 16 + b[1] / 16), CharOf(b[1] % 16 * 4 + b[2] / 64), CharOf(b[2] % 64)]
         + Encode64(b[3..])
  }

  /** The decoder skips line breaks wherever they stand. */
  function WithoutBreaks(s: string): string {
    if s == "" then ""
    else if s[0] == '\r' || s[0] == '\n' then WithoutBreaks(s[1..])
    else [s[0]] + WithoutBreaks(s[1..])
  }

  /** Quanta of four characters; padding only in the last one. The bits a padded
      quantum does not use may be anything. */
  function DecodeQuanta(s: string): Option<seq<Octet>> {
    if s == "" then Some([])
    else if |s| < 4 then None
    else
      var v0, v1, v2, v3 := SextetOf(s[0]), SextetOf(s[1]), SextetOf(s[2]), SextetOf(s[3]);
      if v0.None? || v1.None? then None
      else
        var b0 := v0.value * 4 + v1.value / 16;
        if v2.None? then
          if s[2..] == "==" then Some([b0]) else None
        else
          var b1 := v1.value % 16 * 16 + v2.value / 4;
          if v3.None? then
            if s[3..] == "=" then Some([b0, b1]) else None
          else
            var rest := DecodeQuanta(s[4..]);
            if rest.None? then None
            else Some([b0, b1, v2.value % 4 * 64 + v3.value] + rest.value)
  }

  function Decode64(s: string): Option<seq<Octet>> {
    DecodeQuanta(WithoutBreaks(s))
  }

  lemma Base64RoundTrip(b: seq<Octet>)
    ensures Decode64(Encode64(b)) == Some(b)
  {
    QuantaRoundTrip(b);
    EncodedHasNoBreaks(b);
    NothingToSkip(Encode64(b));
  }

  /** Three octets split into four sextets, and joined again. */
  lemma SextetsRoundTrip(b0: Octet, b1: Octet, b2: Octet, v0: Sextet, v1: Sextet, v2: Sextet, v3: Sextet)
    requires v0 == b0 / 4 && v1 == b0 % 4 * 16 + b1 / 16 && v2 == b1 % 16 * 4 + b2 / 64 && v3 == b2 % 64
    ensures v0 * 4 + v1 / 16 == b0 && v1 % 16 * 16 + v2 / 4 == b1 && v2 % 4 * 64 + v3 == b2
  {
  }

  lemma OneOctet(s: string, v0: Sextet, v1: Sextet)
    requires |s| == 4 && SextetOf(s[0]) == Some(v0) && SextetOf(s[1]) == Some(v1) && s[2] == s[3] == '='
    ensures DecodeQuanta(s) == Some([v0 * 4 + v1 / 16])
  {
    assert s[2..] == "==";
  }

  lemma TwoOctets(s: string, v0: Sextet, v1: Sextet, v2: Sextet)
    requires |s| == 4 && SextetOf(s[0]) == Some(v0) && SextetOf(s[1]) == Some(v1) && SextetOf(s[2]) == Some(v2) && s[3] == '='
    ensures DecodeQuanta(s) == Some([v0 * 4 + v1 / 16, v1 % 16 * 16 + v2 / 4])
  {
    assert s[3..] == "=";
  }

  lemma ThreeOctets(s: string, v0: Sextet, v1: Sextet, v2: Sextet, v3: Sextet)
    requires |s| >= 4 && SextetOf(s[0]) == Some(v0) && SextetOf(s[1]) == Some(v1)
    requires SextetOf(s[2]) == Some(v2) && SextetOf(s[3]) == Some(v3) && DecodeQuanta(s[4..]).Some?
    ensures DecodeQuanta(s) == Some([v0 * 4 + v1 / 16, v1 % 16 * 16 + v2 / 4, v2 % 4 * 64 + v3] + DecodeQuanta(s[4..]).value)
  {
  }

  lemma OneOctetRoundTrip(s: string, b: Octet)
    requires |s| == 4 && s[0] == CharOf(b / 4) && s[1] == CharOf(b % 4 * 16) && s[2] == s[3] == '='
    ensures DecodeQuanta(s) == Some([b])
  {
    SextetsRoundTrip(b, 0, 0, b / 4, b % 4 * 16, 0, 0);
    CharRoundTrip(b / 4);
    CharRoundTrip(b % 4 * 16);
    OneOctet(s, b / 4, b % 4 * 16);
  }

  lemma TwoOctetsRoundTrip(s: string, b0: Octet, b1: Octet)
    requires |s| == 4 && s[0] == CharOf(b0 / 4) && s[1] == CharOf(b0 % 4 * 16 + b1 / 16)
    requires s[2] == CharOf(b1 % 16 * 4) && s[3] == '='
    ensures DecodeQuanta(s) == Some([b0, b1])
  {
    var v0, v1, v2 := b0 / 4, b0 % 4 * 16 + b1 / 16, b1 % 16 * 4;
    SextetsRoundTrip(b0, b1, 0, v0, v1, v2, 0);
    CharRoundTrip(v0);
    CharRoundTrip(v1);
    CharRoundTrip(v2);
    TwoOctets(s, v0, v1, v2);
  }

  lemma ThreeOctetsRoundTrip(s: string, b0: Octet, b1: Octet, b2: Octet)
    requires |s| >= 4 && s[0] == CharOf(b0 / 4) && s[1] == CharOf(b0 % 4 * 16 + b1 / 16)
    requires s[2] == CharOf(b1 % 16 * 4 + b2 / 64) && s[3] == CharOf(b2 % 64) && DecodeQuanta(s[4..]).Some?
    ensures DecodeQuanta(s) == Some([b0, b1, b2] + DecodeQuanta(s[4..]).value)
  {
    var v0, v1, v2, v3 := b0 / 4, b0 % 4 * 16 + b1 / 16, b1 % 16 * 4 + b2 / 64, b2 % 64;
    SextetsRoundTrip(b0, b1, b2, v0, v1, v2, v3);
    CharRoundTrip(v0);
    CharRoundTrip(v1);
    CharRoundTrip(v2);
    CharRoundTrip(v3);
    ThreeOctets(s, v0, v1, v2, v3);
  }

  /** Three octets as one number of 24 bits, the first on top. */
  function Number(b0: int, b1: int, b2: int): int { b0 * 65536 + b1 * 256 + b2 }

  /** Four digits to the base of 64, the first on top. */
  function Spelled(v0: int, v1: int, v2: int, v3: int): int { v0 * 262144 + v1 * 4096 + v2 * 64 + v3 }

  lemma SextetsOfNumber(b0: Octet, b1: Octet, b2: Octet)
    ensures Spelled(b0 / 4, b0 % 4 * 16 + b1 / 16, b1 % 16 * 4 + b2 / 64, b2 % 64) == Number(b0, b1, b2)
  {
  }

  /** Four characters spell the number of the three octets to the base of 64; what is
      missing at the end is padding. */
  lemma QuantumSpellsNumber(b: seq<Octet>) returns (v0: Sextet, v1: Sextet, v2: Sextet, v3: Sextet)
    requires b != []
    ensures Spelled(v0, v1, v2, v3) == Number(b[0], if |b| > 1 then b[1] else 0, if |b| > 2 then b[2] else 0)
    ensures |Encode64(b)| >= 4 && Encode64(b)[0] == CharOf(v0) && Encode64(b)[1] == CharOf(v1)
    ensures Encode64(b)[2] == if |b| > 1 then CharOf(v2) else '='
    ensures Encode64(b)[3] == if |b| > 2 then CharOf(v3) else '='
    ensures Encode64(b)[4..] == if |b| > 3 then Encode64(b[3..]) else ""
  {
    var b1, b2: Octet := if |b| > 1 then b[1] else 0, if |b| > 2 then b[2] else 0;
    SextetsOfNumber(b[0], b1, b2);
    v0, v1, v2, v3 := b[0] / 4, b[0] % 4 * 16 + b1 / 16, b1 % 16 * 4 + b2 / 64, b2 % 64;
    if |b| > 2 { LeadingQuantum(b); }
  }

  lemma LeadingQuantum(b: seq<Octet>)
    requires |b| > 2
    ensures |Encode64(b)| >= 4 && Encode64(b)[4..] == Encode64(b[3..])
    ensures Encode64(b)[0] == CharOf(b[0] / 4) && Encode64(b)[1] == CharOf(b[0] % 4 * 16 + b[1] / 16)
    ensures Encode64(b)[2] == CharOf(b[1] % 16 * 4 + b[2] / 64) && Encode64(b)[3] == CharOf(b[2] % 64)
  {
    assert Encode64(b)[4..] == Encode64(b[3..]);
  }

  lemma OneOctetAlone(b: Octet)
    ensures DecodeQuanta(Encode64([b])) == Some([b])
  {
    var s := [CharOf(b / 4), CharOf(b % 4 * 16), '=', '='];
    assert Encode64([b]) == s;
    OneOctetRoundTrip(s, b);
  }

  lemma TwoOctetsAlone(b0: Octet, b1: Octet)
    ensures DecodeQuanta(Encode64([b0, b1])) == Some([b0, b1])
  {
    var s := [CharOf(b0 / 4), CharOf(b0 % 4 * 16 + b1 / 16), CharOf(b1 % 16 * 4), '='];
    assert Encode64([b0, b1]) == s;
    TwoOctetsRoundTrip(s, b0, b1);
  }

  lemma LastQuantumRoundTrip(b: seq<Octet>)
    requires 0 < |b| <= 2
    ensures DecodeQuanta(Encode64(b)) == Some(b)
  {
    if |b| == 1 {
      assert b == [b[0]];
      OneOctetAlone(b[0]);
    } else {
      assert b == [b[0], b[1]];
      TwoOctetsAlone(b[0], b[1]);
    }
  }

  lemma {:induction false} QuantaRoundTrip(b: seq<Octet>)
    ensures DecodeQuanta(Encode64(b)) == Some(b)
  {
    if 0 < |b| <= 2 {
      LastQuantumRoundTrip(b);
    } else if b != [] {
      QuantaRoundTrip(b[3..]);
      LeadingQuantum(b);
      ThreeOctetsRoundTrip(Encode64(b), b[0], b[1], b[2]);
      assert b == [b[0], b[1], b[2]] + b[3..];
    }
  }

  ghost predicate NoBreaks(s: string) {
    forall i :: 0 <= i < |s| ==> s[i] != '\r' && s[i] != '\n'
  }

  lemma {:induction false} EncodedHasNoBreaks(b: seq<Octet>)
    ensures NoBreaks(Encode64(b))
  {
    if |b| > 2 { EncodedHasNoBreaks(b[3..]); }
  }

  lemma {:induction false} NothingToSkip(s: string)
    requires NoBreaks(s)
    ensures WithoutBreaks(s) == s
  {
    if s != "" { NothingToSkip(s[1..]); }
  }

  // ------------------------------------------------------------------- decimal

  predicate IsDigit(b: Octet) { 48 <= b <= 57 }

  function Digits(n: nat): seq<Octet> {
    if n < 10 then [48 + n] else Digits(n / 10) + [48 + n % 10]
  }

  function Format(n: int): seq<Octet> {
    if n < 0 then [MINUS] + Digits(-n) else Digits(n)
  }

  /** A non-empty run of digits. */
  function ParseDigits(s: seq<Octet>): Option<nat> {
    if s == [] || !IsDigit(s[|s| - 1]) then None
    else if |s| == 1 then Some(s[0] - 48)
    else
      var high := ParseDigits(s[..|s| - 1]);
      if high.None? then None else Some(high.value * 10 + (s[|s| - 1] - 48))
  }

  /** An optional sign, digits, and a range check. */
  function ParseInt(s: seq<Octet>): Option<int> {
    var negative := s != [] && s[0] == MINUS;
    var signed := s != [] && s[0] in {MINUS, PLUS};
    var magnitude := ParseDigits(if signed then s[1..] else s);
    if magnitude.None? then None
    else
      var n := if negative then 0 - magnitude.value else magnitude.value;
      if IsInt64(n) then Some(n) else None
  }

  lemma {:induction false} DigitsRoundTrip(n: nat)
    ensures ParseDigits(Digits(n)) == Some(n)
    ensures Digits(n) != [] && forall b <- Digits(n) :: IsDigit(b)
  {
    if n >= 10 {
      DigitsRoundTrip(n / 10);
      assert Digits(n)[..|Digits(n)| - 1] == Digits(n / 10);
    }
  }

  lemma IntRoundTrip(n: int)
    ensures ParseInt(Format(n)) == if IsInt64(n) then Some(n) else None
    ensures COLON !in Format(n)
  {
    DigitsRoundTrip(if n < 0 then -n else n);
    if n < 0 { assert Format(n)[1..] == Digits(-n); } else { assert IsDigit(Format(n)[0]); }
  }

  // ------------------------------------------------------------------- cursors

  /** The two halves around the first separator, when there is one. */
  function Split(s: seq<Octet>): Option<(seq<Octet>, seq<Octet>)> {
    if s == [] then None
    else if s[0] == COLON then Some(([], s[1..]))
    else
      var rest := Split(s[1..]);
      if rest.None? then None else Some(([s[0]] + rest.value.0, rest.value.1))
  }

  lemma {:induction false} SplitAtSeparator(a: seq<Octet>, b: seq<Octet>)
    requires COLON !in a
    ensures Split(a + [COLON] + b) == Some((a, b))
  {
    if a == [] {
      assert (a + [COLON] + b)[1..] == b;
    } else {
      assert (a + [COLON] + b)[0] == a[0] && (a + [COLON] + b)[1..] == a[1..] + [COLON] + b;
      assert [a[0]] + a[1..] == a;
      SplitAtSeparator(a[1..], b);
    }
  }

  function Encode(k: Key): string {
    Encode64(Format(k.time) + [COLON] + Format(k.id))
  }

  /** None stands for the decoding error. */
  function Decode(c: string): Option<Key> {
    if c == "" then Some(Key(0, 0))
    else
      var raw := Decode64(c);
      if raw.None? then None
      else
        var parts := Split(raw.value);
        if parts.None? then None
        else
          var time, id := ParseInt(parts.value.0), ParseInt(parts.value.1);
          if time.None? || id.None? then None else Some(Key(time.value, id.value))
  }

  /** Decoding undoes encoding exactly for the int64 pairs, and no encoded cursor is
      the empty string that means "no more pages". */
  lemma CursorRoundTrip(k: Key)
    ensures Encode(k) != ""
    ensures Decode(Encode(k)) == if IsInt64(k.time) && IsInt64(k.id) then Some(k) else None
  {
    var raw := Format(k.time) + [COLON] + Format(k.id);
    Base64RoundTrip(raw);
    IntRoundTrip(k.time);
    IntRoundTrip(k.id);
    SplitAtSeparator(Format(k.time), Format(k.id));
  }

  /** The text in a cursor is the time and the id in decimal, with a colon between. */
  lemma CursorText(k: Key)
    ensures Decode64(Encode(k)) == Some(Format(k.time) + [COLON] + Format(k.id))
  {
    Base64RoundTrip(Format(k.time) + [COLON] + Format(k.id));
  }

  function Pow10(e: nat): nat { if e == 0 then 1 else 10 * Pow10(e - 1) }

  /** Decimal: the k-th digit from the right counts the k-th power of ten. */
  lemma {:induction false} DigitsAreDecimal(n: nat, k: nat)
    ensures Pow10(k) > 0
    ensures k < |Digits(n)| ==> Digits(n)[|Digits(n)| - 1 - k] == 48 + n / Pow10(k) % 10
    ensures k >= |Digits(n)| ==> n / Pow10(k) == 0
  {
    if k > 0 {
      DigitsAreDecimal(n / 10, k - 1);
      DivideTwice(n, Pow10(k - 1));
    }
  }

  lemma ProductGrows(a: int, b: int, m: nat)
    ensures a <= b ==> a * m <= b * m
  {
  }

  lemma QuotientIs(n: nat, m: nat, q: nat, r: nat)
    requires n == q * m + r && r < m
    ensures n / m == q
  {
    var k := n / m;
    assert k * m <= n < (k + 1) * m;
    ProductGrows(k + 1, q, m);
    ProductGrows(q + 1, k, m);
  }

  lemma DivideTwice(n: nat, p: nat)
    requires p > 0
    ensures n / (10 * p) == n / 10 / p
  {
    var q, r := n / 10 / p, n / 10 % p;
    assert n == 10 * (q * p + r) + n % 10;
    assert q * (10 * p) == 10 * (q * p);
    QuotientIs(n, 10 * p, q, 10 * r + n % 10);
  }

  lemma ParseSigned(sign: Octet, n: nat)
    requires sign == PLUS || sign == MINUS
    ensures var value := if sign == MINUS then 0 - n else n;
      ParseInt([sign] + Digits(n)) == if IsInt64(value) then Some(value) else None
  {
    DigitsRoundTrip(n);
    assert ([sign] + Digits(n))[1..] == Digits(n);
  }

  /** A sign is optional; a number that does not fit, or is none, is an error. */
  lemma SignedText(n: nat)
    ensures ParseInt([PLUS] + Digits(n)) == if n <= MAX_INT64 then Some(n) else None
    ensures ParseInt(Digits(n)) == ParseInt([PLUS] + Digits(n))
    ensures ParseInt([MINUS] + Digits(n)) == if MIN_INT64 <= 0 - n then Some(0 - n) else None
    ensures ParseInt([]) == ParseInt([PLUS]) == ParseInt([MINUS]) == None
  {
    ParseSigned(PLUS, n);
    ParseSigned(MINUS, n);
    IntRoundTrip(n);
    assert Format(n) == Digits(n);
    assert [PLUS][1..] == [] == [MINUS][1..];
  }

  /** Whatever text a caller sends, a decoded cursor is a pair of int64 values that
      some encoded cursor also stands for. */
  lemma DecodedIsInt64(c: string)
    ensures Decode(c).Some? ==> IsInt64(Decode(c).value.time) && IsInt64(Decode(c).value.id)
    ensures Decode(c).Some? ==> Decode(Encode(Decode(c).value)) == Decode(c)
  {
    if Decode(c).Some? {
      assert IsInt64(Decode(c).value.time) && IsInt64(Decode(c).value.id);
      CursorRoundTrip(Decode(c).value);
    }
  }
}
