/** Text at byte and digit level: UTF-8 as Rust's `str` functions treat it, and integer printing and parsing. */
module Text {
  import opened Types

  // ---------- UTF-8 ----------

  function EncodeChar(ch: char): seq<byte> {
    var c := ch as int;
    if c < 0x80 then [c]
    else if c < 0x800 then [0xC0 + c / 0x40, 0x80 + c % 0x40]
    else if c < 0x10000 then [0xE0 + c / 0x1000, 0x80 + c / 0x40 % 0x40, 0x80 + c % 0x40]
    else [0xF0 + c / 0x40000, 0x80 + c / 0x1000 % 0x40, 0x80 + c / 0x40 % 0x40, 0x80 + c % 0x40]
  }

  function ToUtf8(s: string): seq<byte> {
    if s == "" then [] else EncodeChar(s[0]) + ToUtf8(s[1..])
  }

  /** The first character of a byte string and its length, or how many bytes its first bad sequence spans. */
  datatype First = Good(ch: char, size: nat) | Bad(size: nat)

  predicate Between(bs: seq<byte>, i: nat, lo: int, hi: int) {
    i < |bs| && lo <= bs[i] <= hi
  }

  // Bounds of the second byte exclude overlong forms, surrogates and values above U+10FFFF.
  function SecondLow(b: byte): int {
    if b == 0xE0 then 0xA0 else if b == 0xF0 then 0x90 else 0x80
  }

  function SecondHigh(b: byte): int {
    if b == 0xED then 0x9F else if b == 0xF4 then 0x8F else 0xBF
  }

  // The payload bits of a byte whose marker bits are `marker`.
  function Low(b: byte, marker: int): int {
    b as int - marker
  }

  function DecodeFirst(bs: seq<byte>): (r: First)
    requires bs != []
    ensures 1 <= r.size <= |bs|
  {
    var b := bs[0];
    if b < 0x80 then Good(b as char, 1)
    else if b < 0xC2 || b > 0xF4 then Bad(1)
    else if !Between(bs, 1, SecondLow(b), SecondHigh(b)) then Bad(1)
    else if b < 0xE0 then Good((Low(b, 0xC0) * 0x40 + Low(bs[1], 0x80)) as char, 2)
    else if !Between(bs, 2, 0x80, 0xBF) then Bad(2)
    else if b < 0xF0 then
      Good((Low(b, 0xE0) * 0x1000 + Low(bs[1], 0x80) * 0x40 + Low(bs[2], 0x80)) as char, 3)
    else if !Between(bs, 3, 0x80, 0xBF) then Bad(3)
    else
      Good((Low(b, 0xF0) * 0x40000 + Low(bs[1], 0x80) * 0x1000 + Low(bs[2], 0x80) * 0x40 + Low(bs[3], 0x80)) as char, 4)
  }

  /** `String::from_utf8`. */
  function FromUtf8(bs: seq<byte>): Option<string> {
    if bs == [] then Some("")
    else
      match DecodeFirst(bs)
      case Bad(_) => None
      case Good(ch, n) =>
        var rest := FromUtf8(bs[n..]);
        if rest.None? then None else Some([ch] + rest.value)
  }

  /** `String::from_utf8_lossy`: every maximal bad sequence becomes U+FFFD. */
  function Lossy(bs: seq<byte>): string {
    if bs == [] then ""
    else
      match DecodeFirst(bs)
      case Bad(n) => [0xFFFD as char] + Lossy(bs[n..])
      case Good(ch, n) => [ch] + Lossy(bs[n..])
  }

  lemma DecodeEncoded(ch: char, rest: seq<byte>)
    ensures DecodeFirst(EncodeChar(ch) + rest) == Good(ch, |EncodeChar(ch)|)
  {
    var c := ch as int;
    assert c == c / 0x40 * 0x40 + c % 0x40;
    assert c / 0x40 == c / 0x1000 * 0x40 + c / 0x40 % 0x40;
    assert c / 0x1000 == c / 0x40000 * 0x40 + c / 0x1000 % 0x40;
  }

  lemma {:induction false} Utf8RoundTrip(s: string)
    ensures FromUtf8(ToUtf8(s)) == Some(s)
  {
    if s != "" {
      var rest := ToUtf8(s[1..]);
      DecodeEncoded(s[0], rest);
      var bytes := ToUtf8(s);
      assert bytes == EncodeChar(s[0]) + rest && bytes[|EncodeChar(s[0])|..] == rest;
      Utf8RoundTrip(s[1..]);
      assert s == [s[0]] + s[1..];
    }
  }

  lemma SixBits(high: int, low: int)
    requires 0 <= low < 0x40
    ensures (high * 0x40 + low) / 0x40 == high && (high * 0x40 + low) % 0x40 == low
  {
  }

  lemma EncodeTwo(ch: char, a: int, b: int)
    requires 2 <= a < 0x20 && 0 <= b < 0x40 && ch as int == a * 0x40 + b
    ensures EncodeChar(ch) == [0xC0 + a, 0x80 + b]
  {
    SixBits(a, b);
  }

  lemma EncodeThree(ch: char, a: int, b: int, c: int)
    requires 0 <= a < 0x10 && 0 <= b < 0x40 && 0 <= c < 0x40 && a * 0x40 + b >= 0x20
    requires ch as int == (a * 0x40 + b) * 0x40 + c
    ensures EncodeChar(ch) == [0xE0 + a, 0x80 + b, 0x80 + c]
  {
    SixBits(a * 0x40 + b, c);
    SixBits(a, b);
    assert ch as int / 0x1000 == ch as int / 0x40 / 0x40;
  }

  lemma EncodeFour(ch: char, a: int, b: int, c: int, d: int)
    requires 0 <= a < 8 && 0 <= b < 0x40 && 0 <= c < 0x40 && 0 <= d < 0x40 && a * 0x40 + b >= 0x10
    requires ch as int == ((a * 0x40 + b) * 0x40 + c) * 0x40 + d
    ensures EncodeChar(ch) == [0xF0 + a, 0x80 + b, 0x80 + c, 0x80 + d]
  {
    SixBits((a * 0x40 + b) * 0x40 + c, d);
    SixBits(a * 0x40 + b, c);
    SixBits(a, b);
    assert ch as int / 0x1000 == ch as int / 0x40 / 0x40;
    assert ch as int / 0x40000 == ch as int / 0x1000 / 0x40;
  }

  lemma EncodeDecoded(bs: seq<byte>)
    requires bs != [] && DecodeFirst(bs).Good?
    ensures EncodeChar(DecodeFirst(bs).ch) == bs[..DecodeFirst(bs).size]
  {
    var n, ch := DecodeFirst(bs).size, DecodeFirst(bs).ch;
    if n == 1 {
      assert EncodeChar(ch) == [bs[0]];
    } else {
      hide EncodeChar;
      if n == 2 {
        EncodeTwo(ch, bs[0] - 0xC0, bs[1] - 0x80);
      } else if n == 3 {
        EncodeThree(ch, bs[0] - 0xE0, bs[1] - 0x80, bs[2] - 0x80);
      } else {
        EncodeFour(ch, bs[0] - 0xF0, bs[1] - 0x80, bs[2] - 0x80, bs[3] - 0x80);
      }
    }
  }

  /** Only encodings are decoded, and lossy decoding agrees on them. */
  lemma {:induction false} OnlyEncodingsDecode(bs: seq<byte>)
    requires FromUtf8(bs).Some?
    ensures ToUtf8(FromUtf8(bs).value) == bs && Lossy(bs) == FromUtf8(bs).value
  {
    hide DecodeFirst, EncodeChar;
    if bs != [] {
      EncodeDecoded(bs);
      var n := DecodeFirst(bs).size;
      OnlyEncodingsDecode(bs[n..]);
      assert bs == bs[..n] + bs[n..];
      assert FromUtf8(bs).value[1..] == FromUtf8(bs[n..]).value;
    }
  }

  // One character of each length: e acute, the euro sign and a grinning face.
  lemma Utf8Examples()
    ensures ToUtf8("a\U{e9}") == [0x61, 0xC3, 0xA9]
    ensures ToUtf8("\U{20ac}\U{1f600}") == [0xE2, 0x82, 0xAC, 0xF0, 0x9F, 0x98, 0x80]
  {
    var a, e, euro, face := "a\U{e9}"[0], "a\U{e9}"[1], "\U{20ac}\U{1f600}"[0], "\U{20ac}\U{1f600}"[1];
    assert EncodeChar(a) == [0x61] && EncodeChar(e) == [0xC3, 0xA9];
    assert EncodeChar(euro) == [0xE2, 0x82, 0xAC] && EncodeChar(face) == [0xF0, 0x9F, 0x98, 0x80];
    assert "a\U{e9}"[1..] == [e] && [e][1..] == "" && ToUtf8([e]) == EncodeChar(e) + ToUtf8("");
    assert "\U{20ac}\U{1f600}"[1..] == [face] && [face][1..] == "" && ToUtf8([face]) == EncodeChar(face) + ToUtf8("");
  }

  // ---------- lossy decoding of pieces ----------

  // The bad sequence that reaches the end of the bytes, if there is one.
  function LossyTail(bs: seq<byte>): seq<byte> {
    if bs == [] then []
    else
      var f := DecodeFirst(bs);
      if f.Bad? && f.size == |bs| then bs else LossyTail(bs[f.size..])
  }

  // A bad sequence is the beginning of a character that `b` continues.
  predicate Continues(bad: seq<byte>, b: byte) {
    if |bad| == 1 then 0xC2 <= bad[0] <= 0xF4 && SecondLow(bad[0]) <= b <= SecondHigh(bad[0])
    else 0x80 <= b <= 0xBF
  }

  /** The cut between `a` and `b` is inside a character. */
  predicate CutsChar(a: seq<byte>, b: seq<byte>) {
    LossyTail(a) != [] && b != [] && Continues(LossyTail(a), b[0])
  }

  const REPLACEMENT: char := 0xFFFD as char

  function Replacements(n: nat): string {
    seq(n, _ => REPLACEMENT)
  }

  // Whatever does not reach the end of `a` is decoded without looking further.
  lemma DecodeIgnoresRest(a: seq<byte>, b: seq<byte>)
    requires a != [] && !(DecodeFirst(a).Bad? && DecodeFirst(a).size == |a|)
    ensures DecodeFirst(a + b) == DecodeFirst(a)
    ensures (a + b)[DecodeFirst(a).size..] == a[DecodeFirst(a).size..] + b
  {
  }

  lemma DecodeTail(bad: seq<byte>, b: seq<byte>)
    requires bad != [] && DecodeFirst(bad) == Bad(|bad|) && b != []
    ensures var n := DecodeFirst(bad + b).size;
            && (Continues(bad, b[0]) ==> n > |bad| && forall i | 0 <= i < n - |bad| :: 0x80 <= b[i] <= 0xBF)
            && (!Continues(bad, b[0]) ==> DecodeFirst(bad + b) == Bad(|bad|))
  {
  }

  lemma {:induction false} LoneContinuations(b: seq<byte>, n: nat)
    requires n <= |b| && forall i | 0 <= i < n :: 0x80 <= b[i] <= 0xBF
    ensures Lossy(b) == Replacements(n) + Lossy(b[n..])
  {
    if n > 0 {
      LoneContinuations(b[1..], n - 1);
      assert b[1..][n - 1..] == b[n..];
      assert Replacements(n) == [REPLACEMENT] + Replacements(n - 1);
      Regroup([REPLACEMENT], Replacements(n - 1), Lossy(b[n..]));
    } else {
      assert b[0..] == b;
    }
  }

  // The character a first sequence is decoded to.
  function Shown(f: First): char {
    if f.Good? then f.ch else REPLACEMENT
  }

  lemma LossyHead(bs: seq<byte>)
    requires bs != []
    ensures var f := DecodeFirst(bs); Lossy(bs) == [Shown(f)] + Lossy(bs[f.size..])
  {
  }

  // A character cut at its end: its first bytes and each of the others become a replacement of their own.
  lemma CutTail(bad: seq<byte>, b: seq<byte>) returns (n: nat, ch: char, tail: string)
    requires bad != [] && DecodeFirst(bad) == Bad(|bad|) && b != [] && Continues(bad, b[0])
    ensures n > 0 && Lossy(bad) == [REPLACEMENT]
    ensures Lossy(b) == Replacements(n) + tail && Lossy(bad + b) == [ch] + tail
    ensures ch >= 0x80 as char
  {
    DecodeTail(bad, b);
    var f := DecodeFirst(bad + b);
    n, ch := f.size - |bad|, Shown(f);
    tail := Lossy(b[n..]);
    LossyHead(bad);
    LossyHead(bad + b);
    assert (bad + b)[f.size..] == b[n..];
    LoneContinuations(b, n);
    MultibyteIsHigh(bad + b);
  }

  lemma MultibyteIsHigh(bs: seq<byte>)
    requires bs != [] && DecodeFirst(bs).size > 1
    ensures Shown(DecodeFirst(bs)) >= 0x80 as char
  {
  }

  lemma {:induction false} CutCharDecodes(a: seq<byte>, b: seq<byte>)
    returns (head: string, n: nat, ch: char, tail: string)
    requires CutsChar(a, b)
    ensures n > 0 && ch >= 0x80 as char
    ensures Lossy(a) == head + [REPLACEMENT] && Lossy(b) == Replacements(n) + tail
    ensures Lossy(a + b) == head + [ch] + tail
    decreases |a|
  {
    var f := DecodeFirst(a);
    if f.Bad? && f.size == |a| {
      n, ch, tail := CutTail(a, b);
      head := "";
    } else {
      DecodeIgnoresRest(a, b);
      LossyHead(a);
      LossyHead(a + b);
      head, n, ch, tail := CutCharDecodes(a[f.size..], b);
      Regroup([Shown(f)], head, [REPLACEMENT]);
      Regroup([Shown(f)], head + [ch], tail);
      Regroup([Shown(f)], head, [ch]);
      head := [Shown(f)] + head;
    }
  }

  lemma {:induction false} UncutDecodes(a: seq<byte>, b: seq<byte>)
    requires !CutsChar(a, b)
    ensures Lossy(a + b) == Lossy(a) + Lossy(b)
    decreases |a|
  {
    if a == [] {
      assert a + b == b;
    } else if b == [] {
      assert a + b == a;
    } else {
      var f := DecodeFirst(a);
      LossyHead(a);
      LossyHead(a + b);
      if f.Bad? && f.size == |a| {
        DecodeTail(a, b);
        assert (a + b)[f.size..] == b;
      } else {
        DecodeIgnoresRest(a, b);
        UncutDecodes(a[f.size..], b);
        Regroup([Shown(f)], Lossy(a[f.size..]), Lossy(b));
      }
    }
  }

  /** Lossy decoding of two pieces is lossy decoding of the whole exactly when the cut is not inside a character. */
  lemma LossyJoins(a: seq<byte>, b: seq<byte>)
    ensures Lossy(a + b) == Lossy(a) + Lossy(b) <==> !CutsChar(a, b)
  {
    if CutsChar(a, b) {
      var head, n, ch, tail := CutCharDecodes(a, b);
      assert |Lossy(a + b)| < |Lossy(a)| + |Lossy(b)|;
    } else {
      UncutDecodes(a, b);
    }
  }

  /** In particular no cut after complete UTF-8 text does harm. */
  lemma {:induction false} CompleteIsNotCut(a: seq<byte>)
    requires FromUtf8(a).Some?
    ensures LossyTail(a) == []
    decreases |a|
  {
    if a != [] {
      CompleteIsNotCut(a[DecodeFirst(a).size..]);
    }
  }

  // ---------- decimal integers ----------

  function DigitChar(d: nat): char
    requires d < 10
  {
    ('0' as int + d) as char
  }

  predicate IsDigit(c: char) {
    '0' <= c <= '9'
  }

  function DigitValue(c: char): nat
    requires IsDigit(c)
  {
    c as int - '0' as int
  }

  /** `n.to_string()`. */
  function PrintNat(n: nat): (s: string)
    ensures s != "" && forall i | 0 <= i < |s| :: IsDigit(s[i])
  {
    if n < 10 then [DigitChar(n)] else PrintNat(n / 10) + [DigitChar(n % 10)]
  }

  function PrintInt(n: int): string {
    if n < 0 then "-" + PrintNat(-n) else PrintNat(n)
  }

  function DigitsValue(s: string): Option<nat> {
    if s == "" then Some(0)
    else
      var high := DigitsValue(s[..|s| - 1]);
      if high.None? || !IsDigit(s[|s| - 1]) then None else Some(high.value * 10 + DigitValue(s[|s| - 1]))
  }

  /** Rust's `parse` for an unsigned type: an optional `+`, at least one digit, no overflow. */
  function ParseUnsigned(s: string, max: nat): (r: Option<nat>)
    ensures r.Some? ==> r.value <= max
  {
    var digits := if s != "" && s[0] == '+' then s[1..] else s;
    var v := DigitsValue(digits);
    if digits == "" || v.None? || v.value > max then None else v
  }

  /** Rust's `parse` for a signed type of the range `-max - 1 ..= max`. */
  function ParseSigned(s: string, max: nat): (r: Option<int>)
    ensures r.Some? ==> -(max as int) - 1 <= r.value <= max
  {
    if s != "" && s[0] == '-' then
      var v := DigitsValue(s[1..]);
      if s[1..] == "" || v.None? || v.value > max + 1 then None else Some(-(v.value as int))
    else
      var v := ParseUnsigned(s, max);
      if v.None? then None else Some(v.value)
  }

  lemma {:induction false} DigitsOfPrinted(n: nat)
    ensures DigitsValue(PrintNat(n)) == Some(n)
  {
    if n >= 10 {
      DigitsOfPrinted(n / 10);
      var s := PrintNat(n);
      assert s[..|s| - 1] == PrintNat(n / 10);
    } else {
      var s := PrintNat(n);
      assert s[..|s| - 1] == "";
    }
  }

  lemma UnsignedRoundTrip(n: nat, max: nat)
    ensures ParseUnsigned(PrintNat(n), max) == if n <= max then Some(n) else None
  {
    DigitsOfPrinted(n);
    assert IsDigit(PrintNat(n)[0]);
  }

  lemma SignedRoundTrip(n: int, max: nat)
    requires -(max as int) - 1 <= n <= max
    ensures ParseSigned(PrintInt(n), max) == Some(n)
  {
    if n < 0 {
      DigitsOfPrinted(-n);
      assert PrintInt(n)[1..] == PrintNat(-n);
    } else {
      UnsignedRoundTrip(n, max);
      assert IsDigit(PrintNat(n)[0]);
    }
  }

  // ---------- which texts are numbers ----------

  // Zeros before the digits of `n`.
  function Padded(zeros: nat, n: nat): string {
    seq(zeros, _ => '0') + PrintNat(n)
  }

  lemma {:induction false} PaddedValue(zeros: nat, n: nat)
    ensures DigitsValue(Padded(zeros, n)) == Some(n)
    decreases n
  {
    var s, last := Padded(zeros, n), |Padded(zeros, n)| - 1;
    if n >= 10 {
      PaddedValue(zeros, n / 10);
      assert s[..last] == Padded(zeros, n / 10);
    } else {
      ZerosValue(zeros);
      assert s[..last] == seq(zeros, _ => '0');
    }
  }

  lemma {:induction false} ZerosValue(zeros: nat)
    ensures DigitsValue(seq(zeros, _ => '0')) == Some(0)
  {
    if zeros > 0 {
      ZerosValue(zeros - 1);
      assert seq(zeros, _ => '0')[..zeros - 1] == seq(zeros - 1, _ => '0');
    }
  }

  // One more digit.
  lemma PaddedMore(zeros: nat, high: nat, d: nat)
    requires d < 10
    ensures Padded(zeros, high) + [DigitChar(d)]
            == if high == 0 then Padded(zeros + 1, d) else Padded(zeros, high * 10 + d)
  {
    if high == 0 {
      assert seq(zeros, _ => '0') + "0" == seq(zeros + 1, _ => '0');
    } else {
      assert PrintNat(high * 10 + d) == PrintNat(high) + [DigitChar(d)];
    }
  }

  lemma {:induction false} ValueIsPadded(s: string) returns (zeros: nat)
    requires s != "" && DigitsValue(s).Some?
    ensures s == Padded(zeros, DigitsValue(s).value)
  {
    var before, last := s[..|s| - 1], s[|s| - 1];
    var d := DigitValue(last);
    assert s == before + [last] && [DigitChar(d)] == [last];
    if before == "" {
      zeros := 0;
    } else {
      hide Padded, PrintNat;
      zeros := ValueIsPadded(before);
      var high := DigitsValue(before).value;
      PaddedMore(zeros, high, d);
      zeros := if high == 0 then zeros + 1 else zeros;
    }
  }

  /** An unsigned number is read from its decimal digits with any zeros and one plus sign before them, within the
      type's range, and from no other text. */
  lemma UnsignedTexts(s: string, max: nat, n: nat)
    ensures ParseUnsigned(s, max) == Some(n)
            <==> n <= max && exists zeros: nat :: s == Padded(zeros, n) || s == "+" + Padded(zeros, n)
  {
    var digits := if s != "" && s[0] == '+' then s[1..] else s;
    if ParseUnsigned(s, max) == Some(n) {
      var zeros := ValueIsPadded(digits);
      assert s == digits || s == "+" + digits;
      assert s == Padded(zeros, n) || s == "+" + Padded(zeros, n);
    }
    if n <= max && exists zeros: nat :: s == Padded(zeros, n) || s == "+" + Padded(zeros, n) {
      var zeros: nat :| s == Padded(zeros, n) || s == "+" + Padded(zeros, n);
      PaddedValue(zeros, n);
      assert Padded(zeros, n) != "" && IsDigit(Padded(zeros, n)[0]);
      assert digits == Padded(zeros, n);
    }
  }

  /** A signed number is read from the same texts or, when it is not positive, from digits after a minus sign. */
  lemma SignedTexts(s: string, max: nat, n: int)
    ensures s != "" && s[0] == '-' ==>
              (ParseSigned(s, max) == Some(n)
               <==> -(max as int) - 1 <= n && exists zeros: nat, k: nat :: n + k == 0 && s == "-" + Padded(zeros, k))
    ensures !(s != "" && s[0] == '-') ==>
              ParseSigned(s, max) == if ParseUnsigned(s, max).None? then None else Some(ParseUnsigned(s, max).value)
  {
    if s != "" && s[0] == '-' {
      assert s == "-" + s[1..];
      if ParseSigned(s, max) == Some(n) {
        MinusRead(s, max, n);
      }
      if -(max as int) - 1 <= n && exists zeros: nat, k: nat :: n + k == 0 && s == "-" + Padded(zeros, k) {
        var zeros: nat, k: nat :| n + k == 0 && s == "-" + Padded(zeros, k);
        PaddedValue(zeros, k);
        assert s[1..] == Padded(zeros, k) != "";
      }
    }
  }

  lemma MinusRead(s: string, max: nat, n: int)
    requires s != "" && s[0] == '-' && ParseSigned(s, max) == Some(n)
    ensures exists zeros: nat, k: nat :: n + k == 0 && s == "-" + Padded(zeros, k)
  {
    var zeros := ValueIsPadded(s[1..]);
    assert s == "-" + s[1..];
    assert n + DigitsValue(s[1..]).value == 0 && s == "-" + Padded(zeros, DigitsValue(s[1..]).value);
  }
}
