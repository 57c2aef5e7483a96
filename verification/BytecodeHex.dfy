/** The patch on hex strings (go/scdo/bytecode.go), with Go's hex encoding. A `char` stands for one byte of a Go string. */
module BytecodeHex {
  import opened Bytes
  import opened Bytecode

  datatype Result<T> = Ok(value: T) | OddLength | InvalidByte(at: char)

  function DigitValue(c: char): int {
    if '0' <= c <= '9' then c as int - '0' as int
    else if 'a' <= c <= 'f' then c as int - 'a' as int + 10
    else if 'A' <= c <= 'F' then c as int - 'A' as int + 10
    else -1
  }

  predicate IsDigit(c: char) { DigitValue(c) >= 0 }

  function Digit(v: int): char
    requires 0 <= v < 16
  {
    if v < 10 then '0' + v as char else 'a' + (v - 10) as char
  }

  function EncodeByte(b: Byte): string { [Digit(b / 16), Digit(b % 16)] }

  function EncodeToString(bs: seq<Byte>): string {
    if bs == [] then [] else EncodeByte(bs[0]) + EncodeToString(bs[1..])
  }

  function DecodeByte(c: char, d: char): Byte
    requires IsDigit(c) && IsDigit(d)
  {
    DigitValue(c) * 16 + DigitValue(d)
  }

  /** Stops at the first byte that is not a digit. */
  function DecodeString(s: string): Result<seq<Byte>> {
    if s == [] then Ok([])
    else if !IsDigit(s[0]) then InvalidByte(s[0])
    else if |s| == 1 then OddLength
    else if !IsDigit(s[1]) then InvalidByte(s[1])
    else
      match DecodeString(s[2..])
      case Ok(rest) => Ok([DecodeByte(s[0], s[1])] + rest)
      case error => error
  }

  function WithoutPrefix(s: string): string {
    if |s| >= 2 && (s[..2] == "0x" || s[..2] == "0X") then s[2..] else s
  }

  function PatchBytecodeHex(hexcode: string): Result<string> {
    var digits := WithoutPrefix(hexcode);
    if |digits| % 2 != 0 then OddLength
    else
      match DecodeString(digits)
      case Ok(raw) => Ok("0x" + EncodeToString(Patched(raw)))
      case OddLength => OddLength
      case InvalidByte(c) => InvalidByte(c)
  }

  predicate AllDigits(s: string) {
    s == [] || (IsDigit(s[0]) && AllDigits(s[1..]))
  }

  function LowerCase(c: char): char {
    if 'A' <= c <= 'F' then c + 32 as char else c
  }

  function Lower(s: string): string {
    if s == [] then [] else [LowerCase(s[0])] + Lower(s[1..])
  }

  lemma DigitRoundTrip(v: int)
    requires 0 <= v < 16
    ensures DigitValue(Digit(v)) == v
  {
  }

  lemma LowerCaseIsDigit(c: char)
    requires IsDigit(c)
    ensures 0 <= DigitValue(c) < 16 && Digit(DigitValue(c)) == LowerCase(c)
  {
  }

  lemma ByteRoundTrip(b: Byte)
    ensures var s := EncodeByte(b); IsDigit(s[0]) && IsDigit(s[1]) && DecodeByte(s[0], s[1]) == b
  {
    DigitRoundTrip(b / 16);
    DigitRoundTrip(b % 16);
  }

  lemma DigitsRoundTrip(c: char, d: char)
    requires IsDigit(c) && IsDigit(d)
    ensures EncodeByte(DecodeByte(c, d)) == [LowerCase(c), LowerCase(d)]
  {
    LowerCaseIsDigit(c);
    LowerCaseIsDigit(d);
    var b := DecodeByte(c, d);
    assert b / 16 == DigitValue(c) && b % 16 == DigitValue(d);
  }

  lemma DecodesPair(pair: string, rest: string)
    requires |pair| == 2 && IsDigit(pair[0]) && IsDigit(pair[1])
    ensures DecodeString(pair + rest)
            == match DecodeString(rest) case Ok(bs) => Ok([DecodeByte(pair[0], pair[1])] + bs) case error => error
  {
    assert (pair + rest)[2..] == rest;
  }

  /** Encoding then decoding gives the bytes back. */
  lemma {:induction false} DecodesWhatItEncodes(bs: seq<Byte>)
    ensures DecodeString(EncodeToString(bs)) == Ok(bs) && |EncodeToString(bs)| % 2 == 0
  {
    if bs != [] {
      ByteRoundTrip(bs[0]);
      DecodesPair(EncodeByte(bs[0]), EncodeToString(bs[1..]));
      DecodesWhatItEncodes(bs[1..]);
      assert [bs[0]] + bs[1..] == bs;
    }
  }

  lemma TakesPair(s: string, t: string)
    requires |s| >= 2 && t == s[1..]
    ensures AllDigits(s) <==> IsDigit(s[0]) && IsDigit(s[1]) && AllDigits(s[2..])
    ensures Lower(s) == [LowerCase(s[0]), LowerCase(s[1])] + Lower(s[2..])
  {
    assert t[0] == s[1] && t[1..] == s[2..];
    assert Lower(t) == [LowerCase(s[1])] + Lower(s[2..]);
  }

  /** Decoding succeeds exactly on an even number of digits, and encoding the result gives them back in lower case. */
  lemma {:induction false} EncodesWhatItDecodes(s: string)
    ensures DecodeString(s).Ok? <==> |s| % 2 == 0 && AllDigits(s)
    ensures DecodeString(s).Ok? ==> EncodeToString(DecodeString(s).value) == Lower(s)
  {
    if |s| >= 2 {
      TakesPair(s, s[1..]);
      EncodesWhatItDecodes(s[2..]);
      if IsDigit(s[0]) && IsDigit(s[1]) && DecodeString(s[2..]).Ok? {
        EncodesPair(s[0], s[1], DecodeString(s[2..]).value);
      }
    }
  }

  lemma EncodesPair(c: char, d: char, bs: seq<Byte>)
    requires IsDigit(c) && IsDigit(d)
    ensures EncodeToString([DecodeByte(c, d)] + bs) == [LowerCase(c), LowerCase(d)] + EncodeToString(bs)
  {
    DigitsRoundTrip(c, d);
    EncodesOneMore(DecodeByte(c, d), bs);
  }

  lemma EncodesOneMore(b: Byte, bs: seq<Byte>)
    ensures EncodeToString([b] + bs) == EncodeByte(b) + EncodeToString(bs)
  {
    assert ([b] + bs)[1..] == bs;
  }

  lemma PrefixGoesAway(s: string)
    ensures WithoutPrefix("0x" + s) == s && WithoutPrefix("0X" + s) == s
  {
    assert ("0x" + s)[..2] == "0x" && ("0x" + s)[2..] == s;
    assert ("0X" + s)[..2] == "0X" && ("0X" + s)[2..] == s;
  }

  /** A string that does not begin with a prefix is taken as it is. */
  lemma NoPrefixStays(s: string)
    requires |s| >= 2 ==> s[0] != '0' || (s[1] != 'x' && s[1] != 'X')
    ensures WithoutPrefix(s) == s
  {
    if |s| >= 2 { assert s[..2][0] == s[0] && s[..2][1] == s[1]; }
  }

  /**
   The hex wrapper, for every string: it succeeds exactly on an even number of digits after an optional prefix, its
   result holds the patched bytes, and patching that again changes nothing.
   */
  lemma PatchesHex(hexcode: string)
    ensures var digits := WithoutPrefix(hexcode);
            var r := PatchBytecodeHex(hexcode);
            && (r.Ok? <==> |digits| % 2 == 0 && AllDigits(digits))
            && (r.Ok? ==>
                  && DecodeString(WithoutPrefix(r.value)) == Ok(Patched(DecodeString(digits).value))
                  && PatchBytecodeHex(r.value) == r)
  {
    EncodesWhatItDecodes(WithoutPrefix(hexcode));
    if PatchBytecodeHex(hexcode).Ok? {
      var raw := DecodeString(WithoutPrefix(hexcode)).value;
      PatchIsFinal(raw);
      PatchesEncoded(Patched(raw));
    }
  }

  lemma PatchesDigits(hexcode: string, digits: string, raw: seq<Byte>)
    requires WithoutPrefix(hexcode) == digits && |digits| % 2 == 0 && DecodeString(digits) == Ok(raw)
    ensures PatchBytecodeHex(hexcode) == Ok("0x" + EncodeToString(Patched(raw)))
  {
  }

  /** Patching what the wrapper itself writes. */
  lemma PatchesEncoded(bs: seq<Byte>)
    ensures DecodeString(WithoutPrefix("0x" + EncodeToString(bs))) == Ok(bs)
    ensures PatchBytecodeHex("0x" + EncodeToString(bs)) == Ok("0x" + EncodeToString(Patched(bs)))
  {
    var digits := EncodeToString(bs);
    PrefixGoesAway(digits);
    DecodesWhatItEncodes(bs);
    PatchesDigits("0x" + digits, digits, bs);
  }

  /** Code without a 0xfd byte comes back as it was, in lower case. */
  lemma KeepsCodeWithoutRevert(hexcode: string)
    requires var bytes := DecodeString(WithoutPrefix(hexcode)); bytes.Ok? && REVERT !in bytes.value
    ensures PatchBytecodeHex(hexcode) == Ok("0x" + Lower(WithoutPrefix(hexcode)))
  {
    EncodesWhatItDecodes(WithoutPrefix(hexcode));
    var raw := DecodeString(WithoutPrefix(hexcode)).value;
    assert Patched(raw) == raw;
  }

  /** The digits in order, the high half of a byte first: what a decoded digit string is worth. */
  lemma DigitsInOrder(v: int)
    requires 0 <= v < 16
    ensures Digit(v) == "0123456789abcdef"[v] && DigitValue("0123456789abcdef"[v]) == v && DigitValue("0123456789ABCDEF"[v]) == v
  {
  }

  /** A byte is written with its high half first. */
  lemma HighHalfFirst(high: int, low: int)
    requires 0 <= high < 16 && 0 <= low < 16
    ensures EncodeByte(16 * high + low) == ["0123456789abcdef"[high], "0123456789abcdef"[low]]
  {
    DigitsInOrder(high);
    DigitsInOrder(low);
    assert (16 * high + low) / 16 == high && (16 * high + low) % 16 == low;
  }

  /** Errors: an odd number of digits is reported before anything else, and otherwise the first byte that is no digit. */
  lemma ReportsErrors(hexcode: string)
    ensures var digits := WithoutPrefix(hexcode);
            var r := PatchBytecodeHex(hexcode);
            && (r.OddLength? <==> |digits| % 2 == 1)
            && (r.InvalidByte? ==>
                  exists k :: 0 <= k < |digits| && r.at == digits[k] && !IsDigit(digits[k]) && forall j :: 0 <= j < k ==> IsDigit(digits[j]))
  {
    FirstBadDigit(WithoutPrefix(hexcode));
  }

  lemma {:induction false} FirstBadDigit(s: string)
    ensures DecodeString(s).OddLength? ==> |s| % 2 == 1
    ensures DecodeString(s).InvalidByte? ==>
              exists k :: 0 <= k < |s| && DecodeString(s).at == s[k] && !IsDigit(s[k]) && forall j :: 0 <= j < k ==> IsDigit(s[j])
  {
    if |s| >= 2 && IsDigit(s[0]) && IsDigit(s[1]) {
      var rest := s[2..];
      FirstBadDigit(rest);
      if DecodeString(rest).InvalidByte? {
        var k :| 0 <= k < |rest| && DecodeString(rest).at == rest[k] && !IsDigit(rest[k]) && forall j :: 0 <= j < k ==> IsDigit(rest[j]);
        assert s[k + 2] == rest[k];
        forall j | 0 <= j < k + 2 ensures IsDigit(s[j]) {
          if j >= 2 { assert s[j] == rest[j - 2]; }
        }
      }
    } else if |s| >= 1 && !IsDigit(s[0]) {
      assert DecodeString(s).at == s[0];
    } else if |s| >= 2 {
      assert DecodeString(s).at == s[1] && IsDigit(s[0]);
    }
  }
}
