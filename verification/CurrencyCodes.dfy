/** Currency codes: the friendly symbol and the 40-digit hexadecimal wire form. */
module CurrencyCodes {
  import opened AsciiText
  import opened Common

  datatype CodeError = CodeRequired | CodeTooLong | NotAscii

  predicate IsHexDigit(c: char) {
    '0' <= c <= '9' || 'a' <= c <= 'f' || 'A' <= c <= 'F'
  }

  predicate IsHex40(s: string) {
    |s| == 40 && forall i :: 0 <= i < |s| ==> IsHexDigit(s[i])
  }

  function HexValue(c: char): (v: nat)
    requires IsHexDigit(c)
    ensures v < 16
  {
    if '0' <= c <= '9' then c as int - 48
    else if 'a' <= c <= 'f' then c as int - 87
    else c as int - 55
  }

  function HexDigit(v: nat): (c: char)
    requires v < 16
    ensures IsHexDigit(c) && HexValue(c) == v && UpperChar(c) == c
  {
    if v < 10 then (v + 48) as char else (v + 55) as char
  }

  predicate IsAscii(s: string) { forall i :: 0 <= i < |s| ==> s[i] as int < 128 }

  predicate IsPrintable(s: string) { forall i :: 0 <= i < |s| ==> 32 <= s[i] as int <= 126 }

  /** `bytes.fromhex`, one character per byte. */
  function DecodeHex(s: string): (d: string)
    requires IsHex40(s)
    ensures |d| == 20
  {
    seq(20, i requires 0 <= i < 20 => (16 * HexValue(s[2 * i]) + HexValue(s[2 * i + 1])) as char)
  }

  /** Upper-case hexadecimal, padded on the right with zeros to 40 digits. */
  function EncodeHex40(s: string): (h: string)
    requires |s| <= 20 && IsAscii(s)
    ensures IsHex40(h)
  {
    seq(40, i requires 0 <= i < 40 =>
      if i >= 2 * |s| then '0'
      else if i % 2 == 0 then HexDigit(s[i / 2] as int / 16)
      else HexDigit(s[i / 2] as int % 16))
  }

  function StripNul(s: string): string {
    if s != "" && s[|s| - 1] == '\0' then StripNul(s[..|s| - 1]) else s
  }

  /** `normalize_currency_code`. */
  function Normalize(code: string): Result<string, CodeError> {
    var n := Upper(Strip(code));
    if n == "" then Err(CodeRequired)
    else if IsHex40(n) then
      var decoded := StripNul(DecodeHex(n));
      if decoded != "" && IsPrintable(decoded) then Ok(Upper(decoded)) else Ok(n)
    else Ok(n)
  }

  /** `xrpl_currency_code`. */
  function WireCode(code: string): Result<string, CodeError> {
    var raw := Strip(code);
    if raw == "" then Err(CodeRequired)
    else if IsHex40(raw) then Ok(Upper(raw))
    else
      var n := Upper(raw);   // not hexadecimal, so normalising only upper-cases
      if |n| == 3 then Ok(n)
      else if |n| > 20 then Err(CodeTooLong)
      else if !IsAscii(n) then Err(NotAscii)
      else Ok(EncodeHex40(n))
  }

  lemma UpperKeepsHex(s: string)
    ensures IsHex40(Upper(s)) <==> IsHex40(s)
    ensures IsHex40(s) ==> DecodeHex(Upper(s)) == DecodeHex(s)
  {
    if IsHex40(Upper(s)) {
      forall i | 0 <= i < |s| ensures IsHexDigit(s[i]) { assert IsHexDigit(Upper(s)[i]); }
    }
    if IsHex40(s) {
      forall i | 0 <= i < |s| ensures IsHexDigit(Upper(s)[i]) { }
      assert forall c :: IsHexDigit(c) ==> HexValue(UpperChar(c)) == HexValue(c);
    }
  }

  /** The comment in `WireCode`: on a code that is not hexadecimal, `normalize_currency_code`
      returns the trimmed, upper-cased text. */
  lemma NormalizeOfSymbol(code: string)
    requires Strip(code) != "" && !IsHex40(Strip(code))
    ensures Normalize(code) == Ok(Upper(Strip(code)))
  {
    UpperKeepsHex(Strip(code));
  }

  lemma HexIsTrimmed(h: string)
    requires IsHex40(h)
    ensures Strip(h) == h
  {
    StripOfTrimmed(h);
  }

  lemma EncodedIsUpper(s: string)
    requires |s| <= 20 && IsAscii(s)
    ensures Upper(EncodeHex40(s)) == EncodeHex40(s)
  {
  }

  /** Encoding to wire form is idempotent, for every accepted code. */
  lemma WireIsIdempotent(code: string)
    requires WireCode(code).Ok?
    ensures WireCode(WireCode(code).value) == WireCode(code)
  {
    var raw := Strip(code);
    var w := WireCode(code).value;
    if IsHex40(raw) {
      UpperKeepsHex(raw);
      HexIsTrimmed(Upper(raw));
      UpperIdempotent(raw);
    } else if |raw| == 3 {
      StripIsTrimmed(code);
      StripOfUpper(raw);
      UpperIdempotent(raw);
    } else {
      HexIsTrimmed(w);
      EncodedIsUpper(Upper(raw));
    }
  }

  lemma EncodedByte(s: string, i: nat)
    requires |s| <= 20 && IsAscii(s) && i < 20
    ensures 16 * HexValue(EncodeHex40(s)[2 * i]) + HexValue(EncodeHex40(s)[2 * i + 1])
         == if i < |s| then s[i] as int else 0
  {
    var h := EncodeHex40(s);
    if i < |s| {
      assert h[2 * i] == HexDigit(s[i] as int / 16);
      assert h[2 * i + 1] == HexDigit(s[i] as int % 16);
    } else {
      assert h[2 * i] == '0' && h[2 * i + 1] == '0';
    }
  }

  lemma DecodeEncoded(s: string)
    requires |s| <= 20 && IsAscii(s)
    ensures DecodeHex(EncodeHex40(s)) == s + seq(20 - |s|, i => '\0')
  {
    forall i | 0 <= i < 20
      ensures DecodeHex(EncodeHex40(s))[i] == (s + seq(20 - |s|, i => '\0'))[i]
    {
      EncodedByte(s, i);
    }
  }

  lemma {:induction false} StripNulPadding(s: string, k: nat)
    requires s == "" || s[|s| - 1] != '\0'
    ensures StripNul(s + seq(k, i => '\0')) == s
    decreases k
  {
    var p := s + seq(k, i => '\0');
    if k == 0 {
      assert p == s;
    } else {
      assert p[..|p| - 1] == s + seq(k - 1, i => '\0');
      StripNulPadding(s, k - 1);
    }
  }

  /** Normalising the wire form gives what normalising the original gives, exactly for
      hexadecimal codes, three-character codes and codes of printable characters. */
  lemma NormalizeOfWire(code: string)
    requires WireCode(code).Ok?
    ensures Normalize(WireCode(code).value) == Normalize(code)
            <==> IsHex40(Strip(code)) || |Strip(code)| == 3 || IsPrintable(Strip(code))
  {
    var raw := Strip(code);
    var w := WireCode(code).value;
    if IsHex40(raw) {
      UpperKeepsHex(raw);
      HexIsTrimmed(Upper(raw));
      UpperIdempotent(raw);
    } else if |raw| == 3 {
      NormalizeOfSymbol(code);
      StripIsTrimmed(code);
      StripOfUpper(raw);
      UpperIdempotent(raw);
    } else {
      NormalizeOfSymbol(code);
      StripTwice(code);
      NormalizeOfEncoded(raw);
    }
  }

  lemma PrintableUpper(s: string)
    ensures IsPrintable(Upper(s)) <==> IsPrintable(s)
  {
    if IsPrintable(Upper(s)) {
      forall i | 0 <= i < |s| ensures 32 <= s[i] as int <= 126 { assert 32 <= Upper(s)[i] as int <= 126; }
    }
  }

  lemma NormalizeOfEncoded(raw: string)
    requires raw != "" && Strip(raw) == raw && |raw| <= 20 && IsAscii(Upper(raw))
    ensures Normalize(EncodeHex40(Upper(raw))) == Ok(Upper(raw)) <==> IsPrintable(raw)
  {
    var n := Upper(raw);
    var w := EncodeHex40(n);
    HexIsTrimmed(w);
    EncodedIsUpper(n);
    DecodeEncoded(n);
    PrintableUpper(raw);
    if IsPrintable(raw) {
      StripNulPadding(n, 20 - |n|);
      UpperIdempotent(raw);
    } else {
      var decoded := StripNul(DecodeHex(w));
      assert Normalize(w) == Ok(w) || Normalize(w) == Ok(Upper(decoded));
      if Normalize(w) == Ok(n) {
        assert Upper(decoded) == n;
        PrintableUpper(decoded);
      }
    }
  }

  /** Two symbols that are not hexadecimal share a wire code only if they are equal after trimming
      and upper-casing. */
  lemma WireIsInjective(a: string, b: string)
    requires !IsHex40(Strip(a)) && !IsHex40(Strip(b))
    requires IsPrintable(Strip(a)) && IsPrintable(Strip(b))
    requires WireCode(a).Ok? && WireCode(a) == WireCode(b)
    ensures Upper(Strip(a)) == Upper(Strip(b))
  {
    NormalizeOfWire(a);
    NormalizeOfWire(b);
    NormalizeOfSymbol(a);
    NormalizeOfSymbol(b);
  }

  /** Equal normal forms do not give equal wire codes: every three-letter code also has a
      hexadecimal spelling that normalises to it but stays hexadecimal on the wire. */
  lemma HexSpellingOfThreeLetters(code: string)
    requires |code| == 3 && IsTrimmed(code) && IsPrintable(code)
    ensures Normalize(EncodeHex40(Upper(code))) == Normalize(code)
    ensures WireCode(EncodeHex40(Upper(code))).Ok? && WireCode(code).Ok?
    ensures WireCode(EncodeHex40(Upper(code))) != WireCode(code)
  {
    StripOfTrimmed(code);
    NormalizeOfSymbol(code);
    NormalizeOfEncoded(code);
    HexIsTrimmed(EncodeHex40(Upper(code)));
    assert |WireCode(code).value| == 3;
  }

  /** A code has a wire form exactly when it is hexadecimal, or has three characters, or is ASCII of
      at most twenty; three characters stay as they are, longer and shorter symbols become
      hexadecimal. */
  lemma WireGivenExactly(code: string)
    ensures var raw := Strip(code);
            && (WireCode(code).Ok? <==> raw != "" && (IsHex40(raw) || |raw| == 3 || (|raw| <= 20 && IsAscii(raw))))
            && (WireCode(code) == Err(CodeRequired) <==> raw == "")
            && (WireCode(code) == Err(CodeTooLong) <==> |raw| > 20 && !IsHex40(raw))
            && (WireCode(code).Ok? ==> |WireCode(code).value| == 3 || IsHex40(WireCode(code).value))
            && (WireCode(code).Ok? && |raw| == 3 ==> WireCode(code) == Ok(Upper(raw)))
            && (WireCode(code).Ok? ==> Upper(WireCode(code).value) == WireCode(code).value)
  {
    var raw := Strip(code);
    UpperIdempotent(raw);
    UpperKeepsHex(raw);
    AsciiUpper(raw);
    if |raw| <= 20 && IsAscii(raw) { EncodedIsUpper(Upper(raw)); }
  }

  lemma AsciiUpper(s: string)
    ensures IsAscii(Upper(s)) <==> IsAscii(s)
  {
    if IsAscii(Upper(s)) {
      forall i | 0 <= i < |s| ensures s[i] as int < 128 { assert Upper(s)[i] as int < 128; }
    }
  }

  /** A hexadecimal code is shown by its bytes exactly when these, without the zeros at the end, are
      at least one and all between blank and tilde. */
  lemma ShownByBytesExactly(h: string)
    requires IsHex40(h)
    ensures var bytes := StripNul(DecodeHex(h));
            var shown := bytes != "" && forall i :: 0 <= i < |bytes| ==> ' ' <= bytes[i] <= '~';
            Normalize(h) == Ok(if shown then Upper(bytes) else Upper(h))
  {
    HexIsTrimmed(h);
    UpperKeepsHex(h);
    var bytes := StripNul(DecodeHex(h));
    assert IsPrintable(bytes) <==> forall i :: 0 <= i < |bytes| ==> ' ' <= bytes[i] <= '~';
  }
}
