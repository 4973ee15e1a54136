/** Payment requirements as both sides read them: text fields, the typed view of `extra`, and the
    shape check that signer and facilitator share. */
module PaymentShape {
  import opened Common
  import opened AsciiText
  import opened CurrencyCodes

  /** The XRPL fields of `extra`, as sent.  Strings may still carry outer white space. */
  datatype Extra = Extra(
    issuer: Option<string>,
    feesSponsored: Option<bool>,
    transferMethod: Option<string>,
    flow: Option<string>,
    invoiceId: Option<string>,
    destinationTag: Option<int>)

  datatype Requirements = Requirements(
    scheme: string, network: string, asset: string, amount: string, payTo: string, timeout: int, extra: Extra)

  const RLUSD_HEX := "524C555344000000000000000000000000000000"
  const RLUSD_MAINNET_ISSUER := "rMxCKbEDwqr76QuheSUMdEGf4B9xJ8m5De"
  const RLUSD_TESTNET_ISSUER := "rQhWct2fv4Vc4KRjRgMrxa8xPN9Zx9iLKV"
  const INVOICE_ID_MAX_LENGTH := 128

  // ---- Number texts ----

  predicate IsDigit(c: char) { '0' <= c <= '9' }

  /** `str.isdigit`, restricted to ASCII. */
  predicate IsDigits(s: string) {
    s != "" && forall i :: 0 <= i < |s| ==> IsDigit(s[i])
  }

  /** Digits without a leading zero: INTEGER_AMOUNT_PATTERN. */
  predicate IsInteger(s: string) {
    IsDigits(s) && (s == "0" || s[0] != '0')
  }

  function IntValue(s: string): nat {
    if s == "" || !IsDigit(s[|s| - 1]) then 0
    else 10 * IntValue(s[..|s| - 1]) + (s[|s| - 1] as int - 48)
  }

  /** The value of the digits behind a decimal point. */
  function FractionValue(s: string): real {
    if s == "" || !IsDigit(s[0]) then 0.0
    else ((s[0] as int - 48) as real + FractionValue(s[1..])) / 10.0
  }

  /** Where the first point is, or the length. */
  function PointAt(s: string): (p: nat)
    ensures p <= |s|
  {
    if s == "" || s[0] == '.' then 0 else 1 + PointAt(s[1..])
  }

  /** DECIMAL_AMOUNT_PATTERN. */
  predicate IsDecimal(s: string) {
    var p := PointAt(s);
    IsInteger(s[..p]) && (p == |s| || IsDigits(s[p + 1..]))
  }

  function DecimalValue(s: string): real {
    var p := PointAt(s);
    IntValue(s[..p]) as real + if p < |s| then FractionValue(s[p + 1..]) else 0.0
  }

  lemma {:induction false} NoPointInDigits(s: string)
    requires forall i :: 0 <= i < |s| ==> IsDigit(s[i])
    ensures PointAt(s) == |s|
  {
    if s != "" {
      assert IsDigit(s[0]);
      NoPointInDigits(s[1..]);
    }
  }

  /** On integer text both readings agree, so the native and the issued comparison mean the same. */
  lemma IntegerIsDecimal(s: string)
    requires IsInteger(s)
    ensures IsDecimal(s) && DecimalValue(s) == IntValue(s) as real
  {
    NoPointInDigits(s);
    assert s[..|s|] == s;
  }

  /** Python's `str` of a whole number. */
  function DecimalText(n: nat): string {
    if n < 10 then [(n + 48) as char] else DecimalText(n / 10) + [(n % 10 + 48) as char]
  }

  /** It is read back as the same number. */
  lemma {:induction false} DecimalTextReads(n: nat)
    ensures IsInteger(DecimalText(n)) && IntValue(DecimalText(n)) == n
  {
    if n >= 10 {
      DecimalTextReads(n / 10);
      var init, last := DecimalText(n / 10), (n % 10 + 48) as char;
      assert (init + [last])[..|init|] == init;
    } else {
      assert DecimalText(n)[..0] == "";
    }
  }

  /** The integer pattern accepts exactly the canonical texts of whole numbers. */
  lemma {:induction false} IntegerIsCanonical(s: string)
    ensures IsInteger(s) <==> s == DecimalText(IntValue(s))
    decreases |s|
  {
    DecimalTextReads(IntValue(s));
    if IsInteger(s) {
      var init, last := s[..|s| - 1], s[|s| - 1];
      assert s == init + [last];
      if init == "" {
        assert IntValue(init) == 0;
      } else {
        assert init[0] == s[0] && IsDigits(init);
        IntegerIsCanonical(init);
        LeadingDigitCounts(init);
        assert IntValue(s) == 10 * IntValue(init) + (last as int - 48);
      }
    }
  }

  lemma {:induction false} LeadingDigitCounts(s: string)
    requires IsDigits(s) && s[0] != '0'
    ensures IntValue(s) > 0
    decreases |s|
  {
    if |s| > 1 {
      assert s[..|s| - 1][0] == s[0];
      LeadingDigitCounts(s[..|s| - 1]);
    } else {
      assert s[..0] == "";
    }
  }

  /** The decimal pattern: a canonical whole number, or one with digits behind a point. */
  lemma DecimalExactly(s: string)
    ensures IsDecimal(s)
            <==> IsInteger(s) || exists p :: 0 <= p < |s| && s[p] == '.' && IsInteger(s[..p]) && IsDigits(s[p + 1..])
  {
    var p := PointAt(s);
    PointMeans(s);
    assert s[..|s|] == s;
    if IsInteger(s) { NoPointInDigits(s); }
    if q :| 0 <= q < |s| && s[q] == '.' && IsInteger(s[..q]) && IsDigits(s[q + 1..]) {
      assert forall i :: 0 <= i < q ==> s[i] == s[..q][i] && IsDigit(s[..q][i]);
    }
  }

  lemma {:induction false} PointMeans(s: string)
    ensures PointAt(s) < |s| ==> s[PointAt(s)] == '.'
    ensures forall i :: 0 <= i < PointAt(s) ==> s[i] != '.'
    decreases |s|
  {
    if s != "" && s[0] != '.' {
      PointMeans(s[1..]);
      forall i | 0 <= i < PointAt(s) ensures s[i] != '.' {
        if i > 0 { assert s[1..][i - 1] == s[i]; }
      }
    }
  }

  /** `x` times ten to the power `n`. */
  function Shift(x: real, n: nat): real {
    if n == 0 then x else 10.0 * Shift(x, n - 1)
  }

  lemma {:induction false} ShiftAdds(x: real, y: real, n: nat)
    ensures Shift(x + y, n) == Shift(x, n) + Shift(y, n)
  {
    if n > 0 { ShiftAdds(x, y, n - 1); }
  }

  lemma {:induction false} ShiftTenth(x: real, n: nat)
    ensures Shift(x / 10.0, n + 1) == Shift(x, n)
  {
    if n > 0 { ShiftTenth(x, n - 1); }
  }

  lemma {:induction false} ShiftIsInjective(x: real, y: real, n: nat)
    requires Shift(x, n) == Shift(y, n)
    ensures x == y
  {
    if n > 0 { ShiftIsInjective(x, y, n - 1); }
  }

  predicate AllDigits(s: string) { forall i :: 0 <= i < |s| ==> IsDigit(s[i]) }

  function DigitValue(c: char): int { c as int - 48 }

  lemma IntValueLast(s: string, c: char)
    requires IsDigit(c)
    ensures IntValue(s + [c]) == 10 * IntValue(s) + DigitValue(c)
  {
    assert (s + [c])[..|s|] == s;
  }

  /** Reading two digit texts one after the other. */
  lemma {:induction false} IntValueConcat(a: string, b: string)
    requires AllDigits(b)
    ensures IntValue(a + b) as real == Shift(IntValue(a) as real, |b|) + IntValue(b) as real
    decreases |b|
  {
    if b == "" {
      assert a + b == a;
    } else {
      var init, last := b[..|b| - 1], b[|b| - 1];
      IntValueConcat(a, init);
      assert a + b == (a + init) + [last] && b == init + [last];
      IntValueLast(a + init, last);
      IntValueLast(init, last);
    }
  }

  /** A fraction is worth its digits as a whole number, divided by a power of ten. */
  lemma {:induction false} FractionIsScaled(s: string)
    requires AllDigits(s)
    ensures Shift(FractionValue(s), |s|) == IntValue(s) as real
    decreases |s|
  {
    if s != "" {
      var c, rest := s[0], s[1..];
      var d := DigitValue(c) as real;
      FractionIsScaled(rest);
      ShiftTenth(d + FractionValue(rest), |rest|);
      ShiftAdds(d, FractionValue(rest), |rest|);
      assert s == [c] + rest;
      IntValueConcat([c], rest);
      assert "" + [c] == [c];
      IntValueLast("", c);
    }
  }

  /** Digits, a point at `p`, digits. */
  predicate HasPointAt(s: string, p: nat) {
    p < |s| && s[p] == '.' && AllDigits(s[..p]) && AllDigits(s[p + 1..])
  }

  lemma DecimalParts(s: string, p: nat)
    requires HasPointAt(s, p)
    ensures PointAt(s) == p && DecimalValue(s) == IntValue(s[..p]) as real + FractionValue(s[p + 1..])
  {
    PointMeans(s);
    assert forall i :: 0 <= i < p ==> s[i] == s[..p][i] && IsDigit(s[..p][i]);
  }

  lemma ShiftedParts(a: string, b: string)
    requires AllDigits(b)
    ensures Shift(IntValue(a) as real + FractionValue(b), |b|) == IntValue(a + b) as real
  {
    IntValueConcat(a, b);
    FractionIsScaled(b);
    ShiftAdds(IntValue(a) as real, FractionValue(b), |b|);
  }

  /** What a decimal text is worth: times ten for every digit behind the point, it is its digits
      read as one whole number. */
  lemma DecimalIsPositional(s: string, p: nat)
    requires HasPointAt(s, p)
    ensures Shift(DecimalValue(s), |s| - p - 1) == IntValue(s[..p] + s[p + 1..]) as real
  {
    var whole, part := s[..p], s[p + 1..];
    assert |part| == |s| - p - 1;
    DecimalParts(s, p);
    ShiftedParts(whole, part);
  }

  /** A zero behind the last digit changes nothing. */
  lemma TrailingZeroIsWorthless(s: string, p: nat)
    requires HasPointAt(s, p)
    ensures DecimalValue(s + "0") == DecimalValue(s)
  {
    var s' := s + "0";
    ZeroKeepsPoint(s, p);
    DecimalIsPositional(s, p);
    DecimalIsPositional(s', p);
    IntValueLast(s[..p] + s[p + 1..], '0');
    ShiftIsInjective(DecimalValue(s'), DecimalValue(s), |s| - p);
  }

  lemma ZeroKeepsPoint(s: string, p: nat)
    requires HasPointAt(s, p)
    ensures HasPointAt(s + "0", p)
    ensures (s + "0")[..p] + (s + "0")[p + 1..] == s[..p] + s[p + 1..] + ['0']
  {
    var s' := s + "0";
    assert s'[..p] == s[..p] && s'[p + 1..] == s[p + 1..] + "0";
  }

  // ---- Networks ----

  predicate IsNetwork(network: string) {
    var n := Strip(network);
    |n| > 5 && n[..5] == "xrpl:" && IsInteger(n[5..])
  }

  function NetworkId(network: string): nat {
    var n := Strip(network);
    if |n| > 5 then IntValue(n[5..]) else 0
  }

  /** The network reference is read as a number. */
  lemma NetworkIdReads(n: nat)
    ensures IsNetwork("xrpl:" + DecimalText(n)) && NetworkId("xrpl:" + DecimalText(n)) == n
  {
    DecimalTextReads(n);
    var text, network := DecimalText(n), "xrpl:" + DecimalText(n);
    assert IsDigit(text[|text| - 1]) && network[|network| - 1] == text[|text| - 1];
    StripOfTrimmed(network);
    assert network[..5] == "xrpl:" && network[5..] == text;
  }

  // ---- The typed view and the shape check ----

  function StripOption(s: Option<string>): Option<string> {
    if s.Some? then Some(Strip(s.value)) else None
  }

  /** What pydantic makes of `extra`: the same fields with outer white space removed. */
  function Typed(extra: Extra): Extra {
    extra.(issuer := StripOption(extra.issuer), transferMethod := StripOption(extra.transferMethod),
           invoiceId := StripOption(extra.invoiceId))
  }

  /** `value or default`: an absent or empty string counts as missing. */
  function OrElse(s: Option<string>, default: string): string {
    if s.Some? && s.value != "" then s.value else default
  }

  function DefaultIssuer(asset: string, network: string): Option<string> {
    if Upper(asset) != RLUSD_HEX then None
    else if network == "xrpl:0" then Some(RLUSD_MAINNET_ISSUER)
    else if network == "xrpl:1" then Some(RLUSD_TESTNET_ISSUER)
    else None
  }

  datatype ShapeError =
    | UnsupportedScheme
    | UnsupportedNetwork
    | BadTimeout
    | BadAsset
    | AssetNotCanonical
    | XrpAsIssued
    | BadExtra
    | FeesSponsored
    | UnsupportedMethod
    | BadAmount
    | AmountNotPositive
    | IssuerNotAllowed
    | IssuerRequired
    | WrongIssuer

  predicate ExtraIsTyped(typed: Extra) {
    && (typed.flow.Some? ==> typed.flow.value == "authorization")
    && (typed.invoiceId.Some? ==> |typed.invoiceId.value| <= INVOICE_ID_MAX_LENGTH)
    && (typed.destinationTag.Some? ==> 0 <= typed.destinationTag.value <= 0xFFFF_FFFF)
  }

  predicate IsMethod(transferMethod: string) { transferMethod == "sequence" || transferMethod == "ticketSequence" }

  /** `validate_requirements_shape`. */
  function CheckShape(req: Requirements): Result<Extra, ShapeError> {
    var typed := Typed(req.extra);
    if req.scheme != "exact" then Err(UnsupportedScheme)
    else if !IsNetwork(req.network) then Err(UnsupportedNetwork)
    else if req.timeout <= 0 then Err(BadTimeout)
    else if WireCode(req.asset).Err? then Err(BadAsset)
    else if req.asset != WireCode(req.asset).value then Err(AssetNotCanonical)
    else if req.asset != "XRP" && Normalize(req.asset) == Ok("XRP") then Err(XrpAsIssued)
    else if !ExtraIsTyped(typed) then Err(BadExtra)
    else if req.extra.feesSponsored != Some(false) then Err(FeesSponsored)
    else if !IsMethod(OrElse(typed.transferMethod, "sequence")) then Err(UnsupportedMethod)
    else if req.asset == "XRP" then
      if !IsInteger(req.amount) then Err(BadAmount)
      else if IntValue(req.amount) <= 0 then Err(AmountNotPositive)
      else if typed.issuer.Some? then Err(IssuerNotAllowed)
      else Ok(typed)
    else if OrElse(typed.issuer, "") == "" then Err(IssuerRequired)
    else
      var default := DefaultIssuer(req.asset, req.network);
      if default.Some? && typed.issuer != default then Err(WrongIssuer)
      else if !IsDecimal(req.amount) then Err(BadAmount)
      else if DecimalValue(req.amount) <= 0.0 then Err(AmountNotPositive)
      else Ok(typed)
  }

  /** A positive amount of XRP without an issuer, or of an issued asset with one: in canonical wire
      form, not XRP in disguise, and RLUSD only from its issuer on the networks that name one. */
  predicate WellShaped(req: Requirements) {
    && IsNetwork(req.network) && req.timeout > 0
    && IsDecimal(req.amount) && DecimalValue(req.amount) > 0.0 && (req.asset == "XRP" ==> IsInteger(req.amount))
    && WireCode(req.asset) == Ok(req.asset)
    && (req.asset == "XRP" <==> Normalize(req.asset) == Ok("XRP"))
    && (req.asset == "XRP" <==> req.extra.issuer.None?)
    && (req.extra.issuer.Some? ==> Strip(req.extra.issuer.value) != "")
    && (DefaultIssuer(req.asset, req.network).Some?
        ==> StripOption(req.extra.issuer) == DefaultIssuer(req.asset, req.network))
  }

  /** Whatever passes the shape check is well shaped. */
  lemma ShapeDemands(req: Requirements)
    requires CheckShape(req).Ok?
    ensures WellShaped(req)
  {
    if req.asset == "XRP" {
      IntegerIsDecimal(req.amount);
      StripOfTrimmed("XRP");
    }
  }

  /** What the shape check asks besides a well-shaped demand. */
  predicate WellFormedRest(req: Requirements) {
    && req.scheme == "exact" && req.extra.feesSponsored == Some(false)
    && (req.extra.flow == None || req.extra.flow == Some("authorization"))
    && (req.extra.invoiceId.Some? ==> |Strip(req.extra.invoiceId.value)| <= 128)
    && (req.extra.destinationTag.Some? ==> 0 <= req.extra.destinationTag.value < 0x1_0000_0000)
    && (req.extra.transferMethod.Some? ==>
          Strip(req.extra.transferMethod.value) in {"", "sequence", "ticketSequence"})
  }

  /** The shape check accepts exactly the well-shaped demands whose other fields are well formed. */
  lemma ShapeExactly(req: Requirements)
    ensures CheckShape(req).Ok? <==> WellShaped(req) && WellFormedRest(req)
  {
    if CheckShape(req).Ok? { ShapeDemands(req); }
    if WellShaped(req) && WellFormedRest(req) {
      if req.asset == "XRP" { XrpPasses(req); } else { IssuedPasses(req); }
    }
  }

  lemma RestIsTyped(req: Requirements)
    requires WellFormedRest(req)
    ensures ExtraIsTyped(Typed(req.extra)) && IsMethod(OrElse(Typed(req.extra).transferMethod, "sequence"))
  {
  }

  lemma XrpPasses(req: Requirements)
    requires WellShaped(req) && WellFormedRest(req) && req.asset == "XRP"
    ensures CheckShape(req).Ok?
  {
    RestIsTyped(req);
    IntegerIsDecimal(req.amount);
  }

  lemma IssuedPasses(req: Requirements)
    requires WellShaped(req) && WellFormedRest(req) && req.asset != "XRP"
    ensures CheckShape(req).Ok?
  {
    RestIsTyped(req);
  }

  lemma RlusdWireCode()
    ensures WireCode("RLUSD") == Ok(RLUSD_HEX)
  {
    StripOfTrimmed("RLUSD");
    RlusdIsUpper();
    RlusdEncodes();
  }

  lemma RlusdEncodes()
    ensures EncodeHex40("RLUSD") == RLUSD_HEX
  {
    RlusdLetters();
    RlusdPadding();
    var h := EncodeHex40("RLUSD");
    assert |RLUSD_HEX| == 40;
    assert forall i :: 0 <= i < 40 ==> h[i] == RLUSD_HEX[i];
  }

  lemma RlusdIsUpper()
    ensures Upper("RLUSD") == "RLUSD"
  {
  }

  lemma RlusdLetters()
    ensures forall i :: 0 <= i < 10 ==> EncodeHex40("RLUSD")[i] == RLUSD_HEX[i]
  {
    var h := EncodeHex40("RLUSD");
    assert h[0] == '5' && h[1] == '2' && h[2] == '4' && h[3] == 'C' && h[4] == '5';
    assert h[5] == '5' && h[6] == '5' && h[7] == '3' && h[8] == '4' && h[9] == '4';
  }

  lemma RlusdPadding()
    ensures forall i :: 10 <= i < 40 ==> EncodeHex40("RLUSD")[i] == RLUSD_HEX[i]
  {
    assert |RLUSD_HEX| == 40 && RLUSD_HEX[10..] == "000000000000000000000000000000";
    forall i | 10 <= i < 40 ensures EncodeHex40("RLUSD")[i] == RLUSD_HEX[i] {
      assert RLUSD_HEX[i] == RLUSD_HEX[10..][i - 10];
    }
  }

  /** RLUSD has one issuer on each of the two networks that name one, and no other asset has. */
  lemma RlusdIssuers()
    ensures DefaultIssuer(RLUSD_HEX, "xrpl:0") == Some("rMxCKbEDwqr76QuheSUMdEGf4B9xJ8m5De")
    ensures DefaultIssuer(RLUSD_HEX, "xrpl:1") == Some("rQhWct2fv4Vc4KRjRgMrxa8xPN9Zx9iLKV")
    ensures forall asset, network :: DefaultIssuer(asset, network).Some?
                                     ==> Upper(asset) == RLUSD_HEX && network in {"xrpl:0", "xrpl:1"}
  {
    assert Upper(RLUSD_HEX) == RLUSD_HEX;
  }

  /** The reason given is a true one. */
  lemma ShapeReasonIsTrue(req: Requirements)
    requires CheckShape(req).Err?
    ensures var typed := Typed(req.extra);
            match CheckShape(req).error
            case UnsupportedScheme => req.scheme != "exact"
            case UnsupportedNetwork => !IsNetwork(req.network)
            case BadTimeout => req.timeout <= 0
            case BadAsset => WireCode(req.asset).Err?
            case AssetNotCanonical => WireCode(req.asset).Ok? && WireCode(req.asset) != Ok(req.asset)
            case XrpAsIssued => req.asset != "XRP" && Normalize(req.asset) == Ok("XRP")
            case BadExtra => !ExtraIsTyped(typed)
            case FeesSponsored => req.extra.feesSponsored != Some(false)
            case UnsupportedMethod => typed.transferMethod.Some?
                                      && typed.transferMethod.value !in {"", "sequence", "ticketSequence"}
            case BadAmount => if req.asset == "XRP" then !IsInteger(req.amount) else !IsDecimal(req.amount)
            case AmountNotPositive => DecimalValue(req.amount) <= 0.0
            case IssuerNotAllowed => req.asset == "XRP" && req.extra.issuer.Some?
            case IssuerRequired => req.asset != "XRP" && (typed.issuer.None? || typed.issuer == Some(""))
            case WrongIssuer => DefaultIssuer(req.asset, req.network).Some?
                                && typed.issuer != DefaultIssuer(req.asset, req.network)
  {
    if req.asset == "XRP" && IsInteger(req.amount) { IntegerIsDecimal(req.amount); }
  }
}
