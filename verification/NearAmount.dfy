/**
 NEAR amounts as text: the parser of user input, the printer that fills an input from a yocto amount,
 and the unstake dialog's suggested amount. Amounts are bigints; division truncates toward zero.
 */
module NearAmount {
  import opened Wrappers

  const YOCTO_PER_NEAR: int := 1_000_000_000_000_000_000_000_000
  const MAX_U128: int := 340_282_366_920_938_463_463_374_607_431_768_211_455
  const DECIMALS: nat := 24

  // --- Digits ---

  predicate IsDigit(c: char) { '0' <= c <= '9' }

  predicate AllDigits(s: string) { forall i | 0 <= i < |s| :: IsDigit(s[i]) }

  function DigitValue(c: char): nat
    requires IsDigit(c)
  {
    c as int - '0' as int
  }

  function Digit(d: nat): (c: char)
    requires d < 10
    ensures IsDigit(c) && DigitValue(c) == d
  {
    ('0' as int + d) as char
  }

  // BigInt of a digit string.
  function Value(s: string): nat
    requires AllDigits(s)
  {
    if s == [] then 0 else 10 * Value(s[..|s| - 1]) + DigitValue(s[|s| - 1])
  }

  function Decimal(n: nat): (s: string)
    ensures s != [] && AllDigits(s)
  {
    if n < 10 then [Digit(n)] else Decimal(n / 10) + [Digit(n % 10)]
  }

  function ToText(n: int): string {
    if n < 0 then "-" + Decimal(-n) else Decimal(n)
  }

  function Zeros(k: nat): (s: string)
    ensures |s| == k && forall i :: 0 <= i < k ==> s[i] == '0'
  {
    seq(k, i => '0')
  }

  function PadStart(s: string, k: nat): string {
    if |s| >= k then s else Zeros(k - |s|) + s
  }

  function PadEnd(s: string, k: nat): string {
    if |s| >= k then s else s + Zeros(k - |s|)
  }

  function StripZeros(s: string): string {
    if s != [] && s[|s| - 1] == '0' then StripZeros(s[..|s| - 1]) else s
  }

  // --- The parser ---

  predicate IsSpace(c: char) {
    || '\t' <= c <= '\r' || c == ' ' || c == '\U{A0}' || c == '\U{1680}' || '\U{2000}' <= c <= '\U{200A}'
    || c == '\U{2028}' || c == '\U{2029}' || c == '\U{202F}' || c == '\U{205F}' || c == '\U{3000}' || c == '\U{FEFF}'
  }

  function TrimStart(s: string): string {
    if s != [] && IsSpace(s[0]) then TrimStart(s[1..]) else s
  }

  function TrimEnd(s: string): string {
    if s != [] && IsSpace(s[|s| - 1]) then TrimEnd(s[..|s| - 1]) else s
  }

  function Trim(s: string): string { TrimEnd(TrimStart(s)) }

  function LeadingDigits(s: string): (k: nat)
    ensures k <= |s| && AllDigits(s[..k])
    ensures k < |s| ==> !IsDigit(s[k])
  {
    if s != [] && IsDigit(s[0]) then
      assert s[..LeadingDigits(s[1..]) + 1] == [s[0]] + s[1..][..LeadingDigits(s[1..])];
      LeadingDigits(s[1..]) + 1
    else 0
  }

  datatype Parts = Parts(whole: string, fraction: string)

  // Digits, then optionally a point and more digits, and nothing else.
  function Match(s: string): (r: Option<Parts>)
    ensures r.Some? ==> AllDigits(r.value.whole) && AllDigits(r.value.fraction)
  {
    var k := LeadingDigits(s);
    if k == 0 then None
    else if k == |s| then Some(Parts(s[..k], []))
    else if s[k] == '.' && AllDigits(s[k + 1..]) then Some(Parts(s[..k], s[k + 1..]))
    else None
  }

  function Amount(p: Parts): nat
    requires AllDigits(p.whole) && AllDigits(p.fraction)
  {
    Value(p.whole) * YOCTO_PER_NEAR + Value(PadEnd(p.fraction, DECIMALS))
  }

  function ParseNearAmount(value: string): Option<int> {
    var m := Match(Trim(value));
    if m == None then None
    else if |m.value.fraction| > DECIMALS then None
    else
      var yocto := Amount(m.value);
      if yocto <= 0 || yocto > MAX_U128 then None else Some(yocto)
  }

  // --- The printer and the dialog ---

  function Quotient(a: int): int { if a >= 0 then a / YOCTO_PER_NEAR else -(-a / YOCTO_PER_NEAR) }

  function Remainder(a: int): int { a - YOCTO_PER_NEAR * Quotient(a) }

  function YoctoToNearInput(yocto: int): string {
    var fraction := StripZeros(PadStart(ToText(Remainder(yocto)), DECIMALS));
    if fraction != [] then ToText(Quotient(yocto)) + "." + fraction else ToText(Quotient(yocto))
  }

  function MaxMinusOneNear(max: int): int {
    if max > YOCTO_PER_NEAR then max - YOCTO_PER_NEAR else max
  }

  function ParseUnstakeAmount(amount: string, max: int): Option<int> {
    var yocto := ParseNearAmount(amount);
    if yocto == None || yocto.value == 0 || yocto.value > max then None else yocto
  }

  // --- Digits and values ---

  function Pow10(k: nat): nat { if k == 0 then 1 else 10 * Pow10(k - 1) }

  lemma PowDecimals()
    ensures Pow10(DECIMALS) == YOCTO_PER_NEAR
  {
    assert Pow10(6) == 1_000_000;
    assert Pow10(12) == 1_000_000_000_000;
    assert Pow10(18) == 1_000_000_000_000_000_000;
    assert Pow10(24) == 1_000_000_000_000_000_000_000_000;
  }

  lemma {:induction false} ValueOfDecimal(n: nat)
    ensures Value(Decimal(n)) == n
  {
    if n >= 10 {
      ValueOfDecimal(n / 10);
      assert Decimal(n)[..|Decimal(n)| - 1] == Decimal(n / 10);
    }
  }

  lemma {:induction false} DecimalLength(n: nat, k: nat)
    requires n < Pow10(k) && k >= 1
    ensures |Decimal(n)| <= k
  {
    if n >= 10 {
      DecimalLength(n / 10, k - 1);
    }
  }

  lemma {:induction false} NoLeadingZero(n: nat)
    ensures Decimal(n)[0] == '0' ==> Decimal(n) == "0"
  {
    if n >= 10 {
      NoLeadingZero(n / 10);
      assert Decimal(n)[0] == Decimal(n / 10)[0];
      ValueOfDecimal(n / 10);
      assert Value("0") == 0;
    }
  }

  lemma {:induction false} ValueOfPadded(s: string, k: nat)
    requires AllDigits(s)
    ensures AllDigits(Zeros(k) + s) && Value(Zeros(k) + s) == Value(s)
  {
    var z := Zeros(k) + s;
    if s != [] {
      ValueOfPadded(s[..|s| - 1], k);
      assert z[..|z| - 1] == Zeros(k) + s[..|s| - 1];
    } else {
      assert z == Zeros(k);
      ValueOfZeros(k);
    }
  }

  lemma {:induction false} ValueOfZeros(k: nat)
    ensures Value(Zeros(k)) == 0
  {
    if k > 0 {
      ValueOfZeros(k - 1);
      assert Zeros(k)[..k - 1] == Zeros(k - 1);
    }
  }

  lemma {:induction false} ValueBound(s: string)
    requires AllDigits(s)
    ensures Value(s) < Pow10(|s|)
  {
    if s != [] {
      ValueBound(s[..|s| - 1]);
    }
  }

  lemma {:induction false} ValueInjective(s: string, r: string)
    requires AllDigits(s) && AllDigits(r) && |s| == |r| && Value(s) == Value(r)
    ensures s == r
  {
    if s != [] {
      var a, b := s[|s| - 1], r[|s| - 1];
      assert DigitValue(a) == DigitValue(b);
      ValueInjective(s[..|s| - 1], r[..|r| - 1]);
      assert s == s[..|s| - 1] + [a] && r == r[..|r| - 1] + [b];
    }
  }

  // --- Stripping and padding undo each other ---

  lemma {:induction false} StripThenPad(s: string, k: nat)
    requires |s| <= k
    ensures |StripZeros(s)| <= |s|
    ensures PadEnd(StripZeros(s), k) == PadEnd(s, k)
    ensures AllDigits(s) ==> AllDigits(StripZeros(s))
    ensures StripZeros(s) != [] ==> StripZeros(s)[|StripZeros(s)| - 1] != '0'
  {
    if s != [] && s[|s| - 1] == '0' {
      StripThenPad(s[..|s| - 1], k);
      assert PadEnd(s[..|s| - 1], k) == PadEnd(s, k);
    }
  }

  lemma {:induction false} PadThenStrip(s: string, k: nat)
    requires s != [] ==> s[|s| - 1] != '0'
    ensures StripZeros(s + Zeros(k)) == s
  {
    if k == 0 {
      assert s + Zeros(0) == s;
    } else {
      PadThenStrip(s, k - 1);
      assert (s + Zeros(k))[..|s| + k - 1] == s + Zeros(k - 1);
    }
  }

  // The 24 fraction digits of a remainder.
  lemma FractionDigits(f: nat)
    requires f < YOCTO_PER_NEAR
    ensures var d := PadStart(Decimal(f), DECIMALS); |d| == DECIMALS && AllDigits(d) && Value(d) == f
  {
    PowDecimals();
    DecimalLength(f, DECIMALS);
    ValueOfDecimal(f);
    ValueOfPadded(Decimal(f), DECIMALS - |Decimal(f)|);
  }

  // --- Canonical text ---

  // "0" or digits without a leading zero; a fraction, if any, of at most 24 digits not ending in zero.
  predicate Canonical(s: string) {
    var m := Match(s);
    && m.Some?
    && (m.value.whole[0] == '0' ==> m.value.whole == "0")
    && |m.value.fraction| <= DECIMALS
    && (m.value.fraction == [] ==> s == m.value.whole)
    && (m.value.fraction != [] ==> m.value.fraction[|m.value.fraction| - 1] != '0')
  }

  lemma {:induction false} LeadingDigitsIs(s: string, k: nat)
    requires k <= |s| && AllDigits(s[..k]) && (k < |s| ==> !IsDigit(s[k]))
    ensures LeadingDigits(s) == k
  {
    if k > 0 {
      assert s[..k][0] == s[0];
      assert s[1..][..k - 1] == s[..k][1..];
      LeadingDigitsIs(s[1..], k - 1);
    }
  }

  lemma MatchText(whole: string, fraction: string)
    requires whole != [] && AllDigits(whole) && AllDigits(fraction)
    ensures Match(whole) == Some(Parts(whole, []))
    ensures Match(whole + "." + fraction) == Some(Parts(whole, fraction))
    ensures Trim(whole) == whole
    ensures fraction != [] ==> Trim(whole + "." + fraction) == whole + "." + fraction
  {
    assert whole[..|whole|] == whole;
    LeadingDigitsIs(whole, |whole|);
    var s := whole + "." + fraction;
    assert s[..|whole|] == whole && s[|whole| + 1..] == fraction;
    LeadingDigitsIs(s, |whole|);
    TrimNothing(whole);
    if fraction != [] {
      TrimNothing(s);
    }
  }

  lemma TrimNothing(s: string)
    requires s != [] && IsDigit(s[0]) && IsDigit(s[|s| - 1])
    ensures Trim(s) == s
  {
  }

  // What the printer writes for an amount that is not negative.
  lemma Printed(yocto: int)
    requires yocto >= 0
    ensures var s := YoctoToNearInput(yocto);
            Canonical(s) && Trim(s) == s && Amount(Match(s).value) == yocto
  {
    var w, f := yocto / YOCTO_PER_NEAR, yocto % YOCTO_PER_NEAR;
    assert Quotient(yocto) == w && Remainder(yocto) == f;
    var digits := PadStart(Decimal(f), DECIMALS);
    FractionDigits(f);
    StripThenPad(digits, DECIMALS);
    var fraction := StripZeros(digits);
    MatchText(Decimal(w), fraction);
    NoLeadingZero(w);
    ValueOfDecimal(w);
    assert PadEnd(digits, DECIMALS) == digits;
  }

  lemma ParsePrinted(yocto: int)
    requires yocto >= 0
    ensures ParseNearAmount(YoctoToNearInput(yocto)) == if 1 <= yocto <= MAX_U128 then Some(yocto) else None
  {
    Printed(yocto);
  }

  // Every amount a transaction can carry survives being printed into the input and read back.
  lemma RoundTrip(yocto: int)
    requires 1 <= yocto <= MAX_U128
    ensures ParseNearAmount(YoctoToNearInput(yocto)) == Some(yocto)
  {
    ParsePrinted(yocto);
  }

  // An accepted input has one canonical spelling, the printed one, and it is accepted as the same amount.
  lemma AcceptedReprints(value: string)
    requires ParseNearAmount(value).Some?
    ensures var s := YoctoToNearInput(ParseNearAmount(value).value);
            && Canonical(s) && ParseNearAmount(s) == ParseNearAmount(value)
            && (Canonical(value) ==> value == s)
  {
    var yocto := ParseNearAmount(value).value;
    ParsePrinted(yocto);
    Printed(yocto);
    if Canonical(value) {
      CanonicalTrim(value);
      CanonicalUnique(value, YoctoToNearInput(yocto), yocto);
    }
  }

  lemma CanonicalTrim(s: string)
    requires Canonical(s)
    ensures Trim(s) == s
  {
    var m := Match(s).value;
    if m.fraction == [] {
      MatchText(m.whole, []);
    } else {
      assert s == m.whole + "." + m.fraction;
      MatchText(m.whole, m.fraction);
    }
  }

  predicate Reads(s: string, yocto: int) {
    Canonical(s) && Amount(Match(s).value) == yocto
  }

  // Equal amounts have equal whole parts, and equal fractions once both are padded.
  lemma SameParts(a: string, b: string, yocto: int)
    requires Reads(a, yocto) && Reads(b, yocto)
    ensures var m, n := Match(a).value, Match(b).value;
            && Value(m.whole) == Value(n.whole)
            && PadEnd(m.fraction, DECIMALS) == PadEnd(n.fraction, DECIMALS)
  {
    var e, f := PadEnd(Match(a).value.fraction, DECIMALS), PadEnd(Match(b).value.fraction, DECIMALS);
    PowDecimals();
    ValueBound(e);
    ValueBound(f);
    SplitOnce(Value(Match(a).value.whole), Value(e), Value(Match(b).value.whole), Value(f));
    ValueInjective(e, f);
  }

  lemma SameFraction(e: string, f: string)
    requires |e| <= DECIMALS && |f| <= DECIMALS && PadEnd(e, DECIMALS) == PadEnd(f, DECIMALS)
    requires (e != [] ==> e[|e| - 1] != '0') && (f != [] ==> f[|f| - 1] != '0')
    ensures e == f
  {
    PadThenStrip(e, DECIMALS - |e|);
    PadThenStrip(f, DECIMALS - |f|);
  }

  lemma CanonicalUnique(a: string, b: string, yocto: int)
    requires Reads(a, yocto) && Reads(b, yocto)
    ensures a == b
  {
    SameParts(a, b, yocto);
    SameFraction(Match(a).value.fraction, Match(b).value.fraction);
    SameText(a, b);
  }

  lemma CanonicalText(s: string)
    requires Canonical(s)
    ensures var m := Match(s).value;
            && m.whole != [] && (m.whole[0] == '0' ==> m.whole == "0")
            && s == if m.fraction == [] then m.whole else m.whole + "." + m.fraction
  {
    var k := LeadingDigits(s);
    assert s == s[..k] + s[k..];
    assert k < |s| ==> s[k..] == [s[k]] + s[k + 1..];
  }

  lemma SameText(a: string, b: string)
    requires Canonical(a) && Canonical(b)
    requires Value(Match(a).value.whole) == Value(Match(b).value.whole) && Match(a).value.fraction == Match(b).value.fraction
    ensures a == b
  {
    CanonicalText(a);
    CanonicalText(b);
    DecimalOfValue(Match(a).value.whole);
    DecimalOfValue(Match(b).value.whole);
  }

  lemma SplitOnce(w: nat, e: nat, v: nat, f: nat)
    requires e < YOCTO_PER_NEAR && f < YOCTO_PER_NEAR && w * YOCTO_PER_NEAR + e == v * YOCTO_PER_NEAR + f
    ensures w == v && e == f
  {
  }

  lemma {:induction false} DecimalOfValue(s: string)
    requires s != [] && AllDigits(s) && (s[0] == '0' ==> s == "0")
    ensures Decimal(Value(s)) == s
    ensures Value(s) == 0 ==> s == "0"
  {
    if |s| > 1 {
      var q := s[..|s| - 1];
      assert q[0] == s[0];
      DecimalOfValue(q);
      assert s == q + [s[|s| - 1]];
      LastDigit(Value(q), DigitValue(s[|s| - 1]));
    }
  }

  lemma LastDigit(n: nat, d: nat)
    requires n > 0 && d < 10
    ensures Decimal(10 * n + d) == Decimal(n) + [Digit(d)]
  {
    assert (10 * n + d) / 10 == n && (10 * n + d) % 10 == d;
  }

  // --- The suggested amount ---

  lemma {:induction false} TrimKeeps(s: string, c: char)
    requires c in s && !IsSpace(c)
    ensures c in Trim(s)
  {
    TrimStartKeeps(s, c);
    TrimEndKeeps(TrimStart(s), c);
  }

  lemma {:induction false} TrimStartKeeps(s: string, c: char)
    requires c in s && !IsSpace(c)
    ensures c in TrimStart(s)
  {
    if IsSpace(s[0]) {
      TrimStartKeeps(s[1..], c);
    }
  }

  lemma {:induction false} TrimEndKeeps(s: string, c: char)
    requires c in s && !IsSpace(c)
    ensures c in TrimEnd(s)
  {
    if IsSpace(s[|s| - 1]) {
      TrimEndKeeps(s[..|s| - 1], c);
    }
  }

  lemma {:induction false} StripKeeps(s: string, c: char)
    requires c in s && c != '0'
    ensures c in StripZeros(s)
  {
    if s[|s| - 1] == '0' {
      StripKeeps(s[..|s| - 1], c);
    }
  }

  lemma NoMatch(s: string)
    requires '-' in s
    ensures Match(s) == None
  {
    var i :| 0 <= i < |s| && s[i] == '-';
    var k := LeadingDigits(s);
    if k < i {
      assert s[k + 1..][i - k - 1] == '-';
    }
  }

  lemma NoSigns(value: string)
    requires '-' in value
    ensures ParseNearAmount(value) == None
  {
    TrimKeeps(value, '-');
    NoMatch(Trim(value));
  }

  lemma NegativePrints(yocto: int)
    requires yocto < 0
    ensures '-' in YoctoToNearInput(yocto)
  {
    if Quotient(yocto) >= 0 {
      var padded := PadStart(ToText(Remainder(yocto)), DECIMALS);
      assert ToText(Remainder(yocto))[0] == '-';
      assert '-' in padded by {
        assert padded[|padded| - |ToText(Remainder(yocto))|] == '-';
      }
      StripKeeps(padded, '-');
    } else {
      assert YoctoToNearInput(yocto)[0] == '-';
    }
  }

  // The dialog's fill never exceeds the maximum, and is accepted exactly when there is something to
  // unstake and the fill fits 128 bits.
  lemma SuggestedFill(max: int)
    ensures MaxMinusOneNear(max) <= max
    ensures ParseUnstakeAmount(YoctoToNearInput(MaxMinusOneNear(max)), max) ==
            if 1 <= max <= MAX_U128 + YOCTO_PER_NEAR then Some(MaxMinusOneNear(max)) else None
  {
    var fill := MaxMinusOneNear(max);
    if fill < 0 {
      NegativePrints(fill);
      NoSigns(YoctoToNearInput(fill));
    } else {
      ParsePrinted(fill);
    }
  }

  // What the dialog accepts: a printed amount exactly if it can be carried and does not exceed the maximum, and
  // whatever it accepts from any input lies in that range and is what the input says.
  lemma UnstakeAccepts(yocto: nat, amount: string, max: int)
    ensures ParseUnstakeAmount(YoctoToNearInput(yocto), max) ==
            if 1 <= yocto <= MAX_U128 && yocto <= max then Some(yocto) else None
    ensures ParseUnstakeAmount(amount, max).Some? <==>
            ParseNearAmount(amount).Some? && ParseNearAmount(amount).value <= max
    ensures ParseUnstakeAmount(amount, max).Some? ==>
            ParseUnstakeAmount(amount, max) == ParseNearAmount(amount) &&
            1 <= ParseUnstakeAmount(amount, max).value <= MAX_U128
  {
    ParsePrinted(yocto);
  }

  // --- What an input says ---

  // White space and line terminators, by code point.
  ghost predicate IsBlank(c: char) {
    c as int in {9, 10, 11, 12, 13, 32, 160, 5760, 8232, 8233, 8239, 8287, 12288, 65279} || 8192 <= c as int <= 8202
  }

  lemma BlanksAreSpaces(c: char)
    ensures IsBlank(c) <==> IsSpace(c)
  {
  }

  ghost predicate AllBlank(s: string) { forall i | 0 <= i < |s| :: IsBlank(s[i]) }

  lemma {:induction false} TrimsStart(pre: string, t: string)
    requires AllBlank(pre) && (t != [] ==> !IsBlank(t[0]))
    ensures TrimStart(pre + t) == t
  {
    if pre == [] {
      assert pre + t == t;
      assert t != [] ==> !IsSpace(t[0]) by {
        if t != [] {
          BlanksAreSpaces(t[0]);
        }
      }
    } else {
      BlanksAreSpaces(pre[0]);
      assert (pre + t)[1..] == pre[1..] + t;
      TrimsStart(pre[1..], t);
    }
  }

  lemma {:induction false} TrimsEnd(t: string, post: string)
    requires AllBlank(post) && (t != [] ==> !IsBlank(t[|t| - 1]))
    ensures TrimEnd(t + post) == t
  {
    if post == [] {
      assert t + post == t;
      assert t != [] ==> !IsSpace(t[|t| - 1]) by {
        if t != [] {
          BlanksAreSpaces(t[|t| - 1]);
        }
      }
    } else {
      BlanksAreSpaces(post[|post| - 1]);
      assert (t + post)[..|t + post| - 1] == t + post[..|post| - 1];
      TrimsEnd(t, post[..|post| - 1]);
    }
  }

  lemma TrimsBlanks(pre: string, t: string, post: string)
    requires AllBlank(pre) && AllBlank(post) && t != [] && !IsBlank(t[0]) && !IsBlank(t[|t| - 1])
    ensures Trim(pre + t + post) == t
  {
    assert pre + t + post == pre + (t + post);
    TrimsStart(pre, t + post);
    TrimsEnd(t, post);
  }

  lemma ValueAppendZero(s: string)
    requires AllDigits(s)
    ensures AllDigits(s + "0") && Value(s + "0") == 10 * Value(s)
  {
    assert (s + "0")[..|s|] == s;
  }

  // v * 10^k.
  ghost function Scaled(v: nat, k: nat): nat { if k == 0 then v else 10 * Scaled(v, k - 1) }

  lemma {:induction false} ValueShifted(s: string, k: nat)
    requires AllDigits(s)
    ensures AllDigits(s + Zeros(k)) && Value(s + Zeros(k)) == Scaled(Value(s), k)
  {
    if k == 0 {
      assert s + Zeros(0) == s;
    } else {
      ValueShifted(s, k - 1);
      assert s + Zeros(k) == (s + Zeros(k - 1)) + "0";
      ValueAppendZero(s + Zeros(k - 1));
    }
  }

  ghost predicate Fits(yocto: int) { 1 <= yocto <= MAX_U128 }

  lemma ParsesParts(value: string, parts: Parts)
    requires AllDigits(parts.whole) && AllDigits(parts.fraction) && Match(Trim(value)) == Some(parts)
    ensures ParseNearAmount(value) ==
            if |parts.fraction| > 24 then None else if Fits(Amount(parts)) then Some(Amount(parts)) else None
  {
  }

  lemma WholeReads(pre: string, whole: string, post: string)
    requires AllBlank(pre) && AllBlank(post) && whole != [] && AllDigits(whole)
    ensures ParseNearAmount(pre + whole + post) ==
            var y := Value(whole) * YOCTO_PER_NEAR; if Fits(y) then Some(y) else None
  {
    MatchText(whole, []);
    TrimsBlanks(pre, whole, post);
    ParsesParts(pre + whole + post, Parts(whole, []));
    AmountOfWhole(whole);
  }

  lemma AmountOfWhole(whole: string)
    requires AllDigits(whole)
    ensures Amount(Parts(whole, [])) == Value(whole) * YOCTO_PER_NEAR
  {
    ValueOfZeros(DECIMALS);
    assert PadEnd([], DECIMALS) == Zeros(DECIMALS);
  }

  lemma PointText(pre: string, whole: string, fraction: string, post: string)
    requires AllBlank(pre) && AllBlank(post) && whole != [] && AllDigits(whole) && AllDigits(fraction)
    ensures Match(Trim(pre + (whole + "." + fraction) + post)) == Some(Parts(whole, fraction))
  {
    var text := whole + "." + fraction;
    assert fraction != [] ==> text[|text| - 1] == fraction[|fraction| - 1];
    TrimsBlanks(pre, text, post);
    MatchText(whole, fraction);
  }

  lemma AmountOfParts(whole: string, fraction: string, k: nat)
    requires AllDigits(whole) && AllDigits(fraction) && |fraction| + k == DECIMALS
    ensures Amount(Parts(whole, fraction)) == Value(whole) * YOCTO_PER_NEAR + Scaled(Value(fraction), k)
  {
    FractionValue(fraction, DECIMALS, k);
  }

  lemma FractionValue(fraction: string, n: nat, k: nat)
    requires AllDigits(fraction) && |fraction| + k == n
    ensures AllDigits(PadEnd(fraction, n)) && Value(PadEnd(fraction, n)) == Scaled(Value(fraction), k)
  {
    PaddedIs(fraction, k);
    ValueShifted(fraction, k);
  }

  lemma PaddedIs(s: string, k: nat)
    ensures PadEnd(s, |s| + k) == s + Zeros(k)
  {
    assert k == 0 ==> s + Zeros(k) == s;
  }

  // Digits, or digits, a point and at most 24 more, among blanks: the exact decimal number of NEAR, if it fits. `k`:
  // how many of the 24 digits are left.
  lemma ReadsExactly(pre: string, whole: string, fraction: string, post: string, k: int)
    requires AllBlank(pre) && AllBlank(post) && whole != [] && AllDigits(whole) && AllDigits(fraction)
    requires |fraction| + k == 24
    ensures ParseNearAmount(pre + whole + post) ==
            var y := Value(whole) * YOCTO_PER_NEAR; if Fits(y) then Some(y) else None
    ensures ParseNearAmount(pre + (whole + "." + fraction) + post) ==
            if k < 0 then None
            else
              var y := Value(whole) * YOCTO_PER_NEAR + Scaled(Value(fraction), k);
              if Fits(y) then Some(y) else None
  {
    WholeReads(pre, whole, post);
    PointText(pre, whole, fraction, post);
    PartsRead(pre + (whole + "." + fraction) + post, whole, fraction, k);
  }

  lemma PartsRead(value: string, whole: string, fraction: string, k: int)
    requires AllDigits(whole) && AllDigits(fraction) && |fraction| + k == 24
    requires Match(Trim(value)) == Some(Parts(whole, fraction))
    ensures ParseNearAmount(value) ==
            if k < 0 then None
            else
              var y := Value(whole) * YOCTO_PER_NEAR + Scaled(Value(fraction), k);
              if Fits(y) then Some(y) else None
  {
    ParsesParts(value, Parts(whole, fraction));
    if k >= 0 {
      AmountOfParts(whole, fraction, k);
    }
  }

  // Division truncates toward zero.
  lemma Truncates(a: int)
    ensures a == YOCTO_PER_NEAR * Quotient(a) + Remainder(a)
    ensures if a >= 0 then 0 <= Remainder(a) < YOCTO_PER_NEAR else -YOCTO_PER_NEAR < Remainder(a) <= 0
  {
  }

  lemma {:induction false} StartsBlank(s: string) returns (pre: string)
    ensures s == pre + TrimStart(s) && AllBlank(pre)
  {
    if s != [] && IsSpace(s[0]) {
      BlanksAreSpaces(s[0]);
      pre := StartsBlank(s[1..]);
      pre := [s[0]] + pre;
      assert s == [s[0]] + s[1..];
    } else {
      pre := [];
    }
  }

  lemma {:induction false} EndsBlank(s: string) returns (post: string)
    ensures s == TrimEnd(s) + post && AllBlank(post)
  {
    if s != [] && IsSpace(s[|s| - 1]) {
      BlanksAreSpaces(s[|s| - 1]);
      var before := EndsBlank(s[..|s| - 1]);
      post := before + [s[|s| - 1]];
      assert s == s[..|s| - 1] + [s[|s| - 1]] == (TrimEnd(s) + before) + [s[|s| - 1]] == TrimEnd(s) + post;
    } else {
      post := [];
    }
  }

  // And nothing else is accepted.
  lemma OnlySuchText(value: string) returns (pre: string, text: string, whole: string, fraction: string, post: string)
    requires ParseNearAmount(value).Some?
    ensures value == pre + text + post && AllBlank(pre) && AllBlank(post)
    ensures whole != [] && AllDigits(whole) && AllDigits(fraction) && |fraction| <= 24
    ensures text == whole || text == whole + "." + fraction
  {
    pre := StartsBlank(value);
    post := EndsBlank(TrimStart(value));
    text := Trim(value);
    assert value == pre + (text + post) == pre + text + post;
    var parts := Match(text).value;
    var k := LeadingDigits(text);
    whole, fraction := parts.whole, parts.fraction;
    assert text == text[..k] + text[k..];
    assert k < |text| ==> text[k..] == [text[k]] + text[k + 1..];
  }
}
