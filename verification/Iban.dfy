/** Iranian IBANs: the MOD 97-10 check digits of ISO 13616-1 and ISO/IEC 7064, and what they detect. */
module Iban {

  predicate IsDigit(c: char) {
    '0' <= c <= '9'
  }

  predicate AllDigits(s: string) {
    forall k :: 0 <= k < |s| ==> IsDigit(s[k])
  }

  function Digit(c: char): nat
    requires IsDigit(c)
  {
    c as int - '0' as int
  }

  function DecimalValue(s: string): nat
    requires AllDigits(s)
  {
    if s == [] then 0 else 10 * DecimalValue(s[..|s| - 1]) + Digit(s[|s| - 1])
  }

  // One Horner step may be taken on remainders.
  lemma HornerMod(v: nat, d: nat)
    ensures (10 * (v % 97) + d) % 97 == (10 * v + d) % 97
  {
    var q := v / 97;
    AddMultiple(10 * (v % 97) + d, 10 * q);
    assert 10 * v + d == 10 * (v % 97) + d + 97 * (10 * q);
  }

  lemma AddMultiple(x: nat, k: nat)
    ensures (x + 97 * k) % 97 == x % 97
  {}

  method BigMod97(numericStr: string) returns (remainder: nat)
    requires AllDigits(numericStr)
    ensures remainder == DecimalValue(numericStr) % 97
  {
    remainder := 0;
    for k := 0 to |numericStr|
      invariant remainder == DecimalValue(numericStr[..k]) % 97
    {
      assert numericStr[..k + 1][..k] == numericStr[..k];
      HornerMod(DecimalValue(numericStr[..k]), Digit(numericStr[k]));
      remainder := (remainder * 10 + Digit(numericStr[k])) % 97;
    }
    assert numericStr[..|numericStr|] == numericStr;
  }

  // ------------------------------------------------------------------ normalisation

  // White space and line terminators, as trim removes them.
  predicate IsSpace(c: char) {
    var u := c as int;
    || 9 <= u <= 13 || u == 0x20 || u == 0xA0 || u == 0x1680 || 0x2000 <= u <= 0x200A
    || u == 0x2028 || u == 0x2029 || u == 0x202F || u == 0x205F || u == 0x3000 || u == 0xFEFF
  }

  function TrimStart(s: string): string {
    if s != [] && IsSpace(s[0]) then TrimStart(s[1..]) else s
  }

  function TrimEnd(s: string): string {
    if s != [] && IsSpace(s[|s| - 1]) then TrimEnd(s[..|s| - 1]) else s
  }

  // Upper case where the outcome can reach an accepted IBAN: ASCII letters and the dotless i.
  // Every other letter stays outside the alphabet of an IBAN either way.
  function Upper(c: char): char {
    if 'a' <= c <= 'z' then (c as int - 32) as char
    else if c as int == 0x131 then 'I'
    else c
  }

  function ToUpper(s: string): (r: string)
    ensures |r| == |s| && forall k :: 0 <= k < |s| ==> r[k] == Upper(s[k])
  {
    if s == [] then [] else [Upper(s[0])] + ToUpper(s[1..])
  }

  function Normalize(input: string): string {
    ToUpper(TrimEnd(TrimStart(input)))
  }

  // ------------------------------------------------------------------ acceptance

  // 22 account digits, then I = 18 and R = 27, then the two check digits.
  function Rearranged(n: string): string
    requires |n| == 26
  {
    n[4..] + "1827" + n[2..4]
  }

  predicate WellFormed(n: string) {
    && |n| == 26 && n[..2] == "IR" && AllDigits(n[2..])
    && exists k :: 2 <= k < 26 && n[k] != '0'
  }

  predicate Accepts(input: string) {
    var n := Normalize(input);
    WellFormed(n) && DecimalValue(Rearranged(n)) % 97 == 1
  }

  function Pair(tens: char, units: char): string {
    [tens, units]
  }

  // A = 10 to Z = 35; every other character stands for itself.
  function LettersToDigits(s: string): string {
    if s == [] then [] else
      var c := s[0];
      (if 'A' <= c <= 'Z' then
         var v := c as int - 55;
         Pair((v / 10 + 48) as char, (v % 10 + 48) as char)
       else [c]) + LettersToDigits(s[1..])
  }

  lemma {:induction false} DigitsStay(s: string, rest: string)
    requires AllDigits(s)
    ensures LettersToDigits(s + rest) == s + LettersToDigits(rest)
  {
    if s == [] {
      assert s + rest == rest;
    } else {
      var tail := s[1..];
      assert IsDigit(s[0]) && (s + rest)[1..] == tail + rest && (s + rest)[0] == s[0];
      DigitsStay(tail, rest);
      assert [s[0]] + (tail + LettersToDigits(rest)) == s + LettersToDigits(rest);
    }
  }

  lemma NumericForm(n: string)
    requires |n| == 26 && n[..2] == "IR" && AllDigits(n[2..])
    ensures LettersToDigits(n[4..] + n[..4]) == Rearranged(n) && AllDigits(Rearranged(n))
  {
    var account, check := n[4..], n[2..4];
    assert n[..4] == "IR" + check;
    assert AllDigits(account) by {
      forall k | 0 <= k < |account| ensures IsDigit(account[k]) { assert account[k] == n[2..][k + 2]; }
    }
    assert AllDigits(check) by {
      forall k | 0 <= k < |check| ensures IsDigit(check[k]) { assert check[k] == n[2..][k]; }
    }
    DigitsStay(account, n[..4]);
    DigitsStay(check, []);
    assert check + [] == check;
    LettersOfIr(check);
  }

  lemma LettersOfIr(check: string)
    ensures LettersToDigits("IR" + check) == "1827" + LettersToDigits(check)
  {
    var s := "IR" + check;
    assert s[1..] == "R" + check && s[1..][1..] == check;
    assert LettersToDigits(s) == "18" + LettersToDigits(s[1..]);
    assert LettersToDigits(s[1..]) == "27" + LettersToDigits(check);
    assert "18" + ("27" + LettersToDigits(check)) == "1827" + LettersToDigits(check);
  }

  method IsValidIranianIban(input: string) returns (ok: bool)
    ensures ok == Accepts(input)
  {
    var normalized := Normalize(input);
    if |normalized| != 26 { return false; }
    if !("IR" <= normalized) {
      assert normalized[..2] != "IR";
      return false;
    }
    var digits := normalized[2..];
    if !AllDigits(digits) { return false; }
    if forall k :: 0 <= k < |digits| ==> digits[k] == '0' {
      assert forall k :: 2 <= k < 26 ==> normalized[k] == digits[k - 2];
      return false;
    }
    assert WellFormed(normalized) by {
      var k :| 0 <= k < |digits| && digits[k] != '0';
      assert normalized[k + 2] != '0';
    }
    var rearranged := normalized[4..] + normalized[..4];
    NumericForm(normalized);
    var remainder := BigMod97(LettersToDigits(rearranged));
    ok := remainder == 1;
  }

  // ------------------------------------------------------------------ what is accepted

  lemma AllDigitsConcat(s: string, t: string)
    requires AllDigits(s) && AllDigits(t)
    ensures AllDigits(s + t)
  {}

  lemma AppendTwo(s: string, t: string)
    requires AllDigits(s) && AllDigits(t) && |t| == 2
    ensures AllDigits(s + t) && DecimalValue(s + t) == 100 * DecimalValue(s) + DecimalValue(t)
  {
    AllDigitsConcat(s, t);
    AllDigitsConcat(s, t[..1]);
    assert (s + t)[..|s| + 1] == s + t[..1] && (s + t[..1])[..|s|] == s && t[..1][..0] == [];
    assert DecimalValue(t[..1]) == Digit(t[0]);
    assert DecimalValue(s + t[..1]) == 10 * DecimalValue(s) + Digit(t[0]);
  }

  // The number the check digits are calculated from: the account, the country in figures, two zeros.
  function Base(account: string): nat
    requires AllDigits(account)
  {
    AllDigitsConcat(account, "182700");
    DecimalValue(account + "182700")
  }

  // An accepted number's check digits, taken modulo 97, are 98 less the remainder of its base.
  predicate CheckDigitsFit(check: string, account: string)
    requires AllDigits(check) && AllDigits(account)
  {
    DecimalValue(check) % 97 == (98 - Base(account) % 97) % 97
  }

  lemma Complement(base: nat, check: nat)
    ensures (base + check) % 97 == 1 <==> check % 97 == (98 - base % 97) % 97
  {
    var r, d := base % 97, check % 97;
    assert (base + check) % 97 == (r + d) % 97 by {
      AddMultiple(r + d, base / 97 + check / 97);
      assert base + check == r + d + 97 * (base / 97 + check / 97);
    }
  }

  lemma RearrangedValue(check: string, account: string)
    requires |check| == 2 && AllDigits(check) && AllDigits(account)
    ensures AllDigits(account + "1827" + check)
    ensures DecimalValue(account + "1827" + check) == Base(account) + DecimalValue(check)
  {
    hide DecimalValue;
    var head := account + "1827";
    AllDigitsConcat(account, "1827");
    AppendTwo(head, check);
    AppendTwo(head, "00");
    assert head + "00" == account + "182700";
    assert DecimalValue("00") == 0 by { ZeroValue(); }
  }

  lemma ZeroValue()
    ensures DecimalValue("00") == 0
  {
    assert "00"[..1] == "0" && "0"[..0] == [];
    assert DecimalValue("0") == 0;
  }

  // The parts of an accepted number: country, two check digits, 22 digits of account, not all zeros.
  ghost predicate PartsFit(n: string, check: string, account: string) {
    && n == "IR" + check + account && |check| == 2 && |account| == 22
    && AllDigits(check) && AllDigits(account) && (exists c :: c in check + account && c != '0')
    && CheckDigitsFit(check, account)
  }

  lemma SliceDigits(s: string, k: nat)
    requires AllDigits(s) && k <= |s|
    ensures AllDigits(s[..k]) && AllDigits(s[k..])
  {}

  lemma WellFormedParts(n: string)
    requires WellFormed(n)
    ensures n == "IR" + n[2..4] + n[4..] && AllDigits(n[2..4]) && AllDigits(n[4..])
    ensures exists c :: c in n[2..4] + n[4..] && c != '0'
  {
    assert n == n[..2] + n[2..4] + n[4..];
    assert n[2..4] == n[2..][..2] && n[4..] == n[2..][2..];
    SliceDigits(n[2..], 2);
    var k :| 2 <= k < 26 && n[k] != '0';
    assert n[2..4] + n[4..] == n[2..];
    assert n[2..][k - 2] == n[k];
    assert n[k] in n[2..4] + n[4..];
  }

  lemma PartsAreWellFormed(n: string, check: string, account: string)
    requires n == "IR" + check + account && |check| == 2 && |account| == 22
    requires AllDigits(check) && AllDigits(account) && exists c :: c in check + account && c != '0'
    ensures WellFormed(n) && n[2..4] == check && n[4..] == account
  {
    assert n[2..] == check + account;
    AllDigitsConcat(check, account);
    var c :| c in check + account && c != '0';
    var i :| 0 <= i < |check + account| && (check + account)[i] == c;
    assert n[i + 2] == c;
  }

  // An input is accepted exactly when its normal form has such parts.
  lemma AcceptsExactly(input: string)
    ensures Accepts(input) <==> exists check, account :: PartsFit(Normalize(input), check, account)
  {
    hide Normalize, DecimalValue, Base;
    var n := Normalize(input);
    if Accepts(input) {
      AcceptedParts(n);
    }
    if check, account :| PartsFit(n, check, account) {
      FittingParts(n, check, account);
    }
  }

  lemma AcceptedParts(n: string)
    requires WellFormed(n) && DecimalValue(Rearranged(n)) % 97 == 1
    ensures PartsFit(n, n[2..4], n[4..])
  {
    hide DecimalValue, Base;
    var check, account := n[2..4], n[4..];
    WellFormedParts(n);
    RearrangedValue(check, account);
    assert Rearranged(n) == account + "1827" + check;
    Complement(Base(account), DecimalValue(check));
  }

  lemma FittingParts(n: string, check: string, account: string)
    requires PartsFit(n, check, account)
    ensures WellFormed(n) && AllDigits(Rearranged(n)) && DecimalValue(Rearranged(n)) % 97 == 1
  {
    hide DecimalValue, Base;
    PartsAreWellFormed(n, check, account);
    RearrangedValue(check, account);
    assert Rearranged(n) == account + "1827" + check;
    Complement(Base(account), DecimalValue(check));
  }

  ghost predicate Blank(s: string) {
    forall c :: c in s ==> IsSpace(c)
  }

  // White space around an input and the case of its letters make no difference.
  lemma {:induction false} NormalizeExactly(before: string, s: string, after: string)
    requires Blank(before) && Blank(after) && s != [] && !IsSpace(s[0]) && !IsSpace(s[|s| - 1])
    ensures Normalize(before + s + after) == ToUpper(s)
  {
    StartTrimmed(before, s + after);
    assert before + s + after == before + (s + after);
    EndTrimmed(s, after);
  }

  lemma {:induction false} StartTrimmed(before: string, t: string)
    requires Blank(before) && t != [] && !IsSpace(t[0])
    ensures TrimStart(before + t) == t
  {
    if before == [] {
      assert before + t == t;
    } else {
      assert before[0] in before && forall c :: c in before[1..] ==> c in before;
      assert (before + t)[1..] == before[1..] + t;
      StartTrimmed(before[1..], t);
    }
  }

  lemma {:induction false} EndTrimmed(s: string, after: string)
    requires Blank(after) && s != [] && !IsSpace(s[|s| - 1])
    ensures TrimEnd(s + after) == s
  {
    if after == [] {
      assert s + after == s;
    } else {
      var n := |after| - 1;
      assert after[n] in after && forall c :: c in after[..n] ==> c in after;
      assert (s + after)[..|s| + n] == s + after[..n];
      EndTrimmed(s, after[..n]);
    }
  }

  // ------------------------------------------------------------------ what the check detects

  function Mod97(s: string): (r: nat)
    requires AllDigits(s)
    ensures r < 97
  {
    if s == [] then 0 else Append(Mod97(s[..|s| - 1]), Digit(s[|s| - 1]))
  }

  function Append(r: nat, d: nat): (r': nat)
    ensures r' < 97
  {
    (10 * r + d) % 97
  }

  lemma AppendIsHorner(v: nat, d: nat)
    ensures Append(v % 97, d) == (10 * v + d) % 97
  {
    HornerMod(v, d);
  }

  lemma {:induction false} Mod97IsRemainder(s: string)
    requires AllDigits(s)
    ensures Mod97(s) == DecimalValue(s) % 97
  {
    if s != [] {
      var init, d := s[..|s| - 1], Digit(s[|s| - 1]);
      Mod97IsRemainder(init);
      assert DecimalValue(s) == 10 * DecimalValue(init) + d;
      AppendIsHorner(DecimalValue(init), d);
    }
  }

  // The remainder of a number, one digit at a time.
  lemma Mod97Step(s: string, k: nat)
    requires AllDigits(s) && k < |s|
    ensures Mod97(s[..k + 1]) == Append(Mod97(s[..k]), Digit(s[k]))
  {
    assert s[..k + 1][..k] == s[..k];
  }

  // 10 is invertible modulo 97, so a difference of remainders survives equal further digits.
  lemma {:induction false} DifferenceSurvives(s: string, t: string, m: nat, n: nat)
    requires AllDigits(s) && AllDigits(t) && m <= n <= |s| == |t|
    requires forall k :: m <= k < |s| ==> s[k] == t[k]
    requires Mod97(s[..m]) != Mod97(t[..m])
    ensures Mod97(s[..n]) != Mod97(t[..n])
  {
    if m < n {
      DifferenceSurvives(s, t, m, n - 1);
      Mod97Step(s, n - 1);
      Mod97Step(t, n - 1);
      Cancel10(Mod97(s[..n - 1]), Mod97(t[..n - 1]), Digit(s[n - 1]));
    }
  }

  lemma Cancel10(x: nat, y: nat, d: nat)
    requires x < 97 && y < 97
    ensures Append(x, d) == Append(y, d) <==> x == y
  {
    if Append(x, d) == Append(y, d) {
      var q := (10 * x + d) / 97 - (10 * y + d) / 97;
      assert 10 * (x - y) == 97 * q;
      assert -10 < q < 10;
    }
  }

  lemma OneDigit(s: string, t: string, i: nat)
    requires AllDigits(s) && AllDigits(t) && i < |s| == |t| && s[i] != t[i]
    requires forall k :: 0 <= k < |s| && k != i ==> s[k] == t[k]
    ensures Mod97(s) != Mod97(t)
  {
    assert s[..i] == t[..i] && s[..|s|] == s && t[..|t|] == t;
    Mod97Step(s, i);
    Mod97Step(t, i);
    UnequalDigits(Mod97(s[..i]), Digit(s[i]), Digit(t[i]));
    DifferenceSurvives(s, t, i + 1, |s|);
  }

  lemma UnequalDigits(x: nat, d: nat, e: nat)
    requires d < 10 && e < 10 && d != e
    ensures Append(x, d) != Append(x, e)
  {}

  // 10 to the k, modulo 97.
  function Power(k: nat): (p: nat)
    ensures p < 97
  {
    if k == 0 then 1 else 10 * Power(k - 1) % 97
  }

  lemma PowerStep(k: nat, p: nat)
    requires Power(k) == p
    ensures Power(k + 1) == 10 * p % 97
  {}

  // 10 has order 96, so no smaller power is 1; an IBAN needs the powers up to 27.
  lemma PowersAreNotOne(k: nat)
    requires 1 <= k <= 27
    ensures 1 < Power(k) < 97
  {
    assert Power(0) == 1;
    PowerStep(0, 1); PowerStep(1, 10); PowerStep(2, 3); PowerStep(3, 30); PowerStep(4, 9);
    PowerStep(5, 90); PowerStep(6, 27); PowerStep(7, 76); PowerStep(8, 81); PowerStep(9, 34);
    PowerStep(10, 49); PowerStep(11, 5); PowerStep(12, 50); PowerStep(13, 15); PowerStep(14, 53);
    PowerStep(15, 45); PowerStep(16, 62); PowerStep(17, 38); PowerStep(18, 89); PowerStep(19, 17);
    PowerStep(20, 73); PowerStep(21, 51); PowerStep(22, 25); PowerStep(23, 56); PowerStep(24, 75);
    PowerStep(25, 71); PowerStep(26, 31);
  }

  // How far apart two remainders are after the digits following a single difference, as a multiple
  // of 97 away from that difference times a power of 10.
  lemma {:induction false} Spread(s: string, t: string, i: nat, n: nat, e: int) returns (a: int)
    requires AllDigits(s) && AllDigits(t) && i < n <= |s| == |t| && e == Digit(s[i]) - Digit(t[i])
    requires forall k :: 0 <= k < n && k != i ==> s[k] == t[k]
    ensures Mod97(s[..n]) - Mod97(t[..n]) == e * Power(n - 1 - i) + 97 * a
  {
    Mod97Step(s, n - 1);
    Mod97Step(t, n - 1);
    if i == n - 1 {
      assert s[..i] == t[..i];
      var x := Mod97(s[..i]);
      a := FirstSpread(x, Digit(s[i]), Digit(t[i]), Power(0));
    } else {
      a := Spread(s, t, i, n - 1, e);
      var p, r := Power(n - 2 - i), Power(n - 1 - i);
      a := SpreadStep(Mod97(s[..n - 1]), Mod97(t[..n - 1]), e, p, r, Digit(s[n - 1]), a);
    }
  }

  lemma FirstSpread(x: nat, d: nat, f: nat, one: nat) returns (a: int)
    requires one == 1
    ensures Append(x, d) - Append(x, f) == (d - f) * one + 97 * a
  {
    a := (10 * x + f) / 97 - (10 * x + d) / 97;
  }

  lemma SpreadStep(x: nat, y: nat, e: int, p: nat, r: nat, d: nat, a: int) returns (a': int)
    requires x - y == e * p + 97 * a && r == 10 * p % 97
    ensures Append(x, d) - Append(y, d) == e * r + 97 * a'
  {
    var g := 10 * p / 97;
    var b, c := (10 * x + d) / 97, (10 * y + d) / 97;
    Distribute(e, p, g, r);
    a' := LinearSpread(x, y, e * p, e * r, e * g, a, b, c);
  }

  lemma LinearSpread(x: int, y: int, ep: int, er: int, eg: int, a: int, b: int, c: int) returns (a': int)
    requires x - y == ep + 97 * a && er == 10 * ep - 97 * eg
    ensures (10 * x - 97 * b) - (10 * y - 97 * c) == er + 97 * a'
  {
    a' := 10 * a - b + c + eg;
  }

  lemma Distribute(e: int, p: int, g: int, r: int)
    requires r == 10 * p - 97 * g
    ensures e * r == 10 * (e * p) - 97 * (e * g)
  {
    assert e * r == e * (10 * p - 97 * g);
  }

  // 97 is prime: it does not divide a digit difference times a power less one.
  lemma NoCancellation(e: int, r: nat, m: int)
    requires -9 <= e <= 9 && e != 0 && 1 < r < 97
    ensures e * r - e != 97 * m
  {
    if e == 1 || e == -1 {} else if e == 2 || e == -2 {} else if e == 3 || e == -3 {}
    else if e == 4 || e == -4 {} else if e == 5 || e == -5 {} else if e == 6 || e == -6 {}
    else if e == 7 || e == -7 {} else if e == 8 || e == -8 {} else { assert e == 9 || e == -9; }
  }

  lemma SwappedPrefix(s: string, t: string, i: nat, j: nat)
    requires AllDigits(s) && AllDigits(t) && i < j < |s| == |t| <= 28
    requires t == s[i := s[j]][j := s[i]] && s[i] != s[j]
    ensures Mod97(s[..j + 1]) != Mod97(t[..j + 1])
  {
    var d, f := Digit(s[j]), Digit(s[i]);
    var p, r := Power(j - 1 - i), Power(j - i);
    var e: int := Digit(s[i]) as int - Digit(s[j]) as int;
    var a := Spread(s, t, i, j, e);
    Mod97Step(s, j);
    Mod97Step(t, j);
    PowersAreNotOne(j - i);
    SwapStep(Mod97(s[..j]), Mod97(t[..j]), p, r, d, f, e, a);
  }

  lemma SwapStep(x: nat, y: nat, p: nat, r: nat, d: nat, f: nat, e: int, a: int)
    requires x - y == e * p + 97 * a && d < 10 && f < 10 && e == f - d != 0 && 1 < r == 10 * p % 97
    ensures Append(x, d) != Append(y, f)
  {
    if Append(x, d) == Append(y, f) {
      var g := 10 * p / 97;
      var b, c := (10 * x + d) / 97, (10 * y + f) / 97;
      Distribute(e, p, g, r);
      var m := LinearSwap(x, y, e * p, e * r, e * g, e, d, f, a, b, c);
      NoCancellation(e, r, m);
    }
  }

  lemma LinearSwap(x: int, y: int, ep: int, er: int, eg: int, e: int, d: int, f: int, a: int, b: int, c: int)
    returns (m: int)
    requires x - y == ep + 97 * a && er == 10 * ep - 97 * eg && e == f - d
    requires 10 * x + d - 97 * b == 10 * y + f - 97 * c
    ensures er - e == 97 * m
  {
    m := b - c - 10 * a - eg;
  }

  lemma Swap(s: string, t: string, i: nat, j: nat)
    requires AllDigits(s) && AllDigits(t) && i < j < |s| == |t| <= 28
    requires t == s[i := s[j]][j := s[i]] && s[i] != s[j]
    ensures Mod97(s) != Mod97(t)
  {
    SwappedPrefix(s, t, i, j);
    assert s[..|s|] == s && t[..|t|] == t;
    DifferenceSurvives(s, t, j + 1, |s|);
  }

  // Where a digit of the IBAN stands in the rearranged number.
  function Place(k: nat): nat
    requires 2 <= k < 26
  {
    if k < 4 then 24 + k else k - 4
  }

  // Changing one character of an accepted IBAN always gives a rejected one.
  lemma OneCharacterIsDetected(a: string, b: string, k: nat)
    requires var n, m := Normalize(a), Normalize(b);
      k < |n| == |m| && n[k] != m[k] && forall i :: 0 <= i < |n| && i != k ==> n[i] == m[i]
    ensures !(Accepts(a) && Accepts(b))
  {
    var n, m := Normalize(a), Normalize(b);
    if WellFormed(n) && WellFormed(m) {
      CountryIsFixed(n);
      CountryIsFixed(m);
      NumericForm(n);
      NumericForm(m);
      var s, t := Rearranged(n), Rearranged(m);
      RearrangedChange(n, m, k);
      OneDigit(s, t, Place(k));
      Mod97IsRemainder(s);
      Mod97IsRemainder(t);
    }
  }

  lemma CountryIsFixed(n: string)
    requires WellFormed(n)
    ensures n[0] == 'I' && n[1] == 'R'
  {
    assert n[0] == n[..2][0] && n[1] == n[..2][1];
  }

  lemma RearrangedChange(n: string, m: string, k: nat)
    requires 2 <= k < 26 == |n| == |m| && n[k] != m[k] && forall i :: 0 <= i < |n| && i != k ==> n[i] == m[i]
    ensures var s, t := Rearranged(n), Rearranged(m);
      s[Place(k)] != t[Place(k)] && forall i :: 0 <= i < 28 && i != Place(k) ==> s[i] == t[i]
  {
    var s, t := Rearranged(n), Rearranged(m);
    assert s[Place(k)] == n[k] && t[Place(k)] == m[k];
  }

  // So does swapping any two unequal digits.
  lemma SwapIsDetected(a: string, b: string, k: nat, l: nat)
    requires var n, m := Normalize(a), Normalize(b);
      2 <= k < l < |n| && n[k] != n[l] && m == n[k := n[l]][l := n[k]]
    ensures !(Accepts(a) && Accepts(b))
  {
    var n, m := Normalize(a), Normalize(b);
    if WellFormed(n) && WellFormed(m) {
      NumericForm(n);
      NumericForm(m);
      var s, t := Rearranged(n), Rearranged(m);
      var i, j := Place(k), Place(l);
      Mod97IsRemainder(s);
      Mod97IsRemainder(t);
      RearrangedSwap(n, m, k, l);
      if i < j { Swap(s, t, i, j); } else { Swap(s, t, j, i); }
    }
  }

  lemma RearrangedSwap(n: string, m: string, k: nat, l: nat)
    requires 2 <= k < l < 26 == |n| && m == n[k := n[l]][l := n[k]]
    ensures var s, t, i, j := Rearranged(n), Rearranged(m), Place(k), Place(l);
      i != j && s[i] == n[k] && s[j] == n[l] && t == s[i := s[j]][j := s[i]] && t == s[j := s[i]][i := s[j]]
  {
    var s, t, i, j := Rearranged(n), Rearranged(m), Place(k), Place(l);
    forall p | 0 <= p < |t| ensures t[p] == s[i := s[j]][j := s[i]][p] {}
  }
}
