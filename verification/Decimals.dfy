/** Numbers as decimal text, and text read as numbers the way `str::trim` and `str::parse::<u64>` do. */
module Decimals {
  import opened Wrappers
  import opened Sequences

  // -- Digits -----------------------------------------------------------------

  function Digit(n: nat): char
    requires n < 10
  {
    '0' + n as char
  }

  /** A number in decimal, without leading zeros. */
  function Decimal(n: nat): (s: string)
    ensures s != "" && forall i :: 0 <= i < |s| ==> '0' <= s[i] <= '9'
  {
    if n < 10 then [Digit(n)] else Decimal(n / 10) + [Digit(n % 10)]
  }

  lemma DigitSpelled(n: nat)
    requires n < 10
    ensures Digit(n) == "0123456789"[n]
  {
  }

  /** Decimal text, digit by digit from the last. */
  lemma DecimalSpelled(n: nat)
    ensures Decimal(n) == (if n < 10 then "" else Decimal(n / 10)) + ["0123456789"[n % 10]]
  {
    DigitSpelled(n % 10);
  }

  predicate IsDigit(c: char) { '0' <= c <= '9' }

  predicate AllDigits(s: string) { forall i :: 0 <= i < |s| ==> IsDigit(s[i]) }

  function DigitValue(c: char): nat { if IsDigit(c) then c as int - '0' as int else 0 }

  function Value(s: string): nat {
    if s == "" then 0 else 10 * Value(s[..|s| - 1]) + DigitValue(s[|s| - 1])
  }

  function Zeros(n: nat): (s: string)
    ensures |s| == n && AllDigits(s)
  {
    if n == 0 then "" else Zeros(n - 1) + ['0']
  }

  lemma {:induction false} DecimalDigits(n: nat)
    ensures Decimal(n) != "" && AllDigits(Decimal(n))
  {
    if n >= 10 { DecimalDigits(n / 10); }
  }

  lemma ValueSnoc(s: string, c: char)
    ensures Value(s + [c]) == 10 * Value(s) + DigitValue(c)
  {
    assert (s + [c])[..|s|] == s;
  }

  lemma {:induction false} DecimalValue(n: nat)
    ensures Value(Decimal(n)) == n
  {
    if n < 10 {
      ValueSnoc("", Digit(n));
      assert "" + [Digit(n)] == Decimal(n);
    } else {
      DecimalValue(n / 10);
      ValueSnoc(Decimal(n / 10), Digit(n % 10));
    }
  }

  lemma {:induction false} ZerosValue(n: nat)
    ensures Value(Zeros(n)) == 0
  {
    if n > 0 {
      ZerosValue(n - 1);
      ValueSnoc(Zeros(n - 1), '0');
    }
  }

  lemma {:induction false} AppendZeros(zeros: string, digits: string)
    requires Value(zeros) == 0
    ensures Value(zeros + digits) == Value(digits)
    decreases |digits|
  {
    if digits == "" {
      AppendNothing(zeros);
    } else {
      var init, last := digits[..|digits| - 1], digits[|digits| - 1];
      AppendZeros(zeros, init);
      assert digits == init + [last] && zeros + digits == zeros + init + [last];
      ValueSnoc(init, last);
      ValueSnoc(zeros + init, last);
    }
  }

  lemma DecimalSnoc(v: nat, c: char)
    requires v > 0 && IsDigit(c)
    ensures Decimal(10 * v + DigitValue(c)) == Decimal(v) + [c]
  {
  }

  lemma DecimalOne(c: char)
    requires IsDigit(c)
    ensures Decimal(DigitValue(c)) == [c]
  {
  }

  lemma LastDigit(s: string)
    requires s != "" && AllDigits(s)
    ensures var init, c := s[..|s| - 1], s[|s| - 1];
            s == init + [c] && IsDigit(c) && AllDigits(init) && Value(s) == 10 * Value(init) + DigitValue(c)
  {
    assert IsDigit(s[|s| - 1]);
  }

  /** Digits are a number's own, after some leading zeros. */
  lemma {:induction false} DigitsSpell(s: string) returns (zeros: nat)
    requires s != "" && AllDigits(s)
    ensures s == Zeros(zeros) + Decimal(Value(s))
    decreases |s|
  {
    var init, c := s[..|s| - 1], s[|s| - 1];
    LastDigit(s);
    if init == "" {
      zeros := 0;
      DecimalOne(c);
      AppendNothing([c]);
    } else {
      var z := DigitsSpell(init);
      SpellNext(z, Value(init), c);
      zeros := if Value(init) > 0 then z else z + 1;
    }
  }

  lemma SpellNext(zeros: nat, v: nat, c: char)
    requires IsDigit(c)
    ensures Zeros(zeros) + Decimal(v) + [c] == Zeros(if v > 0 then zeros else zeros + 1) + Decimal(10 * v + DigitValue(c))
  {
    if v > 0 {
      DecimalSnoc(v, c);
      Associative(Zeros(zeros), Decimal(v), [c]);
    } else {
      assert Decimal(0) == ['0'];
      DecimalOne(c);
    }
  }

  // -- Trimming ---------------------------------------------------------------

  predicate IsSpace(c: char) { c == ' ' || '\t' <= c <= '\r' }

  function TrimStart(s: string): string {
    if s != "" && IsSpace(s[0]) then TrimStart(s[1..]) else s
  }

  function TrimEnd(s: string): string {
    if s != "" && IsSpace(s[|s| - 1]) then TrimEnd(s[..|s| - 1]) else s
  }

  function Trim(s: string): string { TrimEnd(TrimStart(s)) }

  /** A space, or one of the octets tab to carriage return. */
  predicate BlankOctet(c: char) { c as int == 32 || 9 <= c as int <= 13 }

  predicate Blank(s: string) { forall i :: 0 <= i < |s| ==> BlankOctet(s[i]) }

  /** Text that neither starts nor ends with white space. */
  predicate Tight(s: string) { s != "" ==> !BlankOctet(s[0]) && !BlankOctet(s[|s| - 1]) }

  lemma {:induction false} StartTrimmed(left: string, core: string)
    requires Blank(left) && (core != "" ==> !BlankOctet(core[0]))
    ensures TrimStart(left + core) == core
    decreases |left|
  {
    if left == "" {
      AppendNothing(core);
    } else {
      assert BlankOctet(left[0]);
      assert (left + core)[1..] == left[1..] + core;
      StartTrimmed(left[1..], core);
    }
  }

  lemma {:induction false} EndTrimmed(core: string, right: string)
    requires Blank(right) && (core != "" ==> !BlankOctet(core[|core| - 1]))
    ensures TrimEnd(core + right) == core
    decreases |right|
  {
    if right == "" {
      AppendNothing(core);
    } else {
      assert BlankOctet(right[|right| - 1]);
      assert (core + right)[..|core + right| - 1] == core + right[..|right| - 1];
      EndTrimmed(core, right[..|right| - 1]);
    }
  }

  /** White space around tight text is cut off, and nothing else. */
  lemma TrimExactly(left: string, core: string, right: string)
    requires Blank(left) && Blank(right) && Tight(core)
    ensures Trim(left + core + right) == core
  {
    if core == "" {
      assert left + core + right == (left + right) + "";
      StartTrimmed(left + right, "");
    } else {
      assert left + core + right == left + (core + right);
      StartTrimmed(left, core + right);
      EndTrimmed(core, right);
    }
  }

  lemma {:induction false} StartCut(s: string) returns (left: string)
    ensures Blank(left) && s == left + TrimStart(s) && (TrimStart(s) != "" ==> !BlankOctet(TrimStart(s)[0]))
  {
    if s != "" && IsSpace(s[0]) {
      var rest := StartCut(s[1..]);
      left := [s[0]] + rest;
    } else {
      left := "";
    }
  }

  lemma {:induction false} EndCut(s: string) returns (right: string)
    ensures Blank(right) && s == TrimEnd(s) + right && (TrimEnd(s) != "" ==> !BlankOctet(TrimEnd(s)[|TrimEnd(s)| - 1]))
    ensures TrimEnd(s) <= s
  {
    if s != "" && IsSpace(s[|s| - 1]) {
      var rest := EndCut(s[..|s| - 1]);
      right := rest + [s[|s| - 1]];
      assert s == s[..|s| - 1] + [s[|s| - 1]];
      Associative(TrimEnd(s), rest, [s[|s| - 1]]);
    } else {
      right := "";
    }
  }

  /** Any text is its trimmed form between white space. */
  lemma TrimCuts(s: string) returns (left: string, right: string)
    ensures Blank(left) && Blank(right) && s == left + Trim(s) + right && Tight(Trim(s))
  {
    left := StartCut(s);
    right := EndCut(TrimStart(s));
    Associative(left, Trim(s), right);
    if Trim(s) != "" { assert Trim(s)[0] == TrimStart(s)[0]; }
  }

  // -- Parsing ----------------------------------------------------------------

  /** An optional plus sign, then at least one digit, in range. */
  function ParseU64(s: string): Option<nat> {
    var digits := if s != "" && s[0] == '+' then s[1..] else s;
    if digits == "" || !AllDigits(digits) then None
    else if Value(digits) > U64_MAX then None
    else Some(Value(digits))
  }

  function Sign(plus: bool): string { if plus then "+" else "" }

  /** A number as it may be written: a sign, leading zeros, its digits. */
  function Numeral(plus: bool, zeros: nat, n: nat): string { Sign(plus) + (Zeros(zeros) + Decimal(n)) }

  lemma DigitsOfNumeral(zeros: nat, n: nat)
    ensures AllDigits(Zeros(zeros) + Decimal(n)) && Zeros(zeros) + Decimal(n) != "" && Value(Zeros(zeros) + Decimal(n)) == n
  {
    DecimalDigits(n);
    DecimalValue(n);
    ZerosValue(zeros);
    AppendZeros(Zeros(zeros), Decimal(n));
  }

  lemma NumeralParses(plus: bool, zeros: nat, n: nat)
    ensures ParseU64(Numeral(plus, zeros, n)) == if n <= U64_MAX then Some(n) else None
    ensures Tight(Numeral(plus, zeros, n))
  {
    DigitsOfNumeral(zeros, n);
    SignedParses(plus, Zeros(zeros) + Decimal(n), n);
  }

  lemma SignedParses(plus: bool, digits: string, n: nat)
    requires digits != "" && AllDigits(digits) && Value(digits) == n
    ensures ParseU64(Sign(plus) + digits) == if n <= U64_MAX then Some(n) else None
    ensures Tight(Sign(plus) + digits)
  {
    assert IsDigit(digits[0]) && IsDigit(digits[|digits| - 1]);
    if plus {
      assert ("+" + digits)[1..] == digits;
    } else {
      AppendNothing(digits);
    }
  }

  lemma ParsedIsNumeral(s: string) returns (plus: bool, zeros: nat)
    requires ParseU64(s).Some?
    ensures s == Numeral(plus, zeros, ParseU64(s).value)
  {
    plus := s != "" && s[0] == '+';
    var digits := if plus then s[1..] else s;
    zeros := DigitsSpell(digits);
    if plus {
      assert s == "+" + digits;
    } else {
      AppendNothing(digits);
    }
  }

  /** The text writes this number: a numeral, perhaps with white space around it. */
  ghost predicate Writes(text: string, n: nat) {
    exists left, right, plus, zeros: nat ::
      Blank(left) && Blank(right) && text == left + Numeral(plus, zeros, n) + right
  }

  /** Trimming and parsing reads a number exactly from the texts that write it, and only 64-bit ones. */
  lemma ReadsExactly(text: string, n: nat)
    ensures ParseU64(Trim(text)) == Some(n) <==> Writes(text, n) && n <= U64_MAX
  {
    if Writes(text, n) {
      var left, right, plus, zeros: nat :|
        Blank(left) && Blank(right) && text == left + Numeral(plus, zeros, n) + right;
      NumeralParses(plus, zeros, n);
      TrimExactly(left, Numeral(plus, zeros, n), right);
    }
    if ParseU64(Trim(text)) == Some(n) {
      var left, right := TrimCuts(text);
      var plus, zeros := ParsedIsNumeral(Trim(text));
      assert text == left + Numeral(plus, zeros, n) + right;
    }
  }
}
