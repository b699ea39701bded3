/** Run identifiers as decimal text of any length: the comparison is the comparison of their values. */
module DecimalIdentifiers {
  import opened Basics

  predicate IsDigit(c: char) {
    '0' <= c <= '9'
  }

  predicate IsDecimal(s: string) {
    forall c | c in s :: IsDigit(c)
  }

  function Digit(c: char): nat
    requires IsDigit(c)
  {
    (c as int) - ('0' as int)
  }

  function Pow10(n: nat): nat {
    if n == 0 then 1 else 10 * Pow10(n - 1)
  }

  /** The number the text stands for: each digit times its place. */
  function Value(s: string): nat
    requires IsDecimal(s)
  {
    if s == "" then 0 else Digit(s[0]) * Pow10(|s| - 1) + Value(s[1..])
  }

  /** Leading zeros removed. */
  function Stripped(s: string): string {
    if s != "" && s[0] == '0' then Stripped(s[1..]) else s
  }

  function Normalized(s: string): string {
    if Stripped(s) == "" then "0" else Stripped(s)
  }

  /** localeCompare on digit text of equal length: the first difference decides. */
  function CompareText(a: string, b: string): int
    requires |a| == |b|
  {
    if a == "" then 0 else if a[0] < b[0] then -1 else if a[0] > b[0] then 1 else CompareText(a[1..], b[1..])
  }

  function Compare(left: string, right: string): int {
    var l, r := Normalized(left), Normalized(right);
    if |l| != |r| then |l| - |r| else CompareText(l, r)
  }

  // ------------------------------------------------------------------ values

  lemma {:induction false} TimesMonotone(x: nat, y: nat, unit: nat)
    requires x <= y
    ensures x * unit <= y * unit
    decreases y - x
  {
    if x < y {
      TimesMonotone(x, y - 1, unit);
      OneMore(y - 1, unit);
    }
  }

  lemma OneMore(x: nat, unit: nat)
    ensures (x + 1) * unit == x * unit + unit
  {
  }

  lemma {:induction false} ValueBelow(s: string)
    requires IsDecimal(s)
    ensures Value(s) < Pow10(|s|)
  {
    if s != "" {
      ValueBelow(s[1..]);
      TimesMonotone(Digit(s[0]), 9, Pow10(|s| - 1));
    }
  }

  lemma {:induction false} StrippedValue(s: string)
    requires IsDecimal(s)
    ensures IsDecimal(Stripped(s)) && Value(Stripped(s)) == Value(s)
    ensures Stripped(s) != "" ==> Stripped(s)[0] != '0'
  {
    if s != "" && s[0] == '0' {
      StrippedValue(s[1..]);
    }
  }

  lemma {:induction false} Pow10Monotone(m: nat, n: nat)
    requires m <= n
    ensures 1 <= Pow10(m) <= Pow10(n)
    decreases n
  {
    if m < n { Pow10Monotone(m, n - 1); } else if m > 0 { Pow10Monotone(m - 1, n - 1); }
  }

  /** Without leading zeros more digits is more. */
  lemma LongerIsLarger(a: string, b: string)
    requires IsDecimal(a) && IsDecimal(b) && |a| < |b| && b[0] != '0'
    ensures Value(a) < Value(b)
  {
    ValueBelow(a);
    Pow10Monotone(|a|, |b| - 1);
    TimesMonotone(1, Digit(b[0]), Pow10(|b| - 1));
  }

  lemma Carry(x: nat, y: nat, unit: nat)
    requires x < y
    ensures x * unit + unit <= y * unit
  {
    OneMore(x, unit);
    TimesMonotone(x + 1, y, unit);
  }

  lemma {:induction false} CompareTextIsValue(a: string, b: string)
    requires IsDecimal(a) && IsDecimal(b) && |a| == |b|
    ensures CompareText(a, b) < 0 <==> Value(a) < Value(b)
    ensures CompareText(a, b) == 0 <==> Value(a) == Value(b)
  {
    if a != "" {
      ValueBelow(a[1..]);
      ValueBelow(b[1..]);
      CompareTextIsValue(a[1..], b[1..]);
      if Digit(a[0]) < Digit(b[0]) {
        Carry(Digit(a[0]), Digit(b[0]), Pow10(|a| - 1));
      } else if Digit(b[0]) < Digit(a[0]) {
        Carry(Digit(b[0]), Digit(a[0]), Pow10(|a| - 1));
      }
    }
  }

  /** The sign of the comparison is the sign of the numeric difference, for any length and any leading zeros. */
  lemma CompareIsNumeric(left: string, right: string)
    requires IsDecimal(left) && IsDecimal(right)
    ensures Compare(left, right) < 0 <==> Value(left) < Value(right)
    ensures Compare(left, right) > 0 <==> Value(left) > Value(right)
  {
    NormalizedValue(left);
    NormalizedValue(right);
    var l, r := Normalized(left), Normalized(right);
    if |l| < |r| {
      LongerIsLarger(l, r);
    } else if |r| < |l| {
      LongerIsLarger(r, l);
    } else {
      CompareTextIsValue(l, r);
    }
  }

  lemma NormalizedValue(s: string)
    requires IsDecimal(s)
    ensures IsDecimal(Normalized(s)) && Value(Normalized(s)) == Value(s)
    ensures |Normalized(s)| >= 1 && (|Normalized(s)| > 1 ==> Normalized(s)[0] != '0')
  {
    StrippedValue(s);
    if Stripped(s) == "" {
      assert "0"[1..] == "" && Digit('0') == 0;
    }
  }

  // ------------------------------------------------------------------ producers

  datatype Producer = Producer(runId: string, attempt: int)

  predicate IsNewer(incoming: Producer, retained: Producer) {
    var runs := Compare(incoming.runId, retained.runId);
    runs > 0 || (runs == 0 && incoming.attempt > retained.attempt)
  }

  predicate NumericallyNewer(a: Producer, b: Producer)
    requires IsDecimal(a.runId) && IsDecimal(b.runId)
  {
    Value(a.runId) > Value(b.runId) || (Value(a.runId) == Value(b.runId) && a.attempt > b.attempt)
  }

  /** Producers are ordered by run number, then attempt. */
  lemma NewerIsLexicographic(a: Producer, b: Producer)
    requires IsDecimal(a.runId) && IsDecimal(b.runId)
    ensures IsNewer(a, b) <==> NumericallyNewer(a, b)
  {
    CompareIsNumeric(a.runId, b.runId);
  }

  /** A strict weak order: producers neither newer than the other are interchangeable. */
  lemma NewerIsStrictWeakOrder(a: Producer, b: Producer, c: Producer)
    requires IsDecimal(a.runId) && IsDecimal(b.runId) && IsDecimal(c.runId)
    ensures !IsNewer(a, a)
    ensures IsNewer(a, b) ==> !IsNewer(b, a)
    ensures IsNewer(a, b) && IsNewer(b, c) ==> IsNewer(a, c)
    ensures !IsNewer(a, b) && !IsNewer(b, a) ==> (IsNewer(a, c) <==> IsNewer(b, c)) && (IsNewer(c, a) <==> IsNewer(c, b))
  {
    NewerIsLexicographic(a, a);
    NewerIsLexicographic(a, b); NewerIsLexicographic(b, a);
    NewerIsLexicographic(b, c); NewerIsLexicographic(c, b);
    NewerIsLexicographic(a, c); NewerIsLexicographic(c, a);
  }
}
