/** The string facts the services rely on: ordering, decimal numerals, substring search. */
module Text {
  import opened Sorting

  /** Python's `<=` on strings. */
  predicate AtMost(a: string, b: string) {
    a == [] || (b != [] && (a[0] < b[0] || (a[0] == b[0] && AtMost(a[1..], b[1..]))))
  }

  lemma {:induction false} AtMostTransitive(a: string, b: string, c: string)
    requires AtMost(a, b) && AtMost(b, c)
    ensures AtMost(a, c)
  {
    if a != [] && a[0] == b[0] == c[0] { AtMostTransitive(a[1..], b[1..], c[1..]); }
  }

  lemma {:induction false} AtMostAntisymmetric(a: string, b: string)
    requires AtMost(a, b) && AtMost(b, a)
    ensures a == b
  {
    if a != [] {
      AtMostAntisymmetric(a[1..], b[1..]);
      assert a == [a[0]] + a[1..] && b == [b[0]] + b[1..];
    }
  }

  lemma {:induction false} AtMostTotal(a: string, b: string)
    ensures AtMost(a, b) || AtMost(b, a)
  {
    if a != [] && b != [] && a[0] == b[0] { AtMostTotal(a[1..], b[1..]); }
  }

  lemma AtMostIsTotalOrder()
    ensures Total(AtMost) && Transitive(AtMost) && Antisymmetric(AtMost)
  {
    forall a, b ensures AtMost(a, b) || AtMost(b, a) { AtMostTotal(a, b); }
    forall a, b, c | AtMost(a, b) && AtMost(b, c) ensures AtMost(a, c) { AtMostTransitive(a, b, c); }
    forall a, b | AtMost(a, b) && AtMost(b, a) ensures a == b { AtMostAntisymmetric(a, b); }
  }

  /** Dictionary order: a proper prefix comes first, else the first different character decides. */
  lemma {:induction false} AtMostIsLexicographic(a: string, b: string)
    ensures AtMost(a, b) <==>
              a <= b || exists i :: 0 <= i < |a| && i < |b| && a[..i] == b[..i] && a[i] < b[i]
  {
    if a != [] && b != [] && a[0] == b[0] {
      AtMostIsLexicographic(a[1..], b[1..]);
      if a[1..] <= b[1..] { assert a == [a[0]] + a[1..] && b == [b[0]] + b[1..]; }
      if i :| 0 <= i < |a[1..]| && i < |b[1..]| && a[1..][..i] == b[1..][..i] && a[1..][i] < b[1..][i] {
        assert a[..i + 1] == [a[0]] + a[1..][..i] && b[..i + 1] == [b[0]] + b[1..][..i];
      }
      if i :| 0 <= i < |a| && i < |b| && a[..i] == b[..i] && a[i] < b[i] {
        assert a[1..][..i - 1] == a[..i][1..] && b[1..][..i - 1] == b[..i][1..];
        assert a[1..][i - 1] < b[1..][i - 1];
      }
    } else if a != [] && b != [] && a[0] < b[0] {
      assert a[..0] == b[..0];
    } else if a != [] && b != [] {
      assert forall i :: 0 < i < |a| && i < |b| ==> a[..i][0] != b[..i][0];
    }
  }

  // ----- `strip`

  predicate IsSpace(c: char) {
    c in " \t\n\r"
  }

  function Strip(s: string): string {
    if s != [] && IsSpace(s[0]) then Strip(s[1..])
    else if s != [] && IsSpace(s[|s| - 1]) then Strip(s[..|s| - 1])
    else s
  }

  /** `r` is `s` without its outer white space. */
  ghost predicate IsStripped(s: string, r: string) {
    exists i, j :: 0 <= i <= j <= |s| && StripsTo(s, r, i, j)
  }

  ghost predicate StripsTo(s: string, r: string, i: nat, j: nat)
    requires i <= j <= |s|
  {
    && r == s[i..j] && (r != "" ==> !IsSpace(r[0]) && !IsSpace(r[|r| - 1]))
    && (forall k :: 0 <= k < i || j <= k < |s| ==> s[k] in " \t\n\r")
  }

  lemma StrippedFront(s: string, r: string)
    requires s != [] && IsSpace(s[0]) && IsStripped(s[1..], r)
    ensures IsStripped(s, r)
  {
    var i, j :| 0 <= i <= j <= |s[1..]| && StripsTo(s[1..], r, i, j);
    assert s[1..][i..j] == s[i + 1..j + 1];
    assert forall k :: 1 <= k < |s| ==> s[k] == s[1..][k - 1];
    assert StripsTo(s, r, i + 1, j + 1);
  }

  lemma StrippedBack(s: string, r: string)
    requires s != [] && IsSpace(s[|s| - 1]) && IsStripped(s[..|s| - 1], r)
    ensures IsStripped(s, r)
  {
    var i, j :| 0 <= i <= j <= |s| - 1 && StripsTo(s[..|s| - 1], r, i, j);
    assert s[..|s| - 1][i..j] == s[i..j];
    assert forall k :: 0 <= k < |s| - 1 ==> s[k] == s[..|s| - 1][k];
    assert StripsTo(s, r, i, j);
  }

  lemma {:induction false} StripIsExact(s: string)
    ensures IsStripped(s, Strip(s))
  {
    if s != [] && IsSpace(s[0]) {
      hide IsStripped, IsSpace;
      StripIsExact(s[1..]);
      StrippedFront(s, Strip(s));
    } else if s != [] && IsSpace(s[|s| - 1]) {
      hide IsStripped, IsSpace;
      StripIsExact(s[..|s| - 1]);
      StrippedBack(s, Strip(s));
    } else {
      assert StripsTo(s, s, 0, |s|);
    }
  }

  // ----- decimal numerals

  const DIGITS := "0123456789"

  function Decimal(n: nat): string {
    if n < 10 then [DIGITS[n]] else Decimal(n / 10) + [DIGITS[n % 10]]
  }

  lemma {:induction false} DecimalInjective(m: nat, n: nat)
    requires Decimal(m) == Decimal(n)
    ensures m == n
  {
    var a, b := Decimal(m), Decimal(n);
    DecimalSplits(m);
    DecimalSplits(n);
    assert a[|a| - 1] == DIGITS[m % 10] && b[|b| - 1] == DIGITS[n % 10];
    DigitsDiffer(m % 10, n % 10);
    assert Leading(m) == a[..|a| - 1] && Leading(n) == b[..|b| - 1];
    if m >= 10 && n >= 10 {
      DecimalInjective(m / 10, n / 10);
    } else {
      DecimalNonEmpty(m / 10);
      DecimalNonEmpty(n / 10);
    }
  }

  function Leading(n: nat): string {
    if n < 10 then "" else Decimal(n / 10)
  }

  lemma DecimalSplits(n: nat)
    ensures Decimal(n) == Leading(n) + [DIGITS[n % 10]]
  {
  }

  lemma DigitsDiffer(i: nat, j: nat)
    requires i < 10 && j < 10 && DIGITS[i] == DIGITS[j]
    ensures i == j
  {
  }

  lemma {:induction false} DecimalNonEmpty(n: nat)
    ensures |Decimal(n)| >= 1 && forall i :: 0 <= i < |Decimal(n)| ==> Decimal(n)[i] in DIGITS
  {
    if n >= 10 { DecimalNonEmpty(n / 10); }
  }

  /** The number that a numeral stands for. */
  ghost function ValueOf(numeral: string): int {
    if numeral == "" then 0
    else 10 * ValueOf(numeral[..|numeral| - 1]) + (numeral[|numeral| - 1] as int - '0' as int)
  }

  /** Reading undoes writing, and no numeral but "0" begins with a zero. */
  lemma {:induction false} DecimalReads(n: nat)
    ensures ValueOf(Decimal(n)) == n && (n > 0 ==> Decimal(n)[0] != '0')
  {
    assert DIGITS[n % 10] as int - '0' as int == n % 10;
    if n >= 10 {
      DecimalReads(n / 10);
      DecimalNonEmpty(n / 10);
      assert Decimal(n)[..|Decimal(n)| - 1] == Decimal(n / 10);
    } else {
      assert Decimal(n)[..0] == "";
    }
  }

  // ----- Python's `pattern in text`

  predicate Contains(text: string, pattern: string) {
    exists i :: 0 <= i <= |text| - |pattern| && OccursAt(text, pattern, i)
  }

  predicate OccursAt(text: string, pattern: string, i: nat)
    requires i + |pattern| <= |text|
  {
    text[i..i + |pattern|] == pattern
  }

  lemma ContainsBefore(left: string, rest: string, pattern: string)
    requires Contains(left, pattern)
    ensures Contains(left + rest, pattern)
  {
    var i :| 0 <= i <= |left| - |pattern| && OccursAt(left, pattern, i);
    assert (left + rest)[i..i + |pattern|] == left[i..i + |pattern|];
    assert OccursAt(left + rest, pattern, i);
  }

  lemma ContainsAfter(rest: string, right: string, pattern: string)
    requires Contains(right, pattern)
    ensures Contains(rest + right, pattern)
  {
    var i :| 0 <= i <= |right| - |pattern| && OccursAt(right, pattern, i);
    assert (rest + right)[|rest|..] == right;
    assert (rest + right)[|rest| + i..|rest| + i + |pattern|] == right[i..i + |pattern|];
    assert OccursAt(rest + right, pattern, |rest| + i);
  }

  /** A pattern without the separator cannot straddle it. */
  lemma NoneStraddles(left: string, separator: char, right: string, pattern: string)
    requires separator !in pattern && pattern != []
    ensures Contains(left + [separator] + right, pattern) <==> Contains(left, pattern) || Contains(right, pattern)
  {
    var text := left + [separator] + right;
    if Contains(text, pattern) {
      hide Contains;
      FoundOnOneSide(left, separator, right, pattern);
    }
    if Contains(left, pattern) {
      ContainsBefore(left, [separator] + right, pattern);
      assert text == left + ([separator] + right);
    }
    if Contains(right, pattern) { ContainsAfter(left + [separator], right, pattern); }
  }

  lemma FoundOnOneSide(left: string, separator: char, right: string, pattern: string)
    requires separator !in pattern && pattern != [] && Contains(left + [separator] + right, pattern)
    ensures Contains(left, pattern) || Contains(right, pattern)
  {
    var text, cut, n := left + [separator] + right, |left|, |pattern|;
    var i :| 0 <= i <= |text| - n && OccursAt(text, pattern, i);
    assert text[cut] == separator && text[cut + 1..] == right && text[..cut] == left;
    assert forall k :: i <= k < i + n ==> text[k] == text[i..i + n][k - i];
    if cut < i {
      assert right[i - cut - 1..i - cut - 1 + n] == text[i..i + n];
      assert OccursAt(right, pattern, i - cut - 1);
    } else {
      assert left[i..i + n] == text[i..i + n];
      assert OccursAt(left, pattern, i);
    }
  }

  lemma ForeignLetter(text: string, pattern: string, k: nat)
    requires k < |pattern| && pattern[k] !in text
    ensures !Contains(text, pattern)
  {
    forall i | 0 <= i <= |text| - |pattern| ensures !OccursAt(text, pattern, i) {
      assert text[i..i + |pattern|][k] == text[i + k];
    }
  }
}
