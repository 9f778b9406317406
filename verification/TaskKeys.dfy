/** Task keys: `<PROJECT>-<n>`, with `n` drawn from the project's counter.

    A project key is free text, so it may itself contain dashes and digits; a task key is
    still read back uniquely, because the decimal part never contains a dash. */
module TaskKeys {

  /** `str.upper`, over ASCII. */
  function UpperChar(c: char): char {
    if 'a' <= c <= 'z' then c - 'a' + 'A' else c
  }

  function Upper(s: string): (u: string)
    ensures |u| == |s|
    ensures forall i :: 0 <= i < |u| ==> !('a' <= u[i] <= 'z')
  {
    seq(|s|, i requires 0 <= i < |s| => UpperChar(s[i]))
  }

  /** Looking a stored key up again, in any case, finds the same key. */
  lemma UpperFixed(s: string)
    ensures Upper(Upper(s)) == Upper(s)
  {
  }

  /** A small letter and its capital. */
  predicate CasePair(a: char, b: char) {
    'a' <= a <= 'z' && 'A' <= b <= 'Z' && a as int - 'a' as int == b as int - 'A' as int
  }

  /** The same text but for the case of letters. */
  predicate SameLetters(s: string, t: string) {
    |s| == |t| && forall i :: 0 <= i < |s| ==> s[i] == t[i] || CasePair(s[i], t[i]) || CasePair(t[i], s[i])
  }

  /** Two spellings are looked up as one exactly when they differ only in the case of letters. */
  lemma UpperIgnoresCase(s: string, t: string)
    ensures Upper(s) == Upper(t) <==> SameLetters(s, t)
  {
    if Upper(s) == Upper(t) {
      forall i | 0 <= i < |s| ensures s[i] == t[i] || CasePair(s[i], t[i]) || CasePair(t[i], s[i]) {
        assert Upper(s)[i] == Upper(t)[i];
      }
    }
  }

  function Digit(d: nat): (c: char)
    requires d < 10
    ensures '0' <= c <= '9'
  {
    '0' + d as char
  }

  function Decimal(n: nat): (s: string)
    ensures |s| > 0 && forall i :: 0 <= i < |s| ==> '0' <= s[i] <= '9'
  {
    if n < 10 then [Digit(n)] else Decimal(n / 10) + [Digit(n % 10)]
  }

  /** The text of an integer. */
  function IntText(n: int): string {
    if n < 0 then "-" + Decimal(-n) else Decimal(n)
  }

  function TaskKey(project: string, n: nat): string {
    project + "-" + Decimal(n)
  }

  lemma {:induction false} DecimalInjective(m: nat, n: nat)
    requires Decimal(m) == Decimal(n)
    ensures m == n
    decreases m
  {
    var s, t := Decimal(m), Decimal(n);
    assert s[|s| - 1] == Digit(m % 10) && t[|t| - 1] == Digit(n % 10);
    assert m % 10 == n % 10;
    if m >= 10 && n >= 10 {
      assert Decimal(m / 10) == s[..|s| - 1] == t[..|t| - 1] == Decimal(n / 10);
      DecimalInjective(m / 10, n / 10);
    }
  }

  /** The number that a decimal text stands for. */
  function ValueOf(s: string): int {
    if s == "" then 0 else 10 * ValueOf(s[..|s| - 1]) + (s[|s| - 1] as int - '0' as int)
  }

  /** The text of a number stands for it, and has no leading zero. */
  lemma {:induction false} DecimalReadsBack(n: nat)
    ensures ValueOf(Decimal(n)) == n
    ensures n > 0 ==> Decimal(n)[0] != '0'
  {
    if n >= 10 {
      DecimalReadsBack(n / 10);
      assert Decimal(n)[..|Decimal(n)| - 1] == Decimal(n / 10);
    } else {
      assert Decimal(n)[..0] == "";
    }
  }

  /** The text of an integer is that of its size, after a minus sign if it is negative. */
  lemma IntTextReadsBack(n: int)
    ensures n >= 0 ==> ValueOf(IntText(n)) == n
    ensures n < 0 ==> IntText(n)[0] == '-' && ValueOf(IntText(n)[1..]) == -n
  {
    if n >= 0 { DecimalReadsBack(n); } else { DecimalReadsBack(-n); }
  }

  /** The position of the last dash of a task key is where the project key ends. */
  lemma LastDash(project: string, n: nat)
    ensures var k := TaskKey(project, n);
            && k[|project|] == '-'
            && k[..|project|] == project
            && k[|project| + 1..] == Decimal(n)
            && forall i :: |project| < i < |k| ==> k[i] != '-'
  {
    var k := TaskKey(project, n);
    assert k == (project + "-") + Decimal(n);
    forall i | |project| < i < |k| ensures k[i] != '-' {
      assert k[i] == Decimal(n)[i - |project| - 1];
    }
  }

  /** (project key, number) can be recovered from the task key, whatever the project key contains. */
  lemma TaskKeyInjective(p: string, m: nat, q: string, n: nat)
    requires TaskKey(p, m) == TaskKey(q, n)
    ensures p == q && m == n
  {
    LastDash(p, m);
    LastDash(q, n);
    assert |p| == |q|;
    DecimalInjective(m, n);
  }

  /** A task key built from a stored project key is a fixed point of `upper`, so it is found by lookup. */
  lemma TaskKeyUpper(p: string, n: nat)
    requires Upper(p) == p
    ensures Upper(TaskKey(p, n)) == TaskKey(p, n)
  {
    var k := TaskKey(p, n);
    assert k == (p + "-") + Decimal(n);
    forall i | 0 <= i < |k| ensures UpperChar(k[i]) == k[i] {
      if i < |p| {
        assert k[i] == p[i] == Upper(p)[i];
      } else if i > |p| {
        assert k[i] == Decimal(n)[i - |p| - 1];
      }
    }
  }
}
