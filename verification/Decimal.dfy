/** Decimal numerals without leading zeros, as the formatter prints them and `parse` reads them. */
module Decimal {
  predicate IsDigit(c: char) { '0' <= c <= '9' }

  predicate AllDigits(s: string) { forall i | 0 <= i < |s| :: IsDigit(s[i]) }

  function Digit(n: nat): (c: char)
    requires n < 10
    ensures IsDigit(c)
  {
    '0' + n as char
  }

  function Print(n: nat): string {
    if n < 10 then [Digit(n)] else Print(n / 10) + [Digit(n % 10)]
  }

  function Parse(s: string): nat
    requires AllDigits(s)
  {
    if s == [] then 0
    else Parse(s[..|s| - 1]) * 10 + (s[|s| - 1] - '0') as nat
  }

  /** A non-empty string of digits that starts with `0` only when it is `0`. */
  predicate Clean(s: string) {
    AllDigits(s) && s != [] && (|s| == 1 || s[0] != '0')
  }

  /** Printing yields a clean numeral, and reading it gives the number back. */
  lemma {:induction false} ParseUndoesPrint(n: nat)
    ensures Clean(Print(n)) && Parse(Print(n)) == n
    ensures n > 0 ==> Print(n)[0] != '0'
  {
    if n >= 10 {
      ParseUndoesPrint(n / 10);
      var head := Print(n / 10);
      assert (head + [Digit(n % 10)])[..|head|] == head;
    }
  }

  /** Printing is the only clean numeral of its number. */
  lemma {:induction false} PrintUndoesParse(s: string)
    requires Clean(s)
    ensures Print(Parse(s)) == s
    ensures s[0] != '0' ==> Parse(s) > 0
  {
    var head, last := s[..|s| - 1], s[|s| - 1];
    assert s == head + [last];
    if |s| == 1 {
      assert head == [];
      assert Parse(head) == 0;
    } else {
      PrintUndoesParse(head);
      assert Parse(head) > 0;
      assert Parse(s) / 10 == Parse(head) && Parse(s) % 10 == (last - '0') as nat;
    }
  }
}
