/** What the recipient reads at the end of each part: its number and how many there are. */
module SmsNumbering {
  import opened PythonText
  import opened SmsSplitter

  /** The number a text of digits denotes, read from left to right. */
  function ReadNumber(s: string): int {
    if s == "" then 0 else 10 * ReadNumber(s[..|s| - 1]) + (s[|s| - 1] as int - '0' as int)
  }

  /** Digits without a leading zero. */
  predicate Numeral(s: string) {
    s != "" && (forall i :: 0 <= i < |s| ==> '0' <= s[i] <= '9') && (|s| > 1 ==> s[0] != '0')
  }

  lemma DigitValue(n: nat)
    requires n < 10
    ensures '0' <= "0123456789"[n] <= '9' && "0123456789"[n] as int - '0' as int == n && (n > 0 ==> "0123456789"[n] != '0')
  {
  }

  lemma ReadSnoc(s: string, c: char)
    ensures ReadNumber(s + [c]) == 10 * ReadNumber(s) + (c as int - '0' as int)
  {
    assert (s + [c])[..|s|] == s;
  }

  lemma NumeralSnoc(s: string, c: char)
    requires Numeral(s) && s[0] != '0' && '0' <= c <= '9'
    ensures Numeral(s + [c])
  {
  }

  lemma {:induction false} DecimalIsRead(n: nat)
    ensures ReadNumber(Decimal(n)) == n && Numeral(Decimal(n)) && (n > 0 ==> Decimal(n)[0] != '0')
  {
    DigitValue(n % 10);
    if n < 10 {
      assert Decimal(n) == "" + ["0123456789"[n]];
      ReadSnoc("", "0123456789"[n]);
    } else {
      DecimalIsRead(n / 10);
      ReadSnoc(Decimal(n / 10), "0123456789"[n % 10]);
      NumeralSnoc(Decimal(n / 10), "0123456789"[n % 10]);
    }
  }

  /** The part is the body, a blank, and in brackets two numerals with a slash between them. */
  ghost predicate ReadsAs(part: string, body: string, number: int, total: int) {
    exists a, b :: part == body + " (" + a + "/" + b + ")" && Numeral(a) && Numeral(b)
                   && ReadNumber(a) == number && ReadNumber(b) == total
  }

  lemma SuffixIsRead(body: string, i: nat, total: nat)
    ensures ReadsAs(body + Suffix(i, total), body, i + 1, total)
  {
    DecimalIsRead(i + 1);
    DecimalIsRead(total);
    var a, b := Decimal(i + 1), Decimal(total);
    assert body + Suffix(i, total) == body + " (" + a + "/" + b + ")";
  }

  /** Whatever the text and the maximum for which the call returns: with several parts, part i reads as number
      i + 1 of all of them, and the bodies before the suffixes carry the visible characters of the text. */
  lemma PartsAreNumbered(text: string, maxLength: int)
    requires Splittable(text, maxLength)
    ensures var parts, bodies := Parts(text, maxLength), Bodies(text, maxLength);
            && |bodies| == |parts| && Visible(Joined(bodies)) == Visible(text)
            && if |parts| > 1 then forall i :: 0 <= i < |parts| ==> ReadsAs(parts[i], bodies[i], i + 1, |parts|)
               else parts == bodies
  {
    PartsKeepText(text, maxLength);
    var bodies := Bodies(text, maxLength);
    forall i | 0 <= i < |bodies| ensures ReadsAs(bodies[i] + Suffix(i, |bodies|), bodies[i], i + 1, |bodies|) {
      SuffixIsRead(bodies[i], i, |bodies|);
    }
  }
}
