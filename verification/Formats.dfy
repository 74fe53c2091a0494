/** The identifier formats, spelled out against alphabets and by their parts. */
module Formats {
  import opened Identifiers
  import opened ActiveRelease
  import opened PythonText

  const HEX := "0123456789abcdef"
  const LOWER := "abcdefghijklmnopqrstuvwxyz"
  const UPPER := "ABCDEFGHIJKLMNOPQRSTUVWXYZ"
  const DIGITS := "0123456789"

  predicate Spelled(s: string, alphabet: string) {
    forall i :: 0 <= i < |s| ==> s[i] in alphabet
  }

  /** The place of a character between two others. */
  lemma InRun(c: char, run: string, first: char)
    requires forall i :: 0 <= i < |run| ==> run[i] as int == first as int + i
    ensures c in run <==> first as int <= c as int < first as int + |run|
  {
    if first as int <= c as int < first as int + |run| {
      assert run[c as int - first as int] == c;
    }
  }

  lemma LowerHexIff(c: char)
    ensures LowerHex(c) <==> c in HEX
  {
    InRun(c, "0123456789", '0');
    InRun(c, "abcdef", 'a');
    assert HEX == "0123456789" + "abcdef";
  }

  lemma NonceCharIff(c: char)
    ensures NonceChar(c) <==> c in UPPER + LOWER + DIGITS + "_-"
  {
    InRun(c, UPPER, 'A');
    InRun(c, LOWER, 'a');
    InRun(c, DIGITS, '0');
  }

  lemma IdStartIff(c: char)
    ensures IdStart(c) <==> c in LOWER + DIGITS
  {
    InRun(c, LOWER, 'a');
    InRun(c, DIGITS, '0');
  }

  /** A digest is "sha256:" and sixty-four hexadecimal digits in lower case. */
  lemma DigestIff(d: string)
    ensures WellFormedDigest(d) <==> exists hex :: d == "sha256:" + hex && |hex| == 64 && Spelled(hex, HEX)
  {
    forall c ensures LowerHex(c) <==> c in HEX {
      LowerHexIff(c);
    }
    if WellFormedDigest(d) {
      assert d == "sha256:" + d[7..];
      assert forall i :: 0 <= i < 64 ==> d[7..][i] == d[7 + i];
    }
    if hex :| d == "sha256:" + hex && |hex| == 64 && Spelled(hex, HEX) {
      assert forall i :: 7 <= i < 71 ==> d[i] == hex[i - 7];
    }
  }

  /** A nonce is 22 to 128 characters of the URL-safe alphabet. */
  lemma NonceIff(s: string)
    ensures WellFormedNonce(s) <==> |s| >= 22 && |s| < 129 && Spelled(s, UPPER + LOWER + DIGITS + "_-")
  {
    forall c ensures NonceChar(c) <==> c in UPPER + LOWER + DIGITS + "_-" {
      NonceCharIff(c);
    }
  }

  lemma IdCharIff(c: char)
    ensures IdStart(c) || c == '.' || c == '_' || c == '-' <==> c in LOWER + DIGITS + "._-"
  {
    IdStartIff(c);
  }

  lemma SpelledAs(s: string, alphabet: string, p: char -> bool)
    requires forall c :: p(c) <==> c in alphabet
    ensures Spelled(s, alphabet) <==> forall i :: 0 <= i < |s| ==> p(s[i])
  {
  }

  /** A character of an identifier after the first. */
  predicate IdChar(c: char) {
    IdStart(c) || c == '.' || c == '_' || c == '-'
  }

  /** An identifier starts with a lower-case letter or digit, goes on with those, dots, underscores and dashes, and
      has 3 to 128 characters. */
  lemma IdIff(s: string)
    ensures WellFormedId(s) <==>
            3 <= |s| && |s| < 129 && s[0] in LOWER + DIGITS && Spelled(s[1..], LOWER + DIGITS + "._-")
  {
    forall c ensures IdChar(c) <==> c in LOWER + DIGITS + "._-" {
      IdCharIff(c);
    }
    if |s| > 0 {
      IdStartIff(s[0]);
      SpelledAs(s[1..], LOWER + DIGITS + "._-", c => IdChar(c));
      TailIff(s);
    }
  }

  lemma TailIff(s: string)
    requires |s| > 0
    ensures (forall i :: 0 <= i < |s[1..]| ==> IdChar(s[1..][i]))
       <==> forall i :: 1 <= i < |s| ==> IdStart(s[i]) || s[i] == '.' || s[i] == '_' || s[i] == '-'
  {
    assert forall i :: 0 <= i < |s| - 1 ==> s[1..][i] == s[i + 1];
    assert forall i :: 1 <= i < |s| ==> s[i] == s[1..][i - 1];
  }

  predicate HexGroup(s: string, from: nat, until: nat)
    requires from <= until <= |s|
  {
    Spelled(s[from..until], HEX)
  }

  lemma HexGroupIff(s: string, from: nat, until: nat)
    requires from <= until <= |s|
    ensures HexGroup(s, from, until) <==> forall i :: from <= i < until ==> LowerHex(s[i])
  {
    forall c ensures LowerHex(c) <==> c in HEX {
      LowerHexIff(c);
    }
    SpelledAs(s[from..until], HEX, c => LowerHex(c));
    assert forall i :: from <= i < until ==> s[i] == s[from..until][i - from];
  }

  /** A UUID is five groups of hexadecimal digits joined by dashes: 8, 4, 4, 4 and 12 of them. */
  lemma UuidIff(s: string)
    ensures CanonicalUuid(s) <==>
            |s| == 8 + 1 + 4 + 1 + 4 + 1 + 4 + 1 + 12
            && HexGroup(s, 0, 8) && s[8] == '-' && HexGroup(s, 9, 13) && s[13] == '-' && HexGroup(s, 14, 18) && s[18] == '-'
            && HexGroup(s, 19, 23) && s[23] == '-' && HexGroup(s, 24, 36)
  {
    if |s| == 36 {
      HexGroupIff(s, 0, 8);
      HexGroupIff(s, 9, 13);
      HexGroupIff(s, 14, 18);
      HexGroupIff(s, 19, 23);
      HexGroupIff(s, 24, 36);
    }
  }

  /** The characters that `str.isspace` accepts, up to U+1680 and from U+2000 on. */
  const SPACES: string := "\t\n\U{B}\U{C}\r\U{1C}\U{1D}\U{1E}\U{1F} \U{85}\U{A0}\U{1680}"
  const WIDE_SPACES: string :=
    "\U{2000}\U{2001}\U{2002}\U{2003}\U{2004}\U{2005}\U{2006}\U{2007}\U{2008}\U{2009}\U{200A}\U{2028}\U{2029}\U{202F}\U{205F}\U{3000}"

  lemma NarrowSpaceIff(c: char)
    ensures c in SPACES <==> IsSpace(c) && c <= '\U{1680}'
  {
    InRun(c, "\t\n\U{B}\U{C}\r", '\t');
    InRun(c, "\U{1C}\U{1D}\U{1E}\U{1F} ", '\U{1C}');
    assert SPACES == "\t\n\U{B}\U{C}\r" + "\U{1C}\U{1D}\U{1E}\U{1F} " + "\U{85}\U{A0}\U{1680}";
  }

  lemma WideSpaceIff(c: char)
    ensures c in WIDE_SPACES <==> IsSpace(c) && c > '\U{1680}'
  {
    InRun(c, "\U{2000}\U{2001}\U{2002}\U{2003}\U{2004}\U{2005}\U{2006}\U{2007}\U{2008}\U{2009}\U{200A}", '\U{2000}');
    assert WIDE_SPACES ==
           "\U{2000}\U{2001}\U{2002}\U{2003}\U{2004}\U{2005}\U{2006}\U{2007}\U{2008}\U{2009}\U{200A}"
           + "\U{2028}\U{2029}\U{202F}\U{205F}\U{3000}";
  }

  /** White space, character by character. */
  lemma SpaceIff(c: char)
    ensures IsSpace(c) <==> c in SPACES || c in WIDE_SPACES
  {
    NarrowSpaceIff(c);
    WideSpaceIff(c);
  }
}
