/** The string shapes that records of every component are checked against. */
module Identifiers {

  predicate LowerHex(c: char) {
    '0' <= c <= '9' || 'a' <= c <= 'f'
  }

  /** `sha256:` followed by 64 lower-case hexadecimal digits. */
  predicate WellFormedDigest(d: string) {
    |d| == 71 && d[..7] == "sha256:" && forall i :: 7 <= i < 71 ==> LowerHex(d[i])
  }

  predicate IdStart(c: char) {
    'a' <= c <= 'z' || '0' <= c <= '9'
  }

  /** A lower-case identifier of 3 to 128 characters. */
  predicate WellFormedId(s: string) {
    && 3 <= |s| <= 128
    && IdStart(s[0])
    && forall i :: 1 <= i < |s| ==> IdStart(s[i]) || s[i] == '.' || s[i] == '_' || s[i] == '-'
  }
}
