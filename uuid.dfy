/**
 * The job-identifier check of GET /api/v1/qa/:jobId: the textual form of a
 * version-4 UUID (RFC 9562 section 5.4, formerly RFC 4122 section 4.4),
 * 8-4-4-4-12 hexadecimal digits, version digit `4`, variant digit one of
 * 8, 9, a, b, letters in either case.
 */
module Uuid {
  import opened Common

  predicate IsHex(c: char) {
    '0' <= c <= '9' || 'a' <= c <= 'f' || 'A' <= c <= 'F'
  }

  predicate IsVariantDigit(c: char) {
    c == '8' || c == '9' || c == 'a' || c == 'b' || c == 'A' || c == 'B'
  }

  /** What the case-insensitive pattern demands of the character at position i. */
  predicate FitsAt(i: nat, c: char) {
    if i == 8 || i == 13 || i == 18 || i == 23 then c == '-'
    else if i == 14 then c == '4'
    else if i == 19 then IsVariantDigit(c)
    else IsHex(c)
  }

  /** The anchored match of the pattern against the whole string. */
  predicate IsUuidV4(s: string): (b: bool)
    ensures b ==> |s| == 36 && s[8] == s[13] == s[18] == s[23] == '-' && s[14] == '4' && IsVariantDigit(s[19])
    ensures b ==> forall i | 0 <= i < |s| && s[i] != '-' :: IsHex(s[i])
  {
    |s| == 36 && forall i | 0 <= i < 36 :: FitsAt(i, s[i])
  }

  predicate AllHex(s: string) {
    forall i | 0 <= i < |s| :: IsHex(s[i])
  }

  /**
   * A UUID v4 taken apart along the pattern: the free hexadecimal groups and
   * the variant digit; the hyphens and the version digit are fixed.
   */
  datatype Groups = Groups(
    timeLow: string,
    timeMid: string,
    timeHi: string,
    variant: char,
    clockSeq: string,
    node: string)

  predicate WellFormed(g: Groups) {
    && |g.timeLow| == 8 && AllHex(g.timeLow)
    && |g.timeMid| == 4 && AllHex(g.timeMid)
    && |g.timeHi| == 3 && AllHex(g.timeHi)
    && IsVariantDigit(g.variant)
    && |g.clockSeq| == 3 && AllHex(g.clockSeq)
    && |g.node| == 12 && AllHex(g.node)
  }

  /** The text the pattern describes, group by group. */
  function Format(g: Groups): string {
    g.timeLow + "-" + g.timeMid + "-4" + g.timeHi + "-" + [g.variant] + g.clockSeq + "-" + g.node
  }

  function Parse(s: string): (g: Groups)
    requires |s| == 36
  {
    Groups(s[0..8], s[9..13], s[15..18], s[19], s[20..23], s[24..36])
  }

  /** Every string the pattern describes is accepted. */
  lemma FormatAccepted(g: Groups)
    requires WellFormed(g)
    ensures IsUuidV4(Format(g))
  {
  }

  /** Every accepted string is one the pattern describes: it splits into well-formed groups that rebuild it. */
  lemma AcceptedIsFormatted(s: string)
    requires IsUuidV4(s)
    ensures WellFormed(Parse(s)) && Format(Parse(s)) == s
  {
  }

  /** The check accepts a string exactly when some well-formed grouping formats to it. */
  lemma AcceptsExactlyThePattern(s: string)
    ensures IsUuidV4(s) <==> (|s| == 36 && WellFormed(Parse(s)) && Format(Parse(s)) == s)
  {
  }

  /** Letters are matched in either case. */
  lemma UpperCaseAccepted()
    ensures IsUuidV4("123E4567-E89B-4D3A-A456-426614174000")
    ensures IsUuidV4("123e4567-e89b-4d3a-a456-426614174000")
  {
    var upper, lower := "123E4567-E89B-4D3A-A456-426614174000", "123e4567-e89b-4d3a-a456-426614174000";
    assert forall i | 0 <= i < 36 :: FitsAt(i, upper[i]);
    assert forall i | 0 <= i < 36 :: FitsAt(i, lower[i]);
  }

  /** The match ignores letter case: two strings equal up to ASCII case folding are both accepted or both rejected. */
  lemma CaseInsensitive(s: string, t: string)
    requires |s| == |t| && forall i | 0 <= i < |s| :: LowerChar(s[i]) == LowerChar(t[i])
    ensures IsUuidV4(s) == IsUuidV4(t)
  {
  }

  /** A wrong shape, a version digit other than 4 and a variant digit outside 8-b are rejected. */
  lemma Rejections()
    ensures !IsUuidV4("not-a-uuid")
    ensures !IsUuidV4("123e4567-e89b-1d3a-a456-426614174000")
    ensures !IsUuidV4("123e4567-e89b-4d3a-c456-426614174000")
    ensures !IsUuidV4("123e4567-e89b-4d3a-a456-4266141740000")
  {
    assert !FitsAt(14, "123e4567-e89b-1d3a-a456-426614174000"[14]);
    assert !FitsAt(19, "123e4567-e89b-4d3a-c456-426614174000"[19]);
  }
}
