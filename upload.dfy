/**
 * POST /api/v1/admin/companies/upload after the file has been received:
 * the admin check and the summary of the CSV text.
 */
module CompanyUpload {
  import opened Common

  /** `s.split(sep)` for a one-character separator. */
  function Split(s: string, sep: char): (parts: seq<string>)
    ensures |parts| >= 1
    ensures forall i | 0 <= i < |parts| :: sep !in parts[i]
    decreases |s|
  {
    if s == [] then [[]]
    else
      var rest := Split(s[1..], sep);
      if s[0] == sep then [[]] + rest
      else [[s[0]] + rest[0]] + rest[1..]
  }

  /** `parts.join(sep)`. */
  function Join(parts: seq<string>, sep: char): string
    decreases |parts|
  {
    if parts == [] then [] else if |parts| == 1 then parts[0] else parts[0] + [sep] + Join(parts[1..], sep)
  }

  /** Splitting loses nothing: joining the pieces back gives the text. */
  lemma {:induction false} JoinSplit(s: string, sep: char)
    ensures Join(Split(s, sep), sep) == s
    decreases |s|
  {
    if s != [] {
      var rest := Split(s[1..], sep);
      JoinSplit(s[1..], sep);
      if s[0] == sep {
        assert ([[]] + rest)[1..] == rest;
      } else {
        var parts := [[s[0]] + rest[0]] + rest[1..];
        assert parts[1..] == rest[1..];
        if |rest| > 1 {
          assert Join(rest, sep) == rest[0] + [sep] + Join(rest[1..], sep);
        }
      }
    }
  }

  /** A separator at the end adds one empty piece. */
  lemma {:induction false} SplitTrailing(s: string, sep: char)
    ensures Split(s + [sep], sep) == Split(s, sep) + [[]]
    decreases |s|
  {
    if s == [] {
      assert Split([sep], sep) == [[]] + Split([], sep);
    } else {
      SplitTrailing(s[1..], sep);
      assert (s + [sep])[1..] == s[1..] + [sep];
    }
  }

  /** The characters `String.prototype.trim` removes: white space and line terminators. */
  predicate IsTrimmed(c: char) {
    c == '\t' || c == '\n' || c == '\U{B}' || c == '\U{C}' || c == '\r' || c == ' '
    || c == '\U{A0}' || c == '\U{1680}' || ('\U{2000}' <= c <= '\U{200A}')
    || c == '\U{2028}' || c == '\U{2029}' || c == '\U{202F}' || c == '\U{205F}'
    || c == '\U{3000}' || c == '\U{FEFF}'
  }

  /** `line.trim()` is falsy: nothing but white space. */
  predicate IsBlank(line: string) {
    forall i | 0 <= i < |line| :: IsTrimmed(line[i])
  }

  /**
   * Blank lines: the empty line, white space alone, the `\r` a Windows line
   * ending leaves behind, and the no-break space and byte-order mark; a line
   * with any other character is kept.
   */
  lemma BlankExamples()
    ensures IsBlank("") && IsBlank(" \t ") && IsBlank("\r") && IsBlank("\U{A0}\U{FEFF}")
    ensures !IsBlank(" a ") && !IsBlank(",")
  {
    assert !IsTrimmed(" a "[1]);
    assert !IsTrimmed(","[0]);
  }

  function DropBlank(lines: seq<string>): (r: seq<string>)
    ensures forall i | 0 <= i < |r| :: !IsBlank(r[i])
    ensures |r| <= |lines|
    decreases |lines|
  {
    if lines == [] then []
    else (if IsBlank(lines[0]) then [] else [lines[0]]) + DropBlank(lines[1..])
  }

  lemma {:induction false} DropBlankAppend(a: seq<string>, b: seq<string>)
    ensures DropBlank(a + b) == DropBlank(a) + DropBlank(b)
    decreases |a|
  {
    if a == [] {
      assert a + b == b;
    } else {
      DropBlankAppend(a[1..], b);
      assert (a + b)[1..] == a[1..] + b;
    }
  }

  /** The filter keeps every non-blank line, as often as it occurs, and nothing else. */
  lemma {:induction false} DropBlankMultiset(lines: seq<string>)
    ensures forall l :: multiset(DropBlank(lines))[l] == if IsBlank(l) then 0 else multiset(lines)[l]
    decreases |lines|
  {
    if lines != [] {
      var tail := lines[1..];
      DropBlankMultiset(tail);
      assert lines == [lines[0]] + tail;
      assert multiset(lines) == multiset{lines[0]} + multiset(tail);
      var head := if IsBlank(lines[0]) then [] else [lines[0]];
      assert multiset(DropBlank(lines)) == multiset(head) + multiset(DropBlank(tail));
    }
  }

  /** The filter keeps the order: its first element is the first non-blank line, when there is one. */
  lemma {:induction false} DropBlankFirst(lines: seq<string>, k: nat)
    requires k < |lines| && !IsBlank(lines[k])
    requires forall i | 0 <= i < k :: IsBlank(lines[i])
    ensures DropBlank(lines) != [] && DropBlank(lines)[0] == lines[k]
    ensures DropBlank(lines)[1..] == DropBlank(lines[k + 1..])
    decreases k
  {
    if k > 0 {
      DropBlankFirst(lines[1..], k - 1);
      assert lines[1..][k..] == lines[k + 1..];
    }
  }

  /** `fileContent.split('\n').filter(line => line.trim())`. */
  function Lines(content: string): (r: seq<string>)
    ensures forall i | 0 <= i < |r| :: !IsBlank(r[i]) && '\n' !in r[i]
  {
    var parts := Split(content, '\n');
    DropBlankMultiset(parts);
    assert forall i | 0 <= i < |DropBlank(parts)| :: DropBlank(parts)[i] in multiset(parts);
    DropBlank(parts)
  }

  /**
   * ASCII case folding. Outside ASCII, Unicode lower-cases only the Kelvin
   * sign (to `k`) and the capital I with dot (to `i` and a combining dot)
   * into text with ASCII letters; no column name contains `k`, and in none
   * is an `i` followed by the combining dot, so for the header check this
   * agrees with `toLowerCase`.
   */
  function Lower(s: string): (r: string)
    ensures |r| == |s|
    ensures forall i | 0 <= i < |r| :: !('A' <= r[i] <= 'Z')
    ensures forall i | 0 <= i < |s| :: !('A' <= s[i] <= 'Z') ==> r[i] == s[i]
    ensures forall i | 0 <= i < |s| :: 'A' <= s[i] <= 'Z' ==> 'a' <= r[i] <= 'z' && r[i] as int - s[i] as int == 32
  {
    seq(|s|, i requires 0 <= i < |s| => LowerChar(s[i]))
  }

  predicate StartsWith(s: string, w: string) {
    |w| <= |s| && s[..|w|] == w
  }

  /** `s.includes(w)`. */
  predicate Includes(s: string, w: string): (b: bool)
    ensures b ==> |w| <= |s|
    ensures w == [] ==> b
    decreases |s|
  {
    StartsWith(s, w) || (s != [] && Includes(s[1..], w))
  }

  /** `w` occurs in `s` starting at offset `k`. */
  predicate OccursAt(s: string, w: string, k: nat) {
    k + |w| <= |s| && s[k..k + |w|] == w
  }

  /** A string includes only what fits in it. */
  lemma {:induction false} IncludesLength(s: string, w: string)
    ensures Includes(s, w) ==> |w| <= |s|
    decreases |s|
  {
    if s != [] {
      IncludesLength(s[1..], w);
    }
  }

  /** `Includes` is `String.prototype.includes`: `w` occurs in `s` at some offset. */
  lemma {:induction false} IncludesIff(s: string, w: string)
    ensures Includes(s, w) <==> exists k: nat :: OccursAt(s, w, k)
    decreases |s|
  {
    if Includes(s, w) {
      if StartsWith(s, w) {
        assert OccursAt(s, w, 0);
      } else {
        IncludesIff(s[1..], w);
        var k: nat :| OccursAt(s[1..], w, k);
        assert s[1..][k..k + |w|] == s[k + 1..k + 1 + |w|];
        assert OccursAt(s, w, k + 1);
      }
    }
    if exists k: nat :: OccursAt(s, w, k) {
      var k: nat :| OccursAt(s, w, k);
      assert s[k..][..|w|] == s[k..k + |w|];
      AfterPrefix(s, w, k);
    }
  }

  /** Whatever surrounds it, a string includes `w` when `w` is written in it. */
  lemma IncludesInContext(p: string, w: string, q: string)
    ensures Includes(p + w + q, w)
  {
    var s := p + w + q;
    assert s[|p|..][..|w|] == w;
    AfterPrefix(s, w, |p|);
  }

  /** `header.toLowerCase()` includes all three column names. */
  predicate HeaderOk(header: string): (ok: bool)
    ensures ok <==>
      && (exists k: nat :: OccursAt(Lower(header), "companyname", k))
      && (exists k: nat :: OccursAt(Lower(header), "isin", k))
      && (exists k: nat :: OccursAt(Lower(header), "sector", k))
    ensures ok ==> |header| >= |"companyname"|
  {
    var h := Lower(header);
    IncludesLength(h, "companyname");
    IncludesIff(h, "companyname");
    IncludesIff(h, "isin");
    IncludesIff(h, "sector");
    Includes(h, "companyname") && Includes(h, "isin") && Includes(h, "sector")
  }

  /** Header matching sees only the lower-cased text: two headers that differ only in letter case pass or fail together. */
  lemma HeaderIgnoresCase(a: string, b: string)
    requires Lower(a) == Lower(b)
    ensures HeaderOk(a) == HeaderOk(b)
  {
  }

  /** A header passes whatever text, other columns included, stands before, between and after the three names. */
  lemma ColumnsInOrderPass(header: string, a: string, b: string, c: string, d: string)
    requires Lower(header) == a + "companyname" + b + "isin" + c + "sector" + d
    ensures HeaderOk(header)
  {
    var h := Lower(header);
    assert h == a + "companyname" + (b + "isin" + c + "sector" + d);
    IncludesInContext(a, "companyname", b + "isin" + c + "sector" + d);
    assert h == (a + "companyname" + b) + "isin" + (c + "sector" + d);
    IncludesInContext(a + "companyname" + b, "isin", c + "sector" + d);
    assert h == (a + "companyname" + b + "isin" + c) + "sector" + d;
    IncludesInContext(a + "companyname" + b + "isin" + c, "sector", d);
  }

  datatype RowError = RowError(row: nat, message: string)

  datatype UploadReply =
    | Forbidden                                      // 403 'Forbidden - Admin access required'
    | NoFile                                         // 400 'No file uploaded'
    | EmptyFile                                      // 400 'File is empty'
    | BadHeader                                      // 400 'Invalid CSV format - Expected columns: ...'
    | Summary(processedRows: nat, errors: seq<RowError>)

  /** The fixed validation error the summary reports for files of more than five rows. */
  const IsinError: RowError := RowError(3, "Invalid ISIN format")

  /** The summary of an uploaded text: blank lines ignored, the first line the header, the rest rows. */
  function Summarize(content: string): (r: UploadReply)
    ensures r.EmptyFile? <==> Lines(content) == []
    ensures r.BadHeader? <==> Lines(content) != [] && !HeaderOk(Lines(content)[0])
    ensures r.Summary? ==> r.processedRows + 1 == |Lines(content)| && HeaderOk(Lines(content)[0])
    ensures r.Summary? ==> (r.errors == [IsinError] <==> r.processedRows > 5) && (r.errors == [] <==> r.processedRows <= 5)
    ensures !r.Forbidden? && !r.NoFile?
  {
    var lines := Lines(content);
    if |lines| == 0 then EmptyFile
    else if !HeaderOk(lines[0]) then BadHeader
    else
      var processedRows := |lines| - 1;
      Summary(processedRows, if processedRows > 5 then [IsinError] else [])
  }

  /** A trailing newline does not change the summary. */
  lemma TrailingNewlineIgnored(content: string)
    ensures Summarize(content + "\n") == Summarize(content)
  {
    SplitTrailing(content, '\n');
    DropBlankAppend(Split(content, '\n'), [[]]);
    assert DropBlank([[]]) == [];
    assert Lines(content + "\n") == Lines(content);
  }

  /** The whole route: `requireAdmin`, then the file check, then the summary. */
  function Upload(role: string, file: Option<string>): (r: UploadReply)
    ensures r == Forbidden <==> role != "Admin"
    ensures r == NoFile <==> role == "Admin" && file.None?
    ensures role == "Admin" && file.Some? ==> r == Summarize(file.value)
  {
    if role != "Admin" then Forbidden
    else if file.None? then NoFile
    else Summarize(file.value)
  }

  /** The header `CompanyName,ISIN,Sector` passes. */
  lemma HeaderExample()
    ensures HeaderOk("CompanyName,ISIN,Sector")
  {
    var header := "CompanyName,ISIN,Sector";
    FoldsTo(header, "companyname,isin,sector");
    ColumnsInOrderPass(header, [], ",", ",", []);
  }

  /** The header `id,CompanyName,Country,ISIN,Sector,Notes` passes. */
  lemma HeaderWithExtraColumns()
    ensures HeaderOk("id,CompanyName,Country,ISIN,Sector,Notes")
  {
    ExtraColumnsLowered();
    ExtraColumnsPieces();
    ColumnsInOrderPass("id,CompanyName,Country,ISIN,Sector,Notes", "id,", ",country,", ",", ",notes");
  }

  /** The lower-cased text of that header. */
  lemma ExtraColumnsLowered()
    ensures Lower("id,CompanyName,Country,ISIN,Sector,Notes") == "id,companyname,country,isin,sector,notes"
  {
    FoldsTo("id,CompanyName,Country,ISIN,Sector,Notes", "id,companyname,country,isin,sector,notes");
  }

  /** That text, cut around the three names. */
  lemma ExtraColumnsPieces()
    ensures "id,companyname,country,isin,sector,notes" == "id," + "companyname" + ",country," + "isin" + "," + "sector" + ",notes"
  {
  }

  /** `Lower(s) == t`, checked character by character. */
  lemma FoldsTo(s: string, t: string)
    requires |s| == |t|
    requires forall i | 0 <= i < |s| :: t[i] == if 'A' <= s[i] <= 'Z' then (s[i] as int + 32) as char else s[i]
    ensures Lower(s) == t
  {
  }

  /** A string includes `w` when `w` starts at offset `k`. */
  lemma {:induction false} AfterPrefix(s: string, w: string, k: nat)
    requires k <= |s| && StartsWith(s[k..], w)
    ensures Includes(s, w)
    decreases k
  {
    if k > 0 {
      assert s[1..][k - 1..] == s[k..];
      AfterPrefix(s[1..], w, k - 1);
    }
  }
}
