/** The capsule's checksum file: written from its files, read back line by line, compared with what is there. */
module Checksums {
  import opened Common
  import opened Text
  import opened TextLaws

  datatype Entry = Entry(digest: string, name: string)

  /** The characters of a hexadecimal digest. */
  predicate HexChar(c: char) {
    '0' <= c <= '9' || 'a' <= c <= 'f'
  }

  predicate Hex(d: string) {
    d != "" && forall i :: 0 <= i < |d| ==> HexChar(d[i])
  }

  // ---- str.splitlines, after the newline translation of a text file ----

  predicate IsBreak(c: char) {
    var n := c as int;
    10 <= n <= 13 || 28 <= n <= 30 || n == 0x85 || n == 0x2028 || n == 0x2029
  }

  predicate OneLine(s: string) {
    forall i :: 0 <= i < |s| ==> !IsBreak(s[i])
  }

  function Translate(t: string): string {
    if t == "" then ""
    else if t[0] != '\r' then [t[0]] + Translate(t[1..])
    else "\n" + Translate(if |t| > 1 && t[1] == '\n' then t[2..] else t[1..])
  }

  function Lines(t: string): seq<string> {
    if t == "" then []
    else
      var rest := Lines(t[1..]);
      if IsBreak(t[0]) then [""] + rest
      else if rest == [] then [[t[0]]]
      else [[t[0]] + rest[0]] + rest[1..]
  }

  // ---- writing and reading ----

  function Row(e: Entry): string {
    e.digest + "  " + e.name
  }

  function Rows(entries: seq<Entry>): (rows: seq<string>)
    ensures |rows| == |entries| && forall i :: 0 <= i < |rows| ==> rows[i] == Row(entries[i])
  {
    seq(|entries|, i requires 0 <= i < |entries| => Row(entries[i]))
  }

  function SumsText(entries: seq<Entry>): string {
    Join("\n", Rows(entries)) + "\n"
  }

  /** line.split("  ", 1), if it has two parts. */
  function SplitOnce(line: string): Option<Entry> {
    if |line| < 2 then None
    else if line[0] == ' ' && line[1] == ' ' then Some(Entry("", line[2..]))
    else
      match SplitOnce(line[1..])
      case None => None
      case Some(e) => Some(Entry([line[0]] + e.digest, e.name))
  }

  /** The entries of the non-blank lines; None is the unpacking error. */
  function Parse(lines: seq<string>): Option<seq<Entry>> {
    if lines == [] then Some([])
    else if Strip(lines[0]) == "" then Parse(lines[1..])
    else
      match (SplitOnce(lines[0]), Parse(lines[1..]))
      case (Some(e), Some(rest)) => Some([e] + rest)
      case _ => None
  }

  function ReadSums(text: string): Option<seq<Entry>> {
    Parse(Lines(Translate(text)))
  }

  // ---- the program; `hash` is the digest of a file's content ----

  function Listed(files: map<string, string>, names: seq<string>, hash: string -> string): (entries: seq<Entry>)
    requires forall i :: 0 <= i < |names| ==> names[i] in files
    ensures |entries| == |names| && forall i :: 0 <= i < |names| ==> entries[i] == Entry(hash(files[names[i]]), names[i])
  {
    seq(|names|, i requires 0 <= i < |names| => Entry(hash(files[names[i]]), names[i]))
  }

  /** `_sha256_files`, over the sorted names. */
  method Sha256Files(files: map<string, string>, names: seq<string>, hash: string -> string) returns (rows: seq<string>)
    requires forall i :: 0 <= i < |names| ==> names[i] in files
    ensures rows == Rows(Listed(files, names, hash))
    ensures |rows| == |names| && forall i :: 0 <= i < |names| ==> rows[i] == hash(files[names[i]]) + "  " + names[i]
  {
    rows := [];
    for k := 0 to |names|
      invariant |rows| == k
      invariant forall i :: 0 <= i < k ==> rows[i] == Row(Entry(hash(files[names[i]]), names[i]))
    {
      rows := rows + [hash(files[names[k]]) + "  " + names[k]];
    }
  }

  predicate Damaged(files: map<string, string>, hash: string -> string, e: Entry) {
    e.name !in files || hash(files[e.name]) != e.digest
  }

  function Failures(files: map<string, string>, hash: string -> string, entries: seq<Entry>): seq<string> {
    if entries == [] then []
    else (if Damaged(files, hash, entries[0]) then [entries[0].name] else []) + Failures(files, hash, entries[1..])
  }

  /** `_verify`: None is the unpacking error, otherwise the names that failed, in order. */
  method Verify(text: string, files: map<string, string>, hash: string -> string) returns (failures: Option<seq<string>>)
    ensures failures == match ReadSums(text)
                        case None => None
                        case Some(entries) => Some(Failures(files, hash, entries))
  {
    var lines := Lines(Translate(text));
    var failed: seq<string> := [];
    ghost var seen: seq<Entry> := [];
    var k := 0;
    assert lines[0..] == lines && forall rest: seq<Entry> :: seen + rest == rest;
    while k < |lines|
      invariant 0 <= k <= |lines|
      invariant failed == Failures(files, hash, seen)
      invariant Parse(lines) == Prepend(seen, Parse(lines[k..]))
    {
      var line := lines[k];
      assert lines[k..][1..] == lines[k + 1..] && lines[k..][0] == line;
      k := k + 1;
      if Strip(line) != "" {
        match SplitOnce(line)
        case None =>
          return None;
        case Some(e) =>
          FailuresNext(files, hash, seen, e);
          PrependNext(seen, e, Parse(lines[k..]));
          if e.name !in files || hash(files[e.name]) != e.digest {
            failed := failed + [e.name];
          }
          seen := seen + [e];
      }
    }
    assert lines[k..] == [] && seen + [] == seen;
    return Some(failed);
  }

  function Prepend(seen: seq<Entry>, rest: Option<seq<Entry>>): Option<seq<Entry>> {
    match rest
    case None => None
    case Some(entries) => Some(seen + entries)
  }

  lemma {:induction false} PrependNext(seen: seq<Entry>, e: Entry, rest: Option<seq<Entry>>)
    ensures Prepend(seen, Prepend([e], rest)) == Prepend(seen + [e], rest)
  {
    if rest.Some? {
      assert seen + ([e] + rest.value) == seen + [e] + rest.value;
    }
  }

  lemma {:induction false} FailuresNext(files: map<string, string>, hash: string -> string, seen: seq<Entry>, e: Entry)
    ensures Failures(files, hash, seen + [e]) == Failures(files, hash, seen) + (if Damaged(files, hash, e) then [e.name] else [])
  {
    if seen == [] {
      assert seen + [e] == [e];
      assert Failures(files, hash, [e]) == (if Damaged(files, hash, e) then [e.name] else []) + Failures(files, hash, []);
    } else {
      assert (seen + [e])[1..] == seen[1..] + [e];
      FailuresNext(files, hash, seen[1..], e);
    }
  }

  // ---- lines ----

  lemma {:induction false} LinesAreClean(t: string)
    ensures forall i :: 0 <= i < |Lines(t)| ==> OneLine(Lines(t)[i])
  {
    if t != "" {
      LinesAreClean(t[1..]);
    }
  }

  lemma {:induction false} FirstLine(row: string, rest: string)
    requires OneLine(row)
    ensures Lines(row + "\n" + rest) == [row] + Lines(rest)
  {
    if row == "" {
      assert (row + "\n" + rest)[1..] == rest;
    } else {
      assert (row + "\n" + rest)[1..] == row[1..] + "\n" + rest;
      FirstLine(row[1..], rest);
      assert row == [row[0]] + row[1..];
    }
  }

  lemma {:induction false} LinesOfRows(rows: seq<string>)
    requires forall i :: 0 <= i < |rows| ==> OneLine(rows[i])
    ensures Lines(Join("\n", rows) + "\n") == if rows == [] then [""] else rows
  {
    if rows == [] {
      assert Join("\n", rows) + "\n" == "" + "\n" + "";
      FirstLine("", "");
    } else if |rows| == 1 {
      assert Join("\n", rows) + "\n" == rows[0] + "\n" + "";
      FirstLine(rows[0], "");
      assert [rows[0]] + Lines("") == rows;
    } else {
      var rest := Join("\n", rows[1..]) + "\n";
      assert Join("\n", rows) + "\n" == rows[0] + "\n" + rest;
      FirstLine(rows[0], rest);
      LinesOfRows(rows[1..]);
    }
  }

  lemma {:induction false} NothingToTranslate(t: string)
    requires '\r' !in t
    ensures Translate(t) == t
  {
    if t != "" {
      assert t[0] in t;
      NothingToTranslate(t[1..]);
    }
  }

  lemma {:induction false} JoinHasNoReturn(rows: seq<string>)
    requires forall i :: 0 <= i < |rows| ==> OneLine(rows[i])
    ensures '\r' !in Join("\n", rows)
  {
    if rows != [] {
      assert '\r' !in rows[0] by {
        assert IsBreak('\r');
      }
      if |rows| > 1 {
        JoinHasNoReturn(rows[1..]);
      }
    }
  }

  /** The characters that end a line. */
  lemma {:induction false} BreaksAre(c: char)
    ensures IsBreak(c) <==>
      c in {'\n', '\r', '\U{0b}', '\U{0c}', '\U{1c}', '\U{1d}', '\U{1e}', '\U{85}', '\U{2028}', '\U{2029}'}
  {
  }

  function Unbroken(t: string): string {
    if t == "" then "" else (if IsBreak(t[0]) then "" else [t[0]]) + Unbroken(t[1..])
  }

  function Concat(lines: seq<string>): string {
    if lines == [] then "" else lines[0] + Concat(lines[1..])
  }

  /** The lines hold every character of the text but the line breaks, in order. */
  lemma {:induction false} LinesKeepText(t: string)
    ensures Concat(Lines(t)) == Unbroken(t)
  {
    if t != "" {
      var rest := Lines(t[1..]);
      LinesKeepText(t[1..]);
      if IsBreak(t[0]) {
        assert ([""] + rest)[1..] == rest;
      } else if rest == [] {
        assert Concat([[t[0]]]) == [t[0]] + Concat([]);
      } else {
        assert ([[t[0]] + rest[0]] + rest[1..])[1..] == rest[1..];
      }
    }
  }

  /** A carriage return, alone or before a newline, reads as one newline. */
  lemma {:induction false} ReturnsTranslate(row: string, rest: string)
    requires '\r' !in row
    ensures Translate(row + "\r\n" + rest) == row + "\n" + Translate(rest)
    ensures rest == "" || rest[0] != '\n' ==> Translate(row + "\r" + rest) == row + "\n" + Translate(rest)
  {
    var crlf, cr := row + "\r\n" + rest, row + "\r" + rest;
    if row == "" {
      assert crlf[0] == '\r' && crlf[1] == '\n' && crlf[2..] == rest;
      assert cr[0] == '\r' && cr[1..] == rest;
    } else {
      assert row[0] in row && row == [row[0]] + row[1..];
      assert crlf[1..] == row[1..] + "\r\n" + rest && cr[1..] == row[1..] + "\r" + rest;
      ReturnsTranslate(row[1..], rest);
    }
  }

  /** Every row of the file ends its own line. */
  lemma {:induction false} RowEndsLine(entries: seq<Entry>)
    requires |entries| > 1
    ensures SumsText(entries) == Row(entries[0]) + "\n" + SumsText(entries[1..])
    ensures SumsText(entries[..1]) == Row(entries[0]) + "\n"
  {
    assert Rows(entries)[1..] == Rows(entries[1..]);
    assert Rows(entries[..1]) == [Row(entries[0])];
  }

  // ---- rows ----

  lemma {:induction false} SplitRow(d: string, name: string)
    requires forall i :: 0 <= i < |d| ==> d[i] != ' '
    ensures SplitOnce(d + "  " + name) == Some(Entry(d, name))
  {
    var line := d + "  " + name;
    if d == "" {
      assert line[2..] == name;
    } else {
      assert line[1..] == d[1..] + "  " + name && line[0] == d[0];
      SplitRow(d[1..], name);
      assert d == [d[0]] + d[1..];
    }
  }

  lemma {:induction false} SplitKeepsLine(line: string)
    requires OneLine(line) && SplitOnce(line).Some?
    ensures OneLine(SplitOnce(line).value.name)
  {
    if !(line[0] == ' ' && line[1] == ' ') {
      SplitKeepsLine(line[1..]);
    }
  }

  lemma {:induction false} StripRightKeepsFirst(s: string)
    requires s != "" && !IsSpace(s[0])
    ensures StripRight(s) != ""
  {
    if IsSpace(s[|s| - 1]) {
      StripRightKeepsFirst(s[..|s| - 1]);
    }
  }

  lemma {:induction false} HexIsPlain(c: char)
    requires HexChar(c)
    ensures !IsSpace(c) && !IsBreak(c) && c != ' '
  {
  }

  lemma {:induction false} RowIsOneLine(e: Entry)
    requires Hex(e.digest)
    ensures OneLine(Row(e)) <==> OneLine(e.name)
  {
    var row, n := Row(e), |e.digest|;
    forall i | 0 <= i < n + 2 ensures !IsBreak(row[i]) {
      if i < n {
        HexIsPlain(e.digest[i]);
      }
    }
    assert forall i :: 0 <= i < |e.name| ==> row[n + 2 + i] == e.name[i];
    assert forall i :: n + 2 <= i < |row| ==> row[i] == e.name[i - n - 2];
  }

  lemma {:induction false} RowIsRead(e: Entry)
    requires Hex(e.digest)
    ensures Strip(Row(e)) != "" && SplitOnce(Row(e)) == Some(e)
  {
    var row, d := Row(e), e.digest;
    forall i | 0 <= i < |d| ensures d[i] != ' ' && !IsSpace(d[i]) {
      HexIsPlain(d[i]);
    }
    assert row[0] == d[0];
    StripRightKeepsFirst(row);
    SplitRow(d, e.name);
  }

  lemma {:induction false} ParseRows(entries: seq<Entry>)
    requires forall i :: 0 <= i < |entries| ==> Hex(entries[i].digest)
    ensures Parse(Rows(entries)) == Some(entries)
  {
    if entries != [] {
      RowIsRead(entries[0]);
      assert Rows(entries)[1..] == Rows(entries[1..]);
      ParseRows(entries[1..]);
      assert entries == [entries[0]] + entries[1..];
    }
  }

  lemma {:induction false} ParsedNamesAreClean(lines: seq<string>)
    requires forall i :: 0 <= i < |lines| ==> OneLine(lines[i])
    ensures Parse(lines).Some? ==> forall i :: 0 <= i < |Parse(lines).value| ==> OneLine(Parse(lines).value[i].name)
  {
    if lines != [] {
      ParsedNamesAreClean(lines[1..]);
      if SplitOnce(lines[0]).Some? {
        SplitKeepsLine(lines[0]);
      }
    }
  }

  predicate GapAt(line: string, i: int) {
    0 <= i < |line| - 1 && line[i] == ' ' && line[i + 1] == ' '
  }

  /** Two spaces in a row. */
  predicate HasGap(line: string) {
    exists i :: 0 <= i < |line| && GapAt(line, i)
  }

  lemma {:induction false} GapCons(c: char, rest: string)
    ensures HasGap([c] + rest) <==> (rest != "" && c == ' ' && rest[0] == ' ') || HasGap(rest)
  {
    var line := [c] + rest;
    if i :| 0 <= i < |line| && GapAt(line, i) {
      assert i > 0 ==> GapAt(rest, i - 1);
    }
    if j :| 0 <= j < |rest| && GapAt(rest, j) {
      assert GapAt(line, j + 1);
    }
    if rest != "" && c == ' ' && rest[0] == ' ' {
      assert GapAt(line, 0);
    }
  }

  /** A line splits exactly when it has two spaces in a row, at the first place where it does. */
  lemma {:induction false} SplitsAtFirstGap(line: string)
    ensures SplitOnce(line).Some? <==> HasGap(line)
    ensures SplitOnce(line).Some? ==>
              var e := SplitOnce(line).value;
              line == e.digest + "  " + e.name && !HasGap(e.digest + " ")
  {
    if |line| >= 2 {
      var rest := line[1..];
      assert line == [line[0]] + rest;
      GapCons(line[0], rest);
      if line[0] == ' ' && line[1] == ' ' {
        assert line == "" + "  " + line[2..];
      } else {
        SplitsAtFirstGap(rest);
        if SplitOnce(rest).Some? {
          GapGrows(line[0], SplitOnce(rest).value, rest);
        }
      }
    }
  }

  lemma {:induction false} GapGrows(c: char, e: Entry, rest: string)
    requires rest == e.digest + "  " + e.name && !HasGap(e.digest + " ") && !(c == ' ' && rest[0] == ' ')
    ensures [c] + rest == ([c] + e.digest) + "  " + e.name && !HasGap([c] + e.digest + " ")
  {
    GapCons(c, e.digest + " ");
    assert [c] + e.digest + " " == [c] + (e.digest + " ");
    assert (e.digest + " ")[0] == rest[0];
  }

  predicate Unreadable(line: string) {
    !AllSpace(line) && !HasGap(line)
  }

  /** Reading fails exactly when some line that is not blank has no two spaces in a row. */
  lemma {:induction false} ParseFails(lines: seq<string>)
    ensures Parse(lines).None? <==> exists i :: 0 <= i < |lines| && Unreadable(lines[i])
  {
    if lines != [] {
      ParseFails(lines[1..]);
      StripsToNothing(lines[0]);
      SplitsAtFirstGap(lines[0]);
      if i :| 0 <= i < |lines| && Unreadable(lines[i]) {
        assert i > 0 ==> lines[1..][i - 1] == lines[i];
      }
      if j :| 0 <= j < |lines[1..]| && Unreadable(lines[1..][j]) {
        assert lines[j + 1] == lines[1..][j];
      }
    }
  }

  /** A blank line, of whatever white space, changes nothing. */
  lemma {:induction false} BlankLinesAreSkipped(a: seq<string>, blank: string, b: seq<string>)
    requires AllSpace(blank)
    ensures Parse(a + [blank] + b) == Parse(a + b)
  {
    StripsToNothing(blank);
    var with, without := a + [blank] + b, a + b;
    if a == [] {
      assert with[0] == blank && with[1..] == b && without == b;
    } else {
      assert with[0] == a[0] && with[1..] == a[1..] + [blank] + b;
      assert without[0] == a[0] && without[1..] == a[1..] + b;
      BlankLinesAreSkipped(a[1..], blank, b);
    }
  }

  predicate CleanNames(entries: seq<Entry>) {
    forall i :: 0 <= i < |entries| ==> OneLine(entries[i].name)
  }

  /** The checksum file reads back as it was written if and only if no file name holds a line break. */
  lemma {:induction false} RoundTripCondition(entries: seq<Entry>)
    requires forall i :: 0 <= i < |entries| ==> Hex(entries[i].digest)
    ensures ReadSums(SumsText(entries)) == Some(entries) <==> CleanNames(entries)
  {
    var rows, text := Rows(entries), SumsText(entries);
    LinesAreClean(Translate(text));
    ParsedNamesAreClean(Lines(Translate(text)));
    if CleanNames(entries) {
      forall i | 0 <= i < |rows| ensures OneLine(rows[i]) {
        RowIsOneLine(entries[i]);
      }
      JoinHasNoReturn(rows);
      NothingToTranslate(text);
      LinesOfRows(rows);
      ParseRows(entries);
    }
  }

  // ---- what verification detects ----

  predicate FailsAt(files: map<string, string>, hash: string -> string, entries: seq<Entry>, n: string) {
    exists i :: 0 <= i < |entries| && entries[i].name == n && Damaged(files, hash, entries[i])
  }

  lemma {:induction false} FailuresExactly(files: map<string, string>, hash: string -> string, entries: seq<Entry>)
    ensures Failures(files, hash, entries) == [] <==> forall i :: 0 <= i < |entries| ==> !Damaged(files, hash, entries[i])
    ensures forall n :: (n in Failures(files, hash, entries) <==> FailsAt(files, hash, entries, n))
  {
    if entries != [] {
      FailuresExactly(files, hash, entries[1..]);
      assert entries == [entries[0]] + entries[1..];
    }
  }

  predicate Changed(before: map<string, string>, after: map<string, string>, n: string)
    requires n in before
  {
    n !in after || after[n] != before[n]
  }

  /** The file changed to a content with the same digest. */
  predicate Collides(before: map<string, string>, after: map<string, string>, hash: string -> string, n: string)
    requires n in before
  {
    n in after && after[n] != before[n] && hash(after[n]) == hash(before[n])
  }

  /** Exactly the listed files that are missing or changed fail. */
  ghost predicate DetectsChanges(
    before: map<string, string>, names: seq<string>, after: map<string, string>, failures: seq<string>)
    requires forall i :: 0 <= i < |names| ==> names[i] in before
  {
    && (forall i :: 0 <= i < |names| ==> (names[i] in failures <==> Changed(before, after, names[i])))
    && (forall n :: n in failures ==> n in names)
  }

  /** A listed file fails exactly when it is missing or its digest differs. */
  lemma {:induction false} VerifyReads(
    before: map<string, string>, names: seq<string>, hash: string -> string, after: map<string, string>)
    requires forall i :: 0 <= i < |names| ==> names[i] in before && OneLine(names[i])
    requires forall c :: Hex(hash(c))
    ensures var entries := Listed(before, names, hash);
            && ReadSums(SumsText(entries)) == Some(entries)
            && (forall n :: n in Failures(after, hash, entries) ==> n in names)
            && (forall i :: 0 <= i < |names| ==>
                 (names[i] in Failures(after, hash, entries)
                  <==> names[i] !in after || hash(after[names[i]]) != hash(before[names[i]])))
  {
    var entries := Listed(before, names, hash);
    RoundTripCondition(entries);
    FailuresExactly(after, hash, entries);
    forall i | 0 <= i < |names|
      ensures names[i] in Failures(after, hash, entries)
         <==> names[i] !in after || hash(after[names[i]]) != hash(before[names[i]])
    {
      assert entries[i].name == names[i];
    }
  }

  /**
   * Verifying a capsule against its own checksum file reports exactly the missing and the changed files,
   * if and only if no listed file changed to a content with the same digest.
   */
  lemma {:induction false} VerifyDetectsExactly(
    before: map<string, string>, names: seq<string>, hash: string -> string, after: map<string, string>)
    requires forall i :: 0 <= i < |names| ==> names[i] in before && OneLine(names[i])
    requires forall c :: Hex(hash(c))
    ensures var read := ReadSums(SumsText(Listed(before, names, hash)));
            && read.Some?
            && (DetectsChanges(before, names, after, Failures(after, hash, read.value))
                <==> forall i :: 0 <= i < |names| ==> !Collides(before, after, hash, names[i]))
  {
    VerifyReads(before, names, hash, after);
    var failures := Failures(after, hash, Listed(before, names, hash));
    forall i | 0 <= i < |names|
      ensures (names[i] in failures <==> Changed(before, after, names[i])) <==> !Collides(before, after, hash, names[i])
    {
    }
  }
}
