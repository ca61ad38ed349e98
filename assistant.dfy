/**
 * The roster part of the assistant panel (components/AssistantView.tsx): the
 * CSV import loop in `handleFileUpload`, the participant context appended to
 * the project context in `handleSend`, and `clearParticipants`.
 */
module Assistant {
  import opened Types
  import opened Text
  import Constants

  // ---------------------------------------------------------------------
  // The CSV roster parser

  /** A participant from the first five columns, each trimmed; others are ignored. */
  function FromColumns(cols: seq<string>): (p: Participant)
    requires |cols| >= 5
    ensures Trimmed(p.name) && Trimmed(p.email) && Trimmed(p.department)
    ensures Trimmed(p.sessionDate) && Trimmed(p.time)
  {
    Participant(Trim(cols[0]), Trim(cols[1]), Trim(cols[2]), Trim(cols[3]), Trim(cols[4]))
  }

  /** One pass of the loop body: trim, skip if empty, split on ',', keep if five columns. */
  function ParseLine(raw: string): (r: Option<Participant>)
    ensures AllSpace(raw) ==> r == None
  {
    var line := Trim(raw);
    if line == "" then None
    else
      var columns := Split(line, ',');
      if |columns| >= 5 then Some(FromColumns(columns)) else None
  }

  /** A parsed participant's fields are trimmed and hold no comma. */
  lemma ParsedPortable(raw: string)
    ensures ParseLine(raw).Some? ==> Portable(ParseLine(raw).value)
  {
    var columns := Split(Trim(raw), ',');
    if Trim(raw) != "" && |columns| >= 5 {
      var p := FromColumns(columns);
      assert ParseLine(raw) == Some(p);
      forall k | 0 <= k < 5 ensures Trimmed(Fields(p)[k]) && ',' !in Fields(p)[k] {
        assert Fields(p)[k] == Trim(columns[k]);
        TrimPreservesAbsence(columns[k], ',');
      }
    }
  }

  /** The five fields in the column order of the CSV file. */
  function Fields(p: Participant): (r: seq<string>)
    ensures |r| == 5
  {
    [p.name, p.email, p.department, p.sessionDate, p.time]
  }

  /** Fields that a CSV line carries unchanged: trimmed and free of commas. */
  predicate Portable(p: Participant) {
    forall k :: 0 <= k < 5 ==> Trimmed(Fields(p)[k]) && ',' !in Fields(p)[k]
  }

  /** What one line contributes to the roster: one participant or nothing. */
  function Row(raw: string): (r: seq<Participant>)
    ensures |r| <= 1
  {
    match ParseLine(raw)
    case Some(p) => [p]
    case None => []
  }

  /** The participants of the data lines, in line order. */
  function ParseLines(lines: seq<string>): (r: seq<Participant>)
    ensures |r| <= |lines|
  {
    if |lines| == 0 then [] else Row(lines[0]) + ParseLines(lines[1..])
  }

  /** The roster a file's text yields: line 0 is dropped whatever it holds. */
  function Roster(text: string): (r: seq<Participant>)
    ensures |r| < |Split(text, '\n')|
    ensures '\n' !in text ==> r == []
  {
    SplitSingle(text);
    ParseLines(Split(text, '\n')[1..])
  }

  lemma SplitSingle(text: string)
    ensures '\n' !in text ==> |Split(text, '\n')| == 1
  {
    if '\n' !in text {
      SplitNoSeparator(text, '\n');
    }
  }

  /** A roster keeps input order: the lines of a concatenation parse in turn. */
  lemma {:induction false} ParseLinesConcat(a: seq<string>, b: seq<string>)
    ensures ParseLines(a + b) == ParseLines(a) + ParseLines(b)
  {
    if |a| > 0 {
      assert (a + b)[1..] == a[1..] + b;
      ParseLinesConcat(a[1..], b);
    } else {
      assert a + b == b;
    }
  }

  /** The parsing loop, accumulating into `parsed` as the source's `for` loop does. */
  method ParseRoster(text: string) returns (parsed: seq<Participant>)
    ensures parsed == Roster(text)
  {
    var lines := Split(text, '\n');
    parsed := [];
    for i := 1 to |lines|
      invariant parsed == ParseLines(lines[1..i])
    {
      RosterStep(lines, i);
      var line := Trim(lines[i]);
      if line == "" {
        continue;
      }
      var columns := Split(line, ',');
      if |columns| >= 5 {
        parsed := parsed + [Participant(
          Trim(columns[0]), Trim(columns[1]), Trim(columns[2]), Trim(columns[3]), Trim(columns[4]))];
      }
    }
    assert lines[1..|lines|] == lines[1..];
  }

  /** One more line of the loop appends that line's row. */
  lemma RosterStep(lines: seq<string>, i: nat)
    requires 1 <= i < |lines|
    ensures ParseLines(lines[1..i + 1]) == ParseLines(lines[1..i]) + Row(lines[i])
  {
    assert lines[1..i + 1] == lines[1..i] + [lines[i]];
    ParseLinesConcat(lines[1..i], [lines[i]]);
    assert ParseLines([lines[i]]) == Row(lines[i]) + ParseLines([]);
  }

  // ---------------------------------------------------------------------
  // Properties of the parser

  /** Whatever line 0 holds, it is never parsed as a participant. */
  lemma HeaderDropped(header: string, body: string)
    requires '\n' !in header
    ensures Roster(header + "\n" + body) == ParseLines(Split(body, '\n'))
  {
    SplitAround(header, body, '\n');
    SplitNoSeparator(header, '\n');
  }

  /** A file with only a header line gives an empty roster, not an error. */
  lemma HeaderOnly(text: string)
    requires '\n' !in text
    ensures Roster(text) == []
  {
    SplitNoSeparator(text, '\n');
  }

  /**
   * Trimming the line first does not matter: a line gives a participant
   * exactly when its comma-split has five columns, built from those columns.
   */
  lemma ParseLineColumns(raw: string)
    ensures ParseLine(raw) ==
      var cols := Split(raw, ',');
      if |cols| >= 5 then Some(FromColumns(cols)) else None
  {
    var lo, hi := TrimStart(raw), TrimEnd(raw);
    var a, m, b := raw[..lo], raw[lo..hi], raw[hi..];
    assert raw == a + m + b;
    assert m == Trim(raw);
    if m == "" {
      assert AllSpace(raw);
      SpaceHasNoComma(raw);
      SplitNoSeparator(raw, ',');
    } else {
      PaddedColumns(a, m, b);
      var cols, inner := Split(raw, ','), Split(m, ',');
      assert ParseLine(raw) == if |inner| >= 5 then Some(FromColumns(inner)) else None;
      if |inner| >= 5 {
        assert FromColumns(cols) == FromColumns(inner);
      }
    }
  }

  lemma SpaceHasNoComma(s: string)
    requires AllSpace(s)
    ensures ',' !in s
  {
    assert !IsSpace(',');
  }

  /** Whitespace around a line only pads its first and last columns. */
  lemma PaddedColumns(a: string, m: string, b: string)
    requires AllSpace(a) && AllSpace(b)
    ensures |Split(a + m + b, ',')| == |Split(m, ',')|
    ensures forall k :: 0 <= k < |Split(m, ',')| ==> Trim(Split(a + m + b, ',')[k]) == Trim(Split(m, ',')[k])
  {
    SpaceHasNoComma(a);
    SpaceHasNoComma(b);
    var inner := Split(m, ',');
    var n := |inner|;
    var mid := Split(m + b, ',');
    SplitSuffix(m, b, ',');
    SplitPrefix(a, m + b, ',');
    assert a + (m + b) == a + m + b;
    var cols := Split(a + m + b, ',');
    forall k | 0 <= k < n ensures Trim(cols[k]) == Trim(inner[k]) {
      PaddedColumn(a, b, inner, mid, cols, k);
    }
  }

  lemma PaddedColumn(a: string, b: string, inner: seq<string>, mid: seq<string>, cols: seq<string>, k: nat)
    requires AllSpace(a) && AllSpace(b)
    requires |inner| == |mid| == |cols| && k < |inner|
    requires mid[..|inner| - 1] == inner[..|inner| - 1] && mid[|inner| - 1] == inner[|inner| - 1] + b
    requires cols[0] == a + mid[0] && cols[1..] == mid[1..]
    ensures Trim(cols[k]) == Trim(inner[k])
  {
    var n := |inner|;
    if k == 0 && n == 1 {
      assert cols[0] == a + inner[0] + b;
      TrimPadded(a, inner[0], b);
    } else if k == 0 {
      assert mid[0] == mid[..n - 1][0];
      assert cols[0] == a + inner[0] + [];
      TrimPadded(a, inner[0], []);
    } else if k == n - 1 {
      assert cols[k] == mid[k];
      assert cols[k] == [] + inner[k] + b;
      TrimPadded([], inner[k], b);
    } else {
      assert cols[k] == mid[k] == mid[..n - 1][k];
    }
  }

  /** A line gives a participant exactly when it holds at least four commas. */
  lemma ParseLineFieldCount(raw: string)
    ensures ParseLine(raw).Some? <==> CountChar(raw, ',') >= 4
  {
    ParseLineColumns(raw);
    SplitLength(raw, ',');
  }

  /** Columns after the fifth make no difference. */
  lemma ExtraColumnsIgnored(raw: string, extra: string)
    requires |Split(raw, ',')| >= 5
    ensures ParseLine(raw + "," + extra) == ParseLine(raw)
  {
    ParseLineColumns(raw);
    ParseLineColumns(raw + "," + extra);
    SplitAround(raw, extra, ',');
  }

  /** Each data line gives at most one participant. */
  lemma RosterBound(text: string)
    ensures |Roster(text)| <= CountChar(text, '\n')
  {
    SplitLength(text, '\n');
  }

  /**
   * A header line (for instance `Name,Email,Department,Session Date,Time`)
   * followed by one data row for Alice yields exactly her record.
   */
  lemma SampleImport(header: string, row: seq<string>)
    requires '\n' !in header
    requires row == ["Alice", "alice@x.com", "IT", "2024-01-05", "10:00"]
    ensures Roster(header + "\n" + Join(row, ","))
      == [Participant("Alice", "alice@x.com", "IT", "2024-01-05", "10:00")]
  {
    var r := Join(row, ",");
    SampleRow(row);
    HeaderDropped(header, r);
    SplitNoSeparator(r, '\n');
    assert ParseLines([r]) == Row(r) + ParseLines([]);
  }

  lemma SampleRow(row: seq<string>)
    requires row == ["Alice", "alice@x.com", "IT", "2024-01-05", "10:00"]
    ensures '\n' !in Join(row, ",")
    ensures ParseLine(Join(row, ",")) == Some(Participant("Alice", "alice@x.com", "IT", "2024-01-05", "10:00"))
  {
    assert '\n' !in row[0] && '\n' !in row[1] && '\n' !in row[2];
    assert '\n' !in row[3] && '\n' !in row[4];
    JoinNoChar(row, ",", '\n');
    assert ',' !in row[0] && ',' !in row[1] && ',' !in row[2];
    assert ',' !in row[3] && ',' !in row[4];
    ParseJoinedRow(row);
    SampleFields(row);
  }

  lemma SampleFields(row: seq<string>)
    requires row == ["Alice", "alice@x.com", "IT", "2024-01-05", "10:00"]
    ensures FromColumns(row) == Participant("Alice", "alice@x.com", "IT", "2024-01-05", "10:00")
  {
    CleanField(row[0]);
    CleanField(row[1]);
    CleanField(row[2]);
    CleanField(row[3]);
    CleanField(row[4]);
  }

  /** Joining comma-free columns with "," and parsing gives back the first five, trimmed. */
  lemma ParseJoinedRow(cols: seq<string>)
    requires |cols| >= 5
    requires forall k :: 0 <= k < |cols| ==> ',' !in cols[k]
    ensures ParseLine(Join(cols, ",")) == Some(FromColumns(cols))
  {
    ParseLineColumns(Join(cols, ","));
    SplitJoin(cols, ',');
  }

  /** A participant written as one CSV line parses back to itself. */
  lemma LineRoundTrip(p: Participant)
    requires Portable(p)
    ensures ParseLine(CsvLine(p)) == Some(p)
  {
    var cols := Fields(p);
    assert forall k :: 0 <= k < |cols| ==> ',' !in cols[k];
    ParseJoinedRow(cols);
    assert Trimmed(cols[0]) && Trimmed(cols[1]) && Trimmed(cols[2]);
    assert Trimmed(cols[3]) && Trimmed(cols[4]);
    CleanField(p.name);
    CleanField(p.email);
    CleanField(p.department);
    CleanField(p.sessionDate);
    CleanField(p.time);
  }

  /** `name,email,department,sessionDate,time`. */
  function CsvLine(p: Participant): string {
    Join(Fields(p), ",")
  }

  function CsvLines(ps: seq<Participant>): (r: seq<string>)
    ensures |r| == |ps|
    ensures forall k :: 0 <= k < |ps| ==> r[k] == CsvLine(ps[k])
  {
    if |ps| == 0 then [] else [CsvLine(ps[0])] + CsvLines(ps[1..])
  }

  /**
   * A file with any one-line header followed by one CSV line per participant
   * imports exactly those participants, in file order.
   */
  lemma RosterRoundTrip(header: string, ps: seq<Participant>)
    requires '\n' !in header
    requires forall k :: 0 <= k < |ps| ==> Portable(ps[k]) && SingleLine(ps[k])
    ensures Roster(header + "\n" + Join(CsvLines(ps), "\n")) == ps
  {
    var lines := CsvLines(ps);
    HeaderDropped(header, Join(lines, "\n"));
    if |ps| == 0 {
      EmptyBody();
    } else {
      CsvLinesSingle(ps);
      SplitJoin(lines, '\n');
      ParseCsvLines(ps);
    }
  }

  lemma EmptyBody()
    ensures ParseLines(Split(Join([], "\n"), '\n')) == []
  {
    SplitNoSeparator("", '\n');
    assert ParseLines([""]) == Row("") + ParseLines([]);
  }

  lemma CsvLinesSingle(ps: seq<Participant>)
    requires forall k :: 0 <= k < |ps| ==> SingleLine(ps[k])
    ensures forall k :: 0 <= k < |ps| ==> '\n' !in CsvLines(ps)[k]
  {
    forall k | 0 <= k < |ps| ensures '\n' !in CsvLine(ps[k]) {
      var f := Fields(ps[k]);
      assert '\n' !in f[0] && '\n' !in f[1] && '\n' !in f[2] && '\n' !in f[3] && '\n' !in f[4];
      JoinNoChar(f, ",", '\n');
    }
  }

  lemma {:induction false} ParseCsvLines(ps: seq<Participant>)
    requires forall k :: 0 <= k < |ps| ==> Portable(ps[k])
    ensures ParseLines(CsvLines(ps)) == ps
  {
    if |ps| > 0 {
      LineRoundTrip(ps[0]);
      assert CsvLines(ps)[1..] == CsvLines(ps[1..]);
      assert forall k :: 0 <= k < |ps| - 1 ==> ps[1..][k] == ps[k + 1];
      ParseCsvLines(ps[1..]);
    }
  }

  lemma CleanField(s: string)
    requires Trimmed(s)
    ensures Trim(s) == s
  {
    TrimUnique([], s, []);
    assert [] + s + [] == s;
  }

  /** Imported fields never hold a line break: the text was split on them. */
  lemma RosterSingleLine(text: string)
    ensures forall k :: 0 <= k < |Roster(text)| ==> SingleLine(Roster(text)[k])
  {
    var lines := Split(text, '\n')[1..];
    forall j | 0 <= j < |lines| ensures '\n' !in lines[j] {
      assert lines[j] == Split(text, '\n')[j + 1];
    }
    ParseLinesSingleLine(lines);
  }

  lemma {:induction false} ParseLinesSingleLine(lines: seq<string>)
    requires forall j :: 0 <= j < |lines| ==> '\n' !in lines[j]
    ensures forall k :: 0 <= k < |ParseLines(lines)| ==> SingleLine(ParseLines(lines)[k])
  {
    if |lines| > 0 {
      ParseLinesSingleLine(lines[1..]);
      var line := Trim(lines[0]);
      TrimPreservesAbsence(lines[0], '\n');
      var cols := Split(line, ',');
      forall k | 0 <= k < |cols| ensures '\n' !in Trim(cols[k]) {
        TrimPreservesAbsence(cols[k], '\n');
      }
    }
  }

  predicate SingleLine(p: Participant) {
    && '\n' !in p.name && '\n' !in p.email && '\n' !in p.department
    && '\n' !in p.sessionDate && '\n' !in p.time
  }

  // ---------------------------------------------------------------------
  // The participant context

  /** `- name (department): date at time (Email: email)`: a bullet on one line. */
  function ParticipantLine(p: Participant): (r: string)
    ensures var n, m := |p.name| + |p.department| + 7, |p.sessionDate| + 4 + |p.time|;
      && |r| == n + m + 9 + |p.email| + 1
      && r[..n] == "- " + p.name + " (" + p.department + "): "
      && r[n..n + m] == p.sessionDate + " at " + p.time
      && r[n + m..] == " (Email: " + p.email + ")"
    ensures SingleLine(p) ==> '\n' !in r
  {
    var head := "- " + p.name + " (" + p.department + "): ";
    var mid := p.sessionDate + " at " + p.time;
    var tail := " (Email: " + p.email + ")";
    Concat3(head, mid, tail);
    LineParts(p);
    NoneInParts(head, mid, tail, '\n');
    head + mid + tail
  }

  lemma LineParts(p: Participant)
    ensures SingleLine(p) ==>
      && '\n' !in "- " + p.name + " (" + p.department + "): "
      && '\n' !in p.sessionDate + " at " + p.time
      && '\n' !in " (Email: " + p.email + ")"
  {
  }

  function ParticipantLines(ps: seq<Participant>): (r: seq<string>)
    ensures |r| == |ps|
    ensures forall k :: 0 <= k < |ps| ==> r[k] == ParticipantLine(ps[k])
  {
    if |ps| == 0 then [] else [ParticipantLine(ps[0])] + ParticipantLines(ps[1..])
  }

  const RosterHeading: string := "Scheduled Participants:"

  /** The roster text `handleSend` appends: empty when nobody is imported. */
  function ParticipantContext(ps: seq<Participant>): (r: string)
    ensures r == "" <==> |ps| == 0
  {
    if |ps| > 0 then "\n" + RosterHeading + "\n" + Join(ParticipantLines(ps), "\n") else ""
  }

  /**
   * A non-empty roster context reads, line by line: an empty line, the
   * heading, then one line per participant in roster order.
   */
  lemma ParticipantContextLines(ps: seq<Participant>)
    requires |ps| > 0
    requires forall k :: 0 <= k < |ps| ==> SingleLine(ps[k])
    ensures Split(ParticipantContext(ps), '\n') == ["", RosterHeading] + ParticipantLines(ps)
  {
    ParticipantLinesSingle(ps);
    HeadingSingle();
    HeadedSplit(RosterHeading, ParticipantLines(ps));
  }

  lemma ParticipantLinesSingle(ps: seq<Participant>)
    requires forall k :: 0 <= k < |ps| ==> SingleLine(ps[k])
    ensures forall k :: 0 <= k < |ps| ==> '\n' !in ParticipantLines(ps)[k]
  {
    forall k | 0 <= k < |ps| ensures '\n' !in ParticipantLines(ps)[k] {
      assert SingleLine(ps[k]);
    }
  }

  lemma HeadingSingle()
    ensures '\n' !in RosterHeading
  {
  }

  /** `projectContext + participantContext`: the grounding text of a chat turn. */
  function FullContext(phases: seq<ProjectPhase>, ps: seq<Participant>): (r: string)
    ensures |r| >= |Constants.ProjectContext(phases)|
    ensures r[..|Constants.ProjectContext(phases)|] == Constants.ProjectContext(phases)
    ensures |ps| == 0 <==> r == Constants.ProjectContext(phases)
    ensures r[|Constants.ProjectContext(phases)|..] == ParticipantContext(ps)
    ensures |ps| > 0 && (forall k :: 0 <= k < |ps| ==> SingleLine(ps[k])) ==>
      Split(r[|Constants.ProjectContext(phases)|..], '\n') == ["", RosterHeading] + ParticipantLines(ps)
  {
    var r := Constants.ProjectContext(phases) + ParticipantContext(ps);
    assert |ps| > 0 ==> |r| > |Constants.ProjectContext(phases)|;
    assert r[|Constants.ProjectContext(phases)|..] == ParticipantContext(ps);
    RosterReadBack(ps);
    r
  }

  lemma RosterReadBack(ps: seq<Participant>)
    ensures |ps| > 0 && (forall k :: 0 <= k < |ps| ==> SingleLine(ps[k])) ==>
      Split(ParticipantContext(ps), '\n') == ["", RosterHeading] + ParticipantLines(ps)
  {
    if |ps| > 0 && (forall k :: 0 <= k < |ps| ==> SingleLine(ps[k])) {
      ParticipantContextLines(ps);
    }
  }

  // ---------------------------------------------------------------------
  // The component's roster state

  /** The `participants` state of the assistant panel. */
  class RosterSession {
    var participants: seq<Participant>

    constructor ()
      ensures participants == []
    {
      participants := [];
    }

    /** `reader.onload`: parse the file's text and replace the roster. */
    method ImportRoster(text: string) returns (imported: nat)
      modifies this
      ensures participants == Roster(text)
      ensures imported == |participants|
    {
      var parsed := ParseRoster(text);
      participants := parsed;
      imported := |parsed|;
    }

    /** `clearParticipants`. */
    method ClearParticipants()
      modifies this
      ensures participants == []
    {
      participants := [];
    }

    /** The context `handleSend` passes on for the current phases. */
    function Context(phases: seq<ProjectPhase>): (r: string)
      reads this
      ensures |r| >= |Constants.ProjectContext(phases)|
      ensures r[..|Constants.ProjectContext(phases)|] == Constants.ProjectContext(phases)
      ensures participants == [] <==> r == Constants.ProjectContext(phases)
      ensures r == FullContext(phases, participants)
    {
      FullContext(phases, participants)
    }
  }
}
