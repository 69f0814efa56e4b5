/** Reading the blob manifest in data_plane/migrate-blobs.js: splitting the CSV text
    into lines, `parseCSVLine`, and `readAthenaTableData`'s selection of the blobs
    to migrate. */
module BlobManifest {
  import opened Wrappers
  import opened Text
  import opened Dedup

  // ---------------------------------------------------------------- parseCSVLine

  /** The scanner's variables after some characters: the fields pushed so far
      (before trimming), `current` and `inQuotes`. */
  datatype ScanState = ScanState(fields: seq<string>, current: string, inQuotes: bool)

  /** One turn of the character loop: a quote toggles `inQuotes` and is dropped, a
      comma outside quotes ends the field, anything else is appended to it. */
  function ScanChar(st: ScanState, c: char): (r: ScanState)
    ensures r.inQuotes != st.inQuotes <==> c == '"'
    ensures |r.fields| == |st.fields| + (if c == ',' && !st.inQuotes then 1 else 0)
    ensures '"' !in st.current ==> '"' !in r.current
  {
    if c == '"' then st.(inQuotes := !st.inQuotes)
    else if c == ',' && !st.inQuotes then ScanState(st.fields + [st.current], "", st.inQuotes)
    else st.(current := st.current + [c])
  }

  /** The scanner's variables after reading all of `s`. */
  function Scan(s: string): (r: ScanState)
    ensures '"' !in r.current
  {
    if s == [] then ScanState([], "", false) else ScanChar(Scan(s[..|s| - 1]), s[|s| - 1])
  }

  /** The fields of a line before trimming: the pushed ones and the final `current`. */
  function RawFields(line: string): (fields: seq<string>)
    ensures |fields| >= 1
  {
    Scan(line).fields + [Scan(line).current]
  }

  /** Each field trimmed, as `parseCSVLine` pushes them. */
  function TrimAll(fields: seq<string>): (r: seq<string>)
    ensures |r| == |fields|
  {
    if fields == [] then [] else TrimAll(fields[..|fields| - 1]) + [Trim(fields[|fields| - 1])]
  }

  lemma {:induction false} TrimAllAt(fields: seq<string>, k: nat)
    requires k < |fields|
    ensures TrimAll(fields)[k] == Trim(fields[k])
  {
    if k < |fields| - 1 {
      TrimAllAt(fields[..|fields| - 1], k);
    }
  }

  /** What `parseCSVLine` returns. */
  function ParseLine(line: string): seq<string>
  {
    TrimAll(RawFields(line))
  }

  /** `line` with its double quotes dropped. */
  function Unquoted(s: string): string
  {
    if s == [] then []
    else Unquoted(s[..|s| - 1]) + (if s[|s| - 1] == '"' then [] else [s[|s| - 1]])
  }

  /** The number of double quotes in `s`. */
  function QuoteCount(s: string): nat
  {
    if s == [] then 0 else QuoteCount(s[..|s| - 1]) + (if s[|s| - 1] == '"' then 1 else 0)
  }

  /** The number of commas of `s` preceded by an even number of quotes, that is,
      outside quotes. */
  function SeparatorCount(s: string): nat
  {
    if s == [] then 0
    else
      var init := s[..|s| - 1];
      SeparatorCount(init) + (if s[|s| - 1] == ',' && QuoteCount(init) % 2 == 0 then 1 else 0)
  }

  lemma {:induction false} JoinSnoc(parts: seq<string>, p: string, sep: char)
    requires |parts| >= 1
    ensures Join(parts + [p], sep) == Join(parts, sep) + [sep] + p
  {
    if |parts| > 1 {
      assert (parts + [p])[1..] == parts[1..] + [p];
      JoinSnoc(parts[1..], p, sep);
    }
  }

  lemma {:induction false} JoinExtendLast(parts: seq<string>, p: string, c: char, sep: char)
    ensures Join(parts + [p + [c]], sep) == Join(parts + [p], sep) + [c]
  {
    if parts != [] {
      assert (parts + [p + [c]])[1..] == parts[1..] + [p + [c]];
      assert (parts + [p])[1..] == parts[1..] + [p];
      JoinExtendLast(parts[1..], p, c, sep);
    }
  }

  /** The scanner's invariant: `inQuotes` is the parity of the quotes read, the
      pushed fields are one per comma outside quotes, no field holds a quote, and
      the fields joined by commas give back the line without its quotes. */
  lemma {:induction false} ScanInvariant(s: string)
    ensures Scan(s).inQuotes <==> QuoteCount(s) % 2 == 1
    ensures |Scan(s).fields| == SeparatorCount(s)
    ensures forall k :: 0 <= k < |Scan(s).fields| ==> '"' !in Scan(s).fields[k]
    ensures '"' !in Scan(s).current
    ensures Join(RawFields(s), ',') == Unquoted(s)
  {
    if s != [] {
      var init := s[..|s| - 1];
      var c := s[|s| - 1];
      var st := Scan(init);
      ScanInvariant(init);
      if c == '"' {
      } else if c == ',' && !st.inQuotes {
        JoinSnoc(st.fields + [st.current], "", ',');
        assert st.fields + [st.current] + [""] == Scan(s).fields + [Scan(s).current];
      } else {
        JoinExtendLast(st.fields, st.current, c, ',');
      }
    }
  }

  /** `parseCSVLine` returns one field per comma outside quotes, plus one. */
  lemma ParseLineCount(line: string)
    ensures |ParseLine(line)| == SeparatorCount(line) + 1
  {
    ScanInvariant(line);
  }

  /** Commas inside quotes stay in their field: the untrimmed fields joined by commas
      are the line with only its quotes removed. */
  lemma ParseLineKeepsQuotedCommas(line: string)
    ensures Join(RawFields(line), ',') == Unquoted(line)
    ensures ParseLine(line) == TrimAll(RawFields(line))
  {
    ScanInvariant(line);
  }

  /** No field holds a double quote, and every field is trimmed. */
  lemma ParseLineFieldsAreClean(line: string, k: nat)
    requires k < |ParseLine(line)|
    ensures '"' !in ParseLine(line)[k]
    ensures Trim(ParseLine(line)[k]) == ParseLine(line)[k]
  {
    ScanInvariant(line);
    var raw := RawFields(line)[k];
    TrimAllAt(RawFields(line), k);
    assert '"' !in raw;
    if '"' in Trim(raw) {
      TrimKeepsCharacters(raw, '"');
    }
    TrimIdempotent(raw);
  }

  /** Everything the callers of `parseCSVLine` rely on, in one place. */
  lemma ParseLineProperties(line: string)
    ensures |ParseLine(line)| == SeparatorCount(line) + 1
    ensures forall k :: 0 <= k < |ParseLine(line)| ==> '"' !in ParseLine(line)[k] && Trim(ParseLine(line)[k]) == ParseLine(line)[k]
  {
    ParseLineCount(line);
    forall k | 0 <= k < |ParseLine(line)|
      ensures '"' !in ParseLine(line)[k] && Trim(ParseLine(line)[k]) == ParseLine(line)[k]
    {
      ParseLineFieldsAreClean(line, k);
    }
  }

  /** Reading one more character is one more turn of the scanner. */
  lemma ScanSnoc(s: string, c: char)
    ensures Scan(s + [c]) == ScanChar(Scan(s), c)
  {
    assert (s + [c])[..|s|] == s;
  }

  /** While the scanner is inside quotes, quote-free text, commas included, is
      appended to the current field and ends no field. */
  lemma {:induction false} ScanInsideQuotes(p: string, q: string)
    requires !Scan(p).inQuotes && '"' !in q
    ensures Scan(p + ['"'] + q) == ScanState(Scan(p).fields, Scan(p).current + q, true)
  {
    if q == [] {
      assert p + ['"'] + q == p + ['"'];
      ScanSnoc(p, '"');
    } else {
      var q0 := q[..|q| - 1];
      var c := q[|q| - 1];
      assert '"' !in q0 by {
        forall i | 0 <= i < |q0| ensures q0[i] != '"' { assert q0[i] == q[i]; }
      }
      ScanInsideQuotes(p, q0);
      assert p + ['"'] + q == (p + ['"'] + q0) + [c];
      ScanSnoc(p + ['"'] + q0, c);
      assert Scan(p).current + q0 + [c] == Scan(p).current + q;
    }
  }

  /** A quoted section read outside quotes lands whole, without its quotes, in the
      current field: a comma between the quotes never ends a field. */
  lemma QuotedSectionStaysInField(p: string, q: string)
    requires QuoteCount(p) % 2 == 0 && '"' !in q
    ensures Scan(p + ['"'] + q + ['"']) == Scan(p).(current := Scan(p).current + q)
  {
    ScanInvariant(p);
    ScanInsideQuotes(p, q);
    ScanSnoc(p + ['"'] + q, '"');
  }

  lemma ScanPrefixStep(line: string, i: nat)
    requires i < |line|
    ensures Scan(line[..i + 1]) == ScanChar(Scan(line[..i]), line[i])
  {
    assert line[..i + 1][..i] == line[..i];
  }

  lemma TrimAllSnoc(fields: seq<string>, f: string)
    ensures TrimAll(fields + [f]) == TrimAll(fields) + [Trim(f)]
  {
    assert (fields + [f])[..|fields|] == fields;
  }

  /** `parseCSVLine`: the quote-toggle character loop. */
  method ParseCsvLine(line: string) returns (result: seq<string>)
    ensures result == ParseLine(line)
    ensures |result| == SeparatorCount(line) + 1
    ensures forall k :: 0 <= k < |result| ==> '"' !in result[k]
  {
    result := [];
    var current := "";
    var inQuotes := false;
    for i := 0 to |line|
      invariant result == TrimAll(Scan(line[..i]).fields)
      invariant current == Scan(line[..i]).current
      invariant inQuotes == Scan(line[..i]).inQuotes
    {
      var ch := line[i];
      ScanPrefixStep(line, i);
      if ch == '"' {
        inQuotes := !inQuotes;
      } else if ch == ',' && !inQuotes {
        TrimAllSnoc(result, current);
        TrimAllSnoc(Scan(line[..i]).fields, current);
        result := result + [Trim(current)];
        current := "";
      } else {
        current := current + [ch];
      }
    }
    assert line[..|line|] == line;
    TrimAllSnoc(Scan(line).fields, current);
    result := result + [Trim(current)];
    ParseLineProperties(line);
  }

  // ---------------------------------------------------------------- readAthenaTableData

  /** One blob to migrate: the blob is `<entityName>.json` in `container`. */
  datatype BlobMigration = BlobMigration(entityName: string, container: string)

  /** The key the manifest is deduplicated on. */
  function EntityName(m: BlobMigration): string
  {
    m.entityName
  }

  /** The header names of the two columns the manifest needs. */
  const EntityNameColumn: string := "AthenaDbEntityName"
  const ContainerColumn: string := "Container"

  const EmptyCsvMessage: string := "CSV file is empty or has no data rows"
  const MissingColumnsMessage: string := "Required columns AthenaDbEntityName or Container not found in CSV"

  /** `lines.filter(line => line.trim())`: the lines that are not blank. */
  function NonBlank(lines: seq<string>): (r: seq<string>)
    ensures |r| <= |lines|
    ensures forall i :: 0 <= i < |r| ==> Trim(r[i]) != ""
  {
    if lines == [] then []
    else
      var last := lines[|lines| - 1];
      NonBlank(lines[..|lines| - 1]) + (if Trim(last) != "" then [last] else [])
  }

  /** One more line is kept exactly when it is not blank. */
  lemma NonBlankSnoc(init: seq<string>, last: string)
    ensures NonBlank(init + [last]) == NonBlank(init) + (if Trim(last) != "" then [last] else [])
  {
    assert (init + [last])[..|init|] == init;
  }

  /** The kept lines are the non-blank lines. */
  lemma {:induction false} NonBlankKeepsNonBlankLines(lines: seq<string>, line: string)
    ensures line in NonBlank(lines) <==> line in lines && Trim(line) != ""
  {
    if lines != [] {
      var init := lines[..|lines| - 1];
      var last := lines[|lines| - 1];
      assert lines == init + [last];
      assert line in lines <==> line in init || line == last;
      NonBlankSnoc(init, last);
      NonBlankKeepsNonBlankLines(init, line);
      if Trim(last) != "" {
        assert line in NonBlank(lines) <==> line in NonBlank(init) || line == last;
      } else {
        assert NonBlank(lines) == NonBlank(init);
      }
    }
  }

  /** The manifest's lines: split on line feeds, blank lines dropped. */
  function ManifestLines(content: string): seq<string>
  {
    NonBlank(Split(content, '\n'))
  }

  /** `headers.findIndex(h => h === name)`: the first position of `name`, or -1. */
  function FindIndex(headers: seq<string>, name: string): (r: int)
    ensures -1 <= r < |headers|
    ensures r != -1 ==> headers[r] == name
  {
    if headers == [] then -1
    else if headers[0] == name then 0
    else
      var r := FindIndex(headers[1..], name);
      if r == -1 then -1 else r + 1
  }

  /** -1 exactly when `name` is not a header; otherwise the position of its first
      occurrence. */
  lemma {:induction false} FindIndexFinds(headers: seq<string>, name: string)
    ensures FindIndex(headers, name) == -1 <==> name !in headers
    ensures FindIndex(headers, name) != -1 ==>
      var r := FindIndex(headers, name);
      0 <= r < |headers| && headers[r] == name && name !in headers[..r]
  {
    if headers != [] && headers[0] != name {
      FindIndexFinds(headers[1..], name);
      var r := FindIndex(headers[1..], name);
      assert headers == [headers[0]] + headers[1..];
      if r != -1 {
        assert headers[..r + 1] == [headers[0]] + headers[1..][..r];
      }
    }
  }

  /** `columns[index]?.trim()`: absent when the row is too short. */
  function Column(columns: seq<string>, index: nat): Option<string>
  {
    if index < |columns| then Some(Trim(columns[index])) else None
  }

  /** The row filter: entity name and container both present and non-empty, the
      container not 'ATS' and the entity name not 'NA'. */
  predicate Selectable(entityName: Option<string>, container: Option<string>)
  {
    && entityName.Some? && entityName.value != ""
    && container.Some? && container.value != ""
    && container.value != "ATS" && entityName.value != "NA"
  }

  /** The migration a data row, parsed into columns, asks for if it passes the
      row filter. */
  function RowMigration(columns: seq<string>, entityNameIndex: nat, containerIndex: nat): Option<BlobMigration>
  {
    var entityName := Column(columns, entityNameIndex);
    var container := Column(columns, containerIndex);
    if Selectable(entityName, container) then Some(BlobMigration(entityName.value, container.value)) else None
  }

  /** Each line parsed by `parseCSVLine`. */
  function ParseRows(lines: seq<string>): (rows: seq<seq<string>>)
    ensures |rows| == |lines|
  {
    if lines == [] then [] else ParseRows(lines[..|lines| - 1]) + [ParseLine(lines[|lines| - 1])]
  }

  /** Row `i` is line `i` parsed. */
  lemma {:induction false} ParseRowsAt(lines: seq<string>, i: nat)
    requires i < |lines|
    ensures ParseRows(lines)[i] == ParseLine(lines[i])
  {
    if i < |lines| - 1 {
      assert lines[..|lines| - 1][i] == lines[i];
      ParseRowsAt(lines[..|lines| - 1], i);
    }
  }

  /** The migrations the parsed data rows ask for, in row order, duplicates included. */
  function Requested(rows: seq<seq<string>>, entityNameIndex: nat, containerIndex: nat): (ms: seq<BlobMigration>)
    ensures |ms| <= |rows|
  {
    if rows == [] then []
    else
      var last := RowMigration(rows[|rows| - 1], entityNameIndex, containerIndex);
      Requested(rows[..|rows| - 1], entityNameIndex, containerIndex) + (if last.Some? then [last.value] else [])
  }

  /** `readAthenaTableData` on the manifest's non-blank lines: it needs a header and
      one data row, and a header naming both `AthenaDbEntityName` and `Container`;
      the selected rows are deduplicated on the entity name, the first row winning. */
  function ManifestOfLines(lines: seq<string>): (r: Result<seq<BlobMigration>, string>)
    ensures r.Err? ==> r.error == EmptyCsvMessage || r.error == MissingColumnsMessage
    ensures r.Ok? ==> |lines| >= 2 && EntityNameColumn in ParseLine(lines[0]) && ContainerColumn in ParseLine(lines[0])
  {
    if |lines| < 2 then Err(EmptyCsvMessage)
    else
      var headers := ParseLine(lines[0]);
      var entityNameIndex := FindIndex(headers, EntityNameColumn);
      var containerIndex := FindIndex(headers, ContainerColumn);
      if entityNameIndex == -1 || containerIndex == -1 then Err(MissingColumnsMessage)
      else Ok(Selection(lines, entityNameIndex, containerIndex))
  }

  /** The data rows' migrations, deduplicated on the entity name. */
  function Selection(lines: seq<string>, entityNameIndex: nat, containerIndex: nat): (r: seq<BlobMigration>)
    requires |lines| >= 1
    ensures |r| < |lines|
  {
    DedupBy(Requested(ParseRows(lines)[1..], entityNameIndex, containerIndex), EntityName)
  }

  /** Every selected migration passes the row filter. */
  lemma SelectionPassesFilter(lines: seq<string>, e: nat, c: nat, k: nat)
    requires |lines| >= 1 && k < |Selection(lines, e, c)|
    ensures var m := Selection(lines, e, c)[k];
      m.entityName != "" && m.container != "" && m.container != "ATS" && m.entityName != "NA"
  {
    var requested := Requested(ParseRows(lines)[1..], e, c);
    assert Selection(lines, e, c)[k] in requested;
    RequestedAreSelectable(ParseRows(lines)[1..], e, c, Selection(lines, e, c)[k]);
  }

  /** `readAthenaTableData` on the file's content. */
  function Manifest(content: string): Result<seq<BlobMigration>, string>
  {
    ManifestOfLines(ManifestLines(content))
  }

  /** One more data row adds its migration, if the row passes the filter. */
  lemma RequestedStep(rows: seq<seq<string>>, i: nat, e: nat, c: nat)
    requires 1 <= i < |rows|
    ensures Requested(rows[1..i + 1], e, c)
      == Requested(rows[1..i], e, c) + (if RowMigration(rows[i], e, c).Some? then [RowMigration(rows[i], e, c).value] else [])
  {
    assert rows[1..i + 1][..i - 1] == rows[1..i];
  }

  /** The entity names among some migrations. */
  function EntityNames(ms: seq<BlobMigration>): set<string>
  {
    set m | m in ms :: m.entityName
  }

  lemma EntityNamesOccur(ms: seq<BlobMigration>, k: string)
    ensures KeyOccurs(ms, EntityName, k) <==> k in EntityNames(ms)
  {
    if k in EntityNames(ms) {
      var m :| m in ms && m.entityName == k;
      var i :| 0 <= i < |ms| && ms[i] == m;
      assert EntityName(ms[i]) == k;
    }
  }

  /** One more data row, deduplicated: its migration is kept exactly when it passes
      the filter and its entity name is new. */
  lemma DedupStep(rows: seq<seq<string>>, i: nat, e: nat, c: nat)
    requires 1 <= i < |rows|
    ensures var before := Requested(rows[1..i], e, c);
      var selected := RowMigration(rows[i], e, c);
      DedupBy(Requested(rows[1..i + 1], e, c), EntityName)
        == (if selected.Some? && selected.value.entityName !in EntityNames(before)
            then DedupBy(before, EntityName) + [selected.value] else DedupBy(before, EntityName))
  {
    RequestedStep(rows, i, e, c);
    var before := Requested(rows[1..i], e, c);
    var selected := RowMigration(rows[i], e, c);
    if selected.Some? {
      DedupBySnoc(before, EntityName, selected.value);
      EntityNamesOccur(before, selected.value.entityName);
    } else {
      assert before + [] == before;
    }
  }

  /** The entity name a row's selection contributes, if any. */
  function SelectedNames(selected: Option<BlobMigration>): set<string>
  {
    if selected.Some? then {selected.value.entityName} else {}
  }

  /** One more data row adds its entity name to the names seen, if it passes the
      filter. */
  lemma EntityNamesStep(rows: seq<seq<string>>, i: nat, e: nat, c: nat)
    requires 1 <= i < |rows|
    ensures EntityNames(Requested(rows[1..i + 1], e, c))
      == EntityNames(Requested(rows[1..i], e, c)) + SelectedNames(RowMigration(rows[i], e, c))
  {
    RequestedStep(rows, i, e, c);
    var before := Requested(rows[1..i], e, c);
    var selected := RowMigration(rows[i], e, c);
    if selected.Some? {
      EntityNamesSnoc(before, selected.value);
    } else {
      assert before + [] == before;
    }
  }

  /** One more migration adds its entity name. */
  lemma EntityNamesSnoc(ms: seq<BlobMigration>, m: BlobMigration)
    ensures EntityNames(ms + [m]) == EntityNames(ms) + {m.entityName}
  {
    forall name | name in EntityNames(ms + [m])
      ensures name in EntityNames(ms) + {m.entityName}
    {
      var x :| x in ms + [m] && x.entityName == name;
      if x != m {
        assert x in ms;
      }
    }
  }

  lemma AddNames(seen: set<string>, selected: Option<BlobMigration>)
    requires selected.Some? ==> selected.value.entityName in seen
    ensures seen + SelectedNames(selected) == seen
  {
  }

  lemma SliceToEnd<T>(s: seq<T>, a: nat)
    requires a <= |s|
    ensures s[a..|s|] == s[a..]
  {
  }

  /** A data row through `parseCSVLine` and the row filter. */
  method SelectRow(line: string, entityNameIndex: nat, containerIndex: nat) returns (selected: Option<BlobMigration>)
    ensures selected == RowMigration(ParseLine(line), entityNameIndex, containerIndex)
  {
    var columns := ParseCsvLine(line);
    var entityName := Column(columns, entityNameIndex);
    var container := Column(columns, containerIndex);
    if Selectable(entityName, container) {
      selected := Some(BlobMigration(entityName.value, container.value));
    } else {
      selected := None;
    }
  }

  /** The data-row loop of `readAthenaTableData`: each data row is parsed and
      filtered, and kept when its entity name is not yet in the `Set` of names
      taken. */
  method SelectMigrations(lines: seq<string>, entityNameIndex: nat, containerIndex: nat)
    returns (blobMigrations: seq<BlobMigration>)
    requires |lines| >= 1
    ensures blobMigrations == Selection(lines, entityNameIndex, containerIndex)
  {
    ghost var rows := ParseRows(lines);
    blobMigrations := [];
    var seen: set<string> := {};
    for i := 1 to |lines|
      invariant blobMigrations == DedupBy(Requested(rows[1..i], entityNameIndex, containerIndex), EntityName)
      invariant seen == EntityNames(Requested(rows[1..i], entityNameIndex, containerIndex))
    {
      var selected := SelectRow(lines[i], entityNameIndex, containerIndex);
      ParseRowsAt(lines, i);
      DedupStep(rows, i, entityNameIndex, containerIndex);
      EntityNamesStep(rows, i, entityNameIndex, containerIndex);
      if selected.Some? && selected.value.entityName !in seen {
        var m := selected.value;
        seen := seen + {m.entityName};
        blobMigrations := blobMigrations + [m];
      } else {
        AddNames(seen, selected);
      }
    }
    SliceToEnd(rows, 1);
  }

  /** `readAthenaTableData` once the file's text is read: it is split into
      non-blank lines, and the header is parsed and checked before any data row is
      looked at. */
  method ReadAthenaTableData(content: string) returns (r: Result<seq<BlobMigration>, string>)
    ensures r == Manifest(content)
  {
    var lines := NonBlank(Split(content, '\n'));
    if |lines| < 2 {
      return Err(EmptyCsvMessage);
    }
    var headers := ParseCsvLine(lines[0]);
    var entityNameIndex := FindIndex(headers, EntityNameColumn);
    var containerIndex := FindIndex(headers, ContainerColumn);
    if entityNameIndex == -1 || containerIndex == -1 {
      return Err(MissingColumnsMessage);
    }
    var blobMigrations := SelectMigrations(lines, entityNameIndex, containerIndex);
    r := Ok(blobMigrations);
  }

  /** The two errors: too few non-blank lines, or a header missing a required
      column; and a manifest that loads names each entity at most once. */
  lemma ManifestErrors(lines: seq<string>)
    ensures ManifestOfLines(lines) == Err(EmptyCsvMessage) <==> |lines| < 2
    ensures ManifestOfLines(lines) == Err(MissingColumnsMessage) <==>
      |lines| >= 2 && (EntityNameColumn !in ParseLine(lines[0]) || ContainerColumn !in ParseLine(lines[0]))
    ensures ManifestOfLines(lines).Ok? ==>
      forall m, n :: 0 <= m < n < |ManifestOfLines(lines).value| ==>
        ManifestOfLines(lines).value[m].entityName != ManifestOfLines(lines).value[n].entityName
  {
    if |lines| >= 2 {
      FindIndexFinds(ParseLine(lines[0]), EntityNameColumn);
      FindIndexFinds(ParseLine(lines[0]), ContainerColumn);
    }
    if ManifestOfLines(lines).Ok? {
      var headers := ParseLine(lines[0]);
      var requested := Requested(ParseRows(lines)[1..], FindIndex(headers, EntityNameColumn), FindIndex(headers, ContainerColumn));
      forall m, n | 0 <= m < n < |ManifestOfLines(lines).value|
        ensures ManifestOfLines(lines).value[m].entityName != ManifestOfLines(lines).value[n].entityName
      {
        DedupByKeysDistinct(requested, EntityName, m, n);
      }
    }
  }

  /** A header without either required column is an error whatever the data rows
      hold: the header is checked before any row is looked at. */
  lemma HeaderCheckedBeforeRows(lines: seq<string>, other: seq<string>)
    requires |lines| >= 2 && |other| >= 2 && lines[0] == other[0]
    requires ManifestOfLines(lines).Err?
    ensures ManifestOfLines(other) == ManifestOfLines(lines) == Err(MissingColumnsMessage)
  {
  }

  /** Every requested migration comes from a data row that passes the filter. */
  lemma {:induction false} RequestedAreSelectable(rows: seq<seq<string>>, e: nat, c: nat, m: BlobMigration)
    requires m in Requested(rows, e, c)
    ensures m.entityName != "" && m.container != "" && m.container != "ATS" && m.entityName != "NA"
    ensures exists i :: 0 <= i < |rows| && RowMigration(rows[i], e, c) == Some(m)
  {
    var init := rows[..|rows| - 1];
    var last := RowMigration(rows[|rows| - 1], e, c);
    if m in Requested(init, e, c) {
      RequestedAreSelectable(init, e, c, m);
      var i :| 0 <= i < |init| && RowMigration(init[i], e, c) == Some(m);
      assert rows[i] == init[i];
    } else {
      assert last == Some(m);
    }
  }

  /** Every data row that passes the filter is requested. */
  lemma {:induction false} SelectableAreRequested(rows: seq<seq<string>>, e: nat, c: nat, i: nat)
    requires i < |rows| && RowMigration(rows[i], e, c).Some?
    ensures RowMigration(rows[i], e, c).value in Requested(rows, e, c)
  {
    if i < |rows| - 1 {
      assert rows[..|rows| - 1][i] == rows[i];
      SelectableAreRequested(rows[..|rows| - 1], e, c, i);
    }
  }

  /** The selected migrations: every one passes the row filter, and each is the
      first requested migration for its entity name, container included. */
  lemma ManifestSelection(lines: seq<string>, k: nat)
    requires ManifestOfLines(lines).Ok? && k < |ManifestOfLines(lines).value|
    ensures var m := ManifestOfLines(lines).value[k];
      var headers := ParseLine(lines[0]);
      var requested := Requested(ParseRows(lines)[1..], FindIndex(headers, EntityNameColumn), FindIndex(headers, ContainerColumn));
      && m.entityName != "" && m.container != "" && m.container != "ATS" && m.entityName != "NA"
      && KeyOccurs(requested, EntityName, m.entityName)
      && m == requested[FirstIndex(requested, EntityName, m.entityName)]
  {
    var headers := ParseLine(lines[0]);
    var e, c := FindIndex(headers, EntityNameColumn), FindIndex(headers, ContainerColumn);
    var requested := Requested(ParseRows(lines)[1..], e, c);
    DedupByKeepsFirst(requested, EntityName, k);
    var m := ManifestOfLines(lines).value[k];
    assert EntityName(m) == m.entityName;
    RequestedAreSelectable(ParseRows(lines)[1..], e, c, m);
  }

  /** A data row that passes the filter has its entity name requested; row 0 is
      the header. */
  lemma RowRequested(rows: seq<seq<string>>, e: nat, c: nat, i: nat)
    requires 1 <= i < |rows| && RowMigration(rows[i], e, c).Some?
    ensures KeyOccurs(Requested(rows[1..], e, c), EntityName, RowMigration(rows[i], e, c).value.entityName)
  {
    var data := rows[1..];
    var requested := Requested(data, e, c);
    var m := RowMigration(rows[i], e, c).value;
    assert data[i - 1] == rows[i];
    SelectableAreRequested(data, e, c, i - 1);
    var j :| 0 <= j < |requested| && requested[j] == m;
    assert EntityName(requested[j]) == m.entityName;
  }

  /** A requested entity name is kept by deduplication, at position `j`. */
  lemma SelectedAt(requested: seq<BlobMigration>, ms: seq<BlobMigration>, name: string) returns (j: nat)
    requires ms == DedupBy(requested, EntityName) && KeyOccurs(requested, EntityName, name)
    ensures j < |ms| && ms[j].entityName == name
  {
    DedupByKeepsEveryKey(requested, EntityName, name);
    j :| 0 <= j < |ms| && EntityName(ms[j]) == name;
  }

  /** A data row's selected entity name is among `ms`, the deduplicated selection. */
  lemma KeptInSelection(rows: seq<seq<string>>, ms: seq<BlobMigration>, e: nat, c: nat, i: nat)
    requires 1 <= i < |rows| && ms == DedupBy(Requested(rows[1..], e, c), EntityName)
    requires RowMigration(rows[i], e, c).Some?
    ensures exists k :: 0 <= k < |ms| && ms[k].entityName == RowMigration(rows[i], e, c).value.entityName
  {
    RowRequested(rows, e, c, i);
    var k := SelectedAt(Requested(rows[1..], e, c), ms, RowMigration(rows[i], e, c).value.entityName);
  }

  /** No entity name that a data row selects is lost by deduplication. */
  lemma ManifestKeepsEveryEntity(lines: seq<string>, i: nat)
    requires ManifestOfLines(lines).Ok?
    requires 1 <= i < |lines|
    requires var headers := ParseLine(lines[0]);
      RowMigration(ParseRows(lines)[i], FindIndex(headers, EntityNameColumn), FindIndex(headers, ContainerColumn)).Some?
    ensures var headers := ParseLine(lines[0]);
      var m := RowMigration(ParseRows(lines)[i], FindIndex(headers, EntityNameColumn), FindIndex(headers, ContainerColumn)).value;
      exists k :: 0 <= k < |ManifestOfLines(lines).value| && ManifestOfLines(lines).value[k].entityName == m.entityName
  {
    ManifestIsSelection(lines);
    var headers := ParseLine(lines[0]);
    KeptInSelection(ParseRows(lines), ManifestOfLines(lines).value, FindIndex(headers, EntityNameColumn), FindIndex(headers, ContainerColumn), i);
  }

  /** A manifest that parses is the deduplicated selection of its data rows. */
  lemma ManifestIsSelection(lines: seq<string>)
    requires ManifestOfLines(lines).Ok?
    ensures var headers := ParseLine(lines[0]);
      var e, c := FindIndex(headers, EntityNameColumn), FindIndex(headers, ContainerColumn);
      e >= 0 && c >= 0 && ManifestOfLines(lines).value == DedupBy(Requested(ParseRows(lines)[1..], e, c), EntityName)
  {
  }
}
