/** The `lspci -vmm` parser: records of `key: value` lines, separated by blank lines. */
module PciRecords {
  import Sequences
  import opened Strings

  type Record = map<string, string>

  // ---------------------------------------------------------------- text

  /** The White_Space property of Unicode. */
  predicate IsWhite(c: char) {
    var n := c as int;
    9 <= n <= 13 || n == 0x20 || n == 0x85 || n == 0xA0 || n == 0x1680 || 0x2000 <= n <= 0x200A
    || n == 0x2028 || n == 0x2029 || n == 0x202F || n == 0x205F || n == 0x3000
  }

  function TrimStart(s: string): string {
    if s != "" && IsWhite(s[0]) then TrimStart(s[1..]) else s
  }

  function TrimEnd(s: string): string {
    if s != "" && IsWhite(s[|s| - 1]) then TrimEnd(s[..|s| - 1]) else s
  }

  function Trim(s: string): string {
    TrimEnd(TrimStart(s))
  }

  predicate IsBlank(line: string) {
    Trim(line) == ""
  }

  /** `str::lines`: lines end in LF or CR LF, and the last one may have no end. */
  function Lines(text: string): seq<string> {
    var k := Find('\n', text);
    if text == "" then []
    else if k == |text| then [text]
    else [DropReturn(text[..k])] + Lines(text[k + 1..])
  }

  function DropReturn(line: string): string {
    if line != "" && line[|line| - 1] == '\r' then line[..|line| - 1] else line
  }

  // ---------------------------------------------------------------- what the loop computes

  function Extend(blocks: seq<seq<string>>, line: string): seq<seq<string>>
    requires blocks != []
  {
    var n := |blocks| - 1;
    if IsBlank(line) then blocks + [[]] else blocks[..n] + [blocks[n] + [line]]
  }

  /** Runs of lines between blank lines; the last one is still open. */
  function Blocks(lines: seq<string>): (blocks: seq<seq<string>>)
    ensures blocks != []
  {
    if lines == [] then [[]] else Extend(Blocks(lines[..|lines| - 1]), lines[|lines| - 1])
  }

  function WithField(r: Record, line: string): Record {
    var k := Find(':', line);
    if k == |line| then r else r[Trim(line[..k]) := Trim(line[k + 1..])]
  }

  /** The fields of a block; a line without a colon says nothing, a repeated key takes its last value. */
  function RecordOf(block: seq<string>): Record {
    if block == [] then map[] else WithField(RecordOf(block[..|block| - 1]), block[|block| - 1])
  }

  function IfAny(r: Record): seq<Record> {
    if r == map[] then [] else [r]
  }

  function Kept(blocks: seq<seq<string>>): seq<Record> {
    if blocks == [] then [] else Kept(blocks[..|blocks| - 1]) + IfAny(RecordOf(blocks[|blocks| - 1]))
  }

  /** The non-empty records of a text: one for each run of lines that has a field. */
  function Records(lines: seq<string>): seq<Record> {
    Kept(Blocks(lines))
  }

  /** The records of all blocks but the open one, and the open one. */
  function Closed(lines: seq<string>): seq<Record> {
    Kept(Blocks(lines)[..|Blocks(lines)| - 1])
  }

  function Current(lines: seq<string>): Record {
    RecordOf(Blocks(lines)[|Blocks(lines)| - 1])
  }

  lemma {:induction false} RecordsOpen(lines: seq<string>)
    ensures Records(lines) == Closed(lines) + IfAny(Current(lines))
  {
  }

  /** What one more line does to the records. */
  lemma {:induction false} OneMoreLine(lines: seq<string>, line: string)
    ensures IsBlank(line) ==> Closed(lines + [line]) == Records(lines) && Current(lines + [line]) == map[]
    ensures !IsBlank(line) ==>
              Closed(lines + [line]) == Closed(lines) && Current(lines + [line]) == WithField(Current(lines), line)
  {
    var b := Blocks(lines);
    var n := |b| - 1;
    Sequences.InitOfSnoc(lines, line);
    assert Blocks(lines + [line]) == Extend(b, line);
    if IsBlank(line) {
      Sequences.InitOfSnoc(b, []);
    } else {
      Sequences.InitOfSnoc(b[..n], b[n] + [line]);
      Sequences.InitOfSnoc(b[n], line);
    }
  }

  /** No record is empty, whatever the text. */
  lemma {:induction false} NoRecordIsEmpty(blocks: seq<seq<string>>)
    ensures map[] !in Kept(blocks)
    decreases blocks
  {
    if blocks != [] {
      NoRecordIsEmpty(blocks[..|blocks| - 1]);
    }
  }

  // ---------------------------------------------------------------- device classes

  datatype Kind = Gpu | Nic | Nvme | Other

  predicate StartsAt(s: string, word: string, i: nat) {
    i + |word| <= |s| && s[i..i + |word|] == word
  }

  predicate Contains(s: string, word: string) {
    exists i: nat | i <= |s| :: StartsAt(s, word, i)
  }

  function KindOf(d: Record): Kind {
    var c := if "Class" in d then d["Class"] else "";
    if Contains(c, "VGA") || Contains(c, "3D") || Contains(c, "Display") then Gpu
    else if Contains(c, "Ethernet") || Contains(c, "Network") then Nic
    else if Contains(c, "Non-Volatile") then Nvme
    else Other
  }

  function OfKind(devices: seq<Record>, kind: Kind): set<nat> {
    set i: nat | i < |devices| && KindOf(devices[i]) == kind
  }

  lemma {:induction false} OneMore(devices: seq<Record>, n: nat, kind: Kind)
    requires n < |devices|
    ensures |OfKind(devices[..n + 1], kind)|
         == |OfKind(devices[..n], kind)| + if KindOf(devices[n]) == kind then 1 else 0
  {
    var more := if KindOf(devices[n]) == kind then {n} else {};
    assert OfKind(devices[..n + 1], kind) == OfKind(devices[..n], kind) + more;
  }

  /** Which words of the class decide the kind, and which of them come first. */
  lemma {:induction false} KindIs(d: Record)
    ensures KindOf(d) == Gpu <==>
              "Class" in d && (Contains(d["Class"], "VGA") || Contains(d["Class"], "3D") || Contains(d["Class"], "Display"))
    ensures KindOf(d) == Nic <==>
              KindOf(d) != Gpu && "Class" in d && (Contains(d["Class"], "Ethernet") || Contains(d["Class"], "Network"))
    ensures KindOf(d) == Nvme <==>
              KindOf(d) != Gpu && KindOf(d) != Nic && "Class" in d && Contains(d["Class"], "Non-Volatile")
  {
  }

  /** The four kinds partition the devices. */
  lemma {:induction false} KindsPartition(devices: seq<Record>)
    ensures |OfKind(devices, Gpu)| + |OfKind(devices, Nic)| + |OfKind(devices, Nvme)| + |OfKind(devices, Other)|
         == |devices|
    decreases devices
  {
    if devices != [] {
      var n := |devices| - 1;
      KindsPartition(devices[..n]);
      OneMore(devices, n, Gpu);
      OneMore(devices, n, Nic);
      OneMore(devices, n, Nvme);
      OneMore(devices, n, Other);
      assert devices[..n + 1] == devices;
    }
  }

  // ---------------------------------------------------------------- the parser

  lemma {:induction false} NoLinesYet()
    ensures Closed([]) == [] && Current([]) == map[]
  {
  }

  /** One round of the loop: what it leaves in `devices` and `current`. */
  lemma {:induction false} LineRead(lines: seq<string>, i: nat)
    requires i < |lines|
    ensures var d, c, line := Closed(lines[..i]), Current(lines[..i]), lines[i];
            && (IsBlank(line) ==>
                  Closed(lines[..i + 1]) == (if c == map[] then d else d + [c]) && Current(lines[..i + 1]) == map[])
            && (!IsBlank(line) ==>
                  var k := Find(':', line);
                  && Closed(lines[..i + 1]) == d
                  && Current(lines[..i + 1])
                       == if k == |line| then c else c[Trim(line[..k]) := Trim(line[k + 1..])])
  {
    hide Closed, Current, IsBlank, Trim, Find, Records;
    RecordsOpen(lines[..i]);
    OneMoreLine(lines[..i], lines[i]);
    Sequences.TakeOneMore(lines, i);
  }

  method SplitRecords(text: string) returns (devices: seq<Record>)
    ensures devices == Records(Lines(text)) && map[] !in devices
  {
    hide Closed, Current, IsBlank, Trim, Find, Records, Lines, Blocks, Kept;
    var lines := Lines(text);
    devices := [];
    var current: Record := map[];
    var i := 0;
    NoLinesYet();
    assert lines[..0] == [];
    while i < |lines|
      invariant 0 <= i <= |lines|
      invariant devices == Closed(lines[..i]) && current == Current(lines[..i])
    {
      LineRead(lines, i);
      if IsBlank(lines[i]) {
        if current != map[] {
          devices := devices + [current];
          current := map[];
        }
      } else {
        var k := Find(':', lines[i]);
        if k < |lines[i]| {
          current := current[Trim(lines[i][..k]) := Trim(lines[i][k + 1..])];
        }
      }
      i := i + 1;
    }
    assert lines[..i] == lines;
    RecordsAreWhole(lines);
    if current != map[] {
      devices := devices + [current];
    }
  }

  lemma {:induction false} RecordsAreWhole(lines: seq<string>)
    ensures Records(lines) == Closed(lines) + IfAny(Current(lines)) && map[] !in Records(lines)
  {
    RecordsOpen(lines);
    NoRecordIsEmpty(Blocks(lines));
  }

  method CountClasses(devices: seq<Record>) returns (gpus: nat, nics: nat, nvme: nat)
    ensures gpus == |OfKind(devices, Gpu)| && nics == |OfKind(devices, Nic)| && nvme == |OfKind(devices, Nvme)|
    ensures gpus + nics + nvme == |devices| - |OfKind(devices, Other)|
  {
    gpus, nics, nvme := 0, 0, 0;
    var i := 0;
    while i < |devices|
      invariant 0 <= i <= |devices|
      invariant gpus == |OfKind(devices[..i], Gpu)|
      invariant nics == |OfKind(devices[..i], Nic)|
      invariant nvme == |OfKind(devices[..i], Nvme)|
    {
      OneMore(devices, i, Gpu);
      OneMore(devices, i, Nic);
      OneMore(devices, i, Nvme);
      var c := if "Class" in devices[i] then devices[i]["Class"] else "";
      if Contains(c, "VGA") || Contains(c, "3D") || Contains(c, "Display") {
        gpus := gpus + 1;
      } else if Contains(c, "Ethernet") || Contains(c, "Network") {
        nics := nics + 1;
      } else if Contains(c, "Non-Volatile") {
        nvme := nvme + 1;
      }
      i := i + 1;
    }
    assert devices[..i] == devices;
    KindsPartition(devices);
  }

  // ---------------------------------------------------------------- the round trip

  /** One printed line: the key, a colon and the value, with white space around each of them. */
  datatype Field = Field(lead: string, key: string, gap: string, pad: string, value: string, tail: string)

  /** Blank lines, then the lines of one record. */
  datatype Chunk = Chunk(blanks: seq<string>, fields: seq<Field>)

  predicate IsTrimmed(s: string) {
    s == "" || (!IsWhite(s[0]) && !IsWhite(s[|s| - 1]))
  }

  predicate IsPadding(s: string) {
    forall i | 0 <= i < |s| :: IsWhite(s[i]) && s[i] != '\n' && s[i] != '\r'
  }

  predicate Printable(f: Field) {
    && IsTrimmed(f.key) && ':' !in f.key && '\n' !in f.key
    && IsPadding(f.lead) && IsPadding(f.gap) && IsPadding(f.pad) && IsPadding(f.tail)
    && IsTrimmed(f.value) && '\n' !in f.value
  }

  predicate PrintableChunk(c: Chunk) {
    && c.fields != [] && (forall i | 0 <= i < |c.fields| :: Printable(c.fields[i]))
    && (forall i | 0 <= i < |c.blanks| :: IsPadding(c.blanks[i]))
  }

  predicate PrintableDocument(chunks: seq<Chunk>) {
    && (forall i | 0 <= i < |chunks| :: PrintableChunk(chunks[i]))
    && (forall i | 0 < i < |chunks| :: chunks[i].blanks != [])
  }

  function PrintField(f: Field): string {
    f.lead + f.key + f.gap + ":" + (f.pad + f.value + f.tail)
  }

  function FieldLines(fields: seq<Field>): seq<string> {
    if fields == [] then [] else FieldLines(fields[..|fields| - 1]) + [PrintField(fields[|fields| - 1])]
  }

  function DocumentLines(chunks: seq<Chunk>): seq<string> {
    if chunks == [] then []
    else
      var c := chunks[|chunks| - 1];
      DocumentLines(chunks[..|chunks| - 1]) + c.blanks + FieldLines(c.fields)
  }

  const LF := "\n"
  const CRLF := "\r\n"

  /** Lines with their ends, LF or CR LF line by line. */
  function Join(lines: seq<string>, ends: seq<string>): string
    requires |ends| == |lines|
  {
    if lines == [] then "" else lines[0] + ends[0] + Join(lines[1..], ends[1..])
  }

  predicate AreEnds(ends: seq<string>) {
    forall i | 0 <= i < |ends| :: ends[i] == LF || ends[i] == CRLF
  }

  function FieldMap(fields: seq<Field>): Record {
    if fields == [] then map[]
    else
      var f := fields[|fields| - 1];
      FieldMap(fields[..|fields| - 1])[f.key := f.value]
  }

  function FieldMaps(chunks: seq<Chunk>): seq<Record> {
    if chunks == [] then [] else FieldMaps(chunks[..|chunks| - 1]) + [FieldMap(chunks[|chunks| - 1].fields)]
  }

  lemma {:induction false} StartPadded(pad: string, s: string)
    requires IsPadding(pad)
    ensures TrimStart(pad + s) == TrimStart(s)
    decreases pad
  {
    if pad == "" {
      assert pad + s == s;
    } else {
      StartPadded(pad[1..], s);
      assert (pad + s)[1..] == pad[1..] + s;
    }
  }

  lemma {:induction false} EndPadded(s: string, tail: string)
    requires IsPadding(tail)
    ensures TrimEnd(s + tail) == TrimEnd(s)
    decreases tail
  {
    if tail == "" {
      assert s + tail == s;
    } else {
      var n := |tail| - 1;
      EndPadded(s, tail[..n]);
      assert (s + tail)[..|s| + n] == s + tail[..n];
    }
  }

  lemma {:induction false} TrimPadded(pad: string, s: string, tail: string)
    requires IsPadding(pad) && IsTrimmed(s) && IsPadding(tail)
    ensures Trim(pad + s + tail) == s
  {
    assert pad + s + tail == pad + (s + tail);
    StartPadded(pad, s + tail);
    if s == "" {
      assert s + tail == tail + "";
      StartPadded(tail, "");
    } else {
      EndPadded(s, tail);
    }
  }

  lemma {:induction false} NotBlank(s: string, i: nat)
    requires i < |s| && !IsWhite(s[i])
    ensures !IsBlank(s)
    decreases s
  {
    if IsWhite(s[0]) {
      NotBlank(s[1..], i - 1);
    } else {
      EndStops(s);
    }
  }

  lemma {:induction false} EndStops(s: string)
    requires s != "" && !IsWhite(s[0])
    ensures TrimEnd(s) != ""
    decreases s
  {
    if IsWhite(s[|s| - 1]) {
      EndStops(s[..|s| - 1]);
    }
  }

  lemma {:induction false} PaddingIsBlank(s: string)
    requires IsPadding(s)
    ensures IsBlank(s)
  {
    TrimPadded(s, "", "");
    assert s + "" + "" == s;
  }

  /** A printed line is not blank and gives its key and value back. */
  lemma {:induction false} FieldReadsBack(f: Field)
    requires Printable(f)
    ensures !IsBlank(PrintField(f))
    ensures var k := Find(':', PrintField(f));
            k < |PrintField(f)| && Trim(PrintField(f)[..k]) == f.key && Trim(PrintField(f)[k + 1..]) == f.value
  {
    var line := PrintField(f);
    var before, after := f.lead + f.key + f.gap, f.pad + f.value + f.tail;
    assert line == before + [':'] + after;
    FindAfter(':', before, after);
    assert line[..|before|] == before && line[|before| + 1..] == after;
    TrimPadded(f.lead, f.key, f.gap);
    TrimPadded(f.pad, f.value, f.tail);
    NotBlank(line, |before|);
  }

  lemma {:induction false} AppendBlanks(lines: seq<string>, blanks: seq<string>)
    requires forall i | 0 <= i < |blanks| :: IsPadding(blanks[i])
    ensures Records(lines + blanks) == Records(lines)
    ensures blanks != [] ==> Closed(lines + blanks) == Records(lines) && Current(lines + blanks) == map[]
    decreases blanks
  {
    if blanks == [] {
      assert lines + blanks == lines;
    } else {
      var n := |blanks| - 1;
      AppendBlanks(lines, blanks[..n]);
      PaddingIsBlank(blanks[n]);
      OneMoreLine(lines + blanks[..n], blanks[n]);
      Sequences.InitLast(blanks);
      Sequences.Assoc(lines, blanks[..n], [blanks[n]]);
      RecordsOpen(lines + blanks);
    }
  }

  lemma {:induction false} AppendFields(lines: seq<string>, fields: seq<Field>)
    requires forall i | 0 <= i < |fields| :: Printable(fields[i])
    requires Current(lines) == map[]
    ensures Closed(lines + FieldLines(fields)) == Closed(lines)
    ensures Current(lines + FieldLines(fields)) == FieldMap(fields)
    decreases fields
  {
    hide Closed, Current, Find, Trim, PrintField, IsBlank, Printable;
    if fields == [] {
      assert lines + FieldLines(fields) == lines;
    } else {
      var n := |fields| - 1;
      AppendFields(lines, fields[..n]);
      FieldReadsBack(fields[n]);
      OneMoreLine(lines + FieldLines(fields[..n]), PrintField(fields[n]));
      Sequences.Assoc(lines, FieldLines(fields[..n]), [PrintField(fields[n])]);
    }
  }

  lemma {:induction false} AppendChunk(lines: seq<string>, c: Chunk)
    requires PrintableChunk(c)
    requires lines == [] || c.blanks != []
    ensures Records(lines + c.blanks + FieldLines(c.fields)) == Records(lines) + [FieldMap(c.fields)]
  {
    AppendBlanks(lines, c.blanks);
    if c.blanks == [] {
      assert lines + c.blanks == [];
    }
    assert Closed(lines + c.blanks) == Records(lines) && Current(lines + c.blanks) == map[];
    AppendFields(lines + c.blanks, c.fields);
    RecordsOpen(lines + c.blanks + FieldLines(c.fields));
    assert c.fields[|c.fields| - 1].key in FieldMap(c.fields);
  }

  lemma {:induction false} LinesRoundTrip(chunks: seq<Chunk>)
    requires PrintableDocument(chunks)
    ensures Records(DocumentLines(chunks)) == FieldMaps(chunks)
    decreases chunks
  {
    if chunks != [] {
      var n := |chunks| - 1;
      LinesRoundTrip(chunks[..n]);
      assert n == 0 ==> DocumentLines(chunks[..n]) == [];
      AppendChunk(DocumentLines(chunks[..n]), chunks[n]);
    }
  }

  predicate IsLine(s: string) {
    '\n' !in s && (s == "" || s[|s| - 1] != '\r')
  }

  lemma {:induction false} FirstLine(line: string, end: string, rest: string)
    requires IsLine(line) && (end == LF || end == CRLF)
    ensures Lines(line + end + rest) == [line] + Lines(rest)
  {
    var raw := if end == LF then line else line + "\r";
    var text := raw + ['\n'] + rest;
    assert text == line + end + rest;
    FindAfter('\n', raw, rest);
    assert text[..|raw|] == raw && text[|raw| + 1..] == rest;
    assert end == CRLF ==> raw[..|raw| - 1] == line;
    assert DropReturn(raw) == line;
  }

  lemma {:induction false} LastLine(last: string)
    requires '\n' !in last
    ensures Lines(last) == if last == "" then [] else [last]
  {
    assert Find('\n', last) == |last|;
  }

  lemma {:induction false} JoinedLines(lines: seq<string>, ends: seq<string>, last: string)
    requires |ends| == |lines| && AreEnds(ends) && forall i | 0 <= i < |lines| :: IsLine(lines[i])
    requires '\n' !in last
    ensures Lines(Join(lines, ends) + last) == lines + if last == "" then [] else [last]
    decreases lines
  {
    hide Lines, IsLine;
    var more := if last == "" then [] else [last];
    if lines == [] {
      assert Join(lines, ends) + last == last && lines + more == more;
      LastLine(last);
    } else {
      var rest := Join(lines[1..], ends[1..]);
      JoinedLines(lines[1..], ends[1..], last);
      FirstLine(lines[0], ends[0], rest + last);
      assert Join(lines, ends) == lines[0] + ends[0] + rest;
      hide Join;
      Sequences.Assoc(lines[0] + ends[0], rest, last);
      Sequences.HeadTail(lines);
      Sequences.Assoc([lines[0]], lines[1..], more);
    }
  }

  lemma {:induction false} PrintedIsLine(f: Field)
    requires Printable(f)
    ensures IsLine(PrintField(f))
  {
  }

  lemma {:induction false} FieldsAreLines(fields: seq<Field>)
    requires forall i | 0 <= i < |fields| :: Printable(fields[i])
    ensures forall i | 0 <= i < |FieldLines(fields)| :: IsLine(FieldLines(fields)[i])
    decreases fields
  {
    if fields != [] {
      FieldsAreLines(fields[..|fields| - 1]);
      PrintedIsLine(fields[|fields| - 1]);
    }
  }

  lemma {:induction false} DocumentIsLines(chunks: seq<Chunk>)
    requires PrintableDocument(chunks)
    ensures forall i | 0 <= i < |DocumentLines(chunks)| :: IsLine(DocumentLines(chunks)[i])
    decreases chunks
  {
    if chunks != [] {
      var c := chunks[|chunks| - 1];
      DocumentIsLines(chunks[..|chunks| - 1]);
      FieldsAreLines(c.fields);
    }
  }

  /**
   Printing records with any blank lines before and at least one between them, then blank lines, and parsing
   the text gives the records, whether lines end in LF or CR LF and whether or not the last one has an end.
   */
  lemma {:induction false} PrintedRecordsReadBack(
    chunks: seq<Chunk>, tail: seq<string>, ends: seq<string>, last: string)
    requires PrintableDocument(chunks) && forall i | 0 <= i < |tail| :: IsPadding(tail[i])
    requires |ends| == |DocumentLines(chunks) + tail| && AreEnds(ends) && IsPadding(last)
    ensures Records(Lines(Join(DocumentLines(chunks) + tail, ends) + last)) == FieldMaps(chunks)
  {
    DocumentIsLines(chunks);
    var blanks := tail + if last == "" then [] else [last];
    JoinedLines(DocumentLines(chunks) + tail, ends, last);
    assert DocumentLines(chunks) + tail + (if last == "" then [] else [last]) == DocumentLines(chunks) + blanks;
    AppendBlanks(DocumentLines(chunks), blanks);
    LinesRoundTrip(chunks);
  }

  lemma {:induction false} SameFromThere(a: seq<string>, other: seq<string>, b: seq<string>)
    requires Closed(a) == Closed(other) && Current(a) == Current(other)
    ensures Closed(a + b) == Closed(other + b) && Current(a + b) == Current(other + b)
    decreases b
  {
    hide Closed, Current, IsBlank, WithField, Records;
    if b == [] {
      assert a + b == a && other + b == other;
    } else {
      var n := |b| - 1;
      SameFromThere(a, other, b[..n]);
      Sequences.InitLast(b);
      Sequences.Assoc(a, b[..n], [b[n]]);
      Sequences.Assoc(other, b[..n], [b[n]]);
      OneMoreLine(a + b[..n], b[n]);
      OneMoreLine(other + b[..n], b[n]);
      RecordsOpen(a + b[..n]);
      RecordsOpen(other + b[..n]);
    }
  }

  /** A line without a colon says nothing, wherever it stands: it does not even end a record. */
  lemma {:induction false} NoiseIsIgnored(a: seq<string>, line: string, b: seq<string>)
    requires !IsBlank(line) && ':' !in line
    ensures Records(a + [line] + b) == Records(a + b)
  {
    OneMoreLine(a, line);
    assert Find(':', line) == |line|;
    SameFromThere(a + [line], a, b);
    RecordsOpen(a + [line] + b);
    RecordsOpen(a + b);
  }
}
