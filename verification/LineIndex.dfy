/** Reading one line of a payload file: by a scan from the start, or through a cached index of line offsets and
    an open file (internal/parity/canonical.go, internal/parity/canonical_reader.go). Files do not change while
    they are read. */
module LineIndex {
  import opened Options
  import opened Scalars
  import opened Decimals

  newtype Byte = n: int | 0 <= n < 256
  type Bytes = seq<Byte>

  const LF: Byte := 10
  const CR: Byte := 13

  datatype ReadError = OpenFailed | LineTooLong | LineNotFound | OverLimit

  // ----- lines of a file -----

  /** Just past the line that starts here: past its newline, or at the end of the file. */
  function LineEnd(s: Bytes, at: nat): (n: nat)
    requires at <= |s|
    ensures at <= n <= |s| && (at < |s| ==> at < n)
    ensures at < n < |s| ==> s[n - 1] == LF
    decreases |s| - at
  {
    if at == |s| then at else if s[at] == LF then at + 1 else LineEnd(s, at + 1)
  }

  lemma {:induction false} NoneBefore(s: Bytes, at: nat, i: nat)
    requires at <= i && at <= |s| && i + 1 < LineEnd(s, at)
    ensures s[i] != LF
    decreases i - at
  {
    if at < i {
      NoneBefore(s, at + 1, i);
    }
  }

  /** The lines from here on, each with its ending. */
  function LinesFrom(s: Bytes, at: nat): seq<Bytes>
    requires at <= |s|
    decreases |s| - at
  {
    if at == |s| then [] else [s[at..LineEnd(s, at)]] + LinesFrom(s, LineEnd(s, at))
  }

  function Lines(s: Bytes): seq<Bytes> { LinesFrom(s, 0) }

  /** The text is the concatenation of its lines. */
  function Join(lines: seq<Bytes>): Bytes {
    if lines == [] then [] else lines[0] + Join(lines[1..])
  }

  lemma {:induction false} JoinFrom(s: Bytes, at: nat)
    requires at <= |s|
    ensures Join(LinesFrom(s, at)) == s[at..]
    decreases |s| - at
  {
    if at < |s| {
      JoinFrom(s, LineEnd(s, at));
      assert s[at..] == s[at..LineEnd(s, at)] + s[LineEnd(s, at)..];
    }
  }

  lemma LinesJoin(s: Bytes)
    ensures Join(Lines(s)) == s
  {
    JoinFrom(s, 0);
  }

  /** TrimSuffix "\n", then TrimSuffix "\r". */
  function Trim(line: Bytes): Bytes {
    var a := if line != [] && line[|line| - 1] == LF then line[..|line| - 1] else line;
    if a != [] && a[|a| - 1] == CR then a[..|a| - 1] else a
  }

  // ----- what each way of reading answers -----

  type Answer = Result<Bytes, ReadError>

  /** One of the first n lines is overlong. */
  predicate AnyLong(lines: seq<Bytes>, n: nat, maxLine: nat)
    requires n <= |lines|
  {
    n > 0 && (|lines[n - 1]| > maxLine || AnyLong(lines, n - 1, maxLine))
  }

  lemma {:induction false} LongStays(lines: seq<Bytes>, m: nat, n: nat, maxLine: nat)
    requires m <= n <= |lines| && AnyLong(lines, m, maxLine)
    ensures AnyLong(lines, n, maxLine)
  {
    if m < n {
      LongStays(lines, m, n - 1, maxLine);
    }
  }

  lemma {:induction false} LongHas(lines: seq<Bytes>, n: nat, i: nat, maxLine: nat)
    requires i < n <= |lines| && |lines[i]| > maxLine
    ensures AnyLong(lines, n, maxLine)
  {
    if i < n - 1 {
      LongHas(lines, n - 1, i, maxLine);
    }
  }

  function Select(lines: seq<Bytes>, n: nat, maxBytes: nat): Answer {
    if n == 0 || n > |lines| then Err(LineNotFound)
    else if |Trim(lines[n - 1])| > maxBytes then Err(OverLimit)
    else Ok(Trim(lines[n - 1]))
  }

  /** The scan gives up at the first overlong line, if that comes no later than line n. */
  function Scanned(content: Bytes, n: nat, maxBytes: nat, maxLine: nat): Answer {
    var lines := Lines(content);
    if AnyLong(lines, Min(n, |lines|), maxLine) then Err(LineTooLong) else Select(lines, n, maxBytes)
  }

  /** The index gives up on a file with an overlong line anywhere. */
  function Indexed(content: Bytes, n: nat, maxBytes: nat, maxLine: nat): Answer {
    var lines := Lines(content);
    if AnyLong(lines, |lines|, maxLine) then Err(LineTooLong) else Select(lines, n, maxBytes)
  }

  /** For a file whose lines are all under the cap the two agree on every line. */
  lemma IndexIsScan(content: Bytes, n: nat, maxBytes: nat, maxLine: nat)
    requires !AnyLong(Lines(content), |Lines(content)|, maxLine)
    ensures Indexed(content, n, maxBytes, maxLine) == Scanned(content, n, maxBytes, maxLine)
  {
    IndexIsScanIff(content, n, maxBytes, maxLine);
  }

  /** In general they agree on line n exactly when no line is overlong, or one up to line n is. */
  lemma IndexIsScanIff(content: Bytes, n: nat, maxBytes: nat, maxLine: nat)
    ensures Indexed(content, n, maxBytes, maxLine) == Scanned(content, n, maxBytes, maxLine) <==>
            var lines := Lines(content);
            !AnyLong(lines, |lines|, maxLine) || AnyLong(lines, Min(n, |lines|), maxLine)
  {
    var lines := Lines(content);
    if AnyLong(lines, Min(n, |lines|), maxLine) {
      LongStays(lines, Min(n, |lines|), |lines|, maxLine);
    }
  }

  // ----- the answers, told of the bytes -----

  predicate EndsWith(s: Bytes, b: Byte) { s != [] && s[|s| - 1] == b }

  /** A line that is not empty, with no newline but at its end; and all but the last end with one. */
  predicate IsLine(line: Bytes, last: bool) {
    line != [] && (last || EndsWith(line, 10)) && forall k | 0 <= k < |line| - 1 :: line[k] != 10
  }

  ghost predicate AreLines(lines: seq<Bytes>) {
    forall i | 0 <= i < |lines| :: IsLine(lines[i], i == |lines| - 1)
  }

  lemma {:induction false} LinesAreFrom(s: Bytes, at: nat)
    requires at <= |s|
    ensures AreLines(LinesFrom(s, at))
    decreases |s| - at
  {
    if at < |s| {
      LinesAreFrom(s, LineEnd(s, at));
      var line := s[at..LineEnd(s, at)];
      forall k | 0 <= k < |line| - 1
        ensures line[k] != 10
      {
        NoneBefore(s, at, at + k);
      }
      var lines, rest := LinesFrom(s, at), LinesFrom(s, LineEnd(s, at));
      assert lines == [line] + rest;
      forall i | 0 < i < |lines|
        ensures IsLine(lines[i], i == |lines| - 1)
      {
        assert lines[i] == rest[i - 1];
      }
    }
  }

  /** Every line but the last ends with its one newline; no line is empty, and the last may lack a newline. */
  lemma LinesAre(s: Bytes)
    ensures AreLines(Lines(s))
  {
    LinesAreFrom(s, 0);
  }

  /** A line is its text and one ending: CR LF, LF, CR or none, whichever is longest. */
  predicate TextOf(line: Bytes, text: Bytes) {
    || line == text + [13, 10]
    || line == text + [13]
    || (line == text + [10] && !EndsWith(text, 13))
    || (line == text && !EndsWith(text, 10) && !EndsWith(text, 13))
  }

  lemma TrimmedText(line: Bytes, text: Bytes)
    ensures Trim(line) == text <==> TextOf(line, text)
  {
    var a := if EndsWith(line, 10) then line[..|line| - 1] else line;
    var b := if EndsWith(a, 13) then a[..|a| - 1] else a;
    assert EndsWith(line, 10) ==> line == a + [10];
    assert EndsWith(a, 13) ==> a == b + [13];
    assert b + [13] + [10] == b + [13, 10];
    if TextOf(line, text) {
      if line == text + [13, 10] {
        assert a == text + [13];
      }
    }
  }

  lemma OneText(line: Bytes)
    ensures forall text :: TextOf(line, text) <==> Trim(line) == text
  {
    forall text
      ensures TextOf(line, text) <==> Trim(line) == text
    {
      TrimmedText(line, text);
    }
  }

  lemma {:induction false} AnyLongMeans(lines: seq<Bytes>, n: nat, maxLine: nat)
    requires n <= |lines|
    ensures AnyLong(lines, n, maxLine) <==> TooLongIn(lines, n, maxLine)
  {
    if n > 0 {
      AnyLongMeans(lines, n - 1, maxLine);
    }
  }

  /** What reading line n answers, given whether a line looked at was too long. */
  ghost predicate Answers(lines: seq<Bytes>, long: bool, n: nat, maxBytes: nat, r: Answer) {
    var found := 0 < n <= |lines|;
    && (r == Err(LineTooLong) <==> long)
    && (r == Err(LineNotFound) <==> !long && !found)
    && (forall text :: r == Ok(text) <==> !long && found && TextOf(lines[n - 1], text) && |text| <= maxBytes)
    && (r == Err(OverLimit) <==> !long && found && forall text | TextOf(lines[n - 1], text) :: |text| > maxBytes)
    && r != Err(OpenFailed)
  }

  predicate TooLongIn(lines: seq<Bytes>, m: nat, maxLine: nat)
    requires m <= |lines|
  {
    exists i :: 0 <= i < m && |lines[i]| > maxLine
  }

  lemma SelectAnswers(lines: seq<Bytes>, long: bool, n: nat, maxBytes: nat)
    ensures Answers(lines, long, n, maxBytes, if long then Err(LineTooLong) else Select(lines, n, maxBytes))
  {
    if 0 < n <= |lines| {
      OneText(lines[n - 1]);
    }
  }

  /** The scan looks at the lines up to n, the index at all of them; then each gives the text of the line, or says that
      there is none or that it is too large. */
  lemma AnswersAre(content: Bytes, n: nat, maxBytes: nat, maxLine: nat)
    ensures var lines := Lines(content);
            var m := if n < |lines| then n else |lines|;
            && Answers(lines, TooLongIn(lines, m, maxLine), n, maxBytes, Scanned(content, n, maxBytes, maxLine))
            && Answers(lines, TooLongIn(lines, |lines|, maxLine), n, maxBytes, Indexed(content, n, maxBytes, maxLine))
  {
    var lines := Lines(content);
    AnyLongMeans(lines, Min(n, |lines|), maxLine);
    AnyLongMeans(lines, |lines|, maxLine);
    SelectAnswers(lines, TooLongIn(lines, Min(n, |lines|), maxLine), n, maxBytes);
    SelectAnswers(lines, TooLongIn(lines, |lines|, maxLine), n, maxBytes);
  }

  // ----- the buffered reader -----

  datatype LineRead = Line(bytes: Bytes, eof: bool) | EndOfFile | TooLong

  /** One line, from here on. */
  function ReadSpec(content: Bytes, at: nat, maxLine: nat): LineRead
    requires at <= |content|
  {
    var end := LineEnd(content, at);
    if at == |content| then EndOfFile
    else if end - at > maxLine then TooLong
    else Line(content[at..end], content[end - 1] != LF)
  }

  datatype SliceStatus = Delimited | BufferFull | AtEof

  lemma {:induction false} LineEndLater(s: Bytes, at: nat, later: nat)
    requires at <= later <= |s| && NoneIn(s, at, later)
    ensures LineEnd(s, at) == LineEnd(s, later)
    decreases later - at
  {
    if at < later {
      LineEndLater(s, at + 1, later);
    }
  }

  class Reader {
    const content: Bytes
    const bufferSize: nat
    var pos: nat

    predicate Valid()
      reads this
    {
      pos <= |content| && 0 < bufferSize
    }

    constructor (content: Bytes, bufferSize: nat, pos: nat)
      requires 0 < bufferSize && pos <= |content|
      ensures Valid() && this.content == content && this.pos == pos
    {
      this.content, this.bufferSize, this.pos := content, bufferSize, pos;
    }

    /** bufio's ReadSlice('\\n'): up to the newline, or a full buffer, or what is left. */
    method ReadSlice() returns (chunk: Bytes, status: SliceStatus)
      requires Valid()
      modifies this
      ensures Valid() && old(pos) + |chunk| == pos <= |content| && chunk == content[old(pos)..pos]
      ensures status == Delimited ==> EndsWith(chunk, LF)
      ensures NoneIn(content, old(pos), if status == Delimited then pos - 1 else pos)
      ensures status == BufferFull ==> chunk != []
      ensures status == AtEof ==> pos == |content|
    {
      var i := pos;
      while i < |content| && i - pos < bufferSize && content[i] != LF
        invariant pos <= i <= |content| && i - pos <= bufferSize
        invariant NoneIn(content, pos, i)
      {
        i := i + 1;
      }
      if i < |content| && i - pos < bufferSize {
        chunk, status := content[pos..i + 1], Delimited;
      } else if i - pos == bufferSize {
        chunk, status := content[pos..i], BufferFull;
      } else {
        chunk, status := content[pos..i], AtEof;
      }
      pos := pos + |chunk|;
    }

    /** readCanonicalLineSelectorLine: chunks up to the newline, with a cap on the whole line. */
    method ReadLine(maxLine: nat) returns (r: LineRead)
      requires Valid()
      modifies this
      ensures Valid() && r == ReadSpec(content, old(pos), maxLine)
      ensures r.Line? ==> pos == LineEnd(content, old(pos))
    {
      var start := pos;
      var line: Bytes := [];
      while true
        invariant Valid() && start <= pos && line == content[start..pos] && |line| <= maxLine
        invariant NoneIn(content, start, pos)
        decreases |content| - pos
      {
        ghost var before := pos;
        var chunk, status := ReadSlice();
        Chunk(content, start, before, pos, status);
        line := line + chunk;
        if |line| > maxLine {
          return TooLong;
        }
        if status == Delimited {
          return Line(line, false);
        }
        if status == AtEof {
          if line == [] {
            return EndOfFile;
          }
          return Line(line, true);
        }
      }
    }
  }

  /** There is no newline from one place to another. */
  predicate NoneIn(content: Bytes, from: nat, to: int) {
    to <= |content| && forall i | from <= i < to :: content[i] != LF
  }

  /** A chunk ends the line, or lies inside it. */
  lemma Chunk(content: Bytes, start: nat, before: nat, pos: nat, status: SliceStatus)
    requires start <= before <= pos <= |content| && NoneIn(content, start, before)
    requires NoneIn(content, before, if status == Delimited then pos - 1 else pos)
    requires status == Delimited ==> before < pos && content[pos - 1] == LF
    requires status == AtEof ==> pos == |content|
    ensures status == Delimited || status == AtEof ==> LineEnd(content, start) == pos
    ensures LineEnd(content, start) >= pos
    ensures status != Delimited ==> NoneIn(content, start, pos)
  {
    LineEndLater(content, start, if status == Delimited then pos - 1 else pos);
  }

  // ----- both ways of reading -----

  /** Where line n starts, or the end of the file. */
  function Start(content: Bytes, n: nat): (r: nat)
    ensures r <= |content|
  {
    if n == 0 then 0 else LineEnd(content, Start(content, n - 1))
  }

  /** From there on the file consists of the remaining lines. */
  lemma {:induction false} StartsLine(content: Bytes, n: nat)
    requires n <= |Lines(content)|
    ensures LinesFrom(content, Start(content, n)) == Lines(content)[n..]
  {
    if n > 0 {
      StartsLine(content, n - 1);
      Suffix(Lines(content), n - 1, LinesFrom(content, Start(content, n - 1)));
    }
  }

  /** The starts of the first n lines. */
  ghost predicate IsIndex(content: Bytes, offsets: seq<nat>, n: nat) {
    |offsets| == n <= |Lines(content)| && forall i | 0 <= i < n :: offsets[i] == Start(content, i)
  }

  /** Reading has got to line n at this offset, and no line before it was overlong. */
  ghost predicate Reached(content: Bytes, offset: nat, n: nat, maxLine: nat) {
    && offset == Start(content, n) && n <= |Lines(content)|
    && !AnyLong(Lines(content), n, maxLine)
  }

  lemma ReadEnd(content: Bytes, n: nat, maxLine: nat)
    requires Reached(content, |content|, n, maxLine)
    ensures n == |Lines(content)|
  {
    StartsLine(content, n);
    assert |Lines(content)[n..]| == 0;
  }

  /** What one more read tells. */
  lemma ReadOne(content: Bytes, at: nat, n: nat, maxLine: nat)
    requires at < |content| && Reached(content, at, n, maxLine)
    ensures var end, lines := LineEnd(content, at), Lines(content);
            && n < |lines| && lines[n] == content[at..end]
            && (end - at > maxLine ==> AnyLong(lines, n + 1, maxLine) && AnyLong(lines, |lines|, maxLine))
            && (end - at <= maxLine ==> Reached(content, end, n + 1, maxLine))
            && (content[end - 1] != LF ==> n + 1 == |lines|)
  {
    var end, lines := LineEnd(content, at), Lines(content);
    StartsLine(content, n);
    Suffix(lines, n, LinesFrom(content, at));
    LongNext(lines, n, maxLine);
    if content[end - 1] != LF {
      assert end == |content| && LinesFrom(content, end) == [];
    }
  }

  lemma Suffix(lines: seq<Bytes>, n: nat, left: seq<Bytes>)
    requires n <= |lines| && lines[n..] == left && left != []
    ensures n < |lines| && lines[n] == left[0] && lines[n + 1..] == left[1..]
  {
    assert lines[n..][0] == left[0] && lines[n..][1..] == left[1..];
  }

  lemma LongNext(lines: seq<Bytes>, n: nat, maxLine: nat)
    requires n < |lines| && !AnyLong(lines, n, maxLine)
    ensures AnyLong(lines, n + 1, maxLine) <==> |lines[n]| > maxLine
    ensures |lines[n]| > maxLine ==> AnyLong(lines, |lines|, maxLine)
  {
    if |lines[n]| > maxLine {
      LongStays(lines, n + 1, |lines|, maxLine);
    }
  }

  /** One read, told by lines. */
  ghost predicate Read(lines: seq<Bytes>, n: nat, maxLine: nat, r: LineRead) {
    match r
    case EndOfFile => n == |lines|
    case TooLong => n < |lines| && AnyLong(lines, n + 1, maxLine) && AnyLong(lines, |lines|, maxLine)
    case Line(bytes, eof) => n < |lines| && bytes == lines[n] && bytes != [] && (eof ==> n + 1 == |lines|)
  }

  lemma ReadTold(content: Bytes, at: nat, n: nat, maxLine: nat)
    requires Reached(content, at, n, maxLine)
    ensures var r := ReadSpec(content, at, maxLine);
            Read(Lines(content), n, maxLine, r) && (r.Line? ==> Reached(content, LineEnd(content, at), n + 1, maxLine))
  {
    if at == |content| {
      ReadEnd(content, n, maxLine);
    } else {
      ReadOne(content, at, n, maxLine);
    }
  }

  method NextLine(reader: Reader, maxLine: nat, ghost n: nat) returns (r: LineRead)
    requires reader.Valid() && Reached(reader.content, reader.pos, n, maxLine)
    modifies reader
    ensures reader.Valid() && Read(Lines(reader.content), n, maxLine, r)
    ensures r.Line? ==> |r.bytes| == reader.pos - old(reader.pos) > 0 && Reached(reader.content, reader.pos, n + 1, maxLine)
  {
    ReadTold(reader.content, reader.pos, n, maxLine);
    r := reader.ReadLine(maxLine);
  }

  lemma AtStart(content: Bytes, maxLine: nat)
    ensures Reached(content, 0, 0, maxLine)
  {
  }

  /** readFileSelectorWithLimit with a line anchor. */
  method ScanLine(content: Bytes, bufferSize: nat, n: nat, maxBytes: nat, maxLine: nat) returns (r: Answer)
    requires 0 < bufferSize && 0 < n
    ensures r == Scanned(content, n, maxBytes, maxLine)
  {
    var reader := new Reader(content, bufferSize, 0);
    var current := 0;
    AtStart(content, maxLine);
    while true
      invariant reader.Valid() && reader.content == content && Reached(content, reader.pos, current, maxLine) && current < n
      decreases |content| - reader.pos
    {
      var read := NextLine(reader, maxLine, current);
      ScanStep(content, current, n, maxBytes, maxLine, read);
      match read {
        case EndOfFile => return Err(LineNotFound);
        case TooLong => return Err(LineTooLong);
        case Line(bytes, eof) =>
          current := current + 1;
          if current == n {
            var selected := Trim(bytes);
            return if |selected| > maxBytes then Err(OverLimit) else Ok(selected);
          }
          if eof {
            return Err(LineNotFound);
          }
      }
    }
  }

  lemma ScanStep(content: Bytes, current: nat, n: nat, maxBytes: nat, maxLine: nat, read: LineRead)
    requires current < n && current <= |Lines(content)| && !AnyLong(Lines(content), current, maxLine)
    requires Read(Lines(content), current, maxLine, read)
    requires read.Line? ==> !AnyLong(Lines(content), current + 1, maxLine)
    ensures match read
            case EndOfFile => Scanned(content, n, maxBytes, maxLine) == Err(LineNotFound)
            case TooLong => Scanned(content, n, maxBytes, maxLine) == Err(LineTooLong)
            case Line(bytes, eof) =>
              && (current + 1 == n ==> Scanned(content, n, maxBytes, maxLine) ==
                                       if |Trim(bytes)| > maxBytes then Err(OverLimit) else Ok(Trim(bytes)))
              && (current + 1 < n && eof ==> Scanned(content, n, maxBytes, maxLine) == Err(LineNotFound))
  {
    if read.TooLong? {
      LongSoFar(Lines(content), current, n, maxLine);
    }
  }

  lemma LongSoFar(lines: seq<Bytes>, current: nat, n: nat, maxLine: nat)
    requires current < n && current < |lines| && AnyLong(lines, current + 1, maxLine)
    ensures AnyLong(lines, Min(n, |lines|), maxLine)
  {
    LongStays(lines, current + 1, Min(n, |lines|), maxLine);
  }

  lemma IndexNext(content: Bytes, offsets: seq<nat>, offset: nat, maxLine: nat)
    requires IsIndex(content, offsets, |offsets|) && |offsets| < |Lines(content)| && Reached(content, offset, |offsets|, maxLine)
    ensures IsIndex(content, offsets + [offset], |offsets| + 1)
  {
  }

  /** lineOffsets: the whole file is read once, and an overlong line anywhere fails it. */
  method BuildOffsets(content: Bytes, bufferSize: nat, maxLine: nat) returns (r: Result<seq<nat>, ReadError>)
    requires 0 < bufferSize
    ensures r.Err? ==> r.error == LineTooLong
    ensures r.Err? <==> AnyLong(Lines(content), |Lines(content)|, maxLine)
    ensures r.Ok? ==> IsIndex(content, r.value, |Lines(content)|)
  {
    var reader := new Reader(content, bufferSize, 0);
    var offsets: seq<nat> := [];
    var offset := 0;
    AtStart(content, maxLine);
    while true
      invariant reader.Valid() && reader.content == content && reader.pos == offset
      invariant Reached(content, offset, |offsets|, maxLine) && IsIndex(content, offsets, |offsets|)
      decreases |content| - offset
    {
      ghost var at := offset;
      var read := NextLine(reader, maxLine, |offsets|);
      if read.Line? {
        IndexNext(content, offsets, at, maxLine);
      }
      match read {
        case EndOfFile => return Ok(offsets);
        case TooLong => return Err(LineTooLong);
        case Line(bytes, eof) =>
          offsets := offsets + [offset];
          offset := offset + |bytes|;
          if eof {
            return Ok(offsets);
          }
      }
    }
  }

  // ----- the resolver -----

  const MAX_INT64: nat := 0x8000_0000_0000_0000

  /** "L" and a positive 64-bit number, as ParseInt reads it. */
  function LineAnchor(fragment: string): (n: Option<nat>)
    ensures n.Some? ==> n.value > 0
  {
    if fragment == "" || fragment[0] != 'L' then None
    else
      var text := fragment[1..];
      var digits := if text != "" && text[0] == '+' then text[1..] else text;
      if Decimal(digits) && 0 < Value(digits) < MAX_INT64 then Some(Value(digits)) else None
  }

  lemma SameNumber(digits: string, n: nat)
    requires Decimal(digits)
    ensures Trimmed(digits) == Format(n) <==> Value(digits) == n
  {
    FormatValue(digits);
    ValueOfFormat(Value(digits));
    ValueOfFormat(n);
  }

  /** A plus sign and zeros in front are accepted; otherwise it is the printed number. */
  lemma LineAnchorMeans(fragment: string, n: nat)
    ensures LineAnchor(fragment) == Some(n) <==>
            && |fragment| > 1 && fragment[0] == 'L' && 0 < n < 9_223_372_036_854_775_808
            && var digits := if fragment[1] == '+' then fragment[2..] else fragment[1..];
               Decimal(digits) && Trimmed(digits) == Format(n)
  {
    if |fragment| > 1 && fragment[0] == 'L' {
      var digits := if fragment[1] == '+' then fragment[2..] else fragment[1..];
      assert fragment[1..][1..] == fragment[2..];
      if Decimal(digits) {
        SameNumber(digits, n);
      }
    }
  }

  datatype Handle = Handle(path: string, content: Bytes)

  class PayloadResolver {
    const files: map<string, Bytes>
    const maxBytes: nat
    const maxLine: nat
    const bufferSize: nat
    var lineCache: map<(string, string), Bytes>
    var lineIndexes: map<string, seq<nat>>
    var activeFile: Option<Handle>

    /** What a selector means: a line through the index, or the whole file. */
    function Wanted(path: string, fragment: string): Answer {
      if path !in files then Err(OpenFailed)
      else match LineAnchor(fragment)
           case Some(n) => Indexed(files[path], n, maxBytes, maxLine)
           case None => if |files[path]| > maxBytes then Err(OverLimit) else Ok(files[path])
    }

    /** The caches hold nothing but answers, indexes and handles of the files as they are. */
    ghost predicate Valid()
      reads this
    {
      && 0 < bufferSize
      && (forall k | k in lineCache :: LineAnchor(k.1).Some? && Wanted(k.0, k.1) == Ok(lineCache[k]))
      && (forall p | p in lineIndexes :: p in files && IsIndex(files[p], lineIndexes[p], |Lines(files[p])|)
                                         && !AnyLong(Lines(files[p]), |Lines(files[p])|, maxLine))
      && (activeFile.Some? ==> activeFile.value.path in files && activeFile.value.content == files[activeFile.value.path])
    }

    constructor (files: map<string, Bytes>, maxBytes: nat, maxLine: nat, bufferSize: nat)
      requires 0 < bufferSize
      ensures Valid() && this.files == files && this.maxBytes == maxBytes && this.maxLine == maxLine
    {
      this.files, this.maxBytes, this.maxLine, this.bufferSize := files, maxBytes, maxLine, bufferSize;
      lineCache, lineIndexes, activeFile := map[], map[], None;
    }

    method LineOffsets(path: string) returns (r: Result<seq<nat>, ReadError>)
      requires Valid()
      modifies this`lineIndexes
      ensures Valid()
      ensures r.Err? <==> path !in files || AnyLong(Lines(files[path]), |Lines(files[path])|, maxLine)
      ensures r.Err? ==> r.error == if path in files then LineTooLong else OpenFailed
      ensures r.Ok? ==> IsIndex(files[path], r.value, |Lines(files[path])|)
    {
      if path in lineIndexes {
        return Ok(lineIndexes[path]);
      }
      if path !in files {
        return Err(OpenFailed);
      }
      r := BuildOffsets(files[path], bufferSize, maxLine);
      if r.Ok? {
        lineIndexes := lineIndexes[path := r.value];
      }
    }

    /** The file left open by the last read, if it is this one; else it is opened in its place. */
    method ActiveFile(path: string) returns (h: Handle)
      requires Valid() && path in files
      modifies this`activeFile
      ensures Valid() && h == Handle(path, files[path])
    {
      if activeFile.Some? && activeFile.value.path == path {
        return activeFile.value;
      }
      h := Handle(path, files[path]);
      activeFile := Some(h);
    }

    method ReadIndexedLine(path: string, n: nat) returns (r: Answer)
      requires Valid()
      modifies this`lineIndexes, this`activeFile
      ensures Valid() && r == if path in files then Indexed(files[path], n, maxBytes, maxLine) else Err(OpenFailed)
    {
      var offsets := LineOffsets(path);
      if offsets.Err? {
        return Err(offsets.error);
      }
      if n == 0 || n > |offsets.value| {
        return Err(LineNotFound);
      }
      var file := ActiveFile(path);
      r := ReadAt(file.content, offsets.value[n - 1], n);
    }

    /** Seek and read one line. */
    method ReadAt(content: Bytes, offset: nat, n: nat) returns (r: Answer)
      requires Valid() && 0 < n <= |Lines(content)| && offset == Start(content, n - 1)
      requires !AnyLong(Lines(content), |Lines(content)|, maxLine)
      ensures r == Indexed(content, n, maxBytes, maxLine)
    {
      var lines := Lines(content);
      StartsLine(content, n - 1);
      assert lines[n - 1..][0] == lines[n - 1];
      if |lines[n - 1]| > maxLine {
        LongHas(lines, |lines|, n - 1, maxLine);
      }
      assert LinesFrom(content, offset)[0] == content[offset..LineEnd(content, offset)];
      var reader := new Reader(content, bufferSize, offset);
      var read := reader.ReadLine(maxLine);
      var selected := Trim(read.bytes);
      return if |selected| > maxBytes then Err(OverLimit) else Ok(selected);
    }

    /** Whatever was asked before, and in whatever order, the answer is the one the files give. */
    method ReadFileSelector(path: string, fragment: string) returns (r: Answer)
      requires Valid()
      modifies this
      ensures Valid() && r == Wanted(path, fragment)
      ensures path !in files ==> r == Err(OpenFailed)
      ensures path in files && LineAnchor(fragment).None? ==> r == if |files[path]| > maxBytes then Err(OverLimit) else Ok(files[path])
      ensures path in files && LineAnchor(fragment).Some? ==>
                var lines := Lines(files[path]);
                Answers(lines, TooLongIn(lines, |lines|, maxLine), LineAnchor(fragment).value, maxBytes, r)
    {
      if path in files && LineAnchor(fragment).Some? {
        AnswersAre(files[path], LineAnchor(fragment).value, maxBytes, maxLine);
      }
      var n := LineAnchor(fragment);
      if n.None? {
        if path !in files {
          return Err(OpenFailed);
        }
        return if |files[path]| > maxBytes then Err(OverLimit) else Ok(files[path]);
      }
      if (path, fragment) in lineCache {
        return Ok(lineCache[(path, fragment)]);
      }
      r := ReadIndexedLine(path, n.value);
      if r.Ok? {
        lineCache := lineCache[(path, fragment) := r.value];
      }
    }
  }
}
