/**
 Finding the last record of the audit file by reading backwards a block at a
 time, against the plain reading "parse the last line that is not blank"
 (backend/core/audit.py, `_tail`).
 */
module AuditTail {
  import opened Wrappers
  import opened AuditChain

  newtype Byte = b: int | 0 <= b < 256

  type Bytes = seq<Byte>

  const NEWLINE: Byte := 10

  /**
   What one line yields: its sequence number and hash; that it is no JSON text, which the scan passes over; or
   an error it does not catch, as from bytes that are no UTF-8 or a JSON text that is no such object.
   */
  datatype Parse = Read(tail: (int, Digest)) | NotJson | Raises

  type Parser = Bytes -> Parse

  /** What the scan comes to on a line it does not pass over; `None` is the error. */
  function Outcome(p: Parse): Option<(int, Digest)>
    requires p != NotJson
  {
    if p.Read? then Some(p.tail) else None
  }

  /** The bytes `bytes.strip()` removes. */
  predicate IsSpace(b: Byte)
  {
    b == 32 || 9 <= b <= 13
  }

  ghost predicate Blank(line: Bytes)
  {
    forall i :: 0 <= i < |line| ==> IsSpace(line[i])
  }

  method IsBlank(line: Bytes) returns (blank: bool)
    ensures blank <==> Blank(line)
  {
    for i := 0 to |line|
      invariant Blank(line[..i])
    {
      if !IsSpace(line[i]) {
        return false;
      }
    }
    blank := true;
  }

  /** `bytes.split(b"\n")`. */
  function Split(buffer: Bytes): (lines: seq<Bytes>)
    ensures lines != []
  {
    if buffer == [] then [[]]
    else
      var rest := Split(buffer[1..]);
      if buffer[0] == NEWLINE then [[]] + rest else [[buffer[0]] + rest[0]] + rest[1..]
  }

  ghost function LastNotBlank(lines: seq<Bytes>): Option<Bytes>
  {
    if lines == [] then None
    else if !Blank(lines[|lines| - 1]) then Some(lines[|lines| - 1])
    else LastNotBlank(lines[..|lines| - 1])
  }

  ghost function LastLine(buffer: Bytes): Option<Bytes>
  {
    LastNotBlank(Split(buffer))
  }

  /** The specification: the last line that is not blank, or the empty log's tail. */
  ghost function ParsedLastLine(file: Bytes, parse: Parser): Option<(int, Digest)>
  {
    match LastLine(file)
    case None => Some((0, GENESIS))
    case Some(line) => if parse(line) != NotJson then Outcome(parse(line)) else Some((0, GENESIS))
  }

  /** What reading backwards returns when everything from `size` on has been read already. */
  ghost function Scan(file: Bytes, size: nat, block: nat, parse: Parser): Option<(int, Digest)>
    requires size <= |file| && block >= 1
  {
    if size == 0 then Some((0, GENESIS))
    else
      var start := if block < size then size - block else 0;
      match LastLine(file[start..])
      case Some(line) => if parse(line) != NotJson then Outcome(parse(line)) else Scan(file, start, block, parse)
      case None => Scan(file, start, block, parse)
  }

  // --- the loop ------------------------------------------------------------

  /** `_tail`; `None` where it raises. */
  method Tail(file: Bytes, block: nat, parse: Parser) returns (tail: Option<(int, Digest)>)
    requires block >= 1
    ensures tail == Scan(file, |file|, block, parse)
    ensures NothingMisleads(file, parse) ==> tail == ParsedLastLine(file, parse)
  {
    if NothingMisleads(file, parse) {
      ScanParsesLastLine(file, |file|, block, parse);
    }
    var size := |file|;
    var buffer: Bytes := [];
    while size > 0
      invariant 0 <= size <= |file|
      invariant buffer == file[size..]
      invariant Scan(file, size, block, parse) == Scan(file, |file|, block, parse)
    {
      var step := if block < size then block else size;
      size := size - step;
      buffer := file[size..size + step] + buffer;
      assert buffer == file[size..];
      var line := FindLastLine(Split(buffer));
      if line.Some? {
        var record := parse(line.value);
        if record != NotJson {
          return Outcome(record);
        }
      }
    }
    tail := Some((0, GENESIS));
  }

  method FindLastLine(lines: seq<Bytes>) returns (line: Option<Bytes>)
    ensures line == LastNotBlank(lines)
  {
    var n := |lines|;
    assert lines[..n] == lines;
    while n > 0
      invariant 0 <= n <= |lines|
      invariant LastNotBlank(lines[..n]) == LastNotBlank(lines)
    {
      assert lines[..n][..n - 1] == lines[..n - 1];
      var blank := IsBlank(lines[n - 1]);
      if !blank {
        return Some(lines[n - 1]);
      }
      n := n - 1;
    }
    line := None;
  }

  // --- splitting -----------------------------------------------------------

  ghost predicate OneLine(line: Bytes)
  {
    NEWLINE !in line
  }

  /** What putting one byte in front of a text does to its lines. */
  function Prepend(b: Byte, lines: seq<Bytes>): seq<Bytes>
    requires lines != []
  {
    if b == NEWLINE then [[]] + lines else [[b] + lines[0]] + lines[1..]
  }

  lemma SplitCons(b: Byte, rest: Bytes)
    ensures Split([b] + rest) == Prepend(b, Split(rest))
  {
    assert ([b] + rest)[1..] == rest;
  }

  lemma PrependJoined(b: Byte, lines: seq<Bytes>, more: seq<Bytes>)
    requires lines != []
    ensures Prepend(b, lines + more) == Prepend(b, lines) + more
  {
  }

  lemma {:induction false} SplitJoined(x: Bytes, y: Bytes)
    ensures Split(x + [NEWLINE] + y) == Split(x) + Split(y)
  {
    if x == [] {
      SplitCons(NEWLINE, y);
      assert x + [NEWLINE] + y == [NEWLINE] + y;
    } else {
      SplitJoined(x[1..], y);
      OneMoreByte(x[0], x[1..], y);
      assert x + [NEWLINE] + y == [x[0]] + (x[1..] + [NEWLINE] + y) && x == [x[0]] + x[1..];
    }
  }

  lemma OneMoreByte(b: Byte, x: Bytes, y: Bytes)
    requires Split(x + [NEWLINE] + y) == Split(x) + Split(y)
    ensures Split([b] + (x + [NEWLINE] + y)) == Split([b] + x) + Split(y)
  {
    SplitCons(b, x + [NEWLINE] + y);
    SplitCons(b, x);
    PrependJoined(b, Split(x), Split(y));
  }

  lemma {:induction false} SplitOneLine(line: Bytes)
    requires OneLine(line)
    ensures Split(line) == [line]
  {
    if line != [] {
      SplitOneLine(line[1..]);
      assert [line[0]] + line[1..] == line;
    }
  }

  lemma {:induction false} SplitBlank(buffer: Bytes)
    requires Blank(buffer)
    ensures forall i :: 0 <= i < |Split(buffer)| ==> Blank(Split(buffer)[i])
  {
    if buffer != [] {
      SplitBlank(buffer[1..]);
    }
  }

  lemma {:induction false} LastOfBlank(lines: seq<Bytes>)
    requires forall i :: 0 <= i < |lines| ==> Blank(lines[i])
    ensures LastNotBlank(lines) == None
  {
    if lines != [] {
      LastOfBlank(lines[..|lines| - 1]);
    }
  }

  lemma {:induction false} LastOfTwo(a: seq<Bytes>, b: seq<Bytes>)
    ensures LastNotBlank(a + b) == if LastNotBlank(b).Some? then LastNotBlank(b) else LastNotBlank(a)
  {
    if b == [] {
      assert a + b == a;
    } else {
      LastOfTwo(a, b[..|b| - 1]);
      assert (a + b)[..|a + b| - 1] == a + b[..|b| - 1];
    }
  }

  lemma BlankHasNoLine(buffer: Bytes)
    requires Blank(buffer)
    ensures LastLine(buffer) == None
  {
    SplitBlank(buffer);
    LastOfBlank(Split(buffer));
  }

  /** Whole lines, then a line that is not blank, then nothing but blank lines. */
  ghost predicate EndsWith(before: Bytes, line: Bytes, after: Bytes)
  {
    && (before == [] || before[|before| - 1] == NEWLINE)
    && OneLine(line) && !Blank(line)
    && Blank(after) && (after == [] || after[0] == NEWLINE)
  }

  lemma LastLineOfRest(line: Bytes, after: Bytes)
    requires EndsWith([], line, after)
    ensures LastLine(line + after) == Some(line)
  {
    SplitOneLine(line);
    assert LastNotBlank([line]) == Some(line);
    if after == [] {
      assert line + after == line;
    } else {
      assert line + after == line + [NEWLINE] + after[1..];
      SplitJoined(line, after[1..]);
      BlankHasNoLine(after[1..]);
      LastOfTwo([line], Split(after[1..]));
    }
  }

  lemma LastLineIs(before: Bytes, line: Bytes, after: Bytes)
    requires EndsWith(before, line, after)
    ensures LastLine(before + line + after) == Some(line)
  {
    LastLineOfRest(line, after);
    if before == [] {
      assert before + line + after == line + after;
    } else {
      var whole := before[..|before| - 1];
      assert before + line + after == whole + [NEWLINE] + (line + after);
      SplitJoined(whole, line + after);
      LastOfTwo(Split(whole), Split(line + after));
    }
  }

  lemma {:induction false} CutLastNewline(file: Bytes) returns (x: Bytes, y: Bytes)
    requires !OneLine(file)
    ensures file == x + [NEWLINE] + y && OneLine(y)
  {
    var n := |file| - 1;
    if file[n] == NEWLINE {
      x, y := file[..n], [];
    } else {
      x, y := CutLastNewline(file[..n]);
      y := y + [file[n]];
    }
    assert file == file[..n] + [file[n]];
  }

  lemma BlankLinesAfter(before: Bytes, line: Bytes, after: Bytes, more: Bytes)
    requires EndsWith(before, line, after) && Blank(more) && more != [] && more[0] == NEWLINE
    ensures EndsWith(before, line, after + more)
    ensures before + line + after + more == before + line + (after + more)
  {
  }

  lemma {:induction false} CutLastLine(file: Bytes) returns (before: Bytes, line: Bytes, after: Bytes)
    ensures if Blank(file) then LastLine(file) == None
            else file == before + line + after && EndsWith(before, line, after) && LastLine(file) == Some(line)
    decreases |file|
  {
    before, line, after := [], file, [];
    if Blank(file) {
      BlankHasNoLine(file);
      return;
    }
    if !OneLine(file) {
      var x, y := CutLastNewline(file);
      if Blank(y) {
        assert !Blank(x);
        before, line, after := CutLastLine(x);
        BlankLinesAfter(before, line, after, [NEWLINE] + y);
        assert file == x + ([NEWLINE] + y);
        after := after + ([NEWLINE] + y);
      } else {
        before, line := x + [NEWLINE], y;
      }
    }
    assert file == before + line + after;
    LastLineIs(before, line, after);
  }

  // --- when the backward scan is exact -------------------------------------

  /**
   Every proper suffix of the last line is passed over or comes to what the whole line does.
   Records are ASCII JSON objects on one line: a suffix of one is unbalanced, and passed over.
   */
  ghost predicate NothingMisleads(file: Bytes, parse: Parser)
  {
    LastLine(file).Some? ==>
      var line := LastLine(file).value;
      forall k :: 0 < k < |line| && !Blank(line[k..]) && parse(line[k..]) != NotJson ==>
                    Outcome(parse(line[k..])) == ParsedLastLine(file, parse)
  }

  lemma SuffixOfLine(before: Bytes, line: Bytes, after: Bytes, k: nat)
    requires EndsWith(before, line, after) && k < |line|
    ensures LastLine((before + line + after)[|before| + k..]) == if Blank(line[k..]) then None else Some(line[k..])
  {
    assert (before + line + after)[|before| + k..] == [] + line[k..] + after;
    if Blank(line[k..]) {
      BlankHasNoLine([] + line[k..] + after);
    } else {
      LastLineIs([], line[k..], after);
    }
  }

  /** The last line of what has been read so far: a suffix of the file's last line, or all of it. */
  lemma LastLineOfSuffix(file: Bytes, start: nat)
    requires start <= |file|
    ensures LastLine(file) == None ==> LastLine(file[start..]) == None
    ensures LastLine(file).Some? && LastLine(file[start..]).Some? ==>
              var line := LastLine(file).value;
              exists k :: 0 <= k < |line| && !Blank(line[k..]) && LastLine(file[start..]) == Some(line[k..])
  {
    var before, line, after := CutLastLine(file);
    if LastLine(file) == None {
      BlankHasNoLine(file[start..]);
    } else if start < |before| {
      assert file[start..] == before[start..] + line + after;
      LastLineIs(before[start..], line, after);
      assert line[0..] == line;
    } else if start < |before| + |line| {
      SuffixOfLine(before, line, after, start - |before|);
    } else {
      assert file[start..] == after[start - |before| - |line|..];
      BlankHasNoLine(file[start..]);
    }
  }

  lemma {:induction false} ScanParsesLastLine(file: Bytes, size: nat, block: nat, parse: Parser)
    requires size <= |file| && block >= 1
    requires NothingMisleads(file, parse)
    requires size == 0 ==> ParsedLastLine(file, parse) == Some((0, GENESIS))
    ensures Scan(file, size, block, parse) == ParsedLastLine(file, parse)
    decreases size
  {
    if size > 0 {
      var start := if block < size then size - block else 0;
      LastLineOfSuffix(file, start);
      assert start == 0 ==> file[start..] == file;
      if LastLine(file[start..]).Some? && parse(LastLine(file[start..]).value) != NotJson {
        var line := LastLine(file).value;
        var k :| 0 <= k < |line| && !Blank(line[k..]) && LastLine(file[start..]) == Some(line[k..]);
        assert k == 0 ==> line[k..] == line;
      } else {
        ScanParsesLastLine(file, start, block, parse);
      }
    }
  }

  /** A suffix that misleads is what the scan reads when the block ends where the suffix begins. */
  lemma MisleadingBlock(file: Bytes, parse: Parser) returns (block: nat)
    requires !NothingMisleads(file, parse)
    ensures block >= 1 && Scan(file, |file|, block, parse) != ParsedLastLine(file, parse)
  {
    var before, line, after := CutLastLine(file);
    var k :| 0 < k < |line| && !Blank(line[k..]) && parse(line[k..]) != NotJson
             && Outcome(parse(line[k..])) != ParsedLastLine(file, parse);
    SuffixOfLine(before, line, after, k);
    block := |file| - (|before| + k);
  }

  /** The scan parses the last line at every block size exactly when no suffix of that line misleads it. */
  lemma TailExactIff(file: Bytes, parse: Parser)
    ensures (forall block: nat :: block >= 1 ==> Scan(file, |file|, block, parse) == ParsedLastLine(file, parse))
            <==> NothingMisleads(file, parse)
  {
    if NothingMisleads(file, parse) {
      forall block: nat | block >= 1
        ensures Scan(file, |file|, block, parse) == ParsedLastLine(file, parse)
      {
        ScanParsesLastLine(file, |file|, block, parse);
      }
    } else {
      var block := MisleadingBlock(file, parse);
    }
  }

  // --- files this service wrote --------------------------------------------

  /** The file `record` leaves: each record on its own line. */
  function Render(log: seq<Record>, toLine: Record -> Bytes): Bytes
  {
    if log == [] then []
    else Render(log[..|log| - 1], toLine) + toLine(log[|log| - 1]) + [NEWLINE]
  }

  /** One record to one non-blank line that reads back, no part of which reads as anything. */
  ghost predicate Faithful(toLine: Record -> Bytes, parse: Parser)
  {
    forall r ::
      && OneLine(toLine(r)) && !Blank(toLine(r))
      && parse(toLine(r)) == Read(TailOf([r]))
      && forall k :: 0 < k < |toLine(r)| ==> parse(toLine(r)[k..]) == NotJson
  }

  /** Reading back what was written: the tail of the file is the tail of the log, at any block size. */
  lemma TailOfRenderedLog(log: seq<Record>, toLine: Record -> Bytes, parse: Parser, block: nat)
    requires Faithful(toLine, parse) && block >= 1
    ensures var file := Render(log, toLine);
            Scan(file, |file|, block, parse) == Some(TailOf(log))
  {
    var file := Render(log, toLine);
    if log == [] {
      BlankHasNoLine(file);
    } else {
      var before, r := Render(log[..|log| - 1], toLine), log[|log| - 1];
      LastLineIs(before, toLine(r), [NEWLINE]);
      assert LastLine(file) == Some(toLine(r));
      assert NothingMisleads(file, parse);
    }
    ScanParsesLastLine(file, |file|, block, parse);
  }
}
