/** The record-chunk parser `SequenceFeatures`: it reads one FASTA record
    (2 lines, header `>`) or one FASTQ record (4 lines, header `@`) from a
    line stream, and yields the sequence line and the raw text of the
    record. The stream is a list of lines with a cursor; reading past the
    last line yields `""` and leaves the stream failed, as `std::getline`
    does at end of file. */
module RecordIO {
  import opened Outcomes

  /** A line stream: the file's lines, the index of the next unread line,
      and the stream's fail state. */
  datatype Stream = Stream(lines: seq<string>, pos: nat, failed: bool)

  /** What one `std::getline` yields and the stream it leaves. */
  datatype Read = Read(line: string, rest: Stream)

  function ReadLine(st: Stream): Read {
    if st.failed || st.pos >= |st.lines| then Read("", st.(failed := true))
    else Read(st.lines[st.pos], st.(pos := st.pos + 1))
  }

  /** The `i`-th line a reader of `st` would see next (`""` past the end or
      once the stream has failed). */
  function Ahead(st: Stream, i: nat): string {
    if !st.failed && st.pos + i < |st.lines| then st.lines[st.pos + i] else ""
  }

  /** How many real lines are left to read. */
  function Avail(st: Stream): nat {
    if st.failed || st.pos >= |st.lines| then 0 else |st.lines| - st.pos
  }

  /** The stream after `m` reads. */
  function AfterReads(st: Stream, m: nat): Stream
    decreases m
  {
    if m == 0 then st else AfterReads(ReadLine(st).rest, m - 1)
  }

  /** The next `m` lines a reader would see. */
  function Aheads(st: Stream, m: nat): (ls: seq<string>)
    ensures |ls| == m
  {
    seq(m, i requires 0 <= i < m => Ahead(st, i))
  }

  /** Lines joined with a newline after each, as `chunk` accumulates them. */
  function JoinLines(ls: seq<string>): string {
    if ls == [] then "" else ls[0] + "\n" + JoinLines(ls[1..])
  }

  /** The record shape a `fastWhat` names: its number of lines and the
      character its header line begins with. */
  datatype Format = Format(chunkSize: nat, begin: char)

  function FormatOf(fastWhat: string): Option<Format> {
    if fastWhat == "fasta" then Some(Format(2, '>'))
    else if fastWhat == "fastq" then Some(Format(4, '@'))
    else None
  }

  /** The outcome of one `SequenceFeatures` call: the returned flag, the
      final contents of `sequence` and `chunk`, and the stream left behind. */
  datatype Parsed = Parsed(ok: bool, sequence: string, chunk: string, rest: Stream)

  /** The trailing loop: keep reading while fewer than `n` lines have been
      read and the stream has not failed; yields the final line count, the
      chunk and the stream. */
  function Trail(st: Stream, linesRead: nat, n: nat, chunk: string): (nat, string, Stream)
    decreases n - linesRead
  {
    if linesRead < n && !st.failed then
      var r := ReadLine(st);
      Trail(r.rest, linesRead + 1, n, chunk + r.line + "\n")
    else (linesRead, chunk, st)
  }

  /** `SequenceFeatures(in, sequence, chunk, fastWhat)` step by step, from
      stream `st` with `sequence` and `chunk` holding `sequence0` and
      `chunk0` on entry. */
  function Parse(st: Stream, fastWhat: string, sequence0: string, chunk0: string): Parsed {
    match FormatOf(fastWhat)
    case None => Parsed(false, sequence0, chunk0, st)
    case Some(f) =>
      var header := ReadLine(st);
      if |header.line| == 0 || header.line[0] != f.begin then Parsed(false, "", "", header.rest)
      else
        var sq := ReadLine(header.rest);
        if |sq.line| == 0 then Parsed(false, "", header.line + "\n", sq.rest)
        else
          var t := Trail(sq.rest, 2, f.chunkSize, header.line + "\n" + sq.line + "\n");
          Parsed(t.0 == f.chunkSize, sq.line, t.1, t.2)
  }

  /** Reading a line shifts the view ahead by one. */
  lemma ReadLineShifts(st: Stream)
    ensures ReadLine(st).line == Ahead(st, 0)
    ensures forall i: nat :: Ahead(ReadLine(st).rest, i) == Ahead(st, i + 1)
    ensures Avail(ReadLine(st).rest) == if Avail(st) == 0 then 0 else Avail(st) - 1
    ensures ReadLine(st).rest.failed <==> Avail(st) == 0
  {
  }

  lemma {:induction false} AfterReadsShifts(st: Stream, m: nat)
    ensures forall i: nat :: Ahead(AfterReads(st, m), i) == Ahead(st, m + i)
    ensures Avail(AfterReads(st, m)) == if Avail(st) <= m then 0 else Avail(st) - m
    ensures AfterReads(st, m).failed <==> (st.failed || m > Avail(st))
    decreases m
  {
    if m > 0 {
      ReadLineShifts(st);
      AfterReadsShifts(ReadLine(st).rest, m - 1);
    }
  }

  lemma {:induction false} JoinLinesAppend(a: seq<string>, b: seq<string>)
    ensures JoinLines(a + b) == JoinLines(a) + JoinLines(b)
  {
    if a != [] {
      assert (a + b)[0] == a[0];
      assert (a + b)[1..] == a[1..] + b;
      JoinLinesAppend(a[1..], b);
      assert JoinLines(a + b) == a[0] + "\n" + (JoinLines(a[1..]) + JoinLines(b));
    } else {
      assert a + b == b;
    }
  }

  /** The next `a + b` lines are the next `a`, then the `b` after those. */
  lemma AheadsSplit(st: Stream, a: nat, b: nat)
    ensures Aheads(st, a + b) == Aheads(st, a) + Aheads(AfterReads(st, a), b)
  {
    AfterReadsShifts(st, a);
  }

  /** The trailing loop reads `min(n - linesRead, Avail + 1)` lines from a
      live stream (the last of them possibly the empty read that fails it),
      appends each with its newline, and counts every attempted read. */
  lemma {:induction false} TrailReads(st: Stream, linesRead: nat, n: nat, chunk: string)
    requires linesRead <= n
    ensures var m := if st.failed then 0 else if n - linesRead <= Avail(st) + 1 then n - linesRead else Avail(st) + 1;
            Trail(st, linesRead, n, chunk) == (linesRead + m, chunk + JoinLines(Aheads(st, m)), AfterReads(st, m))
    decreases n - linesRead
  {
    if linesRead < n && !st.failed {
      var r := ReadLine(st);
      ReadLineShifts(st);
      TrailReads(r.rest, linesRead + 1, n, chunk + r.line + "\n");
      var m := if n - linesRead <= Avail(st) + 1 then n - linesRead else Avail(st) + 1;
      var m' := if r.rest.failed then 0 else if n - linesRead - 1 <= Avail(r.rest) + 1 then n - linesRead - 1 else Avail(r.rest) + 1;
      assert m' == m - 1;
      AheadsSplit(st, 1, m - 1);
      assert AfterReads(st, 1) == r.rest by {
        assert AfterReads(r.rest, 0) == r.rest;
      }
      JoinLinesAppend(Aheads(st, 1), Aheads(r.rest, m - 1));
      assert Aheads(st, 1) == [r.line];
      assert JoinLines([r.line]) == r.line + "\n";
      assert AfterReads(st, m) == AfterReads(r.rest, m - 1);
      assert JoinLines(Aheads(st, m)) == r.line + "\n" + JoinLines(Aheads(r.rest, m - 1));
      assert chunk + r.line + "\n" + JoinLines(Aheads(r.rest, m - 1)) == chunk + JoinLines(Aheads(st, m));
    } else {
      assert Aheads(st, 0) == [];
      assert chunk + JoinLines([]) == chunk;
      assert AfterReads(st, 0) == st;
    }
  }

  /** An unsupported `fastWhat` returns false at once: nothing is read and
      `sequence` and `chunk` keep what they held. */
  lemma ParseRejectsUnknownFormat(st: Stream, fastWhat: string, sequence0: string, chunk0: string)
    requires fastWhat != "fasta" && fastWhat != "fastq"
    ensures Parse(st, fastWhat, sequence0, chunk0) == Parsed(false, sequence0, chunk0, st)
  {
  }

  /** For a supported format the call succeeds exactly when the header line
      is non-empty and starts with the format's character, the sequence
      line is non-empty, and the stream holds at least `chunkSize - 1` more
      lines: the last line of the record may be the empty read past the end
      of the file, because every attempted read is counted. On success
      `sequence` is the second line, `chunk` is the text of the `chunkSize`
      lines read, each followed by a newline, and exactly that many reads
      have been made. On failure `sequence` is `""` or the second line, so
      nothing from before the call survives. */
  lemma ParseOutcome(st: Stream, fastWhat: string, sequence0: string, chunk0: string, f: Format)
    requires FormatOf(fastWhat) == Some(f)
    ensures var p := Parse(st, fastWhat, sequence0, chunk0);
            && (p.ok <==> Ahead(st, 0) != "" && Ahead(st, 0)[0] == f.begin && Ahead(st, 1) != "" && Avail(st) + 1 >= f.chunkSize)
            && (p.ok ==> p.sequence == Ahead(st, 1) && p.chunk == JoinLines(Aheads(st, f.chunkSize))
                         && p.rest == AfterReads(st, f.chunkSize))
            && (p.sequence == "" || p.sequence == Ahead(st, 1))
            && p.chunk <= JoinLines(Aheads(st, f.chunkSize))
  {
    var header := ReadLine(st);
    ReadLineShifts(st);
    if |header.line| > 0 && header.line[0] == f.begin {
      var sq := ReadLine(header.rest);
      ReadLineShifts(header.rest);
      if |sq.line| > 0 {
        assert AfterReads(sq.rest, 0) == sq.rest;
        assert AfterReads(header.rest, 1) == sq.rest;
        assert AfterReads(st, 2) == sq.rest;
        assert Aheads(st, 2) == [header.line, sq.line];
        assert [header.line, sq.line][1..] == [sq.line];
        assert JoinLines([sq.line]) == sq.line + "\n";
        assert JoinLines(Aheads(st, 2)) == header.line + "\n" + sq.line + "\n";
        ParseTrail(st, f);
      } else {
        JoinLinesPrefix(st, 1, f.chunkSize);
        assert Aheads(st, 1) == [header.line];
        assert JoinLines([header.line]) == header.line + "\n";
      }
    }
  }

  /** Once the header and sequence lines are read, the trailing loop
      completes the record exactly when `chunkSize - 2` more reads can be
      attempted, the last of them possibly the empty read past the end. */
  lemma ParseTrail(st: Stream, f: Format)
    requires f.chunkSize >= 2 && !st.failed && Avail(st) >= 2
    ensures var t := Trail(AfterReads(st, 2), 2, f.chunkSize, JoinLines(Aheads(st, 2)));
            && (t.0 == f.chunkSize <==> Avail(st) + 1 >= f.chunkSize)
            && (t.0 == f.chunkSize ==> t.1 == JoinLines(Aheads(st, f.chunkSize)) && t.2 == AfterReads(st, f.chunkSize))
            && t.1 <= JoinLines(Aheads(st, f.chunkSize))
  {
    var rest := AfterReads(st, 2);
    AfterReadsShifts(st, 2);
    TrailReads(rest, 2, f.chunkSize, JoinLines(Aheads(st, 2)));
    var m := if f.chunkSize - 2 <= Avail(rest) + 1 then f.chunkSize - 2 else Avail(rest) + 1;
    AheadsSplit(st, 2, m);
    JoinLinesAppend(Aheads(st, 2), Aheads(rest, m));
    AfterReadsSplit(st, 2, m);
    JoinLinesPrefix(st, 2 + m, f.chunkSize);
  }

  /** The text of fewer lines is a prefix of the text of more. */
  lemma JoinLinesPrefix(st: Stream, a: nat, b: nat)
    requires a <= b
    ensures JoinLines(Aheads(st, a)) <= JoinLines(Aheads(st, b))
  {
    AheadsSplit(st, a, b - a);
    JoinLinesAppend(Aheads(st, a), Aheads(AfterReads(st, a), b - a));
  }

  lemma {:induction false} AfterReadsSplit(st: Stream, a: nat, b: nat)
    ensures AfterReads(st, a + b) == AfterReads(AfterReads(st, a), b)
    decreases a
  {
    if a > 0 {
      AfterReadsSplit(ReadLine(st).rest, a - 1, b);
    }
  }

  /** A stream with at least `m` lines left is simply advanced by `m` reads. */
  lemma {:induction false} AfterReadsAdvances(st: Stream, m: nat)
    requires !st.failed && m <= Avail(st)
    ensures AfterReads(st, m) == st.(pos := st.pos + m)
    decreases m
  {
    if m > 0 {
      AfterReadsAdvances(ReadLine(st).rest, m - 1);
    }
  }

  /** `SequenceFeatures` with the line count the final check evidently
      means: the number of lines actually read, so that a record cut short
      by the end of the file is refused. */
  function ParseStrict(st: Stream, fastWhat: string, sequence0: string, chunk0: string): Parsed {
    var p := Parse(st, fastWhat, sequence0, chunk0);
    p.(ok := p.ok && !p.rest.failed)
  }

  /** The corrected parser accepts a record only when all `chunkSize` of
      its lines are present, and its chunk is then exactly those lines. */
  lemma ParseStrictOutcome(st: Stream, fastWhat: string, sequence0: string, chunk0: string, f: Format)
    requires FormatOf(fastWhat) == Some(f)
    ensures var p := ParseStrict(st, fastWhat, sequence0, chunk0);
            && (p.ok <==> Ahead(st, 0) != "" && Ahead(st, 0)[0] == f.begin && Ahead(st, 1) != "" && Avail(st) >= f.chunkSize)
            && (p.ok ==> st.pos + f.chunkSize <= |st.lines| && p.sequence == st.lines[st.pos + 1]
                         && p.chunk == JoinLines(st.lines[st.pos..st.pos + f.chunkSize]))
  {
    ParseOutcome(st, fastWhat, sequence0, chunk0, f);
    AfterReadsShifts(st, f.chunkSize);
    if Avail(st) >= f.chunkSize && !st.failed {
      assert Aheads(st, f.chunkSize) == st.lines[st.pos..st.pos + f.chunkSize];
    }
  }

  /** A FASTQ record cut short by the end of the file after its `+` line
      (a header, a sequence line and one more line left): the fourth read
      fails, yet it is counted, so the record is accepted with an empty
      quality line, while the corrected parser refuses it. */
  lemma TruncatedFastqRecordAccepted(st: Stream, sequence0: string, chunk0: string)
    requires !st.failed && st.pos + 3 == |st.lines|
    requires st.lines[st.pos] != "" && st.lines[st.pos][0] == '@' && st.lines[st.pos + 1] != ""
    ensures Parse(st, "fastq", sequence0, chunk0).ok
    ensures Parse(st, "fastq", sequence0, chunk0).chunk == JoinLines(st.lines[st.pos..] + [""])
    ensures !ParseStrict(st, "fastq", sequence0, chunk0).ok
  {
    var f := Format(4, '@');
    ParseOutcome(st, "fastq", sequence0, chunk0, f);
    ParseStrictOutcome(st, "fastq", sequence0, chunk0, f);
    assert Aheads(st, 4) == st.lines[st.pos..] + [""];
  }

  /** An input stream owned by the caller, read line by line. */
  class LineStream {
    var lines: seq<string>
    var pos: nat
    var failed: bool

    function State(): Stream
      reads this
    {
      Stream(lines, pos, failed)
    }

    constructor (text: seq<string>)
      ensures State() == Stream(text, 0, false)
    {
      lines, pos, failed := text, 0, false;
    }

    /** `std::getline(in, line)`. */
    method GetLine() returns (line: string)
      modifies this
      ensures Read(line, State()) == ReadLine(old(State()))
    {
      if failed || pos >= |lines| {
        line, failed := "", true;
      } else {
        line, pos := lines[pos], pos + 1;
      }
    }
  }

  /** `SequenceFeatures(in, sequence, chunk, fastWhat)`: `sequence` and
      `chunk` come in holding `sequence0` and `chunk0` and are returned with
      their final contents, together with the flag; the stream ends where
      `Parse` says. */
  method SequenceFeatures(input: LineStream, fastWhat: string, sequence0: string, chunk0: string)
      returns (ok: bool, sequence: string, chunk: string)
    modifies input
    ensures Parsed(ok, sequence, chunk, input.State()) == Parse(old(input.State()), fastWhat, sequence0, chunk0)
  {
    ghost var st0 := input.State();
    var chunkSize: nat, begin: char;
    if fastWhat == "fasta" {
      chunkSize, begin := 2, '>';
    } else if fastWhat == "fastq" {
      chunkSize, begin := 4, '@';
    } else {
      return false, sequence0, chunk0;
    }
    assert FormatOf(fastWhat) == Some(Format(chunkSize, begin));
    sequence, chunk := "", "";
    var linesRead: nat := 0;
    var buffer := input.GetLine();
    ghost var header := ReadLine(st0);
    linesRead := linesRead + 1;
    if |buffer| == 0 || buffer[0] != begin {
      return false, sequence, chunk;
    }
    chunk := chunk + buffer + "\n";
    sequence := input.GetLine();
    ghost var sq := ReadLine(header.rest);
    linesRead := linesRead + 1;
    if |sequence| == 0 {
      return false, sequence, chunk;
    }
    chunk := chunk + sequence + "\n";
    ghost var afterTwo := input.State();
    ghost var chunkTwo := chunk;
    assert afterTwo == sq.rest && chunkTwo == header.line + "\n" + sq.line + "\n";
    while linesRead < chunkSize && !input.failed
      invariant Trail(input.State(), linesRead, chunkSize, chunk) == Trail(afterTwo, 2, chunkSize, chunkTwo)
      decreases chunkSize - linesRead
    {
      buffer := input.GetLine();
      linesRead := linesRead + 1;
      chunk := chunk + buffer + "\n";
    }
    ok := linesRead == chunkSize;
    ghost var t := Trail(afterTwo, 2, chunkSize, chunkTwo);
    assert t == (linesRead, chunk, input.State());
    assert Parse(st0, fastWhat, sequence0, chunk0) == Parsed(t.0 == chunkSize, sq.line, t.1, t.2);
  }
}
