/** The string decisions of the command-line front ends: the input file's
    extension, the savefile's extension, output file names, the threshold
    list, and the classification of the lines of a file list. */
module FrontEnd {
  import opened Outcomes

  /** `s.rfind(c)`: the index of the last `c`, if any. */
  function LastIndexOf(s: string, c: char): (r: Option<nat>)
    ensures r.None? <==> c !in s
    ensures r.Some? ==> r.value < |s| && s[r.value] == c && c !in s[r.value + 1..]
  {
    if s == [] then None
    else if s[|s| - 1] == c then Some(|s| - 1)
    else
      var r := LastIndexOf(s[..|s| - 1], c);
      assert s == s[..|s| - 1] + [s[|s| - 1]];
      if r.Some? then
        assert s[r.value + 1..] == s[..|s| - 1][r.value + 1..] + [s[|s| - 1]];
        r
      else r
  }

  /** The text after the last `'.'`, or nothing when the name has no `'.'`:
      `substr(idx + 1, length - idx)` runs to the end of the name. */
  function ExtensionOf(name: string): (r: Option<string>)
    ensures r.None? <==> '.' !in name
    ensures r.Some? ==> '.' !in r.value && exists i :: 0 <= i < |name| && name[i] == '.' && r.value == name[i + 1..]
  {
    match LastIndexOf(name, '.')
    case None => None
    case Some(i) => Some(name[i + 1..])
  }

  /** The input extension as `samplerace` and `permuterace` derive it: the
      `"fq"` test runs while the extension is still empty, so it never
      fires, and a `.fq` file is refused. */
  function InputExtensionAsWritten(name: string): Result<string> {
    var ext := "";
    var ext := if ext == "fq" then "fastq" else ext;
    match ExtensionOf(name)
    case None => Err(NoExtension)
    case Some(e) =>
      if e != "fasta" && e != "fastq" then Err(UnknownExtension(e)) else Ok(e)
  }

  /** The input extension as `sampleracesavable` and
      `sampleracemanyfilestaus` derive it: `"fq"` is read as `"fastq"`
      after extraction. */
  function InputExtension(name: string): Result<string> {
    match ExtensionOf(name)
    case None => Err(NoExtension)
    case Some(e) =>
      var e := if e == "fq" then "fastq" else e;
      if e != "fasta" && e != "fastq" then Err(UnknownExtension(e)) else Ok(e)
  }

  /** The extension check of every name of a list, in order. */
  function Extensions(names: seq<string>): (exts: seq<Result<string>>)
    ensures |exts| == |names|
    ensures forall i :: 0 <= i < |names| ==> exts[i] == InputExtension(names[i])
  {
    seq(|names|, i requires 0 <= i < |names| => InputExtension(names[i]))
  }

  /** A name is refused exactly when it has no `'.'` or its extension is
      not `fasta`, `fastq` or `fq`; an accepted name yields the format the
      record parser understands. */
  lemma InputExtensionAccepts(name: string)
    ensures InputExtension(name) == Err(NoExtension) <==> '.' !in name
    ensures InputExtension(name).Ok? <==>
              ExtensionOf(name).Some? && ExtensionOf(name).value in {"fasta", "fastq", "fq"}
    ensures InputExtension(name).Ok? ==> InputExtension(name).value in {"fasta", "fastq"}
    ensures ExtensionOf(name) == Some("fq") ==> InputExtension(name) == Ok("fastq")
  {
  }

  /** The two derivations differ on exactly the names ending in `.fq`. */
  lemma {:induction false} FqRejectedAsWritten(name: string)
    ensures ExtensionOf(name) == Some("fq") ==>
              InputExtensionAsWritten(name) == Err(UnknownExtension("fq")) && InputExtension(name) == Ok("fastq")
    ensures ExtensionOf(name) != Some("fq") ==> InputExtensionAsWritten(name) == InputExtension(name)
  {
    if ExtensionOf(name).Some? && ExtensionOf(name).value != "fq" {
      var e := ExtensionOf(name).value;
      assert (if e == "fq" then "fastq" else e) == e;
    }
  }

  /** A concrete input that shows it. */
  lemma FqInputRefused()
    ensures InputExtensionAsWritten("reads.fq") == Err(UnknownExtension("fq"))
    ensures InputExtension("reads.fq") == Ok("fastq")
  {
    assert LastIndexOf("reads.fq", '.') == Some(5);
    FqRejectedAsWritten("reads.fq");
  }

  /** The savefile check of `sampleracesavable`: the name must have a
      `'.'` and the extension `bin`. */
  function SavefileExtension(name: string): Result<string> {
    match ExtensionOf(name)
    case None => Err(NoExtension)
    case Some(e) => if e == "bin" then Ok(e) else Err(UnknownExtension(e))
  }

  lemma SavefileNeedsBin(name: string)
    ensures SavefileExtension(name).Ok? <==> ExtensionOf(name) == Some("bin")
    ensures SavefileExtension(name) == Err(NoExtension) <==> '.' !in name
  {
  }

  /** An output file name: `base + "-" + tau + "." + extension`, where
      `tauText` is the decimal text `std::to_string` gives the threshold. */
  function OutputName(base: string, tauText: string, ext: string): string {
    base + "-" + tauText + "." + ext
  }

  /** Different threshold texts give different output files, and each
      output carries the extension it was given. */
  lemma OutputNamesDistinct(base: string, t1: string, t2: string, ext: string)
    requires '.' !in ext
    ensures t1 != t2 ==> OutputName(base, t1, ext) != OutputName(base, t2, ext)
    ensures ExtensionOf(OutputName(base, t1, ext)) == Some(ext)
  {
    var n1, n2 := OutputName(base, t1, ext), OutputName(base, t2, ext);
    if |t1| == |t2| {
      assert n1[|base| + 1..|base| + 1 + |t1|] == t1;
      assert n2[|base| + 1..|base| + 1 + |t2|] == t2;
    }
    var i := |n1| - |ext| - 1;
    assert n1[i] == '.' && n1[i + 1..] == ext;
    LastIndexOfIs(n1, '.', i);
  }

  /** A `c` with none after it is the last one. */
  lemma LastIndexOfIs(s: string, c: char, i: nat)
    requires i < |s| && s[i] == c && c !in s[i + 1..]
    ensures LastIndexOf(s, c) == Some(i)
  {
  }

  /** One output name per threshold, in threshold order; `show` is the
      decimal text of a threshold. */
  function OutputNames(base: string, taus: seq<real>, ext: string, show: real -> string): (names: seq<string>)
    ensures |names| == |taus|
    ensures forall t :: 0 <= t < |taus| ==> names[t] == OutputName(base, show(taus[t]), ext)
  {
    seq(|taus|, t requires 0 <= t < |taus| => OutputName(base, show(taus[t]), ext))
  }

  /** The threshold list: the values read from the comma-separated
      argument, all of which must be positive. */
  method ParseTaus(values: seq<real>) returns (taus: Option<seq<real>>)
    ensures taus.Some? <==> forall i :: 0 <= i < |values| ==> values[i] > 0.0
    ensures taus.Some? ==> taus.value == values
  {
    var acc: seq<real> := [];
    var i := 0;
    while i < |values|
      invariant i <= |values| && acc == values[..i]
      invariant forall j :: 0 <= j < i ==> values[j] > 0.0
    {
      if values[i] <= 0.0 {
        return None;
      }
      acc := acc + [values[i]];
      i := i + 1;
    }
    assert values[..i] == values;
    return Some(acc);
  }

  /** `pat` occurs in `s` at index `i`. */
  predicate OccursAt(s: string, pat: string, i: int) {
    0 <= i <= |s| - |pat| && s[i..i + |pat|] == pat
  }

  /** Whether `pat` occurs in `s` (`s.rfind(pat) != npos`). */
  function HasInfix(s: string, pat: string): (b: bool)
    ensures b <==> exists i :: OccursAt(s, pat, i)
  {
    if |s| < |pat| then false
    else if s[..|pat|] == pat then assert OccursAt(s, pat, 0); true
    else
      var b := HasInfix(s[1..], pat);
      assert b ==> exists i :: OccursAt(s, pat, i) by {
        if b {
          var i :| OccursAt(s[1..], pat, i);
          assert s[i + 1..i + 1 + |pat|] == s[1..][i..i + |pat|];
          assert OccursAt(s, pat, i + 1);
        }
      }
      assert (exists i :: OccursAt(s, pat, i)) ==> b by {
        if exists i :: OccursAt(s, pat, i) {
          var i :| OccursAt(s, pat, i);
          assert i != 0;
          assert s[1..][i - 1..i - 1 + |pat|] == s[i..i + |pat|];
          assert OccursAt(s[1..], pat, i - 1);
        }
      }
      b
  }

  /** What a line of the file list is: `Blank` lines make `line.at(0)`
      throw; a `Directory` line sets the prefix; a `Listed` line names an
      input file for list 1 or, with `second`, list 2. */
  datatype LineKind = Blank | Directory | Listed(second: bool) | Unrecognized

  function Classify(line: string, paired: bool): LineKind {
    if line == [] then Blank
    else if line[0] == '/' && LastIndexOf(line, '.').None? then Directory
    else if !paired then (if LastIndexOf(line, '.').Some? then Listed(false) else Unrecognized)
    else if HasInfix(line, "_1") && LastIndexOf(line, '.').Some? then Listed(false)
    else if HasInfix(line, "_2") && LastIndexOf(line, '.').Some? then Listed(true)
    else Unrecognized
  }

  /** The classification rules: a rooted line without `'.'` is a directory;
      any other line with `'.'` is a file (for paired reads, one naming
      `_1`, checked first, or `_2`); the rest are dropped. */
  lemma ClassifyRules(line: string, paired: bool)
    requires line != []
    ensures Classify(line, paired) == Directory <==> line[0] == '/' && '.' !in line
    ensures !paired ==> (Classify(line, paired) == Listed(false) <==> '.' in line && !(line[0] == '/' && '.' !in line))
    ensures paired && '.' in line && HasInfix(line, "_1") ==> Classify(line, paired) == Listed(false)
    ensures paired ==> (Classify(line, paired) == Listed(true) <==> '.' in line && !HasInfix(line, "_1") && HasInfix(line, "_2"))
    ensures Classify(line, paired) == Unrecognized <==>
              ('.' !in line && line[0] != '/') || (paired && '.' in line && !HasInfix(line, "_1") && !HasInfix(line, "_2"))
  {
  }

  /** The two input lists built so far and the current directory prefix. */
  datatype ListState = ListState(prefix: string, first: seq<string>, second: seq<string>)

  /** The list state after the given lines, or `None` once a blank line has
      ended the program. */
  function ListAfter(lines: seq<string>, paired: bool): Option<ListState> {
    if lines == [] then Some(ListState("", [], []))
    else
      var n := |lines| - 1;
      match ListAfter(lines[..n], paired)
      case None => None
      case Some(st) =>
        match Classify(lines[n], paired)
        case Blank => None
        case Directory => Some(st.(prefix := lines[n]))
        case Listed(second) =>
          var entry := st.prefix + "/" + lines[n];
          if second then Some(st.(second := st.second + [entry])) else Some(st.(first := st.first + [entry]))
        case Unrecognized => Some(st)
  }

  /** Reading the file list line by line. */
  method ReadFileList(lines: seq<string>, paired: bool) returns (lists: Option<ListState>)
    ensures lists == ListAfter(lines, paired)
  {
    var prefix, first, second := "", [], [];
    var i := 0;
    while i < |lines|
      invariant i <= |lines| && ListAfter(lines[..i], paired) == Some(ListState(prefix, first, second))
      decreases |lines| - i
    {
      var line := lines[i];
      assert lines[..i + 1][..i] == lines[..i];
      match Classify(line, paired) {
        case Blank =>
          assert lines == lines[..i] + [""] + lines[i + 1..];
          BlankLineAborts(lines[..i], lines[i + 1..], paired);
          return None;
        case Directory =>
          prefix := line;
        case Listed(s) =>
          if s {
            second := second + [prefix + "/" + line];
          } else {
            first := first + [prefix + "/" + line];
          }
        case Unrecognized =>
      }
      i := i + 1;
    }
    assert lines[..i] == lines;
    return Some(ListState(prefix, first, second));
  }

  /** A blank line anywhere ends the program, whatever follows. */
  lemma {:induction false} BlankLineAborts(before: seq<string>, after: seq<string>, paired: bool)
    ensures ListAfter(before + [""] + after, paired) == None
    decreases |after|
  {
    if after == [] {
      assert (before + [""] + after)[..|before|] == before;
    } else {
      var n := |after| - 1;
      assert (before + [""] + after)[..|before| + 1 + n] == before + [""] + after[..n];
      BlankLineAborts(before, after[..n], paired);
    }
  }

  /** Until the first directory line the prefix is empty, so a file listed
      before any directory becomes `"/" + name`. */
  lemma {:induction false} PrefixStartsEmpty(lines: seq<string>, paired: bool)
    requires forall i :: 0 <= i < |lines| ==> Classify(lines[i], paired) != Directory
    ensures ListAfter(lines, paired).Some? ==> ListAfter(lines, paired).value.prefix == ""
  {
    if lines != [] {
      PrefixStartsEmpty(lines[..|lines| - 1], paired);
    }
  }

  /** A file line is appended with the latest directory before it; a
      directory line replaces the prefix and lists nothing; an unrecognised
      line changes nothing and does not end the program. */
  lemma ListStep(lines: seq<string>, line: string, paired: bool)
    requires ListAfter(lines, paired).Some?
    ensures var st := ListAfter(lines, paired).value;
            match Classify(line, paired)
            case Blank => ListAfter(lines + [line], paired) == None
            case Directory => ListAfter(lines + [line], paired) == Some(st.(prefix := line))
            case Listed(second) =>
              if second then ListAfter(lines + [line], paired) == Some(st.(second := st.second + [st.prefix + "/" + line]))
              else ListAfter(lines + [line], paired) == Some(st.(first := st.first + [st.prefix + "/" + line]))
            case Unrecognized => ListAfter(lines + [line], paired) == Some(st)
  {
    assert (lines + [line])[..|lines|] == lines;
  }
}
