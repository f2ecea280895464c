/**
 * `parseYamlBlock` of the desktop front end's YAML console block: the
 * input's lines are trimmed and the empty ones dropped; a line starting
 * with '#' sets the header, and any other line holding ':' gives a
 * key/value pair split at its first ':'.
 */
module ConsoleYaml {
  import opened Text

  /** `input.split("\n").map(l => l.trim()).filter(Boolean)`. */
  function Lines(input: string): (r: seq<string>)
    ensures forall k :: 0 <= k < |r| ==> r[k] != ""
  {
    Kept(Split(input, '\n'))
  }

  /** The trimmed lines that are not empty, in order. */
  function Kept(raw: seq<string>): (r: seq<string>)
    ensures |r| <= |raw|
    ensures forall k :: 0 <= k < |r| ==> r[k] != ""
    decreases |raw|
  {
    if |raw| == 0 then []
    else
      var rest := Kept(raw[1..]);
      if JsTrim(raw[0]) == "" then rest else [JsTrim(raw[0])] + rest
  }

  /** One `{ key, value }` entry. */
  datatype Pair = Pair(key: string, value: string)

  const Hash: string := "#"

  /** The line without the leading "#" and the whitespace after it (`line.replace` of the pattern `^#\s*` by ""). */
  function HeaderText(line: string): string
    requires StartsWith(line, Hash)
  {
    TrimLeft(line[1..], IsJsSpace)
  }

  /** `const [key, ...rest] = line.split(":")`, then `{ key: key.trim(), value: rest.join(":").trim() }`. */
  function PairOf(line: string): (r: Pair)
    ensures ':' !in r.key
    ensures ':' !in line ==> r == Pair(JsTrim(line), "")
  {
    var parts := Split(line, ':');
    SplitPiecesNoSep(line, ':');
    TrimNoChar(parts[0], IsJsSpace, ':');
    if ':' !in line then
      SplitNoSep(line, ':');
      assert parts[1..] == [];
      Pair(JsTrim(parts[0]), JsTrim(Join(parts[1..], ':')))
    else Pair(JsTrim(parts[0]), JsTrim(Join(parts[1..], ':')))
  }

  /** The header after the given lines: the text of the last '#' line, or "" without one. */
  function HeaderOf(lines: seq<string>): (r: string)
    ensures r != "" ==> exists k :: 0 <= k < |lines| && StartsWith(lines[k], Hash) && r == HeaderText(lines[k])
    decreases |lines|
  {
    if |lines| == 0 then ""
    else
      var line := Last(lines);
      if StartsWith(line, Hash) then HeaderText(line) else HeaderOf(lines[..|lines| - 1])
  }

  /** A line that is not a header and holds ':' names a pair. */
  predicate IsPairLine(line: string) {
    !StartsWith(line, Hash) && ':' in line
  }

  /** The pairs of the given lines, in line order. */
  function PairsOf(lines: seq<string>): (r: seq<Pair>)
    ensures |r| <= |lines|
    ensures forall p :: p in r ==> exists k :: 0 <= k < |lines| && IsPairLine(lines[k]) && p == PairOf(lines[k])
    decreases |lines|
  {
    if |lines| == 0 then []
    else
      var line := Last(lines);
      PairsOf(lines[..|lines| - 1]) + (if IsPairLine(line) then [PairOf(line)] else [])
  }

  /** `parseYamlBlock(input)`. */
  method ParseYamlBlock(input: string) returns (header: string, pairs: seq<Pair>)
    ensures header == HeaderOf(Lines(input))
    ensures pairs == PairsOf(Lines(input))
  {
    var lines := Lines(input);
    header := "";
    pairs := [];
    for i := 0 to |lines|
      invariant header == HeaderOf(lines[..i])
      invariant pairs == PairsOf(lines[..i])
    {
      var line := lines[i];
      assert lines[..i + 1][..i] == lines[..i];
      if StartsWith(line, Hash) {
        header := HeaderText(line);
      } else if ':' in line {
        pairs := pairs + [PairOf(line)];
      }
    }
    assert lines[..|lines|] == lines;
  }

  // ---------------------------------------------------------------- properties

  /** Every line kept is already trimmed. */
  lemma {:induction false} KeptTrimmed(raw: seq<string>)
    ensures forall k :: 0 <= k < |Kept(raw)| ==> JsTrim(Kept(raw)[k]) == Kept(raw)[k]
    decreases |raw|
  {
    if |raw| > 0 {
      KeptTrimmed(raw[1..]);
      TrimTwice(raw[0], IsJsSpace);
    }
  }

  /** A line with text on it is kept, trimmed. */
  lemma TextKept(line: string)
    requires JsTrim(line) != ""
    ensures Kept([line]) == [JsTrim(line)]
  {
    assert [line][1..] == [];
  }

  /** Trimming and dropping go line by line: two runs of raw lines laid end to end. */
  lemma {:induction false} KeptAppend(a: seq<string>, b: seq<string>)
    ensures Kept(a + b) == Kept(a) + Kept(b)
    decreases |a|
  {
    if |a| > 0 {
      assert (a + b)[1..] == a[1..] + b;
      KeptAppend(a[1..], b);
    } else {
      assert a + b == b;
    }
  }

  /** A blank line, or one of only spaces, is dropped. */
  lemma BlankDropped(a: seq<string>, blank: string, b: seq<string>)
    requires JsTrim(blank) == ""
    ensures Kept(a + [blank] + b) == Kept(a) + Kept(b)
  {
    KeptAppend(a + [blank], b);
    KeptAppend(a, [blank]);
    assert [blank][1..] == [];
  }

  /** Without a '#' line the header is "". */
  lemma {:induction false} NoHeaderLine(lines: seq<string>)
    requires forall k :: 0 <= k < |lines| ==> !StartsWith(lines[k], Hash)
    ensures HeaderOf(lines) == ""
    decreases |lines|
  {
    if |lines| > 0 {
      NoHeaderLine(lines[..|lines| - 1]);
    }
  }

  /** The last '#' line wins: the header is its text, whatever came before. */
  lemma {:induction false} LastHeaderWins(lines: seq<string>, k: nat)
    requires k < |lines| && StartsWith(lines[k], Hash)
    requires forall j :: k < j < |lines| ==> !StartsWith(lines[j], Hash)
    ensures HeaderOf(lines) == HeaderText(lines[k])
    decreases |lines|
  {
    if k < |lines| - 1 {
      var init := lines[..|lines| - 1];
      assert init[k] == lines[k];
      assert forall j :: k < j < |init| ==> init[j] == lines[j];
      LastHeaderWins(init, k);
    }
  }

  /** The pairs of two runs of lines laid end to end are the pairs of each, in order. */
  lemma {:induction false} PairsAppend(a: seq<string>, b: seq<string>)
    ensures PairsOf(a + b) == PairsOf(a) + PairsOf(b)
    decreases |b|
  {
    if |b| == 0 {
      assert a + b == a;
    } else {
      assert (a + b)[..|a + b| - 1] == a + b[..|b| - 1];
      assert Last(a + b) == Last(b);
      PairsAppend(a, b[..|b| - 1]);
    }
  }

  /** A single line gives a pair exactly when it is not a header and holds ':' (so a '#' line never does). */
  lemma OneLinePairs(line: string)
    ensures PairsOf([line]) == if IsPairLine(line) then [PairOf(line)] else []
  {
    assert [line][..0] == [];
  }

  /** The number of pairs is the number of pair lines. */
  lemma {:induction false} PairsCount(lines: seq<string>)
    ensures |PairsOf(lines)| == |set k | 0 <= k < |lines| && IsPairLine(lines[k])|
    decreases |lines|
  {
    if |lines| > 0 {
      var n := |lines| - 1;
      var init := lines[..n];
      PairsCount(init);
      var s0 := set k | 0 <= k < |init| && IsPairLine(init[k]);
      var s1 := set k | 0 <= k < |lines| && IsPairLine(lines[k]);
      assert s1 == s0 + (if IsPairLine(lines[n]) then {n} else {});
    }
  }

  /**
   * A pair is split at the first ':' of its line: the key is the trimmed
   * text before it and the value the trimmed rest, ':' included.
   */
  lemma PairAtFirstColon(k: string, v: string)
    requires ':' !in k
    ensures PairOf(k + ":" + v) == Pair(JsTrim(k), JsTrim(v))
  {
    SplitCons(k, v, ':');
    assert k + [':'] + v == k + ":" + v;
    var parts := Split(k + ":" + v, ':');
    assert parts[1..] == Split(v, ':');
    JoinSplit(v, ':');
  }

  /** Every pair line splits into such a key and value, with no ':' in the key. */
  lemma PairLineSplits(line: string)
    requires ':' in line
    ensures exists i :: (0 <= i < |line| && line[i] == ':' && ':' !in line[..i] &&
      PairOf(line) == Pair(JsTrim(line[..i]), JsTrim(line[i + 1..])))
  {
    var i := FirstColon(line);
    assert line == line[..i] + ":" + line[i + 1..];
    PairAtFirstColon(line[..i], line[i + 1..]);
  }

  /** The index of the first ':' of a line holding one. */
  lemma {:induction false} FirstColon(line: string) returns (i: nat)
    requires ':' in line
    ensures i < |line| && line[i] == ':' && ':' !in line[..i]
    decreases |line|
  {
    if line[0] == ':' {
      i := 0;
    } else {
      assert ':' in line[1..] by {
        var j :| 0 <= j < |line| && line[j] == ':';
        assert line[1..][j - 1] == ':';
      }
      var j := FirstColon(line[1..]);
      i := j + 1;
      assert line[..i] == [line[0]] + line[1..][..j];
    }
  }
}
