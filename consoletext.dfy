/**
 * What the two `formatConsole.ts` utilities of the chat front ends share:
 * the two regular expressions of the YAML test, the markers of a console
 * answer, and the split of a console answer into title, input and output.
 */
module ConsoleText {
  import opened Text

  // ---------------------------------------------------------------- `\s*.+`

  /**
   * The regular expression `\s*.+` matches at `q`: some whitespace, then at
   * least one character that is not a line terminator.
   */
  predicate SpacesThenChar(t: string, q: nat) {
    exists j :: q <= j < |t| && (forall k :: q <= k < j ==> IsJsSpace(t[k])) && !IsJsLineTerminator(t[j])
  }

  /** The end of the run of line terminators that starts at `q`. */
  function TerminatorRun(t: string, q: nat): (e: nat)
    requires q <= |t|
    ensures q <= e <= |t|
    ensures forall k :: q <= k < e ==> IsJsLineTerminator(t[k])
    ensures e == |t| || !IsJsLineTerminator(t[e])
    decreases |t| - q
  {
    if q < |t| && IsJsLineTerminator(t[q]) then TerminatorRun(t, q + 1) else q
  }

  /**
   * Every line terminator is whitespace, so `\s*.+` matches exactly when
   * something other than line terminators follows.
   */
  lemma SpacesThenCharIff(t: string, q: nat)
    requires q <= |t|
    ensures SpacesThenChar(t, q) <==> TerminatorRun(t, q) < |t|
  {
    var e := TerminatorRun(t, q);
    if e < |t| {
      assert q <= e < |t| && (forall k :: q <= k < e ==> IsJsSpace(t[k])) && !IsJsLineTerminator(t[e]);
    }
    if SpacesThenChar(t, q) {
      var j :| q <= j < |t| && (forall k :: q <= k < j ==> IsJsSpace(t[k])) && !IsJsLineTerminator(t[j]);
    }
  }

  // ---------------------------------------------------------------- the YAML shape

  /** `(^|\n)#\s*.+` matches at `i`. */
  predicate HeaderAt(t: string, i: nat) {
    i < |t| && (i == 0 || t[i - 1] == '\n') && t[i] == '#' && SpacesThenChar(t, i + 1)
  }

  /** `:\s*.+` matches at `i`. */
  predicate ColonAt(t: string, i: nat) {
    i < |t| && t[i] == ':' && SpacesThenChar(t, i + 1)
  }

  /** `/(^|\n)#\s*.+/.test(t) && /:\s*.+/.test(t)`. */
  predicate YamlShape(t: string) {
    (exists i :: 0 <= i < |t| && HeaderAt(t, i)) && (exists i :: 0 <= i < |t| && ColonAt(t, i))
  }

  /**
   * A '#' at the start of the text or of a line with text after it on that
   * line, and a ':' with text after it on its line, make the YAML shape.
   */
  lemma YamlShapeFrom(t: string, h: nat, c: nat)
    requires h + 1 < |t| && (h == 0 || t[h - 1] == '\n') && t[h] == '#' && !IsJsLineTerminator(t[h + 1])
    requires c + 1 < |t| && t[c] == ':' && !IsJsLineTerminator(t[c + 1])
    ensures YamlShape(t)
  {
    assert HeaderAt(t, h) by {
      assert !IsJsLineTerminator(t[h + 1]);
    }
    assert ColonAt(t, c) by {
      assert !IsJsLineTerminator(t[c + 1]);
    }
  }

  /** A text without ':' never has the YAML shape. */
  lemma NoColonNoYaml(t: string)
    requires ':' !in t
    ensures !YamlShape(t)
  {
    forall i | 0 <= i < |t|
      ensures t[i] != ':'
    {
      assert t[i] in t;
    }
  }

  // ---------------------------------------------------------------- console answers

  /** Marks of a calculation printed as a console: "Paso 1:", "Resultado:", "[ CÁLCULO", or a leading "[ PYTHON ]". */
  predicate ConsoleMarker(t: string) {
    Contains(t, "Paso 1:") || Contains(t, "Resultado:") || Contains(t, "[ CÁLCULO") || StartsWith(t, "[ PYTHON ]")
  }

  /** The object `formatConsole` returns. */
  datatype Console =
    | NotConsole
    | Yaml(input: string)
    | Block(title: string, input: string, output: string)

  /** `s.replace(c, '')` with a one-character string pattern: only the first occurrence goes. */
  function RemoveFirst(s: string, c: char): (r: string)
    ensures c !in s ==> r == s
    ensures |r| == if c in s then |s| - 1 else |s|
    decreases |s|
  {
    if |s| == 0 then s
    else if s[0] == c then s[1..]
    else [s[0]] + RemoveFirst(s[1..], c)
  }

  /** The first occurrence of `c`, at `i`, is the one removed. */
  lemma {:induction false} RemoveFirstAt(s: string, c: char, i: nat)
    requires i < |s| && s[i] == c && c !in s[..i]
    ensures RemoveFirst(s, c) == s[..i] + s[i + 1..]
    decreases i
  {
    if i > 0 {
      assert s[0] in s[..i];
      assert s[1..][..i - 1] == s[1..i];
      assert s[1..i] == s[..i][1..];
      RemoveFirstAt(s[1..], c, i - 1);
      assert s[1..][i..] == s[i + 1..];
      assert [s[0]] + s[1..i] == s[..i];
    }
  }

  /** The title: the first line without its first '[' and its first ']', trimmed. */
  function Title(first: string): string {
    JsTrim(RemoveFirst(RemoveFirst(first, '['), ']'))
  }

  /** The lines strictly between the first and the last (`lines.slice(1, lines.length - 1)`). */
  function Middle(lines: seq<string>): (m: seq<string>)
    requires |lines| > 0
    ensures |m| == if |lines| < 2 then 0 else |lines| - 2
    ensures forall k :: 0 <= k < |m| ==> m[k] == lines[k + 1]
  {
    if |lines| < 2 then [] else lines[1..|lines| - 1]
  }

  /** The block of a console answer: title from the first line, output the last, input the ones between. */
  function ConsoleSplit(t: string): (r: Console)
    ensures r.Block? && '\n' !in r.output
    ensures '\n' !in t ==> r.input == "" && r.output == t
  {
    var lines := Split(t, '\n');
    SplitPiecesNoSep(t, '\n');
    if '\n' !in t then SplitNoSep(t, '\n'); Block(Title(lines[0]), Join(Middle(lines), '\n'), Last(lines))
    else Block(Title(lines[0]), Join(Middle(lines), '\n'), Last(lines))
  }

  /** A bracketed first line "[x]" without other brackets gives the title `x`, trimmed. */
  lemma BracketTitle(x: string)
    requires '[' !in x && ']' !in x
    ensures Title("[" + x + "]") == JsTrim(x)
  {
    var s := "[" + x + "]";
    assert s[..0] == "";
    RemoveFirstAt(s, '[', 0);
    assert s[1..] == x + "]";
    var u := x + "]";
    assert u[..|x|] == x;
    RemoveFirstAt(u, ']', |x|);
    assert u[|x| + 1..] == "";
    assert u[..|x|] + u[|x| + 1..] == x;
  }

  /** A first line without brackets is only trimmed. */
  lemma PlainTitle(first: string)
    requires '[' !in first && ']' !in first
    ensures Title(first) == JsTrim(first)
  {
  }

  /** Two lines are the first line and the output, with empty input. */
  lemma TwoLineBlock(t: string)
    requires |Split(t, '\n')| == 2
    ensures ConsoleSplit(t).input == ""
    ensures t == Split(t, '\n')[0] + "\n" + ConsoleSplit(t).output
  {
    var lines := Split(t, '\n');
    JoinSplit(t, '\n');
    assert Join(lines, '\n') == lines[0] + ['\n'] + Join(lines[1..], '\n');
    assert lines[1..] == [lines[1]];
  }

  /** Three or more lines are the first line, the input lines and the output line, joined by newlines. */
  lemma ManyLineBlock(t: string)
    requires |Split(t, '\n')| > 2
    ensures t == Split(t, '\n')[0] + "\n" + ConsoleSplit(t).input + "\n" + ConsoleSplit(t).output
  {
    var lines := Split(t, '\n');
    JoinSplit(t, '\n');
    JoinEnds(lines, '\n');
  }

  /** Joining three or more pieces: the first, the ones between, and the last. */
  lemma JoinEnds(L: seq<string>, sep: char)
    requires |L| > 2
    ensures Join(L, sep) == L[0] + [sep] + Join(L[1..|L| - 1], sep) + [sep] + L[|L| - 1]
  {
    JoinAt(L, 1, sep);
    var rest := L[1..];
    JoinAt(rest, |rest| - 1, sep);
    assert rest[..|rest| - 1] == L[1..|L| - 1];
    assert rest[|rest| - 1..] == [L[|L| - 1]];
    assert L[..1] == [L[0]];
  }

  /** The input of a block of three or more lines splits back into the middle lines. */
  lemma InputLines(t: string)
    requires |Split(t, '\n')| > 2
    ensures Split(ConsoleSplit(t).input, '\n') == Middle(Split(t, '\n'))
  {
    var lines := Split(t, '\n');
    SplitPiecesNoSep(t, '\n');
    SplitJoin(Middle(lines), '\n');
  }
}
