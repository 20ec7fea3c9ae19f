/** The functions of dent.go, written as the Go code runs them: each builds
    its list of output lines in a loop and joins it at the end. Each method is
    proved to return the value of the matching function of module DentSpec. */
module Dent {
  import opened Strings
  import opened DentSpec

  /** IndentString: puts `indent` in front of every line of `text`, empty
      lines included. */
  method IndentString(text: string, indent: string) returns (r: string)
    ensures r == Indented(text, indent)
    ensures '\n' !in indent ==>
              |Split(r)| == |Split(text)| &&
              forall i :: 0 <= i < |Split(text)| ==> Split(r)[i] == indent + Split(text)[i]
  {
    var lines := Split(text);
    var out: seq<string> := [];
    for k := 0 to |lines|
      invariant |out| == k
      invariant forall i :: 0 <= i < k ==> out[i] == indent + lines[i]
    {
      out := out + [indent + lines[k]];
    }
    assert out == PrefixEach(lines, indent);
    r := Join(out);
    if '\n' !in indent {
      IndentedLines(text, indent);
    }
  }

  /** One match of the indent regex `(?m)(^[ \t]*)[^ \t\n]` at the start of
      `line`: the captured blank run, or None when the run is not followed by
      a character other than a blank or a newline. */
  method MatchIndent(line: string) returns (m: Option<string>)
    ensures m.Some? <==> Qualifies(line)
    ensures m.Some? ==> m.value == LeadingWs(line) && m.value <= line
    ensures m.Some? ==> forall i :: 0 <= i < |m.value| ==> IsBlank(m.value[i])
  {
    var n := 0;
    while n < |line| && IsBlank(line[n])
      invariant 0 <= n <= |line|
      invariant forall i :: 0 <= i < n ==> IsBlank(line[i])
    {
      n := n + 1;
    }
    LeadingWsUnique(line, line[..n]);
    if n < |line| && line[n] != '\n' {
      m := Some(line[..n]);
    } else {
      m := None;
    }
  }

  /** The scan for the common indent: every match is visited in line order
      and replaces the current choice only when its run is strictly shorter.
      No match yet is recorded as an absent size instead of the largest int. */
  method SmallestIndent(lines: seq<string>) returns (smallestIndent: string)
    ensures smallestIndent == CommonIndent(lines)
    ensures forall i :: 0 <= i < |lines| && Qualifies(lines[i]) ==> |smallestIndent| <= |LeadingWs(lines[i])|
    ensures (forall i :: 0 <= i < |lines| ==> !Qualifies(lines[i])) ==> smallestIndent == []
  {
    var smallestIndentSize: Option<nat> := None;
    smallestIndent := [];
    for k := 0 to |lines|
      invariant smallestIndent == CommonIndent(lines[..k])
      invariant smallestIndentSize == if ChosenIndex(lines[..k]).Some? then Some(|smallestIndent|) else None
    {
      assert lines[..k + 1][..k] == lines[..k];
      assert lines[..k + 1][k] == lines[k];
      var m := MatchIndent(lines[k]);
      if m.Some? {
        var indent := m.value;
        if smallestIndentSize.None? || |indent| < smallestIndentSize.value {
          smallestIndent := indent;
          smallestIndentSize := Some(|indent|);
        }
      }
    }
    assert lines[..|lines|] == lines;
    CommonIndentSpec(lines);
  }

  /** DedentString: the empty text, then a single line, then the general
      case, which strips the common indent from each line where it is a
      literal prefix. */
  method DedentString(text: string) returns (r: string)
    ensures r == Dedented(text)
  {
    if text == [] {
      return [];
    }
    if |Split(text)| == 1 {
      return TrimLeft(text, Blanks);
    }
    var lines := Split(text);
    var smallestIndent := SmallestIndent(lines);
    var out: seq<string> := [];
    for k := 0 to |lines|
      invariant |out| == k
      invariant forall i :: 0 <= i < k ==> out[i] == TrimPrefix(lines[i], smallestIndent)
    {
      out := out + [TrimPrefix(lines[k], smallestIndent)];
    }
    assert out == TrimEach(lines, smallestIndent);
    r := Join(out);
  }

  /** Indent: IndentString on the bytes read as text, and the result read
      back as bytes. */
  method Indent(text: seq<byte>, indent: seq<byte>) returns (r: seq<byte>)
    ensures FromBytes(r) == Indented(FromBytes(text), FromBytes(indent))
  {
    var s := IndentString(FromBytes(text), FromBytes(indent));
    FromBytesIsByteText(text + indent + [10]);
    assert FromBytes(text + indent + [10]) == FromBytes(text) + FromBytes(indent) + "\n";
    ByteTextWithin(s, FromBytes(text + indent + [10]));
    r := ToBytes(s);
  }

  /** Dedent: DedentString on the bytes read as text, and the result read
      back as bytes. */
  method Dedent(text: seq<byte>) returns (r: seq<byte>)
    ensures FromBytes(r) == Dedented(FromBytes(text))
  {
    var s := DedentString(FromBytes(text));
    FromBytesIsByteText(text);
    ByteTextWithin(s, FromBytes(text));
    r := ToBytes(s);
  }
}
