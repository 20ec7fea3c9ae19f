/** The few operations of Go's `strings` package and of its string/byte
    conversions that dent.go relies on, on text modelled as `seq<char>`. */
module Strings {

  /** A Go byte. */
  newtype byte = x: int | 0 <= x < 256

  /** Go's `strings.Split(s, "\n")` (and the pieces `strings.SplitSeq` yields):
      the maximal newline-free pieces of `s`, in order. The empty text is one
      empty line. */
  function Split(s: string): (lines: seq<string>)
    ensures |lines| >= 1
    ensures forall i :: 0 <= i < |lines| ==> '\n' !in lines[i]
    decreases |s|
  {
    if s == [] then [[]]
    else
      var rest := Split(s[1..]);
      if s[0] == '\n' then [[]] + rest
      else [[s[0]] + rest[0]] + rest[1..]
  }

  /** Go's `strings.Join(lines, "\n")`: the text starts with the first line. */
  function Join(lines: seq<string>): (s: string)
    ensures |lines| >= 1 ==> lines[0] <= s
    decreases |lines|
  {
    if |lines| == 0 then []
    else if |lines| == 1 then lines[0]
    else lines[0] + "\n" + Join(lines[1..])
  }

  /** Go's `strings.TrimLeft(s, cutset)`: drops every leading character that
      occurs in `cutset`. */
  function TrimLeft(s: string, cutset: string): (r: string)
    ensures |r| <= |s| && r == s[|s| - |r|..]
    ensures forall i :: 0 <= i < |s| - |r| ==> s[i] in cutset
    ensures r == [] || r[0] !in cutset
    decreases |s|
  {
    if s != [] && s[0] in cutset then TrimLeft(s[1..], cutset) else s
  }

  /** Go's `strings.TrimPrefix(s, prefix)`: removes `prefix` only where it is a
      literal prefix of `s`, and otherwise leaves `s` alone. */
  function TrimPrefix(s: string, prefix: string): (r: string)
    ensures prefix <= s ==> prefix + r == s
    ensures !(prefix <= s) ==> r == s
  {
    if prefix <= s then s[|prefix|..] else s
  }

  /** What TrimPrefix keeps is a piece of its argument, so it holds no other
      character. */
  lemma TrimPrefixChars(s: string, prefix: string)
    ensures forall c :: c in TrimPrefix(s, prefix) ==> c in s
  {
    if prefix <= s {
      assert TrimPrefix(s, prefix) == s[|prefix|..];
    }
  }

  /** Go's `string(b)` on a byte slice: each byte becomes the character with
      that code. */
  function FromBytes(b: seq<byte>): (s: string)
    ensures |s| == |b|
    ensures forall i :: 0 <= i < |b| ==> s[i] as int == b[i] as int
  {
    seq(|b|, i requires 0 <= i < |b| => b[i] as int as char)
  }

  /** Text every character of which is a byte. */
  predicate IsByteText(s: string)
  {
    forall i :: 0 <= i < |s| ==> s[i] as int < 256
  }

  /** Go's `[]byte(s)` on text whose characters are all bytes. */
  function ToBytes(s: string): (b: seq<byte>)
    requires IsByteText(s)
    ensures FromBytes(b) == s
  {
    seq(|s|, i requires 0 <= i < |s| => s[i] as int as byte)
  }

  /** Every character of a byte-built text is a byte. */
  lemma FromBytesIsByteText(b: seq<byte>)
    ensures IsByteText(FromBytes(b))
  {
  }

  /** Text whose characters all occur in a byte text is itself a byte text. */
  lemma ByteTextWithin(s: string, t: string)
    requires IsByteText(t)
    requires forall c :: c in s ==> c in t
    ensures IsByteText(s)
  {
    forall i | 0 <= i < |s|
      ensures s[i] as int < 256
    {
      assert s[i] in t;
      var k :| 0 <= k < |t| && t[k] == s[i];
    }
  }

  /** Splitting the text and joining the pieces again gives the text back. */
  lemma {:induction false} JoinSplit(s: string)
    ensures Join(Split(s)) == s
    decreases |s|
  {
    if s != [] {
      var rest := Split(s[1..]);
      JoinSplit(s[1..]);
      if s[0] == '\n' {
        assert Split(s) == [[]] + rest;
        assert ([[]] + rest)[1..] == rest;
      } else if |rest| == 1 {
        assert Split(s) == [[s[0]] + rest[0]];
      } else {
        var lines := Split(s);
        assert lines[0] == [s[0]] + rest[0];
        assert lines[1..] == rest[1..];
        assert s == [s[0]] + s[1..];
      }
    }
  }

  /** Splitting `w + s`, where `w` has no newline, glues `w` onto the first
      line of `s`. */
  lemma {:induction false} SplitPrepend(w: string, s: string)
    requires '\n' !in w
    ensures Split(w + s) == [w + Split(s)[0]] + Split(s)[1..]
    decreases |w|
  {
    if w == [] {
      assert w + s == s && w + Split(s)[0] == Split(s)[0];
      assert Split(s) == [Split(s)[0]] + Split(s)[1..];
    } else {
      assert (w + s)[0] == w[0] && (w + s)[1..] == w[1..] + s;
      SplitPrepend(w[1..], s);
      var r := Split(w[1..] + s);
      assert r == [w[1..] + Split(s)[0]] + Split(s)[1..];
      assert Split(w + s) == [[w[0]] + r[0]] + r[1..];
      assert [w[0]] + (w[1..] + Split(s)[0]) == w + Split(s)[0];
    }
  }

  /** Joining newline-free lines and splitting the result gives the lines back. */
  lemma {:induction false} SplitJoin(lines: seq<string>)
    requires |lines| >= 1
    requires forall i :: 0 <= i < |lines| ==> '\n' !in lines[i]
    ensures Split(Join(lines)) == lines
    decreases |lines|
  {
    if |lines| == 1 {
      SplitPrepend(lines[0], []);
      assert lines[0] + [] == lines[0];
    } else {
      var tail := Join(lines[1..]);
      SplitJoin(lines[1..]);
      assert ("\n" + tail)[1..] == tail;
      SplitPrepend(lines[0], "\n" + tail);
      assert Join(lines) == lines[0] + ("\n" + tail);
      assert Split("\n" + tail) == [[]] + lines[1..];
      assert lines[0] + [] == lines[0];
      assert lines == [lines[0]] + lines[1..];
    }
  }

  /** A text with n newlines splits into n + 1 lines. */
  lemma {:induction false} SplitCount(s: string)
    ensures |Split(s)| == multiset(s)['\n'] + 1
    decreases |s|
  {
    if s != [] {
      SplitCount(s[1..]);
      assert s == [s[0]] + s[1..];
      assert multiset(s) == multiset([s[0]]) + multiset(s[1..]);
    }
  }

  /** The text is a single line exactly when it has no newline. */
  lemma SplitSingle(s: string)
    ensures |Split(s)| == 1 <==> '\n' !in s
  {
    SplitCount(s);
    assert '\n' in s <==> '\n' in multiset(s);
  }

  /** Text with no newline is one line. */
  lemma SplitNoNewline(s: string)
    requires '\n' !in s
    ensures Split(s) == [s]
  {
    SplitPrepend(s, []);
    assert s + [] == s;
  }

  /** A trailing newline adds one empty last line. */
  lemma {:induction false} SplitSnoc(s: string)
    ensures Split(s + "\n") == Split(s) + [[]]
    decreases |s|
  {
    if s == [] {
      assert s + "\n" == "\n";
      assert Split("\n"[1..]) == [[]];
    } else {
      assert (s + "\n")[1..] == s[1..] + "\n";
      SplitSnoc(s[1..]);
    }
  }

  /** Every character of a line comes from the text. */
  lemma {:induction false} SplitChars(s: string)
    ensures forall i, c :: 0 <= i < |Split(s)| && c in Split(s)[i] ==> c in s
    decreases |s|
  {
    if s != [] {
      SplitChars(s[1..]);
      var rest := Split(s[1..]);
      assert forall c :: c in s[1..] ==> c in s;
      if s[0] != '\n' {
        var lines := Split(s);
        forall i, c | 0 <= i < |lines| && c in lines[i]
          ensures c in s
        {
          if i == 0 {
            assert lines[0] == [s[0]] + rest[0];
          } else {
            assert lines[i] == rest[i];
          }
        }
      }
    }
  }

  /** Every character of a join is a newline or comes from one of the lines. */
  lemma {:induction false} JoinChars(lines: seq<string>)
    ensures forall c :: c in Join(lines) ==> c == '\n' || exists i :: 0 <= i < |lines| && c in lines[i]
    decreases |lines|
  {
    if |lines| > 1 {
      JoinChars(lines[1..]);
      forall c | c in Join(lines) && c != '\n'
        ensures exists i :: 0 <= i < |lines| && c in lines[i]
      {
        if c !in lines[0] {
          assert c in Join(lines[1..]);
          var i :| 0 <= i < |lines[1..]| && c in lines[1..][i];
          assert c in lines[i + 1];
        }
      }
    }
  }
}
