/**
 * Indentation of command output.  formatOutput (marathon/output.go and its
 * copies in ssh/marathon.go, ssh.go and roll.go) indents every line by four
 * spaces and replaces the text after the last newline by an empty string;
 * padOutput (helpers/ssh.go) indents every line by two spaces and keeps all
 * of them.
 */
module Output {
  import opened GoStrings

  const FourSpaces: string := "    "
  const TwoSpaces: string := "  "

  /** Each line prefixed by `indent`. */
  function Prefixed(indent: string, lines: seq<string>): (r: seq<string>)
    ensures |r| == |lines|
    ensures forall i :: 0 <= i < |lines| ==> r[i] == indent + lines[i]
  {
    seq(|lines|, i requires 0 <= i < |lines| => indent + lines[i])
  }

  /** Reference layout: every line indented by four spaces and ended by a newline. */
  function Block(lines: seq<string>): string
  {
    if |lines| == 0 then "" else FourSpaces + lines[0] + "\n" + Block(lines[1..])
  }

  /** Text made of lines, each followed by a newline. */
  function Terminated(lines: seq<string>): string
  {
    if |lines| == 0 then "" else lines[0] + "\n" + Terminated(lines[1..])
  }

  /** What formatOutput produces: the lines before the last newline, in the reference layout. */
  function FormatSpec(body: string): string
  {
    var parts := Split(body, '\n');
    Block(parts[..|parts| - 1])
  }

  /** formatOutput: indent every piece, overwrite the last one with "", and join. */
  method FormatOutput(body: string) returns (r: string)
    ensures r == FormatSpec(body)
  {
    var f: seq<string> := [];
    var parts := Split(body, '\n');
    for i := 0 to |parts|
      invariant f == Prefixed(FourSpaces, parts[..i])
    {
      assert parts[..i + 1] == parts[..i] + [parts[i]];
      f := f + [FourSpaces + parts[i]];
    }
    assert parts[..|parts|] == parts;
    f := f[..|f| - 1] + [""];
    assert f[..|f| - 1] == Prefixed(FourSpaces, parts[..|parts| - 1]);
    JoinIndentedThenEmpty(parts[..|parts| - 1]);
    r := Join(f, '\n');
  }

  /** Joining indented lines followed by an empty piece gives the reference layout. */
  lemma {:induction false} JoinIndentedThenEmpty(lines: seq<string>)
    ensures Join(Prefixed(FourSpaces, lines) + [""], '\n') == Block(lines)
    decreases |lines|
  {
    if |lines| > 0 {
      var p := Prefixed(FourSpaces, lines) + [""];
      JoinIndentedThenEmpty(lines[1..]);
      assert p[1..] == Prefixed(FourSpaces, lines[1..]) + [""];
    }
  }

  lemma {:induction false} BlockCount(lines: seq<string>)
    requires NoSep(lines, '\n')
    ensures Count(Block(lines), '\n') == |lines|
    decreases |lines|
  {
    if |lines| > 0 {
      assert NoSep(lines[1..], '\n') by {
        forall i | 0 <= i < |lines[1..]| ensures '\n' !in lines[1..][i] {
          assert lines[1..][i] == lines[i + 1];
        }
      }
      BlockCount(lines[1..]);
      assert '\n' !in FourSpaces + lines[0] by {
        assert '\n' !in lines[0];
      }
      CountAbsent(FourSpaces + lines[0], '\n');
      CountConcat(FourSpaces + lines[0], "\n" + Block(lines[1..]), '\n');
      CountConcat("\n", Block(lines[1..]), '\n');
      assert Block(lines) == (FourSpaces + lines[0]) + ("\n" + Block(lines[1..]));
    }
  }

  /** The output has exactly as many newlines as the input. */
  lemma FormatKeepsNewlineCount(body: string)
    ensures Count(FormatSpec(body), '\n') == Count(body, '\n')
  {
    var parts := Split(body, '\n');
    var kept := parts[..|parts| - 1];
    assert NoSep(kept, '\n') by {
      forall i | 0 <= i < |kept| ensures '\n' !in kept[i] {
        assert kept[i] == parts[i];
      }
    }
    BlockCount(kept);
  }

  /** Input without a newline gives the empty string. */
  lemma FormatWithoutNewline(body: string)
    requires '\n' !in body
    ensures FormatSpec(body) == ""
  {
    SplitWithoutSep(body, '\n');
  }

  /** Newline-terminated lines split into those lines and a last empty piece. */
  lemma {:induction false} SplitTerminated(lines: seq<string>)
    requires NoSep(lines, '\n')
    ensures Split(Terminated(lines), '\n') == lines + [""]
    decreases |lines|
  {
    if |lines| == 0 {
      SplitWithoutSep("", '\n');
    } else {
      assert NoSep(lines[1..], '\n') by {
        forall i | 0 <= i < |lines[1..]| ensures '\n' !in lines[1..][i] {
          assert lines[1..][i] == lines[i + 1];
        }
      }
      SplitTerminated(lines[1..]);
      assert '\n' !in lines[0];
      SplitCons(lines[0], '\n', Terminated(lines[1..]));
      assert Terminated(lines) == lines[0] + ['\n'] + Terminated(lines[1..]);
      assert [lines[0]] + (lines[1..] + [""]) == lines + [""];
    }
  }

  /** For newline-terminated input the output is each line indented by four spaces and ended by a newline. */
  lemma FormatTerminated(lines: seq<string>)
    requires NoSep(lines, '\n')
    ensures FormatSpec(Terminated(lines)) == Block(lines)
  {
    SplitTerminated(lines);
    assert (lines + [""])[..|lines|] == lines;
  }

  /** The text after the last newline does not reach the output. */
  lemma FormatDropsLastSegment(body: string, tail: string)
    requires '\n' !in tail
    ensures FormatSpec(body + "\n" + tail) == FormatSpec(body + "\n")
  {
    SplitSnoc(body, '\n', tail);
    SplitSnoc(body, '\n', "");
    assert body + "\n" + tail == body + ['\n'] + tail;
    assert body + "\n" == body + ['\n'] + "";
    var p := Split(body, '\n');
    assert (p + [tail])[..|p|] == p;
    assert (p + [""])[..|p|] == p;
  }

  /** What padOutput produces: every line prefixed by two spaces, joined again. */
  function PadSpec(body: string): string
  {
    Join(Prefixed(TwoSpaces, Split(body, '\n')), '\n')
  }

  /** padOutput */
  method PadOutput(body: string) returns (r: string)
    ensures r == PadSpec(body)
  {
    var f: seq<string> := [];
    var parts := Split(body, '\n');
    for i := 0 to |parts|
      invariant f == Prefixed(TwoSpaces, parts[..i])
    {
      assert parts[..i + 1] == parts[..i] + [parts[i]];
      f := f + [TwoSpaces + parts[i]];
    }
    assert parts[..|parts|] == parts;
    r := Join(f, '\n');
  }

  /** padOutput keeps the line count, and each output line is an input line behind two spaces. */
  lemma PadKeepsLines(body: string)
    ensures |Split(PadSpec(body), '\n')| == |Split(body, '\n')|
    ensures forall i :: 0 <= i < |Split(body, '\n')| ==>
      Split(PadSpec(body), '\n')[i] == TwoSpaces + Split(body, '\n')[i]
  {
    var parts := Split(body, '\n');
    var padded := Prefixed(TwoSpaces, parts);
    assert NoSep(padded, '\n') by {
      forall i | 0 <= i < |padded| ensures '\n' !in padded[i] {
        assert '\n' !in parts[i];
      }
    }
    SplitJoin(padded, '\n');
  }

  /** Removing the two spaces from every output line gives back the input: nothing is dropped. */
  lemma PadDropsNothing(body: string)
    ensures var lines := Split(PadSpec(body), '\n');
      Join(seq(|lines|, i requires 0 <= i < |lines| => TrimPrefix(lines[i], TwoSpaces)), '\n') == body
  {
    PadKeepsLines(body);
    var parts := Split(body, '\n');
    var lines := Split(PadSpec(body), '\n');
    var back := seq(|lines|, i requires 0 <= i < |lines| => TrimPrefix(lines[i], TwoSpaces));
    forall i | 0 <= i < |lines| ensures back[i] == parts[i] {
      assert lines[i] == TwoSpaces + parts[i];
      assert HasPrefix(lines[i], TwoSpaces);
    }
    assert back == parts;
    JoinSplit(body, '\n');
  }
}
