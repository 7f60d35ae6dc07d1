/**
 * The command-line rules: how many arguments, where `-o` must stand, and which
 * input names count as tape-language source files.
 */
module Arguments {
  import opened Strings

  /** Why a command line was refused; each one ends the run with exit status 1. */
  datatype ConfigError =
    | BadArgumentCount(count: nat)   // neither 3, 4 nor 5 arguments
    | InvalidFlag(flag: string)      // 4 or 5 arguments whose third is not "-o"
    | MissingExtension               // the input name has no '.'
    | BadExtension(segment: string)  // the piece after the first '.' is neither "bf" nor "b"

  /**
   * The piece of `path` between its first '.' and the next one (or the end):
   * the second element of `path.split('.')`.
   */
  function ExtensionSegment(path: string): string
    requires '.' in path
  {
    Split(path, '.')[1]
  }

  /**
   * The input-name rule as written: there is a '.', and the second piece of the
   * split is exactly "bf" or "b". This is not the last piece, so "x.bf.txt" passes
   * and "my.prog.bf" does not.
   */
  predicate HasBrainfuckExtension(path: string) {
    '.' in path && (ExtensionSegment(path) == "bf" || ExtensionSegment(path) == "b")
  }

  /** The error the input-name check reports, for a name that fails it. */
  function ExtensionError(path: string): ConfigError {
    if '.' in path then BadExtension(ExtensionSegment(path)) else MissingExtension
  }

  /** Whether a command line has one of the accepted shapes. */
  predicate WellFormed(args: seq<string>) {
    |args| == 3 || ((|args| == 4 || |args| == 5) && args[2] == "-o")
  }

  /** Whether a command line is accepted as a whole. */
  predicate Accepted(args: seq<string>) {
    WellFormed(args) && HasBrainfuckExtension(args[1])
  }

  /** The position of the output name: third in the positional form, fourth after `-o`. */
  function OutputPosition(count: nat): nat {
    if count == 3 then 2 else 3
  }

  /** The error a refused command line reports. */
  function ArgumentsError(args: seq<string>): ConfigError
    requires !Accepted(args)
  {
    if |args| < 3 || |args| > 5 then BadArgumentCount(|args|)
    else if |args| != 3 && args[2] != "-o" then InvalidFlag(args[2])
    else ExtensionError(args[1])
  }

  /**
   * The extension is the text between the first '.' and the next '.' or the end,
   * whatever follows it.
   */
  lemma SegmentAfterFirstDot(front: string, segment: string, tail: string)
    requires '.' !in front && '.' !in segment
    requires tail == [] || tail[0] == '.'
    ensures '.' in front + "." + segment + tail
    ensures ExtensionSegment(front + "." + segment + tail) == segment
  {
    var after := segment + tail;
    var path := front + "." + segment + tail;
    assert '.' in path by {
      assert path[|front|] == '.';
    }
    assert Split(path, '.')[1] == Split(after, '.')[0] by {
      assert path == front + ['.'] + after;
      SplitAtFirstSeparator(front, '.', after);
    }
    assert Split(after, '.')[0] == segment by {
      if tail == [] {
        assert after == segment;
        SplitWithoutSeparator(segment, '.');
      } else {
        assert after == segment + ['.'] + tail[1..];
        SplitAtFirstSeparator(segment, '.', tail[1..]);
      }
    }
  }

  /**
   * Every name with a '.' is cut at its first dot: before it a dot-free front,
   * after it the extension piece, then the end or another '.'. The rule tests
   * that piece.
   */
  lemma NameCut(path: string) returns (front: string, segment: string, tail: string)
    requires '.' in path
    ensures front == path[..FirstIndex(path, '.')]
    ensures '.' !in front && '.' !in segment
    ensures tail == [] || tail[0] == '.'
    ensures path == front + "." + segment + tail
    ensures ExtensionSegment(path) == segment
    ensures HasBrainfuckExtension(path) <==> segment == "bf" || segment == "b"
  {
    var k := FirstIndex(path, '.');
    var after := path[k + 1..];
    segment := Split(after, '.')[0];
    assert |segment| <= |after| && after[..|segment|] == segment
      && (|segment| == |after| || after[|segment|] == '.') by {
      SplitFirstPiece(after, '.');
    }
    assert '.' !in segment by {
      SplitPiecesFree(after, '.', 0);
    }
    front, tail := path[..k], after[|segment|..];
    assert tail == [] || tail[0] == '.';
    assert path == front + "." + segment + tail by {
      assert after == segment + tail;
      CutAt(path, k);
      assert [path[k]] == ".";
      AppendAssociative(front + ".", segment, tail);
    }
    SegmentAfterFirstDot(front, segment, tail);
  }

  /** The input-name rule on a name cut at its first two dots. */
  lemma ExtensionRule(front: string, segment: string, tail: string)
    requires '.' !in front && '.' !in segment
    requires tail == [] || tail[0] == '.'
    ensures HasBrainfuckExtension(front + "." + segment + tail) <==> segment == "bf" || segment == "b"
  {
    SegmentAfterFirstDot(front, segment, tail);
  }

  // Names that pass and names that fail the rule as written.

  lemma AcceptsBf()
    ensures HasBrainfuckExtension("hello.bf")
  {
    assert "hello.bf" == "hello" + "." + "bf" + "";
    ExtensionRule("hello", "bf", "");
  }

  lemma AcceptsB()
    ensures HasBrainfuckExtension("hello.b")
  {
    assert "hello.b" == "hello" + "." + "b" + "";
    ExtensionRule("hello", "b", "");
  }

  lemma AcceptsInnerBf()
    ensures HasBrainfuckExtension("hello.bf.txt")
  {
    assert "hello.bf.txt" == "hello" + "." + "bf" + ".txt";
    ExtensionRule("hello", "bf", ".txt");
  }

  lemma RejectsDottedStem()
    ensures !HasBrainfuckExtension("my.prog.bf")
  {
    assert "my.prog.bf" == "my" + "." + "prog" + ".bf";
    ExtensionRule("my", "prog", ".bf");
  }

  lemma RejectsDotSlash()
    ensures !HasBrainfuckExtension("./hello.bf")
  {
    assert "./hello.bf" == "" + "." + "/hello" + ".bf";
    ExtensionRule("", "/hello", ".bf");
  }

  lemma RejectsC()
    ensures !HasBrainfuckExtension("hello.c")
  {
    assert "hello.c" == "hello" + "." + "c" + "";
    ExtensionRule("hello", "c", "");
  }
}
