/**
 * The text the transpiler emits: a fixed prologue, one indented C statement
 * line per recognised instruction, and a fixed epilogue.
 */
module Transpiler {
  import opened Wrappers
  import opened Strings
  import opened Instructions

  /** The indentation in front of every body line, whatever the loop nesting. */
  const Tab: string := "     "

  /** Headers[0..3] open the C program and declare the tape; Headers[3] closes it. */
  const Headers: seq<string> := [
    "#include <stdio.h>\n\nint main() {\n",
    "     unsigned char tape[30000] = {0};\n",
    "     unsigned char* ptr = tape;\n\n",
    "     return 0;\n}"
  ]

  function Prologue(): string { Concat(Headers[..3]) }

  function Epilogue(): string { Headers[3] }

  /** The tape declarations and the closing `return` share the body lines' indentation. */
  lemma HeaderIndentation(k: nat)
    requires 1 <= k < |Headers|
    ensures |Tab| <= |Headers[k]| && Headers[k][..|Tab|] == Tab
  {
    var h := Headers[k];
    assert h[0] == ' ' && h[1] == ' ' && h[2] == ' ' && h[3] == ' ' && h[4] == ' '
      by { assert k == 1 || k == 2 || k == 3; }
    assert h[..5] == [h[0], h[1], h[2], h[3], h[4]];
  }

  /** The prologue is the three opening headers in order. */
  lemma PrologueText()
    ensures Prologue() == Headers[0] + Headers[1] + Headers[2]
  {
    assert Concat(Headers[..1]) == Headers[0] by {
      ConcatExtend(Headers, 0);
      assert Headers[..0] == [];
    }
    assert Concat(Headers[..2]) == Headers[0] + Headers[1] by {
      ConcatExtend(Headers, 1);
    }
    ConcatExtend(Headers, 2);
  }

  /** The C statement an instruction becomes; each fits on one line. */
  function Statement(i: Instruction): (s: string)
    ensures '\n' !in s
  {
    match i
    case MoveRight => "++ptr;"
    case MoveLeft => "--ptr;"
    case Increment => "++*ptr;"
    case Decrement => "--*ptr;"
    case Output => "putchar(*ptr);"
    case Input => "*ptr = getchar();"
    case LoopOpen => "while (*ptr) {"
    case LoopClose => "}"
  }

  /** One body line: indentation, statement, newline. */
  function Line(i: Instruction): string {
    Tab + Statement(i) + "\n"
  }

  /** What one source character contributes to the body; nothing exactly when it is ignored. */
  function Image(c: char): (s: string)
    ensures s == [] <==> Classify(c).None?
  {
    match Classify(c)
    case Some(i) => Line(i)
    case None => []
  }

  /** The translation table written out character by character. */
  lemma ImageText(ch: char)
    ensures ch == '>' ==> Image(ch) == Tab + "++ptr;\n"
    ensures ch == '<' ==> Image(ch) == Tab + "--ptr;\n"
    ensures ch == '+' ==> Image(ch) == Tab + "++*ptr;\n"
    ensures ch == '-' ==> Image(ch) == Tab + "--*ptr;\n"
    ensures ch == '.' ==> Image(ch) == Tab + "putchar(*ptr);\n"
    ensures ch == ',' ==> Image(ch) == Tab + "*ptr = getchar();\n"
    ensures ch == '[' ==> Image(ch) == Tab + "while (*ptr) {\n"
    ensures ch == ']' ==> Image(ch) == Tab + "}\n"
    ensures ch !in "><+-.,[]" ==> Image(ch) == []
  {
  }

  /** The body for source text `s`: the images of its characters, left to right. */
  function Body(s: string): string {
    FlatMap(Image, s)
  }

  /** The lines of a list of instructions, one after the other. */
  function Lines(prog: seq<Instruction>): string {
    FlatMap(Line, prog)
  }

  /** The complete C translation unit for source text `s`; it exists for every text. */
  function Translation(s: string): (r: string)
    ensures |r| == |Prologue()| + |Body(s)| + |Epilogue()|
    ensures r[..|Prologue()|] == Prologue()
    ensures r[|r| - |Epilogue()|..] == Epilogue()
  {
    Prologue() + Body(s) + Epilogue()
  }

  /** The body of a concatenation is the concatenation of the bodies. */
  lemma BodyAppend(a: string, b: string)
    ensures Body(a + b) == Body(a) + Body(b)
  {
    FlatMapAppend(Image, a, b);
  }

  /** Scanning one more character appends its image. */
  lemma BodyExtend(s: string, k: nat)
    requires k < |s|
    ensures Body(s[..k + 1]) == Body(s[..k]) + Image(s[k])
  {
    assert s[..k + 1][..k] == s[..k];
  }

  /** Ignored characters are comments: the body is one line per recognised instruction, in order. */
  lemma {:induction false} BodyIsLines(s: string)
    ensures Body(s) == Lines(Recognised(s))
    decreases |s|
  {
    if s != [] {
      var init, c := s[..|s| - 1], s[|s| - 1];
      BodyIsLines(init);
      match Classify(c)
      case Some(i) =>
        FlatMapAppend(Line, Recognised(init), [i]);
        assert Lines([i]) == Line(i) by { assert [i][..0] == []; }
      case None =>
        assert Recognised(init) + [] == Recognised(init);
    }
  }

  lemma NewlinesOfLine(i: Instruction)
    ensures Count(Line(i), '\n') == 1
  {
    CountAppend(Tab + Statement(i), "\n", '\n');
    CountAppend(Tab, Statement(i), '\n');
  }

  lemma {:induction false} NewlinesOfLines(prog: seq<Instruction>)
    ensures Count(Lines(prog), '\n') == |prog|
    decreases |prog|
  {
    if prog != [] {
      NewlinesOfLines(prog[..|prog| - 1]);
      CountAppend(Lines(prog[..|prog| - 1]), Line(prog[|prog| - 1]), '\n');
      NewlinesOfLine(prog[|prog| - 1]);
    }
  }

  /** The body has exactly as many lines as the source has recognised characters. */
  lemma BodyLineCount(s: string)
    ensures Count(Body(s), '\n') == |Recognised(s)|
  {
    BodyIsLines(s);
    NewlinesOfLines(Recognised(s));
  }

  /** Text made only of ignored characters (the empty text among them) has an empty body. */
  lemma {:induction false} IgnoredOnly(s: string)
    requires forall k :: 0 <= k < |s| ==> Classify(s[k]).None?
    ensures Body(s) == []
    ensures Translation(s) == Prologue() + Epilogue()
    decreases |s|
  {
    if s != [] {
      assert forall k :: 0 <= k < |s| - 1 ==> s[..|s| - 1][k] == s[k];
      IgnoredOnly(s[..|s| - 1]);
    }
  }

  // Reading a body back into the instructions it was made from.

  /** The instruction whose statement is `text`, if any. */
  function StatementOf(text: string): (r: Option<Instruction>)
    ensures r.Some? ==> Statement(r.value) == text
  {
    if text == Statement(MoveRight) then Some(MoveRight)
    else if text == Statement(MoveLeft) then Some(MoveLeft)
    else if text == Statement(Increment) then Some(Increment)
    else if text == Statement(Decrement) then Some(Decrement)
    else if text == Statement(Output) then Some(Output)
    else if text == Statement(Input) then Some(Input)
    else if text == Statement(LoopOpen) then Some(LoopOpen)
    else if text == Statement(LoopClose) then Some(LoopClose)
    else None
  }

  /** Different instructions have different statements. */
  lemma StatementOfStatement(i: Instruction)
    ensures StatementOf(Statement(i)) == Some(i)
  {
  }

  /** The instruction on one body line given without its newline. */
  function ParseLine(l: string): Option<Instruction> {
    if |Tab| <= |l| && l[..|Tab|] == Tab then StatementOf(l[|Tab|..]) else None
  }

  /** Reads the pieces between newlines; the last piece must be empty. */
  function ParseLines(pieces: seq<string>): Option<seq<Instruction>>
    decreases |pieces|
  {
    if |pieces| == 0 then None
    else if |pieces| == 1 then (if pieces[0] == [] then Some([]) else None)
    else
      match ParseLine(pieces[0])
      case None => None
      case Some(i) =>
        match ParseLines(pieces[1..])
        case None => None
        case Some(rest) => Some([i] + rest)
  }

  /** The instructions a body encodes, or None for text that is not a body. */
  function ParseBody(t: string): Option<seq<Instruction>> {
    ParseLines(Split(t, '\n'))
  }

  lemma {:induction false} ParseLinesRoundTrip(prog: seq<Instruction>)
    ensures ParseBody(Lines(prog)) == Some(prog)
    decreases |prog|
  {
    if prog == [] {
    } else {
      var i, rest := prog[0], prog[1..];
      FlatMapAppend(Line, [i], rest);
      assert [i] + rest == prog;
      assert Lines([i]) == Line(i) by { assert [i][..0] == []; }
      var text := Tab + Statement(i);
      assert '\n' !in text by { CountAppend(Tab, Statement(i), '\n'); }
      SplitAtFirstSeparator(text, '\n', Lines(rest));
      assert Lines(prog) == text + ['\n'] + Lines(rest);
      var pieces := Split(Lines(prog), '\n');
      assert pieces == [text] + Split(Lines(rest), '\n');
      assert text[..|Tab|] == Tab && text[|Tab|..] == Statement(i);
      StatementOfStatement(i);
      assert ParseLine(pieces[0]) == Some(i);
      assert pieces[1..] == Split(Lines(rest), '\n');
      ParseLinesRoundTrip(rest);
    }
  }

  /** The body records the recognised instructions of the source exactly and in order. */
  lemma ParseBodyRoundTrip(s: string)
    ensures ParseBody(Body(s)) == Some(Recognised(s))
  {
    BodyIsLines(s);
    ParseLinesRoundTrip(Recognised(s));
  }

  /** Two sources have the same body exactly when they have the same recognised instructions. */
  lemma BodyDeterminesInstructions(a: string, b: string)
    ensures Body(a) == Body(b) <==> Recognised(a) == Recognised(b)
  {
    ParseBodyRoundTrip(a);
    ParseBodyRoundTrip(b);
    BodyIsLines(a);
    BodyIsLines(b);
  }

  // Worked cases.

  lemma EmptySource()
    ensures Translation("") == Prologue() + Epilogue()
  {
  }

  lemma IncrementThenOutput()
    ensures Body("+.") == Line(Increment) + Line(Output)
  {
    assert "+."[..1] == "+";
    assert "+"[..0] == "";
  }

  lemma MovesThenIncrements()
    ensures Body(">>++") == Line(MoveRight) + Line(MoveRight) + Line(Increment) + Line(Increment)
  {
    assert ">>++"[..3] == ">>+";
    assert ">>+"[..2] == ">>";
    assert ">>"[..1] == ">";
    assert ">"[..0] == "";
  }

  /** Brackets are not matched: a lone `[` opens a loop that nothing closes. */
  lemma UnbalancedOpen()
    ensures Recognised("[") == [LoopOpen]
    ensures Body("[") == Tab + "while (*ptr) {\n"
    ensures LoopClose !in Recognised("[")
  {
    assert "["[..0] == "";
  }
}
