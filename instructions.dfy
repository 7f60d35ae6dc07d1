/** The eight symbols of the tape language; every other character is a comment. */
module Instructions {
  import opened Wrappers

  datatype Instruction =
    | MoveRight   // '>'
    | MoveLeft    // '<'
    | Increment   // '+'
    | Decrement   // '-'
    | Output      // '.'
    | Input       // ','
    | LoopOpen    // '['
    | LoopClose   // ']'

  /** The instruction a source character stands for, or None for an ignored character. */
  function Classify(c: char): (r: Option<Instruction>)
    ensures r.Some? <==> c in "><+-.,[]"
  {
    match c
    case '>' => Some(MoveRight)
    case '<' => Some(MoveLeft)
    case '+' => Some(Increment)
    case '-' => Some(Decrement)
    case '.' => Some(Output)
    case ',' => Some(Input)
    case '[' => Some(LoopOpen)
    case ']' => Some(LoopClose)
    case _ => None
  }

  /** The symbol that is written for `i`. */
  function Symbol(i: Instruction): (c: char)
    ensures Classify(c) == Some(i)
  {
    match i
    case MoveRight => '>'
    case MoveLeft => '<'
    case Increment => '+'
    case Decrement => '-'
    case Output => '.'
    case Input => ','
    case LoopOpen => '['
    case LoopClose => ']'
  }

  /** A recognised character is the symbol of the instruction it is recognised as. */
  lemma ClassifySymbol(c: char)
    ensures Classify(c).Some? ==> Symbol(Classify(c).value) == c
  {
  }

  /** The recognised instructions of `s`, in order, with every ignored character dropped. */
  function Recognised(s: string): seq<Instruction> {
    if s == [] then []
    else
      var last := Classify(s[|s| - 1]);
      Recognised(s[..|s| - 1]) + (if last.Some? then [last.value] else [])
  }

  lemma {:induction false} RecognisedAppend(a: string, b: string)
    ensures Recognised(a + b) == Recognised(a) + Recognised(b)
    decreases |b|
  {
    if b == [] {
      assert a + b == a;
    } else {
      var last := Classify(b[|b| - 1]);
      var extra := if last.Some? then [last.value] else [];
      assert (a + b)[..|a + b| - 1] == a + b[..|b| - 1];
      RecognisedAppend(a, b[..|b| - 1]);
      calc {
        Recognised(a + b);
        Recognised(a + b[..|b| - 1]) + extra;
        Recognised(a) + Recognised(b[..|b| - 1]) + extra;
        Recognised(a) + Recognised(b);
      }
    }
  }
}
