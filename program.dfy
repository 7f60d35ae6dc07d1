/**
 * The `Program` record of the transpiler: the resolved configuration, the
 * source text and the C text being built, with the steps that fill them in.
 */
module Utils {
  import opened Wrappers
  import opened Strings
  import opened Instructions
  import opened Transpiler
  import opened Arguments

  class Program {
    /** The single extra argument for the C compiler; `Some("")` until a fifth argument sets it. */
    var compilerFlag: Option<string>
    var input: string
    /** The tape-language source text; reading it from `input` is not modelled. */
    var brainfuck: string
    var output: string
    /** The C translation unit, grown by appending. */
    var c: string

    constructor ()
      ensures compilerFlag == Some("")
      ensures input == "." && output == "."
      ensures brainfuck == [] && c == []
    {
      compilerFlag := Some("");
      input := ".";
      brainfuck := [];
      output := ".";
      c := [];
    }

    /**
     * Resolves the command line `args` (program name first). A refused command
     * line is reported as `Fail` and leaves every field as it was.
     */
    method HandleArguments(args: seq<string>) returns (r: Outcome<ConfigError>)
      modifies this`input, this`output, this`compilerFlag
      ensures r.Pass? <==> Accepted(args)
      ensures r.Pass? ==> input == args[1] && output == args[OutputPosition(|args|)]
      ensures r.Pass? ==> compilerFlag == if |args| == 5 then Some(args[4]) else old(compilerFlag)
      ensures r.Fail? ==> r.error == ArgumentsError(args)
      ensures r.Fail? ==> input == old(input) && output == old(output) && compilerFlag == old(compilerFlag)
    {
      if |args| == 3 {
        r := CheckArguments(args, 2);
      } else if |args| == 4 {
        if args[2] != "-o" {
          r := Fail(InvalidFlag(args[2]));
        } else {
          r := CheckArguments(args, 3);
        }
      } else if |args| == 5 {
        if args[2] != "-o" {
          r := Fail(InvalidFlag(args[2]));
        } else {
          r := CheckArguments(args, 3);
          if r.Pass? {
            compilerFlag := Some(args[4]);
          }
        }
      } else {
        r := Fail(BadArgumentCount(|args|));
      }
    }

    /**
     * Checks the input name `args[1]` and, when it passes, takes it as the input
     * and `args[num]` as the output; when it fails, changes nothing.
     */
    method CheckArguments(args: seq<string>, num: nat) returns (r: Outcome<ConfigError>)
      requires 1 < |args| && num < |args|
      modifies this`input, this`output
      ensures r.Pass? <==> HasBrainfuckExtension(args[1])
      ensures r.Pass? ==> input == args[1] && output == args[num]
      ensures r.Fail? ==> r.error == ExtensionError(args[1])
      ensures r.Fail? ==> input == old(input) && output == old(output)
    {
      if '.' in args[1] {
        var parts := Split(args[1], '.');
        if parts[1] != "bf" && parts[1] != "b" {
          return Fail(BadExtension(parts[1]));
        } else {
          input := args[1];
        }
        output := args[num];
      } else {
        return Fail(MissingExtension);
      }
      return Pass;
    }

    /**
     * Appends the translation of `brainfuck` to `c`: the three opening headers,
     * one line per recognised character in source order, then the closing header.
     * No other field changes.
     */
    method TranspileToC()
      modifies this`c
      ensures c == old(c) + Translation(brainfuck)
      ensures brainfuck == old(brainfuck) && input == old(input)
      ensures output == old(output) && compilerFlag == old(compilerFlag)
    {
      for i := 0 to 3
        invariant c == old(c) + Concat(Headers[..i])
      {
        ConcatExtend(Headers, i);
        AppendAssociative(old(c), Concat(Headers[..i]), Headers[i]);
        c := c + Headers[i];
      }

      ghost var headed := c;
      for k := 0 to |brainfuck|
        invariant c == headed + Body(brainfuck[..k])
      {
        ghost var before := c;
        match brainfuck[k] {
          case '>' => c := c + (Tab + "++ptr;\n");
          case '<' => c := c + (Tab + "--ptr;\n");
          case '+' => c := c + (Tab + "++*ptr;\n");
          case '-' => c := c + (Tab + "--*ptr;\n");
          case '.' => c := c + (Tab + "putchar(*ptr);\n");
          case ',' => c := c + (Tab + "*ptr = getchar();\n");
          case '[' => c := c + (Tab + "while (*ptr) {\n");
          case ']' => c := c + (Tab + "}\n");
          case _ =>
        }
        assert c == before + Image(brainfuck[k]) by { ImageText(brainfuck[k]); }
        BodyExtend(brainfuck, k);
        AppendAssociative(headed, Body(brainfuck[..k]), Image(brainfuck[k]));
      }
      assert c == headed + Body(brainfuck) by {
        assert brainfuck[..|brainfuck|] == brainfuck;
      }
      assert headed == old(c) + Prologue();
      ghost var bodied := c;
      c := c + Headers[3];
      assert c == old(c) + Translation(brainfuck) by {
        AppendAssociative(old(c), Prologue(), Body(brainfuck));
        AppendAssociative(old(c), Prologue() + Body(brainfuck), Epilogue());
      }
    }

    /**
     * The arguments given to gcc: the C text is read from standard input, and the
     * flag is always passed, as the empty string when there is none.
     */
    method GccArguments() returns (argv: seq<string>)
      ensures argv == ["-o", output, "-x", "c", compilerFlag.GetOr(""), "-"]
    {
      argv := ["-o", output, "-x", "c", compilerFlag.GetOr(""), "-"];
    }
  }

  /**
   * A fresh `Program` holding `text` as its source, after `transpile_to_c`:
   * the C text is the whole translation unit, fixed prologue first and fixed
   * epilogue last, for every text including the empty one.
   */
  method TranspileSource(text: string) returns (unit: string)
    ensures unit == Translation(text)
    ensures unit[..|Prologue()|] == Headers[0] + Headers[1] + Headers[2]
    ensures unit[|unit| - |Epilogue()|..] == Headers[3]
  {
    var p := new Program();
    p.brainfuck := text;
    p.TranspileToC();
    unit := p.c;
    PrologueText();
  }

  /**
   * A fresh `Program` after `handle_arguments(args)`, and the gcc arguments it
   * then builds: the output name taken from the command line, and the flag
   * entry empty unless a fifth argument was given.
   */
  method GccArgumentsFor(args: seq<string>) returns (r: Outcome<ConfigError>, argv: seq<string>)
    ensures r.Pass? <==> Accepted(args)
    ensures r.Fail? ==> r.error == ArgumentsError(args)
    ensures r.Pass? ==> |argv| == 6 && argv[1] == args[OutputPosition(|args|)]
    ensures r.Pass? ==> argv[4] == if |args| == 5 then args[4] else ""
  {
    var p := new Program();
    r := p.HandleArguments(args);
    argv := p.GccArguments();
  }
}
