# bf2c in Dafny

A model of the core of `bf2c`, a command-line tool that translates a program in
the eight-symbol tape language (Brainfuck) into C and hands the C text to gcc.
Everything modelled lives in the `Program` record of `src/utils.rs`:

- **Configuration.** `handle_arguments` picks a form by argument count (3, 4 or
  5). In the 4 and 5 forms it requires `-o` as the third argument. It delegates
  to `check_arguments`, which checks the input name's extension and records the
  input and output names. The fifth argument becomes the compiler flag.
- **Translation.** `transpile_to_c` makes one left-to-right pass over the
  source. It appends a fixed prologue, one indented C statement line per
  recognised symbol, and a fixed epilogue to the `c` buffer. Brackets are not
  matched.
- **The gcc argument list** that `compile_c` builds: `-o <output> -x c <flag> -`.

Layout, one module per file:

- `wrappers.dfy` (`Wrappers`): `Option` (Rust's `Option`) and `Outcome`. `Outcome`
  stands for a step that either passes or ends the run with `exit(1)`.
- `strings.dfy` (`Strings`): character counting, flat-mapping, and Rust's
  `str::split` with its inverse `Join`.
- `instructions.dfy` (`Instructions`): the closed set of eight instructions,
  how a character is classified, and the recognised instructions of a text.
- `transpiler.dfy` (`Transpiler`): the `TAB` and `HEADERS` constants, the
  statement table, and the pure specification `Translation` of the emitted
  text. It also has a reader `ParseBody` that recovers the instructions from a
  body, and the lemmas about all of these.
- `arguments.dfy` (`Arguments`): the extension rule and the command-line
  shapes, stated as predicates, with the errors they report.
- `program.dfy` (`Utils`): the `Program` class. Its fields are `compilerFlag`,
  `input`, `brainfuck`, `output` and `c`. Its methods mirror the Rust methods
  and are proved against the functions above. Two client methods run a fresh
  `Program` the way `src/main.rs` does.

Paths (`PathBuf`) are modelled as strings. `std::process::exit(1)` on a refused
command line becomes a `Fail` result. On every `Fail` the model proves that no
field changed; the Rust code assigns nothing before it exits.

Two rules are modelled exactly as the code applies them:

- The program's own messages ask for a Brainfuck file ending in `.bf` or `.b`
  (src/utils.rs:86, src/utils.rs:94). The code splits the input name at every
  `.` and tests the second piece of `split('.')`, not the last one. So
  `hello.bf.txt` passes, while `my.prog.bf` and `./hello.bf` fail
  (`AcceptsInnerBf`, `RejectsDottedStem`, `RejectsDotSlash`; `NameCut` states
  the rule for every name that contains a `.`).
- The compiler flag is always passed to gcc. It is `Some("")` from
  `Program::new` (src/utils.rs:23) and changes only with a fifth argument
  (src/utils.rs:66); `unwrap_or("")` (src/utils.rs:133-137) would give `""`
  for a missing flag too (`GccArgumentsFor`).

## Model

| member | source | states |
|---|---|---|
| `Instructions.Symbol` | src/utils.rs:116-124 | each of the eight instructions has a symbol that the match recognises as that instruction |
| `Instructions.Classify` | src/utils.rs:116-125 | the `match instruction` arms: a character is recognised exactly when it is one of `> < + - . , [ ]`; the `_` arm makes every other character ignored |
| `Instructions.ClassifySymbol` | src/utils.rs:116-125 | a recognised character is the symbol of the instruction it is recognised as |
| `Instructions.RecognisedAppend` | src/utils.rs:115-126 | the recognised instructions of a concatenation are those of the first part followed by those of the second |
| `Transpiler.HeaderIndentation` | src/utils.rs:3-9 | the `TAB` constant is five spaces, and `HEADERS[1]`, `HEADERS[2]` and `HEADERS[3]` begin with that same indentation |
| `Transpiler.Prologue` | src/utils.rs:111-113 | the text the `for i in 0..=2` loop appends: `HEADERS[0..=2]` in order (its content is stated by `PrologueText`) |
| `Transpiler.Epilogue` | src/utils.rs:129 | the closing text `HEADERS[3]` appended after the body |
| `Transpiler.PrologueText` | src/utils.rs:111-113 | the prologue is `HEADERS[0]`, `HEADERS[1]`, `HEADERS[2]` in that order |
| `Transpiler.Statement` | src/utils.rs:117-124 | every emitted C statement fits on one line (contains no newline) |
| `Transpiler.Line` | src/utils.rs:117-124 | the `format!("{}…\n", TAB)` line of one instruction: `TAB`, its statement, a newline |
| `Transpiler.Image` | src/utils.rs:115-126 | a character contributes nothing exactly when it is not one of the eight symbols |
| `Transpiler.ImageText` | src/utils.rs:117-125 | the exact line each symbol appends (`TAB` + statement + newline) and that every other character appends nothing |
| `Transpiler.Body` | src/utils.rs:115-127 | the text the `chars()` loop appends: each character's image, left to right (its properties are stated by the lemmas below) |
| `Transpiler.Translation` | src/utils.rs:110-130 | the translation unit is prologue, body, epilogue: it starts with the prologue and ends with `HEADERS[3]` for every text |
| `Transpiler.BodyExtend` | src/utils.rs:115-127 | scanning one more character appends exactly that character's image |
| `Transpiler.BodyAppend` | src/utils.rs:115-127 | the body of `a + b` is the body of `a` followed by the body of `b` |
| `Transpiler.BodyIsLines` | src/utils.rs:115-126 | the body is one line per recognised instruction, in source order, with ignored characters contributing nothing |
| `Transpiler.BodyLineCount` | src/utils.rs:115-126 | the number of newlines in the body equals the number of recognised characters |
| `Transpiler.IgnoredOnly` | src/utils.rs:110-130 | a text made only of ignored characters, the empty text included, has an empty body and translates to prologue plus epilogue |
| `Transpiler.StatementOfStatement` | src/utils.rs:117-124 | different instructions emit different statements |
| `Transpiler.ParseLinesRoundTrip` | src/utils.rs:115-126 | reading the lines of any instruction list back gives that list |
| `Transpiler.ParseBodyRoundTrip` | src/utils.rs:115-127 | the body records the recognised instructions exactly and in order: reading it back returns them |
| `Transpiler.BodyDeterminesInstructions` | src/utils.rs:115-126 | two texts have the same body if and only if they have the same recognised instructions |
| `Transpiler.EmptySource` | src/utils.rs:110-130 | the empty text translates to prologue and epilogue only |
| `Transpiler.IncrementThenOutput` | src/utils.rs:119-121 | `+.` gives the increment line followed by the output line |
| `Transpiler.MovesThenIncrements` | src/utils.rs:115-127 | `>>++` gives advance, advance, increment, increment |
| `Transpiler.UnbalancedOpen` | src/utils.rs:123-124 | a lone `[` gives exactly one `while (*ptr) {` line and no closing line; translation still succeeds |
| `Strings.Split` | src/utils.rs:84 | `split` gives one more piece than there are separators |
| `Strings.JoinSplit` | src/utils.rs:84 | joining the pieces of a split with the separator gives back the original text |
| `Strings.SplitPiecesFree` | src/utils.rs:84 | no piece of a split contains the separator |
| `Strings.SplitWithoutSeparator` | src/utils.rs:84 | a text without the separator splits into itself alone |
| `Strings.SplitAtFirstSeparator` | src/utils.rs:84 | the first piece ends at the first separator and the rest is split on its own |
| `Strings.SplitFirstPiece` | src/utils.rs:84 | the first piece of a split is a prefix of the text, followed by a separator or the end |
| `Arguments.ExtensionSegment` | src/utils.rs:84-85 | `parts_i[1]`, the second piece of `split('.')`, defined only for names containing `.` as the `contains('.')` guard ensures |
| `Arguments.HasBrainfuckExtension` | src/utils.rs:83-85 | the input-name test as written: a `.` is present and `parts_i[1]` is `bf` or `b` |
| `Arguments.ExtensionError` | src/utils.rs:83-96 | the error each failing name reports: a bad extension carrying `parts_i[1]` (line 86), or a missing `.` (line 94) |
| `Arguments.WellFormed` | src/utils.rs:39-79 | the argument-count dispatch: 3 arguments, or 4 or 5 with `-o` third |
| `Arguments.Accepted` | src/utils.rs:39-96 | a command line is accepted when it is well formed and its input name passes the extension test |
| `Arguments.OutputPosition` | src/utils.rs:41-62 | the output name is `args[2]` in the 3-argument form and `args[3]` after `-o` |
| `Arguments.ArgumentsError` | src/utils.rs:39-96 | the error a refused command line reports, in the order the code tests: count, then the `-o` flag, then the extension |
| `Arguments.NameCut` | src/utils.rs:83-85 | every name with a `.` splits as dot-free front, `.`, the tested piece, then the end or another `.`; the front is everything before the first `.`, and the name passes exactly when that piece is `bf` or `b` |
| `Arguments.SegmentAfterFirstDot` | src/utils.rs:83-85 | the piece `parts_i[1]` is the text between the first `.` and the next `.` or the end |
| `Arguments.ExtensionRule` | src/utils.rs:83-85 | a name cut at its first two dots passes if and only if the piece between them is `bf` or `b` |
| `Arguments.AcceptsBf` | src/utils.rs:83-85 | `hello.bf` passes |
| `Arguments.AcceptsB` | src/utils.rs:83-85 | `hello.b` passes |
| `Arguments.AcceptsInnerBf` | src/utils.rs:83-85 | `hello.bf.txt` passes, because only the second piece is tested |
| `Arguments.RejectsDottedStem` | src/utils.rs:83-85 | `my.prog.bf` fails, because its second piece is `prog` |
| `Arguments.RejectsDotSlash` | src/utils.rs:83-85 | `./hello.bf` fails, because its second piece is `/hello` |
| `Arguments.RejectsC` | src/utils.rs:83-85 | `hello.c` fails |
| `Utils.Program.constructor` | src/utils.rs:22-36 | a new `Program` has flag `Some("")`, input and output `.`, and empty source and C text |
| `Utils.Program.HandleArguments` | src/utils.rs:38-81 | accepts if and only if there are 3 arguments, or 4 or 5 with `-o` third, and the input name passes. On acceptance input is `args[1]` and output is `args[2]` (3 arguments) or `args[3]` (after `-o`). The flag becomes `Some(args[4])` only with 5 arguments. Each refusal reports its error (count, flag, extension) and changes no field |
| `Utils.Program.CheckArguments` | src/utils.rs:82-98 | passes if and only if `args[1]` has a `.` and its second piece is `bf` or `b`. On a pass it sets input to `args[1]` and output to `args[num]`. On a failure it reports a missing or bad extension and leaves both fields unchanged |
| `Utils.Program.TranspileToC` | src/utils.rs:110-130 | appends exactly `Translation(brainfuck)` to `c` and changes no other field |
| `Wrappers.Option.GetOr` | src/utils.rs:136 | `unwrap_or`: the wrapped value, or the default when there is none |
| `Utils.Program.GccArguments` | src/utils.rs:133-137 | the gcc arguments are always six: `-o`, the output, `-x`, `c`, the flag or `""`, `-` |
| `Utils.TranspileSource` | src/utils.rs:110-130 | a fresh `Program` with source `text` ends with `c` equal to the translation of `text`. It starts with `HEADERS[0..=2]` and ends with `HEADERS[3]` |
| `Utils.GccArgumentsFor` | src/utils.rs:133-137 | after a fresh `Program` resolves `args`, an accepted command line gives six gcc arguments. The output is in second place. The flag entry is `args[4]` with five arguments and `""` otherwise |

## Left out

- `read_from_bf` (src/utils.rs:100-108) reads the file system. The source text is
  a given string: clients assign the public `brainfuck` field directly.
- `compile_c` spawning gcc, writing the C text to its standard input, waiting,
  and the exit status 0 or 1 that follows (src/utils.rs:138-150). This is
  external process I/O. Only the argument list it builds is modelled.
- The `eprintln!`/`println!` diagnostics and their ANSI colour codes are output
  only. The model keeps which error happened (`ConfigError`) but not the text.
- `std::process::exit` as control flow: it is a `Fail` result instead, and the
  sequencing in `src/main.rs` is not modelled beyond the two client methods.
- The panics of `unwrap`/`expect` in `check_arguments` cannot happen from its
  callers. `CheckArguments` requires the indices they use to exist instead.
- The run-time meaning of the generated C program (the 30000-cell tape, pointer
  moves, byte wrap-around). The model is about the emitted text, not about
  running it.
- Rust's `String` is UTF-8 bytes. The model works on Unicode scalar values,
  which is what `chars()` iterates over, so the character-level results are
  the same.
