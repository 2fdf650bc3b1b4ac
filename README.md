# A head/tail reader with a configurable record delimiter, in Dafny

This project models the core of a small command-line utility. The utility prints the first N, or the last N, delimiter-separated records of a file. Two parts of the program are modelled.

- **The delimited-record reader** (`ConsoleReader.cpp`), in `ConsoleReader.dfy`:
  - The file is an immutable character sequence `content` plus a read position.
  - Standard output is the sequence a method returns.
  - The head read `ReadFileToStdout` streams the file forward in 1024-character chunks. It keeps one delimiter counter across the chunks.
  - The backward scan `FindDelimiter` walks 1024-character windows from position `L-1` down to 0. It returns an offset.
  - The dispatch `ReadFile` chooses head or tail mode.
  - Each of these is a method with the source's loops. It is proved equal to a pure specification function (`Head`, `TailOffset`), and the lemmas beside those functions prove what the program promises of them.
- **The command-line parser** (`ArgumentParser.cpp`), in `ArgumentParser.dfy`:
  - The pure decisions are functions: escape decoding (`GetSpecialChar`), the delimiter-value grammar (`DelimiterOf`), where an option's value comes from (`TakeValue`), and the line count (`LinesCount`).
  - One pass of the argument loop is the function `ParseStep`. The whole loop is `Run` and `Parse`.
  - Class `ArgumentParser` mirrors the C++ class. It has the fields `config`, `isLinesSet` and `isFilenameSet`. Its methods `GetLines`, `GetDelimiter`, `ParseArgument` and `ParseArguments` update those fields in place, and each is proved against the pure functions.
  - Every call to `ErrorMessage` ends the process. In the model it becomes an `Err`/`Failed` result carrying one of the seven error codes of `ErrorMessage.dfy`. The help text, which also ends the process, becomes the outcome `Help`.
- **Supporting modules:**
  - `Stoi.dfy` models the part of `std::stoi` that the lines option relies on.
  - `Wrappers.dfy` holds `Option`.

In these places the code does not do what a head/tail utility is usually expected to do. The model follows the code:

- **Tail offset.** The tail offset is the position of the N-th delimiter from the end, counted before the last character. It is not the character after that delimiter. For `"a,b,c,d,e"`, delimiter `,` and N = 2, tail mode prints `",d,e"`, not `"c,d,e"`. See `CommaExampleTail`; the return at ConsoleReader.cpp:39 happens one iteration after the counting character.
- **Tail with N = 0.** Tail mode with N = 0 prints the last character of a non-empty file, not nothing. See `TailWithZeroLines`.
- **Delimiter in tail mode.** Tail mode re-reads the suffix with the default limit and the default delimiter `'\n'`, not the user's delimiter. This makes no difference to the output for any file shorter than the `uint64` sentinel: the unbounded limit is never reached, so the whole suffix is printed (`TailIsSuffix`).
- **Error code names.** ErrorMessage.h declares the seven codes as `FILENAME_MISSING`, …, `TAIL_WITHOUT_LINES`. The program refers to them by k-prefixed names that no file declares. ArgumentParser.cpp uses six of these names (`kWrongDelimiter`, `kValueMissing`, `kWrongLinesCount`, `kTailWithoutLines`, `kWrongArgument`, `kFilenameMissing`), and main.cpp uses `kFileUnavailable`. `ErrorMessage.ErrorCode` has one constructor per code, in the order of ErrorMessage.h.

## Model

| member | source | states |
|---|---|---|
| ConsoleReader.Count | ConsoleReader.cpp:15 | the number of delimiters in a piece of the file is at most its length |
| ConsoleReader.Head | ConsoleReader.cpp:10-16 | what the head read emits, characters in file order up to and including the `lines`-th delimiter, is never longer than the file (its other properties are in the lemmas below) |
| ConsoleReader.HeadIsPrefix | ConsoleReader.cpp:10-16 | the head read's output is a prefix of the file: its characters in file order |
| ConsoleReader.HeadDelimiters | ConsoleReader.cpp:14-16 | a limit of 0 emits nothing; fewer delimiters than the limit emit the whole file; otherwise the output ends with the `lines`-th delimiter, which it includes, and holds exactly `lines` delimiters |
| ConsoleReader.HeadUnbounded | ArgumentParser.h:5 | with the unbounded default limit, the head read emits every character of a file shorter than that limit |
| ConsoleReader.CountAppend | ConsoleReader.cpp:15 | the delimiter count of two consecutive pieces is the sum of their counts, so a counter kept across chunks counts the whole file |
| ConsoleReader.Read | ConsoleReader.cpp:11-12 | a read of `count` characters at position `pos` copies `min(count, L - pos)` characters of the file, in order, into the buffer, leaves the rest of the buffer as it was, and returns that number |
| ConsoleReader.EmitChunk | ConsoleReader.cpp:13-17 | the loop over one chunk emits what Head prescribes for that chunk, carrying the counter in and out, and reports when the limit was reached inside the chunk |
| ConsoleReader.ReadFileToStdout | ConsoleReader.cpp:6-19 | the chunked read from `start` emits exactly `Head(content[start..], lines, delimiter)`, the output of a single pass over the rest of the file |
| ConsoleReader.NthFromEnd | ConsoleReader.cpp:36-43 | the position found by the backward count is 0 or inside the scanned range |
| ConsoleReader.NthFromEndSpec | ConsoleReader.cpp:36-48 | a range with fewer than `n` delimiters gives 0; otherwise the position holds a delimiter and exactly `n` delimiters lie at or after it |
| ConsoleReader.TailOffset | ConsoleReader.cpp:24-25 | the offset is 0 or a position inside the file |
| ConsoleReader.TailOffsetSpec | ConsoleReader.cpp:21-49 | the offset is 0 for an empty file; it lies in `[0, L-1]`; a limit of 0 gives `L-1`; fewer than `lines` delimiters before the last character give 0; otherwise it is the `lines`-th delimiter counted backward from `L-2`, with exactly `lines` delimiters in `[offset, L-1)` |
| ConsoleReader.TailOffsetFromStart | ConsoleReader.cpp:32-46 | the offset of the backward scan is where a forward scan from position 0 has passed all but `lines` of the delimiters before the last character |
| ConsoleReader.TailOffsetIgnoresLast | ConsoleReader.cpp:24-25 | the last character of the file never affects the offset, because the scan starts at `L-1` and never examines it |
| ConsoleReader.FindDelimiter | ConsoleReader.cpp:21-49 | the backward scan in windows of `min(1024, fpos)` characters terminates and returns `TailOffset(content, lines, delimiter)` |
| ConsoleReader.ReadFile | ConsoleReader.cpp:51-59 | head mode emits `Head(content, lines, delimiter)`; tail mode emits the head read from FindDelimiter's offset with the unbounded default limit and the default delimiter |
| ConsoleReader.TailIsSuffix | ConsoleReader.cpp:52-55 | tail mode's output is the file's suffix from FindDelimiter's offset |
| ConsoleReader.TailWithZeroLines | ConsoleReader.cpp:36-39 | tail mode with a limit of 0 emits exactly the last character of a non-empty file |
| ConsoleReader.CommaExampleHead | ConsoleReader.cpp:13-16 | for `"a,b,c,d,e"`, `,` and a limit of 2, the head read emits `"a,b,"` |
| ConsoleReader.CommaExampleTail | ConsoleReader.cpp:36-42 | for `"a,b,c,d,e"`, `,` and a limit of 2, the backward scan returns 5 and tail mode emits `",d,e"` |
| ConsoleReader.WithoutDelimiters | ConsoleReader.cpp:47-48 | a file without delimiters is emitted whole in both modes whenever the limit is at least 1 |
| ArgumentParser.GetSpecialChar | ArgumentParser.cpp:6-21 | an accepted value starts with the two-character escape of the returned character; a rejected value is a wrong delimiter and starts with none of the five escapes |
| ArgumentParser.GetSpecialCharOfEscape | ArgumentParser.cpp:7-16 | each of `\n`, `\t`, `\\`, `\"`, `\'` decodes to newline, tab, backslash, double quote and single quote, whatever follows its two characters |
| ArgumentParser.DelimiterOf | ArgumentParser.cpp:63-77 | every rejection is a wrong delimiter; every accepted value is a bare character other than the quote, a bare escape, a quoted character in three characters, or a quoted escape in four characters |
| ArgumentParser.DelimiterOfForms | ArgumentParser.cpp:63-74 | every character is accepted quoted as `'c'` with any closing character, bare unless it is the quote, and, for the five escapes, as the bare or the quoted escape |
| ArgumentParser.DelimiterOfRejects | ArgumentParser.cpp:68-70 | values that are empty, longer than four characters, or a quote of length 1 or 2 are wrong delimiters |
| ArgumentParser.TakeValue | ArgumentParser.cpp:26-36 | the value is the rest of the argument and the index is unchanged exactly when the inline spelling (long form first) prefixes the argument; otherwise it is the next argument and the index advances by one; with no next argument the value is missing |
| ArgumentParser.LinesArgument | ArgumentParser.cpp:23-48 | the count of a lines option is `LinesCount` of the value `TakeValue` selects, at the index it selects (the same or the next argument); it succeeds exactly when that value is a valid count; its only errors are a missing value, exactly when `TakeValue` finds none, and a wrong lines count |
| ArgumentParser.DelimiterArgument | ArgumentParser.cpp:50-78 | the delimiter of a delimiter option is `DelimiterOf` of the value `TakeValue` selects, at the index it selects (the same or the next argument); it succeeds exactly when that value is a valid delimiter; its only errors are a missing value, exactly when `TakeValue` finds none, and a wrong delimiter |
| ArgumentParser.LinesCount | ArgumentParser.cpp:37-47 | a count is accepted exactly when `std::stoi` reads a value and that value is not negative, and the accepted count is that value; every rejection is a wrong lines count |
| ArgumentParser.LinesCountOfDigits | ArgumentParser.cpp:37-44 | a value that starts with decimal digits is accepted as the number they spell; what follows the digits is ignored |
| ArgumentParser.LinesCountOfNegative | ArgumentParser.cpp:43-47 | a minus sign before non-zero digits is a wrong lines count |
| ArgumentParser.ParseStep | ArgumentParser.cpp:88-111 | one pass of the loop either ends parsing without a configuration or continues at an index no smaller than the current one; an option starting with `-h` or `--help` stops with `Help`; a tail flag is accepted only after a lines option; a delimiter option (that is neither help nor tail) sets only the delimiter and moves to the index `DelimiterArgument` gives, or fails with its error; a lines option (that passes none of the earlier tests) sets the limit and the lines flag and moves to the index `LinesArgument` gives, or fails with its error; an option failing all four tests is a wrong argument; a non-option argument replaces the file name and changes nothing else; options keep the file name; the lines flag once set stays set |
| ArgumentParser.Finish | ArgumentParser.cpp:113-115 | a loop that stopped early keeps its outcome; a loop that reached the end yields its configuration exactly when a file name was seen, and FilenameMissing otherwise |
| ArgumentParser.Parse | ArgumentParser.cpp:80-116 | the parser constructed over `argv` and run from index 1: without arguments the file name is missing, and a successful parse always names a file |
| ArgumentParser.Run | ArgumentParser.cpp:87-112 | a loop that stops early never yields a configuration |
| ArgumentParser.RunKeepsConsistent | ArgumentParser.cpp:92-111 | the loop keeps tail mode implying that a lines option was seen, and the filename flag in step with the presence of a file name |
| ArgumentParser.ParseConsistent | ArgumentParser.cpp:113-115 | after a complete parse the state is consistent, and a successful parse always names a file |
| ArgumentParser.ParseNoArguments | ArgumentParser.cpp:113-115 | without arguments after the program name the file name is missing |
| ArgumentParser.TailNeedsLines | ArgumentParser.cpp:92-97 | a tail flag fails with TailWithoutLines exactly when no lines option was seen before it, and otherwise only switches tail mode on |
| ArgumentParser.RunAppendFilename | ArgumentParser.cpp:108-111 | appending a file name to arguments that parse to the end only replaces the file name in the final state |
| ArgumentParser.ParseLastFilenameWins | ArgumentParser.cpp:108-111 | a file name appended as the final argument, after arguments that parse to the end, replaces the file name those arguments chose and leaves the rest of the configuration as it was |
| ArgumentParser.RunOnlyFilenames | ArgumentParser.cpp:108-111 | arguments without options give the initial state with the last of them as file name |
| ArgumentParser.ParseOnlyFilenames | ArgumentParser.cpp:80-84 | arguments without options parse to the default configuration with the last of them as file name |
| ArgumentParser.ParseExampleInline | ArgumentParser.cpp:26-27 | `--lines=2 -t --delimiter=',' notes.txt` parses to two lines, tail mode, delimiter `,` and file `notes.txt` |
| ArgumentParser.ParseExampleTailFirst | ArgumentParser.cpp:94-96 | `-t -l 2 notes.txt` fails with TailWithoutLines |
| ArgumentParser.ParseExampleWrongDelimiter | ArgumentParser.cpp:73-74 | `-d ab notes.txt` fails with WrongDelimiter, since `ab` is two characters but no escape |
| ArgumentParser.ParseExampleUnknownAndMissing | ArgumentParser.cpp:105-107 | `-x` fails with WrongArgument, and `-l` without a next argument fails with ValueMissing |
| ArgumentParser.ParseExampleHelp | ArgumentParser.cpp:89-91 | `notes.txt --help` ends with the help text |
| ArgumentParser.ArgumentParser.constructor | ArgumentParser.cpp:80-84 | the new parser holds `argv`, the default configuration, and neither flag set |
| ArgumentParser.ArgumentParser.GetLines | ArgumentParser.cpp:23-48 | on success the configuration's limit becomes the parsed count and `next` is the index of the last argument used; otherwise the error of `LinesArgument`; the flags are unchanged |
| ArgumentParser.ArgumentParser.GetDelimiter | ArgumentParser.cpp:50-78 | on success the configuration's delimiter becomes the decoded character and `next` is the index of the last argument used; otherwise the error of `DelimiterArgument`; the flags are unchanged |
| ArgumentParser.ArgumentParser.ParseArgument | ArgumentParser.cpp:88-111 | one pass of the loop leaves the object in the state `ParseStep` gives, or reports how parsing stops |
| ArgumentParser.ArgumentParser.ParseArguments | ArgumentParser.cpp:86-116 | the loop over `argv` from index 1 ends as `Finish(Run(argv, 1, ·))` prescribes, and when it reaches the end the object holds the final state |
| Stoi.DigitPrefixLength | ArgumentParser.cpp:37-38 | the digits `std::stoi` reads are the longest run of digits at the start |
| Stoi.SkipSpaces | ArgumentParser.cpp:37-38 | skipping white space drops only white-space characters and leaves a suffix that does not start with white space |
| Stoi.SkipLeadingSpaces | ArgumentParser.cpp:37-38 | after any run of white space, skipping lands exactly on the first character that is not white space |
| Stoi.StringToInt | ArgumentParser.cpp:37-41 | `std::stoi`, None where it throws `invalid_argument`; a negative value is read only after a minus sign (its other properties are in the lemmas below) |
| Stoi.StringToIntAfterSpaces | ArgumentParser.cpp:37-38 | leading white space does not change what `std::stoi` reads |
| Stoi.StringToIntOfDigits | ArgumentParser.cpp:37-38 | a string that starts with decimal digits reads as the number they spell |
| Stoi.StringToIntOfSignedDigits | ArgumentParser.cpp:37-38 | after a `+` or `-` sign, the digits read as the number or its negation |
| Stoi.StringToIntRejects | ArgumentParser.cpp:39-41 | without a digit after the optional sign, `std::stoi` throws `invalid_argument` (None) |
| Stoi.DecimalValueOfDecimal | ArgumentParser.cpp:37-38 | the decimal spelling of every natural number reads back as that number |

## Left out

- `ErrorMessage.cpp` and `PrintHelpMessage`: they only write text to standard error or standard output and then exit. The model returns the error code or the `Help` outcome instead.
- `main.cpp`: opening the file and the `FileUnavailable` path are file-system I/O. `main.cpp` is not part of this model, beyond passing a default-constructed `Config` to the parser (`InitialState`).
- `std::ifstream` state: `eof`, `gcount`, `clear`, failing seeks and `tellg` returning -1 on an empty file are not modelled as such. The file is a sequence with a read position. `FindDelimiter` returns 0 for an empty file, which is what the code computes in that case.
- The writes to `std::cout` are appends to the returned output sequence. The chunked `read` copies into a 1024-element `array<char>`.
- `exit(0)` after the help text and `exit(EXIT_SUCCESS)` after tail mode are process control. They appear as the `Help` outcome and as the end of `ReadFile`.
- Stoi.StringToInt: it models only the base-10 grammar (white space, optional sign, digits). `std::out_of_range` for values outside `int`, which the code does not catch, is not modelled. Nor is the `int` width of the parsed count: any natural number is accepted.
- ConsoleReader.ReadFileToStdout and ConsoleReader.FindDelimiter: they do not model fixed-width integers. Limits and counters are unbounded naturals. The `uint64` sentinel `kDefaultLinesValue` keeps its value `2^64 - 1`, and the `int64` counter compared with a `uint64` limit is not modelled. HeadUnbounded and TailIsSuffix therefore require the file to be shorter than the sentinel.
- Command-line arguments are strings without NUL characters, so each `strncmp` against a literal is a prefix test. The C `'\0'` that `GetSpecialChar` returns after its error is never used, because the error ends the process.
- Each Dafny `char` stands for one byte of the file or of an argument, so the model's input must be given byte by byte. Given the single character `é` instead of its two UTF-8 bytes, the model would accept `-d é` as a one-character delimiter, while the program sees two bytes that are no escape and reports a wrong delimiter (ArgumentParser.cpp:73-74).
