# Shuttle shell executor and cached-binary path, in Dafny

This project models two pieces of shuttle's action executors and proves what they promise.

- **The shell executor** (`pkg/executors/shell.go`). An action with a non-empty `shell` text runs as `sh -c "cd '<project>'; <shell>"`. The executor builds the child's environment in place:
  - first the inherited environment;
  - then one `name=value` entry per script argument;
  - then nine fixed entries: the plan, temp and project paths under two names each, an extended `PATH`, `SHUTTLE_PLANS_ALREADY_VALIDATED` and `SHUTTLE_INTERACTIVE=default`;
  - finally `SHUTTLE_CONTEXT_ID`.

  On Windows, the project path inside the path values is replaced by its POSIX form, which the `cygpath` tool computes. The executor then drains the command's stdout and stderr into the UI. A positive exit status becomes an exit-code-4 error. A cancelled context returns the context's error.
- **The cached-binary path** (`pkg/executors/golang/shuttlefolder/binaryName.go`). A compiled Go action lives at `<shuttledir>/binaries/actions-<hex>[.exe]`. Here `<hex>` is the lower-case hexadecimal encoding of the first 16 bytes of the content hash. `.exe` is added on Windows.

Modules:

| file | module | contents |
|---|---|---|
| `wrappers.dfy` | `Wrappers` | `Option`, `Result` |
| `go_strings.dfy` | `GoStrings` | `strings.Replace` (all occurrences), `strings.Count`, `strings.TrimSuffix`, `strings.Contains`, decimal formatting of `%v` |
| `hex.dfy` | `Hex` | `hex.EncodeToString` and `hex.DecodeString` |
| `paths.dfy` | `Paths` | `path.Split`, and `path.Join` for clean arguments |
| `binary_name.dfy` | `ShuttleFolder`, `ShuttleFolderExamples` | the binary name and path, and a worked case |
| `shell_env.dfy` | `ShellEnv` | the pure parts of the shell executor: path translation, the cygpath result, the environment as a value, the argument list, the exit classification |
| `shell_exec.dfy` | `Shell` | the stateful parts: the `Cmd` object whose `Env` is built in place, the output pump over the two channels, `executeShell` |

Inputs that the Go code reads from the process or the OS are parameters, carried by the `ShellEnv.Host` value:
- the platform (`runtime.GOOS`, a string compared with `"windows"`);
- `os.Environ()`;
- `os.Getenv("PATH")`;
- the executable's directory;
- the outcome of running a `cygpath` command line.

Three more things are inputs to `Shell.ExecuteShell`:
- the telemetry context id;
- the lines the script prints;
- which goroutine proceeds when, and how many receives the pump has made when the context is done.

## Model

| member | source | states |
|---|---|---|
| GoStrings.TrimSuffix | pkg/executors/shell.go:188 | one trailing copy of the suffix is removed if present; otherwise the value is unchanged |
| GoStrings.ReplaceSelf | pkg/executors/shell.go:195 | replacing a pattern by itself changes nothing, the shortcut `strings.Replace` takes |
| GoStrings.CountZeroIffAbsent | pkg/executors/shell.go:195 | the occurrence count is zero exactly when the pattern does not occur, the other shortcut `strings.Replace` takes |
| GoStrings.ReplaceAbsent | pkg/executors/shell.go:195 | a value that does not contain the pattern passes through replacement unchanged |
| GoStrings.ReplaceLeading | pkg/executors/shell.go:195 | a value that starts with a non-empty pattern starts, after replacement, with the replacement; the rest is replaced the same way |
| GoStrings.ReplaceWhole | pkg/executors/shell.go:195 | a value equal to a non-empty pattern becomes exactly the replacement |
| GoStrings.ReplaceLength | pkg/executors/shell.go:195 | the result length grows by the length difference once per counted occurrence |
| GoStrings.FormatNat | pkg/executors/shell.go:101-104 | the decimal text of the exit status is non-empty, all digits, and has no leading zero |
| GoStrings.ParseFormatNat | pkg/executors/shell.go:101-104 | the decimal text reads back as the number |
| Hex.HexDigit | pkg/executors/golang/shuttlefolder/binaryName.go:16 | each nibble is written as a lower-case hexadecimal digit |
| Hex.HexDigitTable | pkg/executors/golang/shuttlefolder/binaryName.go:16 | the digit for each nibble is the entry of the table "0123456789abcdef" |
| Hex.FromHexChar | pkg/executors/golang/shuttlefolder/binaryName.go:16 | a lower-case digit reads back as the nibble it encodes |
| Hex.EncodeToString | pkg/executors/golang/shuttlefolder/binaryName.go:16 | the encoding has two characters per byte, all lower-case hexadecimal |
| Hex.EncodeAppend | pkg/executors/golang/shuttlefolder/binaryName.go:16 | encoding works byte by byte: the encoding of a concatenation is the concatenation of the encodings |
| Hex.DecodeEncode | pkg/executors/golang/shuttlefolder/binaryName.go:16 | decoding the encoding gives back the bytes |
| Hex.EncodeInjective | pkg/executors/golang/shuttlefolder/binaryName.go:16 | distinct byte strings have distinct encodings |
| Paths.Split | pkg/executors/golang/shuttlefolder/binaryName.go:21-25 | reading aid for the joined path (`path.Split`, which the source does not call): a path splits into a directory ending in a slash (or empty) and a slash-free last element, which concatenate back to the path |
| Paths.JoinComponents | pkg/executors/golang/shuttlefolder/binaryName.go:21-25 | a three-part join ends in the last two parts, in order, under the first |
| Paths.JoinIsClean | pkg/executors/golang/shuttlefolder/binaryName.go:21-25 | the joined path is clean again |
| ShuttleFolder.BinaryName | pkg/executors/golang/shuttlefolder/binaryName.go:15-20 | the name needs at least 16 hash bytes. It starts with "actions-", followed by 32 lower-case hexadecimal digits that decode to the first 16 bytes. It is 40 characters long, or 44 on Windows, and ends in ".exe" exactly on Windows. It is a single path element |
| ShuttleFolder.CalculateBinaryPath | pkg/executors/golang/shuttlefolder/binaryName.go:15-26 | the path's last element is the binary name, the one before it is "binaries", and the rest is the cache directory; the path is clean |
| ShuttleFolder.PathDeterminedByPrefix | pkg/executors/golang/shuttlefolder/binaryName.go:16 | two hashes give the same path exactly when their first 16 bytes agree |
| ShuttleFolderExamples.ExampleNonWindows | pkg/executors/golang/shuttlefolder/binaryName.go:15-26 | a hash starting with the bytes of "0123456789abcdef" lands at /cache/binaries/actions-30313233343536373839616263646566 |
| ShuttleFolderExamples.ExampleWindows | pkg/executors/golang/shuttlefolder/binaryName.go:15-26 | the same hash on Windows lands at the same path plus ".exe" |
| ShellEnv.NonWindowsIsIdentity | pkg/executors/shell.go:193-198 | outside Windows the path translation returns its input unchanged |
| ShellEnv.WindowsAbsentSegment | pkg/executors/shell.go:194-195 | on Windows a value that does not contain the project path is unchanged |
| ShellEnv.WindowsWholeSegment | pkg/executors/shell.go:147-152 | on Windows the project path itself becomes its POSIX form (the `project` and `shuttle_project` values) |
| ShellEnv.WindowsDerivedPath | pkg/executors/shell.go:129-144 | on Windows a path under the project path starts with the POSIX form, and the rest is translated the same way |
| ShellEnv.ResolveShPathForWindows | pkg/executors/shell.go:173-191 | outside Windows the result is "" with no error. On Windows a tool failure is an error with the fixed prefix. The tool's output is returned with one trailing newline removed exactly when it ends in one |
| ShellEnv.ResolveKeepsSecondNewline | pkg/executors/shell.go:188 | only one trailing newline is removed |
| ShellEnv.EntryParts | pkg/executors/shell.go:125 | an entry `name=value` with an '='-free name splits back into that name and value |
| ShellEnv.EnumerationLength | pkg/executors/shell.go:124-126 | a visiting order of the argument map lists as many keys as the map has |
| ShellEnv.ArgEntriesAt | pkg/executors/shell.go:124-126 | entry i of the argument block is the i-th visited key and its value |
| ShellEnv.SetupEnvFails | pkg/executors/shell.go:118-121 | setup fails exactly when, on Windows, the tool fails, and then with the resolver's error |
| ShellEnv.EnvLayout | pkg/executors/shell.go:123-169 | the environment is the inherited entries, then one entry per argument, then nine entries with the fixed names in source order, the last "SHUTTLE_INTERACTIVE=default"; its length is the sum |
| ShellEnv.FixedValuesWin | pkg/executors/shell.go:127-169 | whatever the inherited environment and the arguments hold, each fixed name resolves to its fixed value. The paired names carry identical values. PATH is the executable's directory, the separator and the inherited PATH. SHUTTLE_PLANS_ALREADY_VALIDATED is the untranslated plan path |
| ShellEnv.ArgValuesSeen | pkg/executors/shell.go:124-169 | an argument whose name is not a fixed name resolves to its own value, when no argument name contains '=' |
| ShellEnv.ArgLookup | pkg/executors/shell.go:124-126 | within the argument block each key resolves to its value |
| ShellEnv.LookupAppend | pkg/executors/shell.go:51-54 | for a name, entries appended later override earlier ones |
| ShellEnv.ContextIdAppended | pkg/executors/shell.go:51-54 | after the context id is appended, SHUTTLE_CONTEXT_ID resolves to it and the fixed names keep their values |
| ShellEnv.NonWindowsPaths | pkg/executors/shell.go:129-153 | outside Windows the plan, temp and project paths reach the child untranslated |
| ShellEnv.CmdArgs | pkg/executors/shell.go:34-37 | the argument list has two elements, the first "-c" |
| ShellEnv.CmdArgsRoundTrip | pkg/executors/shell.go:34-37 | when the project path has no single quote, the shell changes into exactly that path and runs exactly the script |
| ShellEnv.QuoteInPathBreaksCd | pkg/executors/shell.go:36 | a single quote in the project path ends the quoted directory early |
| ShellEnv.ClassifyExit | pkg/executors/shell.go:98-107 | a status is a failure exactly when it is positive, so zero and negative statuses succeed. A failure has code 4, and its message contains the script name and the shell text and ends with the status in decimal |
| ShellEnv.ExitCodeReadable | pkg/executors/shell.go:98-105 | the status reads back from the digits that end the message |
| Shell.ShellExecutor | pkg/executors/shell.go:21-23 | the shell executor handles an action exactly when its shell text is non-empty |
| Shell.StreamLineCount | pkg/executors/shell.go:58-77 | every line the pump prints is one stdout line or one stderr line |
| Shell.Cmd.constructor | pkg/executors/shell.go:38 | a new command has the given name and arguments, no environment, and both channels open |
| Shell.SetupCommandEnvironmentVariables | pkg/executors/shell.go:113-171 | on a resolver error, returns it and leaves Env as it was. Otherwise Env becomes the environment `SetupEnv` describes, for the order in which the argument map was visited |
| Shell.AppendArgs | pkg/executors/shell.go:124-126 | the loop appends one entry per argument, each key once, in the order visited |
| Shell.PumpOutput | pkg/executors/shell.go:56-77 | under any choice of channel, the UI gets stdout's lines as Output lines and stderr's as Infoln lines, each stream in order and nothing else, at most one line per receive. What was printed plus what each channel still holds is the whole stream. With a receive for every line and every close, both channels end nil and each stream is printed complete |
| Shell.PumpUntilCancelled | pkg/executors/shell.go:58-93 | when the context is done before the process exits, the UI keeps what it had, then gets what the pump printed (a prefix of each stream, all of both when the pump had receives enough), then the stop-failure line when stopping failed |
| Shell.ReceiveStdoutLine | pkg/executors/shell.go:63-68 | receiving and printing a stdout line keeps the pump's accounting of both streams |
| Shell.ReceiveStderrLine | pkg/executors/shell.go:69-74 | receiving and printing a stderr line keeps the pump's accounting of both streams |
| Shell.ExecuteShell | pkg/executors/shell.go:26-110 | the command is `sh` with the two arguments, and the start line is logged first. A setup error is returned with the fixed prefix, and nothing else is printed. Otherwise Env is the setup environment plus the context-id entry. If the process wins the race, the output is drained completely and the exit status decides the outcome. If the context wins, its error is returned. The UI then holds, after the start line, a prefix of each stream as printed by the pump, followed by the stop-failure line when there is one |

## Left out

- Concurrency is modelled sequentially. The pump's `select` picks a channel according to a schedule, given as an input. The winner of the final `select` is also an input.
- `Shell.ExecuteShell`: on cancellation the UI is described as it stands when the function returns. The pump goroutine may go on printing after that, which is not modelled.
- `Shell.PumpUntilCancelled`: the stop-failure line comes after the pump's lines. In the source the two goroutines run side by side, so that line may fall anywhere among them.
- The go-cmd library is reduced to a `Cmd` object with name, arguments, environment and two channels: process start and stop, line buffering (including the 512e3-byte line limit) and the content of `status` other than `Exit` are not modelled.
- Running `cygpath` through `exec.Command` is not modelled. Its outcome is the function `Host.cygpath`, applied to the exact command line the source builds.
- OS lookups are not modelled. `os.Environ`, `os.Getenv("PATH")`, the executable's directory (its `filepath.Abs` error is ignored, as in the source), `runtime.GOOS` and the telemetry context id are parameters.
- Go's map iteration order is not modelled. The loop picks keys with `:|`, and the ghost field `Cmd.ArgOrder` records the order; every property holds for every order.
- `ShellEnv.ResolveShPathForWindows`: an error result carries no string value, where Go returns "" alongside the error.
- `ShellEnv.Lookup` is how a child reads duplicate entries (the last one wins). It is the model's reading aid, not source code. It compares names case-sensitively, whereas os/exec on Windows also merges names that differ only in case.
- `Paths.Split`, `Paths.Base` and `Paths.Parent` are the model's reading aids for a joined path, not source code. The source only joins.
- `ShellEnv.ArgValuesSeen` requires that no argument name contains '='. With such a name, the entry's key is read differently.
- Strings are sequences of characters, each standing for one rune. The hash is a byte sequence.
- `ShuttleFolder.CalculateBinaryPath` requires a clean `shuttledir`, because the model's `path.Join` does not include `path.Clean`'s rewriting of ".", ".." and repeated slashes. For such a directory the result is as in Go.
- `ShuttleFolder.BinaryName` requires at least 16 hash bytes, because the source's `[:16]` panics on shorter input. The panic itself is not modelled.
- The UI is reduced to the list of lines printed. Formatting through `%s` is the identity. Verbose-mode filtering is not modelled.
