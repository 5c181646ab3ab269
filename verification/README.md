# icburn in Dafny

A model of `icburn`, the command-line tool that writes a 256 KiB firmware
image into SST flash memory sitting in a SilverLit Downloader on a PC
parallel port. The model covers all the decision logic in `icburn.cpp`:

- reading the command line (any number of `-t` "trust mode" flags, then the
  input source as the last argument);
- deciding what the input source names, from the text after its first `.`:
  one combined `.ic3` file, or a stem naming two half files
  `stem-l.bin` / `stem-h.bin`, or an unknown type;
- `LoadFile`'s rule: a file loads only if it opens, is exactly the
  expected size and the read completes;
- weaving the two 128 KiB half files into the 256 KiB image (the low
  file fills the even addresses, the high file the odd ones);
- `main`'s sequence over the WinIo port driver and the downloader:
  one driver start, at most one reinstall and restart, then Init,
  EraseChip (lower half), EraseChip (upper half) and WriteChip, with the
  driver shut down on every exit once it is up. The exit status is 0 only
  when every step succeeds.

The driver and downloader entry points are foreign code. Each call's
result is an input to the model: a field of `IcBurn.Hardware`, one per
call the program can make. `IcBurn.Run` returns the exit status and a
trace of `Event`s. The trace records every file open, log write, driver
action and downloader call, in order, so that the ordering can be stated.
`IcBurn.ViewOf` folds a trace into its parts: opened files, driver events,
downloader calls and log messages. The order across kinds is stated by
phases (`IcBurn.Rank`). File opens come first, then the driver start and
reinstall, then the downloader calls, then the log messages, and the
shutdown comes last. A trace is `InPhaseOrder` when no event comes before
an event of an earlier phase.

Files, one module each:

| file | module | models |
|---|---|---|
| `wrappers.dfy` | `Wrappers` | `Option` and `Result` |
| `image.dfy` | `Image` | the image and its even/odd planes |
| `input_source.dfy` | `InputSource` | `strchr`/`strcmpi` classification of the argument |
| `file_load.dfy` | `FileLoad` | `LoadFile` |
| `assembly.dfy` | `Assembly` | the load branch of `main`, with its two interleave loops |
| `flags.dfy` | `Flags` | the flag loop of `main` |
| `icburn.dfy` | `IcBurn` | the rest of `main` |

Points of the program's behaviour that the model keeps as the code has them:

- The first `.` anywhere in the argument decides the input type, not the
  file name's extension. A dotted directory (`C:\v1.2\generic202`)
  therefore makes the input "unknown" (`InputSource.DottedDirectoryIsUnknown`),
  and so does a second dot (`InputSource.TwoDotsAreUnknown`).
- The reinstall-and-retry applies only to `InitializeWinIo`.
  `DOWNLOADER::Init` is called once.
- The downloader interface performs no ordering checks of its own. The order
  of the calls comes from `main`'s control flow alone, and that is what the
  model proves.
- The port hint is logged when WriteChip fails while verification is on.
  The failure does not have to be a verify failure; the code cannot tell.
- The log file is not written on usage errors, load failures or a driver that
  will not start. It is written on an unknown file type and on every
  downloader outcome (Init, erase, write). After a failed verified write it
  holds the hint, because each `WriteLog` replaces the file.

## Model

| member | source | states |
|---|---|---|
| `Image.Interleave` | icburn.cpp:136-144 | the image is twice as long as the planes; address 2i holds low[i] and address 2i+1 holds high[i] |
| `Image.PlanesOfInterleave` | icburn.cpp:136-144 | interleaving is lossless: the even addresses give back the low plane and the odd addresses the high plane |
| `Image.InterleaveOfPlanes` | icburn.cpp:136-144 | every even-length image is the interleaving of its own even and odd planes |
| `Image.InterleaveInjective` | icburn.cpp:136-144 | different pairs of half files never produce the same image |
| `Image.ImageDecomposesUniquely` | icburn.cpp:121-144 | a 256 KiB image splits into two 128 KiB planes, and that pair is the only one that interleaves to it |
| `Image.AlternatingPlanes` | icburn.cpp:136-144 | a low half of 0x00 bytes and a high half of 0xFF bytes give an image alternating 0x00, 0xFF |
| `InputSource.FirstIndex` | icburn.cpp:122 | like `strchr`: nothing iff the character is absent, otherwise the position of its first occurrence |
| `InputSource.Classify` | icburn.cpp:122-152 | split mode iff the argument has no '.', naming stem-l.bin and stem-h.bin; combined mode iff the text from the first '.' equals ".ic3" ignoring case, naming the argument itself; unknown otherwise |
| `InputSource.ExtensionShape` | icburn.cpp:122-124 | if the text from the first '.' matches ".ic3", that '.' is the only one and sits four characters from the end |
| `InputSource.CombinedShape` | icburn.cpp:122-128 | a combined-mode argument has exactly one '.', four characters from its end, followed by "ic3" in any case |
| `InputSource.DottedDirectoryIsUnknown` | icburn.cpp:122-152 | a '.' in a directory part of the path makes the input unknown, whatever the file name |
| `InputSource.ExtensionIgnoresCase` | icburn.cpp:124 | a dot-free stem followed by any case variant of ".ic3" is combined mode |
| `InputSource.TwoDotsAreUnknown` | icburn.cpp:122-124 | an argument with two dots is never combined mode |
| `InputSource.SplitPathsDiffer` | icburn.cpp:131-141 | the low and high file names built from one stem are always different files |
| `FileLoad.LoadFile` | icburn.cpp:65-93 | a load succeeds iff the file opens, its size equals the requested count and the read completes; the buffer then holds the file's bytes; otherwise the reason is cannot-open, wrong-size (with both sizes) or read error, in that order of checks |
| `FileLoad.WrongSizeNeverLoads` | icburn.cpp:77-83 | a file of any other size is refused with its actual and the expected size, never partially loaded |
| `Assembly.SourceImage` | icburn.cpp:121-152 | an assembled image is always 256 KiB; combined mode yields the file's bytes iff it loads at 262,144 bytes; split mode succeeds iff both halves load at 131,072 bytes, with low bytes at even and high bytes at odd addresses; unknown type yields no image |
| `Assembly.OpenedPaths` | icburn.cpp:124-145 | unknown type opens nothing; combined mode opens its one file; split mode opens the low file first, and the high file second exactly when the low file loaded |
| `Assembly.LoadImage` | icburn.cpp:124-145 | the load branch with its two loops over a zeroed 256 KiB buffer computes exactly the reference image and opens exactly the reference paths |
| `Assembly.WovenImage` | icburn.cpp:136-144 | a buffer with low[j] at every 2j and high[j] at every 2j+1 is the interleaving of the two planes |
| `Flags.ParseFrom` | icburn.cpp:102-118 | a command is accepted iff there is at least one argument and every argument but the last is "-t"; the source is the last argument; verification stays on only if no flag was consumed |
| `Flags.Parse` | icburn.cpp:102-120 | usage iff no argument or some non-final argument is not "-t"; otherwise the last argument is the source and verification is off exactly when "-t" appears before it |
| `Flags.ParseArgs` | icburn.cpp:102-120 | the flag loop, which stops at the first bad flag and then demands exactly one remaining argument, agrees with the reference reading |
| `Flags.RepeatedTrustIsIdempotent` | icburn.cpp:111-112 | giving "-t" twice means the same as giving it once, as long as a source follows |
| `Flags.LoneTrustIsSource` | icburn.cpp:104-120 | a lone "-t" is taken as the input source, with verification on |
| `IcBurn.CombinedFileIsReady` | icburn.cpp:120-128 | a readable 262,144-byte ".ic3" file named on a dot-free stem is loaded and sent as it is, with verification on |
| `IcBurn.SplitFilesAreReady` | icburn.cpp:102-145 | with "-t" and a dot-free stem whose two half files are readable and 131,072 bytes long, the image sent is their interleaving and verification is off |
| `IcBurn.StartWinIo` | icburn.cpp:156-169 | the driver is up iff the first start works, or the reinstall and then the second start work; the second start happens only after a successful reinstall; these driver events follow everything the run did before |
| `IcBurn.EraseHalves` | icburn.cpp:184-191 | the upper half is erased only after the lower half was; success iff both erases succeed; a failure logs "Erase failed" after the erase calls and then shuts the driver down |
| `IcBurn.WriteImage` | icburn.cpp:195-213 | WriteChip receives the image and the verify flag unchanged; the outcome is logged only after the WriteChip call; the port hint is logged only after a failed write with verification on; the driver is shut down last on both outcomes |
| `IcBurn.OutcomeLogsMeaning` | icburn.cpp:172-209 | the session's log ends in "File written" exactly when every downloader call succeeds, and holds the port hint exactly when the write was reached and failed with verification on |
| `IcBurn.EraseAndWrite` | icburn.cpp:182-213 | after a successful connection: both erases, then the write, each only after the previous succeeded; the messages logged are exactly those of the first failure or "File written"; the driver is shut down last |
| `IcBurn.Program` | icburn.cpp:172-213 | the downloader calls made are a prefix of Init, EraseChip, EraseChip, WriteChip, each made only after the previous one succeeded; the log holds exactly the first failure's message ("Downloader connection failed", "Erase failed", "File write failed" plus the port hint when verifying) or "File written"; every call comes before every log message; success iff all four succeed; the driver is shut down exactly once, last |
| `IcBurn.Flash` | icburn.cpp:156-213 | the driver events are exactly one start, then a reinstall if it failed, then a second start if the reinstall worked, then one shutdown as the last event if the driver came up; no downloader call and no log message unless the driver is up, and then the log holds exactly the session's outcome messages; every driver start and reinstall comes before every downloader call; success iff every step succeeds |
| `IcBurn.Load` | icburn.cpp:121-152 | an image is produced iff the source assembles, and it is the reference image; an unknown type is logged and opens nothing; a refused file is not logged; the files opened are the reference paths; usage is not printed; the driver and the downloader are not touched |
| `IcBurn.Burn` | icburn.cpp:120-213 | after the command line: success iff the image assembles and every hardware step succeeds; no driver or downloader call without an image; with an image, the exact driver start/reinstall/restart/shutdown sequence and the exact log messages; the calls carry the assembled image; usage is never printed; every event comes in phase order |
| `IcBurn.Run` | icburn.cpp:100-214 | exit status is 0 exactly when every step succeeds and -1 otherwise; usage is printed exactly when the command line is refused, and then nothing else happens; an unknown type logs and opens nothing; any load failure stops before any driver or downloader call; the files opened are the reference paths; the calls follow the fixed order with the assembled image and the parsed verify flag; with an image, the driver events are exactly the start, the reinstall and second start when needed, and the shutdown when up; the log holds exactly the unknown-type message or the downloader session's outcome, and nothing after a refused file or a driver that will not start; the port hint appears only after a failed verified write; the log file says "File written" iff the run succeeded; the whole trace is in phase order, so files are opened before the driver starts, the driver starts before the downloader is driven, the hint follows the failed write, and the shutdown is last |

## Left out

- The bodies of `DOWNLOADER::Init`, `EraseChip` and `WriteChip`, including the SST command protocol, the read-back comparison and the progress callback: they are not part of this model (`downloader.h` declares only their signatures). Each call's boolean result is an input.
- `ReInstall`, `RemoveWinIoDriver`, `InstallWinIoDriver`, `InitializeWinIo`, `ShutdownWinIo`, `GetModuleFileNameA`, `_splitpath` and `_makepath`: Windows and driver calls. Only their boolean outcomes are modelled; the reinstall's own messages are not.
- All `printf`/`fprintf` text, `PrUsage`'s text, `ProgressProc` and `Sleep(1000)`: console output and timing. Usage is a `PrintUsage` event. `LoadFile`'s stderr messages survive only as the `LoadError` kinds.
- `WriteLog`'s file I/O: each call is a `Log` event, and `IcBurn.LogFile` gives the message the file holds afterwards.
- `fopen`/`fseek`/`ftell`/`fread`: the file system is a map from paths to files, and `FileLoad.Lookup` is the abstraction of `fopen` on it (a missing path does not open). A file is `Option<DiskFile>`, its bytes plus whether a read completes. `ftell` reports at most a 32-bit size on the target platform and fails with -1 beyond it; either way the result differs from the expected count and the load is refused, so the model compares the true length.
- The `_MAX_PATH` buffer written by `sprintf`: strings are unbounded, so an overlong stem's buffer overflow is not modelled.
- The global buffers `g_rgbImage` and `g_rgbHalf`: they become a local zeroed array and sequences. In split mode every address of the image is overwritten, so the starting zeros never reach the chip.
- `argv[0]`: the model's argument list starts after the program name.
- Strings are modelled without the C terminator. `strcmpi` folds case for ASCII letters only, as in the C locale.
- No concurrency: the program is single-threaded and so is the model.
