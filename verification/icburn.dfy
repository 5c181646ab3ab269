/**
 The program's main flow: read the command line, assemble the image, bring
 up the WinIo port driver (reinstalling it at most once), then drive the
 downloader through Init, EraseChip, EraseChip and WriteChip, shutting the
 driver down on every path once it is up.

 The driver and downloader entry points are foreign: each call's result is
 an input (a field of `Hardware`), and every call the program makes is
 recorded as an `Event`, so that the order of calls can be stated.
 */
module IcBurn {
  import opened Wrappers
  import opened Image
  import opened InputSource
  import opened FileLoad
  import opened Assembly
  import opened Flags

  /** A call into the downloader. */
  datatype Call =
    | Init
    | EraseChip
    | WriteChip(image: seq<byte>, doVerify: bool)

  /** What the log file can be made to say; each write replaces the previous text. */
  datatype Message =
    | CannotDetermineType
    | ConnectionFailed
    | EraseFailed
    | WriteFailed
    | TryTrustMode        // the port may not read back: suggests the "-t" switch
    | FileWritten

  /** One observable step of a run. */
  datatype Event =
    | PrintUsage                 // usage text, then exit(-1)
    | OpenFile(path: string)     // the loader tries to open an input file
    | Log(message: Message)      // WriteLog
    | InitWinIo                  // InitializeWinIo
    | ReInstallWinIo             // remove and reinstall the WinIo driver
    | ShutdownWinIo
    | Downloader(call: Call)

  /** The result each foreign call returns during one run. */
  datatype Hardware = Hardware(
    winIoStarts: bool,     // first InitializeWinIo
    reinstalls: bool,      // ReInstall
    winIoRestarts: bool,   // InitializeWinIo after a reinstall
    connects: bool,        // DOWNLOADER::Init
    erasesLower: bool,     // first DOWNLOADER::EraseChip
    erasesUpper: bool,     // second DOWNLOADER::EraseChip
    writes: bool)          // DOWNLOADER::WriteChip

  /** The exit status of a run that did everything it set out to do. */
  const ExitSuccess: int := 0

  /** The exit status of every failing run (`exit(-1)` and `return -1`). */
  const ExitFailure: int := -1

  // ---------------------------------------------------------------------------
  // Views of a trace

  /** What a trace shows, split by kind of event, each part in order. */
  datatype View = View(
    files: seq<string>,     // paths the loader tried to open
    driver: seq<Event>,     // InitWinIo, ReInstallWinIo and ShutdownWinIo events
    calls: seq<Call>,       // downloader calls
    logs: seq<Message>,     // log messages; the log file keeps only the last
    usage: nat)             // how many times the usage text was printed

  /** The view of a trace with no events. */
  const Nothing: View := View([], [], [], [], 0)

  /** How one more event changes a view. */
  function Step(v: View, e: Event): View
  {
    match e
    case PrintUsage => v.(usage := v.usage + 1)
    case OpenFile(path) => v.(files := v.files + [path])
    case Log(m) => v.(logs := v.logs + [m])
    case InitWinIo => v.(driver := v.driver + [e])
    case ReInstallWinIo => v.(driver := v.driver + [e])
    case ShutdownWinIo => v.(driver := v.driver + [e])
    case Downloader(c) => v.(calls := v.calls + [c])
  }

  /** The view of a whole trace: its events folded through `Step`. */
  function ViewOf(trace: seq<Event>): View
    decreases |trace|
  {
    if |trace| == 0 then Nothing
    else Step(ViewOf(trace[..|trace| - 1]), trace[|trace| - 1])
  }

  /** The downloader calls of a trace, in order. */
  function Calls(trace: seq<Event>): seq<Call>
  {
    ViewOf(trace).calls
  }

  /** The WinIo driver events of a trace, in order. */
  function DriverEvents(trace: seq<Event>): seq<Event>
  {
    ViewOf(trace).driver
  }

  /** The files a trace opens, in order. */
  function OpenedFiles(trace: seq<Event>): seq<string>
  {
    ViewOf(trace).files
  }

  /** The log messages of a trace, in order. */
  function Logs(trace: seq<Event>): seq<Message>
  {
    ViewOf(trace).logs
  }

  /** How many times a trace prints the usage text. */
  function Usages(trace: seq<Event>): nat
  {
    ViewOf(trace).usage
  }

  /** The usage count of a trace is zero exactly when the trace has no `PrintUsage` event. */
  lemma {:induction false} UsagesCountPrintUsage(trace: seq<Event>)
    ensures Usages(trace) == 0 <==> PrintUsage !in trace
    decreases |trace|
  {
    if |trace| > 0 {
      var init := trace[..|trace| - 1];
      UsagesCountPrintUsage(init);
      assert trace == init + [trace[|trace| - 1]];
    }
  }

  /** What the log file holds after the run: each WriteLog replaces the text, so the last message. */
  function LogFile(trace: seq<Event>): Option<Message>
  {
    var logs := Logs(trace);
    if |logs| == 0 then None else Some(logs[|logs| - 1])
  }

  // ---------------------------------------------------------------------------
  // The order of a run

  /**
   The phase of a run an event belongs to. A run opens its input files, then
   brings up the driver, then talks to the downloader, then logs the outcome,
   and shuts the driver down last.
   */
  function Rank(e: Event): nat
  {
    match e
    case PrintUsage => 0
    case OpenFile(_) => 0
    case InitWinIo => 1
    case ReInstallWinIo => 1
    case Downloader(_) => 2
    case Log(_) => 3
    case ShutdownWinIo => 4
  }

  /** No event of a later phase comes before an event of an earlier one. */
  predicate InPhaseOrder(trace: seq<Event>)
  {
    forall i, j :: 0 <= i < j < |trace| ==> Rank(trace[i]) <= Rank(trace[j])
  }

  /** The phase a trace has reached: that of its last event. */
  function Stage(trace: seq<Event>): nat
  {
    if |trace| == 0 then 0 else Rank(trace[|trace| - 1])
  }

  /** `InPhaseOrder`, built up one event at a time: each event is no earlier than the one before it. */
  predicate Phased(trace: seq<Event>)
    decreases |trace|
  {
    |trace| == 0 || (Phased(trace[..|trace| - 1]) && Stage(trace[..|trace| - 1]) <= Rank(trace[|trace| - 1]))
  }

  /** Checking each event against the one before it orders every pair of events. */
  lemma {:induction false} PhasedIsInPhaseOrder(trace: seq<Event>)
    ensures Phased(trace) <==> InPhaseOrder(trace)
    decreases |trace|
  {
    if |trace| > 0 {
      var init := trace[..|trace| - 1];
      PhasedIsInPhaseOrder(init);
      assert forall i :: 0 <= i < |init| ==> init[i] == trace[i];
      if Phased(trace) {
        forall i, j | 0 <= i < j < |trace|
          ensures Rank(trace[i]) <= Rank(trace[j])
        {
          if j < |trace| - 1 {
            assert Rank(init[i]) <= Rank(init[j]);
          } else if i < |trace| - 2 {
            assert Rank(init[i]) <= Rank(init[|init| - 1]);
          }
        }
      }
      if InPhaseOrder(trace) {
        assert InPhaseOrder(init);
      }
    }
  }

  /** Appends one event to a trace. */
  function Emit(t: seq<Event>, e: Event): (t': seq<Event>)
    ensures |t'| == |t| + 1 && t'[|t|] == e
    ensures ViewOf(t') == Step(ViewOf(t), e)
    ensures Phased(t) && Stage(t) <= Rank(e) ==> Phased(t') && Stage(t') == Rank(e)
  {
    assert (t + [e])[..|t|] == t;
    t + [e]
  }

  /** Appends one OpenFile event per path. */
  function EmitOpens(t: seq<Event>, paths: seq<string>): (t': seq<Event>)
    ensures ViewOf(t') == ViewOf(t).(files := ViewOf(t).files + paths)
    ensures |paths| == 0 ==> t' == t
    ensures Phased(t) && Stage(t) == 0 ==> Phased(t') && Stage(t') == 0
    decreases |paths|
  {
    if |paths| == 0 then
      assert ViewOf(t).files + paths == ViewOf(t).files;
      t
    else
      var t' := Emit(EmitOpens(t, paths[..|paths| - 1]), OpenFile(paths[|paths| - 1]));
      assert paths[..|paths| - 1] + [paths[|paths| - 1]] == paths;
      t'
  }

  // ---------------------------------------------------------------------------
  // What a run should do

  /** The downloader calls of a complete programming session, in the only order they are made. */
  function Protocol(image: seq<byte>, doVerify: bool): seq<Call>
  {
    [Init, EraseChip, EraseChip, WriteChip(image, doVerify)]
  }

  /**
   How many downloader calls are made once the driver is up: Init always,
   and each later call only if the one before it succeeded.
   */
  function CallsReached(hw: Hardware): nat
  {
    if !hw.connects then 1
    else if !hw.erasesLower then 2
    else if !hw.erasesUpper then 3
    else 4
  }

  /**
   The driver events of bringing WinIo up: one start; if it fails, one
   reinstall; and only if the reinstall worked, one more start.
   */
  function StartEvents(hw: Hardware): seq<Event>
  {
    if hw.winIoStarts then [InitWinIo]
    else if !hw.reinstalls then [InitWinIo, ReInstallWinIo]
    else [InitWinIo, ReInstallWinIo, InitWinIo]
  }

  /**
   What a session with the downloader logs: the first failure, with the
   port hint after a failed verified write, or "File written".
   */
  function OutcomeLogs(hw: Hardware, doVerify: bool): seq<Message>
  {
    if !hw.connects then [ConnectionFailed]
    else if !hw.erasesLower || !hw.erasesUpper then [EraseFailed]
    else if !hw.writes then (if doVerify then [WriteFailed, TryTrustMode] else [WriteFailed])
    else [FileWritten]
  }

  /**
   The log of a session ends in "File written" exactly when every downloader
   call succeeds, and holds the port hint exactly when the write itself was
   reached and failed with verification on.
   */
  lemma OutcomeLogsMeaning(hw: Hardware, doVerify: bool)
    ensures var logs := OutcomeLogs(hw, doVerify);
      |logs| > 0 && (logs[|logs| - 1] == FileWritten <==> hw.connects && hw.erasesLower && hw.erasesUpper && hw.writes)
    ensures TryTrustMode in OutcomeLogs(hw, doVerify) <==> CallsReached(hw) == 4 && !hw.writes && doVerify
  {
  }

  /** The command line names a source whose image can be assembled. */
  predicate ImageReady(args: seq<string>, disk: Disk)
  {
    Parse(args).Burn? && SourceImage(Classify(Parse(args).source), disk).Success?
  }

  /** The image a run with `ImageReady(args, disk)` sends to the chip. */
  function ImageOf(args: seq<string>, disk: Disk): seq<byte>
    requires ImageReady(args, disk)
  {
    SourceImage(Classify(Parse(args).source), disk).value
  }

  /** The driver comes up, on the first attempt or on the one after a reinstall. */
  predicate WinIoUp(hw: Hardware)
  {
    hw.winIoStarts || (hw.reinstalls && hw.winIoRestarts)
  }

  /** Every step of a run succeeds. */
  predicate AllSucceed(args: seq<string>, disk: Disk, hw: Hardware)
  {
    && ImageReady(args, disk)
    && WinIoUp(hw)
    && hw.connects && hw.erasesLower && hw.erasesUpper && hw.writes
  }

  /** A readable 262,144-byte ".ic3" file named on the command line is sent to the chip as it is. */
  lemma CombinedFileIsReady(stem: string, disk: Disk)
    requires '.' !in stem
    requires stem + CombinedExt in disk
    requires |disk[stem + CombinedExt].contents| == ImageSize && disk[stem + CombinedExt].readable
    ensures ImageReady([stem + CombinedExt], disk)
    ensures ImageOf([stem + CombinedExt], disk) == disk[stem + CombinedExt].contents
    ensures Parse([stem + CombinedExt]).doVerify
  {
    ExtensionIgnoresCase(stem, CombinedExt);
  }

  /** Two readable 131,072-byte halves next to a dot-free stem are woven into the image sent to the chip. */
  lemma SplitFilesAreReady(stem: string, disk: Disk)
    requires '.' !in stem
    requires stem + LowSuffix in disk && stem + HighSuffix in disk
    requires |disk[stem + LowSuffix].contents| == HalfSize && disk[stem + LowSuffix].readable
    requires |disk[stem + HighSuffix].contents| == HalfSize && disk[stem + HighSuffix].readable
    ensures ImageReady([TrustFlag, stem], disk)
    ensures ImageOf([TrustFlag, stem], disk) == Interleave(disk[stem + LowSuffix].contents, disk[stem + HighSuffix].contents)
    ensures !Parse([TrustFlag, stem]).doVerify
  {
    assert [TrustFlag, stem][..1] == [TrustFlag];
  }

  // ---------------------------------------------------------------------------
  // The run

  /**
   Brings up the WinIo driver: one attempt, and if it fails one reinstall and,
   only if the reinstall worked, one more attempt.
   */
  method StartWinIo(hw: Hardware, trace: seq<Event>) returns (up: bool, trace': seq<Event>)
    ensures up <==> WinIoUp(hw)
    ensures var v, v' := ViewOf(trace), ViewOf(trace');
      && v'.files == v.files && v'.calls == v.calls && v'.logs == v.logs && v'.usage == v.usage
      && v'.driver == v.driver + StartEvents(hw)
    ensures Phased(trace) && Stage(trace) <= 1 ==> Phased(trace') && Stage(trace') == 1
  {
    trace' := Emit(trace, InitWinIo);
    if hw.winIoStarts {
      return true, trace';
    }
    trace' := Emit(trace', ReInstallWinIo);
    if !hw.reinstalls {
      return false, trace';
    }
    trace' := Emit(trace', InitWinIo);
    return hw.winIoRestarts, trace';
  }

  /**
   The write step: one WriteChip call with the image and the verify flag as
   given; a failed verified write adds the hint that the port may not read back.
   */
  method WriteImage(image: seq<byte>, doVerify: bool, hw: Hardware, trace: seq<Event>) returns (ok: bool, trace': seq<Event>)
    ensures ok <==> hw.writes
    ensures |trace'| > 0 && trace'[|trace'| - 1] == ShutdownWinIo
    ensures var v, v' := ViewOf(trace), ViewOf(trace');
      && v'.files == v.files && v'.usage == v.usage
      && v'.driver == v.driver + [ShutdownWinIo]
      && v'.calls == v.calls + [WriteChip(image, doVerify)]
      && v'.logs == v.logs + if hw.writes then [FileWritten] else if doVerify then [WriteFailed, TryTrustMode] else [WriteFailed]
    // WriteChip comes before the outcome is logged, and the shutdown after both
    ensures Phased(trace) && Stage(trace) <= 2 ==> Phased(trace')
  {
    trace' := Emit(trace, Downloader(WriteChip(image, doVerify)));
    if !hw.writes {
      trace' := Emit(trace', Log(WriteFailed));
      if doVerify {
        trace' := Emit(trace', Log(TryTrustMode));
      }
      return false, Emit(trace', ShutdownWinIo);
    }
    trace' := Emit(trace', Log(FileWritten));
    return true, Emit(trace', ShutdownWinIo);
  }

  /**
   The erase step: the lower half, then the upper half only if the lower one
   was erased (the `||` of the two calls); a failure is logged and ends the
   session with a driver shutdown.
   */
  method EraseHalves(hw: Hardware, trace: seq<Event>) returns (erased: bool, trace': seq<Event>)
    ensures erased <==> hw.erasesLower && hw.erasesUpper
    ensures !erased ==> |trace'| > 0 && trace'[|trace'| - 1] == ShutdownWinIo
    ensures var v, v' := ViewOf(trace), ViewOf(trace');
      && v'.files == v.files && v'.usage == v.usage
      && v'.calls == v.calls + (if hw.erasesLower then [EraseChip, EraseChip] else [EraseChip])
      && v'.driver == v.driver + (if erased then [] else [ShutdownWinIo])
      && v'.logs == v.logs + (if erased then [] else [EraseFailed])
    ensures Phased(trace) && Stage(trace) <= 2 ==> Phased(trace') && Stage(trace') == (if erased then 2 else 4)
  {
    trace' := Emit(trace, Downloader(EraseChip));
    if hw.erasesLower {
      trace' := Emit(trace', Downloader(EraseChip));
      if hw.erasesUpper {
        return true, trace';
      }
    }
    trace' := Emit(trace', Log(EraseFailed));
    return false, Emit(trace', ShutdownWinIo);
  }

  /**
   Everything after a successful connection: erase both halves, then write
   the image; a failure of either step is logged and the driver shut down.
   */
  method EraseAndWrite(image: seq<byte>, doVerify: bool, hw: Hardware, trace: seq<Event>) returns (ok: bool, trace': seq<Event>)
    requires hw.connects
    ensures ok <==> hw.erasesLower && hw.erasesUpper && hw.writes
    ensures |trace'| > 0 && trace'[|trace'| - 1] == ShutdownWinIo
    ensures var v, v' := ViewOf(trace), ViewOf(trace');
      && v'.files == v.files && v'.usage == v.usage
      && v'.driver == v.driver + [ShutdownWinIo]
      && v'.calls == v.calls + Protocol(image, doVerify)[1..CallsReached(hw)]
      && v'.logs == v.logs + OutcomeLogs(hw, doVerify)
    ensures Phased(trace) && Stage(trace) <= 2 ==> Phased(trace')
  {
    var erased;
    erased, trace' := EraseHalves(hw, trace);
    if !erased {
      return false, trace';
    }
    ok, trace' := WriteImage(image, doVerify, hw, trace');
  }

  /**
   Drives the downloader once the driver is up: connect, erase the lower and
   the upper half, write the image; the driver is shut down on every outcome.
   Every downloader call comes before every log message, and the shutdown is last.
   */
  method Program(image: seq<byte>, doVerify: bool, hw: Hardware, trace: seq<Event>) returns (ok: bool, trace': seq<Event>)
    requires Calls(trace) == [] && Logs(trace) == []
    requires Phased(trace) && Stage(trace) <= 1
    ensures ok <==> hw.connects && hw.erasesLower && hw.erasesUpper && hw.writes
    ensures |trace'| > 0 && trace'[|trace'| - 1] == ShutdownWinIo
    ensures OpenedFiles(trace') == OpenedFiles(trace)
    ensures DriverEvents(trace') == DriverEvents(trace) + [ShutdownWinIo]
    ensures Calls(trace') == Protocol(image, doVerify)[..CallsReached(hw)]
    ensures Logs(trace') == OutcomeLogs(hw, doVerify)
    ensures TryTrustMode in Logs(trace') <==> CallsReached(hw) == 4 && !hw.writes && doVerify
    ensures ok <==> LogFile(trace') == Some(FileWritten)
    ensures Usages(trace') == Usages(trace)
    ensures Phased(trace')
  {
    OutcomeLogsMeaning(hw, doVerify);
    trace' := Emit(trace, Downloader(Init));
    if !hw.connects {
      trace' := Emit(trace', Log(ConnectionFailed));
      assert Logs(trace') == [ConnectionFailed];
      return false, Emit(trace', ShutdownWinIo);
    }
    assert Calls(trace') == Protocol(image, doVerify)[..1];
    ok, trace' := EraseAndWrite(image, doVerify, hw, trace');
  }

  /**
   Everything after the image is in memory: bring the driver up, then (only
   if it is up) program the chip; the driver is shut down exactly once, as
   the last step, whenever it came up.
   */
  method Flash(image: seq<byte>, doVerify: bool, hw: Hardware, trace: seq<Event>) returns (ok: bool, trace': seq<Event>)
    requires Calls(trace) == [] && DriverEvents(trace) == [] && Logs(trace) == []
    requires Phased(trace) && Stage(trace) == 0
    ensures ok <==> WinIoUp(hw) && hw.connects && hw.erasesLower && hw.erasesUpper && hw.writes
    ensures OpenedFiles(trace') == OpenedFiles(trace)
    // WinIo: a failed start is followed by a reinstall, and a successful reinstall
    // by a second start; once up, the driver is shut down exactly once, last
    ensures DriverEvents(trace') == StartEvents(hw) + (if WinIoUp(hw) then [ShutdownWinIo] else [])
    ensures |DriverEvents(trace')| >= 3 ==> !hw.winIoStarts && hw.reinstalls
    ensures WinIoUp(hw) ==> trace'[|trace'| - 1] == ShutdownWinIo
    // the downloader is driven strictly in order, each call only after the previous succeeded
    ensures Calls(trace') == Protocol(image, doVerify)[..if WinIoUp(hw) then CallsReached(hw) else 0]
    // the hint about a one-way port follows only a failed verified write
    ensures Logs(trace') == if WinIoUp(hw) then OutcomeLogs(hw, doVerify) else []
    ensures TryTrustMode in Logs(trace') <==> WinIoUp(hw) && CallsReached(hw) == 4 && !hw.writes && doVerify
    ensures ok <==> LogFile(trace') == Some(FileWritten)
    ensures Usages(trace') == Usages(trace)
    // the driver is started before the downloader is driven, and both follow the loading
    ensures Phased(trace')
  {
    var up;
    up, trace' := StartWinIo(hw, trace);
    assert DriverEvents(trace') == StartEvents(hw);
    if !up {
      assert DriverEvents(trace') == StartEvents(hw) + [];
      return false, trace';
    }
    ok, trace' := Program(image, doVerify, hw, trace');
  }

  /**
   The load phase of a run: classify the source, assemble the image, and
   record the files opened; an unknown type is logged, a refused file is not.
   */
  method Load(source: string, disk: Disk) returns (image: Option<seq<byte>>, trace: seq<Event>)
    ensures image.Some? <==> SourceImage(Classify(source), disk).Success?
    ensures image.Some? ==> image.value == SourceImage(Classify(source), disk).value
    ensures Classify(source).Unknown? ==> trace == [Log(CannotDetermineType)]
    ensures OpenedFiles(trace) == OpenedPaths(Classify(source), disk)
    ensures DriverEvents(trace) == [] && Calls(trace) == []
    ensures Logs(trace) == if Classify(source).Unknown? then [CannotDetermineType] else []
    ensures Usages(trace) == 0 && PrintUsage !in trace
    ensures Phased(trace) && (image.Some? ==> Stage(trace) == 0)
  {
    var src := Classify(source);
    var loaded, paths := LoadImage(src, disk);
    if src.Unknown? {
      trace := Emit([], Log(CannotDetermineType));
      UsagesCountPrintUsage(trace);
      return None, trace;
    }
    assert loaded != Failure(UnknownFileType);
    trace := EmitOpens([], paths);
    assert ViewOf(trace) == Nothing.(files := paths);
    UsagesCountPrintUsage(trace);
    image := if loaded.Success? then Some(loaded.value) else None;
  }

  /**
   Everything after the command line is read: load the named source, and
   program the chip only if the image could be assembled.
   */
  method Burn(source: string, doVerify: bool, disk: Disk, hw: Hardware) returns (status: int, trace: seq<Event>)
    ensures status == ExitSuccess || status == ExitFailure
    ensures var r := SourceImage(Classify(source), disk);
      status == ExitSuccess <==> r.Success? && WinIoUp(hw) && hw.connects && hw.erasesLower && hw.erasesUpper && hw.writes
    ensures Classify(source).Unknown? ==> trace == [Log(CannotDetermineType)]
    ensures OpenedFiles(trace) == OpenedPaths(Classify(source), disk)
    ensures SourceImage(Classify(source), disk).Failure? ==> DriverEvents(trace) == [] && Calls(trace) == []
    ensures SourceImage(Classify(source), disk).Success? ==>
      DriverEvents(trace) == StartEvents(hw) + (if WinIoUp(hw) then [ShutdownWinIo] else [])
    ensures |DriverEvents(trace)| >= 3 ==> !hw.winIoStarts && hw.reinstalls
    ensures SourceImage(Classify(source), disk).Success? && WinIoUp(hw) ==> trace[|trace| - 1] == ShutdownWinIo
    ensures var r := SourceImage(Classify(source), disk);
      r.Success? ==> Calls(trace) == Protocol(r.value, doVerify)[..if WinIoUp(hw) then CallsReached(hw) else 0]
    ensures TryTrustMode in Logs(trace) <==>
      SourceImage(Classify(source), disk).Success? && WinIoUp(hw) && CallsReached(hw) == 4 && !hw.writes && doVerify
    ensures Logs(trace) ==
      if Classify(source).Unknown? then [CannotDetermineType]
      else if SourceImage(Classify(source), disk).Success? && WinIoUp(hw) then OutcomeLogs(hw, doVerify)
      else []
    ensures status == ExitSuccess <==> LogFile(trace) == Some(FileWritten)
    ensures PrintUsage !in trace
    ensures Phased(trace)
  {
    var image;
    image, trace := Load(source, disk);
    if image.None? {
      assert SourceImage(Classify(source), disk).Failure?;
      assert Logs(trace) == if Classify(source).Unknown? then [CannotDetermineType] else [];
      return ExitFailure, trace;
    }
    assert SourceImage(Classify(source), disk) == Success(image.value) && !Classify(source).Unknown?;
    var ok;
    ok, trace := Flash(image.value, doVerify, hw, trace);
    UsagesCountPrintUsage(trace);
    status := if ok then ExitSuccess else ExitFailure;
  }

  /** One run of the program: its exit status and everything it did, in order. */
  method Run(args: seq<string>, disk: Disk, hw: Hardware) returns (status: int, trace: seq<Event>)
    ensures status == ExitSuccess || status == ExitFailure
    ensures status == ExitSuccess <==> AllSucceed(args, disk, hw)
    // usage errors and unreadable inputs stop before the driver is touched
    ensures Parse(args).Usage? ==> trace == [PrintUsage]
    ensures Parse(args).Burn? && Classify(Parse(args).source).Unknown? ==> trace == [Log(CannotDetermineType)]
    ensures Parse(args).Burn? ==> OpenedFiles(trace) == OpenedPaths(Classify(Parse(args).source), disk)
    ensures !ImageReady(args, disk) ==> DriverEvents(trace) == [] && Calls(trace) == []
    // WinIo: at most two starts, the second only after a successful reinstall;
    // once up, the driver is shut down exactly once, as the very last step
    ensures ImageReady(args, disk) ==>
      DriverEvents(trace) == StartEvents(hw) + (if WinIoUp(hw) then [ShutdownWinIo] else [])
    ensures |DriverEvents(trace)| >= 3 ==> !hw.winIoStarts && hw.reinstalls
    ensures ImageReady(args, disk) && WinIoUp(hw) ==> trace[|trace| - 1] == ShutdownWinIo
    // the downloader is driven strictly in order, each call only after the previous succeeded,
    // and WriteChip receives the assembled image and the verify flag unchanged
    ensures ImageReady(args, disk) ==>
      Calls(trace) == Protocol(ImageOf(args, disk), Parse(args).doVerify)[..if WinIoUp(hw) then CallsReached(hw) else 0]
    // the hint about a one-way port follows only a failed verified write
    ensures TryTrustMode in Logs(trace) <==>
      ImageReady(args, disk) && WinIoUp(hw) && CallsReached(hw) == 4 && !hw.writes && Parse(args).doVerify
    // the log records the unknown type or the first downloader failure; a refused
    // command line, a refused file and a driver that will not start are not logged
    ensures Logs(trace) ==
      if ImageReady(args, disk) && WinIoUp(hw) then OutcomeLogs(hw, Parse(args).doVerify)
      else if Parse(args).Burn? && Classify(Parse(args).source).Unknown? then [CannotDetermineType]
      else []
    ensures status == ExitSuccess <==> LogFile(trace) == Some(FileWritten)
    // usage is printed exactly when the command line is refused
    ensures PrintUsage in trace <==> Parse(args).Usage?
    // files are opened first, then the driver started, then the downloader
    // driven, then the outcome logged, and the driver shut down last
    ensures InPhaseOrder(trace)
  {
    var command := ParseArgs(args);
    if command.Usage? {
      status, trace := ExitFailure, Emit([], PrintUsage);
    } else {
      status, trace := Burn(command.source, command.doVerify, disk, hw);
    }
    PhasedIsInPhaseOrder(trace);
  }
}
