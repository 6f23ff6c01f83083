/** The application component: the form state, the setters the form calls,
    input validation, the run, loading the defaults and the version, and
    downloading the outputs. */
module Controller {
  import opened Wrappers
  import opened Strings
  import opened Numbers
  import opened Inputs
  import opened Commands
  import opened Defaults
  import opened Workspace

  const LoadedMessage := "ViralConsensus Online Tool loaded."
  const ValidatingMessage := "Validating input..."
  const InvalidMessage := "Invalid input. Please check your input and try again."
  const RunningMessage := "Running ViralConsensus..."
  const WritingRefMessage := "Writing reference file..."
  const WritingReadsMessage := "Writing alignment file..."
  const WarningPrefix := "WARNING: "
  const ErrorPrefix := "Error: "
  const UnrecognisedMessage := WarningPrefix + "Alignment file extension not recognized. Assuming bam/sam/cram format."
  const NoConsensusMessage := ErrorPrefix + "No consensus genome generated. Please check your input files."
  const DoneMessage := "Done!"
  const DownloadedPrefix := "Downloaded "

  /** How a press of Submit ends: rejected by validation, postponed because
      the runtime is not loaded yet (the source retries two seconds later),
      or run, with or without a consensus. */
  datatype Outcome = Invalid | Deferred | Failed | Succeeded

  /** What mounting the reads logs: the progress message, and the warning
      for a reads file whose name is not recognised. */
  function ReadsLog(job: Job): seq<string>
    requires job.alignment != NoFile
  {
    [WritingReadsMessage] + (if Classify(job.alignment) == Unrecognised then [UnrecognisedMessage] else [])
  }

  function ExecutingMessage(command: string): string
  {
    "Executing command: " + command
  }

  /** The verdict a run logs last. */
  function Verdict(done: bool): string
  {
    if done then DoneMessage else NoConsensusMessage
  }

  /** The log of a run that reached the runtime. */
  function RunLog(job: Job, done: bool): seq<string>
    requires job.alignment != NoFile
  {
    [ValidatingMessage] + [RunningMessage] + [WritingRefMessage] + ReadsLog(job) +
    [ExecutingMessage(CommandFor(job))] + [Verdict(done)]
  }

  /** The run's log warns about the reads file exactly when its name has
      neither an aligned nor a FASTQ suffix, and always ends with the verdict. */
  lemma RunLogWarning(job: Job, done: bool)
    requires job.alignment != NoFile
    ensures UnrecognisedMessage in RunLog(job, done) <==>
            job.alignment.Uploaded? && !IsAlignedName(job.alignment.file.name) && !IsFastqName(job.alignment.file.name)
    ensures RunLog(job, done)[|RunLog(job, done)| - 1] == Verdict(done)
  {
    var exec := ExecutingMessage(CommandFor(job));
    NotWarning(ValidatingMessage);
    NotWarning(RunningMessage);
    NotWarning(WritingRefMessage);
    NotWarning(WritingReadsMessage);
    NotWarning(exec);
    if done { NotWarning(DoneMessage); } else { NotWarning(NoConsensusMessage); }
    assert UnrecognisedMessage !in [ValidatingMessage, RunningMessage];
    assert UnrecognisedMessage !in [WritingRefMessage];
    assert UnrecognisedMessage !in [WritingReadsMessage];
    assert UnrecognisedMessage !in [exec, Verdict(done)];
    ClassifyAgreesWithFastqTest(job.alignment);
  }

  /** Every other message differs from the warning in its second character. */
  lemma NotWarning(message: string)
    requires |message| >= 2 && message[1] != 'A'
    ensures message != UnrecognisedMessage
  {
    assert UnrecognisedMessage[1] == WarningPrefix[1] == 'A';
  }

  /** Appending the two output toggles one after the other appends `OutputFlags`. */
  lemma AppendOutputs(prefix: string, job: Job)
    ensures var withPos := if job.genPosCounts then prefix + (" -op " + PositionCountsFile) else prefix;
            (if job.genInsCounts then withPos + (" -oi " + InsertionCountsFile) else withPos) ==
            prefix + OutputFlags(job)
  {
    var pos := if job.genPosCounts then " -op " + PositionCountsFile else "";
    var ins := if job.genInsCounts then " -oi " + InsertionCountsFile else "";
    assert OutputFlags(job) == pos + ins;
    assert prefix + pos + ins == prefix + (pos + ins);
  }

  /** The console lines the downloads of `names` log, one per file, in order. */
  function DownloadedLines(names: seq<string>): (lines: seq<string>)
    ensures |lines| == |names|
    ensures forall i :: 0 <= i < |names| ==> lines[i] == DownloadedPrefix + names[i]
  {
    if names == [] then [] else [DownloadedPrefix + names[0]] + DownloadedLines(names[1..])
  }

  /** Solver aid: three optional appends, each guarded by `ready`, are one
      guarded append of the three. */
  lemma GuardedAppends<T>(prefix: seq<T>, ready: bool, x: T, hasX: bool, y: T, hasY: bool, z: T, hasZ: bool)
    ensures prefix + (if ready && hasX then [x] else []) + (if ready && hasY then [y] else []) +
            (if ready && hasZ then [z] else []) ==
            prefix + if ready then (if hasX then [x] else []) + (if hasY then [y] else []) + (if hasZ then [z] else []) else []
  {
  }

  /** The lines logged for the present outputs, one output at a time. */
  lemma DownloadedOutputs(ws: Files)
    ensures DownloadedLines(PresentOutputs(ws)) ==
            (if ConsensusFile in ws then [DownloadedPrefix + ConsensusFile] else []) +
            (if PositionCountsFile in ws then [DownloadedPrefix + PositionCountsFile] else []) +
            (if InsertionCountsFile in ws then [DownloadedPrefix + InsertionCountsFile] else [])
  {
  }

  class App {
    var version: string

    var refFile: FileRef
    var alignmentFile: FileRef
    var primerFile: Option<Upload>
    var exampleRefSize: nat
    var exampleAlignmentSize: nat
    var refFileValid: bool
    var alignmentFileValid: bool
    var primerFileValid: bool

    var params: Params
    var defaults: Params
    var primerOffsetValid: bool
    var minBaseQualityValid: bool
    var minDepthValid: bool
    var minFreqValid: bool
    var ambigSymbolValid: bool

    var genPosCounts: bool
    var genInsCounts: bool

    /** The runtime is loaded, and the files it holds. */
    var cliReady: bool
    var workspace: Files
    /** Every command handed to the runtime, in order, and every file downloaded. */
    var execLog: seq<string>
    var downloads: seq<string>

    var done: bool
    var loading: bool
    var inputChanged: bool

    /** The console text, one message per line. */
    var log: seq<string>

    /** The names the example reference and reads are staged under. */
    const defaultRefName: string
    const defaultAlignmentName: string

    constructor (defaultRefName: string, defaultAlignmentName: string)
      ensures this.defaultRefName == defaultRefName && this.defaultAlignmentName == defaultAlignmentName
      ensures version == ""
      ensures refFile == NoFile && alignmentFile == NoFile && primerFile == None
      ensures exampleRefSize == 0 && exampleAlignmentSize == 0
      ensures refFileValid && alignmentFileValid && primerFileValid
      ensures params == InitialParams() && defaults == InitialParams()
      ensures FlagsHold()
      ensures !genPosCounts && !genInsCounts
      ensures !cliReady && workspace == map[] && execLog == [] && downloads == []
      ensures !done && !loading && !inputChanged
      ensures log == []
      ensures FlagsAgree()
    {
      this.defaultRefName := defaultRefName;
      this.defaultAlignmentName := defaultAlignmentName;
      version := "";
      refFile, alignmentFile, primerFile := NoFile, NoFile, None;
      exampleRefSize, exampleAlignmentSize := 0, 0;
      refFileValid, alignmentFileValid, primerFileValid := true, true, true;
      params, defaults := InitialParams(), InitialParams();
      primerOffsetValid, minBaseQualityValid, minDepthValid := true, true, true;
      minFreqValid, ambigSymbolValid := true, true;
      genPosCounts, genInsCounts := false, false;
      cliReady, workspace, execLog, downloads := false, map[], [], [];
      done, loading, inputChanged := false, false, false;
      log := [];
      InitialParamsValid();
    }

    /** Everything a run reads from the form. */
    function CurrentJob(): Job
      reads this`refFile, this`alignmentFile, this`primerFile, this`params, this`genPosCounts,
            this`genInsCounts, this`exampleRefSize, this`exampleAlignmentSize
    {
      Job(refFile, alignmentFile, primerFile, params, genPosCounts, genInsCounts,
          defaultRefName, defaultAlignmentName, exampleRefSize, exampleAlignmentSize)
    }

    /** The five parameter flags. */
    predicate FlagsHold()
      reads this`primerOffsetValid, this`minBaseQualityValid, this`minDepthValid, this`minFreqValid,
            this`ambigSymbolValid
    {
      primerOffsetValid && minBaseQualityValid && minDepthValid && minFreqValid && ambigSymbolValid
    }

    /** Each parameter flag records whether its field's value is valid. Every
        setter keeps this; loading the defaults may break it, because it
        stores values without validating them. */
    predicate FlagsAgree()
      reads this`params, this`primerOffsetValid, this`minBaseQualityValid, this`minDepthValid,
            this`minFreqValid, this`ambigSymbolValid
    {
      && primerOffsetValid == FieldValid(PrimerOffset, params.primerOffset)
      && minBaseQualityValid == FieldValid(MinBaseQuality, params.minBaseQuality)
      && minDepthValid == FieldValid(MinDepth, params.minDepth)
      && minFreqValid == FieldValid(MinFreq, params.minFreq)
      && ambigSymbolValid == FieldValid(AmbigSymbol, params.ambigSymbol)
    }

    /** What `validInput` accepts: both files chosen (or the example) and all
        five parameter flags set. */
    predicate InputReady()
      reads this`refFile, this`alignmentFile, this`primerOffsetValid, this`minBaseQualityValid,
            this`minDepthValid, this`minFreqValid, this`ambigSymbolValid
    {
      refFile != NoFile && alignmentFile != NoFile && FlagsHold()
    }

    /** While the flags agree with the values, the flags hold exactly when
        every field is valid, so `validInput` accepts exactly "both files
        chosen and every field valid". */
    lemma FlagsMeanValidity()
      requires FlagsAgree()
      ensures FlagsHold() <==> forall f :: FieldValid(f, params.Get(f))
      ensures InputReady() <==> refFile != NoFile && alignmentFile != NoFile &&
                                forall f :: FieldValid(f, params.Get(f))
    {
      if !FlagsHold() {
        if !minBaseQualityValid { assert !FieldValid(MinBaseQuality, params.Get(MinBaseQuality)); }
        else if !minDepthValid { assert !FieldValid(MinDepth, params.Get(MinDepth)); }
        else if !minFreqValid { assert !FieldValid(MinFreq, params.Get(MinFreq)); }
        else if !ambigSymbolValid { assert !FieldValid(AmbigSymbol, params.Get(AmbigSymbol)); }
      }
    }

    /** The warning that the outputs on offer are from an earlier form state. */
    predicate StaleWarning()
      reads this`done, this`inputChanged
    {
      done && inputChanged
    }

    /** The runtime has loaded: the console is cleared and greets the user. */
    method RuntimeLoaded()
      modifies this`cliReady, this`log
      ensures cliReady && log == [LoadedMessage]
    {
      cliReady := true;
      log := [LoadedMessage];
    }

    /** The example files have been fetched; their sizes are what staging mounts. */
    method ExampleFilesFetched(refSize: nat, alignmentSize: nat)
      modifies this`exampleRefSize, this`exampleAlignmentSize
      ensures exampleRefSize == refSize && exampleAlignmentSize == alignmentSize
    {
      exampleRefSize, exampleAlignmentSize := refSize, alignmentSize;
    }

    method UploadAlignmentFile(chosen: Option<Upload>)
      modifies this`alignmentFile, this`inputChanged
      ensures alignmentFile == FromInput(chosen) && inputChanged
      ensures StaleWarning() == done
    {
      alignmentFile, inputChanged := FromInput(chosen), true;
    }

    method UploadRefFile(chosen: Option<Upload>)
      modifies this`refFile, this`inputChanged
      ensures refFile == FromInput(chosen) && inputChanged
      ensures StaleWarning() == done
    {
      refFile, inputChanged := FromInput(chosen), true;
    }

    method UploadPrimerFile(chosen: Option<Upload>)
      modifies this`primerFile, this`inputChanged
      ensures primerFile == chosen && inputChanged
      ensures StaleWarning() == done
    {
      primerFile, inputChanged := chosen, true;
    }

    method SetPrimerOffset(value: Decimal)
      modifies this`params, this`primerOffsetValid, this`inputChanged
      ensures params == old(params).With(PrimerOffset, Number(value))
      ensures primerOffsetValid && inputChanged
      ensures old(FlagsAgree()) ==> FlagsAgree()
    {
      params := params.With(PrimerOffset, Number(value));
      primerOffsetValid, inputChanged := true, true;
    }

    method SetMinBaseQuality(value: Decimal)
      modifies this`params, this`minBaseQualityValid, this`inputChanged
      ensures params == old(params).With(MinBaseQuality, Number(value))
      ensures minBaseQualityValid <==> value.mantissa >= 0
      ensures inputChanged
      ensures old(FlagsAgree()) ==> FlagsAgree()
    {
      var valid := true;
      if !NonNegative(value) {
        valid := false;
      }
      params := params.With(MinBaseQuality, Number(value));
      minBaseQualityValid, inputChanged := valid, true;
    }

    method SetMinDepth(value: Decimal)
      modifies this`params, this`minDepthValid, this`inputChanged
      ensures params == old(params).With(MinDepth, Number(value))
      ensures minDepthValid <==> value.mantissa >= 0
      ensures inputChanged
      ensures old(FlagsAgree()) ==> FlagsAgree()
    {
      var valid := true;
      if !NonNegative(value) {
        valid := false;
      }
      params := params.With(MinDepth, Number(value));
      minDepthValid, inputChanged := valid, true;
    }

    method SetMinFreq(value: Decimal)
      modifies this`params, this`minFreqValid, this`inputChanged
      ensures params == old(params).With(MinFreq, Number(value))
      ensures minFreqValid <==> 0 <= value.mantissa <= Pow10(value.scale)
      ensures inputChanged
      ensures old(FlagsAgree()) ==> FlagsAgree()
    {
      var valid := true;
      ValueSign(value);
      ValueAtMostOne(value);
      if RealValue(value) < 0.0 || RealValue(value) > 1.0 {
        valid := false;
      }
      params := params.With(MinFreq, Number(value));
      minFreqValid, inputChanged := valid, true;
    }

    method SetAmbigSymbol(value: string)
      modifies this`params, this`ambigSymbolValid, this`inputChanged
      ensures params == old(params).With(AmbigSymbol, Text(value))
      ensures ambigSymbolValid <==> Utf16Length(value) == 1
      ensures inputChanged
      ensures old(FlagsAgree()) ==> FlagsAgree()
    {
      var valid := true;
      if Utf16Length(value) != 1 {
        valid := false;
      }
      params := params.With(AmbigSymbol, Text(value));
      ambigSymbolValid, inputChanged := valid, true;
    }

    method SetGenPosCounts(checked: bool)
      modifies this`genPosCounts, this`inputChanged
      ensures genPosCounts == checked && inputChanged
    {
      genPosCounts, inputChanged := checked, true;
    }

    method SetGenInsCounts(checked: bool)
      modifies this`genInsCounts, this`inputChanged
      ensures genInsCounts == checked && inputChanged
    {
      genInsCounts, inputChanged := checked, true;
    }

    /** "Load Example Data Files": each slot flips between the example
        sentinel and what its file input currently holds. Since every slot
        changes, the form always counts as changed. */
    method ToggleLoadExampleData(refInput: Option<Upload>, alignmentInput: Option<Upload>)
      modifies this`refFile, this`alignmentFile, this`refFileValid, this`alignmentFileValid, this`inputChanged
      ensures refFile == Toggled(old(refFile), refInput)
      ensures alignmentFile == Toggled(old(alignmentFile), alignmentInput)
      ensures refFileValid && alignmentFileValid
      ensures inputChanged
      ensures refFile == ExampleData <==> old(refFile) != ExampleData
    {
      var previousRef, previousAlignment := refFile, alignmentFile;
      refFile := Toggled(refFile, refInput);
      alignmentFile := Toggled(alignmentFile, alignmentInput);
      refFileValid, alignmentFileValid := true, true;
      inputChanged := previousRef != refFile || previousAlignment != alignmentFile;
    }

    /** `validInput`: clears the console, records whether each file is
        chosen, and accepts when both are and every parameter flag is set.
        While the flags agree with the values, acceptance is exactly "both
        files chosen and every field valid". */
    method ValidInput() returns (valid: bool)
      modifies this`refFileValid, this`alignmentFileValid, this`log
      ensures valid == InputReady()
      ensures refFileValid == (refFile != NoFile) && alignmentFileValid == (alignmentFile != NoFile)
      ensures log == [ValidatingMessage]
    {
      var refValid, alignmentValid := true, true;
      log := [ValidatingMessage];
      if refFile == NoFile {
        refValid := false;
      }
      if alignmentFile == NoFile {
        alignmentValid := false;
      }
      valid := refValid && alignmentValid && primerOffsetValid && minBaseQualityValid &&
               minDepthValid && minFreqValid && ambigSymbolValid;
      refFileValid, alignmentFileValid := refValid, alignmentValid;
    }

    /** Removes the outputs of an earlier run, skipping those not present. */
    method ClearStaleOutputs()
      modifies this`workspace
      ensures workspace == ClearOutputs(old(workspace))
    {
      if ConsensusFile in workspace {
        workspace := workspace - {ConsensusFile};
      }
      if PositionCountsFile in workspace {
        workspace := workspace - {PositionCountsFile};
      }
      if InsertionCountsFile in workspace {
        workspace := workspace - {InsertionCountsFile};
      }
    }

    /** Mounts the reference: the example payload under the default name, or
        the chosen file under its own name. */
    method MountReference(ghost job: Job)
      requires job == CurrentJob() && refFile != NoFile
      modifies this`workspace, this`log
      ensures workspace == old(workspace)[RefArg(job) := RefPayload(job)]
      ensures log == old(log) + [WritingRefMessage]
    {
      log := log + [WritingRefMessage];
      if refFile == ExampleData {
        workspace := workspace[defaultRefName := exampleRefSize];
      } else {
        workspace := workspace[refFile.file.name := refFile.file.size];
      }
    }

    /** Mounts the reads by the branch their name selects; FASTQ reads also
        put the minimap2 pipe in front of `command` and hand that command to
        the runtime once. */
    method MountReads(ghost job: Job, command: string, exec: (string, Files) -> Files) returns (piped: string)
      requires job == CurrentJob() && alignmentFile != NoFile
      requires command == BaseCommand(job)
      modifies this`workspace, this`log, this`execLog
      ensures piped == PipedBase(job)
      ensures workspace == AlignedReads(job, old(workspace)[ReadsArg(job) := ReadsPayload(job)], exec)
      ensures execLog == old(execLog) + AlignmentCommands(job)
      ensures log == old(log) + ReadsLog(job)
    {
      ClassifyAgreesWithFastqTest(alignmentFile);
      var uploadedFastq := alignmentFile != ExampleData && IsFastqName(alignmentFile.file.name);
      piped := command;
      log := log + [WritingReadsMessage];
      if alignmentFile == ExampleData {
        workspace := workspace[defaultAlignmentName := exampleAlignmentSize];
      } else if IsAlignedName(alignmentFile.file.name) {
        workspace := workspace[alignmentFile.file.name := alignmentFile.file.size];
      } else if uploadedFastq {
        workspace := workspace[alignmentFile.file.name := alignmentFile.file.size];
        piped := "minimap2 -t 1 -a -x sr " + FileArg(refFile, defaultRefName) + " " +
                 FileArg(alignmentFile, defaultAlignmentName) + " | " + piped;
        execLog := execLog + [piped];
        workspace := exec(piped, workspace);
      } else {
        log := log + [UnrecognisedMessage];
        workspace := workspace[alignmentFile.file.name := alignmentFile.file.size];
      }
    }

    /** Appends the primer, threshold and output flags to `command`, in that
        order, and writes the primer file into the workspace. */
    method AppendFlags(ghost job: Job, command: string) returns (full: string)
      requires job == CurrentJob() && command == PipedBase(job)
      modifies this`workspace
      ensures full == CommandFor(job)
      ensures workspace == WritePrimer(old(workspace), primerFile)
    {
      full := command;
      if primerFile.Some? {
        workspace := workspace[primerFile.value.name := primerFile.value.size];
        full := full + (" -p " + primerFile.value.name + " -po " + ValueText(params.primerOffset));
      }
      var flagged := full + (" -q " + ValueText(params.minBaseQuality) + " -d " + ValueText(params.minDepth) +
                                    " -f " + ValueText(params.minFreq) + " -a " + ValueText(params.ambigSymbol));
      full := flagged;
      assert flagged == PipedBase(job) + PrimerFlags(job) + ThresholdFlags(job);
      if genPosCounts {
        full := full + (" -op " + PositionCountsFile);
      }
      if genInsCounts {
        full := full + (" -oi " + InsertionCountsFile);
      }
      AppendOutputs(flagged, job);
    }

    /** Staging: the outputs of an earlier run removed, the reference and
        the reads mounted, the command assembled and the primer written. */
    method Stage(ghost job: Job, exec: (string, Files) -> Files) returns (command: string)
      requires job == CurrentJob() && refFile != NoFile && alignmentFile != NoFile
      modifies this`workspace, this`log, this`execLog
      ensures command == CommandFor(job)
      ensures workspace == MainInput(job, old(workspace), exec)
      ensures execLog == old(execLog) + AlignmentCommands(job)
      ensures log == old(log) + [WritingRefMessage] + ReadsLog(job)
    {
      ghost var start := workspace;
      var uploadedFastq := alignmentFile != ExampleData && IsFastqName(alignmentFile.file.name);
      command := "viral_consensus -i " +
                 (if uploadedFastq then "-" else FileArg(alignmentFile, defaultAlignmentName)) +
                 " -r " + FileArg(refFile, defaultRefName) + " -o " + ConsensusFile;
      ClearStaleOutputs();
      MountReference(job);
      command := MountReads(job, command, exec);
      command := AppendFlags(job, command);
    }

    /** A run once the input is valid and the runtime is loaded: stage,
        execute, and decide from `consensus.fa`. */
    method Launch(ghost job: Job, exec: (string, Files) -> Files) returns (succeeded: bool)
      requires job == CurrentJob() && refFile != NoFile && alignmentFile != NoFile && !done
      modifies this`workspace, this`log, this`execLog, this`done, this`loading
      ensures workspace == RunWorkspace(job, old(workspace), exec)
      ensures execLog == old(execLog) + AlignmentCommands(job) + [CommandFor(job)]
      ensures succeeded == done && (done <==> ConsensusReady(workspace))
      ensures !loading
      ensures log == old(log) + [WritingRefMessage] + ReadsLog(job) + [ExecutingMessage(CommandFor(job))] + [Verdict(done)]
    {
      var command := Stage(job, exec);
      log := log + [ExecutingMessage(command)];
      execLog := execLog + [command];
      workspace := exec(command, workspace);
      succeeded := Conclude();
    }

    /** The verdict: done exactly when `consensus.fa` is listed and not empty. */
    method Conclude() returns (succeeded: bool)
      requires !done
      modifies this`done, this`loading, this`log
      ensures succeeded == done && (done <==> ConsensusReady(workspace))
      ensures !loading
      ensures log == old(log) + [Verdict(done)]
    {
      if !(ConsensusFile in workspace && workspace[ConsensusFile] > 0) {
        log := log + [NoConsensusMessage];
        loading := false;
        return false;
      }
      done, loading := true, false;
      log := log + [DoneMessage];
      return true;
    }

    /** "Submit": validate, then (once the runtime is loaded) clear the old
        outputs, stage the inputs, build the command, run it and report
        whether a non-empty consensus was produced. */
    method Run(exec: (string, Files) -> Files) returns (outcome: Outcome)
      modifies this`refFileValid, this`alignmentFileValid, this`log, this`done, this`loading,
               this`inputChanged, this`workspace, this`execLog
      ensures refFileValid == (refFile != NoFile) && alignmentFileValid == (alignmentFile != NoFile)
      ensures outcome == Invalid <==> !InputReady()
      ensures outcome == Invalid ==>
                && done == old(done) && loading == old(loading) && inputChanged == old(inputChanged)
                && workspace == old(workspace) && execLog == old(execLog)
                && log == [ValidatingMessage, InvalidMessage]
      ensures outcome == Deferred <==> InputReady() && !cliReady
      ensures outcome == Deferred ==>
                && !done && loading && !inputChanged
                && workspace == old(workspace) && execLog == old(execLog)
                && log == [ValidatingMessage, RunningMessage]
      ensures (outcome == Failed || outcome == Succeeded) ==>
                && workspace == RunWorkspace(old(CurrentJob()), old(workspace), exec)
                && execLog == old(execLog) + AlignmentCommands(old(CurrentJob())) + [CommandFor(old(CurrentJob()))]
                && (done <==> ConsensusReady(workspace))
                && (outcome == Succeeded <==> done)
                && !loading && !inputChanged && !StaleWarning()
                && log == RunLog(old(CurrentJob()), done)
    {
      ghost var job := CurrentJob();
      var valid := ValidInput();
      if !valid {
        log := log + [InvalidMessage];
        return Invalid;
      }
      outcome := Proceed(job, exec);
    }

    /** The part of a run after validation succeeded. */
    method Proceed(ghost job: Job, exec: (string, Files) -> Files) returns (outcome: Outcome)
      requires job == CurrentJob() && refFile != NoFile && alignmentFile != NoFile
      requires log == [ValidatingMessage]
      modifies this`log, this`done, this`loading, this`inputChanged, this`workspace, this`execLog
      ensures outcome != Invalid
      ensures outcome == Deferred <==> !cliReady
      ensures outcome == Deferred ==>
                && !done && loading && !inputChanged
                && workspace == old(workspace) && execLog == old(execLog)
                && log == [ValidatingMessage, RunningMessage]
      ensures outcome != Deferred ==>
                && workspace == RunWorkspace(job, old(workspace), exec)
                && execLog == old(execLog) + AlignmentCommands(job) + [CommandFor(job)]
                && (done <==> ConsensusReady(workspace))
                && (outcome == Succeeded <==> done)
                && !loading && !inputChanged
                && log == RunLog(job, done)
    {
      log := log + [RunningMessage];
      done, loading, inputChanged := false, true, false;
      if !cliReady {
        return Deferred;
      }
      var succeeded := Launch(job, exec);
      outcome := if succeeded then Succeeded else Failed;
    }

    /** `loadDefaultsAndVersion` on the text of the defaults header: every
        `#define DEFAULT…` line whose name is mapped sets that parameter and
        its default, in order, until a mapped line without a value throws;
        then the version is read. `ok` is false when anything threw. */
    method LoadDefaultsAndVersion(text: string, mapping: map<string, Field>) returns (ok: bool)
      modifies this`params, this`defaults, this`version
      ensures var r := ApplyDefaults(old(params), old(defaults), Matches(text, DefinePattern), mapping);
              && params == r.params && defaults == r.defaults
              && (ok <==> r.ok && VersionOf(text).Some?)
      ensures ok ==> version == VersionOf(text).value
      ensures !ok ==> version == old(version)
      ensures old(params) == old(defaults) ==> params == defaults
    {
      ok := LoadDefaults(Matches(text, DefinePattern), mapping);
      if ok {
        var found := VersionOf(text);
        if found.Some? {
          version := found.value;
        } else {
          ok := false;
        }
      }
    }

    /** The loop over the matched lines. */
    method LoadDefaults(lines: seq<string>, mapping: map<string, Field>) returns (ok: bool)
      requires AllDefineLines(lines)
      modifies this`params, this`defaults
      ensures Loaded(params, defaults, ok) == ApplyDefaults(old(params), old(defaults), lines, mapping)
      ensures old(params) == old(defaults) ==> params == defaults
    {
      ghost var params0, defaults0 := params, defaults;
      var i := 0;
      ok := true;
      while i < |lines| && ok
        invariant 0 <= i <= |lines|
        invariant Loaded(params, defaults, ok) == ApplyDefaults(params0, defaults0, lines[..i], mapping)
      {
        ok := LoadLine(lines[i], mapping);
        ApplyDefaultsStep(params0, defaults0, lines, i, mapping);
        i := i + 1;
      }
      ApplyDefaultsStopped(params0, defaults0, lines, i, mapping);
      if params0 == defaults0 {
        ApplyDefaultsKeepsAgreement(params0, defaults0, lines, mapping);
      }
    }

    /** One matched line: a mapped name sets the parameter and its default
        to the line's third word; a mapped name without one throws. */
    method LoadLine(line: string, mapping: map<string, Field>) returns (ok: bool)
      requires DefinePattern <= line
      modifies this`params, this`defaults
      ensures Loaded(params, defaults, ok) == ApplyLine(Loaded(old(params), old(defaults), true), line, mapping)
    {
      MatchedLineWords(line);
      var words := Split(line, ' ');
      ok := true;
      if words[1] in mapping {
        if |words| < 3 {
          ok := false;
        } else {
          var f, v := mapping[words[1]], TokenValue(words[2]);
          defaults := defaults.With(f, v);
          params := params.With(f, v);
        }
      }
    }

    /** `downloadFile`: a file not present in the workspace is skipped. */
    method DownloadFile(name: string) returns (saved: bool)
      modifies this`downloads, this`log
      ensures saved <==> cliReady && name in workspace
      ensures downloads == old(downloads) + if saved then [name] else []
      ensures log == old(log) + if saved then [DownloadedPrefix + name] else []
    {
      saved := cliReady && name in workspace;
      if saved {
        downloads := downloads + [name];
        log := log + [DownloadedPrefix + name];
      }
    }

    /** "Download Output": the consensus, then the position counts, then the
        insertion counts, each only when present. */
    method DownloadConsensus()
      modifies this`downloads, this`log
      ensures downloads == old(downloads) + if cliReady then PresentOutputs(workspace) else []
      ensures log == old(log) + if cliReady then DownloadedLines(PresentOutputs(workspace)) else []
    {
      var _ := DownloadFile(ConsensusFile);
      var _ := DownloadFile(PositionCountsFile);
      var _ := DownloadFile(InsertionCountsFile);
      var ws := workspace;
      GuardedAppends(old(downloads), cliReady, ConsensusFile, ConsensusFile in ws,
                     PositionCountsFile, PositionCountsFile in ws, InsertionCountsFile, InsertionCountsFile in ws);
      GuardedAppends(old(log), cliReady, DownloadedPrefix + ConsensusFile, ConsensusFile in ws,
                     DownloadedPrefix + PositionCountsFile, PositionCountsFile in ws,
                     DownloadedPrefix + InsertionCountsFile, InsertionCountsFile in ws);
      DownloadedOutputs(ws);
    }
  }
}
