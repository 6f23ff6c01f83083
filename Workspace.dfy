/** The runtime's file system, seen as a map from file name to size, and what
    a run does to it: remove the previous outputs, mount the inputs, write
    the primer file and execute the command. */
module Workspace {
  import opened Wrappers
  import opened Inputs
  import opened Commands

  type Files = map<string, nat>

  /** Unlinking `name` when it is listed, and skipping the unlink otherwise. */
  function Removed(ws: Files, name: string): (r: Files)
    ensures name !in r
    ensures forall n :: n != name ==> (n in r <==> n in ws)
    ensures forall n :: n in r ==> r[n] == ws[n]
  {
    if name in ws then ws - {name} else ws
  }

  predicate IsOutput(name: string)
  {
    name == ConsensusFile || name == PositionCountsFile || name == InsertionCountsFile
  }

  /** The three outputs a run may produce, removed before it starts. */
  function ClearOutputs(ws: Files): (r: Files)
    ensures forall n :: IsOutput(n) ==> n !in r
    ensures forall n :: !IsOutput(n) ==> (n in r <==> n in ws)
    ensures forall n :: n in r ==> r[n] == ws[n]
  {
    Removed(Removed(Removed(ws, ConsensusFile), PositionCountsFile), InsertionCountsFile)
  }

  /** The size of what is mounted for the reference: the example payload for
      the sentinel, else the chosen file. */
  function RefPayload(job: Job): nat
  {
    if job.reference.Uploaded? then job.reference.file.size else job.exampleRefSize
  }

  function ReadsPayload(job: Job): nat
  {
    if job.alignment.Uploaded? then job.alignment.file.size else job.exampleAlignmentSize
  }

  /** Outputs removed, then the reference and the reads mounted under the
      names the command uses for them. Every staging branch (example,
      aligned, FASTQ, unrecognised) mounts the reads under that same name. */
  function StageInputs(ws: Files, job: Job): Files
  {
    ClearOutputs(ws)[RefArg(job) := RefPayload(job)][ReadsArg(job) := ReadsPayload(job)]
  }

  /** The primer file, written under its own name when one is chosen. */
  function WritePrimer(ws: Files, primer: Option<Upload>): Files
  {
    match primer
    case Some(p) => ws[p.name := p.size]
    case None => ws
  }

  /** The primer file is written under its name with its size, and nothing
      else changes. */
  lemma WritePrimerStages(ws: Files, primer: Option<Upload>)
    ensures var r := WritePrimer(ws, primer);
            && (primer.Some? ==> primer.value.name in r && r[primer.value.name] == primer.value.size)
            && (forall n :: (primer.None? || n != primer.value.name) ==> (n in r <==> n in ws))
            && (forall n :: n in ws && (primer.None? || n != primer.value.name) ==> r[n] == ws[n])
  {
  }

  /** The primer step as the callback is written: the existence test is a
      promise that is never awaited, so it is always truthy and the unlink
      always runs; unlinking a file that is not there rejects, which ends the
      callback before the write. */
  function WritePrimerAsWritten(ws: Files, primer: Option<Upload>): Files
  {
    match primer
    case Some(p) => if p.name in ws then ws[p.name := p.size] else ws
    case None => ws
  }

  /** On every run where the primer's name is not yet in the workspace, the
      step as written never writes the file, where the intended step writes it. */
  lemma PrimerLostWhenAbsent(ws: Files, p: Upload)
    requires p.name !in ws
    ensures p.name !in WritePrimerAsWritten(ws, Some(p))
    ensures p.name in WritePrimer(ws, Some(p))
  {
  }

  /** The workspace the main command runs in: for FASTQ reads the staged
      workspace has first been through the extra exec of the piped base
      command. */
  function MainInput(job: Job, ws: Files, exec: (string, Files) -> Files): Files
  {
    WritePrimer(AlignedReads(job, StageInputs(ws, job), exec), job.primer)
  }

  /** The staged workspace after the extra exec of the FASTQ branch, if any. */
  function AlignedReads(job: Job, staged: Files, exec: (string, Files) -> Files): Files
  {
    if UploadedFastq(job.alignment) then exec(PipedBase(job), staged) else staged
  }

  /** The workspace after a run that reached the runtime. */
  function RunWorkspace(job: Job, ws: Files, exec: (string, Files) -> Files): Files
  {
    exec(CommandFor(job), MainInput(job, ws, exec))
  }

  /** The extra command the FASTQ branch hands to the runtime before the main one. */
  function AlignmentCommands(job: Job): seq<string>
  {
    if UploadedFastq(job.alignment) then [PipedBase(job)] else []
  }

  /** The commands a run hands to the runtime, in order. */
  function ExecCommands(job: Job): seq<string>
  {
    AlignmentCommands(job) + [CommandFor(job)]
  }

  /** `consensus.fa` is listed and not empty. */
  predicate ConsensusReady(ws: Files)
  {
    ConsensusFile in ws && ws[ConsensusFile] > 0
  }

  /** The user's file names do not collide with the output names. */
  predicate DistinctNames(job: Job)
  {
    && !IsOutput(RefArg(job)) && !IsOutput(ReadsArg(job))
    && (job.primer.Some? ==> !IsOutput(job.primer.value.name))
  }

  /** The staged workspace holds the reads and the reference under the names
      the command reads them from, with their payloads (the reads win when
      both have the same name); the outputs are gone unless an input is named
      like one; every other file is as it was. */
  lemma StagedInputs(ws: Files, job: Job)
    ensures var staged := StageInputs(ws, job);
            && ReadsArg(job) in staged && staged[ReadsArg(job)] == ReadsPayload(job)
            && RefArg(job) in staged
            && (RefArg(job) != ReadsArg(job) ==> staged[RefArg(job)] == RefPayload(job))
            && (forall n :: IsOutput(n) && n != RefArg(job) && n != ReadsArg(job) ==> n !in staged)
            && (forall n :: !IsOutput(n) && n != RefArg(job) && n != ReadsArg(job) ==>
                  (n in staged <==> n in ws) && (n in ws ==> staged[n] == ws[n]))
  {
  }

  /** Every file the command names as an input is in the workspace it runs
      in, when the reads need no alignment; without a collision with an
      output name, no output of an earlier run is left there. */
  lemma MainInputReady(job: Job, ws: Files, exec: (string, Files) -> Files)
    requires !UploadedFastq(job.alignment)
    ensures var w := MainInput(job, ws, exec);
            && InputArg(job) in w && RefArg(job) in w
            && (job.primer.Some? ==> job.primer.value.name in w)
            && (DistinctNames(job) ==> forall n :: IsOutput(n) ==> n !in w)
  {
    assert InputArg(job) == ReadsArg(job);
    StagedInputs(ws, job);
  }

  /** A run that produces no consensus cannot be reported as done on the
      strength of a consensus left over from an earlier run: if the runtime
      never creates `consensus.fa` itself, the run ends without one. */
  lemma NoStaleConsensus(job: Job, ws: Files, exec: (string, Files) -> Files)
    requires DistinctNames(job)
    requires forall c, w :: ConsensusFile !in w ==> ConsensusFile !in exec(c, w)
    ensures !ConsensusReady(RunWorkspace(job, ws, exec))
  {
    var staged := StageInputs(ws, job);
    StagedInputs(ws, job);
    assert ConsensusFile !in staged;
    assert ConsensusFile !in AlignedReads(job, staged, exec);
    assert ConsensusFile !in MainInput(job, ws, exec);
  }

  /** The runtime sees the piped base command only in the FASTQ case, and the
      full command always, last. */
  lemma ExecCommandsShape(job: Job)
    ensures |ExecCommands(job)| == if UploadedFastq(job.alignment) then 2 else 1
    ensures ExecCommands(job)[|ExecCommands(job)| - 1] == CommandFor(job)
    ensures forall i :: 0 <= i < |ExecCommands(job)| ==> ExecCommands(job)[i] <= CommandFor(job)
  {
    PipedBaseIsPrefix(job);
  }

  /** The outputs present in the workspace, in download order. */
  function PresentOutputs(ws: Files): (names: seq<string>)
    ensures forall i :: 0 <= i < |names| ==> names[i] in ws && IsOutput(names[i])
    ensures forall n :: IsOutput(n) && n in ws ==> n in names
    ensures |names| <= 3
  {
    (if ConsensusFile in ws then [ConsensusFile] else []) +
    (if PositionCountsFile in ws then [PositionCountsFile] else []) +
    (if InsertionCountsFile in ws then [InsertionCountsFile] else [])
  }
}
