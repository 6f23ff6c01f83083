/** The command line a run executes: the `viral_consensus` call, preceded by
    a `minimap2` pipe when the reads are FASTQ, followed by the primer,
    threshold and output flags, always in the same order. */
module Commands {
  import opened Wrappers
  import opened Strings
  import opened Numbers
  import opened Inputs

  const ConsensusFile := "consensus.fa"
  const PositionCountsFile := "positionCounts.tsv"
  const InsertionCountsFile := "insertionCounts.tsv"

  /** Everything a run reads from the form: the three files, the parameters,
      the two output toggles, the names the example files are staged under
      and the sizes of the example payloads. */
  datatype Job = Job(reference: FileRef, alignment: FileRef, primer: Option<Upload>,
                     params: Params, genPosCounts: bool, genInsCounts: bool,
                     defaultRefName: string, defaultAlignmentName: string,
                     exampleRefSize: nat, exampleAlignmentSize: nat)

  /** `file?.name ?? fallback`: a chosen file's name, else the fallback. */
  function FileArg(f: FileRef, fallback: string): string
  {
    if f.Uploaded? then f.file.name else fallback
  }

  function RefArg(job: Job): string
  {
    FileArg(job.reference, job.defaultRefName)
  }

  function ReadsArg(job: Job): string
  {
    FileArg(job.alignment, job.defaultAlignmentName)
  }

  /** The `-i` argument: standard input when minimap2 feeds the reads. */
  function InputArg(job: Job): string
  {
    if UploadedFastq(job.alignment) then "-" else ReadsArg(job)
  }

  function BaseCommand(job: Job): string
  {
    "viral_consensus -i " + InputArg(job) + " -r " + RefArg(job) + " -o " + ConsensusFile
  }

  function AlignerPrefix(job: Job): string
  {
    "minimap2 -t 1 -a -x sr " + RefArg(job) + " " + ReadsArg(job) + " | "
  }

  /** The command before any flag is added; for FASTQ reads this is also the
      command of the extra exec the FASTQ branch performs. */
  function PipedBase(job: Job): string
  {
    if UploadedFastq(job.alignment) then AlignerPrefix(job) + BaseCommand(job) else BaseCommand(job)
  }

  function PrimerFlags(job: Job): string
  {
    match job.primer
    case Some(p) => " -p " + p.name + " -po " + ValueText(job.params.primerOffset)
    case None => ""
  }

  function ThresholdFlags(job: Job): string
  {
    var p := job.params;
    " -q " + ValueText(p.minBaseQuality) + " -d " + ValueText(p.minDepth) +
    " -f " + ValueText(p.minFreq) + " -a " + ValueText(p.ambigSymbol)
  }

  function OutputFlags(job: Job): string
  {
    (if job.genPosCounts then " -op " + PositionCountsFile else "") +
    (if job.genInsCounts then " -oi " + InsertionCountsFile else "")
  }

  /** The command a run executes. */
  function CommandFor(job: Job): string
  {
    PipedBase(job) + PrimerFlags(job) + ThresholdFlags(job) + OutputFlags(job)
  }

  /** The words of the command, an independent description of it as the list
      of arguments, in their fixed order. */
  function Argv(job: Job): seq<string>
  {
    (if UploadedFastq(job.alignment) then AlignerWords(job) else []) + BaseWords(job) + FlagWords(job)
  }

  function AlignerWords(job: Job): seq<string>
  {
    ["minimap2", "-t", "1", "-a", "-x", "sr", RefArg(job), ReadsArg(job), "|"]
  }

  function BaseWords(job: Job): seq<string>
  {
    ["viral_consensus", "-i", InputArg(job), "-r", RefArg(job), "-o", ConsensusFile]
  }

  function PrimerWords(job: Job): seq<string>
  {
    match job.primer
    case Some(f) => ["-p", f.name, "-po", ValueText(job.params.primerOffset)]
    case None => []
  }

  function ThresholdWords(job: Job): seq<string>
  {
    var p := job.params;
    ["-q", ValueText(p.minBaseQuality), "-d", ValueText(p.minDepth),
     "-f", ValueText(p.minFreq), "-a", ValueText(p.ambigSymbol)]
  }

  function OutputWords(job: Job): seq<string>
  {
    (if job.genPosCounts then ["-op", PositionCountsFile] else []) +
    (if job.genInsCounts then ["-oi", InsertionCountsFile] else [])
  }

  function FlagWords(job: Job): seq<string>
  {
    PrimerWords(job) + ThresholdWords(job) + OutputWords(job)
  }

  /** `c` occurs in none of the texts the user controls that enter the command. */
  predicate FreeOf(job: Job, c: char)
  {
    var p := job.params;
    && c !in RefArg(job) && c !in ReadsArg(job)
    && (job.primer.Some? ==> c !in job.primer.value.name)
    && c !in ValueText(p.primerOffset) && c !in ValueText(p.minBaseQuality)
    && c !in ValueText(p.minDepth) && c !in ValueText(p.minFreq) && c !in ValueText(p.ambigSymbol)
  }

  /** " w1 w2 ... wn": the words, each preceded by a space. */
  function Spaced(words: seq<string>): string
  {
    if words == [] then "" else " " + words[0] + Spaced(words[1..])
  }

  lemma {:induction false} SpacedAppend(a: seq<string>, b: seq<string>)
    ensures Spaced(a + b) == Spaced(a) + Spaced(b)
  {
    if a == [] {
      assert a + b == b;
    } else {
      assert (a + b)[0] == a[0] && (a + b)[1..] == a[1..] + b;
      SpacedAppend(a[1..], b);
    }
  }

  lemma {:induction false} JoinSpaced(words: seq<string>)
    requires |words| >= 1
    ensures Join(words, ' ') == words[0] + Spaced(words[1..])
  {
    if |words| > 1 {
      JoinSpaced(words[1..]);
      assert words[1..][1..] == words[2..];
    }
  }

  lemma Spaced1(a: string)
    ensures Spaced([a]) == " " + a
  {
    assert [a][1..] == [];
  }

  lemma Spaced2(a: string, b: string)
    ensures Spaced([a, b]) == " " + a + " " + b
  {
    assert [a, b][1..] == [b];
    Spaced1(b);
  }

  lemma Spaced4(a: string, b: string, c: string, d: string)
    ensures Spaced([a, b, c, d]) == " " + a + " " + b + " " + c + " " + d
  {
    SpacedAppend([a, b], [c, d]);
    assert [a, b] + [c, d] == [a, b, c, d];
    Spaced2(a, b);
    Spaced2(c, d);
  }

  /** Solver aid: `Spaced` of eight words, spelled out. */
  lemma Spaced8(a: string, b: string, c: string, d: string, e: string, f: string, g: string, h: string)
    ensures Spaced([a, b, c, d, e, f, g, h]) == " " + a + " " + b + " " + c + " " + d + " " + e + " " + f + " " + g + " " + h
  {
    SpacedAppend([a, b, c, d], [e, f, g, h]);
    assert [a, b, c, d] + [e, f, g, h] == [a, b, c, d, e, f, g, h];
    Spaced4(a, b, c, d);
    Spaced4(e, f, g, h);
  }

  lemma PrimerSpaced(job: Job)
    ensures Spaced(PrimerWords(job)) == PrimerFlags(job)
  {
    if job.primer.Some? {
      Spaced4("-p", job.primer.value.name, "-po", ValueText(job.params.primerOffset));
    }
  }

  lemma ThresholdSpaced(job: Job)
    ensures Spaced(ThresholdWords(job)) == ThresholdFlags(job)
  {
    var p := job.params;
    Spaced8("-q", ValueText(p.minBaseQuality), "-d", ValueText(p.minDepth),
            "-f", ValueText(p.minFreq), "-a", ValueText(p.ambigSymbol));
  }

  lemma OutputSpaced(job: Job)
    ensures Spaced(OutputWords(job)) == OutputFlags(job)
  {
    SpacedPairs(job.genPosCounts, "-op", PositionCountsFile, job.genInsCounts, "-oi", InsertionCountsFile);
    assert " " + "-op" + " " == " -op " && " " + "-oi" + " " == " -oi ";
  }

  /** Two optional flag-value pairs, spaced. */
  lemma SpacedPairs(p: bool, a: string, b: string, q: bool, c: string, d: string)
    ensures Spaced((if p then [a, b] else []) + (if q then [c, d] else [])) ==
            (if p then " " + a + " " + b else "") + (if q then " " + c + " " + d else "")
  {
    var first: seq<string> := if p then [a, b] else [];
    var second: seq<string> := if q then [c, d] else [];
    SpacedAppend(first, second);
    if p { Spaced2(a, b); }
    if q { Spaced2(c, d); }
  }

  lemma FlagsSpaced(job: Job)
    ensures Spaced(FlagWords(job)) == PrimerFlags(job) + ThresholdFlags(job) + OutputFlags(job)
  {
    PrimerSpaced(job);
    ThresholdSpaced(job);
    OutputSpaced(job);
    SpacedAppend(PrimerWords(job) + ThresholdWords(job), OutputWords(job));
    SpacedAppend(PrimerWords(job), ThresholdWords(job));
  }

  lemma BaseJoined(job: Job)
    ensures Join(BaseWords(job), ' ') == BaseCommand(job)
  {
    var base := BaseWords(job);
    JoinSpaced(base);
    assert base[1..] == ["-i", InputArg(job), "-r", RefArg(job), "-o", ConsensusFile];
    Spaced6("-i", InputArg(job), "-r", RefArg(job), "-o", ConsensusFile);
    Regroup6("viral_consensus", " ", "-i", InputArg(job), "-r", RefArg(job), "-o", ConsensusFile);
    assert "viral_consensus" + " " + "-i" + " " == "viral_consensus -i ";
    assert " " + "-r" + " " == " -r " && " " + "-o" + " " == " -o ";
  }

  /** The aligner words, joined, are the aligner prefix without its final space. */
  lemma AlignerPrefixJoined(job: Job)
    ensures Join(AlignerWords(job), ' ') + " " == AlignerPrefix(job)
  {
    var aligner := AlignerWords(job);
    JoinSpaced(aligner);
    assert aligner[1..] == ["-t", "1", "-a", "-x", "sr", RefArg(job), ReadsArg(job), "|"];
    Spaced8("-t", "1", "-a", "-x", "sr", RefArg(job), ReadsArg(job), "|");
    Regroup8("minimap2", " ", "-t", "1", "-a", "-x", "sr", RefArg(job), ReadsArg(job), "|");
    assert "minimap2" + " " + "-t" + " " + "1" + " " + "-a" + " " + "-x" + " " + "sr" + " " ==
           "minimap2 -t 1 -a -x sr ";
    assert " " + "|" + " " == " | ";
  }

  lemma AlignerJoined(job: Job)
    ensures Join(AlignerWords(job) + BaseWords(job), ' ') == AlignerPrefix(job) + BaseCommand(job)
  {
    JoinConcat(AlignerWords(job), BaseWords(job), ' ');
    AlignerPrefixJoined(job);
    BaseJoined(job);
  }

  /** Solver aid: `Spaced` of six words, spelled out. */
  lemma Spaced6(a: string, b: string, c: string, d: string, e: string, f: string)
    ensures Spaced([a, b, c, d, e, f]) == " " + a + " " + b + " " + c + " " + d + " " + e + " " + f
  {
    SpacedAppend([a, b], [c, d, e, f]);
    assert [a, b] + [c, d, e, f] == [a, b, c, d, e, f];
    Spaced2(a, b);
    Spaced4(c, d, e, f);
  }

  /** Solver aid: regrouping a concatenation of literals and values; no source counterpart. */
  lemma Regroup6(p: string, s: string, f1: string, x1: string, f2: string, x2: string, f3: string, x3: string)
    ensures p + (s + f1 + s + x1 + s + f2 + s + x2 + s + f3 + s + x3) ==
            (p + s + f1 + s) + x1 + (s + f2 + s) + x2 + (s + f3 + s) + x3
  {
  }

  /** Solver aid: regrouping a concatenation of literals and values; no source counterpart. */
  lemma Regroup8(p: string, s: string, a: string, b: string, c: string, d: string, e: string,
                 r: string, q: string, bar: string)
    ensures p + (s + a + s + b + s + c + s + d + s + e + s + r + s + q + s + bar) + s ==
            (p + s + a + s + b + s + c + s + d + s + e + s) + r + s + q + (s + bar + s)
  {
  }

  lemma JoinThenSpaced(head: seq<string>, tail: seq<string>)
    requires |head| >= 1
    ensures Join(head + tail, ' ') == Join(head, ' ') + Spaced(tail)
  {
    var all := head + tail;
    JoinSpaced(head);
    JoinSpaced(all);
    assert all[0] == head[0] && all[1..] == head[1..] + tail;
    SpacedAppend(head[1..], tail);
    Associate3(head[0], Spaced(head[1..]), Spaced(tail));
  }

  /** Solver aid: associativity of three concatenations. */
  lemma Associate3(a: string, b: string, c: string)
    ensures a + (b + c) == a + b + c
  {
  }

  /** The command text is its word list joined with single spaces. */
  lemma CommandIsJoinedArgv(job: Job)
    ensures Join(Argv(job), ' ') == CommandFor(job)
  {
    var head := if UploadedFastq(job.alignment) then AlignerWords(job) + BaseWords(job) else BaseWords(job);
    assert Argv(job) == head + FlagWords(job);
    assert Join(head, ' ') == PipedBase(job) by {
      if UploadedFastq(job.alignment) { AlignerJoined(job); } else { BaseJoined(job); }
    }
    JoinThenSpaced(head, FlagWords(job));
    FlagsSpaced(job);
    Associate4(PipedBase(job), PrimerFlags(job), ThresholdFlags(job), OutputFlags(job));
  }

  /** Solver aid: associativity of four concatenations. */
  lemma Associate4(a: string, b: string, c: string, d: string)
    ensures a + (b + c + d) == a + b + c + d
  {
  }

  /** No word of a list contains `c`. */
  predicate WordsFree(words: seq<string>, c: char)
  {
    forall i :: 0 <= i < |words| ==> c !in words[i]
  }

  lemma WordsFreeAppend(a: seq<string>, b: seq<string>, c: char)
    requires WordsFree(a, c) && WordsFree(b, c)
    ensures WordsFree(a + b, c)
  {
    forall i | 0 <= i < |a + b| ensures c !in (a + b)[i] {
      if i >= |a| { assert (a + b)[i] == b[i - |a|]; }
    }
  }

  lemma ArgvSpaceFree(job: Job)
    requires FreeOf(job, ' ')
    ensures WordsFree(Argv(job), ' ')
  {
    WordsFreeAppend(PrimerWords(job), ThresholdWords(job), ' ');
    WordsFreeAppend(PrimerWords(job) + ThresholdWords(job), OutputWords(job), ' ');
    var head := if UploadedFastq(job.alignment) then AlignerWords(job) else [];
    WordsFreeAppend(head, BaseWords(job), ' ');
    WordsFreeAppend(head + BaseWords(job), FlagWords(job), ' ');
  }

  /** When no user-supplied text holds a space, splitting the command at
      spaces yields exactly its word list. */
  lemma CommandWords(job: Job)
    requires FreeOf(job, ' ')
    ensures Split(CommandFor(job), ' ') == Argv(job)
  {
    CommandIsJoinedArgv(job);
    ArgvSpaceFree(job);
    SplitJoin(Argv(job), ' ');
  }

  lemma NoPipeInFlags(job: Job)
    requires FreeOf(job, '|')
    ensures '|' !in PrimerFlags(job) + ThresholdFlags(job) + OutputFlags(job)
  {
  }

  lemma NoPipeInBase(job: Job)
    requires FreeOf(job, '|')
    ensures '|' !in BaseCommand(job)
  {
  }

  /** The command holds a pipe character exactly once when the reads are
      FASTQ (minimap2 piped into viral_consensus) and not at all otherwise,
      provided no user-supplied text holds one. */
  lemma CommandPipes(job: Job)
    requires FreeOf(job, '|')
    ensures CountChar(CommandFor(job), '|') == if UploadedFastq(job.alignment) then 1 else 0
  {
    var flags := PrimerFlags(job) + ThresholdFlags(job) + OutputFlags(job);
    NoPipeInFlags(job);
    Associate4(PipedBase(job), PrimerFlags(job), ThresholdFlags(job), OutputFlags(job));
    CountCharAppend(PipedBase(job), flags, '|');
    PipedBasePipes(job);
  }

  lemma PipedBasePipes(job: Job)
    requires FreeOf(job, '|')
    ensures CountChar(PipedBase(job), '|') == if UploadedFastq(job.alignment) then 1 else 0
  {
    NoPipeInBase(job);
    if UploadedFastq(job.alignment) {
      AlignerPrefixPipes(job);
      CountCharAppend(AlignerPrefix(job), BaseCommand(job), '|');
    }
  }

  lemma AlignerPrefixPipes(job: Job)
    requires FreeOf(job, '|')
    ensures CountChar(AlignerPrefix(job), '|') == 1
  {
    var lead := "minimap2 -t 1 -a -x sr " + RefArg(job) + " " + ReadsArg(job) + " ";
    assert AlignerPrefix(job) == lead + "| ";
    assert '|' !in lead;
    CountCharAppend(lead, "| ", '|');
    assert CountChar("| ", '|') == 1 by {
      assert "| "[1..] == " ";
    }
  }

  /** The `-i` argument is standard input exactly when minimap2 runs first
      (unless a reads file is itself named "-"). */
  lemma InputIsStdinIffFastq(job: Job)
    requires ReadsArg(job) != "-"
    ensures InputArg(job) == "-" <==> UploadedFastq(job.alignment)
    ensures !UploadedFastq(job.alignment) ==> InputArg(job) == ReadsArg(job)
  {
  }

  /** The extra exec in the FASTQ branch runs the final command without its flags. */
  lemma PipedBaseIsPrefix(job: Job)
    ensures PipedBase(job) <= CommandFor(job)
  {
    Associate4(PipedBase(job), PrimerFlags(job), ThresholdFlags(job), OutputFlags(job));
    var tail := PrimerFlags(job) + ThresholdFlags(job) + OutputFlags(job);
    assert CommandFor(job)[..|PipedBase(job)|] == (PipedBase(job) + tail)[..|PipedBase(job)|];
  }

  /** The command before its flags ends with the consensus output, also when
      minimap2 is piped in front of it. */
  lemma PipedBaseEndsWithOutput(job: Job)
    ensures EndsWith(PipedBase(job), " -o " + ConsensusFile)
  {
    var b := "viral_consensus -i " + InputArg(job) + " -r " + RefArg(job);
    var out := " -o " + ConsensusFile;
    Associate3(b, " -o ", ConsensusFile);
    if UploadedFastq(job.alignment) {
      Associate3(AlignerPrefix(job), b, out);
      EndsWithConcat(AlignerPrefix(job) + b, out);
    } else {
      EndsWithConcat(b, out);
    }
  }
}
