/** The user's inputs to a run: the three files, the five tunable parameters,
    how a reads file is classified, and when a parameter value is valid. */
module Inputs {
  import opened Wrappers
  import opened Strings
  import opened Numbers

  /** A file chosen in a file input: its name and its size in bytes. */
  datatype Upload = Upload(name: string, size: nat)

  /** The reference or reads file slot: nothing chosen (`undefined`), the
      `'EXAMPLE_DATA'` sentinel, or a chosen file. */
  datatype FileRef = NoFile | ExampleData | Uploaded(file: Upload)

  /** What a file input currently holds (`files[0]`, possibly `undefined`). */
  function FromInput(chosen: Option<Upload>): FileRef
  {
    match chosen
    case Some(u) => Uploaded(u)
    case None => NoFile
  }

  /** The value of a parameter field. JavaScript keeps numbers and strings in
      the same state slots, and the defaults file may put either into any of
      them, so a slot holds a number or a text. */
  datatype Value = Number(n: Decimal) | Text(s: string)

  /** The text a value contributes to a command (template interpolation). */
  function ValueText(v: Value): string
  {
    match v
    case Number(d) => DecimalText(d)
    case Text(s) => s
  }

  /** The five tunable parameters. */
  datatype Field = PrimerOffset | MinBaseQuality | MinDepth | MinFreq | AmbigSymbol

  datatype Params = Params(primerOffset: Value, minBaseQuality: Value, minDepth: Value,
                           minFreq: Value, ambigSymbol: Value)
  {
    function Get(f: Field): Value
    {
      match f
      case PrimerOffset => primerOffset
      case MinBaseQuality => minBaseQuality
      case MinDepth => minDepth
      case MinFreq => minFreq
      case AmbigSymbol => ambigSymbol
    }

    /** The parameters with field `f` set to `v` and every other field kept. */
    function With(f: Field, v: Value): (r: Params)
      ensures r.Get(f) == v
      ensures forall g :: g != f ==> r.Get(g) == Get(g)
    {
      match f
      case PrimerOffset => this.(primerOffset := v)
      case MinBaseQuality => this.(minBaseQuality := v)
      case MinDepth => this.(minDepth := v)
      case MinFreq => this.(minFreq := v)
      case AmbigSymbol => this.(ambigSymbol := v)
    }
  }

  /** The values the form starts with: 0 for the numbers and "N" for the symbol. */
  function InitialParams(): Params
  {
    var zero := Number(Decimal(0, 0));
    Params(zero, zero, zero, zero, Text("N"))
  }

  /** A reads file that has to be aligned by minimap2 first. */
  predicate IsFastqName(name: string)
  {
    EndsWith(name, ".fastq") || EndsWith(name, ".fq") ||
    EndsWith(name, ".fastq.gz") || EndsWith(name, ".fq.gz")
  }

  /** A reads file that is already aligned. */
  predicate IsAlignedName(name: string)
  {
    EndsWith(name, ".bam") || EndsWith(name, ".sam") || EndsWith(name, ".cram")
  }

  /** The test that decides, before anything is staged, whether minimap2 runs:
      an uploaded (not example) reads file with a FASTQ suffix. */
  predicate UploadedFastq(f: FileRef)
  {
    f != ExampleData && f.Uploaded? && IsFastqName(f.file.name)
  }

  /** How the reads file is staged. */
  datatype Kind = Example | Aligned | RawReads | Unrecognised

  /** The staging branches, in the order the source tests them: the example
      sentinel, then the aligned suffixes, then the FASTQ test, then the rest. */
  function Classify(f: FileRef): Kind
    requires f != NoFile
  {
    match f
    case ExampleData => Example
    case Uploaded(u) =>
      if IsAlignedName(u.name) then Aligned
      else if UploadedFastq(f) then RawReads
      else Unrecognised
  }

  /** No name has both an aligned suffix and a FASTQ suffix: the aligned ones
      end in 'm', the FASTQ ones in 'q' or 'z'. */
  lemma SuffixesDisjoint(name: string)
    ensures !(IsFastqName(name) && IsAlignedName(name))
  {
    if IsFastqName(name) && IsAlignedName(name) {
      var last := name[|name| - 1];
      assert last == 'q' || last == 'z' by {
        if EndsWith(name, ".fastq") { EndsWithLast(name, ".fastq"); }
        else if EndsWith(name, ".fq") { EndsWithLast(name, ".fq"); }
        else if EndsWith(name, ".fastq.gz") { EndsWithLast(name, ".fastq.gz"); }
        else { EndsWithLast(name, ".fq.gz"); }
      }
      assert last == 'm' by {
        if EndsWith(name, ".bam") { EndsWithLast(name, ".bam"); }
        else if EndsWith(name, ".sam") { EndsWithLast(name, ".sam"); }
        else { EndsWithLast(name, ".cram"); }
      }
    }
  }

  /** The staging branch and the command agree on whether minimap2 runs:
      staging takes the FASTQ branch exactly when the early FASTQ test held,
      even though it tests the aligned suffixes first. */
  lemma ClassifyAgreesWithFastqTest(f: FileRef)
    requires f != NoFile
    ensures Classify(f) == RawReads <==> UploadedFastq(f)
    ensures Classify(f) == Aligned <==> f.Uploaded? && IsAlignedName(f.file.name)
  {
    if f.Uploaded? {
      SuffixesDisjoint(f.file.name);
    }
  }

  /** The per-field validity the setters record. The primer offset is always valid. */
  function NonNegative(d: Decimal): (valid: bool)
    ensures valid <==> d.mantissa >= 0
  {
    ValueSign(d);
    !(RealValue(d) < 0.0)
  }

  function InUnitInterval(d: Decimal): (valid: bool)
    ensures valid <==> 0 <= d.mantissa <= Pow10(d.scale)
  {
    ValueSign(d);
    ValueAtMostOne(d);
    !(RealValue(d) < 0.0 || RealValue(d) > 1.0)
  }

  /** `value.length === 1`, with JavaScript's UTF-16 length. */
  predicate IsSingleChar(s: string): (single: bool)
    ensures single <==> |s| == 1 && s[0] as int <= 0xFFFF
  {
    Utf16LengthOne(s);
    Utf16Length(s) == 1
  }

  /** The number a comparison such as `value < 0` sees: a number itself, a
      text coerced by `Number(...)`; `None` stands for `NaN`, with which every
      comparison is false. */
  function Coerced(v: Value): Option<Decimal>
  {
    match v
    case Number(d) => Some(d)
    case Text(s) => ParseDecimal(s)
  }

  /** Whether the setter for `f` would accept `v`. A `NaN` passes the numeric
      tests (both comparisons are false); a number has no one-character length. */
  function FieldValid(f: Field, v: Value): (valid: bool)
    ensures f == PrimerOffset ==> valid
    ensures f == AmbigSymbol ==> (valid <==> v.Text? && IsSingleChar(v.s))
    ensures (f == MinBaseQuality || f == MinDepth) && v.Number? ==> (valid <==> NonNegative(v.n))
    ensures f == MinFreq && v.Number? ==> (valid <==> InUnitInterval(v.n))
  {
    match f
    case PrimerOffset => true
    case MinBaseQuality | MinDepth =>
      (match Coerced(v) case Some(d) => NonNegative(d) case None => true)
    case MinFreq =>
      (match Coerced(v) case Some(d) => InUnitInterval(d) case None => true)
    case AmbigSymbol => v.Text? && IsSingleChar(v.s)
  }

  /** Every field of the initial form is valid. */
  lemma InitialParamsValid()
    ensures forall f :: FieldValid(f, InitialParams().Get(f))
  {
    assert Pow10(0) == 1;
  }

  /** The boundary cases: -1 is not a valid depth, 0 is; 1.0 is a valid
      frequency, 1.0001 and -0.0001 are not; only one-character symbols are
      valid, and a character outside the Basic Multilingual Plane is two. */
  lemma ValidityBoundaries()
    ensures !NonNegative(Decimal(-1, 0)) && NonNegative(Decimal(0, 0))
    ensures InUnitInterval(Decimal(10, 1))
    ensures !InUnitInterval(Decimal(10001, 4)) && !InUnitInterval(Decimal(-1, 4))
    ensures !IsSingleChar("") && IsSingleChar("N") && !IsSingleChar("NN")
    ensures IsSingleChar("\U{E9}") && !IsSingleChar("\U{1F600}")
  {
    assert Pow10(4) == 10000 && Pow10(1) == 10;
  }

  /** What one press of "Load Example Data Files" makes of a file slot: the
      sentinel is replaced by the file input's current file, anything else by
      the sentinel. */
  function Toggled(current: FileRef, chosen: Option<Upload>): (r: FileRef)
    ensures r != current
    ensures r == ExampleData <==> current != ExampleData
  {
    if current == ExampleData then FromInput(chosen) else ExampleData
  }

  /** Pressing twice restores a slot that held the file input's file. */
  lemma ToggleTwice(current: FileRef, chosen: Option<Upload>)
    requires current == ExampleData || current == FromInput(chosen)
    ensures Toggled(Toggled(current, chosen), chosen) == current
  {
  }
}
