// The arguments the runtime passes to dex2oat so that the code it compiles
// matches the running runtime: the compiler filter when the runtime only
// interprets, the implicit checks the runtime relies on (as a runtime
// argument), the instruction set the runtime was built for, and the
// default instruction-set features.
//
// The runtime's settings are an input (RuntimeFeatures); the instruction
// set the runtime binary was compiled for, chosen by the preprocessor in
// the source, is the BuildArch parameter.
module Dex2OatArgs {

  datatype Option<T> = None | Some(value: T)

  /** What the runtime reports about itself. */
  datatype RuntimeFeatures = RuntimeFeatures(
    interpretOnly: bool,
    explicitNullChecks: bool,
    explicitSuspendChecks: bool,
    explicitStackOverflowChecks: bool,
    defaultInstructionSetFeatures: string)

  /** The architecture the runtime itself was compiled for; Other names one without an --instruction-set argument. */
  datatype BuildArch = Arm | Arm64 | X86 | X86_64 | Mips | Other

  const kInterpretOnlyFilter := "--compiler-filter=interpret-only"
  const kRuntimeArg := "--runtime-arg"
  const kImplicitChecks := "-implicit-checks"
  const kFeaturesArg := "--instruction-set-features="

  /** The --instruction-set argument of each build architecture. */
  function InstructionSetArg(arch: BuildArch): (r: Option<string>)
    ensures r.None? <==> arch == Other
  {
    match arch
    case Arm => Some("--instruction-set=arm")
    case Arm64 => Some("--instruction-set=arm64")
    case X86 => Some("--instruction-set=x86")
    case X86_64 => Some("--instruction-set=x86_64")
    case Mips => Some("--instruction-set=mips")
    case Other => None
  }

  /** The checks the runtime does implicitly (not explicitly), in the order null, suspend, stack. */
  function ImplicitCheckNames(f: RuntimeFeatures): seq<string>
  {
    (if !f.explicitNullChecks then ["null"] else []) +
    (if !f.explicitSuspendChecks then ["suspend"] else []) +
    (if !f.explicitStackOverflowChecks then ["stack"] else [])
  }

  /** The names separated by commas. */
  function Join(names: seq<string>): string
  {
    if |names| == 0 then ""
    else if |names| == 1 then names[0]
    else names[0] + "," + Join(names[1..])
  }

  /**
   * The -implicit-checks runtime argument: a colon, then the implicit
   * checks separated by commas, or ":none" when every check is explicit.
   */
  function CheckString(f: RuntimeFeatures): string
  {
    var names := ImplicitCheckNames(f);
    kImplicitChecks + (if |names| == 0 then ":none" else ":" + Join(names))
  }

  function OptionalArg(arg: Option<string>): seq<string>
  {
    if arg.Some? then [arg.value] else []
  }

  /** Everything AddCurrentRuntimeFeaturesAsDex2OatArguments appends, in order. */
  function Dex2OatFeatureArgs(f: RuntimeFeatures, arch: BuildArch): seq<string>
  {
    (if f.interpretOnly then [kInterpretOnlyFilter] else []) +
    [kRuntimeArg, CheckString(f)] +
    OptionalArg(InstructionSetArg(arch)) +
    [kFeaturesArg + f.defaultInstructionSetFeatures]
  }

  /** The argument vector the caller hands in; arguments are only appended. */
  class ArgumentVector {
    var elements: seq<string>

    constructor ()
      ensures elements == []
    {
      elements := [];
    }

    method PushBack(s: string)
      modifies this
      ensures elements == old(elements) + [s]
    {
      elements := elements + [s];
    }
  }

  /**
   * What checkstr holds after the checks named so far: the prefix, then a
   * colon and the names separated by commas; the next separator is a colon
   * until a check has been added and a comma after.
   */
  ghost predicate CheckState(checkstr: string, checksep: char, nchecks: int, names: seq<string>)
  {
    && nchecks == |names|
    && checksep == (if nchecks == 0 then ':' else ',')
    && checkstr == kImplicitChecks + (if nchecks == 0 then "" else ":" + Join(names))
  }

  /** Adding one more check to checkstr as the source does keeps CheckState. */
  lemma AddCheckKeeps(checkstr: string, checksep: char, nchecks: int, names: seq<string>, name: string)
    requires CheckState(checkstr, checksep, nchecks, names)
    ensures CheckState(checkstr + [checksep] + name, ',', nchecks + 1, names + [name])
  {
    if nchecks == 0 {
      assert Join(names + [name]) == name by {
        assert names + [name] == [name];
      }
    } else {
      JoinAppend(names, name);
    }
  }

  /** Appending a name to a non-empty list appends a comma and the name. */
  lemma {:induction false} JoinAppend(names: seq<string>, name: string)
    requires |names| > 0
    ensures Join(names + [name]) == Join(names) + "," + name
  {
    var all := names + [name];
    if |names| == 1 {
      assert all[1..] == [name];
    } else {
      assert all[1..] == names[1..] + [name];
      JoinAppend(names[1..], name);
    }
  }

  /**
   * The implicit-checks argument, built as the runtime builds it: the
   * prefix, then for each implicit check in the order null, suspend, stack
   * the current separator (a colon first, a comma after) and its name, and
   * ":none" when no check was added.
   */
  method ImplicitChecksArgument(f: RuntimeFeatures) returns (checkstr: string)
    ensures checkstr == CheckString(f)
  {
    checkstr := kImplicitChecks;
    var nchecks := 0;
    var checksep := ':';
    ghost var names: seq<string> := [];

    if !f.explicitNullChecks {
      AddCheckKeeps(checkstr, checksep, nchecks, names, "null");
      checkstr := checkstr + [checksep];
      checksep := ',';
      checkstr := checkstr + "null";
      nchecks := nchecks + 1;
      names := names + ["null"];
    }
    assert CheckState(checkstr, checksep, nchecks, names);
    if !f.explicitSuspendChecks {
      AddCheckKeeps(checkstr, checksep, nchecks, names, "suspend");
      checkstr := checkstr + [checksep];
      checksep := ',';
      checkstr := checkstr + "suspend";
      nchecks := nchecks + 1;
      names := names + ["suspend"];
    }
    assert CheckState(checkstr, checksep, nchecks, names);
    if !f.explicitStackOverflowChecks {
      AddCheckKeeps(checkstr, checksep, nchecks, names, "stack");
      checkstr := checkstr + [checksep];
      checksep := ',';
      checkstr := checkstr + "stack";
      nchecks := nchecks + 1;
      names := names + ["stack"];
    }
    assert CheckState(checkstr, checksep, nchecks, names);
    assert names == ImplicitCheckNames(f);

    if nchecks == 0 {
      checkstr := checkstr + ":none";
    }
  }

  /**
   * Appends the compiler filter (only when interpreting), --runtime-arg and
   * the implicit-checks string, the build's --instruction-set argument, and
   * the default instruction-set features.
   */
  method AddCurrentRuntimeFeaturesAsDex2OatArguments(f: RuntimeFeatures, arch: BuildArch, argv: ArgumentVector)
    modifies argv
    ensures argv.elements == old(argv.elements) + Dex2OatFeatureArgs(f, arch)
  {
    ghost var before := argv.elements;
    if f.interpretOnly {
      argv.PushBack(kInterpretOnlyFilter);
    }
    argv.PushBack(kRuntimeArg);
    ghost var filter := if f.interpretOnly then [kInterpretOnlyFilter] else [];
    assert argv.elements == before + filter + [kRuntimeArg];
    var checkstr := ImplicitChecksArgument(f);
    argv.PushBack(checkstr);

    // The build's own instruction set, fixed when the runtime is compiled.
    var isaArg := InstructionSetArg(arch);
    ghost var checked := argv.elements;
    ghost var isa := OptionalArg(isaArg);
    if isaArg.Some? {
      argv.PushBack(isaArg.value);
    } else {
      assert checked + isa == checked;
    }

    var features := kFeaturesArg;
    features := features + f.defaultInstructionSetFeatures;
    argv.PushBack(features);
    assert checked == before + filter + [kRuntimeArg] + [checkstr];
    assert argv.elements == checked + isa + [features];
    Regrouped(before, filter, kRuntimeArg, checkstr, isa, features);
  }

  lemma Regrouped(before: seq<string>, filter: seq<string>, a: string, b: string, isa: seq<string>, c: string)
    ensures before + filter + [a] + [b] + isa + [c] == before + (filter + [a, b] + isa + [c])
  {
  }

  // ---------------------------------------------------------------------
  // Reading the implicit-checks string back.

  /** Which checks are implicit. */
  datatype ImplicitChecks = ImplicitChecks(nullChecks: bool, suspendChecks: bool, stackChecks: bool)

  /** The implicit checks the runtime's settings select. */
  function ImplicitChecksOf(f: RuntimeFeatures): ImplicitChecks
  {
    ImplicitChecks(!f.explicitNullChecks, !f.explicitSuspendChecks, !f.explicitStackOverflowChecks)
  }

  /** The comma-separated fields of s; always at least one. */
  function Split(s: string): (r: seq<string>)
    ensures |r| >= 1
  {
    if |s| == 0 then [""]
    else if s[0] == ',' then [""] + Split(s[1..])
    else
      var rest := Split(s[1..]);
      [[s[0]] + rest[0]] + rest[1..]
  }

  /** Records each known check name in acc; None on an unknown name. */
  function ParseCheckNames(names: seq<string>, acc: ImplicitChecks): Option<ImplicitChecks>
  {
    if |names| == 0 then Some(acc)
    else if names[0] == "null" then ParseCheckNames(names[1..], acc.(nullChecks := true))
    else if names[0] == "suspend" then ParseCheckNames(names[1..], acc.(suspendChecks := true))
    else if names[0] == "stack" then ParseCheckNames(names[1..], acc.(stackChecks := true))
    else None
  }

  /**
   * The reader of an -implicit-checks argument: the prefix and a colon,
   * then "none" or check names separated by commas.
   */
  function ParseCheckString(s: string): Option<ImplicitChecks>
  {
    var prefix := kImplicitChecks + ":";
    if |s| < |prefix| || s[..|prefix|] != prefix then None
    else
      var body := s[|prefix|..];
      if body == "none" then Some(ImplicitChecks(false, false, false))
      else ParseCheckNames(Split(body), ImplicitChecks(false, false, false))
  }

  /** A field without a comma splits into itself. */
  lemma {:induction false} SplitField(a: string)
    requires forall i :: 0 <= i < |a| ==> a[i] != ','
    ensures Split(a) == [a]
  {
    if |a| > 0 {
      SplitField(a[1..]);
      assert [a[0]] + a[1..] == a;
    }
  }

  /** A field without a comma, then a comma, splits off as the first field. */
  lemma {:induction false} SplitFirstField(a: string, t: string)
    requires forall i :: 0 <= i < |a| ==> a[i] != ','
    ensures Split(a + "," + t) == [a] + Split(t)
  {
    if |a| == 0 {
      assert a + "," + t == [','] + t;
      assert (a + "," + t)[1..] == t;
    } else {
      assert (a + "," + t)[1..] == a[1..] + "," + t;
      SplitFirstField(a[1..], t);
      assert [a[0]] + a[1..] == a;
    }
  }

  /** Split undoes Join when no name holds a comma. */
  lemma {:induction false} SplitJoin(names: seq<string>)
    requires |names| >= 1
    requires forall n, i :: n in names && 0 <= i < |n| ==> n[i] != ','
    ensures Split(Join(names)) == names
  {
    if |names| == 1 {
      SplitField(names[0]);
    } else {
      SplitFirstField(names[0], Join(names[1..]));
      SplitJoin(names[1..]);
    }
  }

  /**
   * The implicit-checks string is read back as exactly the checks the
   * runtime does implicitly: no two settings give the same string, and
   * ":none" stands for no implicit check.
   */
  lemma CheckStringRoundTrip(f: RuntimeFeatures)
    ensures ParseCheckString(CheckString(f)) == Some(ImplicitChecksOf(f))
  {
    var names := ImplicitCheckNames(f);
    var prefix := kImplicitChecks + ":";
    var s := CheckString(f);
    if |names| == 0 {
      assert s == prefix + "none";
    } else {
      assert s == prefix + Join(names);
      assert s[..|prefix|] == prefix;
      assert s[|prefix|..] == Join(names);
      SplitJoin(names);
      assert Join(names) != "none" by {
        JoinStart(names);
      }
      ParseImplicitCheckNames(f);
    }
  }

  /** Reading the names of the implicit checks gives back which checks are implicit. */
  lemma ParseImplicitCheckNames(f: RuntimeFeatures)
    ensures ParseCheckNames(ImplicitCheckNames(f), ImplicitChecks(false, false, false)) == Some(ImplicitChecksOf(f))
  {
    var none := ImplicitChecks(false, false, false);
    var names := ImplicitCheckNames(f);
    var stack := if !f.explicitStackOverflowChecks then ["stack"] else [];
    var suspend := (if !f.explicitSuspendChecks then ["suspend"] else []) + stack;
    assert ParseCheckNames(stack, none.(nullChecks := !f.explicitNullChecks, suspendChecks := !f.explicitSuspendChecks)) == Some(ImplicitChecksOf(f));
    assert ParseCheckNames(suspend, none.(nullChecks := !f.explicitNullChecks)) == Some(ImplicitChecksOf(f));
  }

  /** Join starts with its first name. */
  lemma JoinStart(names: seq<string>)
    requires |names| >= 1
    ensures |Join(names)| >= |names[0]| && Join(names)[..|names[0]|] == names[0]
  {
  }

  /** "-implicit-checks:none" exactly when every check is explicit. */
  lemma NoneExactlyWhenAllExplicit(f: RuntimeFeatures)
    ensures CheckString(f) == "-implicit-checks:none" <==>
              f.explicitNullChecks && f.explicitSuspendChecks && f.explicitStackOverflowChecks
  {
    CheckStringRoundTrip(f);
    var none := "-implicit-checks:none";
    if CheckString(f) == none {
      assert none[..17] == kImplicitChecks + ":" && none[17..] == "none";
    }
    if ImplicitCheckNames(f) == [] {
      assert CheckString(f) == none;
    }
  }

  // ---------------------------------------------------------------------
  // Where each argument goes.

  /**
   * --runtime-arg comes immediately before the implicit-checks string, after
   * the compiler filter when there is one; the instruction set follows when
   * the build has one; the features argument is last.
   */
  lemma ArgumentPositions(f: RuntimeFeatures, arch: BuildArch)
    ensures var args := Dex2OatFeatureArgs(f, arch);
            var k := if f.interpretOnly then 1 else 0;
            && |args| == k + 3 + (if arch == Other then 0 else 1)
            && (f.interpretOnly ==> args[0] == kInterpretOnlyFilter)
            && args[k] == kRuntimeArg && args[k + 1] == CheckString(f)
            && (arch != Other ==> args[k + 2] == InstructionSetArg(arch).value)
            && args[|args| - 1] == kFeaturesArg + f.defaultInstructionSetFeatures
  {
  }

  /** The compiler filter is passed only in interpret-only mode. */
  lemma FilterOnlyWhenInterpreting(f: RuntimeFeatures, arch: BuildArch)
    ensures kInterpretOnlyFilter in Dex2OatFeatureArgs(f, arch) <==> f.interpretOnly
  {
    var args := Dex2OatFeatureArgs(f, arch);
    if !f.interpretOnly {
      // The filter differs from every other argument in its second or third character.
      assert CheckString(f)[1] != kInterpretOnlyFilter[1];
      assert (kFeaturesArg + f.defaultInstructionSetFeatures)[2] != kInterpretOnlyFilter[2];
      assert forall i | 0 <= i < |args| :: args[i][2] != kInterpretOnlyFilter[2] || args[i][1] != kInterpretOnlyFilter[1];
    }
  }
}
