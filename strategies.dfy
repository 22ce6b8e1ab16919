/** The download strategies of `download_package_with_deps`
    (download_wheels.py:130-175): a cross product of platforms, Python
    versions, ABI candidates, implementations and binary flags, without the
    pure-Python/compiled-ABI pairings, closed by one empty strategy that
    lets pip use the running interpreter's own tags. */
module Strategies {
  import opened Seqs
  import opened PyStr

  /** The pip arguments of one attempt; `[]` means "the current environment". */
  type Strategy = seq<string>

  /** The script's configuration lists (download_wheels.py:131-137). */
  const PLATFORMS: seq<string> := ["any", "win_amd64"]
  const PYTHON_VERSIONS: seq<string> := ["3.13", "3.12", "3.11", "3", "3.14", "3.15", "3.16"]
  const IMPLEMENTATIONS: seq<string> := ["cp", "py"]
  const BINARY_TYPES: seq<string> := ["--only-binary=:all:"]

  /** An ABI tag that names a CPython build or the stable ABI. */
  predicate IsCompiledAbi(abi: string) {
    StartsWith(abi, "cp") || StartsWith(abi, "abi")
  }

  /** The version-specific ABI tag (download_wheels.py:147-155): a dotted
      version gives `cp` and the version without dots, a one-character
      version gives `abi` and the version, anything else `cp` and the
      version. Every derived tag is a compiled tag and holds no dot. */
  function AbiSpecific(version: string): (abi: string)
    ensures IsCompiledAbi(abi)
  {
    if '.' in version then "cp" + Remove(version, '.')
    else if |version| == 1 then "abi" + version
    else "cp" + version
  }

  /** The derived tag is the prefix `abi` (for a one-character version) or
      `cp`, then the version without its dots; so it holds no dot. */
  lemma AbiSpecificForm(version: string)
    ensures var abi := AbiSpecific(version);
      '.' !in abi
      && abi == (if '.' !in version && |version| == 1 then "abi" else "cp") + Remove(version, '.')
  {
    var prefix := if '.' !in version && |version| == 1 then "abi" else "cp";
    var digits := Remove(version, '.');
    assert '.' !in prefix;
    assert AbiSpecific(version) == prefix + digits;
    assert '.' !in prefix + digits;
  }

  /** The tags the script derives for its own versions. */
  lemma AbiSpecificExamples()
    ensures AbiSpecific("3.13") == "cp313"
    ensures AbiSpecific("3") == "abi3"
    ensures AbiSpecific("313") == "cp313"
  {
    assert '.' in "3.13";
    assert Remove("3.13", '.') == "313" by {
      assert "3.13"[1..] == ".13";
      assert ".13"[1..] == "13";
      assert Remove("13", '.') == "13";
    }
  }

  /** The two ABI candidates of a version (download_wheels.py:157). */
  function AbiCandidates(version: string): seq<string> {
    ["none", AbiSpecific(version)]
  }

  /** The skipped combination (download_wheels.py:163): implementation `py`
      with an ABI starting `cp` or `abi`. */
  predicate Pruned(implementation: string, abi: string) {
    implementation == "py" && IsCompiledAbi(abi)
  }

  /** One strategy's nine pip arguments (download_wheels.py:170). */
  function MakeStrategy(platform: string, version: string, abi: string,
                        implementation: string, binaryType: string): Strategy
  {
    ["--platform", platform, "--python-version", version, "--abi", abi,
     "--implementation", implementation, binaryType]
  }

  // The cross product, one function per loop of download_wheels.py:144-171,
  // each defined on a prefix of its list so that a loop's invariant can say
  // "the strategies of the elements seen so far".

  /** The innermost loop: one strategy per binary flag, in order. */
  function ForBinaryTypes(platform: string, version: string, abi: string,
                          implementation: string, binaryTypes: seq<string>): (strategies: seq<Strategy>)
    ensures |strategies| == |binaryTypes|
    ensures forall i :: 0 <= i < |strategies| ==>
      strategies[i] == MakeStrategy(platform, version, abi, implementation, binaryTypes[i])
  {
    if binaryTypes == [] then []
    else ForBinaryTypes(platform, version, abi, implementation, binaryTypes[..|binaryTypes| - 1])
         + [MakeStrategy(platform, version, abi, implementation, binaryTypes[|binaryTypes| - 1])]
  }

  function ForImplementations(platform: string, version: string, abi: string,
                              implementations: seq<string>, binaryTypes: seq<string>): seq<Strategy>
  {
    if implementations == [] then []
    else
      var implementation := implementations[|implementations| - 1];
      ForImplementations(platform, version, abi, implementations[..|implementations| - 1], binaryTypes)
      + (if Pruned(implementation, abi) then []
         else ForBinaryTypes(platform, version, abi, implementation, binaryTypes))
  }

  function ForAbis(platform: string, version: string, abis: seq<string>,
                   implementations: seq<string>, binaryTypes: seq<string>): seq<Strategy>
  {
    if abis == [] then []
    else ForAbis(platform, version, abis[..|abis| - 1], implementations, binaryTypes)
         + ForImplementations(platform, version, abis[|abis| - 1], implementations, binaryTypes)
  }

  function ForVersions(platform: string, versions: seq<string>,
                       implementations: seq<string>, binaryTypes: seq<string>): seq<Strategy>
  {
    if versions == [] then []
    else
      var version := versions[|versions| - 1];
      ForVersions(platform, versions[..|versions| - 1], implementations, binaryTypes)
      + ForAbis(platform, version, AbiCandidates(version), implementations, binaryTypes)
  }

  function ForPlatforms(platforms: seq<string>, versions: seq<string>,
                        implementations: seq<string>, binaryTypes: seq<string>): seq<Strategy>
  {
    if platforms == [] then []
    else ForPlatforms(platforms[..|platforms| - 1], versions, implementations, binaryTypes)
         + ForVersions(platforms[|platforms| - 1], versions, implementations, binaryTypes)
  }

  /** The whole strategy list: the cross product, then the empty strategy.
      It is never empty and always ends with `[]`. */
  function Generate(platforms: seq<string>, versions: seq<string>,
                    implementations: seq<string>, binaryTypes: seq<string>): (strategies: seq<Strategy>)
    ensures |strategies| > 0 && strategies[|strategies| - 1] == []
  {
    ForPlatforms(platforms, versions, implementations, binaryTypes) + [[]]
  }

  // One more element of a list adds the strategies of that element.

  lemma ForPlatformsStep(platforms: seq<string>, i: nat, versions: seq<string>,
                         implementations: seq<string>, binaryTypes: seq<string>)
    requires i < |platforms|
    ensures ForPlatforms(platforms[..i + 1], versions, implementations, binaryTypes)
         == ForPlatforms(platforms[..i], versions, implementations, binaryTypes)
            + ForVersions(platforms[i], versions, implementations, binaryTypes)
  {
    PrefixOfPrefix(platforms, i);
  }

  lemma ForVersionsStep(platform: string, versions: seq<string>, i: nat,
                        implementations: seq<string>, binaryTypes: seq<string>)
    requires i < |versions|
    ensures ForVersions(platform, versions[..i + 1], implementations, binaryTypes)
         == ForVersions(platform, versions[..i], implementations, binaryTypes)
            + ForAbis(platform, versions[i], AbiCandidates(versions[i]), implementations, binaryTypes)
  {
    PrefixOfPrefix(versions, i);
  }

  lemma ForAbisStep(platform: string, version: string, abis: seq<string>, i: nat,
                    implementations: seq<string>, binaryTypes: seq<string>)
    requires i < |abis|
    ensures ForAbis(platform, version, abis[..i + 1], implementations, binaryTypes)
         == ForAbis(platform, version, abis[..i], implementations, binaryTypes)
            + ForImplementations(platform, version, abis[i], implementations, binaryTypes)
  {
    PrefixOfPrefix(abis, i);
  }

  lemma ForImplementationsStep(platform: string, version: string, abi: string,
                               implementations: seq<string>, i: nat, binaryTypes: seq<string>)
    requires i < |implementations|
    ensures ForImplementations(platform, version, abi, implementations[..i + 1], binaryTypes)
         == ForImplementations(platform, version, abi, implementations[..i], binaryTypes)
            + (if Pruned(implementations[i], abi) then []
               else ForBinaryTypes(platform, version, abi, implementations[i], binaryTypes))
  {
    PrefixOfPrefix(implementations, i);
  }

  lemma ForBinaryTypesStep(platform: string, version: string, abi: string, implementation: string,
                           binaryTypes: seq<string>, i: nat)
    requires i < |binaryTypes|
    ensures ForBinaryTypes(platform, version, abi, implementation, binaryTypes[..i + 1])
         == ForBinaryTypes(platform, version, abi, implementation, binaryTypes[..i])
            + [MakeStrategy(platform, version, abi, implementation, binaryTypes[i])]
  {
    PrefixOfPrefix(binaryTypes, i);
  }

  /** The strategy-building loops of download_wheels.py:142-174: platforms,
      then versions, then the version's ABI candidates; the two innermost
      loops are `ImplementationStrategies`. */
  method BuildStrategies(platforms: seq<string>, versions: seq<string>,
                         implementations: seq<string>, binaryTypes: seq<string>)
    returns (strategies: seq<Strategy>)
    ensures strategies == Generate(platforms, versions, implementations, binaryTypes)
  {
    strategies := [];
    for pi := 0 to |platforms|
      invariant strategies == ForPlatforms(platforms[..pi], versions, implementations, binaryTypes)
    {
      var platform := platforms[pi];
      ghost var beforePlatform := strategies;
      for vi := 0 to |versions|
        invariant strategies == beforePlatform + ForVersions(platform, versions[..vi], implementations, binaryTypes)
      {
        var version := versions[vi];
        var specificAbis := AbiCandidates(version);
        ghost var beforeVersion := strategies;
        for ai := 0 to |specificAbis|
          invariant strategies == beforeVersion + ForAbis(platform, version, specificAbis[..ai], implementations, binaryTypes)
        {
          var added := ImplementationStrategies(platform, version, specificAbis[ai], implementations, binaryTypes);
          ForAbisStep(platform, version, specificAbis, ai, implementations, binaryTypes);
          AppendAssoc(beforeVersion, ForAbis(platform, version, specificAbis[..ai], implementations, binaryTypes), added);
          strategies := strategies + added;
        }
        assert specificAbis[..|specificAbis|] == specificAbis;
        ForVersionsStep(platform, versions, vi, implementations, binaryTypes);
        AppendAssoc(beforePlatform, ForVersions(platform, versions[..vi], implementations, binaryTypes),
                    ForAbis(platform, version, specificAbis, implementations, binaryTypes));
      }
      assert versions[..|versions|] == versions;
      ForPlatformsStep(platforms, pi, versions, implementations, binaryTypes);
    }
    assert platforms[..|platforms|] == platforms;
    strategies := strategies + [[]];
  }

  /** The two innermost loops of download_wheels.py:160-171 for one platform,
      version and ABI: every implementation that is not pruned, with every
      binary flag. */
  method ImplementationStrategies(platform: string, version: string, abi: string,
                                  implementations: seq<string>, binaryTypes: seq<string>)
    returns (added: seq<Strategy>)
    ensures added == ForImplementations(platform, version, abi, implementations, binaryTypes)
  {
    added := [];
    for ii := 0 to |implementations|
      invariant added == ForImplementations(platform, version, abi, implementations[..ii], binaryTypes)
    {
      var implementation := implementations[ii];
      ForImplementationsStep(platform, version, abi, implementations, ii, binaryTypes);
      if Pruned(implementation, abi) {
        continue;
      }
      ghost var beforeImplementation := added;
      for bi := 0 to |binaryTypes|
        invariant added == beforeImplementation + ForBinaryTypes(platform, version, abi, implementation, binaryTypes[..bi])
      {
        var strategy := MakeStrategy(platform, version, abi, implementation, binaryTypes[bi]);
        ForBinaryTypesStep(platform, version, abi, implementation, binaryTypes, bi);
        AppendAssoc(beforeImplementation, ForBinaryTypes(platform, version, abi, implementation, binaryTypes[..bi]), [strategy]);
        added := added + [strategy];
      }
      assert binaryTypes[..|binaryTypes|] == binaryTypes;
    }
    assert implementations[..|implementations|] == implementations;
  }

  /** A strategy the generator may emit: nine arguments in the fixed layout,
      each value taken from its list, the ABI one of the version's two
      candidates, and not a pruned pairing. */
  predicate Admissible(s: Strategy, platforms: seq<string>, versions: seq<string>,
                       implementations: seq<string>, binaryTypes: seq<string>)
  {
    |s| == 9 && s[1] in platforms && AdmissibleOn(s, s[1], versions, implementations, binaryTypes)
  }

  /** `Admissible` for one fixed platform. */
  predicate AdmissibleOn(s: Strategy, platform: string, versions: seq<string>,
                         implementations: seq<string>, binaryTypes: seq<string>)
  {
    |s| == 9 && s[3] in versions
    && Combination(s, platform, s[3], AbiCandidates(s[3]), implementations, binaryTypes)
  }

  /** A strategy for one fixed platform and version whose ABI is taken from
      `abis`. */
  predicate Combination(s: Strategy, platform: string, version: string, abis: seq<string>,
                        implementations: seq<string>, binaryTypes: seq<string>)
  {
    |s| == 9 && s == MakeStrategy(platform, version, s[5], s[7], s[8])
    && s[5] in abis && s[7] in implementations && !Pruned(s[7], s[5]) && s[8] in binaryTypes
  }

  lemma {:induction false} InForBinaryTypes(s: Strategy, platform: string, version: string, abi: string,
                                            implementation: string, binaryTypes: seq<string>)
    ensures s in ForBinaryTypes(platform, version, abi, implementation, binaryTypes)
        <==> |s| == 9 && s == MakeStrategy(platform, version, abi, implementation, s[8]) && s[8] in binaryTypes
  {
    if binaryTypes != [] {
      InForBinaryTypes(s, platform, version, abi, implementation, binaryTypes[..|binaryTypes| - 1]);
      if |s| == 9 { InSnoc(s[8], binaryTypes); }
    }
  }

  lemma {:induction false} InForImplementations(s: Strategy, platform: string, version: string, abi: string,
                                                implementations: seq<string>, binaryTypes: seq<string>)
    ensures s in ForImplementations(platform, version, abi, implementations, binaryTypes)
        <==> |s| == 9 && s == MakeStrategy(platform, version, abi, s[7], s[8])
             && s[7] in implementations && !Pruned(s[7], abi) && s[8] in binaryTypes
  {
    if implementations != [] {
      var implementation := implementations[|implementations| - 1];
      InForImplementations(s, platform, version, abi, implementations[..|implementations| - 1], binaryTypes);
      InForBinaryTypes(s, platform, version, abi, implementation, binaryTypes);
      if |s| == 9 { InSnoc(s[7], implementations); }
    }
  }

  lemma {:induction false} InForAbis(s: Strategy, platform: string, version: string, abis: seq<string>,
                                     implementations: seq<string>, binaryTypes: seq<string>)
    ensures s in ForAbis(platform, version, abis, implementations, binaryTypes)
        <==> Combination(s, platform, version, abis, implementations, binaryTypes)
  {
    if abis != [] {
      InForAbis(s, platform, version, abis[..|abis| - 1], implementations, binaryTypes);
      InForImplementations(s, platform, version, abis[|abis| - 1], implementations, binaryTypes);
      if |s| == 9 { InSnoc(s[5], abis); }
    }
  }

  lemma {:induction false} InForVersions(s: Strategy, platform: string, versions: seq<string>,
                                         implementations: seq<string>, binaryTypes: seq<string>)
    ensures s in ForVersions(platform, versions, implementations, binaryTypes)
        <==> AdmissibleOn(s, platform, versions, implementations, binaryTypes)
  {
    if versions != [] {
      var version := versions[|versions| - 1];
      InForVersions(s, platform, versions[..|versions| - 1], implementations, binaryTypes);
      InForAbis(s, platform, version, AbiCandidates(version), implementations, binaryTypes);
      AdmissibleOnSnoc(s, platform, versions, implementations, binaryTypes);
    }
  }

  /** A strategy admissible for some versions is admissible for all but the
      last, or a combination for the last. */
  lemma AdmissibleOnSnoc(s: Strategy, platform: string, versions: seq<string>,
                         implementations: seq<string>, binaryTypes: seq<string>)
    requires versions != []
    ensures var version := versions[|versions| - 1];
      AdmissibleOn(s, platform, versions, implementations, binaryTypes)
      <==> AdmissibleOn(s, platform, versions[..|versions| - 1], implementations, binaryTypes)
           || Combination(s, platform, version, AbiCandidates(version), implementations, binaryTypes)
  {
    if |s| == 9 {
      InSnoc(s[3], versions);
    }
  }

  /** Every admissible combination is emitted, and nothing else. */
  lemma {:induction false} InForPlatforms(s: Strategy, platforms: seq<string>, versions: seq<string>,
                                          implementations: seq<string>, binaryTypes: seq<string>)
    ensures s in ForPlatforms(platforms, versions, implementations, binaryTypes)
        <==> Admissible(s, platforms, versions, implementations, binaryTypes)
  {
    if platforms != [] {
      InForPlatforms(s, platforms[..|platforms| - 1], versions, implementations, binaryTypes);
      InForVersions(s, platforms[|platforms| - 1], versions, implementations, binaryTypes);
      AdmissibleSnoc(s, platforms, versions, implementations, binaryTypes);
    }
  }

  /** A strategy admissible for some platforms is admissible for all but the
      last, or admissible on the last. */
  lemma AdmissibleSnoc(s: Strategy, platforms: seq<string>, versions: seq<string>,
                       implementations: seq<string>, binaryTypes: seq<string>)
    requires platforms != []
    ensures Admissible(s, platforms, versions, implementations, binaryTypes)
        <==> Admissible(s, platforms[..|platforms| - 1], versions, implementations, binaryTypes)
             || AdmissibleOn(s, platforms[|platforms| - 1], versions, implementations, binaryTypes)
  {
    if |s| == 9 {
      InSnoc(s[1], platforms);
    }
  }

  /** The generated list is exactly the admissible strategies plus the empty
      one; the empty strategy is the last entry and appears nowhere before
      it, and every earlier entry has nine arguments. */
  lemma GenerateShape(platforms: seq<string>, versions: seq<string>,
                      implementations: seq<string>, binaryTypes: seq<string>)
    ensures var g := Generate(platforms, versions, implementations, binaryTypes);
      (forall s :: s in g <==> s == [] || Admissible(s, platforms, versions, implementations, binaryTypes))
      && g[|g| - 1] == []
      && (forall j :: 0 <= j < |g| - 1 ==> |g[j]| == 9)
  {
    var cross := ForPlatforms(platforms, versions, implementations, binaryTypes);
    var g := Generate(platforms, versions, implementations, binaryTypes);
    forall s ensures s in cross <==> Admissible(s, platforms, versions, implementations, binaryTypes) {
      InForPlatforms(s, platforms, versions, implementations, binaryTypes);
    }
    forall j | 0 <= j < |g| - 1 ensures |g[j]| == 9 {
      assert g[j] == cross[j];
      assert g[j] in cross;
    }
  }

  /** No emitted strategy pairs implementation `py` with a compiled ABI; in
      fact `py` only ever appears with ABI `none`. */
  lemma NoPurePythonWithCompiledAbi(platforms: seq<string>, versions: seq<string>,
                                    implementations: seq<string>, binaryTypes: seq<string>)
    ensures var g := Generate(platforms, versions, implementations, binaryTypes);
      forall j :: 0 <= j < |g| && g[j] != [] ==>
        |g[j]| == 9 && !Pruned(g[j][7], g[j][5]) && (g[j][7] == "py" ==> g[j][5] == "none")
  {
    var g := Generate(platforms, versions, implementations, binaryTypes);
    GenerateShape(platforms, versions, implementations, binaryTypes);
    forall j | 0 <= j < |g| && g[j] != []
      ensures |g[j]| == 9 && !Pruned(g[j][7], g[j][5]) && (g[j][7] == "py" ==> g[j][5] == "none")
    {
      assert g[j] in g;
    }
  }

  /** Order across platforms: the strategies of one list of platforms
      followed by another are those of the first, then those of the second. */
  lemma {:induction false} ForPlatformsAppend(a: seq<string>, b: seq<string>, versions: seq<string>,
                                              implementations: seq<string>, binaryTypes: seq<string>)
    ensures ForPlatforms(a + b, versions, implementations, binaryTypes)
         == ForPlatforms(a, versions, implementations, binaryTypes)
            + ForPlatforms(b, versions, implementations, binaryTypes)
    decreases |b|
  {
    if b == [] {
      assert a + b == a;
    } else {
      var c := a + b;
      InitOfAppend(a, b);
      assert c[|c| - 1] == b[|b| - 1];
      ForPlatformsAppend(a, b[..|b| - 1], versions, implementations, binaryTypes);
      AppendAssoc(ForPlatforms(a, versions, implementations, binaryTypes),
                  ForPlatforms(b[..|b| - 1], versions, implementations, binaryTypes),
                  ForVersions(b[|b| - 1], versions, implementations, binaryTypes));
      assert ForPlatforms(c, versions, implementations, binaryTypes)
          == ForPlatforms(a + b[..|b| - 1], versions, implementations, binaryTypes)
             + ForVersions(b[|b| - 1], versions, implementations, binaryTypes);
    }
  }

  /** Order across versions within one platform. */
  lemma {:induction false} ForVersionsAppend(platform: string, a: seq<string>, b: seq<string>,
                                             implementations: seq<string>, binaryTypes: seq<string>)
    ensures ForVersions(platform, a + b, implementations, binaryTypes)
         == ForVersions(platform, a, implementations, binaryTypes)
            + ForVersions(platform, b, implementations, binaryTypes)
    decreases |b|
  {
    if b == [] {
      assert a + b == a;
    } else {
      var c := a + b;
      var version := b[|b| - 1];
      InitOfAppend(a, b);
      assert c[|c| - 1] == version;
      ForVersionsAppend(platform, a, b[..|b| - 1], implementations, binaryTypes);
      AppendAssoc(ForVersions(platform, a, implementations, binaryTypes),
                  ForVersions(platform, b[..|b| - 1], implementations, binaryTypes),
                  ForAbis(platform, version, AbiCandidates(version), implementations, binaryTypes));
      assert ForVersions(platform, c, implementations, binaryTypes)
          == ForVersions(platform, a + b[..|b| - 1], implementations, binaryTypes)
             + ForAbis(platform, version, AbiCandidates(version), implementations, binaryTypes);
    }
  }

  /** How many implementations are not `py`. */
  function NonPure(implementations: seq<string>): (n: nat)
    ensures n <= |implementations|
  {
    if implementations == [] then 0
    else NonPure(implementations[..|implementations| - 1])
         + (if implementations[|implementations| - 1] == "py" then 0 else 1)
  }

  lemma {:induction false} ForImplementationsCount(platform: string, version: string, abi: string,
                                                   implementations: seq<string>, binaryTypes: seq<string>)
    ensures |ForImplementations(platform, version, abi, implementations, binaryTypes)|
         == (if IsCompiledAbi(abi) then NonPure(implementations) else |implementations|) * |binaryTypes|
  {
    if implementations != [] {
      var init := implementations[..|implementations| - 1];
      var last := implementations[|implementations| - 1];
      var c := |binaryTypes|;
      ForImplementationsCount(platform, version, abi, init, binaryTypes);
      ForBinaryTypesCount(platform, version, abi, last, binaryTypes);
      var before := if IsCompiledAbi(abi) then NonPure(init) else |init|;
      var added := if Pruned(last, abi) then 0 else 1;
      assert (if IsCompiledAbi(abi) then NonPure(implementations) else |implementations|) == before + added;
      Distribute(before, added, c);
    }
  }

  lemma Distribute(a: int, b: int, c: int)
    ensures (a + b) * c == a * c + b * c
  {
  }

  lemma {:induction false} ForBinaryTypesCount(platform: string, version: string, abi: string,
                                               implementation: string, binaryTypes: seq<string>)
    ensures |ForBinaryTypes(platform, version, abi, implementation, binaryTypes)| == |binaryTypes|
  {
    if binaryTypes != [] {
      ForBinaryTypesCount(platform, version, abi, implementation, binaryTypes[..|binaryTypes| - 1]);
    }
  }

  lemma {:induction false} ForVersionsCount(platform: string, versions: seq<string>,
                                            implementations: seq<string>, binaryTypes: seq<string>)
    ensures |ForVersions(platform, versions, implementations, binaryTypes)|
         == |versions| * ((|implementations| + NonPure(implementations)) * |binaryTypes|)
  {
    if versions != [] {
      var perVersion := (|implementations| + NonPure(implementations)) * |binaryTypes|;
      ForVersionsCount(platform, versions[..|versions| - 1], implementations, binaryTypes);
      ForAbisCount(platform, versions[|versions| - 1], implementations, binaryTypes);
      Distribute(|versions| - 1, 1, perVersion);
    }
  }

  /** A version contributes every implementation with ABI `none` and the
      non-`py` ones with its specific ABI. */
  lemma ForAbisCount(platform: string, version: string,
                     implementations: seq<string>, binaryTypes: seq<string>)
    ensures |ForAbis(platform, version, AbiCandidates(version), implementations, binaryTypes)|
         == (|implementations| + NonPure(implementations)) * |binaryTypes|
  {
    var abis := AbiCandidates(version);
    NoneIsNotCompiled();
    ForImplementationsCount(platform, version, "none", implementations, binaryTypes);
    ForImplementationsCount(platform, version, AbiSpecific(version), implementations, binaryTypes);
    ForAbisStep(platform, version, abis, 0, implementations, binaryTypes);
    ForAbisStep(platform, version, abis, 1, implementations, binaryTypes);
    assert abis[..0] == [] && abis[..2] == abis;
    Distribute(|implementations|, NonPure(implementations), |binaryTypes|);
  }

  /** The generic ABI `none` is not a compiled tag, so it is never pruned. */
  lemma NoneIsNotCompiled()
    ensures !IsCompiledAbi("none")
  {
    assert "none"[..2] == "no";
    assert "none"[..3] == "non";
  }

  /** The list holds |platforms| * |versions| * (|implementations| + the non-`py`
      ones) * |binary flags| combinations, then the empty strategy. */
  lemma {:induction false} GenerateCount(platforms: seq<string>, versions: seq<string>,
                                         implementations: seq<string>, binaryTypes: seq<string>)
    ensures |Generate(platforms, versions, implementations, binaryTypes)|
         == |platforms| * (|versions| * ((|implementations| + NonPure(implementations)) * |binaryTypes|)) + 1
  {
    ForPlatformsCount(platforms, versions, implementations, binaryTypes);
  }

  lemma {:induction false} ForPlatformsCount(platforms: seq<string>, versions: seq<string>,
                                             implementations: seq<string>, binaryTypes: seq<string>)
    ensures |ForPlatforms(platforms, versions, implementations, binaryTypes)|
         == |platforms| * (|versions| * ((|implementations| + NonPure(implementations)) * |binaryTypes|))
  {
    if platforms != [] {
      var perPlatform := |versions| * ((|implementations| + NonPure(implementations)) * |binaryTypes|);
      ForPlatformsCount(platforms[..|platforms| - 1], versions, implementations, binaryTypes);
      ForVersionsCount(platforms[|platforms| - 1], versions, implementations, binaryTypes);
      Distribute(|platforms| - 1, 1, perPlatform);
    }
  }

  /** With the script's lists every requirement gets 2 * 7 * 3 * 1 = 42
      constrained attempts and one unconstrained attempt. */
  lemma ScriptStrategyCount()
    ensures |Generate(PLATFORMS, PYTHON_VERSIONS, IMPLEMENTATIONS, BINARY_TYPES)| == 43
  {
    GenerateCount(PLATFORMS, PYTHON_VERSIONS, IMPLEMENTATIONS, BINARY_TYPES);
    assert IMPLEMENTATIONS[..1] == ["cp"];
    assert IMPLEMENTATIONS[..1][..0] == [];
    assert NonPure(IMPLEMENTATIONS) == 1;
  }
}
