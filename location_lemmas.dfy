/** Properties of the location rewrites: the round trip between the name a
    mock is registered under and the name the mocked call executes under, the
    test cases of location.rs, the hash modes, and the trait-name finding. */
module LocationLemmas {
  import opened Wrappers
  import opened Text
  import opened Location

  /** A trait name as the `mock_<Trait>_<method>` convention needs it. */
  predicate IsTraitIdent(t: string) {
    t != [] && IsUpper(t[0]) && '_' !in t && ':' !in t && '<' !in t && '>' !in t
  }

  /** ` as` starts nowhere inside the implementing type's path. */
  predicate IsStructPath(s: string) {
    forall k | 0 <= k < |s| :: !OccursAt(s + AsKeyword, AsKeyword, k)
  }

  /** Empty, or a generic argument list `<...>`. */
  predicate IsGenericArgs(g: string) {
    g == [] || g[0] == '<'
  }

  /** Registration side: the location of `S::mock_<Trait>_<name>`. */
  function RegistrationLocation(s: string, traitName: string, name: string): string {
    s + "::" + ("mock_" + (traitName + "_" + name))
  }

  /** Execution side: the location of `<S as Q::Trait<G>>::name`. */
  function TraitCallLocation(s: string, q: string, traitName: string, g: string, name: string): string {
    "<" + (s + AsKeyword + (" " + q + "::" + traitName + g + ">")) + "::" + name
  }

  lemma NoSpaceStructPath(s: string)
    requires ' ' !in s
    ensures IsStructPath(s)
  {
    forall k | 0 <= k < |s| ensures !OccursAt(s + AsKeyword, AsKeyword, k) {
      assert (s + AsKeyword)[k] == s[k] != ' ';
      assert (s + AsKeyword)[k..k + 3][0] != ' ';
    }
  }

  lemma WithoutGenericsArgs(x: string, g: string)
    requires '<' !in x && IsGenericArgs(g)
    ensures WithoutGenerics(x + g) == x
  {
    if g == [] {
      assert x + g == x;
    } else {
      assert x + g == x + "<" + g[1..];
      SplitOnceChar(x, '<', g[1..]);
    }
  }

  /** The first ` as` of `S as rest` is the one after `S`. */
  lemma SplitAtAs(s: string, rest: string)
    requires IsStructPath(s)
    ensures SplitOnce(s + AsKeyword + rest, AsKeyword) == Some((s, rest))
  {
    var t := s + AsKeyword + rest;
    forall k | 0 <= k < |s| ensures !OccursAt(t, AsKeyword, k) {
      OccursAtPrefix(t, s + AsKeyword, AsKeyword, k);
    }
    SplitOnceAt(t, AsKeyword, s, rest);
  }

  /** The steps `<S as rest>::name` shares between both readings of `normalize`. */
  lemma TraitCallPrefix(s: string, rest: string, name: string)
    requires IsStructPath(s) && ':' !in name
    ensures RSplitOnce("<" + (s + AsKeyword + rest) + "::" + name, PathSeparator)
         == Some(("<" + (s + AsKeyword + rest), name))
    ensures StripPrefix("<" + (s + AsKeyword + rest), "<") == Some(s + AsKeyword + rest)
    ensures SplitOnce(s + AsKeyword + rest, AsKeyword) == Some((s, rest))
  {
    RSplitOnceColons("<" + (s + AsKeyword + rest), name);
    assert ("<" + (s + AsKeyword + rest))[1..] == s + AsKeyword + rest;
    SplitAtAs(s, rest);
  }

  // ---------------------------------------------------------------------------
  // each rewrite against its inverse

  /** `strip_name_prefix` removes exactly the prefix and keeps the trait. */
  lemma StripNamePrefixInverse(path: string, prefix: string, name: string, t: Option<string>)
    requires ':' !in prefix + name
    ensures StripNamePrefix(FunctionLocation(path + "::" + (prefix + name), t), prefix)
         == Success(FunctionLocation(path + "::" + name, t))
  {
    RSplitOnceColons(path, prefix + name);
  }

  /** `strip_name_prefix` fails when the name lacks the prefix. */
  lemma StripNamePrefixMissing(path: string, prefix: string, name: string, t: Option<string>)
    requires ':' !in name && !(prefix <= name)
    ensures StripNamePrefix(FunctionLocation(path + "::" + name, t), prefix) == Failure(MissingNamePrefix)
  {
    RSplitOnceColons(path, name);
  }

  /** `assimilate_trait_prefix` turns `path::Trait_name` into `path::name`
      with trait `Trait`, whatever trait the location carried before. */
  lemma AssimilateTraitPrefixInverse(path: string, traitName: string, name: string, t: Option<string>)
    requires traitName != [] && IsUpper(traitName[0]) && '_' !in traitName
    requires ':' !in traitName && ':' !in name
    ensures AssimilateTraitPrefix(FunctionLocation(path + "::" + (traitName + "_" + name), t))
         == Success(FunctionLocation(path + "::" + name, Some(traitName)))
  {
    var full := traitName + "_" + name;
    RSplitOnceColons(path, full);
    assert full[0] == traitName[0];
    SplitOnceChar(traitName, '_', name);
  }

  /** A name that does not start upper-case carries no trait: `trait_info`
      becomes `None` and the location is unchanged. */
  lemma AssimilateTraitPrefixPlain(path: string, name: string, t: Option<string>)
    requires name != [] && !IsUpper(name[0]) && ':' !in name
    ensures AssimilateTraitPrefix(FunctionLocation(path + "::" + name, t))
         == Success(FunctionLocation(path + "::" + name, None))
  {
    RSplitOnceColons(path, name);
  }

  /** An upper-case name without `_` panics. */
  lemma AssimilateTraitPrefixMissingSeparator(path: string, name: string, t: Option<string>)
    requires name != [] && IsUpper(name[0]) && '_' !in name && ':' !in name
    ensures AssimilateTraitPrefix(FunctionLocation(path + "::" + name, t)) == Failure(MissingTraitSeparator)
  {
    RSplitOnceColons(path, name);
    SplitOnceCharAbsent(name, '_');
  }

  /** An empty name panics. */
  lemma AssimilateTraitPrefixEmptyName(path: string, t: Option<string>)
    ensures AssimilateTraitPrefix(FunctionLocation(path + "::", t)) == Failure(EmptyName)
  {
    assert path + "::" == path + "::" + "";
    RSplitOnceColons(path, "");
  }

  /** Generic disambiguation: distinct type signatures give distinct hash
      texts, in every mode that does not fail. */
  lemma TypeSignatureSeparatesKeys(fl: FunctionLocation, sig1: string, sig2: string, mode: TraitInfo)
    requires sig1 != sig2
    requires HashInput(fl, mode).Success?
    ensures HashInput(AppendTypeSignature(fl, sig1), mode) != HashInput(AppendTypeSignature(fl, sig2), mode)
  {
    var t := match fl.traitInfo case Some(x) => if mode == No then "" else x case None => "";
    var a := fl.location + ":";
    assert HashInput(AppendTypeSignature(fl, sig1), mode).value == a + sig1 + t;
    assert HashInput(AppendTypeSignature(fl, sig2), mode).value == a + sig2 + t;
    if |sig1| == |sig2| {
      assert (a + sig1 + t)[|a|..|a| + |sig1|] == sig1;
      assert (a + sig2 + t)[|a|..|a| + |sig2|] == sig2;
    }
  }

  // ---------------------------------------------------------------------------
  // registration name against execution name

  /** `S::mock_Trait_name` through `strip_name_prefix("mock_")` and then
      `assimilate_trait_prefix` gives `(S::name, Some(Trait))`. */
  lemma RegistrationSide(s: string, traitName: string, name: string, t: Option<string>)
    requires IsTraitIdent(traitName) && ':' !in name
    ensures StripNamePrefix(FunctionLocation(RegistrationLocation(s, traitName, name), t), "mock_")
         == Success(FunctionLocation(s + "::" + (traitName + "_" + name), t))
    ensures AssimilateTraitPrefix(FunctionLocation(s + "::" + (traitName + "_" + name), t))
         == Success(FunctionLocation(s + "::" + name, Some(traitName)))
  {
    StripNamePrefixInverse(s, "mock_", traitName + "_" + name, t);
    AssimilateTraitPrefixInverse(s, traitName, name, t);
  }

  lemma AsWrittenRegroup(s: string, q: string, traitName: string, g: string)
    ensures s + AsKeyword + (" " + q + "::" + traitName + g + ">")
         == (s + AsKeyword + " " + q) + "::" + (traitName + g + ">")
  {
  }

  /** As location.rs computes it, `<S as Q::Trait<G>>::name` normalizes to
      `(S::name, Some(Trait))` provided `G` has no `:`. */
  lemma TraitCallSideAsWritten(s: string, q: string, traitName: string, g: string, name: string, t: Option<string>)
    requires IsStructPath(s) && IsTraitIdent(traitName) && IsGenericArgs(g)
    requires ':' !in g && ':' !in name
    ensures NormalizeAsWritten(FunctionLocation(TraitCallLocation(s, q, traitName, g, name), t))
         == Success(FunctionLocation(s + "::" + name, Some(traitName)))
  {
    var rest := " " + q + "::" + traitName + g + ">";
    TraitCallPrefix(s, rest, name);
    AsWrittenRegroup(s, q, traitName, g);
    assert ':' !in traitName + g + ">";
    RSplitOnceColons(s + AsKeyword + " " + q, traitName + g + ">");
    assert StripSuffix(traitName + g + ">", ">") == Some(traitName + g);
    WithoutGenericsArgs(traitName, g);
  }

  /** With the trait name taken as intended, `<S as Q::Trait<G>>::name`
      normalizes to `(S::name, Some(Trait))` for any generic list `G`. */
  lemma TraitCallSide(s: string, q: string, traitName: string, g: string, name: string, t: Option<string>)
    requires IsStructPath(s) && IsTraitIdent(traitName) && IsGenericArgs(g)
    requires '<' !in q && ':' !in name
    ensures Normalize(FunctionLocation(TraitCallLocation(s, q, traitName, g, name), t))
         == Success(FunctionLocation(s + "::" + name, Some(traitName)))
  {
    var front := " " + q + "::" + traitName;
    var rest := front + g + ">";
    TraitCallPrefix(s, rest, name);
    assert StripSuffix(rest, ">") == Some(front + g);
    assert '<' !in front;
    WithoutGenericsArgs(front, g);
    RSplitOnceColons(" " + q, traitName);
  }

  /** The round trip: a mock registered as `S::mock_Trait_name` and the call
      `<S as Q::Trait<G>>::name` arrive at the same location and trait. */
  lemma RoundTrip(s: string, q: string, traitName: string, g: string, name: string, t1: Option<string>, t2: Option<string>)
    requires IsStructPath(s) && IsTraitIdent(traitName) && IsGenericArgs(g)
    requires '<' !in q && ':' !in name
    ensures
      var registered := StripNamePrefix(FunctionLocation(RegistrationLocation(s, traitName, name), t1), "mock_");
      && registered.Success?
      && AssimilateTraitPrefix(registered.value)
         == Normalize(FunctionLocation(TraitCallLocation(s, q, traitName, g, name), t2))
         == Success(FunctionLocation(s + "::" + name, Some(traitName)))
  {
    RegistrationSide(s, traitName, name, t1);
    TraitCallSide(s, q, traitName, g, name, t2);
  }

  /** The round trip for a method outside any trait: `S::mock_name` on the
      registration side, `S::name` on the execution side. */
  lemma InherentRoundTrip(s: string, name: string, t1: Option<string>, t2: Option<string>)
    requires name != [] && !IsUpper(name[0]) && ':' !in name
    requires s != [] && s[0] != '<'
    ensures
      var registered := StripNamePrefix(FunctionLocation(s + "::" + ("mock_" + name), t1), "mock_");
      && registered.Success?
      && AssimilateTraitPrefix(registered.value)
         == Normalize(FunctionLocation(s + "::" + name, t2))
         == Success(FunctionLocation(s + "::" + name, None))
  {
    StripNamePrefixInverse(s, "mock_", name, t1);
    AssimilateTraitPrefixPlain(s, name, t1);
    assert OccursAt(s + "::" + name, PathSeparator, |s|);
  }

  /** `normalize` is not idempotent: a second call keeps the location but,
      the `<` being gone, resets the trait to `None`. */
  lemma NormalizeTwiceDropsTrait(s: string, q: string, traitName: string, g: string, name: string, t: Option<string>)
    requires IsStructPath(s) && IsTraitIdent(traitName) && IsGenericArgs(g)
    requires '<' !in q && ':' !in name
    requires s != [] && s[0] != '<'
    ensures
      var once := Normalize(FunctionLocation(TraitCallLocation(s, q, traitName, g, name), t));
      && once.Success? && once.value.traitInfo == Some(traitName)
      && Normalize(once.value) == Success(FunctionLocation(once.value.location, None))
  {
    TraitCallSide(s, q, traitName, g, name, t);
    assert OccursAt(s + "::" + name, PathSeparator, |s|);
  }

  // ---------------------------------------------------------------------------
  // the panics of normalize's `<` branch

  /** `<P>::name` with no ` as` in `P` (such as `<S>::m`) hits "always ' as'". */
  lemma NormalizeMissingAsKeyword(p: string, name: string, t: Option<string>)
    requires ':' !in name
    requires forall k :: !OccursAt(p, AsKeyword, k)
    ensures NormalizeAsWritten(FunctionLocation("<" + p + "::" + name, t)) == Failure(MissingAsKeyword)
    ensures Normalize(FunctionLocation("<" + p + "::" + name, t)) == Failure(MissingAsKeyword)
  {
    RSplitOnceColons("<" + p, name);
    assert ("<" + p)[1..] == p;
  }

  /** On `<S as rest>::name` both readings of `normalize` come down to their
      trait-name step on `S as rest`. */
  lemma NormalizeTraitBranch(s: string, rest: string, name: string, t: Option<string>)
    requires IsStructPath(s) && ':' !in name
    ensures NormalizeAsWritten(FunctionLocation("<" + (s + AsKeyword + rest) + "::" + name, t))
         == match TraitNameAsWritten(s + AsKeyword + rest)
            case Failure(e) => Failure(e)
            case Success(n) => Success(FunctionLocation(s + "::" + name, Some(n)))
    ensures Normalize(FunctionLocation("<" + (s + AsKeyword + rest) + "::" + name, t))
         == match TraitName(s + AsKeyword + rest)
            case Failure(e) => Failure(e)
            case Success(n) => Success(FunctionLocation(s + "::" + name, Some(n)))
  {
    TraitCallPrefix(s, rest, name);
  }

  /** The trait part `S as rest` of a name whose `rest` does not end in `>`
      fails the `strip_suffix('>')`; as written, only once it has a `::`. */
  lemma TraitNameMissingClosingBracket(s: string, rest: string)
    requires IsStructPath(s)
    requires rest == [] || rest[|rest| - 1] != '>'
    ensures TraitName(s + AsKeyword + rest) == Failure(MissingClosingBracket)
    ensures (exists k :: OccursAt(s + AsKeyword + rest, PathSeparator, k)) ==>
      TraitNameAsWritten(s + AsKeyword + rest) == Failure(MissingClosingBracket)
  {
    var full := s + AsKeyword + rest;
    SplitAtAs(s, rest);
    assert full[|full| - 1] != '>' by {
      if rest == [] { assert full[|full| - 1] == AsKeyword[2]; }
      else { assert full[|full| - 1] == rest[|rest| - 1]; }
    }
    match RSplitOnce(full, PathSeparator)
    case None =>
    case Some((front, last)) =>
      if last != [] {
        assert last[|last| - 1] == full[|full| - 1];
      }
  }

  /** `<S as rest>::name` whose `rest` does not end in `>` (such as
      `<S as q::T::m`) fails the `strip_suffix('>').unwrap()`; as written, only
      once the trait part has a `::` for the `rsplit_once` before it. */
  lemma NormalizeMissingClosingBracket(s: string, rest: string, name: string, t: Option<string>)
    requires IsStructPath(s) && ':' !in name
    requires rest == [] || rest[|rest| - 1] != '>'
    ensures Normalize(FunctionLocation("<" + (s + AsKeyword + rest) + "::" + name, t))
         == Failure(MissingClosingBracket)
    ensures (exists k :: OccursAt(s + AsKeyword + rest, PathSeparator, k)) ==>
      NormalizeAsWritten(FunctionLocation("<" + (s + AsKeyword + rest) + "::" + name, t))
         == Failure(MissingClosingBracket)
  {
    NormalizeTraitBranch(s, rest, name, t);
    TraitNameMissingClosingBracket(s, rest);
  }

  /** A trait part `S as rest` with no `::` has no trait path to take the name
      from; the corrected reading gets that far only when `rest` ends in `>`. */
  lemma TraitNameMissingPath(s: string, rest: string)
    requires IsStructPath(s)
    requires forall k :: !OccursAt(s + AsKeyword + rest, PathSeparator, k)
    ensures TraitNameAsWritten(s + AsKeyword + rest) == Failure(MissingPathSeparator)
    ensures rest != [] && rest[|rest| - 1] == '>' ==>
      TraitName(s + AsKeyword + rest) == Failure(MissingPathSeparator)
  {
    SplitAtAs(s, rest);
    if rest != [] && rest[|rest| - 1] == '>' {
      NoPathInTraitPart(s, rest, WithoutGenerics(rest[..|rest| - 1]));
    }
  }

  lemma NoPathInTraitPart(s: string, rest: string, base: string)
    requires rest != [] && base == WithoutGenerics(rest[..|rest| - 1])
    requires forall k :: !OccursAt(s + AsKeyword + rest, PathSeparator, k)
    ensures forall k :: !OccursAt(base, PathSeparator, k)
  {
    var full := s + AsKeyword + rest;
    assert base == full[|s| + |AsKeyword|..|s| + |AsKeyword| + |base|];
    NoOccurrenceInSlice(full, base, PathSeparator, |s| + |AsKeyword|);
  }

  /** `<S as rest>::name` with no `::` in the trait part (such as `<S as T>::m`)
      hits the second "always '::'". */
  lemma NormalizeMissingTraitPath(s: string, rest: string, name: string, t: Option<string>)
    requires IsStructPath(s) && ':' !in name
    requires forall k :: !OccursAt(s + AsKeyword + rest, PathSeparator, k)
    ensures NormalizeAsWritten(FunctionLocation("<" + (s + AsKeyword + rest) + "::" + name, t))
         == Failure(MissingPathSeparator)
    ensures rest != [] && rest[|rest| - 1] == '>' ==>
      Normalize(FunctionLocation("<" + (s + AsKeyword + rest) + "::" + name, t))
         == Failure(MissingPathSeparator)
  {
    NormalizeTraitBranch(s, rest, name, t);
    TraitNameMissingPath(s, rest);
  }

  // ---------------------------------------------------------------------------
  // hash modes

  /** `No` ignores the trait. */
  lemma HashNoIgnoresTrait<H>(location: string, t1: Option<string>, t2: Option<string>, hasher: string -> H)
    ensures Hash(FunctionLocation(location, t1), No, hasher) == Hash(FunctionLocation(location, t2), No, hasher)
         == Success(hasher(location))
  {
  }

  /** `Whatever` is `No` without a trait and `Yes` with one. */
  lemma HashWhateverAgrees<H>(fl: FunctionLocation, hasher: string -> H)
    ensures fl.traitInfo.None? ==> Hash(fl, Whatever, hasher) == Hash(fl, No, hasher)
    ensures fl.traitInfo.Some? ==> Hash(fl, Whatever, hasher) == Hash(fl, Yes, hasher)
  {
    assert fl.location + "" == fl.location;
  }

  /** `Yes` keeps two traits' same-named methods on one type apart: their hash
      texts differ (whether the hasher keeps them apart is not modelled). */
  lemma HashYesSeparatesTraits(location: string, trait1: string, trait2: string)
    requires trait1 != trait2
    ensures HashInput(FunctionLocation(location, Some(trait1)), Yes)
         != HashInput(FunctionLocation(location, Some(trait2)), Yes)
  {
    assert (location + trait1)[|location|..] == trait1;
    assert (location + trait2)[|location|..] == trait2;
  }

  /** The registration pipeline in one step: `S::mock_Trait_name` is filed
      under `(S::name, Some(Trait))`. */
  lemma Registered(s: string, traitName: string, name: string)
    requires IsTraitIdent(traitName) && ':' !in name
    ensures
      var r := StripNamePrefix(FunctionLocation(RegistrationLocation(s, traitName, name), None), "mock_");
      r.Success? && AssimilateTraitPrefix(r.value) == Success(FunctionLocation(s + "::" + name, Some(traitName)))
  {
    RegistrationSide(s, traitName, name, None);
  }

  /** Location and trait are joined with no separator: registering `S::mock_B_fooA`
      and `S::mock_AB_foo` gives two different pairs with one hash text. */
  lemma RegisteredKeysCollide(s: string, traitName: string, a: string, name: string)
    requires IsTraitIdent(traitName) && IsTraitIdent(a) && ':' !in name
    ensures
      var r1 := StripNamePrefix(FunctionLocation(RegistrationLocation(s, traitName, name + a), None), "mock_");
      var r2 := StripNamePrefix(FunctionLocation(RegistrationLocation(s, a + traitName, name), None), "mock_");
      && r1.Success? && r2.Success?
      && AssimilateTraitPrefix(r1.value).Success? && AssimilateTraitPrefix(r2.value).Success?
      && AssimilateTraitPrefix(r1.value).value != AssimilateTraitPrefix(r2.value).value
      && HashInput(AssimilateTraitPrefix(r1.value).value, Yes)
         == HashInput(AssimilateTraitPrefix(r2.value).value, Yes)
  {
    assert ':' !in name + a;
    Registered(s, traitName, name + a);
    TraitIdentAppend(a, traitName);
    Registered(s, a + traitName, name);
    NameSuffixRegroup(s, name, a);
    HashYesJoins(s + "::" + name, a, traitName);
  }

  /** `Yes` joins location and trait with no separator, so text can move
      between the end of the location and the start of the trait. */
  lemma HashYesJoins(location: string, a: string, b: string)
    ensures HashInput(FunctionLocation(location + a, Some(b)), Yes)
         == HashInput(FunctionLocation(location, Some(a + b)), Yes)
  {
    assert location + a + b == location + (a + b);
  }

  lemma NameSuffixRegroup(s: string, name: string, a: string)
    ensures s + "::" + (name + a) == s + "::" + name + a
  {
  }

  lemma TraitIdentAppend(a: string, b: string)
    requires IsTraitIdent(a) && IsTraitIdent(b)
    ensures IsTraitIdent(a + b)
  {
    assert (a + b)[0] == a[0];
  }

  /** Under `Whatever`, an empty trait name and no trait give one hash text. */
  lemma HashWhateverFoldsEmptyTrait(location: string)
    ensures HashInput(FunctionLocation(location, Some("")), Whatever)
         == HashInput(FunctionLocation(location, None), Whatever)
         == HashInput(FunctionLocation(location, None), No)
  {
    assert location + "" == location;
  }

  // ---------------------------------------------------------------------------
  // the unit tests of location.rs

  const TestPrefix: string := "mock_builder::location::tests"
  const TestStruct: string := "mock_builder::location::tests::Example"

  /** The test type's path contains no ` as`. */
  lemma TestStructIsStructPath()
    ensures IsStructPath(TestStruct)
  {
    NoSpaceStructPath(TestStruct);
  }

  lemma TestTraitNames()
    ensures IsTraitIdent("TraitExample") && IsTraitIdent("TraitExampleGen")
    ensures IsGenericArgs("<u32, bool>") && ':' !in "<u32, bool>"
  {
  }

  /** The `normalized` test, first and second case: an inherent location is
      unchanged and carries no trait. */
  lemma NormalizedInherentTest()
    ensures NormalizeAsWritten(FunctionLocation(TestStruct + "::" + "mock_method", None))
         == Success(FunctionLocation(TestStruct + "::" + "mock_method", None))
    ensures NormalizeAsWritten(FunctionLocation(TestStruct + "::" + "mock_TraitExample_method", None))
         == Success(FunctionLocation(TestStruct + "::" + "mock_TraitExample_method", None))
  {
    assert OccursAt(TestStruct + "::" + "mock_method", PathSeparator, |TestStruct|);
    assert OccursAt(TestStruct + "::" + "mock_TraitExample_method", PathSeparator, |TestStruct|);
  }

  /** The `normalized` test, third case: `<Example as TraitExample>::method`. */
  lemma NormalizedTraitTest()
    ensures NormalizeAsWritten(FunctionLocation(TraitCallLocation(TestStruct, TestPrefix, "TraitExample", "", "method"), None))
         == Success(FunctionLocation(TestStruct + "::" + "method", Some("TraitExample")))
  {
    TestStructIsStructPath();
    TestTraitNames();
    TraitCallSideAsWritten(TestStruct, TestPrefix, "TraitExample", "", "method", None);
  }

  /** The `normalized` test, fourth case: the generic list `<u32, bool>` of
      the trait is dropped from the trait name. */
  lemma NormalizedGenericTraitTest()
    ensures NormalizeAsWritten(FunctionLocation(TraitCallLocation(TestStruct, TestPrefix, "TraitExampleGen", "<u32, bool>", "foo"), None))
         == Success(FunctionLocation(TestStruct + "::" + "foo", Some("TraitExampleGen")))
  {
    TestStructIsStructPath();
    TestTraitNames();
    TraitCallSideAsWritten(TestStruct, TestPrefix, "TraitExampleGen", "<u32, bool>", "foo", None);
  }

  /** The `striped_name_prefix` test and the first `assimilated_trait_prefix`
      case: `mock_method` becomes `method`, with no trait. */
  lemma StrippedNamePrefixTest()
    ensures StripNamePrefix(FunctionLocation(TestStruct + "::" + ("mock_" + "method"), None), "mock_")
         == Success(FunctionLocation(TestStruct + "::" + "method", None))
    ensures AssimilateTraitPrefix(FunctionLocation(TestStruct + "::" + "method", None))
         == Success(FunctionLocation(TestStruct + "::" + "method", None))
  {
    StripNamePrefixInverse(TestStruct, "mock_", "method", None);
    AssimilateTraitPrefixPlain(TestStruct, "method", None);
  }

  /** The second `assimilated_trait_prefix` case: `mock_TraitExample_method`
      becomes `method` with trait `TraitExample`. */
  lemma AssimilatedTraitPrefixTest()
    ensures
      var registered := StripNamePrefix(FunctionLocation(RegistrationLocation(TestStruct, "TraitExample", "method"), None), "mock_");
      && registered.Success?
      && AssimilateTraitPrefix(registered.value)
         == Success(FunctionLocation(TestStruct + "::" + "method", Some("TraitExample")))
  {
    TestTraitNames();
    RegistrationSide(TestStruct, "TraitExample", "method", None);
  }

  /** The `appended_type_signature` test. */
  lemma AppendedTypeSignatureTest()
    ensures AppendTypeSignature(FunctionLocation(TestStruct + "::" + "mock_method", None), "i8->u8")
         == FunctionLocation(TestStruct + "::" + "mock_method" + ":" + "i8->u8", None)
  {
  }

  // ---------------------------------------------------------------------------
  // from: a nested generic list goes away whole

  lemma {:induction false} BalanceAppend(a: string, b: string)
    ensures Balance(a + b) == Balance(a) + Balance(b)
  {
    if a != [] {
      assert (a + b)[1..] == a[1..] + b;
      BalanceAppend(a[1..], b);
    } else {
      assert a + b == b;
    }
  }

  /** Every '>' of `g` closes an earlier '<' of `g`: `g` is a balanced list. */
  predicate WellBracketed(g: string) {
    Balance(g) == 0 && forall i | 0 <= i <= |g| :: Balance(g[i..]) >= 0
  }

  /** `f<g>` with `g` well-bracketed closes with the list that starts right
      after `f`, however deeply `g` nests: `from` cuts the name down to `f`. */
  lemma GenericListWhole(f: string, g: string)
    requires WellBracketed(g)
    ensures GenericListAt(f + "<" + g + ">", |f|)
  {
    var s := f + "<" + g + ">";
    forall k | |f| < k < |s| ensures Balance(s[k..]) > 0 {
      var i := k - |f| - 1;
      assert s[k..] == g[i..] + ">";
      BalanceAppend(g[i..], ">");
    }
    assert s[|f|..] == "<" + (g + ">");
    BalanceAppend("<", g + ">");
    BalanceAppend(g, ">");
  }

  // ---------------------------------------------------------------------------
  // finding: a trait whose generic arguments hold a path

  lemma PathArgsRegroup(s: string, q: string, traitName: string, a: string, b: string)
    ensures s + AsKeyword + (" " + q + "::" + traitName + ("<" + a + "::" + b + ">") + ">")
         == (s + AsKeyword + " " + q + "::" + traitName + "<" + a) + "::" + (b + ">" + ">")
  {
  }

  /** As written, `<S as Q::Trait<A::B>>::name` normalizes to trait `B>`: the
      last `::` of the whole trait part lies inside the generic list. */
  lemma TraitNameAsWrittenCounterexample(s: string, q: string, traitName: string, a: string, b: string, name: string, t: Option<string>)
    requires IsStructPath(s) && ':' !in b && '<' !in b && ':' !in name
    ensures NormalizeAsWritten(FunctionLocation(TraitCallLocation(s, q, traitName, "<" + a + "::" + b + ">", name), t))
         == Success(FunctionLocation(s + "::" + name, Some(b + ">")))
  {
    var g := "<" + a + "::" + b + ">";
    TraitCallPrefix(s, " " + q + "::" + traitName + g + ">", name);
    PathArgsRegroup(s, q, traitName, a, b);
    assert ':' !in b + ">" + ">";
    RSplitOnceColons(s + AsKeyword + " " + q + "::" + traitName + "<" + a, b + ">" + ">");
    assert StripSuffix(b + ">" + ">", ">") == Some(b + ">");
    assert '<' !in b + ">";
    SplitOnceCharAbsent(b + ">", '<');
  }

  /** So the call `<S as q::Tr<a::B>>::m` and the mock registered as
      `S::mock_Tr_m` get different keys under `Yes`, while the corrected
      `Normalize` gives both `(S::m, Some("Tr"))`. */
  lemma TraitNameFinding()
    ensures
      var registered := StripNamePrefix(FunctionLocation(RegistrationLocation("S", "Tr", "m"), None), "mock_");
      var called := FunctionLocation(TraitCallLocation("S", "q", "Tr", "<a::B>", "m"), None);
      && registered.Success?
      && AssimilateTraitPrefix(registered.value).Success?
      && NormalizeAsWritten(called).Success?
      && HashInput(AssimilateTraitPrefix(registered.value).value, Yes)
         != HashInput(NormalizeAsWritten(called).value, Yes)
      && AssimilateTraitPrefix(registered.value) == Normalize(called)
  {
    NoSpaceStructPath("S");
    assert "<a::B>" == "<" + "a" + "::" + "B" + ">";
    TraitNameAsWrittenCounterexample("S", "q", "Tr", "a", "B", "m", None);
    RoundTrip("S", "q", "Tr", "<a::B>", "m", None, None);
    HashYesSeparatesTraits("S" + "::" + "m", "Tr", "B" + ">");
  }
}
