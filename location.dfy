/** Call-site identity of a mocked function (mock-builder/src/location.rs).

    A `FunctionLocation` is the absolute path of a function, as the compiler
    prints the type name of a closure created inside it, together with the
    name of the trait through which the function was reached, if any. The
    operations below rewrite that pair step by step until the registration
    side (`Pallet::mock_Trait_method`) and the execution side
    (`<Pallet as path::Trait>::method`) arrive at the same key. Every panic of
    the source is a `Failure` here. */
module Location {
  import opened Wrappers
  import opened Text

  /** How `Hash` treats the trait information. */
  datatype TraitInfo =
    | Yes       // include it; panic when there is none
    | No        // ignore it
    | Whatever  // include it when there is some

  datatype FunctionLocation = FunctionLocation(location: string, traitInfo: Option<string>)

  /** One constructor per panic of location.rs. */
  datatype LocationError =
    | MissingClosureSuffix   // the type name is shorter than "::{{closure}}"
    | UnmatchedGeneric       // a trailing '>' has no matching '<'
    | MissingPathSeparator   // "always '::'"
    | MissingAsKeyword       // "always ' as'"
    | MissingClosingBracket  // the trait path does not end in '>'
    | MissingNamePrefix      // the function name lacks the expected prefix
    | EmptyName              // the function name is empty
    | MissingTraitSeparator  // "always '_' after trait name"
    | MissingTraitInfo       // "Location must have trait info"

  /** What the compiler appends to the name of a closure's type. */
  const ClosureSuffix: string := "::{{closure}}"
  const PathSeparator: string := "::"
  const AsKeyword: string := " as"

  /** ASCII stand-in for `char::is_uppercase`. */
  predicate IsUpper(c: char) {
    'A' <= c <= 'Z'
  }

  // ---------------------------------------------------------------------------
  // from: strip the closure suffix and a trailing generic argument list

  /** Contribution of one character to the bracket depth, scanning leftwards. */
  function Delta(c: char): int {
    if c == '>' then 1 else if c == '<' then -1 else 0
  }

  /** Number of '>' minus number of '<' in `s`. */
  function Balance(s: string): int {
    if s == [] then 0 else Delta(s[0]) + Balance(s[1..])
  }

  /** `s[j..]` is the generic argument list that closes `s`: the nearest index
      from the right at which the '>'/'<' balance comes back to zero. */
  predicate GenericListAt(s: string, j: int) {
    0 <= j < |s| && Balance(s[j..]) == 0
    && forall k | j < k < |s| :: Balance(s[k..]) > 0
  }

  lemma BalanceStep(s: string, p: nat)
    requires p < |s|
    ensures Balance(s[p..]) == Delta(s[p]) + Balance(s[p + 1..])
  {
    assert s[p..][1..] == s[p + 1..];
  }

  /** The generic list that closes a name ending in '>' opens with '<'. */
  lemma GenericListOpens(s: string, j: int)
    requires |s| > 0 && s[|s| - 1] == '>'
    requires GenericListAt(s, j)
    ensures s[j] == '<'
  {
    BalanceStep(s, j);
    if j + 1 < |s| {
      assert Balance(s[j + 1..]) > 0;
    }
  }

  /** There is at most one closing generic list. */
  lemma GenericListUnique(s: string, j1: int, j2: int)
    requires GenericListAt(s, j1) && GenericListAt(s, j2)
    ensures j1 == j2
  {
  }

  /** The right-to-left scan of location.rs:38-49 over a name ending in '>':
      cut the name just before the '<' that brings the depth back to zero. */
  method StripGenerics(s: string) returns (r: Result<string, LocationError>)
    requires s != [] && s[|s| - 1] == '>'
    ensures r.Success? <==> exists j :: GenericListAt(s, j)
    ensures r.Failure? ==> r.error == UnmatchedGeneric
    ensures r.Success? ==>
      var n := |r.value|;
      GenericListAt(s, n) && s[n] == '<' && r.value == s[..n]
  {
    var n := |s|;
    var count := 0;
    for i := 0 to n
      invariant count == Balance(s[n - i..])
      invariant forall k | n - i <= k < n :: Balance(s[k..]) > 0
    {
      var c := s[n - 1 - i];
      BalanceStep(s, n - 1 - i);
      if c == '>' {
        count := count + 1;
      } else if c == '<' {
        count := count - 1;
        if count == 0 {
          assert GenericListAt(s, n - 1 - i);
          GenericListOpens(s, n - 1 - i);
          return Success(s[..n - i - 1]);
        }
      }
    }
    assert forall j :: !GenericListAt(s, j) by {
      forall j | 0 <= j < n ensures Balance(s[j..]) != 0 {
        assert Balance(s[j..]) > 0;
      }
    }
    return Failure(UnmatchedGeneric);
  }

  /** `FunctionLocation::from`, given the type name of the locator closure. */
  method From(raw: string) returns (r: Result<FunctionLocation, LocationError>)
    ensures |raw| < |ClosureSuffix| <==> r == Failure(MissingClosureSuffix)
    ensures r.Success? ==> r.value.traitInfo == None && r.value.location <= raw
    ensures |raw| >= |ClosureSuffix| ==>
      var s := raw[..|raw| - |ClosureSuffix|];
      && (s == [] || s[|s| - 1] != '>' ==> r == Success(FunctionLocation(s, None)))
      && (s != [] && s[|s| - 1] == '>' ==>
            && (r.Success? <==> exists j :: GenericListAt(s, j))
            && (r.Failure? ==> r.error == UnmatchedGeneric)
            && (r.Success? ==>
                  var n := |r.value.location|;
                  GenericListAt(s, n) && s[n] == '<' && r.value.location == s[..n]))
  {
    if |raw| < |ClosureSuffix| {
      return Failure(MissingClosureSuffix);
    }
    var location := raw[..|raw| - |ClosureSuffix|];
    if location == [] || location[|location| - 1] != '>' {
      return Success(FunctionLocation(location, None));
    }
    var stripped := StripGenerics(location);
    match stripped
    case Failure(e) => return Failure(e);
    case Success(prefix) => return Success(FunctionLocation(prefix, None));
  }

  // ---------------------------------------------------------------------------
  // normalize

  /** `split_once('<').map(|(fst, _)| fst).unwrap_or(t)`: drop a generic list. */
  function WithoutGenerics(t: string): (r: string)
    ensures r <= t && '<' !in r
    ensures '<' !in t ==> r == t
    ensures '<' in t ==> |r| < |t| && t[|r|] == '<'
  {
    match SplitOnce(t, "<")
    case Some((fst, _)) =>
      SplitOnceCharBefore(t, '<');
      fst
    case None =>
      SplitOnceCharNone(t, '<');
      t
  }

  /** The trait name as location.rs:70-81 computes it from `S as path::Trait<G>>`:
      the last `::` segment of the whole text, then '>' and the generic list off. */
  function TraitNameAsWritten(structAsTrait: string): (r: Result<string, LocationError>)
    ensures r.Success? ==> '<' !in r.value
  {
    match RSplitOnce(structAsTrait, PathSeparator)
    case None => Failure(MissingPathSeparator)
    case Some((_, last)) =>
      match StripSuffix(last, ">")
      case None => Failure(MissingClosingBracket)
      case Some(t) => Success(WithoutGenerics(t))
  }

  /** The trait name as location.rs:77 intends it: the text after ` as`, '>' and
      the generic list off, then the last `::` segment of what remains. */
  function TraitName(structAsTrait: string): (r: Result<string, LocationError>)
    ensures r.Success? ==> '<' !in r.value && forall k :: !OccursAt(r.value, PathSeparator, k)
  {
    match SplitOnce(structAsTrait, AsKeyword)
    case None => Failure(MissingAsKeyword)
    case Some((_, traitPath)) =>
      match StripSuffix(traitPath, ">")
      case None => Failure(MissingClosingBracket)
      case Some(t) =>
        var base := WithoutGenerics(t);
        match RSplitOnce(base, PathSeparator)
        case None => Failure(MissingPathSeparator)
        case Some((front, name)) =>
          RSplitOnceAfter(base, PathSeparator);
          assert name == base[|front| + 2..];
          Success(name)
  }

  /** `FunctionLocation::normalize` exactly as location.rs:61-92 writes it. */
  function NormalizeAsWritten(fl: FunctionLocation): (r: Result<FunctionLocation, LocationError>)
    ensures (forall k :: !OccursAt(fl.location, PathSeparator, k)) ==> r == Failure(MissingPathSeparator)
    ensures (exists k :: OccursAt(fl.location, PathSeparator, k)) && fl.location[0] != '<' ==>
      r == Success(FunctionLocation(fl.location, None))
    ensures r.Success? ==> (r.value.traitInfo.Some? <==> fl.location != [] && fl.location[0] == '<')
    ensures r.Success? && r.value.traitInfo.None? ==> r.value.location == fl.location
    ensures r.Success? && r.value.traitInfo.Some? ==> '<' !in r.value.traitInfo.value
    ensures r.Failure? ==> r.error in {MissingPathSeparator, MissingAsKeyword, MissingClosingBracket}
  {
    match RSplitOnce(fl.location, PathSeparator)
    case None => Failure(MissingPathSeparator)
    case Some((path, name)) =>
      match StripPrefix(path, "<")
      case None => Success(FunctionLocation(path + PathSeparator + name, None))
      case Some(structAsTrait) =>
        match SplitOnce(structAsTrait, AsKeyword)
        case None => Failure(MissingAsKeyword)
        case Some((structPath, _)) =>
          match TraitNameAsWritten(structAsTrait)
          case Failure(e) => Failure(e)
          case Success(traitName) =>
            Success(FunctionLocation(structPath + PathSeparator + name, Some(traitName)))
  }

  /** `FunctionLocation::normalize` with the trait name taken as intended (see
      `TraitName`); everything else as location.rs:61-92. */
  function Normalize(fl: FunctionLocation): (r: Result<FunctionLocation, LocationError>)
    ensures (forall k :: !OccursAt(fl.location, PathSeparator, k)) ==> r == Failure(MissingPathSeparator)
    ensures (exists k :: OccursAt(fl.location, PathSeparator, k)) && fl.location[0] != '<' ==>
      r == Success(FunctionLocation(fl.location, None))
    ensures r.Success? ==> (r.value.traitInfo.Some? <==> fl.location != [] && fl.location[0] == '<')
    ensures r.Success? && r.value.traitInfo.None? ==> r.value.location == fl.location
    ensures r.Success? && r.value.traitInfo.Some? ==>
      '<' !in r.value.traitInfo.value && forall k :: !OccursAt(r.value.traitInfo.value, PathSeparator, k)
    ensures r.Failure? ==> r.error in {MissingPathSeparator, MissingAsKeyword, MissingClosingBracket}
  {
    match RSplitOnce(fl.location, PathSeparator)
    case None => Failure(MissingPathSeparator)
    case Some((path, name)) =>
      match StripPrefix(path, "<")
      case None => Success(FunctionLocation(path + PathSeparator + name, None))
      case Some(structAsTrait) =>
        match SplitOnce(structAsTrait, AsKeyword)
        case None => Failure(MissingAsKeyword)
        case Some((structPath, _)) =>
          match TraitName(structAsTrait)
          case Failure(e) => Failure(e)
          case Success(traitName) =>
            Success(FunctionLocation(structPath + PathSeparator + name, Some(traitName)))
  }

  // ---------------------------------------------------------------------------
  // registration-side rewrites

  /** `FunctionLocation::strip_name_prefix`. */
  function StripNamePrefix(fl: FunctionLocation, prefix: string): (r: Result<FunctionLocation, LocationError>)
    ensures r.Success? ==> r.value.traitInfo == fl.traitInfo
    ensures r.Success? ==> |r.value.location| + |prefix| == |fl.location|
    ensures r == Failure(MissingPathSeparator) <==> forall k :: !OccursAt(fl.location, PathSeparator, k)
    ensures r.Failure? ==> r.error in {MissingPathSeparator, MissingNamePrefix}
  {
    match RSplitOnce(fl.location, PathSeparator)
    case None => Failure(MissingPathSeparator)
    case Some((path, name)) =>
      match StripPrefix(name, prefix)
      case None => Failure(MissingNamePrefix)
      case Some(rest) => Success(FunctionLocation(path + PathSeparator + rest, fl.traitInfo))
  }

  /** `FunctionLocation::assimilate_trait_prefix`: `path::Trait_name` becomes
      `path::name` with trait `Trait`. */
  function AssimilateTraitPrefix(fl: FunctionLocation): (r: Result<FunctionLocation, LocationError>)
    ensures r == Failure(MissingPathSeparator) <==> forall k :: !OccursAt(fl.location, PathSeparator, k)
    ensures r.Failure? ==> r.error in {MissingPathSeparator, EmptyName, MissingTraitSeparator}
    ensures r.Success? && r.value.traitInfo.None? ==> r.value.location == fl.location
    ensures r.Success? && r.value.traitInfo.Some? ==>
      var t := r.value.traitInfo.value;
      && t != [] && IsUpper(t[0]) && '_' !in t
      && |r.value.location| + |t| + 1 == |fl.location|
  {
    match RSplitOnce(fl.location, PathSeparator)
    case None => Failure(MissingPathSeparator)
    case Some((path, name)) =>
      if name == [] then Failure(EmptyName)
      else if IsUpper(name[0]) then
        match SplitOnce(name, "_")
        case None => Failure(MissingTraitSeparator)
        case Some((traitName, rest)) =>
          assert traitName[0] == name[0];
          SplitOnceCharBefore(name, '_');
          Success(FunctionLocation(path + PathSeparator + rest, Some(traitName)))
      else Success(FunctionLocation(path + PathSeparator + name, None))
  }

  /** `FunctionLocation::append_type_signature`, the signature text given. */
  function AppendTypeSignature(fl: FunctionLocation, signature: string): (r: FunctionLocation)
    ensures r.traitInfo == fl.traitInfo
    ensures fl.location <= r.location && r.location[|fl.location|..] == [':'] + signature
  {
    FunctionLocation(fl.location + ":" + signature, fl.traitInfo)
  }

  // ---------------------------------------------------------------------------
  // hash

  /** The text `FunctionLocation::hash` hands to the storage hasher. */
  function HashInput(fl: FunctionLocation, mode: TraitInfo): (r: Result<string, LocationError>)
    ensures r.Failure? <==> mode == Yes && fl.traitInfo == None
    ensures r.Failure? ==> r.error == MissingTraitInfo
    ensures r.Success? ==> fl.location <= r.value
    ensures r.Success? ==>
      r.value[|fl.location|..] == if mode == No || fl.traitInfo.None? then "" else fl.traitInfo.value
  {
    match mode
    case Yes =>
      (match fl.traitInfo
       case None => Failure(MissingTraitInfo)
       case Some(t) => Success(fl.location + t))
    case No => Success(fl.location)
    case Whatever =>
      Success(fl.location + match fl.traitInfo case Some(t) => t case None => "")
  }

  /** `FunctionLocation::hash`, for a storage hasher given as a function. */
  function Hash<H>(fl: FunctionLocation, mode: TraitInfo, hasher: string -> H): (r: Result<H, LocationError>)
    ensures r.Failure? <==> mode == Yes && fl.traitInfo == None
    ensures r.Failure? ==> r.error == MissingTraitInfo
    ensures r.Success? ==> r.value == hasher(HashInput(fl, mode).value)
  {
    match HashInput(fl, mode)
    case Failure(e) => Failure(e)
    case Success(text) => Success(hasher(text))
  }
}
