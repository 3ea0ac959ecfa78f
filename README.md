# Call-site identity of mock-builder, in Dafny

mock-builder lets a unit test replace any function with a closure. It needs
no hand-written key for this. Both the side that registers a mock
(`Pallet::mock_TraitA_foo`) and the side that runs it (`<Pallet as TraitA>::foo`)
turn the compiler's type name of a marker closure into a `FunctionLocation`.
A `FunctionLocation` is a pair: a path string, and the name of the trait the
call went through, if any. A chain of string rewrites brings both sides to the
same pair, and `hash` turns the pair into the storage key. This project models
that chain, as found in `mock-builder/src/location.rs`, and proves what it
does.

- `wrappers.dfy` (module `Wrappers`): `Option` and `Result`.
- `text.dfy` (module `Text`): the Rust string operations the code relies on.
  These are `find`/`rfind`, `split_once`/`rsplit_once` and
  `strip_prefix`/`strip_suffix`. Each is specified by where the separator does
  and does not occur.
- `location.dfy` (module `Location`): the `TraitInfo` mode, the
  `FunctionLocation` pair, and one error constructor per panic.
  - `From` is a method. `StripGenerics` is its right-to-left bracket-depth
    loop, proved against the bracket balance `Balance`.
  - `normalize`, `strip_name_prefix`, `assimilate_trait_prefix`,
    `append_type_signature` and `hash` are pure functions that return a
    `Result`.
- `location_lemmas.dfy` (module `LocationLemmas`): lemmas that pair each
  rewrite with what undoes or matches it. It holds:
  - the round trip between the registration name and the execution name;
  - the behaviour of the three hash modes;
  - the unit tests of location.rs, restated as lemmas;
  - the finding below.

Modelling choices:
- Strings are ASCII, so a character index is also a byte index.
- Every `panic!`, `expect` and `unwrap` in the code becomes a `Failure`.
- `from`'s input is the type name itself, given as a parameter.
- `append_type_signature` takes the signature text as a parameter.
- `hash` takes the storage hasher as a function `string -> H`.
- `from` drops the last 13 characters (`"::{{closure}}"`) without checking
  what they are. The model does the same: that step fails only when the name
  is shorter than 13 characters.

`normalize` is not idempotent. A second call finds no leading `<`, so it keeps
the location but resets the trait to `None` (location.rs:85).
`NormalizeTwiceDropsTrait` proves this for `Normalize`. The second call takes
the branch without `<`, which `NormalizeAsWritten` shares word for word.

`normalize` appears twice, because of the finding below:
- `NormalizeAsWritten` is the code as written.
- `Normalize` is the corrected version, and the round-trip lemmas use it.
- The two differ only in how they extract the trait name: `TraitNameAsWritten`
  against `TraitName`.

## Model

| member | source | states |
|---|---|---|
| `Text.FindFirst` | mock-builder/src/location.rs:65-68 | the index of the first occurrence of the separator, and no occurrence before it; `None` exactly when there is none |
| `Text.FindLast` | mock-builder/src/location.rs:62 | the index of the last occurrence of the separator, and no occurrence after it; `None` exactly when there is none |
| `Text.SplitOnce` | mock-builder/src/location.rs:65-68 | `split_once`: `None` iff the separator never occurs; otherwise `s == before + sep + after`, and the separator starts nowhere inside `before` |
| `Text.RSplitOnce` | mock-builder/src/location.rs:62 | `rsplit_once`: `None` iff the separator never occurs; otherwise `s == before + sep + after`, and the separator starts nowhere after `before` |
| `Text.RSplitOnceAfter` | mock-builder/src/location.rs:70-73 | the text after the last separator contains no separator |
| `Text.StripPrefix` | mock-builder/src/location.rs:63 | `strip_prefix` succeeds iff the string starts with the prefix, and `s == prefix + rest` |
| `Text.StripSuffix` | mock-builder/src/location.rs:74-75 | `strip_suffix` succeeds iff the string ends with the suffix, and `s == rest + suffix` |
| `Location.GenericListOpens` | mock-builder/src/location.rs:42-45 | in a name ending in `>`, the position where the depth returns to zero holds a `<` |
| `Location.GenericListUnique` | mock-builder/src/location.rs:38-47 | the closing generic list of a name is unique |
| `Location.StripGenerics` | mock-builder/src/location.rs:34-50 | the right-to-left depth count succeeds iff some suffix has balance 0. The cut is at the nearest such suffix from the right, which starts with `<`, and the result is the prefix before it. Otherwise it fails with "Expected '<' symbol to close '>'" |
| `Location.From` | mock-builder/src/location.rs:30-57 | fails with `MissingClosureSuffix` iff the name is shorter than `::{{closure}}`. Drops those 13 characters. A name not ending in `>` is returned as it is. A name ending in `>` loses exactly its closing generic list, or fails on an unmatched `>`. The trait is always `None`, and the result is a prefix of the input |
| `Location.WithoutGenerics` | mock-builder/src/location.rs:77-81 | the result is the prefix before the first `<`: it holds no `<`, the input has a `<` right after it, and a name without `<` is unchanged |
| `Location.TraitNameAsWritten` | mock-builder/src/location.rs:70-81 | a trait name extracted as written contains no `<` |
| `Location.TraitName` | mock-builder/src/location.rs:65-81 | corrected extraction: the trait name contains neither `<` nor `::` |
| `Location.NormalizeAsWritten` | mock-builder/src/location.rs:61-92 | no `::` gives the panic. A location not starting with `<` comes back unchanged with trait `None`. The trait is `Some` iff the location starts with `<`, and a trait name has no `<`. The only errors are the two `expect`s on `::`, the one on ` as`, and the `unwrap` of `strip_suffix('>')` |
| `Location.Normalize` | mock-builder/src/location.rs:61-92 | the same, with the corrected trait name, which has neither `<` nor `::` |
| `Location.StripNamePrefix` | mock-builder/src/location.rs:95-108 | keeps the trait and shortens the location by the prefix's length; `StripNamePrefixInverse` gives the new location itself. Fails with the separator panic iff there is no `::`, and otherwise only with the missing-prefix panic |
| `Location.AssimilateTraitPrefix` | mock-builder/src/location.rs:113-127 | with trait `None` the location is unchanged. With a trait, the trait is non-empty, starts upper-case and has no `_`, and the location is shorter by the length of `Trait_`; `AssimilateTraitPrefixInverse` gives the new location itself. The panics are no `::`, an empty name, and no `_` |
| `Location.AppendTypeSignature` | mock-builder/src/location.rs:130-135 | the old location is a prefix of the new one and is followed by `:` and the signature; the trait is unchanged |
| `Location.HashInput` | mock-builder/src/location.rs:139-152 | fails iff the mode is `Yes` and there is no trait ("Location must have trait info"). The hashed text is the location followed by the trait name, or by nothing under `No` or when there is no trait |
| `Location.Hash` | mock-builder/src/location.rs:138-155 | fails iff the mode is `Yes` and there is no trait, with `MissingTraitInfo`; otherwise the key is the hasher applied to `HashInput`'s text |
| `LocationLemmas.StripNamePrefixInverse` | mock-builder/src/location.rs:95-108 | `path::<prefix><name>` becomes `path::<name>` with the trait kept |
| `LocationLemmas.StripNamePrefixMissing` | mock-builder/src/location.rs:97-102 | a name without the prefix panics |
| `LocationLemmas.AssimilateTraitPrefixInverse` | mock-builder/src/location.rs:115-119 | `path::Trait_name` with an upper-case `Trait` becomes `path::name` with trait `Some(Trait)`, whatever trait it had |
| `LocationLemmas.AssimilateTraitPrefixPlain` | mock-builder/src/location.rs:120 | a name not starting upper-case is kept, and the trait becomes `None` |
| `LocationLemmas.AssimilateTraitPrefixMissingSeparator` | mock-builder/src/location.rs:117 | an upper-case name without `_` panics |
| `LocationLemmas.AssimilateTraitPrefixEmptyName` | mock-builder/src/location.rs:115 | an empty name panics |
| `LocationLemmas.TypeSignatureSeparatesKeys` | mock-builder/src/location.rs:130-135 | two different type signatures on one location give different hashed texts in every mode that succeeds |
| `LocationLemmas.RegistrationSide` | mock-builder/src/location.rs:95-127 | `S::mock_Trait_name`, after `strip_name_prefix("mock_")` and `assimilate_trait_prefix`, gives `(S::name, Some(Trait))` |
| `LocationLemmas.TraitCallSideAsWritten` | mock-builder/src/location.rs:61-92 | as written, `<S as Q::Trait<G>>::name` normalizes to `(S::name, Some(Trait))` when `G` contains no `:` |
| `LocationLemmas.TraitCallSide` | mock-builder/src/location.rs:61-92 | corrected, `<S as Q::Trait<G>>::name` normalizes to `(S::name, Some(Trait))` for any generic list `G` |
| `LocationLemmas.RoundTrip` | mock-builder/src/location.rs:277-325 | the registration side and the execution side of a trait method give the same pair |
| `LocationLemmas.InherentRoundTrip` | mock-builder/src/location.rs:261-315 | the same for a method outside any trait: both sides give `(S::name, None)` |
| `LocationLemmas.NormalizeTwiceDropsTrait` | mock-builder/src/location.rs:63-85 | normalizing a normalized trait location keeps the location but resets the trait to `None` |
| `LocationLemmas.NormalizeTraitBranch` | mock-builder/src/location.rs:62-66 | on `<S as rest>::name` both readings reduce to their trait-name step, with the location `S::name` |
| `LocationLemmas.NormalizeMissingAsKeyword` | mock-builder/src/location.rs:65-68 | `<P>::name` with no ` as` in `P`, such as `<S>::m`, fails with "always ' as'" in both readings |
| `LocationLemmas.TraitNameMissingClosingBracket` | mock-builder/src/location.rs:70-75 | a trait part not ending in `>` fails the `strip_suffix('>')`; as written, once it has a `::` |
| `LocationLemmas.NormalizeMissingClosingBracket` | mock-builder/src/location.rs:70-75 | `<S as rest>::name` with `rest` not ending in `>`, such as `<S as q::T::m`, fails the `unwrap` of `strip_suffix('>')`; as written, once the trait part has a `::` |
| `LocationLemmas.TraitNameMissingPath` | mock-builder/src/location.rs:70-72 | a trait part with no `::` fails the second "always '::'"; the corrected reading fails the same way when the part ends in `>` |
| `LocationLemmas.NormalizeMissingTraitPath` | mock-builder/src/location.rs:70-72 | `<S as rest>::name` with no `::` in the trait part, such as `<S as T>::m`, fails with the second "always '::'" |
| `LocationLemmas.HashNoIgnoresTrait` | mock-builder/src/location.rs:147 | mode `No` hashes the location alone, whatever the trait |
| `LocationLemmas.HashWhateverAgrees` | mock-builder/src/location.rs:148-151 | `Whatever` equals `No` without a trait and `Yes` with one |
| `LocationLemmas.HashYesSeparatesTraits` | mock-builder/src/location.rs:140-146 | under `Yes`, two different traits on one location give different hashed texts |
| `LocationLemmas.Registered` | mock-builder/src/location.rs:95-127 | the registration rewrites take `S::mock_Trait_name` to `(S::name, Some(Trait))` in one statement |
| `LocationLemmas.HashYesJoins` | mock-builder/src/location.rs:140-146 | under `Yes`, text moves freely between the end of the location and the start of the trait without changing the hashed text |
| `LocationLemmas.RegisteredKeysCollide` | mock-builder/src/location.rs:140-146 | `S::mock_B_fooA` and `S::mock_AB_foo` register two different pairs with one `Yes` hash text |
| `LocationLemmas.HashWhateverFoldsEmptyTrait` | mock-builder/src/location.rs:148-151 | under `Whatever`, an empty trait name and no trait give the same text |
| `LocationLemmas.NormalizedInherentTest` | mock-builder/src/location.rs:261-275 | test `normalized`, cases 1-2: inherent locations are unchanged, with no trait |
| `LocationLemmas.NormalizedTraitTest` | mock-builder/src/location.rs:277-283 | test `normalized`, case 3: `(Example::method, Some("TraitExample"))` |
| `LocationLemmas.NormalizedGenericTraitTest` | mock-builder/src/location.rs:285-291 | test `normalized`, case 4: `(Example::foo, Some("TraitExampleGen"))` |
| `LocationLemmas.StrippedNamePrefixTest` | mock-builder/src/location.rs:295-315 | `mock_method` becomes `method`, and `assimilate_trait_prefix` then leaves it with no trait |
| `LocationLemmas.AssimilatedTraitPrefixTest` | mock-builder/src/location.rs:317-325 | `mock_TraitExample_method` becomes `(Example::method, Some("TraitExample"))` |
| `LocationLemmas.AppendedTypeSignatureTest` | mock-builder/src/location.rs:329-337 | `Example::mock_method` with `i8->u8` becomes `Example::mock_method:i8->u8` |
| `LocationLemmas.BalanceAppend` | mock-builder/src/location.rs:38-47 | the bracket depth of a concatenation is the sum of the depths |
| `LocationLemmas.GenericListWhole` | mock-builder/src/location.rs:34-50 | in `f<g>` with `g` well-bracketed, however deeply nested, the closing list starts right after `f` |
| `LocationLemmas.TraitNameAsWrittenCounterexample` | mock-builder/src/location.rs:70-81 | as written, `<S as Q::Trait<A::B>>::name` gets trait `B>` |
| `LocationLemmas.TraitNameFinding` | mock-builder/src/location.rs:70-81 | for `<S as q::Tr<a::B>>::m`: as written, the registered key and the executed key differ under `Yes`; the corrected `Normalize` matches the registration side |

## Findings

| source | as written | input that shows it | evidently intended | confidence | as-written member | corrected member |
|---|---|---|---|---|---|---|
| mock-builder/src/location.rs:70-81 | takes the trait name as the last `::` segment of the whole `S as path::Trait<G>>` text, and only then drops the `>` and the generic list | `<S as q::Tr<a::B>>::m` gives trait `B>`, while `S::mock_Tr_m` registers trait `Tr` | the comment "Remove generic from trait name" asks for `Tr` for any generic list, including lists that hold paths; the repository's test `method_from_generic_trait_long_path` (mock-builder/tests/pallet.rs:330-336) instantiates `TraitGen<T::AccountId>` with a runtime that is not part of this model | medium, not executed | `LocationLemmas.TraitNameAsWrittenCounterexample` | `LocationLemmas.TraitCallSide` |

## Left out

- `std::any::type_name` (location.rs:31) is a compiler facility. `From` takes the type name it would return as a parameter.
- `TypeSignature::new` (location.rs:132) lives in a `util` module that is not part of this model. `AppendTypeSignature` takes the signature text as a parameter.
- Location.Hash: `StorageHasher::hash` (location.rs:154) is foreign code, so it is a parameter. `Hash` proves nothing about collisions. Only the hashed texts are compared.
- Byte indexing against character indexing (location.rs:39, 45) is not modelled. Strings are ASCII, where the two agree.
- Location.IsUpper: `char::is_uppercase` is Unicode-aware. The model's `IsUpper` knows only `A`-`Z`.
- Location.StripGenerics: the depth counter is an `i32`, and its overflow (more than 2^31 `>` characters) is not modelled.
- The mock registry (`register_call!`, `execute_call!` and the per-test storage of call ids) is used by mock-builder/tests/pallet.rs. Its implementation is not part of this model, so overwrite-on-register and per-test isolation are not modelled.
- LocationLemmas.HashYesSeparatesTraits: keys are kept apart only within one location. `hash` joins location and trait with no separator, so pairs on different locations can share a text; `RegisteredKeysCollide` shows two registrations of one type that do.
- pallets/remarks (the `remark` extrinsic, its handler, the mock runtime, tests and benchmarks) is runtime dispatch code outside the identity logic.
