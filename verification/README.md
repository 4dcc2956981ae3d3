# version — a Dafny model

A model of the Go package `version` (file `version.go`): a SemVer-style
`Version` value holding major, minor and patch numbers plus an optional
pre-release tag and build metadata. It models parsing it from text (`New`,
`Versions`), its mutators (`Bump`, `Alpha`, `Beta`, `AddMetadata`),
rendering it (`String`), the comparisons `Before`, `After` and `Equal`, and the
`Ascending`/`Descending` sort adapters. It also proves the properties those
operations promise.

Files and modules:

- `text.dfy` (module `Text`): the library pieces that `version.go` calls.
  These are `strings.Split` on one separator, with `Join` as its inverse;
  `strconv.Atoi`, taken as an optional `+`/`-` followed by one or more decimal
  digits; and the `%d` verb, as `Itoa`.
- `version.dfy` (module `SemVer`): the `Version` datatype and every operation
  of `version.go`. Go mutates a `*Version` in place. Here each mutator is a
  function that returns the updated value. Go's `(value, error)` pairs become
  `Result`, with the error `Invalid` for too few segments or
  `BadField(Major|Minor|Patch)` for a field whose `Atoi` failed.
  The comparisons carry their meaning in their contracts: lexicographic order
  (`LexLess`) on the key `[major, minor, patch]`.
- `parse_props.dfy` (module `ParseProps`): what `New` accepts and rejects,
  stated on the shape of the input. It also holds the parse/render round trip
  and the fact that tags are never read back.
- `order_props.dfy` (module `OrderProps`): the comparisons form a strict total
  order on the triple, and the tags play no part in it.
- `mutator_props.dfy` (module `MutatorProps`): each bump moves to the next
  version at its level, and each tag setter overwrites only its own field.
- `sorting.dfy` (module `Sorting`): the sort adapters. The result is a
  permutation of the input, and its triples never decrease (ascending) or never
  increase (descending).
- `examples.dfy` (module `Examples`): the cases of `version_test.go`, as lemmas.

Where the code departs from Semantic Versioning 2.0.0 or from its own doc comments, the model follows the code:

- The numeric fields may be negative, because `Atoi` accepts a sign: `New("-1.+2.3")` is `-1.2.3`.
- `New` reports which field failed (`BadField`) and does not use a single error kind.
- Parsing and rendering again gives back the input only when the input is canonical. `New("01.2.3")` renders as `1.2.3`.
- The doc comment on `Bump` at version.go:55 says only the patch number is bumped. The body bumps the major, minor or patch number.
- `sort.Sort` is not stable, so no stability is claimed.
- The pre-release tag is not used in precedence, unlike item 11.3 of Semantic Versioning 2.0.0: the comparisons look at the three numbers only.

## Model

| member | source | states |
|---|---|---|
| `Text.Split` | version.go:30 | the pieces never contain the separator, and there is always at least one piece |
| `Text.SplitCount` | version.go:30-31 | there is one more piece than there are separators, so "fewer than 3 segments" means "fewer than 2 dots" |
| `Text.JoinSplit` | version.go:30 | joining the pieces with the separator gives back the input |
| `Text.SplitJoin` | version.go:30 | splitting a join of separator-free pieces gives back the pieces |
| `Text.SplitAppend` | version.go:30 | splitting `x.y` gives the pieces of `x` followed by the pieces of `y` |
| `Text.SplitHead` | version.go:30 | the first piece is the longest prefix without a separator |
| `Text.Atoi` | version.go:34-45 | Atoi succeeds exactly on an optional sign followed by one or more decimal digits |
| `Text.ParseDecimal` | version.go:34-45 | a digit run has a value exactly when it is non-empty and all digits |
| `Text.AtoiItoa` | version.go:90-96 | Atoi reads back every integer that `%d` prints, negatives included |
| `Text.ParseDecimalLeadingZero` | version.go:34-45 | leading zeros do not change the value read |
| `Text.AtoiSign` | version.go:34-45 | a `+` keeps the value of the digits and a `-` negates it |
| `Text.AtoiInnerNonDigit` | version.go:42-45 | a non-digit after the first character makes Atoi fail |
| `Text.Itoa` | version.go:96 | `%d` prints an Atoi-readable integer with no dot and no `+`, with a `-` exactly for negatives and no leading zero |
| `Text.DecimalString` | version.go:90-96 | the digits `%d` prints for a non-negative number: all decimal digits, no leading zero |
| `Text.ParseDecimalString` | version.go:34-45 | reading the shortest digit spelling of n gives back n |
| `SemVer.New` | version.go:26-53 | the empty string gives the zero version; otherwise `Invalid` exactly when there are fewer than two dots; a parsed version has no tags |
| `SemVer.FromSegments` | version.go:31-52 | `Invalid` exactly when there are fewer than three segments; a parsed version has no tags |
| `SemVer.Versions` | version.go:154-164 | succeeds exactly when every input parses, giving their parses in order; otherwise it gives the error of the first input that fails |
| `SemVer.Bump` | version.go:56-69 | breaking gives (major+1, 0, 0) whatever `changes` is; else changes gives (major, minor+1, 0); else (major, minor, patch+1); the tags are kept |
| `SemVer.Alpha` | version.go:72-74 | the pre-release becomes "alpha"; the numbers and metadata are unchanged |
| `SemVer.Beta` | version.go:77-79 | the pre-release becomes "beta"; the numbers and metadata are unchanged |
| `SemVer.AddMetadata` | version.go:83-85 | the metadata becomes the argument; the numbers and pre-release are unchanged |
| `SemVer.Triple` | version.go:96 | the `%d.%d.%d` rendering is the three printed numbers joined by dots |
| `SemVer.TriplePieces` | version.go:96 | the `%d.%d.%d` rendering splits on dots into exactly the three printed numbers |
| `SemVer.String` | version.go:87-97 | the output starts with `M.m.p` and is exactly that when both tags are empty; a pre-release follows as `-pre`; metadata ends the string as `+meta`; the length leaves room for nothing else, so the four forms are exact |
| `SemVer.LexLessKey` | version.go:104-116 | lexicographic order on the key compares major, then minor, then patch |
| `SemVer.Equal` | version.go:140-151 | true exactly when the three numbers agree |
| `SemVer.After` | version.go:100-117 | true exactly when the triple is lexicographically greater |
| `SemVer.Before` | version.go:120-137 | true exactly when the triple is lexicographically smaller |
| `ParseProps.SplitThree` | version.go:30 | three separator-free segments joined by dots split back into those three |
| `ParseProps.NewThreeSegments` | version.go:34-52 | on `a.b.c`, the first of a, b, c that is not a signed integer names the error; if all three are integers the result holds their values and no tags |
| `ParseProps.NewIgnoresTail` | version.go:30-45 | once there are three segments, anything after a further dot does not change the result |
| `ParseProps.RoundTrip` | version.go:26-96 | parsing the rendering of a tag-free version gives back that version |
| `ParseProps.GluedPatchRejected` | version.go:42-45 | a non-digit glued after the patch number makes the patch parse fail |
| `ParseProps.TagsNotReadBack` | version.go:87-95 | rendering a version with a tag and parsing it fails on the patch field |
| `ParseProps.ReadBackIff` | version.go:26-97 | parsing the rendering succeeds exactly when the version has no tags |
| `ParseProps.ParseRenderParse` | version.go:26-97 | rendering a parsed version and parsing it again gives the same result |
| `OrderProps.LexLessIrreflexive` | version.go:101-103 | nothing is lexicographically less than itself |
| `OrderProps.LexLessTransitive` | version.go:120-137 | lexicographic order is transitive |
| `OrderProps.LexTrichotomy` | version.go:100-151 | on keys of one length exactly one of less, greater, equal holds |
| `OrderProps.Trichotomy` | version.go:100-151 | for any two versions exactly one of Before, After and Equal holds |
| `OrderProps.AfterIsConverse` | version.go:100-137 | After(a, b) equals Before(b, a) |
| `OrderProps.Irreflexive` | version.go:100-137 | no version is before or after itself |
| `OrderProps.BeforeTransitive` | version.go:120-137 | Before is transitive |
| `OrderProps.AfterTransitive` | version.go:100-117 | After is transitive |
| `OrderProps.EqualCongruence` | version.go:140-151 | Equal is symmetric, and Equal versions compare alike against every third version |
| `OrderProps.OrderIgnoresTags` | version.go:140-151 | replacing the pre-release and metadata changes no comparison |
| `MutatorProps.BumpIsAfter` | version.go:56-69 | every bump gives a version strictly after the original |
| `MutatorProps.BreakingIgnoresChanges` | version.go:57-62 | with a breaking change the `changes` flag has no effect |
| `MutatorProps.BumpPatchIsSuccessor` | version.go:68 | a version is after v exactly when it is not before v's patch bump: nothing lies between |
| `MutatorProps.BumpMinorIsSuccessor` | version.go:63-66 | for patch >= 0, the minor bump is the least version with a larger (major, minor) |
| `MutatorProps.NegativePatchBelowMinorBump` | version.go:63-66 | with a negative patch, a larger (major, minor) can still sort before the minor bump |
| `MutatorProps.BumpMajorIsSuccessor` | version.go:57-61 | for minor and patch >= 0, the major bump is the least version with a larger major |
| `MutatorProps.PreReleaseOverwrites` | version.go:72-79 | the last of Alpha/Beta applied decides the pre-release; each is idempotent |
| `MutatorProps.MetadataOverwrites` | version.go:72-85 | the last metadata set wins, and setting metadata commutes with Alpha and Beta |
| `MutatorProps.TaggingKeepsOrder` | version.go:72-85 | tagging leaves a version Equal to the original |
| `MutatorProps.BumpCommutesWithTags` | version.go:56-85 | bumping and tagging commute |
| `Sorting.HeadBelowRest` | version.go:166-172 | in a sorted sequence nothing after the head is less than the head |
| `Sorting.Insert` | version.go:166-180 | inserting into a sorted sequence adds exactly that element and keeps the sequence sorted |
| `Sorting.Sort` | version.go:166-180 | for a strict order, the result is a permutation of the input with no element less than an earlier one |
| `Sorting.SortAscending` | version.go:166-172 | sorting with `Before` gives a permutation whose triples never decrease |
| `Sorting.SortDescending` | version.go:174-180 | sorting with `After` gives a permutation whose triples never increase |
| `Examples.EmptyIsZero` | version_test.go:12-20 | `New("")` is 0.0.0 with no tags and renders as "0.0.0" |
| `Examples.ParsesBasic` | version_test.go:22-31 | `New("1.2.3")` is 1.2.3 |
| `Examples.RendersBasic` | version_test.go:22-31 | 1.2.3 renders as "1.2.3" |
| `Examples.RejectsOneSegment` | version_test.go:34-37 | "42" is `Invalid` |
| `Examples.RejectsBadMajor` | version_test.go:39-42 | "a.b.c" fails on the major field |
| `Examples.RejectsBadMinor` | version_test.go:44-47 | "1.b.c" fails on the minor field |
| `Examples.RejectsBadPatch` | version_test.go:49-52 | "1.2.c" fails on the patch field |
| `Examples.AcceptsSign` | version.go:34-45 | "-1.+2.3" parses to -1.2.3 |
| `Examples.IgnoresFourthSegment` | version.go:30-45 | "1.2.3.x" parses to 1.2.3 |
| `Examples.LeadingZeroParses` | version.go:34-45 | "01.2.3" parses to 1.2.3 |
| `Examples.LeadingZeroNotPreserved` | version.go:26-97 | "01.2.3" parses, but its rendering differs from the input |
| `Examples.BumpCases` | version_test.go:56-87 | the three bumps of 0.0.0 render as 0.0.1, 0.1.0 and 1.0.0 |
| `Examples.MetadataCase` | version_test.go:89-99 | 0.0.0 with metadata "test" renders as "0.0.0+test" |
| `Examples.AlphaCase` | version_test.go:101-111 | Alpha of 0.0.0 renders as "0.0.0-alpha" |
| `Examples.BetaCase` | version_test.go:113-123 | Beta of 0.0.0 renders as "0.0.0-beta" |
| `Examples.BetaMetadataCase` | version_test.go:135-146 | Beta then metadata "test" renders as "0.0.0-beta+test" |
| `Examples.BeforeAfterCases` | version_test.go:156-174 | for each of the six rows of the test table, After gives the expected value and Before its negation |

## Left out

- Integer width: `SemVer.Bump` and `Text.Atoi` use unbounded integers. Go's 64-bit `int` overflow in `major++`, `minor++` and `patch++` is not modelled. Neither is the range error `strconv.Atoi` gives for out-of-range input.
- Error values: the message text, the `ErrInvalid` sentinel identity and `fmt.Errorf` `%w` wrapping are not modelled. Only which step failed is kept.
- `sort.Sort` itself: Go's library routine is not modelled. `Sorting.Sort` is an insertion sort that meets the same contract (permutation plus sortedness), and no stability is claimed.
- The `Len` and `Swap` methods of `Ascending`/`Descending`: these only plumb the slice into the sort routine.
- Pointers, `nil` receivers and in-place mutation: a `Version` is an immutable value.
- Bytes versus characters: Go strings are byte sequences and the model works on `char`. The only separators involved (`.`, `+`, `-`) and the digits are ASCII, so splitting and digit checks agree.
- `version_test.go:178-211` (the sort test) is not restated as a lemma. `Sorting.SortAscending` and `Sorting.SortDescending` state the general contract.
