# ATF test cases of kyua: metadata, properties and requirements

This project models the test-case layer of kyua's ATF interface
(`engine/atf_iface/test_case`), as its unit tests describe it:

- **Property parsing** (`from_properties`). A test program reports a flat
  map from strings to strings. The known keys are `descr`, `has.cleanup`,
  `timeout`, `require.arch`, `require.machine`, `require.config`,
  `require.files`, `require.memory`, `require.progs` and `require.user`.
  Keys starting with `X-` are free-form user metadata. Any other key is
  refused. The map becomes a typed `Metadata` record, or a format error
  that names the offending key.
- **Canonical serialisation** (`all_properties`). Metadata goes back to a
  property map. Only fields that differ from their defaults are emitted. A
  set is emitted as its members, sorted and joined with single spaces, and
  user metadata is emitted verbatim.
- **Requirement checking** (`check_requirements`). Given the run-time
  configuration and the host, the check returns `""` when the case may run.
  Otherwise it returns the reason of the first requirement that fails,
  checked in a fixed order: architecture, platform, configuration
  variables, user, files, memory, programs.
- **Synthetic test cases and running.** A fake test case carries a stored
  result. Running it returns that result and sends no output notification.
- **Builders.** `metadata_builder` accumulates metadata one named field at
  a time. `config::tree` holds the configuration, mutated key by key. Both
  are classes that update their fields in place.

Modules:

- `Wrappers`: `Option` and `Result`.
- `Text`: whitespace-separated words and joining.
- `Units`: decimal numbers and byte sizes.
- `Lexicographic`: the byte order of `std::string` keys, the least member
  of a set, and sorted listings.
- `CaseMetadata`: the record, its defaults, the grammar of each field, and
  `MetadataBuilder`.
- `Properties`: the parser and the serialiser and their laws.
- `ConfigTrees`: the configuration class.
- `Requirements`: the check.
- `TestCases`: the test-case value.
- `Scenarios`: the concrete situations the unit tests set up, proved from
  the general laws.

The parser is a fold of one property at a time over the keys in `std::map`
order (`Properties.ApplyAll` over `Sorted(props.Keys)`). It is proved equal
to an order-free reference definition (`Properties.Interpret`) whenever
every property is valid. When some property is invalid, the fold fails
with the error of the lexicographically least invalid key.

The system's state outside these values is passed in as explicit
parameters:

- the configured architecture and platform, and the configuration keys that
  are set (a `ConfigTrees.Settings` map);
- the suite the test program belongs to;
- the current uid;
- the files that exist and the files that are executable;
- the directories of `PATH`, in order;
- the physical memory, with 0 meaning unknown.

These are `Requirements.Host` and the settings map. Running a real test case
is delegated to an executor whose outcome is a parameter of
`TestCases.Run`.

The only source file of this model is `engine/atf_iface/test_case_test.cpp`.
The implementation files of the test case, the metadata, the byte-size
parser and the configuration tree are not part of this model. Behaviour is
therefore taken from what the tests assert. Where the tests only pin part of
the behaviour, the model makes its own choice, consistent with every
assertion of the tests:

- the exact wording of messages that the tests match by pattern;
- `has.cleanup` accepting only `true` and `false`;
- `timeout` being a positive whole number;
- required files being absolute paths;
- required programs being absolute paths or bare names.

## Model

| member | source | states |
|---|---|---|
| CaseMetadata.MetadataBuilder.constructor | engine/atf_iface/test_case_test.cpp:110 | A fresh builder holds the default metadata, which is well formed. |
| CaseMetadata.MetadataBuilder.SetString | engine/atf_iface/test_case_test.cpp:111 | An unknown field name is refused with an unknown-property error and changes nothing. A known name with a value outside the field's grammar is refused with an invalid-value error naming the key and value, and changes nothing. Otherwise exactly that field is set. Well-formedness is preserved. |
| CaseMetadata.MetadataBuilder.AddCustom | engine/atf_iface/test_case_test.cpp:175-177 | The builder's way of recording the `X-` entries that parsing stores as user metadata. Only `X-` keys are recorded, overwriting any earlier value. Any other key is refused and changes nothing. |
| CaseMetadata.MetadataBuilder.Build | engine/atf_iface/test_case_test.cpp:113 | Returns the accumulated metadata, which is well formed. |
| CaseMetadata.Defaults | engine/atf_iface/test_case_test.cpp:135-157 | The metadata of a case that declares nothing is well formed: empty description, no cleanup, the default timeout, no requirements, no user entries. |
| CaseMetadata.ParseBool | engine/atf_iface/test_case_test.cpp:166-185 | A boolean is accepted exactly when it is `true` or `false`, and reads as true exactly for `true`. |
| CaseMetadata.ParseTimeoutOfNatToString | engine/atf_iface/test_case_test.cpp:174-186 | `ParseTimeout` accepts the decimal text of every positive number and reads it back as that number. |
| CaseMetadata.SetField | engine/atf_iface/test_case_test.cpp:160-209 | Setting a field from text succeeds exactly when the text is in the field's grammar. A refusal names the key and the value. |
| CaseMetadata.SetFieldWellFormed | engine/atf_iface/test_case_test.cpp:160-209 | Setting an accepted value keeps metadata well formed: positive timeout, word-valued sets, absolute files, absolute-or-bare programs, `X-` user keys. |
| CaseMetadata.ParseFiles | engine/atf_iface/test_case_test.cpp:160-209 | A file list is accepted exactly when every word is an absolute path, and then it is the set of its words. |
| CaseMetadata.ParsePrograms | engine/atf_iface/test_case_test.cpp:683-736 | A program list is accepted exactly when every word is absolute or a bare name, and then it is the set of its words. |
| CaseMetadata.BuilderField | engine/atf_iface/test_case_test.cpp:111 | The builder's field names map back to their fields. Any other name maps to no field. |
| Scenarios.BuilderScenario | engine/atf_iface/test_case_test.cpp:105-118 | Setting `allowed_platforms` to `foo bar baz` through the builder is not refused, and gives defaults with platforms {foo, bar, baz}. A case built from it keeps its program and its name, and has the same properties as the metadata. |
| Scenarios.PlatformsSet | engine/atf_iface/test_case_test.cpp:110-113 | `allowed_platforms` names the platforms field, and `foo bar baz` sets it to exactly those three words. |
| Scenarios.CustomEntriesScenario | engine/atf_iface/test_case_test.cpp:175-205 | Recording `X-foo`, `X-bar` and `X-baz-www` through the builder succeeds three times and gives the defaults with exactly those entries, which is also what parsing them as properties gives. |
| TestCases.FakeGetters | engine/atf_iface/test_case_test.cpp:121-132 | Characterises `TestCases.Fake` and `TestCases.Description`: a synthetic case returns the program, name and description it was built with. |
| TestCases.FromProperties | engine/atf_iface/test_case_test.cpp:135-222 | A test case is built exactly when its properties parse. It is then a real case with the given program, name and parsed metadata. Otherwise the error is the parser's. |
| Properties.FromProperties | engine/atf_iface/test_case_test.cpp:135-222 | Parsing succeeds exactly when every key is known with a value in its grammar, or is an `X-` key. Success gives the order-free reference interpretation, which is well formed. Failure names an invalid key that is lexicographically least among the invalid keys, with an unknown-property error for an unknown key and an invalid-value error otherwise. |
| Properties.FirstRejectionIsLeast | engine/atf_iface/test_case_test.cpp:212-222 | Characterises `Properties.ApplyAll` over the sorted keys: the key-by-key fold in sorted key order succeeds exactly when every property is valid, and then equals the reference interpretation. Otherwise it fails with the error of the least invalid key. |
| Properties.ApplyAllOverrides | engine/atf_iface/test_case_test.cpp:160-209 | Characterises `Properties.ApplyAll` on valid input: folding valid, distinct keys overrides exactly the fields and user entries they name. |
| Properties.ApplyAllStopsAtFirstRefused | engine/atf_iface/test_case_test.cpp:212-222 | The fold fails exactly when some key is refused, and then with the rejection of the first refused key. |
| Properties.AllValidApplied | engine/atf_iface/test_case_test.cpp:160-222 | When no key of a sorted listing is refused, every property is acceptable and the fold from the defaults ends in the reference interpretation `Properties.Interpret`. |
| Properties.InterpretWellFormed | engine/atf_iface/test_case_test.cpp:160-209 | Characterises `Properties.Interpret`: the reference interpretation of acceptable properties is well formed. |
| Properties.ParsedFields | engine/atf_iface/test_case_test.cpp:160-209 | After a successful parse, each field comes from its key's value: text verbatim, booleans, timeouts and sizes by their grammars, and lists as word sets. A field whose key is absent keeps its default. User metadata is exactly the `X-` entries. |
| Properties.SingleProperty | engine/atf_iface/test_case_test.cpp:308-736 | A map with one accepted known property parses to the defaults with just that field set. |
| Properties.EmptyMapIsDefaults | engine/atf_iface/test_case_test.cpp:135-157 | The empty map parses to the defaults, and the defaults serialise to the empty map. |
| Scenarios.DefaultsScenario | engine/atf_iface/test_case_test.cpp:135-157 | A case built from no properties has the given program and name and the default metadata, and its requirement check passes. |
| Scenarios.OverrideAllScenario | engine/atf_iface/test_case_test.cpp:160-209 | The thirteen properties of the override test parse to exactly the metadata the test asserts field by field: timeout 123, memory 1 MiB, three configs, the three `X-` entries, and so on. |
| Scenarios.Timeout123 | engine/atf_iface/test_case_test.cpp:174-186 | `123` parses as a timeout of 123 seconds. |
| Units.OneMebibyte | engine/atf_iface/test_case_test.cpp:171-199 | `1m` is 1048576 bytes. |
| Properties.UnknownKeyRejected | engine/atf_iface/test_case_test.cpp:212-222 | A map holding a key that is neither known nor `X-` fails to parse. That key alone gives an unknown-property error naming it. |
| Scenarios.UnknownPropertyScenario | engine/atf_iface/test_case_test.cpp:212-222 | `foobar` is refused with the message `Unknown test case metadata property 'foobar'`. |
| Properties.EmptyCanonicalMap | engine/atf_iface/test_case_test.cpp:225-234 | Metadata serialises to the empty map exactly when it is the defaults. |
| Properties.UserOnlyMap | engine/atf_iface/test_case_test.cpp:237-250 | A map of `X-` entries only parses to defaults carrying those entries, and serialises back to the same map. |
| Properties.AllPropertiesOfUsers | engine/atf_iface/test_case_test.cpp:237-250 | Defaults carrying some user entries serialise to exactly those entries. |
| Scenarios.OnlyUserScenario | engine/atf_iface/test_case_test.cpp:237-250 | The two `X-` entries of the test are reproduced exactly. |
| Properties.ReEmitted | engine/atf_iface/test_case_test.cpp:253-278 | Re-serialising a parsed map emits every given field as the canonical form of its value, and drops it when that form is empty. It emits no field that was not given, and reproduces `X-` entries verbatim in both directions. The output keys are a subset of the input keys. |
| Properties.ParsedField | engine/atf_iface/test_case_test.cpp:253-278 | Per field: a given value is accepted and is emitted again in canonical form. An absent one is not emitted. |
| Properties.CanonicalWords | engine/atf_iface/test_case_test.cpp:253-278 | The canonical form of a list is its distinct words sorted and joined with single spaces. An empty list has none. |
| Properties.CanonicalText | engine/atf_iface/test_case_test.cpp:253-278 | `descr` and `require.user` are re-emitted verbatim unless empty. |
| Properties.CanonicalCleanup | engine/atf_iface/test_case_test.cpp:253-278 | `has.cleanup` is re-emitted as `true` when it is `true`, and dropped when it is `false`. |
| Properties.CanonicalTimeout | engine/atf_iface/test_case_test.cpp:253-278 | A timeout is dropped when it equals the default, and is otherwise re-emitted as the decimal text of its value. |
| Properties.CanonicalMemory | engine/atf_iface/test_case_test.cpp:253-278 | A required memory is dropped when it is zero, and is otherwise re-emitted as the decimal byte count of its size. |
| Scenarios.AllPropertiesAllScenario | engine/atf_iface/test_case_test.cpp:253-278 | Re-serialising the test's map gives back the same map, except that `require.arch` becomes `i386 macppc x86_64` and `require.config` becomes `var1 var2 var3`. |
| Scenarios.ArchitecturesSorted | engine/atf_iface/test_case_test.cpp:261-273 | `i386 x86_64 macppc` is listed as `i386 macppc x86_64`. |
| Scenarios.ConfigsSorted | engine/atf_iface/test_case_test.cpp:262-274 | `var1 var3 var2` is listed as `var1 var2 var3`. |
| Properties.WordsOfFlattenSet | engine/atf_iface/test_case_test.cpp:253-278 | A flattened set of words splits back into exactly its members, each once, in increasing order. |
| Properties.WordSetOfFlattenSet | engine/atf_iface/test_case_test.cpp:253-278 | The word set of a flattened set is the set itself. |
| Properties.AllPropertiesLookup | engine/atf_iface/test_case_test.cpp:225-278 | Characterises `Properties.AllProperties`: a field's key is in the serialised map exactly when the field differs from its default, and then it holds the field's canonical text. |
| Properties.RoundTrip | engine/atf_iface/test_case_test.cpp:253-278 | Parsing the serialisation of well-formed metadata gives back that metadata. |
| Properties.InterpretAllProperties | engine/atf_iface/test_case_test.cpp:225-278 | The reference interpretation of the serialisation of well-formed metadata is that metadata. |
| Properties.CanonicalIdempotent | engine/atf_iface/test_case_test.cpp:253-278 | Serialising a parsed map is a fixed point: parsing and serialising it again changes nothing. |
| Properties.PropertyField | engine/atf_iface/test_case_test.cpp:160-209 | The known keys map back to their fields. No `X-` key and no other key names a field. |
| Properties.Apply | engine/atf_iface/test_case_test.cpp:160-222 | One property is recorded exactly when it is acceptable. Otherwise its rejection is the error. |
| Lexicographic.Sorted | engine/atf_iface/test_case_test.cpp:253-278 | The listing of a set holds each member once, in strictly increasing order. |
| Lexicographic.SortedUnique | engine/atf_iface/test_case_test.cpp:253-278 | A strictly increasing listing of a set is its sorted listing. |
| Lexicographic.Least | engine/atf_iface/test_case_test.cpp:497-512 | The least element of a non-empty set is a member and sorts no later than any member. |
| Lexicographic.BelowTransitive | engine/atf_iface/test_case_test.cpp:253-278 | The string order is transitive; with BelowReflexive, BelowAntisymmetric and BelowTotal it is a total order. |
| Lexicographic.BelowAntisymmetric | engine/atf_iface/test_case_test.cpp:253-278 | Two strings each below the other are equal. |
| Lexicographic.BelowTotal | engine/atf_iface/test_case_test.cpp:253-278 | Any two strings are ordered one way or the other. |
| Text.WordsOfJoin | engine/atf_iface/test_case_test.cpp:253-278 | Splitting a space-joined list of words gives back exactly those words. |
| Units.DecimalValueOfNatToString | engine/atf_iface/test_case_test.cpp:266 | The decimal text of a number reads back as that number. |
| Units.ParseBytesOfNatToString | engine/atf_iface/test_case_test.cpp:171-199 | A serialised byte count parses back as the same size. |
| Units.HundredTebibytes | engine/atf_iface/test_case_test.cpp:667-680 | `100t` is 100 TiB, and it is written `100.00T`. |
| Units.ParseBytesWithUnit | engine/atf_iface/test_case_test.cpp:651-680 | A number followed by a unit letter parses as that number times the unit's multiplier. Characterises `Units.ParseBytes` with ParseBytesOfNatToString. |
| Units.FormatWholeTebibytes | engine/atf_iface/test_case_test.cpp:667-680 | Characterises `Units.FormatBytes`: a positive whole number of tebibytes is written as that number followed by `.00T`. |
| TestCases.FakeRunIsSilent | engine/atf_iface/test_case_test.cpp:281-293 | Characterises `TestCases.Run` on a synthetic case: running it returns the stored result and sends no output notification, whatever the executor would report. |
| TestCases.RealRunDelegates | engine/atf_iface/test_case_test.cpp:281-293 | Characterises `TestCases.Run` on a real case: it runs exactly as the executor reports. |
| TestCases.PropertiesRoundTrip | engine/atf_iface/test_case_test.cpp:114-117 | Characterises `TestCases.AllProperties`: a real case with well-formed metadata is rebuilt unchanged from its own properties. |
| TestCases.FakeRequiresNothing | engine/atf_iface/test_case_test.cpp:296-305 | A synthetic case passes the requirement check under any configuration and host. |
| TestCases.CheckRequirements | engine/atf_iface/test_case_test.cpp:296-736 | The check of a case returns `""` exactly when the case's metadata is satisfied for its program's suite, configuration and host. |
| Requirements.CheckRequirements | engine/atf_iface/test_case_test.cpp:296-736 | The check returns `""` exactly when every requirement holds. |
| Requirements.FirstFailureReported | engine/atf_iface/test_case_test.cpp:296-736 | The reason is that of the first failing requirement, in the order architecture, platform, configuration, user, files, memory, programs. Within a set, the least missing member is named. |
| Requirements.NothingRequired | engine/atf_iface/test_case_test.cpp:296-305 | Default metadata passes the check. |
| Requirements.CheckArchitecture | engine/atf_iface/test_case_test.cpp:308-373 | Passes exactly when no architecture is required or the configured one is allowed. Otherwise the reason names the configured architecture. |
| Requirements.OnlyArchitectures | engine/atf_iface/test_case_test.cpp:308-373 | With only an architecture set required, the check is set membership of the configured architecture, with its message. |
| Scenarios.ParsedArchitectures | engine/atf_iface/test_case_test.cpp:308-373 | A case built from `require.arch` alone passes exactly when that list is empty or contains the configured architecture. |
| Scenarios.ArchitectureOneOk | engine/atf_iface/test_case_test.cpp:308-321 | `x86_64` required on `x86_64` passes. |
| Scenarios.ArchitectureOneFail | engine/atf_iface/test_case_test.cpp:324-339 | `x86_64` required on `i386` fails with `Current architecture 'i386' not supported`. |
| Scenarios.ArchitectureManyOk | engine/atf_iface/test_case_test.cpp:342-355 | `x86_64 i386 powerpc` on `i386` passes. |
| Scenarios.ArchitectureManyFail | engine/atf_iface/test_case_test.cpp:358-373 | `x86_64 i386 powerpc` on `arm` fails, naming `arm`. |
| Requirements.CheckPlatform | engine/atf_iface/test_case_test.cpp:376-439 | Passes exactly when no platform is required or the configured one is allowed. Otherwise the reason names the configured platform. |
| Requirements.OnlyPlatforms | engine/atf_iface/test_case_test.cpp:376-439 | With only a platform set required, the check is set membership of the configured platform, with its message. |
| Scenarios.ParsedPlatforms | engine/atf_iface/test_case_test.cpp:376-439 | A case built from `require.machine` alone passes exactly when that list is empty or contains the configured platform. |
| Scenarios.PlatformOneOk | engine/atf_iface/test_case_test.cpp:376-389 | `amd64` required on `amd64` passes. |
| Scenarios.PlatformOneFail | engine/atf_iface/test_case_test.cpp:392-406 | `amd64` required on `i386` fails with `Current platform 'i386' not supported`. |
| Scenarios.PlatformManyOk | engine/atf_iface/test_case_test.cpp:409-422 | `amd64 i386 macppc` on `i386` passes. |
| Scenarios.PlatformManyFail | engine/atf_iface/test_case_test.cpp:425-439 | `amd64 i386 macppc` on `shark` fails, naming `shark`. |
| Requirements.CheckConfigs | engine/atf_iface/test_case_test.cpp:442-531 | Passes exactly when every required variable is defined under `test_suites.<suite>.<name>` (the global `unprivileged_user` for `unprivileged-user`). Otherwise it names the least undefined one. |
| Requirements.MissingConfigs | engine/atf_iface/test_case_test.cpp:442-531 | The undefined variables are among those required, and there are none exactly when all are defined. |
| Requirements.OnlyConfigs | engine/atf_iface/test_case_test.cpp:442-531 | With only configuration variables required, the check names the least undefined one, or passes. |
| Scenarios.ParsedConfigs | engine/atf_iface/test_case_test.cpp:442-531 | A case built from `require.config` alone gives the same verdict from the words of its value. |
| Scenarios.ConfigOneOk | engine/atf_iface/test_case_test.cpp:442-456 | `my-var` defined for suite `suite` passes. |
| Scenarios.ConfigOneFail | engine/atf_iface/test_case_test.cpp:459-475 | An undefined `unprivileged_user` suite variable fails with `Required configuration property 'unprivileged_user' not defined`. |
| Scenarios.ConfigManyOk | engine/atf_iface/test_case_test.cpp:478-494 | `foo bar baz`, all defined, passes. |
| Scenarios.ConfigManyFail | engine/atf_iface/test_case_test.cpp:497-512 | With `foo` defined and `bar` and `baz` undefined, the reason names `bar`. |
| Scenarios.ThreeConfigsTwoMissing | engine/atf_iface/test_case_test.cpp:497-512 | Of three required variables with two undefined, the lesser undefined one is named. |
| Scenarios.SpecialConfig | engine/atf_iface/test_case_test.cpp:515-531 | `unprivileged-user` passes exactly when the global `unprivileged_user` is set. Otherwise its reason names `unprivileged-user`. |
| Scenarios.ConfigSpecial | engine/atf_iface/test_case_test.cpp:515-531 | On a default configuration tree `unprivileged_user` is not set and the check fails naming `unprivileged-user`. After a user record is stored under `unprivileged_user` it is set and the check passes. The configured platform still reads back. |
| ConfigTrees.ConfigTree.Empty | engine/atf_iface/test_case_test.cpp:304 | An empty tree has nothing set. |
| ConfigTrees.ConfigTree.Default | engine/atf_iface/test_case_test.cpp:317 | The default tree sets architecture and platform and nothing else; in particular `unprivileged_user` is unset. |
| ConfigTrees.ConfigTree.SetString | engine/atf_iface/test_case_test.cpp:317-318 | Stores a string under a key, replacing it, and changes no other key. |
| ConfigTrees.ConfigTree.SetUser | engine/atf_iface/test_case_test.cpp:528-529 | Stores a user record under a key, replacing it, and changes no other key. |
| ConfigTrees.ConfigTree.Lookup | engine/atf_iface/test_case_test.cpp:317-320 | Reads the string at a key. An unset key or a non-string value is an error. |
| ConfigTrees.ConfigTree.IsSet | engine/atf_iface/test_case_test.cpp:613 | A key is set exactly when looking it up does not fail as an unknown key. |
| ConfigTrees.LookupText | engine/atf_iface/test_case_test.cpp:317-319 | The lookup succeeds exactly when the key holds a string. Otherwise the error tells an unknown key from a wrong type. |
| ConfigTrees.SetKeepsOthers | engine/atf_iface/test_case_test.cpp:451-454 | Setting a key makes it set and leaves every other key and its lookup unchanged. |
| Requirements.CheckUser | engine/atf_iface/test_case_test.cpp:534-618 | `root` needs uid 0. `unprivileged` needs a non-zero uid, or a configured `unprivileged_user` when run as root. Other values are not checked. |
| Requirements.OnlyUser | engine/atf_iface/test_case_test.cpp:534-618 | The whole required-user matrix with its two messages. |
| Scenarios.ParsedUser | engine/atf_iface/test_case_test.cpp:534-618 | The same matrix for a case built from `require.user`. |
| Scenarios.UserRootOk | engine/atf_iface/test_case_test.cpp:534-548 | `root` as uid 0 passes. |
| Scenarios.UserRootFail | engine/atf_iface/test_case_test.cpp:551-563 | `root` as uid 123 fails with `Requires root privileges`. |
| Scenarios.UserUnprivilegedSame | engine/atf_iface/test_case_test.cpp:566-581 | `unprivileged` as uid 123 passes. |
| Scenarios.UserUnprivilegedOk | engine/atf_iface/test_case_test.cpp:584-599 | `unprivileged` as root passes once `unprivileged_user` is configured. |
| Scenarios.UserUnprivilegedFail | engine/atf_iface/test_case_test.cpp:602-618 | `unprivileged` as root without `unprivileged_user` fails with the unprivileged-user message. |
| Requirements.CheckFiles | engine/atf_iface/test_case_test.cpp:621-648 | Passes exactly when every required file exists. Otherwise it names the least missing one. |
| Requirements.OnlyFile | engine/atf_iface/test_case_test.cpp:621-648 | One required file passes exactly when it exists, and otherwise gives `'<path>' not found`. |
| Scenarios.ParsedFiles | engine/atf_iface/test_case_test.cpp:621-648 | A case built from `require.files` names the least missing file, or passes. |
| Scenarios.FilesOk | engine/atf_iface/test_case_test.cpp:621-634 | An existing absolute file passes. |
| Scenarios.FilesFail | engine/atf_iface/test_case_test.cpp:637-648 | `/non-existent/file` fails with `'/non-existent/file' not found`. |
| Requirements.CheckMemory | engine/atf_iface/test_case_test.cpp:651-680 | Passes exactly when no memory is required, the physical memory is unknown, or it is enough. Otherwise the reason names the required size. |
| Requirements.OnlyMemory | engine/atf_iface/test_case_test.cpp:651-680 | With only memory required, the same verdict and message. |
| Scenarios.ParsedMemory | engine/atf_iface/test_case_test.cpp:651-680 | A case built from `require.memory` compares the parsed size with the physical memory. |
| Scenarios.MemoryOk | engine/atf_iface/test_case_test.cpp:651-664 | `1m` passes when the memory is unknown or at least 1 MiB. |
| Scenarios.MemoryFail | engine/atf_iface/test_case_test.cpp:667-680 | `100t` on a smaller known memory fails with `Requires 100.00T of memory`. |
| Requirements.FindProgram | engine/atf_iface/test_case_test.cpp:683-736 | A PATH search finds a program exactly when it is an existing absolute path, or some PATH directory holds it as an executable. |
| Requirements.CheckPrograms | engine/atf_iface/test_case_test.cpp:683-736 | Passes exactly when every required program is found. Otherwise it names the least missing one, as a path or as a name searched in PATH. |
| Requirements.MissingPrograms | engine/atf_iface/test_case_test.cpp:683-736 | The missing programs are among those required, and there are none exactly when all are found. |
| Requirements.OnlyPrograms | engine/atf_iface/test_case_test.cpp:683-736 | With only programs required, the check names the least missing one, or passes. |
| Scenarios.ParsedPrograms | engine/atf_iface/test_case_test.cpp:683-736 | A case built from `require.progs` gives the same verdict from the words of its value. |
| Scenarios.ProgramsOk | engine/atf_iface/test_case_test.cpp:683-702 | `/bin/ls foo /bin/mv` passes when both absolute paths exist and `foo` is in the only PATH directory. |
| Scenarios.FoundInOnlyDirectory | engine/atf_iface/test_case_test.cpp:690-692 | With one PATH directory, a bare name is found exactly when that directory holds it. |
| Scenarios.ProgramsFailAbsolute | engine/atf_iface/test_case_test.cpp:705-717 | A missing absolute program fails with `'/non-existent/program' not found`. |
| Scenarios.ProgramsFailRelative | engine/atf_iface/test_case_test.cpp:720-736 | With `foo` on PATH and `bar` not, `foo bar` fails with `'bar' not found in PATH`. |
| Scenarios.SecondProgramMissing | engine/atf_iface/test_case_test.cpp:720-736 | Of two parsed programs where only the second is missing, that one is named. |

## Left out

- The command-line configuration loading of kyua (`cli/common.cpp`). It reads the home directory and the file system, and has no logic of its own to state.
- Real I/O. The current user, the file system, `PATH` and the physical memory are parameters (`Requirements.Host`), and the configuration is a map. Nothing is probed.
- Running a real test case and the output hooks. `TestCases.Run` takes the executor's outcome as a parameter, and a test result is an opaque value.
- Pointer identity of the test program and the mock test-program class. A test case holds its program by value.
- The configuration schema of `config::tree`: which keys exist, how dotted keys nest, and how values are type-checked on set.
- Units.ParseBytes: fractional sizes such as `1.5g` are not accepted, and 64-bit overflow of a size is not modelled (naturals are unbounded).
- Units.FormatBytes: the two decimals of a size are truncated, not rounded as `printf` would. The only size whose text the source pins (`100.00T`) is exact either way.
- Properties.AllProperties: writes a required memory as a plain byte count rather than in the two-decimal unit format, so that parsing it back is exact. The only serialisation test of the source sets no memory.
- Timeout and size values: integer widths of the source (`unsigned long`, `uint64_t`) are not modelled.
- Required files and programs: paths are compared as strings, with no normalisation. A file created in a `PATH` directory is taken to be executable.
- Requirements.CheckUser: a `require.user` value other than `root` or `unprivileged` is kept verbatim and never fails the check. The source's tests do not constrain such values.
- An architecture or platform that is not set in the configuration is read as the empty string.
- The exact wording of the unprivileged-user message (`Requires an unprivileged user but the unprivileged-user configuration variable is not defined`). The tests only match it by pattern.
- The order of checks between requirement kinds. The tests exercise one failing requirement at a time, so the fixed order is a design choice of the model.
