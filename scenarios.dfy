/**
 * Concrete property maps and their readings, one lemma per behaviour that the
 * unit tests of the ATF test case pin down.
 */
module Scenarios {
  import opened Wrappers
  import opened Lexicographic
  import opened Text
  import Units
  import opened CaseMetadata
  import opened Properties
  import opened ConfigTrees
  import opened Requirements
  import TestCases

  /** The words of a joined list are its members. */
  lemma WordSetOfJoin(ws: seq<string>)
    requires forall i :: 0 <= i < |ws| ==> IsWord(ws[i])
    ensures WordSet(Join(ws)) == set w | w in ws
  {
    WordsOfJoin(ws);
  }

  /** A strictly increasing list of words is flattened back into itself. */
  lemma FlattenIncreasing(ws: seq<string>)
    requires forall i :: 0 <= i < |ws| ==> IsWord(ws[i])
    requires Increasing(ws)
    ensures FlattenSet(set w | w in ws) == Join(ws)
  {
    SortedUnique(ws, set w | w in ws);
  }

  /** Three words whose first characters increase are listed in increasing
      order. */
  lemma IncreasingByFirst(a: string, b: string, c: string)
    requires IsWord(a) && IsWord(b) && IsWord(c)
    requires a[0] < b[0] < c[0]
    ensures Increasing([a, b, c])
  {
  }

  /** Three words whose first characters increase are flattened in that
      order. */
  lemma FlattenThree(s: set<string>, a: string, b: string, c: string)
    requires IsWord(a) && IsWord(b) && IsWord(c)
    requires a[0] < b[0] < c[0]
    requires s == {a, b, c}
    ensures FlattenSet(s) == a + " " + b + " " + c
  {
    IncreasingByFirst(a, b, c);
    FlattenIncreasing([a, b, c]);
    JoinThree(a, b, c);
  }

  lemma JoinThree(a: string, b: string, c: string)
    ensures (set w | w in [a, b, c]) == {a, b, c}
    ensures Join([a, b, c]) == a + " " + b + " " + c
  {
    assert [a, b, c][1..] == [b, c];
    assert Join([b, c]) == b + " " + c;
    assert a + " " + b + " " + c == a + " " + (b + " " + c);
  }

  lemma ArchitectureWords(text: string)
    requires text == "i386" + " " + "x86_64" + " " + "macppc"
    ensures WordSet(text) == {"i386", "x86_64", "macppc"}
  {
    ThreeWords(text, "i386", "x86_64", "macppc");
  }

  lemma ArchitecturesFlattened(s: set<string>)
    requires s == {"i386", "x86_64", "macppc"}
    ensures FlattenSet(s) == "i386 macppc x86_64"
  {
    FlattenThree(s, "i386", "macppc", "x86_64");
    SortedArchitecturesText();
  }

  lemma SortedArchitecturesText()
    ensures "i386" + " " + "macppc" + " " + "x86_64" == "i386 macppc x86_64"
  {
  }

  /** The architectures "i386 x86_64 macppc" are re-emitted in sorted order. */
  lemma ArchitecturesSorted(text: string)
    requires text == "i386 x86_64 macppc"
    ensures FlattenSet(WordSet(text)) == "i386 macppc x86_64"
  {
    assert text == "i386" + " " + "x86_64" + " " + "macppc";
    ArchitectureWords(text);
    ArchitecturesFlattened(WordSet(text));
  }

  // Word lists of one, two and three words.

  lemma OneWord(text: string)
    requires IsWord(text)
    ensures WordSet(text) == {text}
  {
    WordSetOfJoin([text]);
    assert Join([text]) == text;
  }

  lemma TwoWords(text: string, a: string, b: string)
    requires IsWord(a) && IsWord(b)
    requires text == a + " " + b
    ensures WordSet(text) == {a, b}
  {
    WordSetOfJoin([a, b]);
    assert Join([a, b]) == a + " " + b;
  }

  lemma ThreeWords(text: string, a: string, b: string, c: string)
    requires IsWord(a) && IsWord(b) && IsWord(c)
    requires text == a + " " + b + " " + c
    ensures WordSet(text) == {a, b, c}
  {
    WordSetOfJoin([a, b, c]);
    JoinThree(a, b, c);
  }

  /** An unknown key is refused with a message naming it. */
  lemma UnknownPropertyScenario()
    ensures var r := FromProperties(map["foobar" := "Some text"]);
      r.Err? && r.error.Message() == "Unknown test case metadata property 'foobar'"
  {
    var key := "foobar";
    assert PropertyField(key).None? && !IsUserKey(key);
    UnknownKeyRejected(map[key := "Some text"], key);
    FoobarMessage();
  }

  lemma FoobarMessage()
    ensures UnknownProperty("foobar").Message() == "Unknown test case metadata property 'foobar'"
  {
  }

  /** A map of user metadata only is reproduced exactly. */
  lemma OnlyUserScenario()
    ensures var props := map["X-foo" := "bar", "X-another-var" := "This is a string"];
      FromProperties(props).Ok? && AllProperties(FromProperties(props).value) == props
  {
    UserOnlyMap(map["X-foo" := "bar", "X-another-var" := "This is a string"]);
  }

  /** The property map in which every known key and three user keys are
      given. */
  predicate OverrideAllMap(props: PropertyMap) {
    && props.Keys == {
         "descr", "has.cleanup", "require.arch", "require.config", "require.files",
         "require.machine", "require.memory", "require.progs", "require.user", "timeout",
         "X-foo", "X-bar", "X-baz-www"}
    && OverrideAllValues(props)
  }

  predicate OverrideAllValues(props: PropertyMap)
    requires "descr" in props && "has.cleanup" in props && "require.arch" in props
    requires "require.config" in props && "require.files" in props && "require.machine" in props
    requires "require.memory" in props && "require.progs" in props && "require.user" in props
    requires "timeout" in props && "X-foo" in props && "X-bar" in props && "X-baz-www" in props
  {
    && props["descr"] == "Some text"
    && props["has.cleanup"] == "true"
    && props["require.arch"] == "i386 x86_64"
    && props["require.config"] == "var1 var2 var3"
    && props["require.files"] == "/file1 /dir/file2"
    && props["require.machine"] == "amd64"
    && props["require.memory"] == "1m"
    && props["require.progs"] == "/bin/ls svn"
    && props["require.user"] == "root"
    && props["timeout"] == "123"
    && props["X-foo"] == "value1"
    && props["X-bar"] == "value2"
    && props["X-baz-www"] == "value3"
  }

  /** Every key of that map is parsed into its field. */
  lemma OverrideAllScenario(program: TestCases.TestProgram, props: PropertyMap)
    requires OverrideAllMap(props)
    ensures var r := TestCases.FromProperties(program, "test-case", props);
      && r.Ok? && r.value.program == program && r.value.name == "test-case"
      && r.value.metadata == Metadata(
           description := "Some text",
           hasCleanup := true,
           timeout := 123,
           allowedArchitectures := {"i386", "x86_64"},
           allowedPlatforms := {"amd64"},
           requiredConfigs := {"var1", "var2", "var3"},
           requiredFiles := {"/file1", "/dir/file2"},
           requiredMemory := Units.MiB,
           requiredPrograms := {"/bin/ls", "svn"},
           requiredUser := "root",
           userMetadata := map["X-foo" := "value1", "X-bar" := "value2", "X-baz-www" := "value3"])
  {
    Timeout123(props["timeout"]);
    Units.OneMebibyte();
    OverrideAllLists(props["require.arch"], props["require.machine"], props["require.config"]);
    OverrideAllPaths(props["require.files"], props["require.progs"]);
    OverrideAllAccepted(props);
    OverrideAllUsers(props);
    KeyNames();
    OverrideAllScalars(props);
    OverrideAllSets(props);
    OverrideAllEntries(props);
  }

  /** The property keys of the fields, spelled out. */
  lemma KeyNames()
    ensures PropertyKey(Description) == "descr" && PropertyKey(HasCleanup) == "has.cleanup"
    ensures PropertyKey(Timeout) == "timeout" && PropertyKey(RequiredUser) == "require.user"
    ensures PropertyKey(AllowedArchitectures) == "require.arch" && PropertyKey(AllowedPlatforms) == "require.machine"
    ensures PropertyKey(RequiredConfigs) == "require.config" && PropertyKey(RequiredFiles) == "require.files"
    ensures PropertyKey(RequiredMemory) == "require.memory" && PropertyKey(RequiredPrograms) == "require.progs"
  {
  }

  /** The scalar fields read from an accepted map holding the values of the
      scenario. */
  lemma OverrideAllScalars(props: PropertyMap)
    requires FromProperties(props).Ok?
    requires PropertyKey(Description) in props && PropertyKey(HasCleanup) in props && PropertyKey(RequiredUser) in props
    requires PropertyKey(Timeout) in props && PropertyKey(RequiredMemory) in props
    requires props[PropertyKey(Description)] == "Some text" && props[PropertyKey(HasCleanup)] == "true" && props[PropertyKey(RequiredUser)] == "root"
    requires ParseTimeout(props[PropertyKey(Timeout)]) == Some(123)
    requires Units.ParseBytes(props[PropertyKey(RequiredMemory)]) == Some(Units.MiB)
    ensures var md := FromProperties(props).value;
      && md.description == "Some text" && md.hasCleanup && md.timeout == 123
      && md.requiredMemory == Units.MiB && md.requiredUser == "root"
  {
    assert FromProperties(props).value == Interpret(props);
    KnownKeysAccepted(props);
    InterpretScalars(props);
  }

  /** The list fields read from an accepted map holding the values of the
      scenario. */
  lemma OverrideAllSets(props: PropertyMap)
    requires FromProperties(props).Ok?
    requires PropertyKey(AllowedArchitectures) in props && PropertyKey(AllowedPlatforms) in props && PropertyKey(RequiredConfigs) in props
    requires PropertyKey(RequiredFiles) in props && PropertyKey(RequiredPrograms) in props
    requires WordSet(props[PropertyKey(AllowedArchitectures)]) == {"i386", "x86_64"}
    requires WordSet(props[PropertyKey(AllowedPlatforms)]) == {"amd64"}
    requires WordSet(props[PropertyKey(RequiredConfigs)]) == {"var1", "var2", "var3"}
    requires WordSet(props[PropertyKey(RequiredFiles)]) == {"/file1", "/dir/file2"}
    requires WordSet(props[PropertyKey(RequiredPrograms)]) == {"/bin/ls", "svn"}
    ensures var md := FromProperties(props).value;
      && md.allowedArchitectures == {"i386", "x86_64"}
      && md.allowedPlatforms == {"amd64"}
      && md.requiredConfigs == {"var1", "var2", "var3"}
      && md.requiredFiles == {"/file1", "/dir/file2"}
      && md.requiredPrograms == {"/bin/ls", "svn"}
  {
    assert FromProperties(props).value == Interpret(props);
    KnownKeysAccepted(props);
    InterpretLists(props);
  }

  /** The user metadata read from an accepted map holding the entries of the
      scenario. */
  lemma OverrideAllEntries(props: PropertyMap)
    requires FromProperties(props).Ok?
    requires (map k | k in props && IsUserKey(k) :: props[k])
      == map["X-foo" := "value1", "X-bar" := "value2", "X-baz-www" := "value3"]
    ensures FromProperties(props).value.userMetadata
      == map["X-foo" := "value1", "X-bar" := "value2", "X-baz-www" := "value3"]
  {
    UsersRecovered(map k | k in props && IsUserKey(k) :: props[k], props);
  }

  lemma Timeout123(text: string)
    requires text == "123"
    ensures ParseTimeout(text) == Some(123)
  {
    assert text[..2] == "12" && text[..2][..1] == "1" && text[..2][..1][..0] == "";
    assert Units.AllDigits(text);
    assert Units.DecimalValue("1") == 1;
    assert Units.DecimalValue("12") == 12;
    assert Units.DecimalValue(text) == 123;
  }

  lemma OverrideAllLists(arch: string, machine: string, config: string)
    requires arch == "i386 x86_64" && machine == "amd64" && config == "var1 var2 var3"
    ensures WordSet(arch) == {"i386", "x86_64"}
    ensures WordSet(machine) == {"amd64"}
    ensures WordSet(config) == {"var1", "var2", "var3"}
  {
    assert arch == "i386" + " " + "x86_64";
    TwoWords(arch, "i386", "x86_64");
    OneWord(machine);
    assert config == "var1" + " " + "var2" + " " + "var3";
    ThreeWords(config, "var1", "var2", "var3");
  }

  lemma OverrideAllPaths(files: string, progs: string)
    requires files == "/file1 /dir/file2" && progs == "/bin/ls svn"
    ensures WordSet(files) == {"/file1", "/dir/file2"} && ParseFiles(files).Some?
    ensures WordSet(progs) == {"/bin/ls", "svn"} && ParsePrograms(progs).Some?
  {
    OverrideAllFiles(files);
    OverrideAllPrograms(progs);
  }

  lemma OverrideAllFiles(files: string)
    requires files == "/file1 /dir/file2"
    ensures WordSet(files) == {"/file1", "/dir/file2"} && ParseFiles(files).Some?
  {
    assert files == "/file1" + " " + "/dir/file2";
    TwoWords(files, "/file1", "/dir/file2");
    assert IsAbsolute("/file1") && IsAbsolute("/dir/file2");
  }

  lemma OverrideAllPrograms(progs: string)
    requires progs == "/bin/ls svn"
    ensures WordSet(progs) == {"/bin/ls", "svn"} && ParsePrograms(progs).Some?
  {
    assert progs == "/bin/ls" + " " + "svn";
    TwoWords(progs, "/bin/ls", "svn");
    assert IsAbsolute("/bin/ls") && IsBareName("svn");
  }

  lemma OverrideAllAccepted(props: PropertyMap)
    requires OverrideAllMap(props)
    requires ParseTimeout(props["timeout"]).Some? && Units.ParseBytes(props["require.memory"]).Some?
    requires ParseFiles(props["require.files"]).Some? && ParsePrograms(props["require.progs"]).Some?
    ensures FromProperties(props).Ok?
  {
    forall k | k in props
      ensures Acceptable(k, props[k])
    {
    }
  }

  lemma OverrideAllUsers(props: PropertyMap)
    requires OverrideAllMap(props)
    ensures (map k | k in props && IsUserKey(k) :: props[k])
      == map["X-foo" := "value1", "X-bar" := "value2", "X-baz-www" := "value3"]
  {
  }

  /** The property map whose multi-word values are given out of order. */
  predicate AllPropertiesAllMap(props: PropertyMap) {
    && props.Keys == {
         "descr", "has.cleanup", "require.arch", "require.config", "require.machine",
         "require.progs", "require.user", "timeout", "X-foo", "X-bar", "X-baz-www"}
    && props["descr"] == "Some text that won't be sorted"
    && props["has.cleanup"] == "true"
    && props["require.arch"] == "i386 x86_64 macppc"
    && props["require.config"] == "var1 var3 var2"
    && props["require.machine"] == "amd64"
    && props["require.progs"] == "/bin/ls svn"
    && props["require.user"] == "root"
    && props["timeout"] == "123"
    && props["X-foo"] == "value1"
    && props["X-bar"] == "value2"
    && props["X-baz-www"] == "value3"
  }

  /** Serialising that map again changes only the order of the words of the
      multi-word values. */
  lemma AllPropertiesAllScenario(program: TestCases.TestProgram, props: PropertyMap)
    requires AllPropertiesAllMap(props)
    ensures var r := TestCases.FromProperties(program, "test-case", props);
      && r.Ok?
      && TestCases.AllProperties(r.value)
        == props["require.arch" := "i386 macppc x86_64"]["require.config" := "var1 var2 var3"]
  {
    KeyNames();
    Timeout123(props["timeout"]);
    AllPropertiesAllWords(props["require.arch"], props["require.config"], props["require.machine"], props["require.progs"]);
    AllPropertiesAllAccepted(props);
    ReEmitted(props);
    AllPropertiesAllListings(props);
    AllPropertiesAllScalars(props);
    var out := AllProperties(FromProperties(props).value);
    AllPropertiesAllFieldsKept(props, out);
    UserEntriesKept(props, out);
    AllPropertiesAllKept(props, out);
  }

  /** The words of the multi-word values, and their canonical order. */
  lemma AllPropertiesAllWords(arch: string, config: string, machine: string, progs: string)
    requires arch == "i386 x86_64 macppc" && config == "var1 var3 var2"
    requires machine == "amd64" && progs == "/bin/ls svn"
    ensures FlattenSet(WordSet(arch)) == "i386 macppc x86_64"
    ensures FlattenSet(WordSet(config)) == "var1 var2 var3"
    ensures FlattenSet(WordSet(machine)) == "amd64"
    ensures FlattenSet(WordSet(progs)) == "/bin/ls svn" && ParsePrograms(progs).Some?
  {
    ArchitecturesSorted(arch);
    ConfigsSorted(config);
    OneWord(machine);
    FlattenOne(WordSet(machine), machine);
    ProgramsFlattened(progs);
  }

  lemma ProgramsFlattened(progs: string)
    requires progs == "/bin/ls svn"
    ensures FlattenSet(WordSet(progs)) == "/bin/ls svn" && ParsePrograms(progs).Some?
  {
    assert progs == "/bin/ls" + " " + "svn";
    TwoWords(progs, "/bin/ls", "svn");
    assert IsAbsolute("/bin/ls") && IsBareName("svn");
    FlattenTwo(WordSet(progs), "/bin/ls", "svn");
  }

  lemma FlattenOne(s: set<string>, a: string)
    requires IsWord(a) && s == {a}
    ensures FlattenSet(s) == a
  {
    FlattenIncreasing([a]);
    assert (set w | w in [a]) == {a};
  }

  lemma FlattenTwo(s: set<string>, a: string, b: string)
    requires IsWord(a) && IsWord(b) && a[0] < b[0] && s == {a, b}
    ensures FlattenSet(s) == a + " " + b
  {
    FlattenIncreasing([a, b]);
    assert (set w | w in [a, b]) == {a, b};
    assert [a, b][1..] == [b];
  }

  /** Words that differ only in their last character sort by it. */
  lemma {:induction false} BelowByLast(p: string, x: char, y: char)
    requires x < y
    ensures Below(p + [x], p + [y])
    decreases |p|
  {
    if |p| > 0 {
      assert (p + [x])[1..] == p[1..] + [x] && (p + [y])[1..] == p[1..] + [y];
      BelowByLast(p[1..], x, y);
    }
  }

  /** Three words that share all but their last character, which increases,
      are flattened in that order. */
  lemma FlattenByLast(s: set<string>, p: string, x: char, y: char, z: char)
    requires IsWord(p) && !IsSpace(x) && !IsSpace(y) && !IsSpace(z) && x < y < z
    requires s == {p + [x], p + [y], p + [z]}
    ensures FlattenSet(s) == (p + [x]) + " " + (p + [y]) + " " + (p + [z])
  {
    var a, b, c := p + [x], p + [y], p + [z];
    BelowByLast(p, x, y);
    BelowByLast(p, y, z);
    BelowTransitive(a, b, c);
    assert a[|p|] != b[|p|] && b[|p|] != c[|p|] && a[|p|] != c[|p|];
    assert IsWord(a) && IsWord(b) && IsWord(c);
    FlattenIncreasing([a, b, c]);
    JoinThree(a, b, c);
  }

  lemma ConfigNames(p: string)
    requires p == "var"
    ensures p + ['1'] == "var1" && p + ['2'] == "var2" && p + ['3'] == "var3"
  {
  }

  lemma SortedConfigsText()
    ensures "var1" + " " + "var2" + " " + "var3" == "var1 var2 var3"
  {
  }

  /** The configuration names "var1 var3 var2" are re-emitted in sorted
      order. */
  lemma ConfigsSorted(text: string)
    requires text == "var1 var3 var2"
    ensures FlattenSet(WordSet(text)) == "var1 var2 var3"
  {
    assert text == "var1" + " " + "var3" + " " + "var2";
    ThreeWords(text, "var1", "var3", "var2");
    ConfigNames("var");
    FlattenByLast(WordSet(text), "var", '1', '2', '3');
    SortedConfigsText();
  }

  lemma AllPropertiesAllAccepted(props: PropertyMap)
    requires AllPropertiesAllMap(props)
    requires ParseTimeout(props["timeout"]).Some? && ParsePrograms(props["require.progs"]).Some?
    ensures FromProperties(props).Ok?
  {
    forall k | k in props
      ensures Acceptable(k, props[k])
    {
    }
  }

  /** The canonical value of every multi-word field given in the map. */
  lemma AllPropertiesAllListings(props: PropertyMap)
    requires PropertyKey(AllowedArchitectures) in props && PropertyKey(RequiredConfigs) in props
    requires PropertyKey(AllowedPlatforms) in props && PropertyKey(RequiredPrograms) in props
    requires ParsePrograms(props[PropertyKey(RequiredPrograms)]).Some?
    requires FlattenSet(WordSet(props[PropertyKey(AllowedArchitectures)])) == "i386 macppc x86_64"
    requires FlattenSet(WordSet(props[PropertyKey(RequiredConfigs)])) == "var1 var2 var3"
    requires FlattenSet(WordSet(props[PropertyKey(AllowedPlatforms)])) == "amd64"
    requires FlattenSet(WordSet(props[PropertyKey(RequiredPrograms)])) == "/bin/ls svn"
    ensures CanonicalValue(AllowedArchitectures, props[PropertyKey(AllowedArchitectures)]) == Some("i386 macppc x86_64")
    ensures CanonicalValue(RequiredConfigs, props[PropertyKey(RequiredConfigs)]) == Some("var1 var2 var3")
    ensures CanonicalValue(AllowedPlatforms, props[PropertyKey(AllowedPlatforms)]) == Some("amd64")
    ensures CanonicalValue(RequiredPrograms, props[PropertyKey(RequiredPrograms)]) == Some("/bin/ls svn")
  {
    CanonicalOfWords(AllowedArchitectures, props[PropertyKey(AllowedArchitectures)], "i386 macppc x86_64");
    CanonicalOfWords(RequiredConfigs, props[PropertyKey(RequiredConfigs)], "var1 var2 var3");
    CanonicalOfWords(AllowedPlatforms, props[PropertyKey(AllowedPlatforms)], "amd64");
    CanonicalOfWords(RequiredPrograms, props[PropertyKey(RequiredPrograms)], "/bin/ls svn");
  }

  /** The canonical value of every single-valued field given in the map. */
  lemma AllPropertiesAllScalars(props: PropertyMap)
    requires PropertyKey(Description) in props && PropertyKey(HasCleanup) in props
    requires PropertyKey(RequiredUser) in props && PropertyKey(Timeout) in props
    requires props[PropertyKey(Description)] == "Some text that won't be sorted"
    requires props[PropertyKey(HasCleanup)] == "true" && props[PropertyKey(RequiredUser)] == "root"
    requires ParseTimeout(props[PropertyKey(Timeout)]) == Some(123)
    ensures CanonicalValue(Description, props[PropertyKey(Description)]) == Some("Some text that won't be sorted")
    ensures CanonicalValue(HasCleanup, props[PropertyKey(HasCleanup)]) == Some("true")
    ensures CanonicalValue(RequiredUser, props[PropertyKey(RequiredUser)]) == Some("root")
    ensures CanonicalValue(Timeout, props[PropertyKey(Timeout)]) == Some("123")
  {
    CanonicalText(Description, props[PropertyKey(Description)]);
    CanonicalText(RequiredUser, props[PropertyKey(RequiredUser)]);
    CanonicalOfTimeout(props[PropertyKey(Timeout)]);
  }

  /** A multi-word value whose canonical listing is not empty is re-emitted
      as that listing. */
  lemma CanonicalOfWords(f: Field, text: string, listing: string)
    requires IsListField(f) && Accepted(f, text)
    requires FlattenSet(WordSet(text)) == listing && listing != ""
    ensures CanonicalValue(f, text) == Some(listing)
  {
    CanonicalWords(f, text);
  }

  lemma CanonicalOfTimeout(text: string)
    requires ParseTimeout(text) == Some(123)
    ensures CanonicalValue(Timeout, text) == Some("123")
  {
    NatToString123();
  }

  lemma NatToString123()
    ensures Units.NatToString(123) == "123"
  {
    assert Units.NatToString(1) == "1";
    assert Units.NatToString(12) == "12";
  }

  /** Every field given in the map is re-emitted with its canonical value. */
  lemma AllPropertiesAllFieldsKept(props: PropertyMap, out: PropertyMap)
    requires forall f :: PropertyKey(f) in props ==>
        Accepted(f, props[PropertyKey(f)])
        && (PropertyKey(f) in out <==> CanonicalValue(f, props[PropertyKey(f)]).Some?)
        && (PropertyKey(f) in out ==> out[PropertyKey(f)] == CanonicalValue(f, props[PropertyKey(f)]).value)
    requires PropertyKey(Description) in props && PropertyKey(HasCleanup) in props
    requires PropertyKey(AllowedArchitectures) in props && PropertyKey(RequiredConfigs) in props
    requires PropertyKey(AllowedPlatforms) in props && PropertyKey(RequiredPrograms) in props
    requires PropertyKey(RequiredUser) in props && PropertyKey(Timeout) in props
    requires CanonicalValue(Description, props[PropertyKey(Description)]) == Some("Some text that won't be sorted")
    requires CanonicalValue(HasCleanup, props[PropertyKey(HasCleanup)]) == Some("true")
    requires CanonicalValue(AllowedArchitectures, props[PropertyKey(AllowedArchitectures)]) == Some("i386 macppc x86_64")
    requires CanonicalValue(RequiredConfigs, props[PropertyKey(RequiredConfigs)]) == Some("var1 var2 var3")
    requires CanonicalValue(AllowedPlatforms, props[PropertyKey(AllowedPlatforms)]) == Some("amd64")
    requires CanonicalValue(RequiredPrograms, props[PropertyKey(RequiredPrograms)]) == Some("/bin/ls svn")
    requires CanonicalValue(RequiredUser, props[PropertyKey(RequiredUser)]) == Some("root")
    requires CanonicalValue(Timeout, props[PropertyKey(Timeout)]) == Some("123")
    ensures PropertyKey(Description) in out && out[PropertyKey(Description)] == "Some text that won't be sorted"
    ensures PropertyKey(HasCleanup) in out && out[PropertyKey(HasCleanup)] == "true"
    ensures PropertyKey(AllowedArchitectures) in out && out[PropertyKey(AllowedArchitectures)] == "i386 macppc x86_64"
    ensures PropertyKey(RequiredConfigs) in out && out[PropertyKey(RequiredConfigs)] == "var1 var2 var3"
    ensures PropertyKey(AllowedPlatforms) in out && out[PropertyKey(AllowedPlatforms)] == "amd64"
    ensures PropertyKey(RequiredPrograms) in out && out[PropertyKey(RequiredPrograms)] == "/bin/ls svn"
    ensures PropertyKey(RequiredUser) in out && out[PropertyKey(RequiredUser)] == "root"
    ensures PropertyKey(Timeout) in out && out[PropertyKey(Timeout)] == "123"
  {
  }

  /** The user entries of the scenario are re-emitted verbatim. */
  lemma UserEntriesKept(props: PropertyMap, out: PropertyMap)
    requires "X-foo" in props && "X-bar" in props && "X-baz-www" in props
    requires forall k :: IsUserKey(k) ==> (k in out <==> k in props) && (k in out ==> out[k] == props[k])
    ensures "X-foo" in out && out["X-foo"] == props["X-foo"]
    ensures "X-bar" in out && out["X-bar"] == props["X-bar"]
    ensures "X-baz-www" in out && out["X-baz-www"] == props["X-baz-www"]
  {
    assert IsUserKey("X-foo") && IsUserKey("X-bar") && IsUserKey("X-baz-www");
  }

  /** A map with exactly the keys of the scenario and its expected values is
      the expected map. */
  lemma AllPropertiesAllKept(props: PropertyMap, out: PropertyMap)
    requires AllPropertiesAllMap(props)
    requires out.Keys <= props.Keys
    requires "descr" in out && out["descr"] == "Some text that won't be sorted"
    requires "has.cleanup" in out && out["has.cleanup"] == "true"
    requires "require.arch" in out && out["require.arch"] == "i386 macppc x86_64"
    requires "require.config" in out && out["require.config"] == "var1 var2 var3"
    requires "require.machine" in out && out["require.machine"] == "amd64"
    requires "require.progs" in out && out["require.progs"] == "/bin/ls svn"
    requires "require.user" in out && out["require.user"] == "root"
    requires "timeout" in out && out["timeout"] == "123"
    requires "X-foo" in out && out["X-foo"] == "value1"
    requires "X-bar" in out && out["X-bar"] == "value2"
    requires "X-baz-www" in out && out["X-baz-www"] == "value3"
    ensures out == props["require.arch" := "i386 macppc x86_64"]["require.config" := "var1 var2 var3"]
  {
  }


  /** The test case parsed from one property, or the default test case when
      the property is refused. */
  function CaseOf(program: TestCases.TestProgram, key: string, value: string): TestCases.TestCase {
    match TestCases.FromProperties(program, "name", map[key := value])
    case Ok(tc) => tc
    case Err(_) => TestCases.TestCase(program, "name", Defaults(), None)
  }

  /** Parsing one accepted property sets that one field of the defaults. */
  lemma CaseOfField(program: TestCases.TestProgram, f: Field, value: string)
    requires Accepted(f, value)
    ensures CaseOf(program, PropertyKey(f), value).metadata == SetField(Defaults(), f, PropertyKey(f), value).value
  {
    SingleProperty(f, value);
  }

  /** A case parsed from "require.arch" is a membership test on the
      configured architecture. */
  lemma ParsedArchitectures(program: TestCases.TestProgram, text: string, config: Settings, host: Host)
    ensures var reason := TestCases.CheckRequirements(CaseOf(program, "require.arch", text), config, host);
      var allowed := WordSet(text);
      && (allowed == {} || Setting(config, "architecture") in allowed ==> reason == "")
      && (allowed != {} && Setting(config, "architecture") !in allowed ==>
            reason == ArchitectureReason(Setting(config, "architecture")))
  {
    CaseOfField(program, AllowedArchitectures, text);
    OnlyArchitectures(WordSet(text), program.suiteName, config, host);
  }

  /** A case parsed from "require.machine" is a membership test on the
      configured platform. */
  lemma ParsedPlatforms(program: TestCases.TestProgram, text: string, config: Settings, host: Host)
    ensures var reason := TestCases.CheckRequirements(CaseOf(program, "require.machine", text), config, host);
      var allowed := WordSet(text);
      && (allowed == {} || Setting(config, "platform") in allowed ==> reason == "")
      && (allowed != {} && Setting(config, "platform") !in allowed ==>
            reason == PlatformReason(Setting(config, "platform")))
  {
    CaseOfField(program, AllowedPlatforms, text);
    OnlyPlatforms(WordSet(text), program.suiteName, config, host);
  }

  lemma ArchitectureOneOk(program: TestCases.TestProgram, text: string, config: Settings, host: Host)
    requires text == "x86_64"
    requires Setting(config, "architecture") == "x86_64"
    ensures TestCases.CheckRequirements(CaseOf(program, "require.arch", text), config, host) == ""
  {
    OneWord(text);
    ParsedArchitectures(program, text, config, host);
  }

  lemma ArchitectureOneFail(program: TestCases.TestProgram, text: string, config: Settings, host: Host)
    requires text == "x86_64"
    requires Setting(config, "architecture") == "i386"
    ensures TestCases.CheckRequirements(CaseOf(program, "require.arch", text), config, host)
      == ArchitectureReason("i386")
  {
    OneWord(text);
    ParsedArchitectures(program, text, config, host);
  }

  lemma ArchitectureManyOk(program: TestCases.TestProgram, text: string, config: Settings, host: Host)
    requires text == "x86_64 i386 powerpc"
    requires Setting(config, "architecture") == "i386"
    ensures TestCases.CheckRequirements(CaseOf(program, "require.arch", text), config, host) == ""
  {
    ThreeWords(text, "x86_64", "i386", "powerpc");
    ParsedArchitectures(program, text, config, host);
  }

  lemma ArchitectureManyFail(program: TestCases.TestProgram, text: string, config: Settings, host: Host)
    requires text == "x86_64 i386 powerpc"
    requires Setting(config, "architecture") == "arm"
    ensures TestCases.CheckRequirements(CaseOf(program, "require.arch", text), config, host)
      == ArchitectureReason("arm")
  {
    ThreeWords(text, "x86_64", "i386", "powerpc");
    assert "arm"[0] != "x86_64"[0] && "arm"[0] != "i386"[0] && "arm"[0] != "powerpc"[0];
    assert Setting(config, "architecture") !in WordSet(text);
    ParsedArchitectures(program, text, config, host);
  }

  lemma PlatformOneOk(program: TestCases.TestProgram, text: string, config: Settings, host: Host)
    requires text == "amd64"
    requires Setting(config, "platform") == "amd64"
    ensures TestCases.CheckRequirements(CaseOf(program, "require.machine", text), config, host) == ""
  {
    OneWord(text);
    ParsedPlatforms(program, text, config, host);
  }

  lemma PlatformOneFail(program: TestCases.TestProgram, text: string, config: Settings, host: Host)
    requires text == "amd64"
    requires Setting(config, "platform") == "i386"
    ensures TestCases.CheckRequirements(CaseOf(program, "require.machine", text), config, host)
      == PlatformReason("i386")
  {
    OneWord(text);
    ParsedPlatforms(program, text, config, host);
  }

  lemma PlatformManyOk(program: TestCases.TestProgram, text: string, config: Settings, host: Host)
    requires text == "amd64 i386 macppc"
    requires Setting(config, "platform") == "i386"
    ensures TestCases.CheckRequirements(CaseOf(program, "require.machine", text), config, host) == ""
  {
    ThreeWords(text, "amd64", "i386", "macppc");
    ParsedPlatforms(program, text, config, host);
  }

  lemma PlatformManyFail(program: TestCases.TestProgram, text: string, config: Settings, host: Host)
    requires text == "amd64 i386 macppc"
    requires Setting(config, "platform") == "shark"
    ensures TestCases.CheckRequirements(CaseOf(program, "require.machine", text), config, host)
      == PlatformReason("shark")
  {
    ThreeWords(text, "amd64", "i386", "macppc");
    assert "shark"[0] != "amd64"[0] && "shark"[0] != "i386"[0] && "shark"[0] != "macppc"[0];
    assert Setting(config, "platform") !in WordSet(text);
    ParsedPlatforms(program, text, config, host);
  }

  /** A case parsed from "require.config" needs every listed variable
      defined; the reason names the least undefined one. */
  lemma ParsedConfigs(program: TestCases.TestProgram, text: string, config: Settings, host: Host)
    ensures var reason := TestCases.CheckRequirements(CaseOf(program, "require.config", text), config, host);
      var missing := set n | n in WordSet(text) && ConfigKey(n, program.suiteName) !in config;
      && (missing == {} ==> reason == "")
      && (missing != {} ==> reason == ConfigReason(Least(missing)))
  {
    CaseOfField(program, RequiredConfigs, text);
    OnlyConfigs(WordSet(text), program.suiteName, config, host);
  }

  /** The only member of a singleton is its least. */
  lemma LeastOfSingleton(x: string)
    ensures Least({x}) == x
  {
    BelowReflexive(x);
    LeastUnique(x, {x});
  }

  lemma ConfigOneOk(program: TestCases.TestProgram, text: string, config: Settings, host: Host)
    requires text == "my-var" && program.suiteName == "suite"
    requires "test_suites.suite.my-var" in config
    ensures TestCases.CheckRequirements(CaseOf(program, "require.config", text), config, host) == ""
  {
    OneWord(text);
    SuiteKeys(program.suiteName);
    MissingOfOne(text, text, program.suiteName, config);
    ParsedConfigs(program, text, config, host);
  }

  lemma ConfigOneFail(program: TestCases.TestProgram, text: string, config: Settings, host: Host)
    requires text == "unprivileged_user" && program.suiteName == "suite"
    requires "test_suites.suite.unprivileged_user" !in config
    ensures TestCases.CheckRequirements(CaseOf(program, "require.config", text), config, host)
      == ConfigReason("unprivileged_user")
  {
    OneWord(text);
    SuiteKeys(program.suiteName);
    MissingOfOne(text, text, program.suiteName, config);
    ParsedConfigs(program, text, config, host);
    LeastOfSingleton(text);
  }

  /** Whether the one required variable is undefined. */
  lemma MissingOfOne(text: string, a: string, suite: string, config: Settings)
    requires WordSet(text) == {a}
    ensures (set n | n in WordSet(text) && ConfigKey(n, suite) !in config)
      == if ConfigKey(a, suite) in config then {} else {a}
  {
  }

  /** The undefined variables among three required ones. */
  lemma MissingOfThree(text: string, a: string, b: string, c: string, suite: string, config: Settings)
    requires WordSet(text) == {a, b, c}
    ensures (set n | n in WordSet(text) && ConfigKey(n, suite) !in config)
      == (if ConfigKey(a, suite) in config then {} else {a})
       + (if ConfigKey(b, suite) in config then {} else {b})
       + (if ConfigKey(c, suite) in config then {} else {c})
  {
  }

  lemma SuiteKeys(suite: string)
    requires suite == "suite"
    ensures ConfigKey("foo", suite) == "test_suites.suite.foo"
    ensures ConfigKey("bar", suite) == "test_suites.suite.bar"
    ensures ConfigKey("baz", suite) == "test_suites.suite.baz"
    ensures ConfigKey("my-var", suite) == "test_suites.suite.my-var"
    ensures ConfigKey("unprivileged_user", suite) == "test_suites.suite.unprivileged_user"
  {
    SuiteKeysOfWords(suite);
    SuiteKeysOfNames(suite);
  }

  lemma SuiteKeysOfWords(suite: string)
    requires suite == "suite"
    ensures ConfigKey("foo", suite) == "test_suites.suite.foo"
    ensures ConfigKey("bar", suite) == "test_suites.suite.bar"
    ensures ConfigKey("baz", suite) == "test_suites.suite.baz"
  {
  }

  lemma SuiteKeysOfNames(suite: string)
    requires suite == "suite"
    ensures ConfigKey("my-var", suite) == "test_suites.suite.my-var"
    ensures ConfigKey("unprivileged_user", suite) == "test_suites.suite.unprivileged_user"
  {
  }

  lemma MissingTwoOfThree(text: string, a: string, b: string, c: string, suite: string, config: Settings)
    requires WordSet(text) == {a, b, c}
    requires ConfigKey(a, suite) in config && ConfigKey(b, suite) !in config && ConfigKey(c, suite) !in config
    ensures (set n | n in WordSet(text) && ConfigKey(n, suite) !in config) == {b, c}
  {
    MissingOfThree(text, a, b, c, suite, config);
  }

  /** Three required variables, all defined. */
  lemma ThreeConfigsDefined(program: TestCases.TestProgram, text: string, a: string, b: string, c: string,
                            config: Settings, host: Host)
    requires WordSet(text) == {a, b, c}
    requires ConfigKey(a, program.suiteName) in config && ConfigKey(b, program.suiteName) in config
    requires ConfigKey(c, program.suiteName) in config
    ensures TestCases.CheckRequirements(CaseOf(program, "require.config", text), config, host) == ""
  {
    MissingOfThree(text, a, b, c, program.suiteName, config);
    ParsedConfigs(program, text, config, host);
  }

  /** Three required variables, the two last undefined: the lesser of those
      is named. */
  lemma ThreeConfigsTwoMissing(program: TestCases.TestProgram, text: string, a: string, b: string, c: string,
                               config: Settings, host: Host)
    requires WordSet(text) == {a, b, c} && Below(b, c)
    requires ConfigKey(a, program.suiteName) in config && ConfigKey(b, program.suiteName) !in config
    requires ConfigKey(c, program.suiteName) !in config
    ensures TestCases.CheckRequirements(CaseOf(program, "require.config", text), config, host)
      == ConfigReason(b)
  {
    MissingTwoOfThree(text, a, b, c, program.suiteName, config);
    ParsedConfigs(program, text, config, host);
    LeastOfPair(b, c);
  }

  lemma ConfigManyOk(program: TestCases.TestProgram, text: string, config: Settings, host: Host)
    requires text == "foo bar baz" && program.suiteName == "suite"
    requires "test_suites.suite.foo" in config && "test_suites.suite.bar" in config
    requires "test_suites.suite.baz" in config
    ensures TestCases.CheckRequirements(CaseOf(program, "require.config", text), config, host) == ""
  {
    ThreeWords(text, "foo", "bar", "baz");
    SuiteKeys(program.suiteName);
    ThreeConfigsDefined(program, text, "foo", "bar", "baz", config, host);
  }

  lemma ConfigManyFail(program: TestCases.TestProgram, text: string, config: Settings, host: Host)
    requires text == "foo bar baz" && program.suiteName == "suite"
    requires "test_suites.suite.foo" in config && "test_suites.suite.bar" !in config
    requires "test_suites.suite.baz" !in config
    ensures TestCases.CheckRequirements(CaseOf(program, "require.config", text), config, host)
      == ConfigReason("bar")
  {
    ThreeWords(text, "foo", "bar", "baz");
    SuiteKeys(program.suiteName);
    assert Below("bar", "baz");
    ThreeConfigsTwoMissing(program, text, "foo", "bar", "baz", config, host);
  }

  /** Of two words with a common prefix, the one with the smaller next
      character is the least. */
  lemma LeastOfPair(a: string, b: string)
    requires Below(a, b)
    ensures Least({a, b}) == a
  {
    BelowReflexive(a);
    LeastUnique(a, {a, b});
  }

  /** Requiring "unprivileged-user" looks up the global key: a fresh
      configuration lacks it, and defining it as a user record satisfies the
      case. */
  method ConfigSpecial(program: TestCases.TestProgram, text: string, host: Host,
                       architecture: string, platform: string)
    returns (setBefore: bool, before: string, setAfter: bool, after: string, platformText: Result<string, LookupError>)
    requires text == "unprivileged-user"
    ensures !setBefore && before == ConfigReason("unprivileged-user")
    ensures setAfter && after == ""
    ensures platformText == Ok(platform)
  {
    var tc := CaseOf(program, "require.config", text);
    var config := new ConfigTree.Default(architecture, platform);
    setBefore := config.IsSet("unprivileged_user");
    SpecialConfig(program, text, config.values, host);
    before := TestCases.CheckRequirements(tc, config.values, host);
    config.SetUser("unprivileged_user", UserRecord("foo", 1, 2));
    setAfter := config.IsSet("unprivileged_user");
    SpecialConfig(program, text, config.values, host);
    after := TestCases.CheckRequirements(tc, config.values, host);
    platformText := config.Lookup("platform");
  }

  lemma SpecialConfig(program: TestCases.TestProgram, text: string, config: Settings, host: Host)
    requires text == "unprivileged-user"
    ensures var reason := TestCases.CheckRequirements(CaseOf(program, "require.config", text), config, host);
      && ("unprivileged_user" in config ==> reason == "")
      && ("unprivileged_user" !in config ==> reason == ConfigReason("unprivileged-user"))
  {
    OneWord(text);
    MissingOfOne(text, text, program.suiteName, config);
    ParsedConfigs(program, text, config, host);
    LeastOfSingleton(text);
  }

  /** A case parsed from "require.user" follows the required-user matrix. */
  lemma ParsedUser(program: TestCases.TestProgram, text: string, config: Settings, host: Host)
    ensures var reason := TestCases.CheckRequirements(CaseOf(program, "require.user", text), config, host);
      && (text == "root" && host.uid == 0 ==> reason == "")
      && (text == "root" && host.uid != 0 ==> reason == RootReason)
      && (text == "unprivileged" && host.uid != 0 ==> reason == "")
      && (text == "unprivileged" && host.uid == 0 && "unprivileged_user" in config ==> reason == "")
      && (text == "unprivileged" && host.uid == 0 && "unprivileged_user" !in config ==>
            reason == UnprivilegedReason)
  {
    CaseOfField(program, RequiredUser, text);
    OnlyUser(text, program.suiteName, config, host);
  }

  lemma UserRootOk(program: TestCases.TestProgram, text: string, config: Settings, host: Host)
    requires text == "root" && host.uid == 0
    ensures TestCases.CheckRequirements(CaseOf(program, "require.user", text), config, host) == ""
  {
    ParsedUser(program, text, config, host);
  }

  lemma UserRootFail(program: TestCases.TestProgram, text: string, config: Settings, host: Host)
    requires text == "root" && host.uid == 123
    ensures TestCases.CheckRequirements(CaseOf(program, "require.user", text), config, host) == RootReason
  {
    ParsedUser(program, text, config, host);
  }

  lemma UserUnprivilegedSame(program: TestCases.TestProgram, text: string, config: Settings, host: Host)
    requires text == "unprivileged" && host.uid == 123 && "unprivileged_user" !in config
    ensures TestCases.CheckRequirements(CaseOf(program, "require.user", text), config, host) == ""
  {
    ParsedUser(program, text, config, host);
  }

  lemma UserUnprivilegedOk(program: TestCases.TestProgram, text: string, config: Settings, host: Host)
    requires text == "unprivileged" && host.uid == 0
    requires "unprivileged_user" in config && config["unprivileged_user"] == User(UserRecord("", 123, 1))
    ensures TestCases.CheckRequirements(CaseOf(program, "require.user", text), config, host) == ""
  {
    ParsedUser(program, text, config, host);
  }

  lemma UserUnprivilegedFail(program: TestCases.TestProgram, text: string, config: Settings, host: Host)
    requires text == "unprivileged" && host.uid == 0 && "unprivileged_user" !in config
    ensures TestCases.CheckRequirements(CaseOf(program, "require.user", text), config, host)
      == UnprivilegedReason
  {
    ParsedUser(program, text, config, host);
  }

  /** A case parsed from an accepted "require.files" needs every listed file;
      the reason names the least missing one. */
  lemma ParsedFiles(program: TestCases.TestProgram, text: string, config: Settings, host: Host)
    requires ParseFiles(text).Some?
    ensures var reason := TestCases.CheckRequirements(CaseOf(program, "require.files", text), config, host);
      var missing := WordSet(text) - host.existingFiles;
      && (missing == {} ==> reason == "")
      && (missing != {} ==> reason == FileReason(Least(missing)))
  {
    CaseOfField(program, RequiredFiles, text);
    var md := Defaults().(requiredFiles := WordSet(text));
    FirstFailureReported(md, program.suiteName, config, host);
  }

  lemma FilesOk(program: TestCases.TestProgram, text: string, config: Settings, host: Host)
    requires IsWord(text) && IsAbsolute(text) && text in host.existingFiles
    ensures TestCases.CheckRequirements(CaseOf(program, "require.files", text), config, host) == ""
  {
    OneWord(text);
    ParsedFiles(program, text, config, host);
  }

  lemma FilesFail(program: TestCases.TestProgram, text: string, config: Settings, host: Host)
    requires text == "/non-existent/file" && text !in host.existingFiles
    ensures TestCases.CheckRequirements(CaseOf(program, "require.files", text), config, host)
      == FileReason("/non-existent/file")
  {
    assert IsWord(text) && IsAbsolute(text);
    OneFileMissing(program, text, config, host);
  }

  /** One required absolute file that does not exist is named. */
  lemma OneFileMissing(program: TestCases.TestProgram, text: string, config: Settings, host: Host)
    requires IsWord(text) && IsAbsolute(text) && text !in host.existingFiles
    ensures TestCases.CheckRequirements(CaseOf(program, "require.files", text), config, host)
      == FileReason(text)
  {
    OneWord(text);
    ParsedFiles(program, text, config, host);
    assert WordSet(text) - host.existingFiles == {text};
    LeastOfSingleton(text);
  }

  /** A case parsed from an accepted "require.memory" needs that many bytes
      when the physical memory is known. */
  lemma ParsedMemory(program: TestCases.TestProgram, text: string, config: Settings, host: Host)
    requires Units.ParseBytes(text).Some?
    ensures var reason := TestCases.CheckRequirements(CaseOf(program, "require.memory", text), config, host);
      var bytes := Units.ParseBytes(text).value;
      && (bytes == 0 || host.physicalMemory == 0 || bytes <= host.physicalMemory ==> reason == "")
      && (bytes > 0 && 0 < host.physicalMemory < bytes ==> reason == MemoryReason(bytes))
  {
    var bytes := Units.ParseBytes(text).value;
    var tc := CaseOf(program, "require.memory", text);
    CaseOfMemory(program, text);
    assert TestCases.CheckRequirements(tc, config, host)
      == Requirements.CheckRequirements(tc.metadata, tc.program.suiteName, config, host);
    OnlyMemory(bytes, program.suiteName, config, host);
  }

  /** Parsing an accepted "require.memory" sets just the required memory. */
  lemma CaseOfMemory(program: TestCases.TestProgram, text: string)
    requires Units.ParseBytes(text).Some?
    ensures CaseOf(program, "require.memory", text).metadata
      == Defaults().(requiredMemory := Units.ParseBytes(text).value)
  {
    CaseOfField(program, RequiredMemory, text);
  }

  lemma MemoryOk(program: TestCases.TestProgram, text: string, config: Settings, host: Host)
    requires text == "1m"
    requires host.physicalMemory == 0 || host.physicalMemory >= Units.MiB
    ensures TestCases.CheckRequirements(CaseOf(program, "require.memory", text), config, host) == ""
  {
    Units.OneMebibyte();
    ParsedMemory(program, text, config, host);
  }

  lemma MemoryFail(program: TestCases.TestProgram, text: string, config: Settings, host: Host)
    requires text == "100t"
    requires 0 < host.physicalMemory < 100 * Units.TiB
    ensures TestCases.CheckRequirements(CaseOf(program, "require.memory", text), config, host)
      == MemoryReason(100 * Units.TiB)
    ensures MemoryReason(100 * Units.TiB) == "Requires " + "100.00T" + " of memory"
  {
    Units.HundredTebibytes();
    ParsedMemory(program, text, config, host);
  }

  /** A case parsed from an accepted "require.progs" needs every listed
      program; the reason names the least missing one. */
  lemma ParsedPrograms(program: TestCases.TestProgram, text: string, config: Settings, host: Host)
    requires ParsePrograms(text).Some?
    ensures var reason := TestCases.CheckRequirements(CaseOf(program, "require.progs", text), config, host);
      var missing := set p | p in WordSet(text) && !ProgramFound(p, host);
      && (missing == {} ==> reason == "")
      && (missing != {} ==> reason == ProgramReason(Least(missing)))
  {
    CaseOfField(program, RequiredPrograms, text);
    OnlyPrograms(WordSet(text), program.suiteName, config, host);
  }

  /** A bare name is found when the only PATH directory holds it. */
  lemma FoundInOnlyDirectory(name: string, dir: string, host: Host)
    requires !IsAbsolute(name) && host.searchPath == [dir]
    ensures ProgramFound(name, host) <==> dir + "/" + name in host.executables
  {
    assert host.searchPath[0] == dir;
  }

  lemma SlashJoin(dir: string, name: string, path: string)
    requires path == "/" + name
    ensures dir + "/" + name == dir + path
  {
  }

  /** The missing programs among one, two or three required ones. */
  lemma MissingProgramsOfOne(text: string, a: string, host: Host)
    requires WordSet(text) == {a}
    ensures (set p | p in WordSet(text) && !ProgramFound(p, host))
      == if ProgramFound(a, host) then {} else {a}
  {
  }

  lemma MissingProgramsOfTwo(text: string, a: string, b: string, host: Host)
    requires WordSet(text) == {a, b}
    ensures (set p | p in WordSet(text) && !ProgramFound(p, host))
      == (if ProgramFound(a, host) then {} else {a})
       + (if ProgramFound(b, host) then {} else {b})
  {
  }

  lemma MissingProgramsOfThree(text: string, a: string, b: string, c: string, host: Host)
    requires WordSet(text) == {a, b, c}
    ensures (set p | p in WordSet(text) && !ProgramFound(p, host))
      == (if ProgramFound(a, host) then {} else {a})
       + (if ProgramFound(b, host) then {} else {b})
       + (if ProgramFound(c, host) then {} else {c})
  {
  }

  lemma ThreeProgramsFound(program: TestCases.TestProgram, text: string, a: string, b: string, c: string,
                           config: Settings, host: Host)
    requires ParsePrograms(text).Some? && WordSet(text) == {a, b, c}
    requires ProgramFound(a, host) && ProgramFound(b, host) && ProgramFound(c, host)
    ensures TestCases.CheckRequirements(CaseOf(program, "require.progs", text), config, host) == ""
  {
    MissingProgramsOfThree(text, a, b, c, host);
    ParsedPrograms(program, text, config, host);
  }

  lemma SecondProgramMissing(program: TestCases.TestProgram, text: string, a: string, b: string,
                             config: Settings, host: Host)
    requires ParsePrograms(text).Some? && WordSet(text) == {a, b}
    requires ProgramFound(a, host) && !ProgramFound(b, host)
    ensures TestCases.CheckRequirements(CaseOf(program, "require.progs", text), config, host)
      == ProgramReason(b)
  {
    MissingProgramsOfTwo(text, a, b, host);
    assert (set p | p in WordSet(text) && !ProgramFound(p, host)) == {b};
    ParsedPrograms(program, text, config, host);
    LeastOfSingleton(b);
  }

  lemma ProgramsOk(program: TestCases.TestProgram, text: string, dir: string, config: Settings, host: Host)
    requires text == "/bin/ls foo /bin/mv"
    requires "/bin/ls" in host.existingFiles && "/bin/mv" in host.existingFiles
    requires host.searchPath == [dir] && dir + "/foo" in host.executables
    ensures TestCases.CheckRequirements(CaseOf(program, "require.progs", text), config, host) == ""
  {
    ThreeWords(text, "/bin/ls", "foo", "/bin/mv");
    SlashJoin(dir, "foo", "/foo");
    assert IsBareName("foo") && !IsAbsolute("foo");
    BareBetweenAbsolutesFound(program, text, "/bin/ls", "foo", "/bin/mv", dir, config, host);
  }

  /** A bare name found in the only search directory, between two absolute
      paths that exist. */
  lemma BareBetweenAbsolutesFound(program: TestCases.TestProgram, text: string, a: string, b: string, c: string,
                                  dir: string, config: Settings, host: Host)
    requires WordSet(text) == {a, b, c}
    requires IsAbsolute(a) && a in host.existingFiles && IsAbsolute(c) && c in host.existingFiles
    requires IsBareName(b) && !IsAbsolute(b)
    requires host.searchPath == [dir] && dir + "/" + b in host.executables
    ensures TestCases.CheckRequirements(CaseOf(program, "require.progs", text), config, host) == ""
  {
    FoundInOnlyDirectory(b, dir, host);
    assert ParsePrograms(text).Some?;
    ThreeProgramsFound(program, text, a, b, c, config, host);
  }

  lemma ProgramsFailAbsolute(program: TestCases.TestProgram, text: string, config: Settings, host: Host)
    requires text == "/non-existent/program" && text !in host.existingFiles
    ensures TestCases.CheckRequirements(CaseOf(program, "require.progs", text), config, host)
      == ProgramReason("/non-existent/program")
    ensures ProgramReason("/non-existent/program") == "'" + "/non-existent/program" + "' not found"
  {
    OneWord(text);
    MissingProgramsOfOne(text, text, host);
    ParsedPrograms(program, text, config, host);
    LeastOfSingleton(text);
  }

  lemma ProgramsFailRelative(program: TestCases.TestProgram, text: string, dir: string, config: Settings, host: Host)
    requires text == "foo bar"
    requires host.searchPath == [dir] && dir + "/foo" in host.executables && dir + "/bar" !in host.executables
    ensures TestCases.CheckRequirements(CaseOf(program, "require.progs", text), config, host)
      == ProgramReason("bar")
    ensures ProgramReason("bar") == "'" + "bar" + "' not found in PATH"
  {
    TwoWords(text, "foo", "bar");
    SlashJoin(dir, "foo", "/foo");
    SlashJoin(dir, "bar", "/bar");
    FoundInOnlyDirectory("foo", dir, host);
    FoundInOnlyDirectory("bar", dir, host);
    assert ProgramFound("foo", host) && !ProgramFound("bar", host);
    SecondProgramMissing(program, text, "foo", "bar", config, host);
  }

  /** A case built from no properties has the default metadata and may
      always run. */
  lemma DefaultsScenario(program: TestCases.TestProgram, config: Settings, host: Host)
    ensures TestCases.FromProperties(program, "test-case", map[])
      == Ok(TestCases.TestCase(program, "test-case", Defaults(), None))
    ensures TestCases.CheckRequirements(TestCases.TestCase(program, "test-case", Defaults(), None), config, host) == ""
  {
    EmptyMapIsDefaults();
    NothingRequired(program.suiteName, config, host);
  }

  lemma PlatformsSet(text: string)
    requires text == "foo bar baz"
    ensures BuilderField("allowed_platforms") == Some(AllowedPlatforms)
    ensures SetField(Defaults(), AllowedPlatforms, "allowed_platforms", text)
      == Ok(Defaults().(allowedPlatforms := {"foo", "bar", "baz"}))
  {
    ThreeWords(text, "foo", "bar", "baz");
  }

  /** A case built around metadata from the builder keeps that metadata. */
  method BuilderScenario(program: TestCases.TestProgram, text: string)
    returns (error: Option<FormatError>, md: Metadata, tc: TestCases.TestCase)
    requires text == "foo bar baz"
    ensures error == None
    ensures md == Defaults().(allowedPlatforms := {"foo", "bar", "baz"})
    ensures tc.program == program && tc.name == "name"
    ensures TestCases.AllProperties(tc) == AllProperties(md)
  {
    var builder := new MetadataBuilder();
    PlatformsSet(text);
    error := builder.SetString("allowed_platforms", text);
    md := builder.Build();
    tc := TestCases.TestCase(program, "name", md, None);
  }

  /** The user entries of the override test, recorded through the builder,
      give the same metadata as parsing them as properties. */
  method CustomEntriesScenario() returns (errors: seq<Option<FormatError>>, md: Metadata)
    ensures errors == [None, None, None]
    ensures md == Defaults().(userMetadata := map["X-foo" := "value1", "X-bar" := "value2", "X-baz-www" := "value3"])
    ensures FromProperties(map["X-foo" := "value1", "X-bar" := "value2", "X-baz-www" := "value3"]) == Ok(md)
  {
    var builder := new MetadataBuilder();
    var e1 := builder.AddCustom("X-foo", "value1");
    var e2 := builder.AddCustom("X-bar", "value2");
    var e3 := builder.AddCustom("X-baz-www", "value3");
    errors := [e1, e2, e3];
    md := builder.Build();
    UserOnlyMap(map["X-foo" := "value1", "X-bar" := "value2", "X-baz-www" := "value3"]);
  }
}
