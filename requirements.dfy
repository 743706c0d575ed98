/**
 * The admission check of a test case: given its metadata, the suite it
 * belongs to, the run-time configuration and a snapshot of the host, either
 * the empty string (the case may run) or the reason of the first requirement
 * that does not hold.
 */
module Requirements {
  import opened Wrappers
  import opened Lexicographic
  import Units
  import opened CaseMetadata
  import opened ConfigTrees

  /** What the check observes of the machine it runs on: the identity of the
      current user, the files that exist, the files that are executable, the
      directories of PATH in order, and the physical memory in bytes (0 when
      it cannot be determined). */
  datatype Host = Host(
    uid: nat,
    existingFiles: set<string>,
    executables: set<string>,
    searchPath: seq<string>,
    physicalMemory: nat)

  /** The configuration key that defines required configuration variable
      `name` of a suite; "unprivileged-user" names a global key instead. */
  function ConfigKey(name: string, suite: string): string {
    if name == "unprivileged-user" then "unprivileged_user"
    else "test_suites." + suite + "." + name
  }

  /** The string setting `key`, or "" when it is not set to a string. */
  function Setting(config: Settings, key: string): string {
    match LookupText(config, key)
    case Ok(text) => text
    case Err(_) => ""
  }

  /** The position of the first of `items` in `wanted`, or `|items|`. */
  function FirstIn(items: seq<string>, wanted: set<string>): (i: nat)
    ensures i <= |items|
    ensures forall j :: 0 <= j < i ==> items[j] !in wanted
    ensures i < |items| ==> items[i] in wanted
    decreases |items|
  {
    if items == [] then 0
    else if items[0] in wanted then 0
    else 1 + FirstIn(items[1..], wanted)
  }

  /** Searching the sorted listing of `s` for members of `wanted` finds
      nothing exactly when there are none, and otherwise the least one. */
  lemma FirstInSorted(s: set<string>, wanted: set<string>)
    requires wanted <= s
    ensures var i := FirstIn(Sorted(s), wanted);
      && (i == |s| <==> wanted == {})
      && (i < |s| ==> wanted != {} && Sorted(s)[i] == Least(wanted))
  {
    var items := Sorted(s);
    var i := FirstIn(items, wanted);
    if i < |s| {
      forall y | y in wanted
        ensures Below(items[i], y)
      {
        var j :| 0 <= j < |items| && items[j] == y;
        if j == i {
          BelowReflexive(y);
        }
      }
      LeastUnique(items[i], wanted);
    }
  }

  /** The position of the first directory of `dirs` that holds an executable
      `name`, or `|dirs|`. */
  function FindInPath(name: string, dirs: seq<string>, executables: set<string>): (i: nat)
    ensures i <= |dirs|
    ensures forall j :: 0 <= j < i ==> dirs[j] + "/" + name !in executables
    ensures i < |dirs| ==> dirs[i] + "/" + name in executables
    decreases |dirs|
  {
    if dirs == [] then 0
    else if dirs[0] + "/" + name in executables then 0
    else 1 + FindInPath(name, dirs[1..], executables)
  }

  /** A required program is present: an absolute path that exists, or a bare
      name that some directory of PATH holds as an executable. */
  predicate ProgramFound(program: string, host: Host) {
    if IsAbsolute(program) then program in host.existingFiles
    else exists j :: 0 <= j < |host.searchPath| && host.searchPath[j] + "/" + program in host.executables
  }

  // The requirements, each stated on its own.

  predicate ArchitectureOk(md: Metadata, config: Settings) {
    md.allowedArchitectures == {} || Setting(config, "architecture") in md.allowedArchitectures
  }

  predicate PlatformOk(md: Metadata, config: Settings) {
    md.allowedPlatforms == {} || Setting(config, "platform") in md.allowedPlatforms
  }

  predicate ConfigsOk(md: Metadata, suite: string, config: Settings) {
    forall name :: name in md.requiredConfigs ==> ConfigKey(name, suite) in config
  }

  predicate UserOk(md: Metadata, config: Settings, host: Host) {
    && (md.requiredUser == "root" ==> host.uid == 0)
    && (md.requiredUser == "unprivileged" && host.uid == 0 ==> "unprivileged_user" in config)
  }

  predicate FilesOk(md: Metadata, host: Host) {
    forall path :: path in md.requiredFiles ==> path in host.existingFiles
  }

  predicate MemoryOk(md: Metadata, host: Host) {
    md.requiredMemory == 0 || host.physicalMemory == 0 || md.requiredMemory <= host.physicalMemory
  }

  predicate ProgramsOk(md: Metadata, host: Host) {
    forall program :: program in md.requiredPrograms ==> ProgramFound(program, host)
  }

  /** Every requirement of the test case holds. */
  predicate Satisfied(md: Metadata, suite: string, config: Settings, host: Host) {
    && ArchitectureOk(md, config)
    && PlatformOk(md, config)
    && ConfigsOk(md, suite, config)
    && UserOk(md, config, host)
    && FilesOk(md, host)
    && MemoryOk(md, host)
    && ProgramsOk(md, host)
  }

  // The reasons reported, one per kind of failure.

  function ArchitectureReason(architecture: string): string {
    "Current architecture '" + architecture + "' not supported"
  }

  function PlatformReason(platform: string): string {
    "Current platform '" + platform + "' not supported"
  }

  function ConfigReason(name: string): string {
    "Required configuration property '" + name + "' not defined"
  }

  const RootReason: string := "Requires root privileges"

  const UnprivilegedReason: string :=
    "Requires an unprivileged user but the unprivileged-user configuration variable is not defined"

  function FileReason(path: string): string {
    "'" + path + "' not found"
  }

  function MemoryReason(bytes: nat): string {
    "Requires " + Units.FormatBytes(bytes) + " of memory"
  }

  function ProgramReason(program: string): string {
    if IsAbsolute(program) then "'" + program + "' not found"
    else "'" + program + "' not found in PATH"
  }

  // The checks, each giving "" or the reason for its requirement.

  function CheckArchitecture(md: Metadata, config: Settings): (reason: string)
    ensures reason == "" <==> ArchitectureOk(md, config)
    ensures reason != "" ==> reason == ArchitectureReason(Setting(config, "architecture"))
  {
    if ArchitectureOk(md, config) then "" else ArchitectureReason(Setting(config, "architecture"))
  }

  function CheckPlatform(md: Metadata, config: Settings): (reason: string)
    ensures reason == "" <==> PlatformOk(md, config)
    ensures reason != "" ==> reason == PlatformReason(Setting(config, "platform"))
  {
    if PlatformOk(md, config) then "" else PlatformReason(Setting(config, "platform"))
  }

  /** The required configuration variables that are not defined. */
  function MissingConfigs(md: Metadata, suite: string, config: Settings): (missing: set<string>)
    ensures missing <= md.requiredConfigs
    ensures missing == {} <==> ConfigsOk(md, suite, config)
  {
    var missing := set name | name in md.requiredConfigs && ConfigKey(name, suite) !in config;
    assert ConfigsOk(md, suite, config) ==> forall name :: name !in missing;
    MissingConfigsWitness(md, suite, config);
    missing
  }

  lemma MissingConfigsWitness(md: Metadata, suite: string, config: Settings)
    ensures !ConfigsOk(md, suite, config) ==>
      (set name | name in md.requiredConfigs && ConfigKey(name, suite) !in config) != {}
  {
    if !ConfigsOk(md, suite, config) {
      var name :| name in md.requiredConfigs && ConfigKey(name, suite) !in config;
      var missing := set name | name in md.requiredConfigs && ConfigKey(name, suite) !in config;
      assert name in missing;
    }
  }

  /** Checks the configuration variables in sorted order and names the
      first undefined one. */
  function CheckConfigs(md: Metadata, suite: string, config: Settings): (reason: string)
    ensures reason == "" <==> ConfigsOk(md, suite, config)
    ensures reason != "" ==> reason == ConfigReason(Least(MissingConfigs(md, suite, config)))
  {
    var names := Sorted(md.requiredConfigs);
    var missing := MissingConfigs(md, suite, config);
    var i := FirstIn(names, missing);
    FirstInSorted(md.requiredConfigs, missing);
    if i == |names| then "" else ConfigReason(names[i])
  }

  function CheckUser(md: Metadata, config: Settings, host: Host): (reason: string)
    ensures reason == "" <==> UserOk(md, config, host)
    ensures reason != "" ==> reason == (if md.requiredUser == "root" then RootReason else UnprivilegedReason)
  {
    if md.requiredUser == "root" then
      if host.uid == 0 then "" else RootReason
    else if md.requiredUser == "unprivileged" then
      if host.uid != 0 || "unprivileged_user" in config then "" else UnprivilegedReason
    else ""
  }

  /** Checks the required files in sorted order and names the first missing
      one. */
  function CheckFiles(md: Metadata, host: Host): (reason: string)
    ensures reason == "" <==> FilesOk(md, host)
    ensures reason != "" ==> reason == FileReason(Least(md.requiredFiles - host.existingFiles))
  {
    var paths := Sorted(md.requiredFiles);
    var missing := md.requiredFiles - host.existingFiles;
    var i := FirstIn(paths, missing);
    FirstInSorted(md.requiredFiles, missing);
    if i == |paths| then "" else FileReason(paths[i])
  }

  function CheckMemory(md: Metadata, host: Host): (reason: string)
    ensures reason == "" <==> MemoryOk(md, host)
    ensures reason != "" ==> reason == MemoryReason(md.requiredMemory)
  {
    if MemoryOk(md, host) then "" else MemoryReason(md.requiredMemory)
  }

  /** Whether a required program is present, computed by searching PATH in
      order. */
  function FindProgram(program: string, host: Host): (found: bool)
    ensures found <==> ProgramFound(program, host)
  {
    if IsAbsolute(program) then program in host.existingFiles
    else FindInPath(program, host.searchPath, host.executables) < |host.searchPath|
  }

  /** The required programs that are not present. */
  function MissingPrograms(md: Metadata, host: Host): (missing: set<string>)
    ensures missing <= md.requiredPrograms
    ensures missing == {} <==> ProgramsOk(md, host)
  {
    var missing := set program | program in md.requiredPrograms && !FindProgram(program, host);
    assert ProgramsOk(md, host) ==> forall program :: program !in missing;
    MissingProgramsWitness(md, host);
    missing
  }

  lemma MissingProgramsWitness(md: Metadata, host: Host)
    ensures !ProgramsOk(md, host) ==>
      (set program | program in md.requiredPrograms && !FindProgram(program, host)) != {}
  {
    if !ProgramsOk(md, host) {
      var program :| program in md.requiredPrograms && !ProgramFound(program, host);
      var missing := set program | program in md.requiredPrograms && !FindProgram(program, host);
      assert program in missing;
    }
  }

  /** Checks the required programs in sorted order and names the first
      missing one. */
  function CheckPrograms(md: Metadata, host: Host): (reason: string)
    ensures reason == "" <==> ProgramsOk(md, host)
    ensures reason != "" ==> reason == ProgramReason(Least(MissingPrograms(md, host)))
  {
    var programs := Sorted(md.requiredPrograms);
    var missing := MissingPrograms(md, host);
    var i := FirstIn(programs, missing);
    FirstInSorted(md.requiredPrograms, missing);
    if i == |programs| then "" else ProgramReason(programs[i])
  }

  /** Checks the requirements in a fixed order (architecture, platform,
      configuration, user, files, memory, programs) and reports the first
      that fails; the later checks are not evaluated. */
  function CheckRequirements(md: Metadata, suite: string, config: Settings, host: Host): (reason: string)
    ensures reason == "" <==> Satisfied(md, suite, config, host)
  {
    var architecture := CheckArchitecture(md, config);
    if architecture != "" then architecture else
    var platform := CheckPlatform(md, config);
    if platform != "" then platform else
    var configs := CheckConfigs(md, suite, config);
    if configs != "" then configs else
    var user := CheckUser(md, config, host);
    if user != "" then user else
    var files := CheckFiles(md, host);
    if files != "" then files else
    var memory := CheckMemory(md, host);
    if memory != "" then memory else
    CheckPrograms(md, host)
  }

  /** The reason reported is that of the first requirement, in the fixed
      order, that does not hold. */
  lemma FirstFailureReported(md: Metadata, suite: string, config: Settings, host: Host)
    ensures var reason := CheckRequirements(md, suite, config, host);
      && (!ArchitectureOk(md, config) ==> reason == ArchitectureReason(Setting(config, "architecture")))
      && (ArchitectureOk(md, config) && !PlatformOk(md, config) ==>
            reason == PlatformReason(Setting(config, "platform")))
      && (ArchitectureOk(md, config) && PlatformOk(md, config) && !ConfigsOk(md, suite, config) ==>
            reason == ConfigReason(Least(MissingConfigs(md, suite, config))))
      && (ArchitectureOk(md, config) && PlatformOk(md, config) && ConfigsOk(md, suite, config)
          && !UserOk(md, config, host) ==>
            reason == (if md.requiredUser == "root" then RootReason else UnprivilegedReason))
      && (ArchitectureOk(md, config) && PlatformOk(md, config) && ConfigsOk(md, suite, config)
          && UserOk(md, config, host) && !FilesOk(md, host) ==>
            reason == FileReason(Least(md.requiredFiles - host.existingFiles)))
      && (ArchitectureOk(md, config) && PlatformOk(md, config) && ConfigsOk(md, suite, config)
          && UserOk(md, config, host) && FilesOk(md, host) && !MemoryOk(md, host) ==>
            reason == MemoryReason(md.requiredMemory))
      && (ArchitectureOk(md, config) && PlatformOk(md, config) && ConfigsOk(md, suite, config)
          && UserOk(md, config, host) && FilesOk(md, host) && MemoryOk(md, host) && !ProgramsOk(md, host) ==>
            reason == ProgramReason(Least(MissingPrograms(md, host))))
  {
  }

  /** A test case that requires nothing may always run. */
  lemma NothingRequired(suite: string, config: Settings, host: Host)
    ensures CheckRequirements(Defaults(), suite, config, host) == ""
  {
  }

  /** Allowed architectures are a membership test on the configured
      architecture. */
  lemma OnlyArchitectures(allowed: set<string>, suite: string, config: Settings, host: Host)
    ensures var reason := CheckRequirements(Defaults().(allowedArchitectures := allowed), suite, config, host);
      && (allowed == {} || Setting(config, "architecture") in allowed ==> reason == "")
      && (allowed != {} && Setting(config, "architecture") !in allowed ==>
            reason == ArchitectureReason(Setting(config, "architecture")))
  {
  }

  /** Allowed platforms are a membership test on the configured platform. */
  lemma OnlyPlatforms(allowed: set<string>, suite: string, config: Settings, host: Host)
    ensures var reason := CheckRequirements(Defaults().(allowedPlatforms := allowed), suite, config, host);
      && (allowed == {} || Setting(config, "platform") in allowed ==> reason == "")
      && (allowed != {} && Setting(config, "platform") !in allowed ==>
            reason == PlatformReason(Setting(config, "platform")))
  {
  }

  /** Required configuration variables must all be defined under their keys;
      the reason names the least undefined one. */
  lemma OnlyConfigs(names: set<string>, suite: string, config: Settings, host: Host)
    ensures var md := Defaults().(requiredConfigs := names);
      var reason := CheckRequirements(md, suite, config, host);
      var missing := set n | n in names && ConfigKey(n, suite) !in config;
      && (missing == {} ==> reason == "")
      && (missing != {} ==> reason == ConfigReason(Least(missing)))
  {
    var md := Defaults().(requiredConfigs := names);
    assert MissingConfigs(md, suite, config) == set n | n in names && ConfigKey(n, suite) !in config;
  }

  /** The required-user matrix: "root" needs uid 0; "unprivileged" needs a
      non-root user or, when run as root, a configured unprivileged user; any
      other value is not checked. */
  lemma OnlyUser(user: string, suite: string, config: Settings, host: Host)
    ensures var reason := CheckRequirements(Defaults().(requiredUser := user), suite, config, host);
      && (user == "root" && host.uid == 0 ==> reason == "")
      && (user == "root" && host.uid != 0 ==> reason == RootReason)
      && (user == "unprivileged" && host.uid != 0 ==> reason == "")
      && (user == "unprivileged" && host.uid == 0 && "unprivileged_user" in config ==> reason == "")
      && (user == "unprivileged" && host.uid == 0 && "unprivileged_user" !in config ==>
            reason == UnprivilegedReason)
      && (user != "root" && user != "unprivileged" ==> reason == "")
  {
  }

  /** Required memory is checked only when both amounts are known. */
  lemma OnlyMemory(bytes: nat, suite: string, config: Settings, host: Host)
    ensures var reason := CheckRequirements(Defaults().(requiredMemory := bytes), suite, config, host);
      && (bytes == 0 || host.physicalMemory == 0 || bytes <= host.physicalMemory ==> reason == "")
      && (bytes > 0 && 0 < host.physicalMemory < bytes ==> reason == MemoryReason(bytes))
  {
  }

  /** A single required file passes exactly when it exists. */
  lemma OnlyFile(path: string, suite: string, config: Settings, host: Host)
    ensures var reason := CheckRequirements(Defaults().(requiredFiles := {path}), suite, config, host);
      && (path in host.existingFiles ==> reason == "")
      && (path !in host.existingFiles ==> reason == FileReason(path))
  {
    if path !in host.existingFiles {
      assert {path} - host.existingFiles == {path};
      LeastUnique(path, {path}) by {
        BelowReflexive(path);
      }
    }
  }

  /** Required programs must all be found; the reason names the least
      missing one, as a path or as a name searched in PATH. */
  lemma OnlyPrograms(programs: set<string>, suite: string, config: Settings, host: Host)
    ensures var md := Defaults().(requiredPrograms := programs);
      var reason := CheckRequirements(md, suite, config, host);
      var missing := set p | p in programs && !ProgramFound(p, host);
      && (missing == {} ==> reason == "")
      && (missing != {} ==> reason == ProgramReason(Least(missing)))
  {
    var md := Defaults().(requiredPrograms := programs);
    assert MissingPrograms(md, host) == set p | p in programs && !ProgramFound(p, host);
  }
}
