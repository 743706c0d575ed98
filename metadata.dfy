/**
 * The typed metadata of one test case: its fields and their defaults, the
 * table of fields, the grammar of each field's textual value, and the builder
 * through which metadata is accumulated field by field.
 */
module CaseMetadata {
  import opened Wrappers
  import opened Text
  import Units

  /** The timeout, in seconds, of a test case that does not declare one. */
  const DefaultTimeout: nat := 300

  datatype Metadata = Metadata(
    description: string,
    hasCleanup: bool,
    timeout: nat,                          // seconds
    allowedArchitectures: set<string>,     // empty: any architecture
    allowedPlatforms: set<string>,         // empty: any platform
    requiredConfigs: set<string>,
    requiredFiles: set<string>,
    requiredMemory: nat,                   // bytes; 0: no requirement
    requiredPrograms: set<string>,
    requiredUser: string,                  // "", "root" or "unprivileged"
    userMetadata: map<string, string>)     // keys start with "X-"

  /** The metadata of a test case that declares nothing. */
  function Defaults(): (md: Metadata)
    ensures WellFormed(md)
  {
    Metadata("", false, DefaultTimeout, {}, {}, {}, {}, 0, {}, "", map[])
  }

  /** The typed fields, each set from one textual value. */
  datatype Field =
    | Description | HasCleanup | Timeout
    | AllowedArchitectures | AllowedPlatforms | RequiredConfigs | RequiredFiles
    | RequiredMemory | RequiredPrograms | RequiredUser

  /** The name under which the builder sets a field. */
  function BuilderName(f: Field): string {
    match f
    case Description => "description"
    case HasCleanup => "has_cleanup"
    case Timeout => "timeout"
    case AllowedArchitectures => "allowed_architectures"
    case AllowedPlatforms => "allowed_platforms"
    case RequiredConfigs => "required_configs"
    case RequiredFiles => "required_files"
    case RequiredMemory => "required_memory"
    case RequiredPrograms => "required_programs"
    case RequiredUser => "required_user"
  }

  function BuilderField(name: string): (r: Option<Field>)
    ensures r.Some? ==> BuilderName(r.value) == name
    ensures r.None? ==> forall f :: BuilderName(f) != name
  {
    if name == "description" then Some(Description)
    else if name == "has_cleanup" then Some(HasCleanup)
    else if name == "timeout" then Some(Timeout)
    else if name == "allowed_architectures" then Some(AllowedArchitectures)
    else if name == "allowed_platforms" then Some(AllowedPlatforms)
    else if name == "required_configs" then Some(RequiredConfigs)
    else if name == "required_files" then Some(RequiredFiles)
    else if name == "required_memory" then Some(RequiredMemory)
    else if name == "required_programs" then Some(RequiredPrograms)
    else if name == "required_user" then Some(RequiredUser)
    else None
  }

  /** Why a property map or a builder call was refused. */
  datatype FormatError =
    | UnknownProperty(key: string)
    | InvalidValue(key: string, value: string)
  {
    function Message(): string {
      match this
      case UnknownProperty(key) => "Unknown test case metadata property '" + key + "'"
      case InvalidValue(key, value) => "Invalid value '" + value + "' for property '" + key + "'"
    }
  }

  /** Keys of free-form user metadata carry the "X-" prefix. */
  predicate IsUserKey(key: string) {
    |key| >= 2 && key[0] == 'X' && key[1] == '-'
  }

  predicate IsAbsolute(path: string) {
    |path| > 0 && path[0] == '/'
  }

  /** A program name with no directory part, to be searched for in PATH. */
  predicate IsBareName(path: string) {
    forall i :: 0 <= i < |path| ==> path[i] != '/'
  }

  /** The set of words of a whitespace-separated list. */
  function WordSet(text: string): (s: set<string>)
    ensures forall w :: w in s ==> IsWord(w)
  {
    set w | w in Words(text)
  }

  /** A boolean is spelled "true" or "false". */
  function ParseBool(text: string): (r: Option<bool>)
    ensures r.Some? <==> text == "true" || text == "false"
    ensures r.Some? ==> (r.value <==> text == "true")
  {
    if text == "true" then Some(true)
    else if text == "false" then Some(false)
    else None
  }

  /** A timeout is a positive whole number of seconds. */
  function ParseTimeout(text: string): (r: Option<nat>)
    ensures r.Some? ==> r.value > 0
  {
    match Units.ParseNat(text)
    case Some(n) => if n > 0 then Some(n) else None
    case None => None
  }

  /** A timeout written by its decimal numeral reads back as itself. */
  lemma ParseTimeoutOfNatToString(n: nat)
    requires n > 0
    ensures ParseTimeout(Units.NatToString(n)) == Some(n)
  {
    Units.ParseNatOfNatToString(n);
  }

  /** Required files must be named by absolute paths. */
  function ParseFiles(text: string): (r: Option<set<string>>)
    ensures r.Some? ==> r.value == WordSet(text)
    ensures r.Some? <==> forall p :: p in WordSet(text) ==> IsAbsolute(p)
  {
    var paths := WordSet(text);
    if forall p :: p in paths ==> IsAbsolute(p) then Some(paths) else None
  }

  /** Required programs are absolute paths or bare names, never relative
      paths with a directory part. */
  function ParsePrograms(text: string): (r: Option<set<string>>)
    ensures r.Some? ==> r.value == WordSet(text)
    ensures r.Some? <==> forall p :: p in WordSet(text) ==> IsAbsolute(p) || IsBareName(p)
  {
    var paths := WordSet(text);
    if forall p :: p in paths ==> IsAbsolute(p) || IsBareName(p) then Some(paths) else None
  }

  /** The textual value is in the grammar of the field. */
  predicate Accepted(f: Field, text: string) {
    match f
    case HasCleanup => ParseBool(text).Some?
    case Timeout => ParseTimeout(text).Some?
    case RequiredFiles => ParseFiles(text).Some?
    case RequiredMemory => Units.ParseBytes(text).Some?
    case RequiredPrograms => ParsePrograms(text).Some?
    case _ => true
  }

  /** The invariant every built metadata value satisfies. */
  predicate WellFormed(md: Metadata) {
    && md.timeout > 0
    && (forall w :: w in md.allowedArchitectures ==> IsWord(w))
    && (forall w :: w in md.allowedPlatforms ==> IsWord(w))
    && (forall w :: w in md.requiredConfigs ==> IsWord(w))
    && (forall p :: p in md.requiredFiles ==> IsWord(p) && IsAbsolute(p))
    && (forall p :: p in md.requiredPrograms ==> IsWord(p) && (IsAbsolute(p) || IsBareName(p)))
    && (forall k :: k in md.userMetadata ==> IsUserKey(k))
  }

  /** Sets field `f` of `md` from its textual value; `key` is the name under
      which the value was given and is reported if the value is refused. */
  function SetField(md: Metadata, f: Field, key: string, text: string): (r: Result<Metadata, FormatError>)
    ensures r.Ok? <==> Accepted(f, text)
    ensures r.Err? ==> r.error == InvalidValue(key, text)
  {
    match f
    case Description => Ok(md.(description := text))
    case HasCleanup =>
      (match ParseBool(text)
       case Some(b) => Ok(md.(hasCleanup := b))
       case None => Err(InvalidValue(key, text)))
    case Timeout =>
      (match ParseTimeout(text)
       case Some(n) => Ok(md.(timeout := n))
       case None => Err(InvalidValue(key, text)))
    case AllowedArchitectures => Ok(md.(allowedArchitectures := WordSet(text)))
    case AllowedPlatforms => Ok(md.(allowedPlatforms := WordSet(text)))
    case RequiredConfigs => Ok(md.(requiredConfigs := WordSet(text)))
    case RequiredFiles =>
      (match ParseFiles(text)
       case Some(paths) => Ok(md.(requiredFiles := paths))
       case None => Err(InvalidValue(key, text)))
    case RequiredMemory =>
      (match Units.ParseBytes(text)
       case Some(n) => Ok(md.(requiredMemory := n))
       case None => Err(InvalidValue(key, text)))
    case RequiredPrograms =>
      (match ParsePrograms(text)
       case Some(paths) => Ok(md.(requiredPrograms := paths))
       case None => Err(InvalidValue(key, text)))
    case RequiredUser => Ok(md.(requiredUser := text))
  }

  /** Setting a field to a value in its grammar keeps metadata well formed. */
  lemma SetFieldWellFormed(md: Metadata, f: Field, key: string, text: string)
    requires WellFormed(md) && Accepted(f, text)
    ensures WellFormed(SetField(md, f, key, text).value)
  {
  }

  /** Accumulates metadata one field at a time; every call validates its
      value, so a refused call leaves the accumulated metadata unchanged. */
  class MetadataBuilder {
    var metadata: Metadata

    ghost predicate Valid()
      reads this
    {
      WellFormed(metadata)
    }

    constructor ()
      ensures Valid() && metadata == Defaults()
    {
      metadata := Defaults();
    }

    /** Sets the field called `name` from its textual value. */
    method SetString(name: string, text: string) returns (error: Option<FormatError>)
      requires Valid()
      modifies this
      ensures Valid()
      ensures BuilderField(name).None? ==>
        error == Some(UnknownProperty(name)) && metadata == old(metadata)
      ensures BuilderField(name).Some? ==>
        match SetField(old(metadata), BuilderField(name).value, name, text)
        case Ok(md) => error == None && metadata == md
        case Err(e) => error == Some(e) && metadata == old(metadata)
    {
      match BuilderField(name)
      case None =>
        error := Some(UnknownProperty(name));
      case Some(f) =>
        var r := SetField(metadata, f, name, text);
        match r
        case Ok(md) =>
          SetFieldWellFormed(metadata, f, name, text);
          metadata := md;
          error := None;
        case Err(e) =>
          error := Some(e);
    }

    /** Records one user metadata entry; only "X-" keys are accepted. */
    method AddCustom(key: string, value: string) returns (error: Option<FormatError>)
      requires Valid()
      modifies this
      ensures Valid()
      ensures IsUserKey(key) ==>
        error == None && metadata == old(metadata).(userMetadata := old(metadata).userMetadata[key := value])
      ensures !IsUserKey(key) ==> error == Some(UnknownProperty(key)) && metadata == old(metadata)
    {
      if IsUserKey(key) {
        metadata := metadata.(userMetadata := metadata.userMetadata[key := value]);
        error := None;
      } else {
        error := Some(UnknownProperty(key));
      }
    }

    /** The metadata accumulated so far. */
    method Build() returns (md: Metadata)
      requires Valid()
      ensures md == metadata && WellFormed(md)
    {
      md := metadata;
    }
  }
}
