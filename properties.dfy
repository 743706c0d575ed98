/**
 * The property wire format of a test case: the flat string-to-string map a
 * test program reports for each of its test cases.  `FromProperties` parses it
 * into `Metadata` and `AllProperties` turns metadata back into its canonical
 * map.
 */
module Properties {
  import opened Wrappers
  import opened Lexicographic
  import opened Text
  import Units
  import opened CaseMetadata

  type PropertyMap = map<string, string>

  /** The table of known property keys, one per field. */
  function PropertyKey(f: Field): string {
    match f
    case Description => "descr"
    case HasCleanup => "has.cleanup"
    case Timeout => "timeout"
    case AllowedArchitectures => "require.arch"
    case AllowedPlatforms => "require.machine"
    case RequiredConfigs => "require.config"
    case RequiredFiles => "require.files"
    case RequiredMemory => "require.memory"
    case RequiredPrograms => "require.progs"
    case RequiredUser => "require.user"
  }

  function PropertyField(key: string): (r: Option<Field>)
    ensures r.Some? ==> PropertyKey(r.value) == key
    ensures r.None? ==> forall f :: PropertyKey(f) != key
    ensures IsUserKey(key) ==> r.None?
  {
    if key == "descr" then Some(Description)
    else if key == "has.cleanup" then Some(HasCleanup)
    else if key == "timeout" then Some(Timeout)
    else if key == "require.arch" then Some(AllowedArchitectures)
    else if key == "require.machine" then Some(AllowedPlatforms)
    else if key == "require.config" then Some(RequiredConfigs)
    else if key == "require.files" then Some(RequiredFiles)
    else if key == "require.memory" then Some(RequiredMemory)
    else if key == "require.progs" then Some(RequiredPrograms)
    else if key == "require.user" then Some(RequiredUser)
    else None
  }

  /** A single property is valid: a known key with a value in the grammar of
      its field, or a user metadata key with any value. */
  predicate Acceptable(key: string, value: string) {
    match PropertyField(key)
    case Some(f) => Accepted(f, value)
    case None => IsUserKey(key)
  }

  /** The error an invalid property is reported with. */
  function Rejection(key: string, value: string): FormatError {
    if PropertyField(key).Some? then InvalidValue(key, value) else UnknownProperty(key)
  }

  /** Records one property in `md`. */
  function Apply(md: Metadata, key: string, value: string): (r: Result<Metadata, FormatError>)
    ensures r.Ok? <==> Acceptable(key, value)
    ensures r.Err? ==> r.error == Rejection(key, value)
  {
    match PropertyField(key)
    case Some(f) => SetField(md, f, key, value)
    case None =>
      if IsUserKey(key) then Ok(md.(userMetadata := md.userMetadata[key := value]))
      else Err(UnknownProperty(key))
  }

  /** Records the properties named by `keys`, in that order, stopping at the
      first one that is refused. */
  function ApplyAll(md: Metadata, keys: seq<string>, props: PropertyMap): Result<Metadata, FormatError>
    requires forall i :: 0 <= i < |keys| ==> keys[i] in props
    decreases |keys|
  {
    if keys == [] then Ok(md)
    else
      match Apply(md, keys[0], props[keys[0]])
      case Ok(next) => ApplyAll(next, keys[1..], props)
      case Err(e) => Err(e)
  }

  const AllFields: set<Field> := {
    Description, HasCleanup, Timeout, AllowedArchitectures, AllowedPlatforms,
    RequiredConfigs, RequiredFiles, RequiredMemory, RequiredPrograms, RequiredUser}

  /** Distinct fields have distinct property keys. */
  lemma PropertyKeyInjective(f: Field, g: Field)
    requires PropertyKey(f) == PropertyKey(g)
    ensures f == g
  {
    assert PropertyField(PropertyKey(f)) == Some(f);
  }

  lemma AllFieldsListed()
    ensures forall f: Field :: f in AllFields
  {
    forall f: Field
      ensures f in AllFields
    {
      match f
      case Description =>
      case HasCleanup =>
      case Timeout =>
      case AllowedArchitectures =>
      case AllowedPlatforms =>
      case RequiredConfigs =>
      case RequiredFiles =>
      case RequiredMemory =>
      case RequiredPrograms =>
      case RequiredUser =>
    }
  }

  /** The fields whose keys are among `keys`. */
  function FieldsIn(keys: set<string>): (fields: set<Field>)
    ensures forall f :: f in fields <==> PropertyKey(f) in keys
  {
    AllFieldsListed();
    set f | f in AllFields && PropertyKey(f) in keys
  }

  /** `md` with the fields in `fields` and the user metadata keys in `users`
      taken from `props`: the order-free reading of a property map. */
  function Override(md: Metadata, fields: set<Field>, users: set<string>, props: PropertyMap): Metadata {
    Metadata(
      description :=
        if Description in fields && PropertyKey(Description) in props
        then props[PropertyKey(Description)] else md.description,
      hasCleanup :=
        if HasCleanup in fields && PropertyKey(HasCleanup) in props
        then ParseBool(props[PropertyKey(HasCleanup)]).GetOr(md.hasCleanup) else md.hasCleanup,
      timeout :=
        if Timeout in fields && PropertyKey(Timeout) in props
        then ParseTimeout(props[PropertyKey(Timeout)]).GetOr(md.timeout) else md.timeout,
      allowedArchitectures :=
        if AllowedArchitectures in fields && PropertyKey(AllowedArchitectures) in props
        then WordSet(props[PropertyKey(AllowedArchitectures)]) else md.allowedArchitectures,
      allowedPlatforms :=
        if AllowedPlatforms in fields && PropertyKey(AllowedPlatforms) in props
        then WordSet(props[PropertyKey(AllowedPlatforms)]) else md.allowedPlatforms,
      requiredConfigs :=
        if RequiredConfigs in fields && PropertyKey(RequiredConfigs) in props
        then WordSet(props[PropertyKey(RequiredConfigs)]) else md.requiredConfigs,
      requiredFiles :=
        if RequiredFiles in fields && PropertyKey(RequiredFiles) in props
        then ParseFiles(props[PropertyKey(RequiredFiles)]).GetOr(md.requiredFiles) else md.requiredFiles,
      requiredMemory :=
        if RequiredMemory in fields && PropertyKey(RequiredMemory) in props
        then Units.ParseBytes(props[PropertyKey(RequiredMemory)]).GetOr(md.requiredMemory) else md.requiredMemory,
      requiredPrograms :=
        if RequiredPrograms in fields && PropertyKey(RequiredPrograms) in props
        then ParsePrograms(props[PropertyKey(RequiredPrograms)]).GetOr(md.requiredPrograms)
        else md.requiredPrograms,
      requiredUser :=
        if RequiredUser in fields && PropertyKey(RequiredUser) in props
        then props[PropertyKey(RequiredUser)] else md.requiredUser,
      userMetadata :=
        md.userMetadata + map k | k in users && k in props :: props[k])
  }

  /** The metadata a valid property map describes, independently of the order
      in which its entries are visited. */
  function Interpret(props: PropertyMap): Metadata {
    Override(Defaults(), FieldsIn(props.Keys), UsersIn(props.Keys), props)
  }

  /** The user metadata keys among `keys`. */
  function UsersIn(keys: set<string>): (users: set<string>)
    ensures forall k :: k in users <==> k in keys && IsUserKey(k)
  {
    set k | k in keys && IsUserKey(k)
  }

  lemma OverrideNothing(md: Metadata, props: PropertyMap)
    ensures Override(md, {}, {}, props) == md
  {
    assert Override(md, {}, {}, props).userMetadata == md.userMetadata;
  }

  /** Applying one more valid user metadata property is overriding its key. */
  lemma ApplyUserThenOverride(md: Metadata, key: string, fields: set<Field>, users: set<string>, props: PropertyMap)
    requires key in props && key !in users
    ensures Override(md.(userMetadata := md.userMetadata[key := props[key]]), fields, users, props)
      == Override(md, fields, users + {key}, props)
  {
    assert md.userMetadata[key := props[key]] + (map k | k in users && k in props :: props[k])
      == md.userMetadata + (map k | k in users + {key} && k in props :: props[k]);
  }

  /** Setting one more valid field is overriding it, field by field. */
  lemma OverrideDescription(md: Metadata, fields: set<Field>, users: set<string>, props: PropertyMap)
    requires Description !in fields && PropertyKey(Description) in props
    ensures Override(md.(description := props[PropertyKey(Description)]), fields, users, props)
      == Override(md, fields + {Description}, users, props)
  {
  }

  lemma OverrideHasCleanup(md: Metadata, fields: set<Field>, users: set<string>, props: PropertyMap)
    requires HasCleanup !in fields && PropertyKey(HasCleanup) in props
    requires ParseBool(props[PropertyKey(HasCleanup)]).Some?
    ensures Override(md.(hasCleanup := ParseBool(props[PropertyKey(HasCleanup)]).value), fields, users, props)
      == Override(md, fields + {HasCleanup}, users, props)
  {
  }

  lemma OverrideTimeout(md: Metadata, fields: set<Field>, users: set<string>, props: PropertyMap)
    requires Timeout !in fields && PropertyKey(Timeout) in props
    requires ParseTimeout(props[PropertyKey(Timeout)]).Some?
    ensures Override(md.(timeout := ParseTimeout(props[PropertyKey(Timeout)]).value), fields, users, props)
      == Override(md, fields + {Timeout}, users, props)
  {
  }

  lemma OverrideAllowedArchitectures(md: Metadata, fields: set<Field>, users: set<string>, props: PropertyMap)
    requires AllowedArchitectures !in fields && PropertyKey(AllowedArchitectures) in props
    ensures Override(md.(allowedArchitectures := WordSet(props[PropertyKey(AllowedArchitectures)])), fields, users, props)
      == Override(md, fields + {AllowedArchitectures}, users, props)
  {
  }

  lemma OverrideAllowedPlatforms(md: Metadata, fields: set<Field>, users: set<string>, props: PropertyMap)
    requires AllowedPlatforms !in fields && PropertyKey(AllowedPlatforms) in props
    ensures Override(md.(allowedPlatforms := WordSet(props[PropertyKey(AllowedPlatforms)])), fields, users, props)
      == Override(md, fields + {AllowedPlatforms}, users, props)
  {
  }

  lemma OverrideRequiredConfigs(md: Metadata, fields: set<Field>, users: set<string>, props: PropertyMap)
    requires RequiredConfigs !in fields && PropertyKey(RequiredConfigs) in props
    ensures Override(md.(requiredConfigs := WordSet(props[PropertyKey(RequiredConfigs)])), fields, users, props)
      == Override(md, fields + {RequiredConfigs}, users, props)
  {
  }

  lemma OverrideRequiredFiles(md: Metadata, fields: set<Field>, users: set<string>, props: PropertyMap)
    requires RequiredFiles !in fields && PropertyKey(RequiredFiles) in props
    requires ParseFiles(props[PropertyKey(RequiredFiles)]).Some?
    ensures Override(md.(requiredFiles := ParseFiles(props[PropertyKey(RequiredFiles)]).value), fields, users, props)
      == Override(md, fields + {RequiredFiles}, users, props)
  {
  }

  lemma OverrideRequiredMemory(md: Metadata, fields: set<Field>, users: set<string>, props: PropertyMap)
    requires RequiredMemory !in fields && PropertyKey(RequiredMemory) in props
    requires Units.ParseBytes(props[PropertyKey(RequiredMemory)]).Some?
    ensures Override(md.(requiredMemory := Units.ParseBytes(props[PropertyKey(RequiredMemory)]).value), fields, users, props)
      == Override(md, fields + {RequiredMemory}, users, props)
  {
  }

  lemma OverrideRequiredPrograms(md: Metadata, fields: set<Field>, users: set<string>, props: PropertyMap)
    requires RequiredPrograms !in fields && PropertyKey(RequiredPrograms) in props
    requires ParsePrograms(props[PropertyKey(RequiredPrograms)]).Some?
    ensures Override(md.(requiredPrograms := ParsePrograms(props[PropertyKey(RequiredPrograms)]).value), fields, users, props)
      == Override(md, fields + {RequiredPrograms}, users, props)
  {
  }

  lemma OverrideRequiredUser(md: Metadata, fields: set<Field>, users: set<string>, props: PropertyMap)
    requires RequiredUser !in fields && PropertyKey(RequiredUser) in props
    ensures Override(md.(requiredUser := props[PropertyKey(RequiredUser)]), fields, users, props)
      == Override(md, fields + {RequiredUser}, users, props)
  {
  }

  lemma SetFieldThenOverride(md: Metadata, f: Field, key: string, fields: set<Field>, users: set<string>, props: PropertyMap)
    requires PropertyKey(f) in props && f !in fields && Accepted(f, props[PropertyKey(f)])
    ensures Override(SetField(md, f, key, props[PropertyKey(f)]).value, fields, users, props)
      == Override(md, fields + {f}, users, props)
  {
    var v := props[PropertyKey(f)];
    var next := SetField(md, f, key, v).value;
    match f
    case Description => assert next == md.(description := v); OverrideDescription(md, fields, users, props);
    case HasCleanup => assert next == md.(hasCleanup := ParseBool(v).value); OverrideHasCleanup(md, fields, users, props);
    case Timeout => assert next == md.(timeout := ParseTimeout(v).value); OverrideTimeout(md, fields, users, props);
    case AllowedArchitectures => assert next == md.(allowedArchitectures := WordSet(v)); OverrideAllowedArchitectures(md, fields, users, props);
    case AllowedPlatforms => assert next == md.(allowedPlatforms := WordSet(v)); OverrideAllowedPlatforms(md, fields, users, props);
    case RequiredConfigs => assert next == md.(requiredConfigs := WordSet(v)); OverrideRequiredConfigs(md, fields, users, props);
    case RequiredFiles => assert next == md.(requiredFiles := ParseFiles(v).value); OverrideRequiredFiles(md, fields, users, props);
    case RequiredMemory => assert next == md.(requiredMemory := Units.ParseBytes(v).value); OverrideRequiredMemory(md, fields, users, props);
    case RequiredPrograms => assert next == md.(requiredPrograms := ParsePrograms(v).value); OverrideRequiredPrograms(md, fields, users, props);
    case RequiredUser => assert next == md.(requiredUser := v); OverrideRequiredUser(md, fields, users, props);
  }

  /** Applying one more valid property is overriding its key. */
  lemma ApplyThenOverride(md: Metadata, key: string, rest: set<string>, props: PropertyMap)
    requires key in props && key !in rest && Acceptable(key, props[key])
    ensures Override(Apply(md, key, props[key]).value, FieldsIn(rest), UsersIn(rest), props)
      == Override(md, FieldsIn(rest + {key}), UsersIn(rest + {key}), props)
  {
    match PropertyField(key)
    case Some(f) =>
      assert FieldsIn(rest + {key}) == FieldsIn(rest) + {f} by {
        forall g ensures PropertyKey(g) == key <==> g == f {
          if PropertyKey(g) == key {
            PropertyKeyInjective(g, f);
          }
        }
      }
      assert UsersIn(rest + {key}) == UsersIn(rest);
      SetFieldThenOverride(md, f, key, FieldsIn(rest), UsersIn(rest), props);
    case None =>
      assert FieldsIn(rest + {key}) == FieldsIn(rest);
      assert UsersIn(rest + {key}) == UsersIn(rest) + {key};
      ApplyUserThenOverride(md, key, FieldsIn(rest), UsersIn(rest), props);
  }

  /** `ApplyAll` over distinct valid keys overrides every field and user key
      it is given. */
  lemma {:induction false} ApplyAllOverrides(md: Metadata, keys: seq<string>, props: PropertyMap)
    requires forall i :: 0 <= i < |keys| ==> keys[i] in props && Acceptable(keys[i], props[keys[i]])
    requires forall i, j :: 0 <= i < j < |keys| ==> keys[i] != keys[j]
    ensures ApplyAll(md, keys, props)
      == Ok(Override(md, FieldsIn(set k | k in keys), UsersIn(set k | k in keys), props))
    decreases |keys|
  {
    if keys == [] {
      OverrideNothing(md, props);
      assert (set k | k in keys) == {};
      assert FieldsIn({}) == {} && UsersIn({}) == {};
    } else {
      var key := keys[0];
      var tail := keys[1..];
      assert Acceptable(key, props[key]);
      var next := Apply(md, key, props[key]).value;
      assert ApplyAll(md, keys, props) == ApplyAll(next, tail, props);
      assert forall i :: 0 <= i < |tail| ==> tail[i] == keys[i + 1];
      ApplyAllOverrides(next, tail, props);
      var rest := set k | k in tail;
      MembersOfCons(keys);
      assert key !in rest;
      ApplyThenOverride(md, key, rest, props);
    }
  }

  lemma MembersOfCons(keys: seq<string>)
    requires keys != []
    ensures (set k | k in keys) == (set k | k in keys[1..]) + {keys[0]}
  {
    forall x
      ensures x in keys <==> x in keys[1..] || x == keys[0]
    {
      assert keys == [keys[0]] + keys[1..];
    }
  }

  /** The position of the first refused property among `keys`, or `|keys|`
      when every one is valid. */
  function FirstRefused(keys: seq<string>, props: PropertyMap): (j: nat)
    requires forall i :: 0 <= i < |keys| ==> keys[i] in props
    ensures j <= |keys|
    ensures forall i :: 0 <= i < j ==> Acceptable(keys[i], props[keys[i]])
    ensures j < |keys| ==> !Acceptable(keys[j], props[keys[j]])
    decreases |keys|
  {
    if keys == [] then 0
    else if !Acceptable(keys[0], props[keys[0]]) then 0
    else 1 + FirstRefused(keys[1..], props)
  }

  /** `ApplyAll` fails exactly when some key is refused, and then with the
      error of the first refused key. */
  lemma {:induction false} ApplyAllStopsAtFirstRefused(md: Metadata, keys: seq<string>, props: PropertyMap)
    requires forall i :: 0 <= i < |keys| ==> keys[i] in props
    ensures var j := FirstRefused(keys, props);
      && (ApplyAll(md, keys, props).Ok? <==> j == |keys|)
      && (j < |keys| ==> ApplyAll(md, keys, props) == Err(Rejection(keys[j], props[keys[j]])))
    decreases |keys|
  {
    if keys != [] && Acceptable(keys[0], props[keys[0]]) {
      ApplyAllStopsAtFirstRefused(Apply(md, keys[0], props[keys[0]]).value, keys[1..], props);
    }
  }

  lemma InterpretWellFormed(props: PropertyMap)
    requires forall k :: k in props ==> Acceptable(k, props[k])
    ensures WellFormed(Interpret(props))
  {
    forall f | PropertyKey(f) in props
      ensures Accepted(f, props[PropertyKey(f)])
    {
      assert PropertyField(PropertyKey(f)) == Some(f) by {
        PropertyKeyInjective(PropertyField(PropertyKey(f)).value, f);
      }
    }
  }

  /** Parses a property map into metadata, visiting the keys in the order of
      the map (lexicographic) and failing on the first refused property. */
  function FromProperties(props: PropertyMap): (r: Result<Metadata, FormatError>)
    ensures r.Ok? <==> forall k :: k in props ==> Acceptable(k, props[k])
    ensures r.Ok? ==> r.value == Interpret(props) && WellFormed(r.value)
    ensures r.Err? ==>
      && r.error.key in props
      && !Acceptable(r.error.key, props[r.error.key])
      && r.error == Rejection(r.error.key, props[r.error.key])
      && forall k :: k in props && !Acceptable(k, props[k]) ==> Below(r.error.key, k)
  {
    var keys := Sorted(props.Keys);
    FirstRejectionIsLeast(props);
    ApplyAll(Defaults(), keys, props)
  }

  lemma FirstRejectionIsLeast(props: PropertyMap)
    ensures var keys := Sorted(props.Keys);
      var r := ApplyAll(Defaults(), keys, props);
      && (r.Ok? <==> forall k :: k in props ==> Acceptable(k, props[k]))
      && (r.Ok? ==> r.value == Interpret(props) && WellFormed(r.value))
      && (r.Err? ==>
        && r.error.key in props
        && !Acceptable(r.error.key, props[r.error.key])
        && r.error == Rejection(r.error.key, props[r.error.key])
        && forall k :: k in props && !Acceptable(k, props[k]) ==> Below(r.error.key, k))
  {
    var keys := Sorted(props.Keys);
    var j := FirstRefused(keys, props);
    ApplyAllStopsAtFirstRefused(Defaults(), keys, props);
    if j == |keys| {
      AllValidApplied(keys, props);
      InterpretWellFormed(props);
    } else {
      FirstRefusedError(keys, props);
    }
  }

  /** When some key is refused, the error is the rejection of the first
      refused key, and that one sorts before every other refused key. */
  lemma FirstRefusedError(keys: seq<string>, props: PropertyMap)
    requires forall k :: k in keys <==> k in props
    requires Increasing(keys)
    requires FirstRefused(keys, props) < |keys|
    requires ApplyAll(Defaults(), keys, props)
      == Err(Rejection(keys[FirstRefused(keys, props)], props[keys[FirstRefused(keys, props)]]))
    ensures var r := ApplyAll(Defaults(), keys, props);
      && r.Err?
      && !(forall k :: k in props ==> Acceptable(k, props[k]))
      && r.error.key in props
      && !Acceptable(r.error.key, props[r.error.key])
      && r.error == Rejection(r.error.key, props[r.error.key])
      && forall k :: k in props && !Acceptable(k, props[k]) ==> Below(r.error.key, k)
  {
    var j := FirstRefused(keys, props);
    var key := keys[j];
    assert key in props;
    assert Rejection(key, props[key]).key == key;
    FirstRefusedIsLeast(keys, props);
  }

  lemma AllValidApplied(keys: seq<string>, props: PropertyMap)
    requires forall k :: k in keys <==> k in props
    requires Increasing(keys)
    requires FirstRefused(keys, props) == |keys|
    ensures forall k :: k in props ==> Acceptable(k, props[k])
    ensures ApplyAll(Defaults(), keys, props) == Ok(Interpret(props))
  {
    forall k | k in props
      ensures Acceptable(k, props[k])
    {
      var i :| 0 <= i < |keys| && keys[i] == k;
    }
    ApplyAllOverrides(Defaults(), keys, props);
    assert (set k | k in keys) == props.Keys;
  }

  lemma FirstRefusedIsLeast(keys: seq<string>, props: PropertyMap)
    requires forall k :: k in keys <==> k in props
    requires Increasing(keys)
    requires FirstRefused(keys, props) < |keys|
    ensures forall k :: k in props && !Acceptable(k, props[k]) ==> Below(keys[FirstRefused(keys, props)], k)
  {
    var j := FirstRefused(keys, props);
    forall k | k in props && !Acceptable(k, props[k])
      ensures Below(keys[j], k)
    {
      var i :| 0 <= i < |keys| && keys[i] == k;
      if i == j {
        BelowReflexive(k);
      }
    }
  }

  /** The field of every key present in an accepted map is read from that
      key's value; every other field keeps its default; the user metadata is
      exactly the map's "X-" entries. */
  lemma ParsedFields(props: PropertyMap)
    requires FromProperties(props).Ok?
    ensures var md := FromProperties(props).value;
      && md.description == ValueOr(props, Description, Defaults().description)
      && md.requiredUser == ValueOr(props, RequiredUser, Defaults().requiredUser)
      && (PropertyKey(HasCleanup) in props ==> ParseBool(props[PropertyKey(HasCleanup)]) == Some(md.hasCleanup))
      && (PropertyKey(HasCleanup) !in props ==> !md.hasCleanup)
      && (PropertyKey(Timeout) in props ==> ParseTimeout(props[PropertyKey(Timeout)]) == Some(md.timeout))
      && (PropertyKey(Timeout) !in props ==> md.timeout == DefaultTimeout)
      && (PropertyKey(RequiredMemory) in props ==>
            Units.ParseBytes(props[PropertyKey(RequiredMemory)]) == Some(md.requiredMemory))
      && (PropertyKey(RequiredMemory) !in props ==> md.requiredMemory == 0)
    ensures var md := FromProperties(props).value;
      && md.allowedArchitectures == WordsOr(props, AllowedArchitectures)
      && md.allowedPlatforms == WordsOr(props, AllowedPlatforms)
      && md.requiredConfigs == WordsOr(props, RequiredConfigs)
      && md.requiredFiles == WordsOr(props, RequiredFiles)
      && md.requiredPrograms == WordsOr(props, RequiredPrograms)
    ensures FromProperties(props).value.userMetadata == map k | k in props && IsUserKey(k) :: props[k]
  {
    assert FromProperties(props).value == Interpret(props);
    KnownKeysAccepted(props);
    InterpretScalars(props);
    InterpretLists(props);
    UsersRecovered(map k | k in props && IsUserKey(k) :: props[k], props);
  }

  lemma KnownKeysAccepted(props: PropertyMap)
    requires forall k :: k in props ==> Acceptable(k, props[k])
    ensures forall f :: PropertyKey(f) in props ==> Accepted(f, props[PropertyKey(f)])
  {
    forall f | PropertyKey(f) in props
      ensures Accepted(f, props[PropertyKey(f)])
    {
      assert PropertyField(PropertyKey(f)) == Some(f) by {
        PropertyKeyInjective(PropertyField(PropertyKey(f)).value, f);
      }
    }
  }

  lemma InterpretScalars(props: PropertyMap)
    requires forall f :: PropertyKey(f) in props ==> Accepted(f, props[PropertyKey(f)])
    ensures var md := Interpret(props);
      && md.description == ValueOr(props, Description, Defaults().description)
      && md.requiredUser == ValueOr(props, RequiredUser, Defaults().requiredUser)
      && (PropertyKey(HasCleanup) in props ==> ParseBool(props[PropertyKey(HasCleanup)]) == Some(md.hasCleanup))
      && (PropertyKey(HasCleanup) !in props ==> !md.hasCleanup)
      && (PropertyKey(Timeout) in props ==> ParseTimeout(props[PropertyKey(Timeout)]) == Some(md.timeout))
      && (PropertyKey(Timeout) !in props ==> md.timeout == DefaultTimeout)
      && (PropertyKey(RequiredMemory) in props ==>
            Units.ParseBytes(props[PropertyKey(RequiredMemory)]) == Some(md.requiredMemory))
      && (PropertyKey(RequiredMemory) !in props ==> md.requiredMemory == 0)
  {
    var fields := FieldsIn(props.Keys);
  }

  lemma InterpretLists(props: PropertyMap)
    ensures var md := Interpret(props);
      && md.allowedArchitectures == WordsOr(props, AllowedArchitectures)
      && md.allowedPlatforms == WordsOr(props, AllowedPlatforms)
      && md.requiredConfigs == WordsOr(props, RequiredConfigs)
      && md.requiredFiles == WordsOr(props, RequiredFiles)
      && md.requiredPrograms == WordsOr(props, RequiredPrograms)
    requires forall f :: PropertyKey(f) in props ==> Accepted(f, props[PropertyKey(f)])
  {
    var fields := FieldsIn(props.Keys);
  }

  /** The value given for field `f`, or `default` when its key is absent. */
  function ValueOr(props: PropertyMap, f: Field, default: string): string {
    if PropertyKey(f) in props then props[PropertyKey(f)] else default
  }

  /** The words of the value given for field `f`, or none when its key is
      absent. */
  function WordsOr(props: PropertyMap, f: Field): set<string> {
    if PropertyKey(f) in props then WordSet(props[PropertyKey(f)]) else {}
  }

  /** The members of a set, sorted and joined with single spaces. */
  function FlattenSet(s: set<string>): string {
    Join(Sorted(s))
  }

  /** A flattened set of words splits back into its members, each once and
      in increasing order. */
  lemma WordsOfFlattenSet(s: set<string>)
    requires forall w :: w in s ==> IsWord(w)
    ensures Words(FlattenSet(s)) == Sorted(s)
    ensures Increasing(Words(FlattenSet(s)))
    ensures forall w :: w in Words(FlattenSet(s)) <==> w in s
  {
    WordsOfJoin(Sorted(s));
  }

  lemma WordSetOfFlattenSet(s: set<string>)
    requires forall w :: w in s ==> IsWord(w)
    ensures WordSet(FlattenSet(s)) == s
  {
    WordsOfFlattenSet(s);
  }

  /** The text under which field `f` of `md` is emitted, or `None` when the
      field holds its default and is left out. */
  function Emitted(md: Metadata, f: Field): Option<string> {
    match f
    case Description => if md.description != "" then Some(md.description) else None
    case HasCleanup => if md.hasCleanup then Some("true") else None
    case Timeout => if md.timeout != DefaultTimeout then Some(Units.NatToString(md.timeout)) else None
    case AllowedArchitectures =>
      if md.allowedArchitectures != {} then Some(FlattenSet(md.allowedArchitectures)) else None
    case AllowedPlatforms => if md.allowedPlatforms != {} then Some(FlattenSet(md.allowedPlatforms)) else None
    case RequiredConfigs => if md.requiredConfigs != {} then Some(FlattenSet(md.requiredConfigs)) else None
    case RequiredFiles => if md.requiredFiles != {} then Some(FlattenSet(md.requiredFiles)) else None
    case RequiredMemory => if md.requiredMemory != 0 then Some(Units.NatToString(md.requiredMemory)) else None
    case RequiredPrograms => if md.requiredPrograms != {} then Some(FlattenSet(md.requiredPrograms)) else None
    case RequiredUser => if md.requiredUser != "" then Some(md.requiredUser) else None
  }

  /** The canonical property map of `md`: the user metadata verbatim plus the
      key of every field that differs from its default. */
  function AllProperties(md: Metadata): PropertyMap {
    PropertyKeysDistinct();
    md.userMetadata + map f | f in AllFields && Emitted(md, f).Some? :: PropertyKey(f) := Emitted(md, f).value
  }

  lemma PropertyKeysDistinct()
    ensures forall f, g :: PropertyKey(f) == PropertyKey(g) ==> f == g
  {
    forall f, g | PropertyKey(f) == PropertyKey(g)
      ensures f == g
    {
      PropertyKeyInjective(f, g);
    }
  }

  /** No field's property key looks like a user metadata key. */
  lemma PropertyKeyNotUser(f: Field)
    ensures !IsUserKey(PropertyKey(f))
  {
  }

  /** The canonical map holds a field's key exactly when the field is not at
      its default, and then under the emitted text. */
  lemma AllPropertiesLookup(md: Metadata, f: Field)
    requires WellFormed(md)
    ensures PropertyKey(f) in AllProperties(md) <==> Emitted(md, f).Some?
    ensures Emitted(md, f).Some? ==> AllProperties(md)[PropertyKey(f)] == Emitted(md, f).value
  {
    AllFieldsListed();
    PropertyKeyNotUser(f);
    if Emitted(md, f).Some? {
      forall g | g in AllFields && Emitted(md, g).Some? && PropertyKey(g) == PropertyKey(f)
        ensures g == f
      {
        PropertyKeyInjective(g, f);
      }
    } else {
      forall g | PropertyKey(g) == PropertyKey(f)
        ensures g == f
      {
        PropertyKeyInjective(g, f);
      }
    }
  }

  /** Every emitted text is in the grammar of its field. */
  lemma EmittedAccepted(md: Metadata, f: Field)
    requires WellFormed(md) && Emitted(md, f).Some?
    ensures Accepted(f, Emitted(md, f).value)
  {
    match f
    case Timeout => Units.ParseNatOfNatToString(md.timeout);
    case RequiredFiles => WordSetOfFlattenSet(md.requiredFiles);
    case RequiredMemory => Units.ParseBytesOfNatToString(md.requiredMemory);
    case RequiredPrograms => WordSetOfFlattenSet(md.requiredPrograms);
    case _ =>
  }

  /** Parsing the canonical map of well-formed metadata gives it back. */
  lemma RoundTrip(md: Metadata)
    requires WellFormed(md)
    ensures FromProperties(AllProperties(md)) == Ok(md)
  {
    var props := AllProperties(md);
    forall k | k in props
      ensures Acceptable(k, props[k])
    {
      match PropertyField(k)
      case Some(f) =>
        AllPropertiesLookup(md, f);
        EmittedAccepted(md, f);
      case None =>
        assert k in md.userMetadata;
    }
    InterpretAllProperties(md);
  }

  /** Interpreting the canonical map of well-formed metadata gives it back. */
  lemma InterpretAllProperties(md: Metadata)
    requires WellFormed(md)
    ensures Interpret(AllProperties(md)) == md
  {
    InterpretDescription(md);
    InterpretHasCleanup(md);
    InterpretTimeout(md);
    InterpretAllowedArchitectures(md);
    InterpretAllowedPlatforms(md);
    InterpretRequiredConfigs(md);
    InterpretRequiredFiles(md);
    InterpretRequiredMemory(md);
    InterpretRequiredPrograms(md);
    InterpretRequiredUser(md);
    InterpretUsers(md);
  }

  lemma InterpretDescription(md: Metadata)
    requires WellFormed(md)
    ensures Interpret(AllProperties(md)).description == md.description
  {
    AllPropertiesLookup(md, Description);
  }

  lemma InterpretHasCleanup(md: Metadata)
    requires WellFormed(md)
    ensures Interpret(AllProperties(md)).hasCleanup == md.hasCleanup
  {
    AllPropertiesLookup(md, HasCleanup);
  }

  lemma InterpretTimeout(md: Metadata)
    requires WellFormed(md)
    ensures Interpret(AllProperties(md)).timeout == md.timeout
  {
    AllPropertiesLookup(md, Timeout);
    Units.ParseNatOfNatToString(md.timeout);
  }

  lemma InterpretAllowedArchitectures(md: Metadata)
    requires WellFormed(md)
    ensures Interpret(AllProperties(md)).allowedArchitectures == md.allowedArchitectures
  {
    AllPropertiesLookup(md, AllowedArchitectures);
    WordSetOfFlattenSet(md.allowedArchitectures);
  }

  lemma InterpretAllowedPlatforms(md: Metadata)
    requires WellFormed(md)
    ensures Interpret(AllProperties(md)).allowedPlatforms == md.allowedPlatforms
  {
    AllPropertiesLookup(md, AllowedPlatforms);
    WordSetOfFlattenSet(md.allowedPlatforms);
  }

  lemma InterpretRequiredConfigs(md: Metadata)
    requires WellFormed(md)
    ensures Interpret(AllProperties(md)).requiredConfigs == md.requiredConfigs
  {
    AllPropertiesLookup(md, RequiredConfigs);
    WordSetOfFlattenSet(md.requiredConfigs);
  }

  lemma InterpretRequiredFiles(md: Metadata)
    requires WellFormed(md)
    ensures Interpret(AllProperties(md)).requiredFiles == md.requiredFiles
  {
    AllPropertiesLookup(md, RequiredFiles);
    WordSetOfFlattenSet(md.requiredFiles);
  }

  lemma InterpretRequiredMemory(md: Metadata)
    requires WellFormed(md)
    ensures Interpret(AllProperties(md)).requiredMemory == md.requiredMemory
  {
    AllPropertiesLookup(md, RequiredMemory);
    Units.ParseBytesOfNatToString(md.requiredMemory);
  }

  lemma InterpretRequiredPrograms(md: Metadata)
    requires WellFormed(md)
    ensures Interpret(AllProperties(md)).requiredPrograms == md.requiredPrograms
  {
    AllPropertiesLookup(md, RequiredPrograms);
    WordSetOfFlattenSet(md.requiredPrograms);
  }

  lemma InterpretRequiredUser(md: Metadata)
    requires WellFormed(md)
    ensures Interpret(AllProperties(md)).requiredUser == md.requiredUser
  {
    AllPropertiesLookup(md, RequiredUser);
  }

  lemma InterpretUsers(md: Metadata)
    requires WellFormed(md)
    ensures Interpret(AllProperties(md)).userMetadata == md.userMetadata
  {
    var props := AllProperties(md);
    UserKeysOfAllProperties(md);
    UsersRecovered(md.userMetadata, props);
  }

  /** A property map whose user entries are exactly `users` is interpreted
      with exactly that user metadata. */
  lemma UsersRecovered(users: map<string, string>, props: PropertyMap)
    requires forall k :: k in UsersIn(props.Keys) <==> k in users
    requires forall k :: k in users ==> k in props && props[k] == users[k]
    ensures Interpret(props).userMetadata == users
  {
    var picked := map k | k in UsersIn(props.Keys) && k in props :: props[k];
    assert picked == users;
    assert Interpret(props).userMetadata == map[] + picked;
  }

  /** The user keys of the canonical map are exactly those of the user
      metadata, with the same values. */
  lemma UserKeysOfAllProperties(md: Metadata)
    requires WellFormed(md)
    ensures forall k :: k in UsersIn(AllProperties(md).Keys) <==> k in md.userMetadata
    ensures forall k :: k in md.userMetadata ==> AllProperties(md)[k] == md.userMetadata[k]
  {
    var props := AllProperties(md);
    forall k | k in md.userMetadata
      ensures k in props && props[k] == md.userMetadata[k]
    {
      forall f ensures PropertyKey(f) != k {
        PropertyKeyNotUser(f);
      }
    }
    forall k | k in props && IsUserKey(k)
      ensures k in md.userMetadata
    {
      forall f ensures PropertyKey(f) != k {
        PropertyKeyNotUser(f);
      }
    }
  }


  /** Overriding no field only adds user metadata. */
  lemma OverrideUsersOnly(md: Metadata, users: set<string>, props: PropertyMap)
    ensures Override(md, {}, users, props)
      == md.(userMetadata := md.userMetadata + map k | k in users && k in props :: props[k])
  {
  }

  /** Metadata whose fields all hold their defaults is serialised as its
      user metadata alone. */
  lemma AllPropertiesOfUsers(users: map<string, string>)
    ensures AllProperties(Defaults().(userMetadata := users)) == users
  {
    var md := Defaults().(userMetadata := users);
    assert forall f :: Emitted(md, f).None?;
    assert AllProperties(md).Keys == users.Keys;
  }

  /** An empty property map describes the defaults, and the defaults have
      an empty canonical map. */
  lemma EmptyMapIsDefaults()
    ensures FromProperties(map[]) == Ok(Defaults())
    ensures AllProperties(Defaults()) == map[]
  {
    assert FieldsIn({}) == {} && UsersIn({}) == {};
    OverrideNothing(Defaults(), map[]);
    AllPropertiesOfUsers(map[]);
  }

  /** Only metadata with every field at its default has an empty canonical
      map. */
  lemma {:induction false} EmptyCanonicalMap(md: Metadata)
    ensures AllProperties(md) == map[] <==> md == Defaults()
  {
    if AllProperties(md) == map[] {
      AllFieldsListed();
      forall f ensures Emitted(md, f).Some? ==> PropertyKey(f) in AllProperties(md) {
      }
      assert Emitted(md, Description).None? && Emitted(md, HasCleanup).None?;
      assert Emitted(md, Timeout).None? && Emitted(md, AllowedArchitectures).None?;
      assert Emitted(md, AllowedPlatforms).None? && Emitted(md, RequiredConfigs).None?;
      assert Emitted(md, RequiredFiles).None? && Emitted(md, RequiredMemory).None?;
      assert Emitted(md, RequiredPrograms).None? && Emitted(md, RequiredUser).None?;
      assert md.userMetadata == map[] by {
        forall k | k in md.userMetadata ensures k in AllProperties(md) {
        }
      }
    } else {
      EmptyMapIsDefaults();
    }
  }

  /** A map of user metadata only is parsed into the defaults plus those
      entries, and is its own canonical map. */
  lemma UserOnlyMap(props: PropertyMap)
    requires forall k :: k in props ==> IsUserKey(k)
    ensures FromProperties(props) == Ok(Defaults().(userMetadata := props))
    ensures AllProperties(Defaults().(userMetadata := props)) == props
  {
    forall k | k in props
      ensures Acceptable(k, props[k])
    {
      assert PropertyField(k).None?;
    }
    assert FieldsIn(props.Keys) == {} by {
      forall f ensures PropertyKey(f) !in props {
        PropertyKeyNotUser(f);
      }
    }
    assert UsersIn(props.Keys) == props.Keys;
    OverrideUsersOnly(Defaults(), props.Keys, props);
    WholeMapSelected(props);
    assert Interpret(props) == Defaults().(userMetadata := props);
    AllPropertiesOfUsers(props);
  }

  /** Selecting every key of a map, after nothing, gives the map back. */
  lemma WholeMapSelected(props: PropertyMap)
    ensures map[] + (map k | k in props.Keys && k in props :: props[k]) == props
  {
    var m := map k | k in props.Keys && k in props :: props[k];
    assert m.Keys == props.Keys;
    assert map[] + m == m;
  }

  /** A property whose key is neither known nor a user key is refused by
      name. */
  lemma UnknownKeyRejected(props: PropertyMap, key: string)
    requires key in props && PropertyField(key).None? && !IsUserKey(key)
    ensures FromProperties(props).Err?
    ensures FromProperties(map[key := props[key]]) == Err(UnknownProperty(key))
  {
    var single := map[key := props[key]];
    assert FromProperties(single).error.key in single;
  }

  /** The canonical text of one accepted value of field `f`: what
      `AllProperties` emits for it, or nothing when it reads as the default. */
  function CanonicalValue(f: Field, text: string): Option<string>
    requires Accepted(f, text)
  {
    Emitted(SetField(Defaults(), f, PropertyKey(f), text).value, f)
  }

  /** The fields holding a set of words. */
  predicate IsListField(f: Field) {
    f in {AllowedArchitectures, AllowedPlatforms, RequiredConfigs, RequiredFiles, RequiredPrograms}
  }

  /** A multi-word value is re-emitted as its distinct words, sorted and
      joined with single spaces, and dropped when it has no words; a text
      value is re-emitted verbatim unless empty. */
  lemma CanonicalWords(f: Field, text: string)
    requires IsListField(f) && Accepted(f, text)
    ensures CanonicalValue(f, text) == if WordSet(text) == {} then None else Some(FlattenSet(WordSet(text)))
  {
  }

  lemma CanonicalText(f: Field, text: string)
    requires f == Description || f == RequiredUser
    ensures CanonicalValue(f, text) == if text == "" then None else Some(text)
  {
  }

  /** A cleanup flag is re-emitted as "true" when set and dropped when
      "false", its default. */
  lemma CanonicalCleanup(text: string)
    requires Accepted(HasCleanup, text)
    ensures text == "true" ==> CanonicalValue(HasCleanup, text) == Some("true")
    ensures text == "false" ==> CanonicalValue(HasCleanup, text) == None
  {
  }

  /** A timeout is re-emitted as its decimal numeral, and dropped when it
      equals the default timeout. */
  lemma CanonicalTimeout(text: string)
    requires Accepted(Timeout, text)
    ensures var n := ParseTimeout(text).value;
      CanonicalValue(Timeout, text) == if n == DefaultTimeout then None else Some(Units.NatToString(n))
  {
  }

  /** A memory size is re-emitted as its byte count, and dropped when 0. */
  lemma CanonicalMemory(text: string)
    requires Accepted(RequiredMemory, text)
    ensures var bytes := Units.ParseBytes(text).value;
      CanonicalValue(RequiredMemory, text) == if bytes == 0 then None else Some(Units.NatToString(bytes))
  {
  }

  /** Serialising a parsed map emits every given field key in canonical
      form (dropped when it reads as the default), no field key that was
      not given, and every user entry verbatim. */
  lemma ReEmitted(props: PropertyMap)
    requires FromProperties(props).Ok?
    ensures var out := AllProperties(FromProperties(props).value);
      forall f :: PropertyKey(f) in props ==>
        Accepted(f, props[PropertyKey(f)])
        && (PropertyKey(f) in out <==> CanonicalValue(f, props[PropertyKey(f)]).Some?)
        && (PropertyKey(f) in out ==> out[PropertyKey(f)] == CanonicalValue(f, props[PropertyKey(f)]).value)
    ensures var out := AllProperties(FromProperties(props).value);
      forall f :: PropertyKey(f) !in props ==> PropertyKey(f) !in out
    ensures var out := AllProperties(FromProperties(props).value);
      forall k :: IsUserKey(k) ==> (k in out <==> k in props) && (k in out ==> out[k] == props[k])
    ensures AllProperties(FromProperties(props).value).Keys <= props.Keys
  {
    forall f {
      ReEmittedField(props, f);
    }
    ReEmittedUsers(props);
  }

  /** One typed field of a parsed map is re-emitted in canonical form. */
  lemma ReEmittedField(props: PropertyMap, f: Field)
    requires FromProperties(props).Ok?
    ensures var out := AllProperties(FromProperties(props).value);
      PropertyKey(f) in props ==>
        Accepted(f, props[PropertyKey(f)])
        && (PropertyKey(f) in out <==> CanonicalValue(f, props[PropertyKey(f)]).Some?)
        && (PropertyKey(f) in out ==> out[PropertyKey(f)] == CanonicalValue(f, props[PropertyKey(f)]).value)
    ensures var out := AllProperties(FromProperties(props).value);
      PropertyKey(f) !in props ==> PropertyKey(f) !in out
  {
    var md := FromProperties(props).value;
    AllPropertiesLookup(md, f);
    ParsedField(props, f);
  }

  /** The user entries of a parsed map are re-emitted verbatim, and nothing
      is emitted under a key that was not given. */
  lemma ReEmittedUsers(props: PropertyMap)
    requires FromProperties(props).Ok?
    ensures var out := AllProperties(FromProperties(props).value);
      forall k :: IsUserKey(k) ==> (k in out <==> k in props) && (k in out ==> out[k] == props[k])
    ensures AllProperties(FromProperties(props).value).Keys <= props.Keys
  {
    var md := FromProperties(props).value;
    var out := AllProperties(md);
    UserKeysOfAllProperties(md);
    InterpretUserEntries(props);
    forall k | k in out
      ensures k in props
    {
      ReEmittedKey(props, k);
    }
  }

  lemma ReEmittedKey(props: PropertyMap, k: string)
    requires FromProperties(props).Ok?
    requires k in AllProperties(FromProperties(props).value)
    ensures k in props
  {
    var md := FromProperties(props).value;
    match PropertyField(k)
    case Some(f) =>
      assert PropertyKey(f) == k;
      AllPropertiesLookup(md, f);
      assert Emitted(md, f).Some?;
      ParsedField(props, f);
    case None =>
      assert k in md.userMetadata;
      assert md == Interpret(props);
      InterpretUserEntries(props);
  }

  /** The user metadata of an interpretation is the map's "X-" entries. */
  lemma InterpretUserEntries(props: PropertyMap)
    ensures forall k :: k in Interpret(props).userMetadata <==> k in props && IsUserKey(k)
    ensures forall k :: k in Interpret(props).userMetadata ==> Interpret(props).userMetadata[k] == props[k]
  {
    assert Interpret(props).userMetadata == map[] + map k | k in UsersIn(props.Keys) && k in props :: props[k];
  }

  /** A field reads the same from the whole map as from its own key alone,
      and as the default when its key is absent. */
  lemma ParsedField(props: PropertyMap, f: Field)
    requires FromProperties(props).Ok?
    ensures PropertyKey(f) in props ==>
      && Accepted(f, props[PropertyKey(f)])
      && Emitted(FromProperties(props).value, f) == CanonicalValue(f, props[PropertyKey(f)])
    ensures PropertyKey(f) !in props ==> Emitted(FromProperties(props).value, f).None?
  {
    var md := FromProperties(props).value;
    assert md == Interpret(props);
    KnownKeysAccepted(props);
    if PropertyKey(f) in props {
      var one := SetField(Defaults(), f, PropertyKey(f), props[PropertyKey(f)]).value;
      InterpretedField(props, f);
      EmittedOfSameField(md, one, f);
    } else {
      EmittedOfSameField(md, Defaults(), f);
      InterpretedField(props, f);
    }
  }

  /** The interpretation of a map holds in field `f` what the map's value
      for `f` alone gives, or the default when `f` is not given. */
  lemma InterpretedField(props: PropertyMap, f: Field)
    requires forall f :: PropertyKey(f) in props ==> Accepted(f, props[PropertyKey(f)])
    ensures PropertyKey(f) in props ==>
      SameField(Interpret(props), SetField(Defaults(), f, PropertyKey(f), props[PropertyKey(f)]).value, f)
    ensures PropertyKey(f) !in props ==> SameField(Interpret(props), Defaults(), f)
  {
    if f in {AllowedArchitectures, AllowedPlatforms, RequiredConfigs, RequiredFiles, RequiredPrograms} {
      InterpretLists(props);
    } else {
      InterpretScalars(props);
    }
  }

  /** `a` and `b` hold the same value in field `f`. */
  predicate SameField(a: Metadata, b: Metadata, f: Field) {
    match f
    case Description => a.description == b.description
    case HasCleanup => a.hasCleanup == b.hasCleanup
    case Timeout => a.timeout == b.timeout
    case AllowedArchitectures => a.allowedArchitectures == b.allowedArchitectures
    case AllowedPlatforms => a.allowedPlatforms == b.allowedPlatforms
    case RequiredConfigs => a.requiredConfigs == b.requiredConfigs
    case RequiredFiles => a.requiredFiles == b.requiredFiles
    case RequiredMemory => a.requiredMemory == b.requiredMemory
    case RequiredPrograms => a.requiredPrograms == b.requiredPrograms
    case RequiredUser => a.requiredUser == b.requiredUser
  }

  /** What is emitted for a field depends on that field alone. */
  lemma EmittedOfSameField(a: Metadata, b: Metadata, f: Field)
    requires SameField(a, b, f)
    ensures Emitted(a, f) == Emitted(b, f)
  {
  }

  /** The canonical map is a fixpoint: parsing it and serialising again
      gives the same map. */
  lemma CanonicalIdempotent(props: PropertyMap)
    requires FromProperties(props).Ok?
    ensures var md := FromProperties(props).value;
      FromProperties(AllProperties(md)) == Ok(md)
      && AllProperties(FromProperties(AllProperties(md)).value) == AllProperties(md)
  {
    RoundTrip(FromProperties(props).value);
  }

  /** A map with a single known key is parsed into the defaults with that
      one field set. */
  lemma SingleProperty(f: Field, value: string)
    requires Accepted(f, value)
    ensures FromProperties(map[PropertyKey(f) := value])
      == Ok(SetField(Defaults(), f, PropertyKey(f), value).value)
  {
    var props := map[PropertyKey(f) := value];
    assert props.Keys == {PropertyKey(f)} && props[PropertyKey(f)] == value;
    SingleFieldMap(f, props);
  }

  lemma SingleFieldMap(f: Field, props: PropertyMap)
    requires props.Keys == {PropertyKey(f)} && Accepted(f, props[PropertyKey(f)])
    ensures FromProperties(props)
      == Ok(SetField(Defaults(), f, PropertyKey(f), props[PropertyKey(f)]).value)
  {
    var key := PropertyKey(f);
    SingleKey(f, props);
    assert Acceptable(key, props[key]);
    assert forall k :: k in props ==> Acceptable(k, props[k]) by {
      forall k | k in props ensures Acceptable(k, props[k]) {
        assert k == key;
      }
    }
    var r := FromProperties(props);
    assert r.Ok? && r.value == Interpret(props);
    assert Interpret(props) == Override(Defaults(), {f}, {}, props);
    OverrideOneField(f, props);
  }

  /** Overriding the defaults with one accepted field is setting that field. */
  lemma OverrideOneField(f: Field, props: PropertyMap)
    requires PropertyKey(f) in props && Accepted(f, props[PropertyKey(f)])
    ensures Override(Defaults(), {f}, {}, props)
      == SetField(Defaults(), f, PropertyKey(f), props[PropertyKey(f)]).value
  {
    var md := SetField(Defaults(), f, PropertyKey(f), props[PropertyKey(f)]).value;
    SetFieldThenOverride(Defaults(), f, PropertyKey(f), {}, {}, props);
    assert {} + {f} == {f};
    OverrideNothing(md, props);
  }

  /** The one key of such a map names field `f` and no user entry. */
  lemma SingleKey(f: Field, props: PropertyMap)
    requires props.Keys == {PropertyKey(f)}
    ensures PropertyField(PropertyKey(f)) == Some(f)
    ensures FieldsIn(props.Keys) == {f} && UsersIn(props.Keys) == {}
  {
    var key := PropertyKey(f);
    PropertyKeyInjective(PropertyField(key).value, f);
    forall g ensures PropertyKey(g) in props.Keys <==> g == f {
      if PropertyKey(g) in props.Keys {
        PropertyKeyInjective(g, f);
      }
    }
    PropertyKeyNotUser(f);
  }
}
