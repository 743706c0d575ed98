/**
 * The hierarchical run-time configuration: dotted keys such as
 * "architecture", "unprivileged_user" or "test_suites.<suite>.<name>",
 * each holding a string or a user record, set one by one in place.
 */
module ConfigTrees {
  import opened Wrappers

  /** An entry of the system password database. */
  datatype UserRecord = UserRecord(name: string, uid: nat, gid: nat)

  /** The value stored under a key. */
  datatype Node = Text(text: string) | User(user: UserRecord)

  datatype LookupError = UnknownKey(key: string) | WrongType(key: string)

  /** The settings of the tree, by key. */
  type Settings = map<string, Node>

  /** The string stored under `key`; a key that is unset or holds a user
      record is an error. */
  function LookupText(values: Settings, key: string): (r: Result<string, LookupError>)
    ensures r.Ok? <==> key in values && values[key].Text?
    ensures r.Ok? ==> values[key] == Text(r.value)
    ensures r.Err? ==> r.error == (if key in values then WrongType(key) else UnknownKey(key))
  {
    if key !in values then Err(UnknownKey(key))
    else match values[key]
      case Text(t) => Ok(t)
      case User(_) => Err(WrongType(key))
  }

  class ConfigTree {
    var values: Settings

    /** A tree with nothing set. */
    constructor Empty()
      ensures values == map[]
    {
      values := map[];
    }

    /** The tree of a fresh run: architecture and platform set to those of
        the host. */
    constructor Default(architecture: string, platform: string)
      ensures values == map["architecture" := Text(architecture), "platform" := Text(platform)]
      ensures "unprivileged_user" !in values
    {
      values := map["architecture" := Text(architecture), "platform" := Text(platform)];
    }

    /** Stores a string under `key`, replacing whatever was there. */
    method SetString(key: string, text: string)
      modifies this
      ensures values == old(values)[key := Text(text)]
    {
      values := values[key := Text(text)];
    }

    /** Stores a user record under `key`, replacing whatever was there. */
    method SetUser(key: string, user: UserRecord)
      modifies this
      ensures values == old(values)[key := User(user)]
    {
      values := values[key := User(user)];
    }

    /** Whether `key` holds a value of any type: a lookup of it fails, if at
        all, only because the value is not a string. */
    predicate IsSet(key: string): (r: bool)
      reads this
      ensures r <==> LookupText(values, key) != Err(UnknownKey(key))
    {
      key in values
    }

    /** The string stored under `key`. */
    method Lookup(key: string) returns (r: Result<string, LookupError>)
      ensures r == LookupText(values, key)
    {
      r := LookupText(values, key);
    }
  }

  /** Setting a key makes it set and leaves every other key as it was. */
  lemma SetKeepsOthers(values: Settings, key: string, node: Node, other: string)
    ensures key in values[key := node]
    ensures other != key ==>
      (other in values[key := node] <==> other in values)
      && LookupText(values[key := node], other) == LookupText(values, other)
  {
  }
}
