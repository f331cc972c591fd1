/**
 * The login data the client is built from, and how the constructor accepts it
 * (`Proxmox::__construct`, first half).
 */
module Credentials {
  import opened Wrappers
  import opened Errors

  /**
   * The `Credentials` value object. Its class is not part of this model; its
   * getters are taken to return the values it was built with. Every field is a
   * string because the client only ever concatenates them (`getPort()` is
   * interpolated into the URL).
   */
  datatype Credentials = Credentials(
    hostname: string,
    username: string,
    password: string,
    realm: string,
    port: string)

  /**
   * The PHP value passed to the constructor: a `Credentials` object, an array
   * (keys compared as strings, as `array_diff` does), or anything else.
   */
  datatype CredentialInput =
    | CredentialsObject(credentials: Credentials)
    | ArrayValue(entries: map<string, string>)
    | OtherValue

  /** The keys an array must hold, in the order the error message lists them. */
  const RequiredKeys: seq<string> := ["hostname", "username", "password", "realm", "port"]

  const MissingKeysMessage: string := "PVE credentials needs hostname, username, password, realm, port"
  const BadInputMessage: string := "PVE API needs a Credentials object or an array."

  predicate HasAllKeys(entries: map<string, string>)
  {
    forall k :: k in RequiredKeys ==> k in entries
  }

  /** Turns the constructor argument into credentials or the exception it raises. */
  function Intake(input: CredentialInput): (r: Result<Credentials, Error>)
    ensures r.Success? <==> input.CredentialsObject? || (input.ArrayValue? && HasAllKeys(input.entries))
    ensures input.CredentialsObject? ==> r == Success(input.credentials)
    ensures r.Failure? ==> r.error.InvalidArgument?
  {
    match input
    case CredentialsObject(c) => Success(c)
    case ArrayValue(m) =>
      if HasAllKeys(m) then
        Success(Credentials(m["hostname"], m["username"], m["password"], m["realm"], m["port"]))
      else
        Failure(InvalidArgument(MissingKeysMessage))
    case OtherValue => Failure(InvalidArgument(BadInputMessage))
  }

  /** The array that holds exactly the five fields of `c`. */
  function AsArray(c: Credentials): map<string, string>
  {
    map["hostname" := c.hostname, "username" := c.username, "password" := c.password,
        "realm" := c.realm, "port" := c.port]
  }

  /** Handing over credentials as an array is the same as handing over the object. */
  lemma ArrayRoundTrip(c: Credentials)
    ensures Intake(ArrayValue(AsArray(c))) == Success(c)
  {
    var m := AsArray(c);
    assert HasAllKeys(m);
  }

  /** Extra array entries are ignored; only the five fields are read. */
  lemma ExtraKeysIgnored(m: map<string, string>, extra: map<string, string>)
    requires HasAllKeys(m)
    requires forall k :: k in extra ==> k !in m
    ensures Intake(ArrayValue(m + extra)) == Intake(ArrayValue(m))
  {
    assert HasAllKeys(m + extra);
    var n := m + extra;
    assert n["hostname"] == m["hostname"] && n["username"] == m["username"] && n["password"] == m["password"];
    assert n["realm"] == m["realm"] && n["port"] == m["port"];
  }

  /** Leaving out any one of the five keys is rejected with `InvalidArgumentException`. */
  lemma MissingKeyRejected(m: map<string, string>, key: string)
    requires key in RequiredKeys
    requires key !in m
    ensures Intake(ArrayValue(m)) == Failure(InvalidArgument(MissingKeysMessage))
  {
  }
}
