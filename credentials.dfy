/**
 * The Shortcut API key's life cycle. The key lives in the OS keyring under a
 * fixed (service, user) pair; `Authenticate` reads it and, when there is none,
 * asks the operator for one and stores it. The `auth` command overwrites it
 * or deletes it.
 */
module Credentials {
  import opened Wrappers
  import opened Text

  /** The errors the flow passes on, each unchanged. */
  datatype Error =
    | ErrNotFound                    // the keyring holds nothing under the key
    | BackendError(message: string)  // any other keyring failure
    | ReadError(message: string)     // reading the operator's line failed

  /** What the keyring backend reports for each operation when it fails. */
  datatype Faults = Faults(onGet: Option<string>, onSet: Option<string>, onDelete: Option<string>)

  /**
   * The OS keyring as the core sees it: secrets stored under a
   * (service, user) pair, and backend failures that an operation may report
   * instead of doing its work.
   */
  class Keyring {
    var secrets: map<(string, string), string>
    const faults: Faults

    constructor (secrets: map<(string, string), string>, faults: Faults)
      ensures this.secrets == secrets && this.faults == faults
    {
      this.secrets := secrets;
      this.faults := faults;
    }

    /** `keyring.Get`: the secret, `ErrNotFound`, or a backend failure. */
    method Get(service: string, user: string) returns (r: Result<string, Error>)
      ensures faults.onGet.Some? ==> r == Failure(BackendError(faults.onGet.value))
      ensures faults.onGet.None? && (service, user) in secrets ==> r == Success(secrets[(service, user)])
      ensures faults.onGet.None? && (service, user) !in secrets ==> r == Failure(ErrNotFound)
    {
      if faults.onGet.Some? {
        r := Failure(BackendError(faults.onGet.value));
      } else if (service, user) in secrets {
        r := Success(secrets[(service, user)]);
      } else {
        r := Failure(ErrNotFound);
      }
    }

    /** `keyring.Set`: stores the secret, replacing any earlier one. */
    method Set(service: string, user: string, password: string) returns (err: Option<Error>)
      modifies this`secrets
      ensures faults.onSet.Some? ==> err == Some(BackendError(faults.onSet.value)) && secrets == old(secrets)
      ensures faults.onSet.None? ==> err == None && secrets == old(secrets)[(service, user) := password]
    {
      if faults.onSet.Some? {
        err := Some(BackendError(faults.onSet.value));
      } else {
        secrets := secrets[(service, user) := password];
        err := None;
      }
    }

    /** `keyring.Delete`: removes the secret; deleting a missing one reports
        `ErrNotFound`. */
    method Delete(service: string, user: string) returns (err: Option<Error>)
      modifies this`secrets
      ensures faults.onDelete.Some? ==> err == Some(BackendError(faults.onDelete.value)) && secrets == old(secrets)
      ensures faults.onDelete.None? && (service, user) in old(secrets) ==>
        err == None && secrets == old(secrets) - {(service, user)}
      ensures faults.onDelete.None? && (service, user) !in old(secrets) ==>
        err == Some(ErrNotFound) && secrets == old(secrets)
    {
      if faults.onDelete.Some? {
        err := Some(BackendError(faults.onDelete.value));
      } else if (service, user) in secrets {
        secrets := secrets - {(service, user)};
        err := None;
      } else {
        err := Some(ErrNotFound);
      }
    }
  }

  const SecretsService := "declitool"
  const SecretsShortcutUsername := "shortcut"

  /** The one keyring entry the tool uses. */
  const ApiKeySlot := (SecretsService, SecretsShortcutUsername)

  const NotFoundNotice := "API Key not found"
  const EnterKeyPrompt := "Enter your shortcut API key:"
  const KeySetNotice := "API Key set"
  const KeyDeletedNotice := "Key deleted"

  /**
   * `bufio.Reader.ReadString('\n')` on what the operator types: everything up
   * to and including the first newline. Input that ends before a newline is
   * an `EOF` error.
   */
  function ReadLine(input: string): (r: Result<string, Error>)
    ensures r.Success? <==> '\n' in input
    ensures r.Success? ==>
      r.value <= input && r.value != [] && r.value[|r.value| - 1] == '\n' && '\n' !in r.value[..|r.value| - 1]
  {
    if input == [] then Failure(ReadError("EOF"))
    else if input[0] == '\n' then Success("\n")
    else match ReadLine(input[1..])
      case Success(line) => Success([input[0]] + line)
      case Failure(e) => Failure(e)
  }

  /**
   * `promptFor` after its message: the operator's line without its newline.
   * Nothing else is trimmed, so an empty line gives the empty key.
   */
  function PromptFor(input: string): (r: Result<string, Error>)
    ensures r.Success? <==> '\n' in input
    ensures r.Success? ==> r.value + "\n" <= input && '\n' !in r.value
  {
    match ReadLine(input)
    case Failure(e) => Failure(e)
    case Success(line) =>
      assert line == line[..|line| - 1] + "\n";
      TrimSuffixOnce(line[..|line| - 1]);
      Success(TrimSuffix(line, "\n"))
  }

  /** The read stops at the first newline, which it keeps. */
  lemma {:induction false} ReadLineStopsAtNewline(line: string, rest: string)
    requires '\n' !in line
    ensures ReadLine(line + "\n" + rest) == Success(line + "\n")
    decreases |line|
  {
    if line == [] {
      var input := line + "\n" + rest;
      assert input[0] == '\n' && line + "\n" == "\n";
    } else {
      var tail := line[1..] + "\n" + rest;
      assert line + "\n" + rest == [line[0]] + tail;
      ReadLineStopsAtNewline(line[1..], rest);
      calc {
        ReadLine([line[0]] + tail);
        Success([line[0]] + (line[1..] + "\n"));
        { assert [line[0]] + (line[1..] + "\n") == line + "\n"; }
        Success(line + "\n");
      }
    }
  }

  /** Whatever the operator types before the first newline is the key. */
  lemma PromptForLine(line: string, rest: string)
    requires '\n' !in line
    ensures PromptFor(line + "\n" + rest) == Success(line)
  {
    ReadLineStopsAtNewline(line, rest);
    TrimSuffixOnce(line);
  }

  /**
   * `getShortcutApiKey`: the stored key; or, when the keyring has none, the
   * empty key with `notFound` set and no error; or the backend's error (the
   * source sets `notFound` on that path too).
   */
  method GetShortcutApiKey(ring: Keyring) returns (apiKey: string, notFound: bool, err: Option<Error>)
    ensures ring.faults.onGet.Some? ==>
      apiKey == "" && notFound && err == Some(BackendError(ring.faults.onGet.value))
    ensures ring.faults.onGet.None? && ApiKeySlot in ring.secrets ==>
      apiKey == ring.secrets[ApiKeySlot] && !notFound && err == None
    ensures ring.faults.onGet.None? && ApiKeySlot !in ring.secrets ==>
      apiKey == "" && notFound && err == None
  {
    var r := ring.Get(SecretsService, SecretsShortcutUsername);
    match r
    case Failure(e) =>
      if e == ErrNotFound {
        return "", true, None;
      } else {
        return "", true, Some(e);
      }
    case Success(key) =>
      return key, false, None;
  }

  /**
   * `setShortcutApiKey`: prompts, then stores the line read in the keyring,
   * overwriting any key already there. `printed` is what it writes to the
   * terminal.
   */
  method SetShortcutApiKey(ring: Keyring, input: string) returns (apiKey: string, err: Option<Error>, printed: seq<string>)
    modifies ring`secrets
    ensures PromptFor(input).Failure? ==>
      apiKey == "" && err == Some(PromptFor(input).error) &&
      ring.secrets == old(ring.secrets) && printed == [EnterKeyPrompt]
    ensures PromptFor(input).Success? && ring.faults.onSet.Some? ==>
      apiKey == "" && err == Some(BackendError(ring.faults.onSet.value)) &&
      ring.secrets == old(ring.secrets) && printed == [EnterKeyPrompt]
    ensures PromptFor(input).Success? && ring.faults.onSet.None? ==>
      apiKey == PromptFor(input).value && err == None &&
      ring.secrets == old(ring.secrets)[ApiKeySlot := apiKey] && printed == [EnterKeyPrompt, KeySetNotice]
  {
    printed := [EnterKeyPrompt];
    var read := PromptFor(input);
    if read.Failure? {
      return "", Some(read.error), printed;
    }
    var setErr := ring.Set(SecretsService, SecretsShortcutUsername, read.value);
    if setErr.Some? {
      return "", setErr, printed;
    }
    printed := printed + [KeySetNotice];
    return read.value, None, printed;
  }

  /**
   * `authenticate`: a stored key is returned as it is, with no prompt and no
   * write; a missing key is prompted for, stored and returned; a keyring
   * failure is returned without prompting.
   */
  method Authenticate(ring: Keyring, input: string) returns (apiKey: string, err: Option<Error>, printed: seq<string>)
    modifies ring`secrets
    ensures ring.faults.onGet.Some? ==>
      apiKey == "" && err == Some(BackendError(ring.faults.onGet.value)) &&
      ring.secrets == old(ring.secrets) && printed == []
    ensures ring.faults.onGet.None? && ApiKeySlot in old(ring.secrets) ==>
      apiKey == old(ring.secrets)[ApiKeySlot] && err == None &&
      ring.secrets == old(ring.secrets) && printed == []
    ensures ring.faults.onGet.None? && ApiKeySlot !in old(ring.secrets) ==>
      (if PromptFor(input).Failure? then
         apiKey == "" && err == Some(PromptFor(input).error) && ring.secrets == old(ring.secrets) &&
         printed == [NotFoundNotice, EnterKeyPrompt]
       else if ring.faults.onSet.Some? then
         apiKey == "" && err == Some(BackendError(ring.faults.onSet.value)) && ring.secrets == old(ring.secrets) &&
         printed == [NotFoundNotice, EnterKeyPrompt]
       else
         apiKey == PromptFor(input).value && err == None &&
         ring.secrets == old(ring.secrets)[ApiKeySlot := apiKey] &&
         printed == [NotFoundNotice, EnterKeyPrompt, KeySetNotice])
  {
    var notFound;
    apiKey, notFound, err := GetShortcutApiKey(ring);
    printed := [];
    if err.Some? {
      return "", err, printed;
    }
    if notFound {
      printed := printed + [NotFoundNotice];
      var setPrinted;
      apiKey, err, setPrinted := SetShortcutApiKey(ring, input);
      printed := printed + setPrinted;
      if err.Some? {
        return "", err, printed;
      }
    }
    return apiKey, None, printed;
  }

  /** `deleteShortcutApiKey`: removes the key, passing the keyring's error on. */
  method DeleteShortcutApiKey(ring: Keyring) returns (err: Option<Error>, printed: seq<string>)
    modifies ring`secrets
    ensures ring.faults.onDelete.Some? ==>
      err == Some(BackendError(ring.faults.onDelete.value)) && ring.secrets == old(ring.secrets) && printed == []
    ensures ring.faults.onDelete.None? && ApiKeySlot in old(ring.secrets) ==>
      err == None && ring.secrets == old(ring.secrets) - {ApiKeySlot} && printed == [KeyDeletedNotice]
    ensures ring.faults.onDelete.None? && ApiKeySlot !in old(ring.secrets) ==>
      err == Some(ErrNotFound) && ring.secrets == old(ring.secrets) && printed == []
  {
    err := ring.Delete(SecretsService, SecretsShortcutUsername);
    if err.Some? {
      return err, [];
    }
    return None, [KeyDeletedNotice];
  }

  /** A key that was set is what the next read returns. */
  method SetThenGet(ring: Keyring, input: string) returns (stored: string, got: string, notFound: bool)
    requires ring.faults == Faults(None, None, None) && '\n' in input
    modifies ring`secrets
    ensures stored == PromptFor(input).value
    ensures got == stored && !notFound
  {
    var err, printed;
    stored, err, printed := SetShortcutApiKey(ring, input);
    got, notFound, err := GetShortcutApiKey(ring);
  }

  /** After a delete, a read finds no key. */
  method DeleteThenGet(ring: Keyring) returns (got: string, notFound: bool, err: Option<Error>)
    requires ring.faults == Faults(None, None, None)
    modifies ring`secrets
    ensures got == "" && notFound && err == None
  {
    var deleteErr, printed := DeleteShortcutApiKey(ring);
    got, notFound, err := GetShortcutApiKey(ring);
  }

  /** Once `Authenticate` has stored a key, the next call returns that key
      without prompting. */
  method AuthenticateTwice(ring: Keyring, input: string, later: string) returns (first: string, second: string, printed: seq<string>)
    requires ring.faults == Faults(None, None, None) && '\n' in input
    modifies ring`secrets
    ensures first == second
    ensures printed == []
  {
    var err;
    first, err, printed := Authenticate(ring, input);
    second, err, printed := Authenticate(ring, later);
  }
}
