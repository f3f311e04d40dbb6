/** The `getcert` command (`getcertFunc`): check the required settings,
    fetch the certificate and key, write each to its file or print it when
    no file is named, and then hand both files to the owner named by the
    `user[:group]` flag.

    The command is a pure function from its settings and its foreign calls
    to the side effects it attempts, in order, and how it ended: `fetched`
    is what the client returned, `io` says which file operation fails and
    why, and `users` and `groups` are the platform's account lookups. */
module Getcert {
  import opened Base
  import opened Types
  import Strconv
  import Client

  /** The settings `getcert` reads from its flags or the environment. */
  datatype Settings = Settings(domain: string, jwt: string, url: string,
                               certPath: string, keyPath: string, owner: string)

  /** Ids are parsed as signed 10-bit decimals. */
  const IdBits: nat := 10

  /** The fields of a looked-up account the command reads. */
  datatype Account = Account(uid: string, gid: string)

  /** A resolved owner: the uid, and the account it came from when it was
      looked up by name. */
  datatype Owner = Owner(uid: int, account: Option<Account>)

  datatype GetcertError =
    | NoDomain
    | NoJwt
    | NoUrl
    | Fetch(error: Client.ClientError)
    | NoCert
    | Io(reason: string)
    | TooManyColons
    | LookupFailed(reason: string)
    | BadId(text: string, err: Strconv.NumError)
    | NilOwner  // reading the group of an owner that was never looked up: a panic

  function Message(e: GetcertError): string {
    match e
    case NoDomain => "must specify domain of cert to retrieve"
    case NoJwt => "JWT must be specified"
    case NoUrl => "must specify URL holding certs"
    case Fetch(error) => Client.Message(error)
    case NoCert => "No cert in response from server"
    case Io(reason) => reason
    case TooManyColons => "Only one colon allowed in owner flag"
    case LookupFailed(reason) => reason
    case BadId(text, err) =>
      "strconv.ParseInt: parsing \"" + text + "\": "
      + (if err == Strconv.ErrRange then "value out of range" else "invalid syntax")
    case NilOwner => "invalid memory address or nil pointer dereference"
  }

  /** A side effect the command attempts. A chown id of -1 leaves that id
      unchanged. */
  datatype Effect =
    | Print(material: Bytes)
    | WriteFile(path: string, material: Bytes)
    | Chown(path: string, uid: int, gid: int)

  /** The effects attempted, in order, and how the command ended. */
  datatype Run = Run(effects: seq<Effect>, outcome: Outcome<GetcertError>)

  /** Printing cannot fail; a file operation fails when `io` says so. */
  predicate Fails(io: Effect -> Option<string>, e: Effect) {
    !e.Print? && io(e).Some?
  }

  // ---------------------------------------------------------------------
  // Steps

  /** The first missing required setting, checked in the order domain, jwt,
      url. */
  function MissingSetting(s: Settings): (e: Option<GetcertError>)
    ensures e.None? <==> s.domain != "" && s.jwt != "" && s.url != ""
    ensures s.domain == "" ==> e == Some(NoDomain)
    ensures s.domain != "" && s.jwt == "" ==> e == Some(NoJwt)
    ensures s.domain != "" && s.jwt != "" && s.url == "" ==> e == Some(NoUrl)
  {
    if s.domain == "" then Some(NoDomain)
    else if s.jwt == "" then Some(NoJwt)
    else if s.url == "" then Some(NoUrl)
    else None
  }

  /** Where a piece of material goes: printed when no path is set. */
  function Deliver(path: string, material: Bytes): (e: Effect)
    ensures e.Print? <==> path == ""
    ensures e.Print? ==> e.material == material
    ensures e.WriteFile? ==> e.path == path && e.material == material
  {
    if path == "" then Print(material) else WriteFile(path, material)
  }

  /** Attempt the effects in order, stopping at the first that fails. */
  function Perform(effects: seq<Effect>, io: Effect -> Option<string>): (r: Run)
    ensures |r.effects| <= |effects| && r.effects == effects[..|r.effects|]
    ensures r.outcome.Pass? <==> forall i :: 0 <= i < |effects| ==> !Fails(io, effects[i])
    ensures r.outcome.Pass? ==> r.effects == effects
    ensures r.outcome.Fail? ==>
              && |r.effects| > 0
              && Fails(io, r.effects[|r.effects| - 1])
              && r.outcome.error == Io(io(r.effects[|r.effects| - 1]).value)
              && forall i :: 0 <= i < |r.effects| - 1 ==> !Fails(io, r.effects[i])
    decreases |effects|
  {
    if |effects| == 0 then Run([], Pass)
    else if Fails(io, effects[0]) then Run([effects[0]], Fail(Io(io(effects[0]).value)))
    else
      var rest := Perform(effects[1..], io);
      Run([effects[0]] + rest.effects, rest.outcome)
  }

  /** Run `next` after `first` unless `first` failed. */
  function Then(first: Run, next: Run): Run {
    if first.outcome.Fail? then first else Run(first.effects + next.effects, next.outcome)
  }

  /** The owner part of the flag: a signed 10-bit decimal is taken as the
      uid; anything else is a user name, whose uid must itself parse. */
  function ResolveUid(name: string, users: string -> Result<Account, string>): (r: Result<Owner, GetcertError>)
    ensures Strconv.ParseInt(name, IdBits).err == Strconv.NoError ==>
              r == Ok(Owner(Strconv.SignedValue(name), None))
    ensures r.Ok? && r.value.account.None? ==> Strconv.ParseInt(name, IdBits).err == Strconv.NoError
    ensures r.Ok? && r.value.account.Some? ==>
              && users(name) == Ok(r.value.account.value)
              && Strconv.ParseInt(r.value.account.value.uid, IdBits) == Strconv.Parsed(r.value.uid, Strconv.NoError)
  {
    var parsed := Strconv.ParseInt(name, IdBits);
    if parsed.err == Strconv.NoError then Ok(Owner(parsed.value, None))
    else
      match users(name)
      case Err(reason) => Err(LookupFailed(reason))
      case Ok(account) =>
        var uid := Strconv.ParseInt(account.uid, IdBits);
        if uid.err != Strconv.NoError then Err(BadId(account.uid, uid.err)) else Ok(Owner(uid.value, Some(account)))
  }

  /** The group part of the flag: empty means the looked-up user's default
      group (whose parse error goes unchecked, so the value Go returns
      alongside the error is used); a signed 10-bit decimal is the gid;
      anything else is a group name, whose gid must itself parse. */
  function ResolveGid(group: string, owner: Owner, groups: string -> Result<string, string>): (r: Result<int, GetcertError>)
    ensures group == "" && owner.account.None? ==> r == Err(NilOwner)
    ensures group == "" && owner.account.Some? ==>
              r == Ok(Strconv.ParseInt(owner.account.value.gid, IdBits).value)
    ensures group != "" && Strconv.ParseInt(group, IdBits).err == Strconv.NoError ==>
              r == Ok(Strconv.SignedValue(group))
    ensures group != "" && Strconv.ParseInt(group, IdBits).err != Strconv.NoError && r.Ok? ==>
              groups(group).Ok? && Strconv.ParseInt(groups(group).value, IdBits) == Strconv.Parsed(r.value, Strconv.NoError)
  {
    if group == "" then
      match owner.account
      case None => Err(NilOwner)
      case Some(account) => Ok(Strconv.ParseInt(account.gid, IdBits).value)
    else
      var parsed := Strconv.ParseInt(group, IdBits);
      if parsed.err == Strconv.NoError then Ok(parsed.value)
      else
        match groups(group)
        case Err(reason) => Err(LookupFailed(reason))
        case Ok(gid) =>
          var id := Strconv.ParseInt(gid, IdBits);
          if id.err != Strconv.NoError then Err(BadId(gid, id.err)) else Ok(id.value)
  }

  /** Hand both files to the owner named by a non-empty owner flag. */
  function Ownership(s: Settings, io: Effect -> Option<string>, users: string -> Result<Account, string>,
                     groups: string -> Result<string, string>): (r: Run)
    ensures Occurrences(s.owner, ':') > 1 ==> r == Run([], Fail(TooManyColons))
    // only the two files change hands
    ensures forall i :: 0 <= i < |r.effects| ==>
              r.effects[i].Chown? && (r.effects[i].path == s.certPath || r.effects[i].path == s.keyPath)
    // the group is touched only when the flag has a group part
    ensures |r.effects| > 2 ==> Occurrences(s.owner, ':') == 1
  {
    var parts := Split(s.owner, ':');
    if |parts| > 2 then Run([], Fail(TooManyColons))
    else
      match ResolveUid(parts[0], users)
      case Err(e) => Run([], Fail(e))
      case Ok(owner) =>
        var chowned := Perform([Chown(s.certPath, owner.uid, -1), Chown(s.keyPath, owner.uid, -1)], io);
        if chowned.outcome.Fail? || |parts| == 1 then chowned
        else
          match ResolveGid(parts[1], owner, groups)
          case Err(e) => Run(chowned.effects, Fail(e))
          case Ok(gid) => Then(chowned, Perform([Chown(s.certPath, -1, gid), Chown(s.keyPath, -1, gid)], io))
  }

  // ---------------------------------------------------------------------
  // The command

  /** `getcertFunc`. */
  function Getcert(s: Settings, fetched: Result<CertResponse, Client.ClientError>, io: Effect -> Option<string>,
                   users: string -> Result<Account, string>, groups: string -> Result<string, string>): (r: Run)
    // a missing setting stops the command before anything is fetched or done
    ensures MissingSetting(s).Some? ==> r == Run([], Fail(MissingSetting(s).value))
    ensures MissingSetting(s).None? && fetched.Err? ==> r == Run([], Fail(Fetch(fetched.error)))
    // an empty certificate is refused before anything is written
    ensures MissingSetting(s).None? && fetched.Ok? && |fetched.value.cert| == 0 ==> r == Run([], Fail(NoCert))
    // anything done starts with delivering the certificate, then the key
    ensures |r.effects| > 0 ==>
              && fetched.Ok?
              && r.effects[0] == Deliver(s.certPath, fetched.value.cert)
              && (|r.effects| > 1 ==> r.effects[1] == Deliver(s.keyPath, fetched.value.key))
    // ownership is only changed when an owner is named
    ensures s.owner == "" ==> forall i :: 0 <= i < |r.effects| ==> !r.effects[i].Chown?
  {
    match MissingSetting(s)
    case Some(e) => Run([], Fail(e))
    case None =>
      match fetched
      case Err(e) => Run([], Fail(Fetch(e)))
      case Ok(response) =>
        if |response.cert| == 0 then Run([], Fail(NoCert))
        else
          var delivered := Perform([Deliver(s.certPath, response.cert), Deliver(s.keyPath, response.key)], io);
          if delivered.outcome.Fail? || s.owner == "" then delivered
          else Then(delivered, Ownership(s, io, users, groups))
  }

  // ---------------------------------------------------------------------
  // Properties of the owner flag

  /** An empty owner flag ends the command successfully once both pieces of
      material are delivered, and changes no ownership. */
  lemma NoOwnerNoChown(s: Settings, response: CertResponse, io: Effect -> Option<string>,
                       users: string -> Result<Account, string>, groups: string -> Result<string, string>)
    requires MissingSetting(s).None? && |response.cert| > 0 && s.owner == ""
    requires !Fails(io, Deliver(s.certPath, response.cert)) && !Fails(io, Deliver(s.keyPath, response.key))
    ensures Getcert(s, Ok(response), io, users, groups)
            == Run([Deliver(s.certPath, response.cert), Deliver(s.keyPath, response.key)], Pass)
  {
  }

  /** An owner flag with more than one colon is refused, after delivery and
      before any lookup or ownership change. */
  lemma TwoColonsRefused(s: Settings, response: CertResponse, io: Effect -> Option<string>,
                         users: string -> Result<Account, string>, groups: string -> Result<string, string>)
    requires MissingSetting(s).None? && |response.cert| > 0
    requires !Fails(io, Deliver(s.certPath, response.cert)) && !Fails(io, Deliver(s.keyPath, response.key))
    requires Occurrences(s.owner, ':') > 1
    ensures Getcert(s, Ok(response), io, users, groups)
            == Run([Deliver(s.certPath, response.cert), Deliver(s.keyPath, response.key)], Fail(TooManyColons))
  {
  }

  /** A numeric owner is used as the uid without consulting the user
      database. */
  lemma NumericOwnerSkipsLookup(name: string, users1: string -> Result<Account, string>,
                                users2: string -> Result<Account, string>)
    requires Strconv.WellFormed(name) && -512 <= Strconv.SignedValue(name) < 512
    ensures ResolveUid(name, users1) == ResolveUid(name, users2) == Ok(Owner(Strconv.SignedValue(name), None))
  {
  }

  /** A flag of one part leaves the group alone: only the two uid changes
      happen. */
  lemma OwnerOnlyKeepsGroup(s: Settings, response: CertResponse, io: Effect -> Option<string>,
                            users: string -> Result<Account, string>, groups: string -> Result<string, string>,
                            owner: Owner)
    requires MissingSetting(s).None? && |response.cert| > 0 && s.owner != "" && ':' !in s.owner
    requires forall e :: !Fails(io, e)
    requires ResolveUid(s.owner, users) == Ok(owner)
    ensures Getcert(s, Ok(response), io, users, groups)
            == Run([Deliver(s.certPath, response.cert), Deliver(s.keyPath, response.key),
                    Chown(s.certPath, owner.uid, -1), Chown(s.keyPath, owner.uid, -1)], Pass)
  {
    NoSeparatorSplit(s.owner, ':');
  }

  /** A numeric owner with an empty group part dereferences the owner that
      was never looked up; the model reports that panic as an error, after
      the uid changes. */
  lemma NumericOwnerEmptyGroupPanics(s: Settings, response: CertResponse, io: Effect -> Option<string>,
                                     users: string -> Result<Account, string>, groups: string -> Result<string, string>,
                                     uid: string)
    requires MissingSetting(s).None? && |response.cert| > 0
    requires forall e :: !Fails(io, e)
    requires Strconv.WellFormed(uid) && -512 <= Strconv.SignedValue(uid) < 512
    requires s.owner == uid + ":"
    ensures Getcert(s, Ok(response), io, users, groups).outcome == Fail(NilOwner)
  {
    Strconv.WellFormedCharacters(uid);
    SplitAtLastSeparator(uid, ':');
  }

  /** Ids are 10-bit: a user whose uid is 1000, found by name, cannot be
      resolved, because the uid text is out of range. */
  lemma LookedUpUidAbove511Refused(name: string, users: string -> Result<Account, string>, gid: string)
    requires Strconv.ParseInt(name, IdBits).err != Strconv.NoError
    requires users(name) == Ok(Account("1000", gid))
    ensures ResolveUid(name, users) == Err(BadId("1000", Strconv.ErrRange))
  {
    ThousandOutOfRange();
  }

  /** The default group's parse error is not checked: a user whose gid is
      1000 gets the gid Go returns beside the range error, 511. */
  lemma DefaultGidAbove511Clamped(uid: int, account: Account, groups: string -> Result<string, string>)
    requires account.gid == "1000"
    ensures ResolveGid("", Owner(uid, Some(account)), groups) == Ok(511)
  {
    ThousandOutOfRange();
  }

  lemma ThousandOutOfRange()
    ensures Strconv.ParseInt("1000", IdBits) == Strconv.Parsed(511, Strconv.ErrRange)
  {
    assert Strconv.Magnitude("1000") == "1000";
    assert Strconv.Decimal("1000") == 1000 by {
      assert "1000"[..3] == "100" && "100"[..2] == "10" && "10"[..1] == "1";
    }
  }

  /** Splitting a string without the separator gives the string itself. */
  lemma {:induction false} NoSeparatorSplit(s: string, sep: char)
    requires sep !in s
    ensures Split(s, sep) == [s]
    decreases |s|
  {
    if |s| > 0 {
      NoSeparatorSplit(s[1..], sep);
      assert [s[0]] + s[1..] == s;
    }
  }

  /** A string ending in its only separator splits into it and an empty part. */
  lemma {:induction false} SplitAtLastSeparator(s: string, sep: char)
    requires sep !in s
    ensures Split(s + [sep], sep) == [s, ""]
    decreases |s|
  {
    if |s| == 0 {
      assert s + [sep] == [sep];
    } else {
      assert (s + [sep])[1..] == s[1..] + [sep];
      SplitAtLastSeparator(s[1..], sep);
      assert [s[0]] + s[1..] == s;
    }
  }
}
