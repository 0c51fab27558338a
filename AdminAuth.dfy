/** admin-auth.js: the admin session, one slot of session storage holding
    the time of the last login, valid for eight hours, and the check of the
    credentials configured at build time. The clock is the `now` argument
    (milliseconds); the JSON text of the slot is modelled by what parsing
    it gives. */
module AdminAuth {
  import opened Common
  import opened Text

  /** `8 * 60 * 60 * 1000`: eight hours in milliseconds. */
  const SessionTimeout: int := 28800000

  /** A JSON value as the `timestamp` of a parsed entry: `Undefined` when
      the parsed value has no such property (a number, a string, or an
      object without the key). */
  datatype Json = Undefined | Null | Bool(b: bool) | Number(n: int) | Text(s: string) | Object

  /** What the session slot holds, read back with `JSON.parse`: an empty
      string, text that does not parse or parses to `null` (destructuring
      `null` throws), or any other value, with its `timestamp`. */
  datatype Stored = Blank | Unparsable | Parsed(timestamp: Json)

  /** `Number(text)` for text already trimmed: `""` is 0, an optionally
      signed run of decimal digits is its value, and anything else is
      `NaN` (`None`). */
  function NumberOfText(t: string): (r: Option<int>)
    ensures t == "" ==> r == Some(0)
    ensures t != "" && AllDigits(t) ==> r == Some(DecimalValue(t))
    ensures r.Some? && t != "" ==>
              (AllDigits(t) && r.value == DecimalValue(t))
              || (|t| > 1 && AllDigits(t[1..]) && (t[0] == '+' || t[0] == '-')
                  && r.value == (if t[0] == '-' then -(DecimalValue(t[1..]) as int) else DecimalValue(t[1..])))
  {
    if t == "" then Some(0)
    else if AllDigits(t) then Some(DecimalValue(t))
    else if |t| > 1 && t[0] == '-' && AllDigits(t[1..]) then Some(-(DecimalValue(t[1..]) as int))
    else if |t| > 1 && t[0] == '+' && AllDigits(t[1..]) then Some(DecimalValue(t[1..]))
    else None
  }

  /** The number the subtraction `now - timestamp` takes from a JSON value
      (`None` for `NaN`): `null` is 0, `false` and `true` are 0 and 1, text
      is read as a number after trimming, and `undefined` and objects are
      `NaN`. */
  function ToNumber(v: Json): (r: Option<int>)
    ensures v.Undefined? || v.Object? ==> r.None?
    ensures v.Null? ==> r == Some(0)
    ensures v.Bool? ==> r == Some(if v.b then 1 else 0)
    ensures v.Number? ==> r == Some(v.n)
    ensures v.Text? ==> r == NumberOfText(Trim(v.s))
  {
    match v
    case Undefined => None
    case Null => Some(0)
    case Bool(b) => Some(if b then 1 else 0)
    case Number(n) => Some(n)
    case Text(s) => NumberOfText(Trim(s))
    case Object => None
  }

  /** `now - timestamp > ADMIN_SESSION_TIMEOUT`; a comparison with `NaN`
      is false, so an entry whose timestamp reads as `NaN` never expires. */
  predicate Expired(timestamp: Json, now: int) {
    var t := ToNumber(timestamp);
    t.Some? && now - t.value > SessionTimeout
  }

  /** The answer of `isAuthenticated` for the slot `slot` at time `now`. */
  predicate Authenticated(slot: Option<Stored>, now: int) {
    slot.Some? && slot.value.Parsed? && !Expired(slot.value.timestamp, now)
  }

  /** The slot after `isAuthenticated`: an expired or unparsable entry is
      removed; an empty string and a valid entry stay. */
  function AfterCheck(slot: Option<Stored>, now: int): (r: Option<Stored>)
    ensures r.Some? ==> r == slot
    ensures r.None? && slot.Some? ==> slot.value.Unparsable? || (slot.value.Parsed? && Expired(slot.value.timestamp, now))
    ensures Authenticated(r, now) <==> Authenticated(slot, now)
  {
    match slot
    case None => None
    case Some(Blank) => slot
    case Some(Unparsable) => None
    case Some(Parsed(t)) => if Expired(t, now) then None else slot
  }

  /** The session storage slot `baw_admin_authenticated`. */
  class Session {
    var slot: Option<Stored>

    constructor()
      ensures slot == None
    {
      slot := None;
    }

    /** `isAuthenticated()`. */
    method IsAuthenticated(now: int) returns (b: bool)
      modifies this
      ensures b == Authenticated(old(slot), now)
      ensures slot == AfterCheck(old(slot), now)
    {
      match slot
      case None =>
        b := false;
      case Some(Blank) =>
        b := false;
      case Some(Unparsable) =>
        slot := None;
        b := false;
      case Some(Parsed(t)) =>
        var n := ToNumber(t);
        if n.Some? && now - n.value > SessionTimeout {
          slot := None;
          b := false;
        } else {
          b := true;
        }
    }

    /** `setAuthenticated()`: the slot records the time of login. */
    method SetAuthenticated(now: int)
      modifies this
      ensures slot == Some(Parsed(Number(now)))
    {
      slot := Some(Parsed(Number(now)));
    }

    /** `clearAuthentication()`. */
    method ClearAuthentication()
      modifies this
      ensures slot == None
    {
      slot := None;
    }
  }

  /** After a login at `t`, the session holds until exactly eight hours
      later, and not a millisecond longer. */
  lemma LoginLastsEightHours(t: int, now: int)
    requires t <= now
    ensures Authenticated(Some(Parsed(Number(t))), now) <==> now <= t + SessionTimeout
    ensures Authenticated(Some(Parsed(Number(t))), t + 28800000)
    ensures !Authenticated(Some(Parsed(Number(t))), t + 28800001)
  {
  }

  /** An expired session stays expired, and a second check at the same
      time answers as the first did and changes nothing more. */
  lemma ExpiryIsFinal(slot: Option<Stored>, now: int, later: int)
    requires now <= later
    ensures !Authenticated(slot, now) && slot.Some? && slot.value.Parsed? && ToNumber(slot.value.timestamp).Some? ==> !Authenticated(slot, later)
    ensures AfterCheck(AfterCheck(slot, now), now) == AfterCheck(slot, now)
  {
  }

  /** Nothing authenticates an empty slot, an empty string or text that
      does not parse, at any time; an entry whose timestamp is missing, an
      object or text that is not a number always authenticates. */
  lemma OnlyParsedEntriesAuthenticate(now: int, text: string)
    ensures !Authenticated(None, now)
    ensures !Authenticated(Some(Blank), now)
    ensures !Authenticated(Some(Unparsable), now)
    ensures Authenticated(Some(Parsed(Undefined)), now)
    ensures Authenticated(Some(Parsed(Object)), now)
    ensures NumberOfText(Trim(text)).None? ==> Authenticated(Some(Parsed(Text(text))), now)
  {
  }

  /** A `null` timestamp counts as 0, the start of the epoch: the entry is
      accepted only within eight hours of it, and is removed afterwards. */
  lemma NullTimestampExpires(now: int)
    ensures Authenticated(Some(Parsed(Null)), now) <==> now <= SessionTimeout
    ensures now > SessionTimeout ==> AfterCheck(Some(Parsed(Null)), now) == None
  {
  }

  /** A run of digits, bare or after a space, trims to itself. */
  lemma TrimDigits(d: string)
    requires d != "" && AllDigits(d)
    ensures Trim(d) == d
    ensures Trim(" " + d) == d
  {
    TrimNoEdgeSpace(d);
    var p := " " + d;
    assert p[1..] == d;
    assert TrimStart(p) == TrimStart(d);
  }

  /** A login time stored as its decimal text, padded or not, lasts exactly
      as the number itself does. */
  lemma NumericTextTimestamp(t: nat, now: int)
    ensures Authenticated(Some(Parsed(Text(NatToString(t)))), now) <==> Authenticated(Some(Parsed(Number(t))), now)
    ensures Authenticated(Some(Parsed(Text(" " + NatToString(t)))), now) <==> Authenticated(Some(Parsed(Number(t))), now)
  {
    DecimalValueOfNatToString(t);
    TrimDigits(NatToString(t));
    assert ToNumber(Text(NatToString(t))) == Some(t);
    assert ToNumber(Text(" " + NatToString(t))) == Some(t);
  }

  /** The build-time settings `VITE_ADMIN_USERNAME` and
      `VITE_ADMIN_PASSWORD`, `""` when unset. */
  datatype Env = Env(username: string, password: string)

  function AdminUsername(env: Env): (r: string)
    ensures r != ""
    ensures env.username != "" ==> r == env.username
  {
    if env.username != "" then env.username else "admin"
  }

  function AdminPassword(env: Env): string {
    env.password
  }

  /** `verifyCredentials(username, password)`: both trimmed inputs equal
      the configured values. */
  function VerifyCredentials(env: Env, username: string, password: string): bool {
    Trim(username) == AdminUsername(env) && Trim(password) == AdminPassword(env)
  }

  /** With no password configured, the user name must trim to `admin` and
      the password must be blank or all whitespace. */
  lemma UnsetPasswordAcceptsBlank(env: Env, username: string, password: string)
    requires env == Env("", "")
    ensures VerifyCredentials(env, username, password) <==> Trim(username) == "admin" && AllSpace(password)
  {
    TrimEmptyIffAllSpace(password);
  }

  /** Whitespace around either input never matters: the inputs and their
      trimmed forms are accepted alike. */
  lemma CredentialsIgnorePadding(env: Env, username: string, password: string)
    ensures VerifyCredentials(env, username, password) <==> VerifyCredentials(env, Trim(username), Trim(password))
  {
    TrimIdempotent(username);
    TrimIdempotent(password);
  }
}
