/** Pagination cursors: what is sealed into a token, and what opening one checks. */
module Cursor {
  import opened Domain
  import opened SearchPlan
  import opened Text

  /** The empty query hash, the missing fingerprint and the unset expiry are the zero values of their types. */
  datatype State = State(
    version: int,
    queryHash: string,
    fingerprint: Option<Digest>,
    provider: string,
    providers: seq<string>,
    page: int,
    pageToken: string,
    limit: int,
    expiresAt: Option<int>)

  datatype Scheme = V1 | V2

  /**
   * A token as clients send it: the prefix names a scheme; the ideal seal
   * binds the state to a secret and to the scheme it was sealed for. Text
   * that no codec has sealed is garbage.
   */
  datatype Token =
    | Garbage(size: nat)
    | Sealed(prefix: Scheme, secret: string, scheme: Scheme, state: State, size: nat)

  datatype CursorError = InvalidCursor | ExpiredCursor

  datatype Codec = Codec(secret: string, ttl: int)

  datatype CodecError = EmptySecret | InvalidTTL

  function New(secret: string, ttl: int): (r: Result<Codec, CodecError>)
    ensures r.Ok? <==> (exists i :: 0 <= i < |secret| && !IsSpace(secret[i])) && ttl > 0
  {
    BlankExactlyWhen(secret);
    if TrimSpace(secret) == "" then Err(EmptySecret)
    else if ttl <= 0 then Err(InvalidTTL)
    else Ok(Codec(secret, ttl))
  }

  /** Text trims to nothing exactly when it is all white space. */
  lemma {:induction false} BlankExactlyWhen(s: string)
    ensures TrimSpace(s) == "" <==> forall i :: 0 <= i < |s| ==> IsSpace(s[i])
  {
    if s != "" {
      if IsSpace(s[0]) {
        BlankExactlyWhen(s[1..]);
        assert forall i :: 0 < i < |s| ==> s[i] == s[1..][i - 1];
      } else {
        FirstIsKept(s);
      }
    }
  }

  lemma {:induction false} FirstIsKept(s: string)
    requires s != "" && !IsSpace(s[0])
    ensures TrimRight(s) != ""
  {
    if IsSpace(s[|s| - 1]) {
      FirstIsKept(s[..|s| - 1]);
    }
  }

  function SchemeOf(state: State): Scheme {
    if state.fingerprint.None? && state.queryHash != "" then V1 else V2
  }

  function Version(scheme: Scheme): int {
    if scheme == V1 then 1 else 2
  }

  /** The state as it is sealed: versioned, and with an expiry. */
  function Stamped(codec: Codec, state: State, now: int): State {
    state.(
      version := Version(SchemeOf(state)),
      expiresAt := if state.expiresAt.None? then Some(now + codec.ttl) else state.expiresAt)
  }

  predicate Usable(state: State) {
    state.page >= 1 && state.limit >= 1 && state.providers != [] && (state.fingerprint.Some? || state.queryHash != "")
  }

  /** What is sealed comes back stamped until it expires, if it is usable; otherwise it never opens. */
  function Encode(codec: Codec, state: State, now: int, size: nat): (token: Token)
    ensures forall later :: Decode(codec, token, later) ==
                            if !Usable(state) then Err(InvalidCursor)
                            else if later < Stamped(codec, state, now).expiresAt.value then Ok(Stamped(codec, state, now))
                            else Err(ExpiredCursor)
  {
    Sealed(SchemeOf(state), codec.secret, SchemeOf(state), Stamped(codec, state, now), size)
  }

  /** Only tokens sealed under this secret, and sent under the prefix they were sealed for, ever open. */
  function Decode(codec: Codec, token: Token, now: int): (r: Result<State, CursorError>)
    ensures r.Ok? ==> token.Sealed? && token.secret == codec.secret && token.prefix == token.scheme && token.state == r.value
    ensures r.Ok? ==> r.value.page >= 1 && r.value.limit >= 1 && r.value.providers != []
    ensures r == Err(ExpiredCursor) ==> token.Sealed? && token.secret == codec.secret
  {
    match token
    case Garbage(_) => Err(InvalidCursor)
    case Sealed(prefix, secret, scheme, state, _) =>
      if secret != codec.secret || prefix != scheme then Err(InvalidCursor)
      else if (state.version != 1 && state.version != 2) || state.page < 1 || state.limit < 1 || |state.providers| == 0
      then Err(InvalidCursor)
      else if state.version == 2 && state.fingerprint.None? then Err(InvalidCursor)
      else if state.expiresAt.None? || state.expiresAt.value <= now then Err(ExpiredCursor)
      else Ok(state)
  }

  /**
   * A token opens exactly if it was sealed under this secret for the scheme
   * it is sent under, and its state has a page, a limit, providers, a known
   * version, a fingerprint unless it is of version 1, and time left.
   */
  lemma DecodeExactlyWhen(codec: Codec, token: Token, now: int)
    ensures Decode(codec, token, now).Ok? <==>
              && token.Sealed? && token.secret == codec.secret && token.prefix == token.scheme
              && (token.state.version == 1 || (token.state.version == 2 && token.state.fingerprint.Some?))
              && token.state.page >= 1 && token.state.limit >= 1 && token.state.providers != []
              && token.state.expiresAt.Some? && now < token.state.expiresAt.value
    ensures Decode(codec, token, now) == Err(ExpiredCursor) ==>
              token.Sealed? && (token.state.expiresAt.None? || token.state.expiresAt.value <= now)
  {
  }

  /**
   * What comes back of a sealed state: nothing ever if it lacks a page, a
   * limit, providers, or both fingerprint and query hash; else, until its own
   * expiry or the lifetime after sealing, the state with that expiry and a
   * version, 1 without a fingerprint and 2 with one.
   */
  lemma RoundTrip(codec: Codec, state: State, now: int, size: nat, later: int)
    ensures var expiry := if state.expiresAt.Some? then state.expiresAt.value else now + codec.ttl;
            Decode(codec, Encode(codec, state, now, size), later) ==
            if state.page < 1 || state.limit < 1 || state.providers == [] || (state.fingerprint.None? && state.queryHash == "") then
              Err(InvalidCursor)
            else if expiry <= later then Err(ExpiredCursor)
            else Ok(state.(version := if state.fingerprint.None? then 1 else 2, expiresAt := Some(expiry)))
  {
  }
}
