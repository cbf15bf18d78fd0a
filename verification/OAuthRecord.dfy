/** The pending-login record: what the validator accepts, and that registration, the token,
    the result and the saved marker each produce an acceptable record. Times are integer
    nanoseconds; the unset time is None. */
module OAuthRecord {
  import opened Collections

  const MINUTE: int := 60_000_000_000
  const LOGIN_TTL: int := 10 * MINUTE
  const RESULT_TTL: int := 10 * MINUTE

  datatype Owner = Host | Panel | OtherOwner

  datatype Region = CN | Intl | OtherRegion

  /** A device grant; the upstream may leave the user id out. */
  datatype DeviceToken = DeviceToken(access: string, refresh: string, userId: string)

  datatype JobToken = JobToken(access: string, refresh: string)

  /** The credential built from a grant; domain names the region whose realm it carries. */
  datatype StoredAuth = StoredAuth(uid: string, access: string, refresh: string, pat: string,
                                   region: Region, domain: Region)

  datatype Record = Record(version: int, state: string, owner: Owner, region: Region, nonce: string, verifier: string,
                           deviceKey: string, created: int, expires: int,
                           token: Option<DeviceToken>, jobToken: Option<JobToken>, pat: string,
                           tokenAt: Option<int>, result: Option<StoredAuth>, saved: bool)

  /** Unicode space trimming and the UUID syntax test, taken as they are. */
  datatype Env = Env(trim: string -> string, isUuid: string -> bool)

  predicate LowerHex(c: char) {
    '0' <= c <= '9' || 'a' <= c <= 'f'
  }

  predicate ValidState(s: string) {
    |s| == 67 && s[..3] == "qw-" && forall c | c in s[3..] :: LowerHex(c)
  }

  /** The verifier alphabet and length of section 4.1 of RFC 7636. */
  predicate ValidVerifier(s: string) {
    43 <= |s| <= 128 && forall c | c in s ::
      'A' <= c <= 'Z' || 'a' <= c <= 'z' || '0' <= c <= '9' || c == '-' || c == '.' || c == '_' || c == '~'
  }

  function NonceLength(region: Region): nat {
    if region == Intl then 32 else 36
  }

  predicate SafeUidChar(c: char) {
    'a' <= c <= 'z' || 'A' <= c <= 'Z' || '0' <= c <= '9' || c == '_' || c == '-'
  }

  /** Every run of unsafe characters becomes one underscore. */
  function Collapse(s: string): string {
    if s == "" then ""
    else if SafeUidChar(s[|s| - 1]) then Collapse(s[..|s| - 1]) + [s[|s| - 1]]
    else if |s| > 1 && !SafeUidChar(s[|s| - 2]) then Collapse(s[..|s| - 1])
    else Collapse(s[..|s| - 1]) + "_"
  }

  function FileUid(env: Env, uid: string): string {
    var safe := Collapse(env.trim(uid));
    if safe == "" || safe == "." || safe == ".." then ""
    else if |safe| > 64 then safe[..64]
    else safe
  }

  lemma {:induction false} CollapseSafe(s: string)
    ensures forall c | c in Collapse(s) :: SafeUidChar(c)
    ensures Collapse(s) == "" <==> s == ""
  {
    if s != "" {
      CollapseSafe(s[..|s| - 1]);
    }
  }

  /** A user id names a file exactly when it is not blank. */
  lemma FileUidExists(env: Env, uid: string)
    ensures FileUid(env, uid) != "" <==> env.trim(uid) != ""
  {
    CollapseSafe(env.trim(uid));
    var safe := Collapse(env.trim(uid));
    assert safe == "." || safe == ".." ==> '.' in safe;
  }

  predicate PlainId(s: string) {
    forall c | c in s :: 'a' <= c <= 'z' || 'A' <= c <= 'Z' || '0' <= c <= '9' || c == '_' || c == '-'
  }

  /** The name of a user id's file: up to 64 letters, digits, underscores and hyphens, and the id
      itself when it is of that kind, so that two such users never share a file. */
  lemma FileUidIs(env: Env, uid: string)
    ensures |FileUid(env, uid)| <= 64 && PlainId(FileUid(env, uid))
    ensures env.trim(uid) == uid && uid != "" && |uid| <= 64 && PlainId(uid) ==> FileUid(env, uid) == uid
  {
    CollapseSafe(env.trim(uid));
    var safe := Collapse(env.trim(uid));
    if |safe| > 64 { assert forall c | c in safe[..64] :: c in safe; }
    assert safe == "." || safe == ".." ==> '.' in safe;
    if forall c | c in env.trim(uid) :: SafeUidChar(c) { CollapseKeeps(env.trim(uid)); }
    hide Collapse;
  }

  lemma {:induction false} CollapseKeeps(s: string)
    requires forall c | c in s :: SafeUidChar(c)
    ensures Collapse(s) == s
  {
    if s != "" {
      CollapseKeeps(s[..|s| - 1]);
      assert s == s[..|s| - 1] + [s[|s| - 1]];
    }
  }

  predicate HasToken(r: Record) {
    r.token.Some? || r.jobToken.Some?
  }

  predicate ValidTimes(r: Record, now: int) {
    r.created <= now + MINUTE && r.created < r.expires <= r.created + LOGIN_TTL + RESULT_TTL
  }

  predicate ValidToken(r: Record, now: int) {
    if HasToken(r) then
      && r.tokenAt.Some? && r.created <= r.tokenAt.value <= now + MINUTE
      && r.tokenAt.value < r.expires <= r.tokenAt.value + RESULT_TTL
      && (r.token.Some? ==> r.token.value.access != "" && r.token.value.refresh != "" && r.pat == "")
      && (r.jobToken.Some? ==>
            && r.jobToken.value.access != "" && r.jobToken.value.refresh != ""
            && "pt-" <= r.pat && r.owner == Host)
    else r.result.None? && !r.saved && r.tokenAt.None? && r.pat == "" && r.expires <= r.created + LOGIN_TTL
  }

  predicate ValidResult(env: Env, r: Record)
    requires HasToken(r)
  {
    r.result.Some? ==>
      var a := r.result.value;
      && (r.token.Some? && r.token.value.userId != "" ==> a.uid == r.token.value.userId)
      && FileUid(env, a.uid) != ""
      && a.access == (if r.token.Some? then r.token.value.access else r.jobToken.value.access)
      && a.refresh == (if r.token.Some? then r.token.value.refresh else r.jobToken.value.refresh)
      && a.pat == (if r.token.Some? then "" else r.pat)
      && a.region == r.region && a.domain == r.region
  }

  predicate ValidIdentity(env: Env, r: Record) {
    && r.version == 1 && ValidState(r.state) && r.owner != OtherOwner && r.region != OtherRegion
    && ValidVerifier(r.verifier)
    && |r.nonce| == NonceLength(r.region) && |r.deviceKey| == 36 && env.isUuid(r.nonce) && env.isUuid(r.deviceKey)
  }

  predicate ValidRecord(env: Env, r: Record, now: int) {
    && ValidIdentity(env, r) && ValidTimes(r, now)
    && !(r.token.Some? && r.jobToken.Some?)
    && ValidToken(r, now)
    && (HasToken(r) ==> ValidResult(env, r))
    && (r.saved ==> r.result.Some? && r.owner == Panel)
  }

  // ----- the same by stage, in seconds and characters

  const SECOND: int := 1_000_000_000

  /** A fresh login, without anything from the upstream, lives at most ten minutes. */
  ghost predicate AtStart(r: Record) {
    && r.token.None? && r.jobToken.None? && r.pat == "" && r.tokenAt.None? && r.result.None? && !r.saved
    && r.created < r.expires <= r.created + 600 * SECOND
  }

  /** With its token, a login lives on for at most ten minutes and twenty in all. */
  ghost predicate WithTokenPair(r: Record, now: int) {
    && (if r.jobToken.Some? then
          && r.token.None? && r.owner == Host
          && r.jobToken.value.access != "" && r.jobToken.value.refresh != "" && |r.pat| >= 3 && r.pat[..3] == "pt-"
        else r.token.Some? && r.token.value.access != "" && r.token.value.refresh != "" && r.pat == "")
    && r.tokenAt.Some? && r.created <= r.tokenAt.value <= now + 60 * SECOND
    && r.tokenAt.value < r.expires <= r.tokenAt.value + 600 * SECOND && r.expires <= r.created + 1200 * SECOND
  }

  /** The credential repeats the tokens, the region and the user of the grant, if it names one, and
      names a user in any case. */
  ghost predicate WithCredential(env: Env, r: Record) {
    && r.result.Some? && env.trim(r.result.value.uid) != ""
    && match (r.token, r.jobToken) {
         case (Some(d), _) =>
           && (d.userId == "" || r.result.value.uid == d.userId)
           && r.result.value == StoredAuth(r.result.value.uid, d.access, d.refresh, "", r.region, r.region)
         case (_, Some(j)) =>
           r.result.value == StoredAuth(r.result.value.uid, j.access, j.refresh, r.pat, r.region, r.region)
         case _ => false
       }
  }

  /** The parts a login is started with. */
  ghost predicate Started(env: Env, r: Record, now: int) {
    && r.version == 1 && r.owner in {Host, Panel} && r.region in {CN, Intl}
    && |r.state| == 67 && r.state[..3] == "qw-"
    && (forall c | c in r.state[3..] :: c in "0123456789abcdef")
    && 43 <= |r.verifier| <= 128
    && (forall c | c in r.verifier :: 'A' <= c <= 'Z' || 'a' <= c <= 'z' || '0' <= c <= '9' || c in "-._~")
    && |r.nonce| == (if r.region == CN then 36 else 32) && |r.deviceKey| == 36
    && env.isUuid(r.nonce) && env.isUuid(r.deviceKey)
    && r.created <= now + 60 * SECOND
  }

  /** The validator accepts exactly the records on the chain: started, with a token, with its
      credential, and saved by the panel. */
  lemma AcceptedExactly(env: Env, r: Record, now: int)
    ensures ValidRecord(env, r, now) <==>
      && Started(env, r, now)
      && (AtStart(r) || (&& WithTokenPair(r, now)
                         && (r.result.Some? ==> WithCredential(env, r))
                         && (r.saved ==> r.result.Some? && r.owner == Panel)))
  {
    if r.result.Some? { FileUidExists(env, r.result.value.uid); }
    hide FileUid;
    assert "pt-" <= r.pat <==> |r.pat| >= 3 && r.pat[..3] == "pt-";
    StartedExactly(env, r, now);
    hide ValidIdentity, Started;
  }

  lemma StartedExactly(env: Env, r: Record, now: int)
    ensures Started(env, r, now) <==> ValidIdentity(env, r) && r.created <= now + MINUTE
  {
    forall c: char ensures LowerHex(c) <==> c in "0123456789abcdef" {}
    forall c: char ensures c in "-._~" <==> c == '-' || c == '.' || c == '_' || c == '~' {}
  }

  // ----- how records come about

  /** A new login as registered at time now. */
  function NewLogin(state: string, owner: Owner, region: Region, nonce: string, verifier: string, deviceKey: string,
          now: int): Record
  {
    Record(1, state, owner, region, nonce, verifier, deviceKey, now, now + LOGIN_TTL, None, None, "", None, None, false)
  }

  /** What a one-time exchange yields. */
  datatype Grant = DeviceGrant(device: DeviceToken) | JobGrant(job: JobToken, pat: string)

  /** Both exchanges reject incomplete token pairs; a PAT must start with pt-. */
  predicate GoodGrant(g: Grant) {
    match g
    case DeviceGrant(d) => d.access != "" && d.refresh != ""
    case JobGrant(j, pat) => j.access != "" && j.refresh != "" && "pt-" <= pat
  }

  /** The token received at time at, with the extended but capped expiry. */
  function WithGrant(r: Record, g: Grant, at: int): Record {
    var extended := at + RESULT_TTL;
    var cap := r.created + LOGIN_TTL + RESULT_TTL;
    var expires := if extended > cap then cap else extended;
    match g
    case DeviceGrant(d) => r.(token := Some(d), tokenAt := Some(at), expires := expires)
    case JobGrant(j, pat) => r.(jobToken := Some(j), pat := pat, tokenAt := Some(at), expires := expires)
  }

  /** The uid a grant carries by itself. */
  function GrantUid(r: Record): string {
    if r.token.Some? then r.token.value.userId else ""
  }

  /** The credential of a record; looked is the identity the user-info endpoint reported,
      consulted only when the grant names no usable uid. */
  function BuildResult(env: Env, r: Record, looked: string): StoredAuth
    requires HasToken(r)
  {
    var uid := if FileUid(env, GrantUid(r)) == "" then looked else GrantUid(r);
    if r.token.Some? then StoredAuth(uid, r.token.value.access, r.token.value.refresh, "", r.region, r.region)
    else StoredAuth(uid, r.jobToken.value.access, r.jobToken.value.refresh, r.pat, r.region, r.region)
  }

  // ----- each step yields an acceptable record

  lemma NewLoginValid(env: Env, state: string, owner: Owner, region: Region, nonce: string, verifier: string,
          deviceKey: string, now: int, later: int)
    requires ValidIdentity(env, NewLogin(state, owner, region, nonce, verifier, deviceKey, now)) && now <= later
    ensures ValidRecord(env, NewLogin(state, owner, region, nonce, verifier, deviceKey, now), later)
  {
  }

  /** A valid record stays valid as time passes. */
  lemma ValidLater(env: Env, r: Record, now: int, later: int)
    requires ValidRecord(env, r, now) && now <= later
    ensures ValidRecord(env, r, later)
  {
    hide ValidIdentity, ValidResult;
  }

  /** Receiving a token keeps the record acceptable exactly when the exchange came back before
      the login's overall deadline. */
  lemma GrantValidExactly(env: Env, r: Record, g: Grant, at: int)
    requires ValidRecord(env, r, at) && !HasToken(r) && GoodGrant(g) && r.created <= at
    requires g.JobGrant? ==> r.owner == Host
    ensures ValidRecord(env, WithGrant(r, g, at), at) <==> at < r.created + LOGIN_TTL + RESULT_TTL
    ensures r.expires <= WithGrant(r, g, at).expires <= r.created + LOGIN_TTL + RESULT_TTL
  {
    hide ValidState, ValidVerifier, FileUid;
  }

  /** The token's arrival extends the deadline to ten minutes from then, but never past twenty
      minutes from the start; the grant is kept as it came and nothing else changes. */
  lemma GrantKept(r: Record, g: Grant, at: int)
    requires !HasToken(r)
    ensures var after := WithGrant(r, g, at);
      && after.expires <= at + 600 * SECOND && after.expires <= r.created + 1200 * SECOND
      && (after.expires == at + 600 * SECOND || after.expires == r.created + 1200 * SECOND)
      && after.tokenAt == Some(at)
      && (g.DeviceGrant? ==> after.token == Some(g.device) && after.jobToken.None? && after.pat == r.pat)
      && (g.JobGrant? ==> after.jobToken == Some(g.job) && after.token.None? && after.pat == g.pat)
      && after == r.(token := after.token, jobToken := after.jobToken, pat := after.pat, tokenAt := after.tokenAt,
                     expires := after.expires)
  {
  }

  /** The built credential keeps the record acceptable exactly when the grant's user id is
      absent or not blank. */
  lemma ResultValidExactly(env: Env, r: Record, looked: string, now: int)
    requires ValidRecord(env, r, now) && HasToken(r) && r.result.None?
    requires FileUid(env, GrantUid(r)) == "" ==> FileUid(env, looked) != ""
    ensures ValidRecord(env, r.(result := Some(BuildResult(env, r, looked))), now)
      <==> GrantUid(r) == "" || env.trim(GrantUid(r)) != ""
  {
    FileUidExists(env, GrantUid(r));
    FileUidExists(env, looked);
    hide ValidState, ValidVerifier, FileUid;
  }

  /** The failing input: a grant whose user id is one space. No credential built for it is
      ever acceptable, so the login can never be completed. */
  lemma BlankUserIdNeverValid(env: Env, r: Record, auth: StoredAuth, now: int)
    requires env.trim(" ") == ""
    requires r.token.Some? && r.token.value.userId == " " && r.result == Some(auth)
    ensures !ValidRecord(env, r, now)
  {
    FileUidExists(env, " ");
  }

  lemma SavedValidExactly(env: Env, r: Record, now: int)
    requires ValidRecord(env, r, now) && r.result.Some?
    ensures ValidRecord(env, r.(saved := true), now) <==> r.owner == Panel
  {
    hide ValidState, ValidVerifier, FileUid;
  }
}
