/** One check-in attempt against the upstream: which HTTP outcomes are definite, which are
    uncertain, and what the attempt concludes. The upstream's replies are inputs; a POST may
    have taken effect although its reply was lost. */
module CheckinAttempt {
  import opened Collections

  datatype ErrorKind = Auth | Transport | Server | RateLimit | NotFound | Protocol | Business

  datatype RequestError = RequestError(kind: ErrorKind, status: nat, retryable: bool, uncertain: bool)

  /** A reply to a GET: the connection failed, there was no usable response, or a status with
      a body (None when the body breaks the protocol). */
  datatype ReadReply<+T> = ReadFailed(retryable: bool) | ReadNothing | ReadStatus(status: nat, body: Option<T>)

  datatype Rejection = NotRejected | RejectedAuth | RejectedBusiness

  /** The parts of a claim response body the claim looks at. */
  datatype ClaimBody = ClaimBody(already: bool, rejection: Rejection, claimed: bool, success: Option<bool>,
                                 replayed: bool, marker: bool)

  /** A reply to the claiming POST; body None: not a JSON object. */
  datatype PostReply = PostFailed(retryable: bool) | PostNothing | PostStatus(status: nat, body: Option<ClaimBody>)

  datatype ClaimStatus = Claimable | Claimed

  datatype Campaign = Campaign(id: string, benefit: bool, status: ClaimStatus, startAt: int, endAt: int)

  datatype LegacyStatus = LegacyClaimable | LegacyClaimedToday

  /** Everything the upstream answers during one attempt, and the days on which its POST is sent
      and its last answer, that of the confirming read, comes in. */
  datatype Upstream = Upstream(campaignContract: bool, cn: bool, now: int,
                               listing: ReadReply<seq<Campaign>>, legacyStatus: ReadReply<LegacyStatus>,
                               post: PostReply,
                               confirmListing: ReadReply<seq<Campaign>>, confirmLegacy: ReadReply<LegacyStatus>,
                               posted: int, ended: int)

  datatype RunState = Fresh | Already | Succeeded | PendingConfirmation | Failed | NoBenefit | Disabled | Unsupported

  datatype Conclusion = Conclusion(state: RunState, campaignId: string, confirmed: bool, confirmOnly: bool,
                                   retryable: bool, legacy: bool, hasStatus: bool)

  /** What an earlier run left behind. */
  datatype Previous = Previous(confirmOnly: bool, confirmed: bool, legacy: bool, campaignId: string)

  /** Under which contract a claim is made: the legacy daily one, or that of one campaign. */
  datatype Contract = LegacyContract | CampaignContract(id: string)

  /** What is claimed: the check-in of one day under the legacy contract, or one campaign. */
  datatype Target = OfDay(day: int) | OfCampaign(id: string)

  function ContractOf(t: Target): Contract {
    if t.OfDay? then LegacyContract else CampaignContract(t.id)
  }

  function ContractNamed(legacy: bool, campaignId: string): Contract {
    if legacy then LegacyContract else CampaignContract(campaignId)
  }

  /** What a POST or a read on that day is about: the legacy contract knows no other day. */
  function TargetOn(c: Contract, day: int): Target {
    if c.LegacyContract? then OfDay(day) else OfCampaign(c.id)
  }

  datatype Post = Post(target: Target, reply: PostReply)

  /** An attempt, with its POST if it made one and the claim its confirming read is about. */
  datatype Attempt = Attempt(conclusion: Conclusion, post: Option<Post>, read: Option<Target>)

  function StatusError(status: nat, post: bool): Option<RequestError> {
    if 200 <= status < 300 then None
    else if status == 401 || status == 403 then Some(RequestError(Auth, status, false, false))
    else if status == 404 || status == 405 then Some(RequestError(NotFound, status, false, false))
    else if status == 429 then Some(RequestError(RateLimit, status, true, false))
    else if status == 408 then Some(RequestError(Transport, status, true, post))
    else if post && 300 <= status < 400 then Some(RequestError(Protocol, status, true, true))
    else if status >= 500 then Some(RequestError(Server, status, true, post))
    else Some(RequestError(Business, status, false, false))
  }

  const PROTOCOL_ERROR := RequestError(Protocol, 0, false, false)

  function Read<T>(reply: ReadReply<T>): Result<T, RequestError> {
    match reply
    case ReadFailed(retryable) => Failure(RequestError(Transport, 0, retryable, false))
    case ReadNothing => Failure(PROTOCOL_ERROR)
    case ReadStatus(status, body) =>
      if status == 0 then Failure(PROTOCOL_ERROR)
      else if StatusError(status, false).Some? then Failure(StatusError(status, false).value)
      else if body.None? then Failure(PROTOCOL_ERROR)
      else Result.Success(body.value)
  }

  // ----- the campaign listing

  predicate Open(c: Campaign, now: int) {
    c.benefit && !(c.startAt > 0 && now < c.startAt) && !(c.endAt > 0 && now > c.endAt)
  }

  /** The first campaign with that status inside its window. */
  function FirstOpen(cs: seq<Campaign>, status: ClaimStatus, now: int): Option<Campaign> {
    if cs == [] then None
    else if Open(cs[0], now) && cs[0].status == status then Some(cs[0])
    else FirstOpen(cs[1..], status, now)
  }

  /** What was observed before a claim: today's state and the contract it was read from. */
  datatype Observation = Observation(active: bool, checkedIn: bool, campaign: Option<Campaign>, legacy: bool)

  function Observe(u: Upstream): Result<Observation, RequestError> {
    if u.campaignContract then
      match Read(u.listing)
      case Success(cs) =>
        var claimable := FirstOpen(cs, Claimable, u.now);
        var claimed := claimable.None? && FirstOpen(cs, Claimed, u.now).Some?;
        Result.Success(Observation(claimable.Some? || claimed, claimed, claimable, false))
      case Failure(e) =>
        if u.cn && (e.status == 404 || e.status == 405) && !e.uncertain then ObserveLegacy(u) else Failure(e)
    else ObserveLegacy(u)
  }

  function ObserveLegacy(u: Upstream): Result<Observation, RequestError> {
    match Read(u.legacyStatus)
    case Failure(e) => Failure(e)
    case Success(s) => Result.Success(Observation(true, s.LegacyClaimedToday?, None, true))
  }

  // ----- the claiming POST

  /** The marks a claim leaves: an authoritative receipt, an explicit success:false, a
      duplicate marker, a replayed receipt. */
  datatype Receipt = Receipt(confirmed: bool, refused: bool, already: bool, replayed: bool)

  const NO_RECEIPT := Receipt(false, false, false, false)
  const UNCERTAIN_PROTOCOL := RequestError(Protocol, 0, true, true)

  function RejectionError(r: Rejection): Option<RequestError> {
    match r
    case NotRejected => None
    case RejectedAuth => Some(RequestError(Auth, 401, false, false))
    case RejectedBusiness => Some(RequestError(Business, 0, false, false))
  }

  function PostError(reply: PostReply): Option<RequestError> {
    match reply
    case PostFailed(retryable) => Some(RequestError(Transport, 0, retryable, true))
    case PostNothing => Some(UNCERTAIN_PROTOCOL)
    case PostStatus(status, _) => if status == 0 then Some(UNCERTAIN_PROTOCOL) else StatusError(status, true)
  }

  predicate Duplicate(reply: PostReply) {
    reply.PostStatus? && reply.status == 409 && reply.body.Some? && reply.body.value.already
  }

  function CampaignClaim(reply: PostReply): (Receipt, Option<RequestError>) {
    if Duplicate(reply) then (Receipt(false, true, true, false), None)
    else if PostError(reply).Some? then (NO_RECEIPT, PostError(reply))
    else if reply.body.None? then (NO_RECEIPT, Some(UNCERTAIN_PROTOCOL))
    else
      var b := reply.body.value;
      if RejectionError(b.rejection).Some? then (NO_RECEIPT, RejectionError(b.rejection))
      else if !b.claimed then
        if b.success == Some(false) then
          (Receipt(false, true, false, false), Some(RequestError(Business, 0, false, false)))
        else (NO_RECEIPT, Some(UNCERTAIN_PROTOCOL))
      else (Receipt(true, b.replayed, b.replayed, b.replayed), None)
  }

  /** The legacy contract returns the body as it is; a duplicate or an acknowledgement is not
      a confirmation. */
  function LegacyClaim(reply: PostReply): (Receipt, Option<RequestError>) {
    if Duplicate(reply) then
      var b := reply.body.value;
      (Receipt(b.marker, b.success == Some(false), true, b.replayed), None)
    else if PostError(reply).Some? then (NO_RECEIPT, PostError(reply))
    else if reply.body.None? then (NO_RECEIPT, Some(UNCERTAIN_PROTOCOL))
    else
      var b := reply.body.value;
      if RejectionError(b.rejection).Some? then (NO_RECEIPT, RejectionError(b.rejection))
      else if b.success.None? && !b.already then (NO_RECEIPT, Some(UNCERTAIN_PROTOCOL))
      else (Receipt(b.marker, b.success == Some(false), b.already, b.replayed), None)
  }

  // ----- the attempt

  function FailedWith(e: RequestError, confirmOnly: bool): Conclusion {
    Conclusion(Failed, "", false, confirmOnly || e.uncertain, e.retryable, false, false)
  }

  /** A read-only check of an uncertain claim, bound to its own contract and campaign. */
  function ConfirmRead(u: Upstream, legacy: bool, campaignId: string): Conclusion {
    if legacy then
      match Read(u.confirmLegacy)
      case Failure(e) => FailedWith(e, true)
      case Success(s) => Confirmation(s.LegacyClaimedToday?, legacy, campaignId)
    else
      match Read(u.confirmListing)
      case Failure(e) => FailedWith(e, true)
      case Success(cs) =>
        Confirmation(exists c :: c in cs && c.id == campaignId && c.status == Claimed, legacy, campaignId)
  }

  function Confirmation(claimed: bool, legacy: bool, campaignId: string): Conclusion {
    if claimed then Conclusion(Already, campaignId, true, false, false, legacy, true)
    else Conclusion(PendingConfirmation, campaignId, false, true, true, legacy, true)
  }

  function Claim(u: Upstream, obs: Observation): Attempt
    requires obs.legacy || obs.campaign.Some?
  {
    var id := if obs.legacy then "" else obs.campaign.value.id;
    if !obs.legacy && id == "" then
      Attempt(FailedWith(PROTOCOL_ERROR, false).(hasStatus := true, legacy := obs.legacy), None, None)
    else
      var (receipt, error) := if obs.legacy then LegacyClaim(u.post) else CampaignClaim(u.post);
      var contract := ContractNamed(obs.legacy, id);
      Attempt(Conclude(u, obs.legacy, id, receipt, error), Some(Post(TargetOn(contract, u.posted), u.post)),
              if ReadsBack(receipt, error) then Some(TargetOn(contract, u.ended)) else None)
  }

  /** A claim is read back unless its receipt confirmed it or its error is definite. */
  predicate ReadsBack(receipt: Receipt, error: Option<RequestError>) {
    !(receipt.confirmed && error.None?) && !(error.Some? && !error.value.uncertain)
  }

  function Conclude(u: Upstream, legacy: bool, id: string, receipt: Receipt, error: Option<RequestError>): Conclusion {
    if receipt.confirmed && error.None? then
      Conclusion(if receipt.replayed then Already else Succeeded, id, true, false, false, false, true)
    else if error.Some? && !error.value.uncertain then
      FailedWith(error.value, false).(hasStatus := true, campaignId := id, legacy := legacy)
    else
      var c := ConfirmRead(u, legacy, id).(campaignId := id, legacy := legacy);
      if c.confirmed then (if receipt.already then c else c.(state := Succeeded))
      else if error.None? && receipt.refused && !receipt.already then
        c.(state := Failed, retryable := false, confirmOnly := false)
      else if error.Some? && !error.value.retryable then c.(retryable := false)
      else c
  }

  /** One attempt. After an uncertain POST only the confirming read is made. */
  function Run(previous: Previous, u: Upstream): Attempt {
    if previous.confirmOnly then
      Attempt(ConfirmRead(u, previous.legacy, previous.campaignId), None,
              Some(TargetOn(ContractNamed(previous.legacy, previous.campaignId), u.ended)))
    else
      match Observe(u)
      case Failure(e) => Attempt(FailedWith(e, false), None, None)
      case Success(obs) =>
        if obs.checkedIn then Attempt(Conclusion(Already, "", true, false, false, obs.legacy, true), None, None)
        else if previous.confirmed
            && ((!obs.legacy && (obs.campaign.None? || obs.campaign.value.id == previous.campaignId))
                || (obs.legacy && previous.legacy)) then
          Attempt(Conclusion(Already, previous.campaignId, true, false, false, previous.legacy, false), None, None)
        else if !obs.active then Attempt(Conclusion(NoBenefit, "", false, false, false, false, true), None, None)
        else if !obs.legacy && obs.campaign.None? then Attempt(FailedWith(PROTOCOL_ERROR, false), None, None)
        else Claim(u, obs)
  }

  // ----- what the reply to a POST settles, said without the code's classification

  /** The upstream itself reported the claim done. */
  predicate Confirms(legacy: bool, reply: PostReply) {
    && reply.PostStatus? && reply.body.Some?
    && var fine := 200 <= reply.status < 300 && reply.body.value.rejection.NotRejected?;
      if legacy then
        && reply.body.value.marker
        && ((reply.status == 409 && reply.body.value.already)
            || (fine && (reply.body.value.success.Some? || reply.body.value.already)))
      else fine && reply.body.value.claimed
  }

  /** The upstream definitely refused: a client-error status other than a timeout or a
      duplicate, a structured rejection, or an explicit success:false on an otherwise good
      response. */
  predicate Refuses(legacy: bool, reply: PostReply) {
    && reply.PostStatus? && reply.status != 0
    && (|| (&& 400 <= reply.status < 500 && reply.status != 408
            && !(reply.status == 409 && reply.body.Some? && reply.body.value.already))
        || (&& 200 <= reply.status < 300 && reply.body.Some?
            && var b := reply.body.value;
               || !b.rejection.NotRejected?
               || (b.success == Some(false) && if legacy then !b.already && !b.marker else !b.claimed)))
  }

  predicate Settled(post: Post) {
    Confirms(post.target.OfDay?, post.reply) || Refuses(post.target.OfDay?, post.reply)
  }

  /** An interim status says nothing about the claim, yet the code takes it for a rejection. */
  predicate Informational(reply: PostReply) {
    reply.PostStatus? && 0 < reply.status < 200
  }

  /** The confirming read finds that claim. The legacy status tells only of the day it is read
      on. */
  predicate ReadFinds(u: Upstream, target: Target) {
    match target
    case OfDay(day) => day == u.ended && Read(u.confirmLegacy) == Result.Success(LegacyClaimedToday)
    case OfCampaign(id) =>
      && Read(u.confirmListing).Success?
      && exists c :: c in Read(u.confirmListing).value && c.id == id && c.status == Claimed
  }

  lemma ReadsAreCertain(u: Upstream)
    ensures Observe(u).Failure? ==> !Observe(u).error.uncertain
  {
    hide FirstOpen;
  }

  /** Nothing is posted while an earlier POST is uncertain. The attempt asks for read-only
      confirmation exactly when such a POST remains unconfirmed, or its own POST is neither
      settled nor confirmed nor answered by an interim status. */
  lemma UncertainExactly(previous: Previous, u: Upstream)
    ensures previous.confirmOnly ==> Run(previous, u).post.None?
    ensures var a := Run(previous, u);
      a.conclusion.confirmOnly <==>
        && !a.conclusion.confirmed
        && (previous.confirmOnly || (a.post.Some? && !Settled(a.post.value) && !Informational(a.post.value.reply)))
  {
    ReadsAreCertain(u);
    ClaimUncertain(u);
    hide Observe, Read, Claim, Settled, FirstOpen;
  }

  /** A POST whose outcome is open is kept read-only exactly when its status is not an interim
      one. */
  lemma KeptReadOnlyExactly(previous: Previous, u: Upstream)
    requires Run(previous, u).post.Some? && !Settled(Run(previous, u).post.value)
    requires !Run(previous, u).conclusion.confirmed
    ensures Run(previous, u).conclusion.confirmOnly <==> !Informational(Run(previous, u).post.value.reply)
  {
    UncertainExactly(previous, u);
    hide Run, Settled, Informational;
  }

  /** The failing input: a claim answered by status 103 is forgotten, though nothing settled it. */
  lemma InformationalIsForgotten()
    returns (u: Upstream)
    ensures var a := Run(Previous(false, false, false, ""), u);
      && a.post == Some(Post(OfCampaign("X"), PostStatus(103, None))) && !Settled(a.post.value)
      && !a.conclusion.confirmed && !a.conclusion.confirmOnly
  {
    var open := [Campaign("X", true, Claimable, 0, 0)];
    u := Upstream(true, false, 1, ReadStatus(200, Some(open)), ReadNothing, PostStatus(103, None), ReadNothing,
                  ReadNothing, 1, 1);
    assert FirstOpen(open, Claimable, 1) == Some(open[0]);
  }

  lemma ClaimUncertain(u: Upstream)
    ensures forall obs: Observation | obs.legacy || obs.campaign.Some? ::
      var a := Claim(u, obs);
      a.conclusion.confirmOnly <==>
        !a.conclusion.confirmed && a.post.Some? && !Settled(a.post.value) && !Informational(a.post.value.reply)
  {
    forall obs: Observation | obs.legacy || obs.campaign.Some?
      ensures var a := Claim(u, obs);
        a.conclusion.confirmOnly <==>
          !a.conclusion.confirmed && a.post.Some? && !Settled(a.post.value) && !Informational(a.post.value.reply)
    {
      ConcludeUncertain(u, obs.legacy, if obs.legacy then "" else obs.campaign.value.id);
      hide Conclude, Settled, LegacyClaim, CampaignClaim, Informational;
    }
  }

  lemma ConcludeUncertain(u: Upstream, legacy: bool, id: string)
    ensures var (receipt, error) := if legacy then LegacyClaim(u.post) else CampaignClaim(u.post);
      var c := Conclude(u, legacy, id, receipt, error);
      var post := Post(TargetOn(ContractNamed(legacy, id), u.posted), u.post);
      c.confirmOnly <==> !c.confirmed && !Settled(post) && !Informational(u.post)
  {
    hide Read, FirstOpen;
  }

  /** An attempt that makes a confirming read is confirmed exactly when that read finds the claim
      it is about. A read-only attempt reads under the contract and campaign the record names; an
      attempt with an open POST reads under the POST's, so it is about that very claim exactly when
      it is a campaign's or the read comes in on the day of the POST. */
  lemma ConfirmedExactlyByEvidence(previous: Previous, u: Upstream)
    ensures var a := Run(previous, u);
      && (a.read.Some? ==> (a.conclusion.confirmed <==> ReadFinds(u, a.read.value)))
      && (previous.confirmOnly ==>
            a.read == Some(TargetOn(ContractNamed(previous.legacy, previous.campaignId), u.ended)))
      && (a.post.Some? && a.read.Some? ==>
            && ContractOf(a.read.value) == ContractOf(a.post.value.target)
            && (a.read == Some(a.post.value.target) <==> a.post.value.target.OfCampaign? || u.posted == u.ended))
      && (a.post.Some? && !Settled(a.post.value) && !Informational(a.post.value.reply) ==> a.read.Some?)
      && (a.post.Some? && a.read.None? ==>
            (a.conclusion.confirmed <==> Confirms(a.post.value.target.OfDay?, a.post.value.reply)))
  {
    hide Read, FirstOpen;
  }

  /** Every POST and every read is of its own day. */
  lemma ClaimDays(previous: Previous, u: Upstream)
    ensures var a := Run(previous, u);
      && (a.post.Some? && a.post.value.target.OfDay? ==> a.post.value.target.day == u.posted)
      && (a.read.Some? && a.read.value.OfDay? ==> a.read.value.day == u.ended)
  {
    hide Observe, Conclude, ConfirmRead;
  }

  /** A POST is made only after a fresh read showed an open claimable campaign, or a
      claimable legacy status. */
  lemma PostsOnlyAfterClaimableRead(previous: Previous, u: Upstream)
    requires Run(previous, u).post.Some?
    ensures !previous.confirmOnly && Run(previous, u).post.value.reply == u.post
    ensures match Run(previous, u).post.value.target {
      case OfDay(day) => day == u.posted && Read(u.legacyStatus) == Result.Success(LegacyClaimable)
      case OfCampaign(id) =>
        && id != "" && Read(u.listing).Success?
        && exists c :: FirstOpen(Read(u.listing).value, Claimable, u.now) == Some(c) && c.id == id
    }
  {
    hide Read, FirstOpen;
  }
}
