/** What one check-in attempt comes to, in the terms of the replies it gets: which listing has
    something to claim, when a claim is posted and for what, and what is concluded from its reply.
    The status classes, the activity window and the order of the listing are written out here. */
module CheckinOutcome {
  import opened Collections
  import opened CheckinAttempt

  // ----- replies to reads

  /** What a reply tells: the body of a success, if it is well formed. */
  function Told<T>(reply: ReadReply<T>): Option<T> {
    if reply.ReadStatus? && 200 <= reply.status < 300 then reply.body else None
  }

  /** Whether the same read may go better later: the connection failed in passing, or the upstream
      timed out, throttled or broke down. */
  predicate Passing<T>(reply: ReadReply<T>) {
    match reply
    case ReadFailed(retryable) => retryable
    case ReadNothing => false
    case ReadStatus(status, _) => status == 408 || status == 429 || 500 <= status
  }

  lemma ReadExactly<T>(reply: ReadReply<T>)
    ensures Read(reply).Success? <==> Told(reply).Some?
    ensures Read(reply).Success? ==> Told(reply) == Some(Read(reply).value)
    ensures Read(reply).Failure? ==> (Read(reply).error.retryable <==> Passing(reply)) && !Read(reply).error.uncertain
    ensures Read(reply).Failure? ==>
      (Read(reply).error.status in {404, 405} <==> reply.ReadStatus? && reply.status in {404, 405})
  {
  }

  /** What kind of failure a status is reported as, for reads and for claims. */
  lemma KindsExactly(status: nat, post: bool)
    ensures StatusError(status, post).None? <==> 200 <= status < 300
    ensures StatusError(status, post).Some? ==>
      var kind := StatusError(status, post).value.kind;
      && (kind == Auth <==> status in {401, 403}) && (kind == NotFound <==> status in {404, 405})
      && (kind == RateLimit <==> status == 429) && (kind == Transport <==> status == 408)
      && (kind == Server <==> status >= 500) && (kind == Protocol <==> post && 300 <= status < 400)
  {
  }

  // ----- the listing

  /** A benefit campaign with that status inside its window; a bound that is not positive is none. */
  predicate InPlay(c: Campaign, status: ClaimStatus, now: int) {
    c.benefit && c.status == status && (c.startAt <= 0 || c.startAt <= now) && (c.endAt <= 0 || now <= c.endAt)
  }

  /** The first of the listing in play with that status. */
  ghost predicate First(cs: seq<Campaign>, status: ClaimStatus, now: int, k: nat) {
    k < |cs| && InPlay(cs[k], status, now) && forall j | 0 <= j < k :: !InPlay(cs[j], status, now)
  }

  ghost predicate SomeInPlay(cs: seq<Campaign>, status: ClaimStatus, now: int) {
    exists c :: c in cs && InPlay(c, status, now)
  }

  lemma {:induction false} FirstExactly(cs: seq<Campaign>, status: ClaimStatus, now: int)
    ensures FirstOpen(cs, status, now).Some? <==> SomeInPlay(cs, status, now)
    ensures forall k: nat | First(cs, status, now, k) :: FirstOpen(cs, status, now) == Some(cs[k])
    ensures FirstOpen(cs, status, now).Some? ==> exists k: nat :: First(cs, status, now, k)
  {
    if cs != [] {
      var rest := cs[1..];
      FirstExactly(rest, status, now);
      assert cs == [cs[0]] + rest;
      if InPlay(cs[0], status, now) {
        assert First(cs, status, now, 0);
      } else {
        forall k: nat | First(cs, status, now, k) ensures k > 0 && First(rest, status, now, k - 1) {}
        if FirstOpen(cs, status, now).Some? {
          var k: nat :| First(rest, status, now, k);
          assert First(cs, status, now, k + 1);
        }
      }
    }
  }

  // ----- what an attempt sees before it claims

  /** The campaign an attempt is offered: the first claimable one of a readable listing. */
  ghost predicate Offered(u: Upstream, c: Campaign) {
    u.campaignContract && Told(u.listing).Some? && exists k: nat :: First(Told(u.listing).value, Claimable, u.now, k)
                                                                    && Told(u.listing).value[k] == c
  }

  /** The listing has nothing to claim, but a campaign in play that was claimed. */
  ghost predicate ListedAsClaimed(u: Upstream) {
    && u.campaignContract && Told(u.listing).Some?
    && !SomeInPlay(Told(u.listing).value, Claimable, u.now) && SomeInPlay(Told(u.listing).value, Claimed, u.now)
  }

  /** The listing has nothing in play at all. */
  ghost predicate NothingListed(u: Upstream) {
    && u.campaignContract && Told(u.listing).Some?
    && !SomeInPlay(Told(u.listing).value, Claimable, u.now) && !SomeInPlay(Told(u.listing).value, Claimed, u.now)
  }

  /** The legacy contract is asked where there is no other, and in the domestic region where the
      listing does not exist. */
  predicate AsksLegacy(u: Upstream) {
    !u.campaignContract || (u.cn && u.listing.ReadStatus? && u.listing.status in {404, 405})
  }

  predicate LegacyShows(u: Upstream, s: LegacyStatus) {
    AsksLegacy(u) && Told(u.legacyStatus) == Some(s)
  }

  /** Neither contract could be read. */
  predicate Unreadable(u: Upstream) {
    if AsksLegacy(u) then Told(u.legacyStatus).None? else Told(u.listing).None?
  }

  /** The observation of an attempt, case by case: these are all the cases, and no two of them hold
      together. */
  lemma ObservedExactly(u: Upstream)
    ensures Observe(u).Failure? <==> Unreadable(u)
    ensures Observe(u).Failure? ==>
      (Observe(u).error.retryable <==> if AsksLegacy(u) then Passing(u.legacyStatus) else Passing(u.listing))
    ensures forall c ::
      Observe(u) == Result.Success(Observation(true, false, Some(c), false)) <==> Offered(u, c)
    ensures Observe(u) == Result.Success(Observation(true, true, None, false)) <==> ListedAsClaimed(u)
    ensures Observe(u) == Result.Success(Observation(false, false, None, false)) <==> NothingListed(u)
    ensures Observe(u) == Result.Success(Observation(true, false, None, true)) <==> LegacyShows(u, LegacyClaimable)
    ensures Observe(u) == Result.Success(Observation(true, true, None, true)) <==> LegacyShows(u, LegacyClaimedToday)
    ensures Unreadable(u) || ListedAsClaimed(u) || NothingListed(u)
            || LegacyShows(u, LegacyClaimable) || LegacyShows(u, LegacyClaimedToday) || exists c :: Offered(u, c)
  {
    ReadExactly(u.listing);
    ReadExactly(u.legacyStatus);
    hide Read, Passing, First, SomeInPlay, FirstOpen;
    if u.campaignContract && Told(u.listing).Some? {
      var cs := Told(u.listing).value;
      FirstExactly(cs, Claimable, u.now);
      FirstExactly(cs, Claimed, u.now);
      if SomeInPlay(cs, Claimable, u.now) {
        var k: nat :| First(cs, Claimable, u.now, k);
        InBounds(cs, Claimable, u.now, k);
        assert Offered(u, cs[k]);
      }
    }
  }

  lemma InBounds(cs: seq<Campaign>, status: ClaimStatus, now: int, k: nat)
    requires First(cs, status, now, k)
    ensures k < |cs|
  {
  }

  // ----- what an attempt does

  /** A confirmation of an earlier run stands: its campaign is the one offered or the listing shows
      none, or the legacy status is open again after a legacy confirmation. */
  ghost predicate Remembers(previous: Previous, u: Upstream) {
    && previous.confirmed
    && (|| OffersId(u, previous.campaignId) || NothingListed(u)
        || (LegacyShows(u, LegacyClaimable) && previous.legacy))
  }

  /** The campaign offered has that id. */
  ghost predicate OffersId(u: Upstream, id: string) {
    exists c :: Offered(u, c) && c.id == id
  }

  /** Exactly when an attempt that is not read-only finds the check-in done, finds nothing to claim,
      posts a claim and for what, or fails before it could post. */
  lemma AttemptExactly(previous: Previous, u: Upstream)
    requires !previous.confirmOnly
    ensures var a := Run(previous, u);
      && (a.post.None? && a.conclusion.confirmed <==>
            ListedAsClaimed(u) || LegacyShows(u, LegacyClaimedToday) || Remembers(previous, u))
      && (a.post.None? && a.conclusion.confirmed ==> a.conclusion.state == Already)
      && (a.post.None? && a.conclusion.state == NoBenefit <==> NothingListed(u) && !previous.confirmed)
      && (forall id :: PostsFor(a, OfCampaign(id)) <==>
            OffersId(u, id) && id != "" && !(previous.confirmed && previous.campaignId == id))
      && (forall day :: PostsFor(a, OfDay(day)) <==>
            day == u.posted && LegacyShows(u, LegacyClaimable) && !(previous.confirmed && previous.legacy))
      && (Unreadable(u) ==>
            && a.post.None? && a.conclusion.state == Failed && !a.conclusion.confirmed && !a.conclusion.confirmOnly
            && (a.conclusion.retryable <==> if AsksLegacy(u) then Passing(u.legacyStatus) else Passing(u.listing)))
      && (a.post.None? && !Unreadable(u) ==> !a.conclusion.retryable)
      && (a.post.None? ==>
            && (a.conclusion.campaignId != "" ==> Remembers(previous, u))
            && (Remembers(previous, u) ==> a.conclusion.campaignId == previous.campaignId)
            && (a.conclusion.hasStatus <==> !Unreadable(u) && !Remembers(previous, u))
            && (a.conclusion.legacy <==>
                  LegacyShows(u, LegacyClaimedToday) || (Remembers(previous, u) && previous.legacy)))
  {
    ObservedExactly(u);
    ReadsAreCertain(u);
    hide Observe, Conclude, Unreadable, ListedAsClaimed, NothingListed, LegacyShows, Offered, Passing, AsksLegacy;
  }

  predicate PostsFor(a: Attempt, t: Target) {
    a.post.Some? && a.post.value.target == t
  }

  // ----- what it concludes from the reply to its claim

  /** The upstream answers that this was claimed before. */
  predicate SaysDuplicate(reply: PostReply) {
    reply.PostStatus? && reply.status == 409 && reply.body.Some? && reply.body.value.already
  }

  /** A success with a body that carries no rejection. */
  predicate Fine(reply: PostReply) {
    && reply.PostStatus? && 200 <= reply.status < 300 && reply.body.Some?
    && reply.body.value.rejection == NotRejected
  }

  /** The reply by itself confirms the claim. */
  predicate Receipted(legacy: bool, reply: PostReply) {
    if legacy then
      && (SaysDuplicate(reply) || (Fine(reply) && (reply.body.value.success.Some? || reply.body.value.already)))
      && reply.body.value.marker
    else Fine(reply) && reply.body.value.claimed
  }

  /** The reply by itself ends the claim: an interim status, a client error other than a timeout or a
      duplicate, a structured rejection, or, for a campaign, an explicit refusal. */
  predicate Denied(legacy: bool, reply: PostReply) {
    && reply.PostStatus?
    && (|| 0 < reply.status < 200
        || (400 <= reply.status < 500 && reply.status != 408 && !SaysDuplicate(reply))
        || (200 <= reply.status < 300 && reply.body.Some? && reply.body.value.rejection != NotRejected)
        || (!legacy && Fine(reply) && !reply.body.value.claimed && reply.body.value.success == Some(false)))
  }

  /** A legacy answer that says no without any mark of an earlier claim: it is checked once. */
  predicate Declined(legacy: bool, reply: PostReply) {
    legacy && Fine(reply) && reply.body.value.success == Some(false) && !reply.body.value.already
  }

  /** The confirming read of the claim could be read. */
  predicate Reread(u: Upstream, legacy: bool) {
    if legacy then Told(u.confirmLegacy).Some? else Told(u.confirmListing).Some?
  }

  /** The confirming read shows the claim. */
  ghost predicate Shown(u: Upstream, t: Target) {
    match t
    case OfDay(_) => Told(u.confirmLegacy) == Some(LegacyClaimedToday)
    case OfCampaign(id) =>
      Told(u.confirmListing).Some? && exists c :: c in Told(u.confirmListing).value && c.id == id && c.status == Claimed
  }

  predicate RereadPasses(u: Upstream, legacy: bool) {
    if legacy then Passing(u.confirmLegacy) else Passing(u.confirmListing)
  }

  /** The conclusion of an attempt that posted a claim, field by field: at once from a receipt or a
      denial, otherwise from one confirming read, and open when that does not show the claim. */
  lemma ClaimExactly(previous: Previous, u: Upstream)
    requires Run(previous, u).post.Some?
    ensures var a := Run(previous, u);
      var t, c := a.post.value.target, a.conclusion;
      var legacy := t.OfDay?;
      && (a.read.Some? <==> !Receipted(legacy, u.post) && !Denied(legacy, u.post))
      && (c.confirmed <==> Receipted(legacy, u.post) || (!Denied(legacy, u.post) && Shown(u, t)))
      && (c.confirmOnly <==> !c.confirmed && !Denied(legacy, u.post) && !Declined(legacy, u.post))
      && c.campaignId == (if legacy then "" else t.id)
      && c.state == (if c.confirmed then ConfirmedState(legacy, u.post)
                     else if Denied(legacy, u.post) || Declined(legacy, u.post) || !Reread(u, legacy) then Failed
                     else PendingConfirmation)
      && (c.retryable <==> !c.confirmed && Retriable(u, legacy))
      && (c.legacy <==> legacy && !Receipted(legacy, u.post))
      && (c.hasStatus <==> Receipted(legacy, u.post) || Denied(legacy, u.post) || Reread(u, legacy))
  {
    var t := Run(previous, u).post.value.target;
    var legacy, id := t.OfDay?, if t.OfDay? then "" else t.id;
    ReplyExactly(legacy, u.post);
    assert Run(previous, u).conclusion == Conclude(u, legacy, id, ReceiptOf(legacy, u.post), ErrorOf(legacy, u.post));
    hide Run, Observe, LegacyClaim, CampaignClaim, Passing, Receipted, Denied, Declined, Conclude;
    ConcludedExactly(u, legacy, id);
    ReadBackExactly(previous, u);
  }

  function ReceiptOf(legacy: bool, reply: PostReply): Receipt {
    if legacy then LegacyClaim(reply).0 else CampaignClaim(reply).0
  }

  function ErrorOf(legacy: bool, reply: PostReply): Option<RequestError> {
    if legacy then LegacyClaim(reply).1 else CampaignClaim(reply).1
  }

  /** The marks and the error the code takes from a reply, in these terms. */
  lemma ReplyExactly(legacy: bool, reply: PostReply)
    ensures var receipt, error := ReceiptOf(legacy, reply), ErrorOf(legacy, reply);
      && (receipt.confirmed && error.None? <==> Receipted(legacy, reply))
      && (error.Some? && !error.value.uncertain <==> Denied(legacy, reply))
      && (Denied(legacy, reply) ==> (error.value.retryable <==> reply.status == 429))
      && (receipt.confirmed && error.None? ==> receipt.replayed == reply.body.value.replayed)
      && (!Receipted(legacy, reply) ==>
            (receipt.already <==> SaysDuplicate(reply) || (legacy && Fine(reply) && reply.body.value.already)))
      && (error.None? && !receipt.confirmed && receipt.refused && !receipt.already <==>
            Declined(legacy, reply) && !Receipted(legacy, reply))
      && (error.Some? && error.value.uncertain ==>
            (error.value.retryable <==> (reply.PostFailed? ==> reply.retryable)))
      && (error.None? ==> reply.PostStatus?)
  {
  }

  lemma ReadBackExactly(previous: Previous, u: Upstream)
    requires Run(previous, u).post.Some?
    ensures var legacy := Run(previous, u).post.value.target.OfDay?;
      Run(previous, u).read.Some? <==> ReadsBack(ReceiptOf(legacy, u.post), ErrorOf(legacy, u.post))
  {
    hide Observe, Conclude, LegacyClaim, CampaignClaim;
  }

  /** The conclusion from a receipt, an error and the confirming read. */
  lemma ConcludedExactly(u: Upstream, legacy: bool, id: string)
    ensures var receipt, error := ReceiptOf(legacy, u.post), ErrorOf(legacy, u.post);
      var c := Conclude(u, legacy, id, receipt, error);
      var shown := Shown(u, if legacy then OfDay(u.ended) else OfCampaign(id));
      && (c.confirmed <==> Receipted(legacy, u.post) || (!Denied(legacy, u.post) && shown))
      && (c.confirmOnly <==> !c.confirmed && !Denied(legacy, u.post) && !Declined(legacy, u.post))
      && c.campaignId == id
      && c.state == (if c.confirmed then ConfirmedState(legacy, u.post)
                     else if Denied(legacy, u.post) || Declined(legacy, u.post) || !Reread(u, legacy) then Failed
                     else PendingConfirmation)
      && (c.retryable <==> !c.confirmed && Retriable(u, legacy))
      && (c.legacy <==> legacy && !Receipted(legacy, u.post))
      && (c.hasStatus <==> Receipted(legacy, u.post) || Denied(legacy, u.post) || Reread(u, legacy))
  {
    ReplyExactly(legacy, u.post);
    hide LegacyClaim, CampaignClaim, ReceiptOf, ErrorOf;
    ReadExactly(u.confirmListing);
    ReadExactly(u.confirmLegacy);
    hide Read, Passing, Receipted, Denied, Declined, Fine, SaysDuplicate;
  }

  /** A confirmed claim was new unless the reply says that it was claimed before. */
  function ConfirmedState(legacy: bool, reply: PostReply): RunState {
    if Receipted(legacy, reply) then (if reply.body.value.replayed then Already else Succeeded)
    else if SaysDuplicate(reply) || (legacy && Fine(reply) && reply.body.value.already) then Already
    else Succeeded
  }

  /** Throttled, or open and worth another read. */
  predicate Retriable(u: Upstream, legacy: bool) {
    if Denied(legacy, u.post) then u.post.status == 429
    else
      && !Declined(legacy, u.post) && (Reread(u, legacy) || RereadPasses(u, legacy))
      && (u.post.PostFailed? ==> u.post.retryable)
  }

  /** A read-only attempt: it posts nothing, is confirmed exactly when the read shows the claim the
      record names, and otherwise stays read-only. */
  lemma RecheckExactly(previous: Previous, u: Upstream)
    requires previous.confirmOnly
    ensures var a, legacy := Run(previous, u), previous.legacy;
      var c, shown := a.conclusion, Shown(u, if legacy then OfDay(u.ended) else OfCampaign(previous.campaignId));
      && a.post.None? && (c.confirmed <==> shown) && (c.confirmOnly <==> !shown)
      && c.state == (if shown then Already else if Reread(u, legacy) then PendingConfirmation else Failed)
      && (c.retryable <==> !shown && (Reread(u, legacy) || RereadPasses(u, legacy)))
      && (Reread(u, legacy) ==> c.legacy == legacy && c.campaignId == previous.campaignId)
  {
    ReadExactly(u.confirmListing);
    ReadExactly(u.confirmLegacy);
    hide Read, Passing;
  }
}
