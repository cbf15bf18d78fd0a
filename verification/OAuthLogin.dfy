/** The polling code of one pending login, in place: token exchange, checkpoints, credential,
    panel save. Each method is proved to be a run of the protocol's steps, so everything shown
    about all runs holds of it. */
module OAuthLogin {
  import opened Collections
  import opened OAuthRecord
  import opened OAuthProtocol

  datatype ExchangeReply = StoreUnreadable | ExchangeError | StillPending | Granted(g: Grant)

  /** What the surroundings answer during one poll. */
  datatype Answers = Answers(exchange: ExchangeReply, at: int, tokenWrite: WriteOutcome, identity: Option<string>,
                             resultWrite: WriteOutcome, saveOk: bool, savedWrite: WriteOutcome)

  datatype Advanced = Waiting | Failed | Done

  /** From one world to another by the given legal steps. */
  ghost predicate Run(env: Env, from: World, steps: seq<Step>, to: World) {
    Legal(env, from, steps) && Play(env, from, steps) == to
  }

  lemma {:induction false} RunSnoc(env: Env, from: World, steps: seq<Step>, to: World, step: Step)
    requires Run(env, from, steps, to) && Enabled(env, to, step)
    ensures Run(env, from, steps + [step], Next(env, to, step))
    decreases |steps|
  {
    hide Enabled, Next;
    if steps == [] {
      assert [] + [step] == [step] && [step][1..] == [];
      var after := Next(env, from, step);
      assert Legal(env, after, []) && Play(env, after, []) == after;
      assert Legal(env, from, [step]) && Play(env, from, [step]) == after;
    } else {
      RunSnoc(env, Next(env, from, steps[0]), steps[1..], to, step);
      assert (steps + [step])[0] == steps[0] && (steps + [step])[1..] == steps[1..] + [step];
    }
  }

  // ----- what the answers of one poll lead to, said without the code

  /** The login's record: in memory, or on disk until it expires. */
  function Found(store: bool, mem: Option<Record>, disk: Option<Record>, now: int): Option<Record> {
    if mem.Some? then mem
    else if store && disk.Some? && now < disk.value.expires then disk
    else None
  }

  /** Only its owner polls a login, and only before it expires. */
  predicate Polls(r: Option<Record>, who: Owner, now: int) {
    r.Some? && r.value.owner == who && now < r.value.expires
  }

  /** The user has not authorized yet: the exchange says so or returns no access token. */
  predicate Pends(reply: ExchangeReply) {
    reply.StillPending? || (reply.Granted? && reply.g.DeviceGrant? && reply.g.device.access == "")
  }

  /** A complete token pair, and for a job token a PAT, which only the host can supply. */
  predicate Usable(g: Grant, owner: Owner) {
    match g
    case DeviceGrant(d) => d.access != "" && d.refresh != ""
    case JobGrant(j, pat) => j.access != "" && j.refresh != "" && |pat| >= 3 && pat[..3] == "pt-" && owner == Host
  }

  /** The record with its token and the time of it: the token it has, or a usable grant, asked for
      only while the stored record, if there is a store, is still there. */
  function WithToken(r: Record, store: bool, disk: Option<Record>, now: int, a: Answers)
    : (held: Option<(Record, int)>)
    ensures held.Some? ==> held.value.0.owner == r.owner && HasToken(held.value.0)
  {
    if HasToken(r) then Some((r, now))
    else if (store ==> disk.Some?) && a.exchange.Granted? && Usable(a.exchange.g, r.owner) then
      Some((WithGrant(r, a.exchange.g, a.at), a.at))
    else None
  }

  /** The record with its credential: the one it has, or one for the grant's user, or for the user
      the upstream reports when the grant names none. */
  function WithResult(env: Env, r: Record, a: Answers): (built: Option<Record>)
    requires HasToken(r)
    ensures built.Some? ==> built.value.owner == r.owner && built.value.result.Some?
  {
    var named := if r.token.Some? then r.token.value.userId else "";
    if r.result.Some? then Some(r)
    else if env.trim(named) != "" then Some(r.(result := Some(BuildResult(env, r, ""))))
    else if a.identity.Some? && env.trim(a.identity.value) != "" then
      Some(r.(result := Some(BuildResult(env, r, a.identity.value))))
    else None
  }

  /** A checkpoint succeeds without a store, or for an acceptable record whose write commits. */
  predicate Checkpointed(env: Env, store: bool, r: Record, now: int, o: WriteOutcome) {
    store ==> ValidRecord(env, r, now) && o == Committed
  }

  /** The record of a login that is ready for its owner, and the time at which it is: token,
      checkpoint, credential, checkpoint. */
  function ReadyRecord(env: Env, store: bool, r: Record, disk: Option<Record>, now: int, a: Answers)
    : (ready: Option<(Record, int)>)
    ensures ready.Some? ==> ready.value.0.owner == r.owner && ready.value.0.result.Some?
  {
    var held := WithToken(r, store, disk, now, a);
    if held.None? then None else Completed(env, store, held.value.0, held.value.1, a)
  }

  function Completed(env: Env, store: bool, r: Record, now: int, a: Answers): (ready: Option<(Record, int)>)
    requires HasToken(r)
    ensures ready.Some? ==> ready.value.0.owner == r.owner && ready.value.0.result.Some?
  {
    if !Checkpointed(env, store, r, now, a.tokenWrite) then None else Built(env, store, r, now, a)
  }

  function Built(env: Env, store: bool, r: Record, now: int, a: Answers): (ready: Option<(Record, int)>)
    requires HasToken(r)
    ensures ready.Some? ==> ready.value.0.owner == r.owner && ready.value.0.result.Some?
  {
    var built := WithResult(env, r, a);
    if built.None? || !Checkpointed(env, store, built.value, now, a.resultWrite) then None
    else Some((built.value, now))
  }

  /** What a poll of that owner leads to: None when it may not poll, nothing came of it, or it must
      wait. */
  function PollOf(env: Env, store: bool, mem: Option<Record>, disk: Option<Record>, now: int, who: Owner, a: Answers)
    : (ready: Option<(Record, int)>)
    ensures ready.Some? ==> ready.value.0.owner == who && ready.value.0.result.Some?
  {
    var r := Found(store, mem, disk, now);
    if Polls(r, who, now) then ReadyRecord(env, store, r.value, disk, now, a) else None
  }

  /** The poll must wait: it has no token, its stored record is there, and the user has not
      authorized yet. */
  predicate Waits(r: Record, store: bool, disk: Option<Record>, a: Answers) {
    !HasToken(r) && (store ==> disk.Some?) && Pends(a.exchange)
  }

  /** A login whose user authorizes in time completes in its owner's next poll, with or without a
      store, and with one also after a restart: nothing but a failing write, a missing identity or a
      lost record can keep it from its credential. */
  lemma OrdinaryLoginCompletes(env: Env, store: bool, r: Record, disk: Option<Record>, now: int, a: Answers)
    requires ValidRecord(env, r, now) && !HasToken(r) && (store ==> disk.Some?) && env.trim("") == ""
    requires now < r.expires && r.created <= now <= a.at < r.created + 1_200_000_000_000
    requires a.exchange.Granted? && Usable(a.exchange.g, r.owner)
    requires var named := Named(a.exchange.g);
      env.trim(named) == "" ==> named == "" && a.identity.Some? && env.trim(a.identity.value) != ""
    requires a.tokenWrite == Committed && a.resultWrite == Committed && a.savedWrite == Committed
    ensures var ready, named := ReadyRecord(env, store, r, disk, now, a), Named(a.exchange.g);
      && ready.Some? && ready.value.1 == a.at
      && ready.value.0 == WithGrant(r, a.exchange.g, a.at).(result := ready.value.0.result)
      && ready.value.0.result.value.uid == (if env.trim(named) == "" then a.identity.value else named)
      && (r.owner == Panel ==> Checkpointed(env, store, ready.value.0.(saved := true), a.at, a.savedWrite))
      && PollOf(env, store, Some(r), disk, now, r.owner, a) == ready
      && (store && disk == Some(r) ==> PollOf(env, store, None, disk, now, r.owner, a) == ready)
  {
    var held := WithGrant(r, a.exchange.g, a.at);
    var named := Named(a.exchange.g);
    ValidLater(env, r, now, a.at);
    GrantValidExactly(env, r, a.exchange.g, a.at);
    FileUidExists(env, named);
    if a.identity.Some? { FileUidExists(env, a.identity.value); }
    var looked := if env.trim(named) != "" then "" else a.identity.value;
    ResultValidExactly(env, held, looked, a.at);
    SavedValidExactly(env, held.(result := Some(BuildResult(env, held, looked))), a.at);
    hide ValidRecord, FileUid;
  }

  /** The user a grant names. */
  function Named(g: Grant): string {
    if g.DeviceGrant? then g.device.userId else ""
  }

  class Login {
    const env: Env
    const store: bool
    var mem: Option<Record>
    var disk: Option<Record>
    var now: int
    ghost var world: World

    ghost predicate Valid()
      reads this
    {
      world.mem == mem && world.disk == disk && world.store == store && world.now == now && ChainOk(world)
    }

    constructor (env: Env, store: bool, record: Record, now: int)
      requires ValidRecord(env, record, now) && !HasToken(record)
      requires record.expires == record.created + LOGIN_TTL && record.created <= now
      ensures Valid() && Good(world) && world.exchanges == world.lostTokens == world.saves == world.lostSaves == 0
      ensures mem == Some(record) && this.env == env && this.store == store
    {
      this.env := env;
      this.store := store;
      this.now := now;
      mem := Some(record);
      disk := if store then Some(record) else None;
      world := World(Some(record), if store then Some(record) else None, store, Idle, now, false, 0, 0, 0, 0, None);
      new;
      RegisteredIsGood(env, world);
    }

    ghost method Take(from: World, steps: seq<Step>, step: Step) returns (more: seq<Step>)
      requires Run(env, from, steps, world) && Enabled(env, world, step) && ChainOk(world)
      modifies this`world
      ensures world == Next(env, old(world), step) && more == steps + [step] && Run(env, from, more, world)
      ensures ChainOk(world)
    {
      RunSnoc(env, from, steps, world, step);
      KeepsChain(env, world, step);
      world := Next(env, world, step);
      more := steps + [step];
    }

    /** A checkpoint write: a malformed record is refused first, then expired records are
        swept, then the file is replaced. */
    method Persist(o: WriteOutcome) returns (ok: bool, ghost actual: WriteOutcome)
      requires Valid() && mem.Some?
      modifies this`disk
      ensures WriteAllowed(env, world, actual)
      ensures disk == Written(store, old(disk), mem.value, now, actual)
      ensures ok <==> actual == Committed
      ensures store && ValidRecord(env, mem.value, now) ==> actual == o
    {
      actual := Committed;
      ok := true;
      if store {
        if !ValidRecord(env, mem.value, now) {
          actual := Refused;
          return false, actual;
        }
        actual := o;
        ok := o == Committed;
        if o != Refused && disk.Some? && now >= disk.value.expires {
          disk := None;
        }
        if o == FailedNew || o == Committed {
          disk := mem;
        }
      }
    }

    /** Gets the login's context, from memory or from the disk record, for its owner. */
    method LockLogin(who: Owner) returns (ok: bool, ghost steps: seq<Step>)
      requires Valid() && world.pc == Idle
      modifies this
      ensures Valid() && Run(env, old(world), steps, world) && world.saves == old(world).saves && now == old(now)
      ensures ok <==> Polls(Found(store, old(mem), old(disk), now), who, now)
      ensures ok ==> world.pc == Locked && mem.Some? && mem.value.owner == who
      ensures !ok ==> world.pc == Idle
      ensures mem == Found(store, old(mem), old(disk), now) && disk == old(disk)
    {
      hide Run, ChainOk, ValidRecord;
      ghost var from := world;
      steps := [];
      assert Run(env, from, steps, world) by { RunNothing(env, from); }
      if mem.None? {
        if !store || disk.None? || now >= disk.value.expires { return false, steps; }
        steps := Take(from, steps, Load);
        mem := disk;
      }
      if mem.value.owner != who || now >= mem.value.expires { return false, steps; }
      steps := Take(from, steps, Step.Lock(who));
      ok := true;
    }

    static lemma RunNothing(env: Env, from: World)
      ensures Run(env, from, [], from)
    {
    }

    /** Advances a locked login: exchange once, checkpoint the token, build the credential,
        checkpoint it. */
    method Advance(a: Answers, ghost from: World, ghost before: seq<Step>) returns (r: Advanced, ghost steps: seq<Step>)
      requires Valid() && mem.Some? && world.pc == Locked && now <= a.at && Run(env, from, before, world)
      modifies this
      ensures Valid() && Run(env, from, steps, world) && world.saves == old(world).saves
      ensures r == Waiting <==> Waits(old(mem.value), store, old(disk), a)
      ensures r == Done <==> ReadyRecord(env, store, old(mem.value), old(disk), old(now), a).Some?
      ensures r == Done ==> ReadyFor(ReadyRecord(env, store, old(mem.value), old(disk), old(now), a))
      ensures mem.Some? && (WithToken(old(mem.value), store, old(disk), old(now), a).Some? ==> HasToken(mem.value))
      ensures r != Done ==> world.pc == Idle
    {
      hide Run, ValidRecord, Written, Completed;
      steps := before;
      if !HasToken(mem.value) {
        if store && disk.None? {
          steps := Take(from, steps, GiveUp);
          return Failed, steps;
        }
        var open := a.exchange.Granted? && a.exchange.g.DeviceGrant? && a.exchange.g.device.access == "";
        if a.exchange.StillPending? || open {
          steps := Take(from, steps, GiveUp);
          return Waiting, steps;
        }
        if !a.exchange.Granted? || !GoodGrant(a.exchange.g) || (a.exchange.g.JobGrant? && mem.value.owner != Host) {
          steps := Take(from, steps, GiveUp);
          return Failed, steps;
        }
        steps := Take(from, steps, Exchange(a.exchange.g, a.at));
        mem := Some(WithGrant(mem.value, a.exchange.g, a.at));
        now := a.at;
      } else {
        steps := Take(from, steps, ReuseToken);
      }
      r, steps := Complete(a, from, steps);
    }

    /** The login holds that record at that time, published, with the lock still taken. */
    ghost predicate ReadyFor(ready: Option<(Record, int)>)
      reads this
    {
      && ready.Some? && mem == Some(ready.value.0) && now == ready.value.1
      && world.pc == Ready && mem.value.result.Some? && world.published == mem.value.result
    }

    method Complete(a: Answers, ghost from: World, ghost before: seq<Step>)
      returns (r: Advanced, ghost steps: seq<Step>)
      requires Valid() && mem.Some? && world.pc == TokenHeld && Run(env, from, before, world)
      modifies this
      ensures Valid() && Run(env, from, steps, world) && world.saves == old(world).saves && r != Waiting
      ensures r == Done <==> Completed(env, store, old(mem.value), old(now), a).Some?
      ensures r == Done ==> ReadyFor(Completed(env, store, old(mem.value), old(now), a))
      ensures mem.Some? && HasToken(mem.value)
      ensures r != Done ==> world.pc == Idle
    {
      hide Run, ValidRecord, Written, Built;
      r, steps := Failed, before;
      ghost var o;
      var ok;
      ok, o := Persist(a.tokenWrite);
      steps := Take(from, steps, PersistToken(o));
      if !ok { return; }
      r, steps := Build(a, from, steps);
    }

    /** The user of the credential, when it has to be looked up at all: only for a grant that names
        none. */
    method Identify(a: Answers) returns (looked: Option<string>)
      requires mem.Some? && HasToken(mem.value)
      ensures looked.Some? <==> WithResult(env, mem.value, a).Some?
      ensures mem.value.result.Some? ==> WithResult(env, mem.value, a) == mem
      ensures looked.Some? && mem.value.result.None? ==>
        && WithResult(env, mem.value, a).value
           == mem.value.(result := Some(BuildResult(env, mem.value, looked.value)))
        && (FileUid(env, GrantUid(mem.value)) == "" ==> FileUid(env, looked.value) != "")
    {
      FileUidExists(env, GrantUid(mem.value));
      if a.identity.Some? { FileUidExists(env, a.identity.value); }
      hide FileUid, BuildResult;
      looked := Some("");
      if mem.value.result.None? && FileUid(env, GrantUid(mem.value)) == "" {
        if a.identity.None? || FileUid(env, a.identity.value) == "" { return None; }
        looked := a.identity;
      }
    }

    method Build(a: Answers, ghost from: World, ghost before: seq<Step>) returns (r: Advanced, ghost steps: seq<Step>)
      requires Valid() && mem.Some? && world.pc == Resolving && Run(env, from, before, world)
      modifies this
      ensures Valid() && Run(env, from, steps, world) && world.saves == old(world).saves && r != Waiting
      ensures r == Done <==> Built(env, store, old(mem.value), old(now), a).Some?
      ensures r == Done ==> ReadyFor(Built(env, store, old(mem.value), old(now), a))
      ensures mem.Some? && HasToken(mem.value)
      ensures r != Done ==> world.pc == Idle
    {
      hide Run, ValidRecord, Written, FileUid, WithResult, BuildResult, Checkpointed;
      r, steps := Failed, before;
      var found := Identify(a);
      if found.None? {
        steps := Take(from, steps, GiveUp);
        return;
      }
      var looked := found.value;
      steps := Take(from, steps, Step.Resolve(looked));
      if mem.value.result.None? {
        mem := Some(mem.value.(result := Some(BuildResult(env, mem.value, looked))));
      }
      r, steps := Publish(a, from, steps);
    }

    /** The second checkpoint: with it the result is published. */
    method Publish(a: Answers, ghost from: World, ghost before: seq<Step>) returns (r: Advanced, ghost steps: seq<Step>)
      requires Valid() && mem.Some? && world.pc == ResultHeld && Run(env, from, before, world)
      modifies this
      ensures Valid() && Run(env, from, steps, world) && world.saves == old(world).saves && r != Waiting
      ensures r == Done <==> Checkpointed(env, store, old(mem.value), old(now), a.resultWrite)
      ensures r == Done ==> ReadyFor(Some((old(mem.value), old(now))))
      ensures mem == old(mem)
      ensures r != Done ==> world.pc == Idle
    {
      hide Run, ValidRecord, Written;
      r, steps := Failed, before;
      ghost var o;
      var ok;
      ok, o := Persist(a.resultWrite);
      steps := Take(from, steps, PersistResult(o));
      if ok { r := Done; }
    }

    /** The panel's poll: only its own logins; the save comes after both checkpoints, and only while
        memory does not know of an earlier one. It saves exactly when it gets there and the host
        takes the credential, and it answers well exactly when the credential is saved, now or
        before, and the marker's checkpoint succeeds. */
    method PollPanel(a: Answers) returns (r: Advanced, saved: bool, ghost steps: seq<Step>)
      requires Valid() && world.pc == Idle && now <= a.at
      modifies this
      ensures Valid() && Run(env, old(world), steps, world) && world.pc == Idle
      ensures r == Waiting <==>
        var found := Found(store, old(mem), old(disk), old(now));
        Polls(found, Panel, old(now)) && Waits(found.value, store, old(disk), a)
      ensures var ready := PollOf(env, store, old(mem), old(disk), old(now), Panel, a);
        && (saved <==> ready.Some? && !ready.value.0.saved && a.saveOk)
        && (ready.Some? && (ready.value.0.saved || a.saveOk) ==> mem == Some(ready.value.0.(saved := true)))
        && (ready.Some? && !ready.value.0.saved && !a.saveOk ==> mem == Some(ready.value.0))
        && (r == Done <==>
              && ready.Some? && (ready.value.0.saved || a.saveOk)
              && Checkpointed(env, store, ready.value.0.(saved := true), ready.value.1, a.savedWrite))
      ensures world.saves == old(world).saves + if saved then 1 else 0
    {
      hide Run, ValidRecord, Written, ReadyRecord, Waits, Checkpointed, Found, Polls;
      ghost var from := world;
      r, saved := Failed, false;
      var locked;
      locked, steps := LockLogin(Panel);
      if !locked { return; }
      r, steps := Advance(a, from, steps);
      if r != Done { return; }
      r, saved, steps := SaveReady(a, from, steps);
    }

    /** Saves a ready login unless that was done, and checkpoints the marker. */
    method SaveReady(a: Answers, ghost from: World, ghost before: seq<Step>)
      returns (r: Advanced, saved: bool, ghost steps: seq<Step>)
      requires Valid() && mem.Some? && mem.value.owner == Panel && world.pc == Ready && Run(env, from, before, world)
      modifies this
      ensures Valid() && Run(env, from, steps, world) && world.pc == Idle
      ensures saved <==> !old(mem.value.saved) && a.saveOk
      ensures mem == Some(if old(mem.value.saved) || a.saveOk then old(mem.value).(saved := true) else old(mem.value))
      ensures r == Done <==>
        && (old(mem.value.saved) || a.saveOk)
        && Checkpointed(env, store, old(mem.value).(saved := true), old(now), a.savedWrite)
      ensures r != Waiting && world.saves == old(world).saves + if saved then 1 else 0
    {
      hide Run, ValidRecord, Written;
      r, saved, steps := Failed, false, before;
      if !mem.value.saved {
        if !a.saveOk {
          steps := Take(from, steps, GiveUp);
          return;
        }
        steps := Take(from, steps, Save);
        saved := true;
      }
      steps := Take(from, steps, MarkSaved);
      mem := Some(mem.value.(saved := true));
      ghost var o;
      var ok;
      ok, o := Persist(a.savedWrite);
      steps := Take(from, steps, PersistSaved(o));
      if ok { r := Done; }
    }

    /** The host's poll: returns the credential exactly when the login is ready, and never saves it. */
    method PollHost(a: Answers) returns (r: Advanced, auth: Option<StoredAuth>, ghost steps: seq<Step>)
      requires Valid() && world.pc == Idle && now <= a.at
      modifies this
      ensures Valid() && Run(env, old(world), steps, world) && world.pc == Idle
      ensures r == Waiting <==>
        var found := Found(store, old(mem), old(disk), old(now));
        Polls(found, Host, old(now)) && Waits(found.value, store, old(disk), a)
      ensures var ready := PollOf(env, store, old(mem), old(disk), old(now), Host, a);
        && (r == Done <==> ready.Some?) && (auth.Some? <==> ready.Some?)
        && (ready.Some? ==> auth == ready.value.0.result && world.published == auth)
      ensures world.saves == old(world).saves
    {
      hide Run, ValidRecord, Written, ReadyRecord, Waits, Found, Polls;
      ghost var from := world;
      r, auth := Failed, None;
      var locked;
      locked, steps := LockLogin(Host);
      if !locked { return; }
      r, steps := Advance(a, from, steps);
      if r != Done { return; }
      auth := mem.value.result;
      steps := Take(from, steps, Deliver);
    }
  }
}
