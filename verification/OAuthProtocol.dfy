/** One pending login across polls, failing writes, crashes, expiry sweeps and restarts. The
    disk record is authenticated: it reads back what was written or is not there. A failed
    write may still have replaced the file. */
module OAuthProtocol {
  import opened Collections
  import opened OAuthRecord

  /** How a checkpoint write ends: before or after the directory sweep without touching the
      record, failing with the old or the new file in place, or committed. */
  datatype WriteOutcome = Refused | RefusedAfterSweep | FailedOld | FailedNew | Committed

  /** Where the poll that holds the login's lock is. */
  datatype Pc = Idle | Locked | TokenHeld | Resolving | ResultHeld | Ready | SavedUnmarked | Marked

  /** exchanges and saves count successes; lostTokens and lostSaves count crashes that hit
      while memory held a token, or a save was done, that the disk did not show. */
  datatype World = World(mem: Option<Record>, disk: Option<Record>, store: bool, pc: Pc, now: int, vanished: bool,
                         exchanges: nat, lostTokens: nat, saves: nat, lostSaves: nat, published: Option<StoredAuth>)

  datatype Step =
    | Tick(to: int)
    | Load
    | Lock(who: Owner)
    | Exchange(g: Grant, at: int)
    | ReuseToken
    | GiveUp
    | PersistToken(o: WriteOutcome)
    | Resolve(looked: string)
    | PersistResult(o: WriteOutcome)
    | Deliver
    | Save
    | MarkSaved
    | PersistSaved(o: WriteOutcome)
    | Crash
    | Prune(removed: bool)
    | SweepDisk
    | Vanish

  function Swept(d: Option<Record>, now: int): Option<Record> {
    if d.Some? && now >= d.value.expires then None else d
  }

  /** The disk after a checkpoint write of r; without a store nothing is written. */
  function Written(store: bool, d: Option<Record>, r: Record, now: int, o: WriteOutcome): Option<Record> {
    if !store then d
    else
      match o
      case Refused => d
      case RefusedAfterSweep => Swept(d, now)
      case FailedOld => Swept(d, now)
      case FailedNew => Some(r)
      case Committed => Some(r)
  }

  /** Without a store every checkpoint succeeds; a malformed record is refused before
      anything else happens. */
  ghost predicate WriteAllowed(env: Env, w: World, o: WriteOutcome) {
    && (!w.store ==> o == Committed)
    && (w.store && w.mem.Some? && !ValidRecord(env, w.mem.value, w.now) ==> o == Refused)
  }

  ghost predicate Enabled(env: Env, w: World, step: Step) {
    match step
    case Tick(to) => w.now <= to
    case Load => w.pc == Idle && w.mem.None? && w.store && w.disk.Some? && w.now < w.disk.value.expires
    case Lock(who) => w.pc == Idle && w.mem.Some? && w.mem.value.owner == who && w.now < w.mem.value.expires
    case Exchange(g, at) =>
      && w.pc == Locked && w.mem.Some? && !HasToken(w.mem.value)
      && (w.store ==> w.disk.Some?) && w.now <= at && GoodGrant(g)
      && (g.JobGrant? ==> w.mem.value.owner == Host)
    case ReuseToken => w.pc == Locked && w.mem.Some? && HasToken(w.mem.value)
    case GiveUp => w.pc != Idle && w.pc != SavedUnmarked
    case PersistToken(o) => w.pc == TokenHeld && w.mem.Some? && WriteAllowed(env, w, o)
    case Resolve(looked) =>
      && w.pc == Resolving && w.mem.Some? && HasToken(w.mem.value)
      && (w.mem.value.result.None? && FileUid(env, GrantUid(w.mem.value)) == "" ==> FileUid(env, looked) != "")
    case PersistResult(o) => w.pc == ResultHeld && w.mem.Some? && w.mem.value.result.Some? && WriteAllowed(env, w, o)
    case Deliver => w.pc == Ready && w.mem.Some? && w.mem.value.owner == Host
    case Save => w.pc == Ready && w.mem.Some? && w.mem.value.owner == Panel && !w.mem.value.saved
    case MarkSaved =>
      && w.mem.Some?
      && (w.pc == SavedUnmarked || (w.pc == Ready && w.mem.value.owner == Panel && w.mem.value.saved))
    case PersistSaved(o) => w.pc == Marked && w.mem.Some? && WriteAllowed(env, w, o)
    case Prune(_) => w.pc == Idle && w.mem.Some? && w.now >= w.mem.value.expires
    case _ => true
  }

  ghost predicate TokenOnDisk(w: World) {
    w.disk.Some? && HasToken(w.disk.value)
  }

  ghost predicate SaveDone(w: World) {
    w.mem.Some? && (w.mem.value.saved || w.pc == SavedUnmarked)
  }

  ghost function Next(env: Env, w: World, step: Step): World
    requires Enabled(env, w, step)
  {
    match step
    case Tick(to) => w.(now := to)
    case Load => w.(mem := w.disk)
    case Lock(_) => w.(pc := Locked)
    case Exchange(g, at) =>
      w.(mem := Some(WithGrant(w.mem.value, g, at)), pc := TokenHeld, now := at, exchanges := w.exchanges + 1)
    case ReuseToken => w.(pc := TokenHeld)
    case GiveUp => w.(pc := Idle)
    case PersistToken(o) =>
      w.(disk := Written(w.store, w.disk, w.mem.value, w.now, o), pc := if o == Committed then Resolving else Idle)
    case Resolve(looked) =>
      var r := w.mem.value;
      w.(mem := Some(if r.result.Some? then r else r.(result := Some(BuildResult(env, r, looked)))), pc := ResultHeld)
    case PersistResult(o) =>
      w.(disk := Written(w.store, w.disk, w.mem.value, w.now, o),
         pc := if o == Committed then Ready else Idle,
         published := if o == Committed then w.mem.value.result else w.published)
    case Deliver => w.(pc := Idle)
    case Save => w.(saves := w.saves + 1, pc := SavedUnmarked)
    case MarkSaved => w.(mem := Some(w.mem.value.(saved := true)), pc := Marked)
    case PersistSaved(o) => w.(disk := Written(w.store, w.disk, w.mem.value, w.now, o), pc := Idle)
    case Crash =>
      w.(mem := None, pc := Idle,
         lostTokens := w.lostTokens + (if w.mem.Some? && HasToken(w.mem.value) && !TokenOnDisk(w) then 1 else 0),
         lostSaves := if SaveDone(w) && !(w.disk.Some? && w.disk.value.saved) then w.lostSaves + 1 else w.lostSaves)
    case Prune(removed) => w.(mem := None, disk := if removed then None else w.disk)
    case SweepDisk => w.(disk := Swept(w.disk, w.now))
    case Vanish => w.(disk := None, vanished := true)
  }

  ghost predicate Legal(env: Env, w: World, steps: seq<Step>)
    decreases |steps|
  {
    steps == [] || (Enabled(env, w, steps[0]) && Legal(env, Next(env, w, steps[0]), steps[1..]))
  }

  ghost function Play(env: Env, w: World, steps: seq<Step>): World
    requires Legal(env, w, steps)
    decreases |steps|
  {
    if steps == [] then w else Play(env, Next(env, w, steps[0]), steps[1..])
  }

  /** After registration: memory holds the new login, and the store, if any, its record. */
  ghost predicate Registered(env: Env, w: World) {
    && w.mem.Some? && !HasToken(w.mem.value) && w.mem.value.result.None? && !w.mem.value.saved
    && ValidRecord(env, w.mem.value, w.now)
    && w.disk == (if w.store then w.mem else None)
    && w.pc == Idle && !w.vanished && w.published.None?
    && w.exchanges == w.lostTokens == w.saves == w.lostSaves == 0
  }

  // ----- the disk never runs ahead of memory

  /** m continues d on the chain none < token < result < saved. */
  ghost predicate Continues(m: Record, d: Record) {
    && m.state == d.state && m.owner == d.owner && m.region == d.region && m.created == d.created
    && m.nonce == d.nonce && m.verifier == d.verifier && m.deviceKey == d.deviceKey
    && d.expires <= m.expires
    && (HasToken(d) ==>
          && m.token == d.token && m.jobToken == d.jobToken && m.pat == d.pat
          && m.tokenAt == d.tokenAt && m.expires == d.expires)
    && (d.result.Some? ==> HasToken(d) && m.result == d.result)
    && (d.saved ==> d.result.Some? && m.saved)
  }

  /** A login before its token keeps its first deadline; afterwards it keeps the capped one. */
  ghost predicate DeadlineOk(r: Record) {
    && r.expires <= r.created + LOGIN_TTL + RESULT_TTL
    && (!HasToken(r) ==> r.expires == r.created + LOGIN_TTL && r.result.None? && !r.saved)
  }

  ghost predicate ChainOk(w: World) {
    && (!w.store ==> w.disk.None?)
    && (w.mem.Some? ==> DeadlineOk(w.mem.value) && w.mem.value.created <= w.now)
    && (w.disk.Some? ==> DeadlineOk(w.disk.value) && w.disk.value.created <= w.now)
    && (w.mem.Some? && w.disk.Some? ==> Continues(w.mem.value, w.disk.value))
    && (w.mem.Some? ==> Continues(w.mem.value, w.mem.value))
    && (w.disk.Some? ==> Continues(w.disk.value, w.disk.value))
    && (w.pc != Idle ==> w.mem.Some?)
    && (w.pc != Idle && w.pc != Locked ==> HasToken(w.mem.value))
    && (w.pc in {ResultHeld, Ready, SavedUnmarked, Marked} ==> w.mem.value.result.Some?)
    && (w.pc == SavedUnmarked ==> w.mem.value.owner == Panel)
    && (w.pc == Marked ==> w.mem.value.saved)
  }

  lemma WrittenChain(w: World, o: WriteOutcome)
    requires ChainOk(w) && w.mem.Some?
    ensures var d := Written(w.store, w.disk, w.mem.value, w.now, o);
      d == w.disk || d.None? || (w.store && d == w.mem)
  {
  }

  lemma KeepsChain(env: Env, w: World, step: Step)
    requires ChainOk(w) && Enabled(env, w, step)
    ensures ChainOk(Next(env, w, step))
  {
    if step.PersistToken? || step.PersistResult? || step.PersistSaved? {
      WrittenChain(w, step.o);
    }
    hide ValidRecord, FileUid, GoodGrant, Written;
  }

  // ----- at most one exchange, plus the crashes that lost a token

  /** Whether some later poll could still exchange the grant. */
  ghost predicate MayExchange(w: World) {
    if w.mem.Some? then !HasToken(w.mem.value)
    else w.disk.Some? && !HasToken(w.disk.value) && w.now < w.disk.value.expires
  }

  ghost predicate ExchangesOk(w: World) {
    w.exchanges <= w.lostTokens + 1 && (MayExchange(w) ==> w.exchanges <= w.lostTokens)
  }

  lemma KeepsExchanges(env: Env, w: World, step: Step)
    requires ChainOk(w) && ExchangesOk(w) && Enabled(env, w, step)
    ensures ExchangesOk(Next(env, w, step))
  {
    if step.PersistToken? || step.PersistResult? || step.PersistSaved? {
      WrittenChain(w, step.o);
    }
    hide ValidRecord, FileUid, GoodGrant, Written;
  }

  // ----- at most one save, plus the crashes that lost its marker

  ghost predicate MaySave(w: World) {
    if w.mem.Some? then !w.mem.value.saved && w.pc != SavedUnmarked
    else w.disk.Some? && !w.disk.value.saved && w.now < w.disk.value.expires
  }

  ghost predicate SavesOk(w: World) {
    && w.saves <= w.lostSaves + 1 && (MaySave(w) ==> w.saves <= w.lostSaves)
    && (w.mem.Some? && w.mem.value.owner == Host ==> w.saves == 0)
    && (w.disk.Some? && w.disk.value.owner == Host ==> w.saves == 0)
  }

  lemma KeepsSaves(env: Env, w: World, step: Step)
    requires ChainOk(w) && SavesOk(w) && Enabled(env, w, step)
    ensures SavesOk(Next(env, w, step))
  {
    if step.PersistToken? || step.PersistResult? || step.PersistSaved? {
      WrittenChain(w, step.o);
    }
    hide ValidRecord, FileUid, GoodGrant, Written;
  }

  // ----- a published result is the only one ever delivered

  ghost predicate ReplayOk(w: World) {
    w.published.Some? ==>
      && (w.mem.Some? ==> w.mem.value.result == w.published)
      && (w.disk.Some? ==> w.disk.value.result == w.published)
  }

  lemma KeepsReplay(env: Env, w: World, step: Step)
    requires ChainOk(w) && ReplayOk(w) && Enabled(env, w, step)
    ensures ReplayOk(Next(env, w, step))
    ensures w.published.Some? ==> Next(env, w, step).published == w.published
  {
    if step.PersistToken? || step.PersistResult? || step.PersistSaved? {
      WrittenChain(w, step.o);
    }
    hide ValidRecord, FileUid, GoodGrant, Written;
  }

  // ----- the durable record precedes the save

  ghost predicate DiskHoldsCredential(w: World) {
    && w.mem.Some? && w.disk.Some? && HasToken(w.disk.value)
    && w.disk.value.token == w.mem.value.token && w.disk.value.jobToken == w.mem.value.jobToken
    && w.disk.value.result.Some? && w.disk.value.result == w.mem.value.result
    && w.disk.value.expires == w.mem.value.expires
  }

  ghost predicate CheckpointOk(w: World) {
    (w.mem.Some? && w.pc in {Ready, SavedUnmarked} && w.store && !w.vanished && w.now < w.mem.value.expires) ==>
      DiskHoldsCredential(w)
  }

  lemma KeepsCheckpoint(env: Env, w: World, step: Step)
    requires ChainOk(w) && CheckpointOk(w) && Enabled(env, w, step)
    ensures CheckpointOk(Next(env, w, step))
  {
    hide ValidRecord, FileUid, GoodGrant;
  }

  // ----- records stay acceptable under the latency and user-id assumptions

  ghost predicate UsableUid(env: Env, r: Record) {
    GrantUid(r) == "" || env.trim(GrantUid(r)) != ""
  }

  /** The exchange returns before the login's overall deadline, with a user id that is absent
      or not blank. */
  ghost predicate Timely(env: Env, w: World, step: Step) {
    step.Exchange? && w.mem.Some? ==>
      && step.at < w.mem.value.created + LOGIN_TTL + RESULT_TTL
      && (step.g.DeviceGrant? ==> step.g.device.userId == "" || env.trim(step.g.device.userId) != "")
  }

  ghost predicate AllTimely(env: Env, w: World, steps: seq<Step>)
    requires Legal(env, w, steps)
    decreases |steps|
  {
    steps == [] || (Timely(env, w, steps[0]) && AllTimely(env, Next(env, w, steps[0]), steps[1..]))
  }

  ghost predicate RecordsOk(env: Env, w: World) {
    RecordOk(env, w.mem, w.now) && RecordOk(env, w.disk, w.now)
  }

  ghost predicate RecordOk(env: Env, r: Option<Record>, now: int) {
    r.Some? ==> ValidRecord(env, r.value, now) && UsableUid(env, r.value)
  }

  /** The three steps that make a new record in memory make an acceptable one. */
  lemma NewRecordOk(env: Env, w: World, step: Step)
    requires ChainOk(w) && RecordsOk(env, w) && Enabled(env, w, step) && Timely(env, w, step)
    requires step.Exchange? || step.Resolve? || step.MarkSaved?
    ensures RecordOk(env, Next(env, w, step).mem, Next(env, w, step).now)
  {
    var r := w.mem.value;
    match step {
      case Exchange(g, at) =>
        ValidLater(env, r, w.now, at);
        GrantValidExactly(env, r, g, at);
      case Resolve(looked) => if r.result.None? { ResultValidExactly(env, r, looked, w.now); }
      case MarkSaved => SavedValidExactly(env, r, w.now);
    }
    hide ValidRecord, FileUid, Written;
  }

  lemma RecordLater(env: Env, r: Option<Record>, now: int, later: int)
    requires RecordOk(env, r, now) && now <= later
    ensures RecordOk(env, r, later)
  {
    if r.Some? { ValidLater(env, r.value, now, later); }
    hide ValidRecord;
  }

  lemma KeepsRecords(env: Env, w: World, step: Step)
    requires ChainOk(w) && RecordsOk(env, w) && Enabled(env, w, step) && Timely(env, w, step)
    ensures RecordsOk(env, Next(env, w, step))
  {
    var after := Next(env, w, step);
    RecordLater(env, w.mem, w.now, after.now);
    RecordLater(env, w.disk, w.now, after.now);
    if step.Exchange? || step.Resolve? || step.MarkSaved? {
      NewRecordOk(env, w, step);
    } else if step.PersistToken? || step.PersistResult? || step.PersistSaved? {
      WrittenChain(w, step.o);
    }
    hide ValidRecord, UsableUid, FileUid, ChainOk, Written, GoodGrant, WriteAllowed;
  }

  /** Under those assumptions no write is ever refused as malformed. */
  lemma {:induction false} RecordsStayValid(env: Env, w: World, steps: seq<Step>)
    requires ChainOk(w) && RecordsOk(env, w) && Legal(env, w, steps) && AllTimely(env, w, steps)
    ensures RecordsOk(env, Play(env, w, steps))
    decreases |steps|
  {
    hide ChainOk, RecordsOk, Enabled, Next, Timely;
    if steps != [] {
      KeepsChain(env, w, steps[0]);
      KeepsRecords(env, w, steps[0]);
      RecordsStayValid(env, Next(env, w, steps[0]), steps[1..]);
    }
  }

  // ----- all runs

  ghost predicate Good(w: World) {
    ChainOk(w) && ExchangesOk(w) && SavesOk(w) && ReplayOk(w) && CheckpointOk(w)
  }

  lemma {:induction false} EveryRunIsGood(env: Env, w: World, steps: seq<Step>)
    requires Good(w) && Legal(env, w, steps)
    ensures Good(Play(env, w, steps))
    ensures w.published.Some? ==> Play(env, w, steps).published == w.published
    decreases |steps|
  {
    hide ChainOk, ExchangesOk, SavesOk, ReplayOk, CheckpointOk, Enabled, Next;
    if steps != [] {
      KeepsChain(env, w, steps[0]);
      KeepsExchanges(env, w, steps[0]);
      KeepsSaves(env, w, steps[0]);
      KeepsReplay(env, w, steps[0]);
      KeepsCheckpoint(env, w, steps[0]);
      EveryRunIsGood(env, Next(env, w, steps[0]), steps[1..]);
    }
  }

  lemma RegisteredIsGood(env: Env, w: World)
    requires Registered(env, w)
    requires w.mem.value.expires == w.mem.value.created + LOGIN_TTL && w.mem.value.created <= w.now
    ensures Good(w)
  {
    hide ValidIdentity;
  }

  lemma {:induction false} NoCrashLosesNothing(env: Env, w: World, steps: seq<Step>)
    requires Legal(env, w, steps) && Crash !in steps
    ensures Play(env, w, steps).lostTokens == w.lostTokens && Play(env, w, steps).lostSaves == w.lostSaves
    decreases |steps|
  {
    if steps != [] {
      var after := Next(env, w, steps[0]);
      assert after.lostTokens == w.lostTokens && after.lostSaves == w.lostSaves;
      hide Next, Enabled;
      NoCrashLosesNothing(env, after, steps[1..]);
    }
  }

  /** Main theorem: over any run with failing writes, restarts and repeated polls, successful
      exchanges are at most one plus the crashes that hit while memory held a token the disk
      did not; likewise saves and their marker. A host-owned login is never saved here, and
      the expiry never passes the overall deadline. */
  lemma AtMostOnce(env: Env, w: World, steps: seq<Step>)
    requires Good(w) && w.exchanges == w.lostTokens == w.saves == w.lostSaves == 0 && Legal(env, w, steps)
    ensures var end := Play(env, w, steps);
      && end.exchanges <= 1 + end.lostTokens && end.saves <= 1 + end.lostSaves
      && (Crash !in steps ==> end.exchanges <= 1 && end.saves <= 1)
      && (end.mem.Some? && end.mem.value.owner == Host ==> end.saves == 0)
      && (end.mem.Some? ==> end.mem.value.expires <= end.mem.value.created + LOGIN_TTL + RESULT_TTL)
      && (end.mem.Some? && end.disk.Some? ==> Continues(end.mem.value, end.disk.value))
  {
    EveryRunIsGood(env, w, steps);
    if Crash !in steps {
      NoCrashLosesNothing(env, w, steps);
    }
    hide Play, Legal;
  }

  /** Main theorem: whenever the panel saves a credential before the record's expiry, and no
      one deleted the record, the durable record already holds the same token and result. */
  lemma SaveAfterCheckpoint(env: Env, w: World, steps: seq<Step>)
    requires Good(w) && Legal(env, w, steps) && Enabled(env, Play(env, w, steps), Save)
    requires Play(env, w, steps).store && !Play(env, w, steps).vanished
    requires Play(env, w, steps).now < Play(env, w, steps).mem.value.expires
    ensures DiskHoldsCredential(Play(env, w, steps))
  {
    EveryRunIsGood(env, w, steps);
    hide Play, Legal;
  }

  /** The expiry condition cannot be dropped: whenever the panel is about to save, the clock
      may first pass the expiry and the janitor's sweep remove the record, and the save then
      goes ahead with no durable record at all. */
  lemma LateSaveIsUnprotected(env: Env, w: World)
    requires ChainOk(w) && Enabled(env, w, Save) && w.now < w.mem.value.expires
    ensures var steps := [Tick(w.mem.value.expires), SweepDisk];
      && Legal(env, w, steps)
      && Enabled(env, Play(env, w, steps), Save)
      && Play(env, w, steps).disk.None?
  {
    var steps := [Tick(w.mem.value.expires), SweepDisk];
    assert steps[1..] == [SweepDisk] && [SweepDisk][1..] == [];
    var w1 := Next(env, w, steps[0]);
    var w2 := Next(env, w1, SweepDisk);
    assert Legal(env, w2, []) && Legal(env, w1, [SweepDisk]);
    assert Play(env, w2, []) == w2 && Play(env, w1, [SweepDisk]) == w2 && Play(env, w, steps) == w2;
    hide Play, Legal, ValidRecord;
  }

  /** The promise of the checkpoints: whatever a crash interrupts, an unexpired record on disk that shows
      a token is taken up again by its owner's next poll as it is, without another exchange. */
  lemma RestartResumes(env: Env, w: World)
    requires ChainOk(w) && w.store && w.disk.Some? && HasToken(w.disk.value) && w.now < w.disk.value.expires
    ensures var steps := [Crash, Load, Lock(w.disk.value.owner), ReuseToken];
      && Legal(env, w, steps)
      && var after := Play(env, w, steps);
         after.mem == w.disk && after.disk == w.disk && after.pc == TokenHeld && after.exchanges == w.exchanges
  {
    var w1 := Next(env, w, Crash);
    var w2 := Next(env, w1, Load);
    var w3 := Next(env, w2, Lock(w.disk.value.owner));
    var w4 := Next(env, w3, ReuseToken);
    PlayFour(env, w, Crash, Load, Lock(w.disk.value.owner), ReuseToken);
  }

  lemma PlayFour(env: Env, w: World, a: Step, b: Step, c: Step, d: Step)
    requires Enabled(env, w, a) && Enabled(env, Next(env, w, a), b)
    requires Enabled(env, Next(env, Next(env, w, a), b), c)
    requires Enabled(env, Next(env, Next(env, Next(env, w, a), b), c), d)
    ensures Legal(env, w, [a, b, c, d])
    ensures Play(env, w, [a, b, c, d]) == Next(env, Next(env, Next(env, Next(env, w, a), b), c), d)
  {
    hide Enabled, Next;
    assert [a, b, c, d][1..] == [b, c, d] && [b, c, d][1..] == [c, d] && [c, d][1..] == [d] && [d][1..] == [];
    var w3 := Next(env, Next(env, Next(env, w, a), b), c);
    assert Legal(env, Next(env, w3, d), []) && Play(env, Next(env, w3, d), []) == Next(env, w3, d);
    assert Legal(env, w3, [d]) && Play(env, w3, [d]) == Next(env, w3, d);
    var w2 := Next(env, Next(env, w, a), b);
    assert Legal(env, w2, [c, d]) && Play(env, w2, [c, d]) == Next(env, w3, d);
    var w1 := Next(env, w, a);
    assert Legal(env, w1, [b, c, d]) && Play(env, w1, [b, c, d]) == Next(env, w3, d);
  }

  /** A login whose stored record was deleted or swept never uses up the one-time grant. */
  lemma LostRecordKeepsGrant(env: Env, w: World, lost: Step, g: Grant, at: int)
    requires w.store && (lost == Vanish || (lost == SweepDisk && w.disk.Some? && w.now >= w.disk.value.expires))
    ensures Enabled(env, w, lost) && !Enabled(env, Next(env, w, lost), Exchange(g, at))
  {
  }

  /** The janitor ends an expired login for good: nobody can poll it again, from memory or from disk,
      whether or not its record could be removed. */
  lemma PrunedIsGone(env: Env, w: World, removed: bool, who: Owner)
    requires ChainOk(w) && Enabled(env, w, Prune(removed))
    ensures var after := Next(env, w, Prune(removed));
      && after.mem == None && (removed ==> after.disk == None) && (!removed ==> after.disk == w.disk)
      && !Enabled(env, after, Load) && !Enabled(env, after, Lock(who))
  {
  }

  /** Main theorem: every delivered result equals the first published one. */
  lemma ReplaysUnchanged(env: Env, w: World, steps: seq<Step>)
    requires Good(w) && w.published.Some? && Legal(env, w, steps)
    ensures Play(env, w, steps).published == w.published
    ensures Play(env, w, steps).mem.Some? ==> Play(env, w, steps).mem.value.result == w.published
  {
    EveryRunIsGood(env, w, steps);
    hide Play, Legal;
  }
}
