/** ResetPassword, the client of the claim protocol: what one request does to the
    store, and what holds over every run of concurrent requests. */
module PasswordReset {
  import opened VerificationSpec
  import opened VerificationMap
  import opened RedisVerification

  // ----- one request, undisturbed -----

  datatype Outcome = LinkInvalid | MailFailed | ResetFailed | ResetDone

  /** The handler against the in-process store. mailed says whether the mail with
      the new password went out, committed whether the password was stored, and
      failed whether the update reported an error, before or after its commit. */
  method ResetPassword(m: CodeMap, k: Key, c: Code, now: int, mailed: bool, committed: bool, failed: bool)
    returns (outcome: Outcome, changed: bool)
    requires !committed ==> failed
    modifies m
    ensures outcome == LinkInvalid <==> !Usable(View(old(m.entries), now), k, c)
    ensures changed <==> outcome != LinkInvalid && mailed && committed
    ensures outcome == ResetDone <==> changed && !failed
    ensures outcome == MailFailed <==> Usable(View(old(m.entries), now), k, c) && !mailed
    ensures outcome == ResetFailed <==> Usable(View(old(m.entries), now), k, c) && mailed && failed
    ensures View(m.entries, now) ==
            if changed then Delete(View(old(m.entries), now), k) else View(old(m.entries), now)
    ensures changed ==> !Usable(View(m.entries, now), k, c)
  {
    changed := false;
    var claimed := m.ClaimCode(k, c, now);
    if !claimed {
      return LinkInvalid, false;
    }
    ClaimThenRelease(View(old(m.entries), now), k, c);
    if !mailed {
      m.ReleaseClaim(k, c, now);
      return MailFailed, false;
    }
    if committed {
      changed := true;
      m.DeleteKey(k, now);
    } else {
      m.ReleaseClaim(k, c, now);
    }
    outcome := if failed then ResetFailed else ResetDone;
  }

  // ----- concurrent requests -----

  /** Where a request is; a crash puts it back to Away without any further step. */
  datatype Handler =
    | Away
    | Mailing(k: Key, c: Code)
    | Updating(k: Key, c: Code)
    | Releasing(k: Key, c: Code)
    | Consuming(k: Key, c: Code)

  datatype Requests = Requests(
    handlers: map<Pid, Handler>,
    issued: set<(Key, Code)>,
    commits: map<(Key, Code), nat>)

  datatype Event =
    | StoreEvent(p: Pid, act: Label)
    | MailResult(p: Pid, sent: bool)
    | UpdateResult(p: Pid, committed: bool)
    | Crash(p: Pid)

  /** Keys of the reset purpose; codes of other purposes live under other keys. */
  predicate ResetKey(k: Key) {
    "verification:r:" <= k
  }

  function HandlerOf(r: Requests, p: Pid): Handler {
    if p in r.handlers then r.handlers[p] else Away
  }

  function Commits(r: Requests, k: Key, c: Code): nat {
    if (k, c) in r.commits then r.commits[(k, c)] else 0
  }

  function SetHandler(r: Requests, p: Pid, h: Handler): Requests {
    r.(handlers := r.handlers[p := h])
  }

  /** A reset token is a fresh UUID: it has not been issued for the key before. */
  predicate MayIssue(r: Requests, k: Key, c: Code) {
    ResetKey(k) ==> (k, c) !in r.issued
  }

  /** The calls a request makes at each point of its run. */
  predicate Permitted(r: Requests, e: Event) {
    match e
    case MailResult(p, _) => HandlerOf(r, p).Mailing?
    case UpdateResult(p, _) => HandlerOf(r, p).Updating?
    case Crash(_) => true
    case StoreEvent(p, act) =>
      match act
      case Registered(k, c, _) => MayIssue(r, k, c)
      case RegisterError(k, c, _, _) => MayIssue(r, k, c)
      case Claimed(k, _, _) => ResetKey(k) && HandlerOf(r, p).Away?
      case ClaimLostRaces(k, _) => ResetKey(k) && HandlerOf(r, p).Away?
      case ClaimError(k, _, _) => ResetKey(k) && HandlerOf(r, p).Away?
      case Released(k, c) => HandlerOf(r, p) == Releasing(k, c)
      case ReleaseLostRaces(k, c) => HandlerOf(r, p) == Releasing(k, c)
      case ReleaseError(k, c, _) => HandlerOf(r, p) == Releasing(k, c)
      case Deleted(k) => HandlerOf(r, p).Consuming? && HandlerOf(r, p).k == k
      case DeleteError(k, _) => HandlerOf(r, p).Consuming? && HandlerOf(r, p).k == k
      case _ => true
  }

  function Respond(r: Requests, e: Event): Requests
    requires Permitted(r, e)
  {
    match e
    case MailResult(p, sent) =>
      var h := HandlerOf(r, p);
      SetHandler(r, p, if sent then Updating(h.k, h.c) else Releasing(h.k, h.c))
    case UpdateResult(p, committed) =>
      var h := HandlerOf(r, p);
      if committed then
        SetHandler(r, p, Consuming(h.k, h.c)).(commits := r.commits[(h.k, h.c) := Commits(r, h.k, h.c) + 1])
      else
        SetHandler(r, p, Releasing(h.k, h.c))
    case Crash(p) => SetHandler(r, p, Away)
    case StoreEvent(p, act) =>
      match act
      case Registered(k, c, _) => r.(issued := r.issued + {(k, c)})
      case RegisterError(k, c, _, _) => r.(issued := r.issued + {(k, c)})
      case Claimed(k, c, ok) => if ok then SetHandler(r, p, Mailing(k, c)) else r
      case Released(_, _) => SetHandler(r, p, Away)
      case ReleaseLostRaces(_, _) => SetHandler(r, p, Away)
      case ReleaseError(_, _, _) => SetHandler(r, p, Away)
      case Deleted(_) => SetHandler(r, p, Away)
      case DeleteError(_, _) => SetHandler(r, p, Away)
      case _ => r
  }

  /** Request p may still change the password with this code or give it back. */
  predicate Holder(r: Requests, p: Pid, k: Key, c: Code) {
    var h := HandlerOf(r, p);
    (h.Mailing? || h.Updating? || h.Releasing?) && h.k == k && h.c == c
  }

  /** The code cannot be claimed from this store. */
  predicate Spent(t: Store, k: Key, c: Code) {
    k in t && t[k].code == c ==> t[k].claimed
  }

  ghost predicate SingleHolder(r: Requests) {
    forall p, q, k, c :: Holder(r, p, k, c) && Holder(r, q, k, c) ==> p == q
  }

  ghost predicate HeldOk(t: Store, r: Requests) {
    forall p, k, c :: Holder(r, p, k, c) ==>
      (k, c) in r.issued && ResetKey(k) && Commits(r, k, c) == 0 && Spent(t, k, c)
  }

  ghost predicate CommittedOk(t: Store, r: Requests) {
    forall k, c :: Commits(r, k, c) > 0 ==>
      Commits(r, k, c) == 1 && (k, c) in r.issued && ResetKey(k) && Spent(t, k, c)
  }

  ghost predicate StoredOk(t: Store, r: Requests) {
    forall k :: k in t && ResetKey(k) ==> (k, t[k].code) in r.issued
  }

  ghost predicate Safe(t: Store, r: Requests) {
    SingleHolder(r) && HeldOk(t, r) && CommittedOk(t, r) && StoredOk(t, r)
  }

  /** Effects on the atomic store; only store events have one. */
  ghost predicate StoreMoves(t: Store, e: Event, t': Store) {
    if e.StoreEvent? then AtomicAllows(t, e.act) && t' == AtomicEffect(t, e.act)
    else t' == t
  }

  /** A step that makes no new holder and no new commit is safe when the codes
      still held or already committed stay spent. */
  lemma NoNewHolderKeepsSafe(t: Store, r: Requests, t': Store, r': Requests)
    requires Safe(t, r)
    requires forall p, k, c :: Holder(r', p, k, c) ==> Holder(r, p, k, c) && Spent(t', k, c)
    requires r'.commits == r.commits && r.issued <= r'.issued
    requires forall k, c :: Commits(r, k, c) > 0 ==> Spent(t', k, c)
    requires StoredOk(t', r')
    ensures Safe(t', r')
  {
    assert forall k, c :: Commits(r', k, c) == Commits(r, k, c);
    assert SingleHolder(r');
  }

  lemma RegisterKeepsSafe(t: Store, r: Requests, k: Key, c: Code, at: int)
    requires Safe(t, r) && MayIssue(r, k, c)
    ensures Safe(Register(t, k, c, at), r.(issued := r.issued + {(k, c)}))
    ensures Safe(t, r.(issued := r.issued + {(k, c)}))
  {
    var r' := r.(issued := r.issued + {(k, c)});
    assert forall p, k, c :: Holder(r', p, k, c) ==> Holder(r, p, k, c);
    NoNewHolderKeepsSafe(t, r, Register(t, k, c, at), r');
    NoNewHolderKeepsSafe(t, r, t, r');
  }

  /** Winning a claim makes the caller the only holder of a code that has never
      led to a commit. */
  lemma ClaimKeepsSafe(t: Store, r: Requests, p: Pid, k: Key, c: Code)
    requires Safe(t, r) && ResetKey(k) && HandlerOf(r, p).Away?
    requires Usable(t, k, c)
    ensures Safe(Claim(t, k, c), SetHandler(r, p, Mailing(k, c)))
    ensures Safe(Claim(t, k, c), r)
  {
    assert !Spent(t, k, c);
    assert Commits(r, k, c) == 0;
    var t', r' := Claim(t, k, c), SetHandler(r, p, Mailing(k, c));
    assert forall q :: !Holder(r, q, k, c);
    forall q, k', c' | Holder(r', q, k', c')
      ensures if q == p then k' == k && c' == c else Holder(r, q, k', c') && !(k' == k && c' == c)
    {
      if q != p {
        assert HandlerOf(r', q) == HandlerOf(r, q);
        assert Holder(r, q, k', c');
      }
    }
    assert forall k', c' :: Spent(t, k', c') ==> Spent(t', k', c');
    assert forall k', c' :: Commits(r', k', c') == Commits(r, k', c');
    assert SingleHolder(r');
  }

  lemma ReleaseKeepsSafe(t: Store, r: Requests, p: Pid, k: Key, c: Code)
    requires Safe(t, r) && HandlerOf(r, p) == Releasing(k, c)
    ensures Safe(Release(t, k, c), SetHandler(r, p, Away))
    ensures Safe(t, SetHandler(r, p, Away))
  {
    assert Holder(r, p, k, c);
    var t', r' := Release(t, k, c), SetHandler(r, p, Away);
    assert forall q, k', c' :: Holder(r', q, k', c') ==> Holder(r, q, k', c') && (k', c') != (k, c);
    assert forall k', c' :: Spent(t, k', c') && (k', c') != (k, c) ==> Spent(t', k', c');
    NoNewHolderKeepsSafe(t, r, t', r');
    NoNewHolderKeepsSafe(t, r, t, r');
  }

  lemma MailKeepsSafe(t: Store, r: Requests, p: Pid, sent: bool)
    requires Safe(t, r) && HandlerOf(r, p).Mailing?
    ensures Safe(t, Respond(r, MailResult(p, sent)))
  {
    var r' := Respond(r, MailResult(p, sent));
    assert forall q, k, c :: Holder(r', q, k, c) ==> Holder(r, q, k, c);
    NoNewHolderKeepsSafe(t, r, t, r');
  }

  /** The one step that commits: its code has no earlier commit and, afterwards, no holder. */
  lemma UpdateKeepsSafe(t: Store, r: Requests, p: Pid, committed: bool)
    requires Safe(t, r) && HandlerOf(r, p).Updating?
    ensures Safe(t, Respond(r, UpdateResult(p, committed)))
  {
    var h := HandlerOf(r, p);
    var r' := Respond(r, UpdateResult(p, committed));
    assert Holder(r, p, h.k, h.c);
    assert forall q, k, c :: Holder(r', q, k, c) ==> Holder(r, q, k, c);
    if committed {
      assert forall q, k, c :: Holder(r', q, k, c) ==> (k, c) != (h.k, h.c);
      assert forall k, c :: Commits(r', k, c) == Commits(r, k, c) + if (k, c) == (h.k, h.c) then 1 else 0;
    } else {
      NoNewHolderKeepsSafe(t, r, t, r');
    }
  }

  /** Anything that only forgets entries or requests keeps the state safe. */
  lemma ForgettingKeepsSafe(t: Store, r: Requests, t': Store, p: Pid)
    requires Safe(t, r)
    requires forall k :: k in t' ==> k in t && t'[k] == t[k]
    ensures Safe(t', r)
    ensures Safe(t', SetHandler(r, p, Away))
  {
    var r' := SetHandler(r, p, Away);
    assert forall q, k, c :: Holder(r', q, k, c) ==> Holder(r, q, k, c);
    assert forall k, c :: Spent(t, k, c) ==> Spent(t', k, c);
    NoNewHolderKeepsSafe(t, r, t', r);
    NoNewHolderKeepsSafe(t, r, t', r');
  }

  /** Nobody holds the code and it has led to no commit. */
  ghost predicate Untaken(r: Requests, k: Key, c: Code) {
    Commits(r, k, c) == 0 && forall p :: !Holder(r, p, k, c)
  }

  /** What a late command may still do: give back or store a code that nobody has
      taken. */
  ghost predicate LateFits(r: Requests, act: Label) {
    act.TookEffect? ==>
      match act.effect
      case LateRelease(k, c) => ResetKey(k) ==> Untaken(r, k, c)
      case LateRegister(k, c, _) => ResetKey(k) ==> Untaken(r, k, c) && (k, c) in r.issued
      case _ => true
  }

  lemma LateClaimKeepsSafe(t: Store, r: Requests, k: Key, c: Code)
    requires Safe(t, r)
    ensures Safe(Claim(t, k, c), r)
  {
    assert forall k', c' :: Spent(t, k', c') ==> Spent(Claim(t, k, c), k', c');
    NoNewHolderKeepsSafe(t, r, Claim(t, k, c), r);
  }

  lemma LateReleaseKeepsSafe(t: Store, r: Requests, k: Key, c: Code)
    requires Safe(t, r) && (ResetKey(k) ==> Untaken(r, k, c))
    ensures Safe(Release(t, k, c), r)
  {
    var t' := Release(t, k, c);
    assert forall k', c' :: Spent(t, k', c') && (k', c') != (k, c) ==> Spent(t', k', c');
    NoNewHolderKeepsSafe(t, r, t', r);
  }

  lemma LateRegisterKeepsSafe(t: Store, r: Requests, k: Key, c: Code, at: int)
    requires Safe(t, r) && (ResetKey(k) ==> Untaken(r, k, c) && (k, c) in r.issued)
    ensures Safe(Register(t, k, c, at), r)
  {
    var t' := Register(t, k, c, at);
    assert forall k', c' :: Spent(t, k', c') && (k', c') != (k, c) ==> Spent(t', k', c');
    NoNewHolderKeepsSafe(t, r, t', r);
  }

  lemma LateKeepsSafe(t: Store, r: Requests, e: Effect)
    requires Safe(t, r) && LateFits(r, TookEffect(e))
    ensures Safe(LateAtomicEffect(t, e), r)
  {
    match e
    case LateClaim(k, c) => LateClaimKeepsSafe(t, r, k, c);
    case LateRelease(k, c) => LateReleaseKeepsSafe(t, r, k, c);
    case LateRegister(k, c, at) => LateRegisterKeepsSafe(t, r, k, c, at);
    case LateDelete(k) => ForgettingKeepsSafe(t, r, Delete(t, k), 0);
  }

  lemma StoreEventKeepsSafe(t: Store, r: Requests, p: Pid, act: Label)
    requires Safe(t, r) && Permitted(r, StoreEvent(p, act)) && AtomicAllows(t, act) && LateFits(r, act)
    ensures Safe(AtomicEffect(t, act), Respond(r, StoreEvent(p, act)))
  {
    match act
    case Registered(k, c, at) => RegisterKeepsSafe(t, r, k, c, at);
    case RegisterError(k, c, at, _) => RegisterKeepsSafe(t, r, k, c, at);
    case Claimed(k, c, ok) => if ok { ClaimKeepsSafe(t, r, p, k, c); }
    case ClaimError(k, c, applied) => if applied { ClaimKeepsSafe(t, r, p, k, c); }
    case Released(k, c) => ReleaseKeepsSafe(t, r, p, k, c);
    case ReleaseLostRaces(k, c) => ReleaseKeepsSafe(t, r, p, k, c);
    case ReleaseError(k, c, _) => ReleaseKeepsSafe(t, r, p, k, c);
    case TookEffect(e) => LateKeepsSafe(t, r, e);
    case _ => ForgettingKeepsSafe(t, r, AtomicEffect(t, act), p);
  }

  lemma EventKeepsSafe(t: Store, r: Requests, e: Event, t': Store)
    requires Safe(t, r) && Permitted(r, e) && StoreMoves(t, e, t') && (e.StoreEvent? ==> LateFits(r, e.act))
    ensures Safe(t', Respond(r, e))
  {
    match e
    case StoreEvent(p, act) => StoreEventKeepsSafe(t, r, p, act);
    case MailResult(p, sent) => MailKeepsSafe(t, r, p, sent);
    case UpdateResult(p, committed) => UpdateKeepsSafe(t, r, p, committed);
    case Crash(p) => ForgettingKeepsSafe(t, r, t, p);
  }

  // ----- runs over the Redis store -----

  /** Either Redis takes a step on behalf of request p, or something local happens. */
  datatype Move = RedisMove(p: Pid, action: Action) | LocalMove(event: Event)

  function EventOf(s: Redis, m: Move): Event
    requires m.RedisMove? ==> Enabled(s, m.action)
  {
    match m
    case RedisMove(p, action) => StoreEvent(p, LabelOf(s, action))
    case LocalMove(event) => event
  }

  /** An instance's step inside a claim or release belongs to the request making it. */
  predicate Possible(s: Redis, r: Requests, m: Move) {
    match m
    case RedisMove(p, action) =>
      && Enabled(s, action)
      && (InsideCall(action) ==> action.p == p)
      && (action.Slow? && action.step.Abandon? ==> action.step.p == p)
      && Permitted(r, EventOf(s, m))
    case LocalMove(event) => !event.StoreEvent? && Permitted(r, event)
  }

  function RedisAfter(s: Redis, m: Move): Redis
    requires m.RedisMove? ==> Enabled(s, m.action)
  {
    if m.RedisMove? then Next(s, m.action) else s
  }

  ghost predicate IsHistory(s: Redis, r: Requests, moves: seq<Move>)
    decreases |moves|
  {
    moves == [] ||
    (Possible(s, r, moves[0]) &&
     IsHistory(RedisAfter(s, moves[0]), Respond(r, EventOf(s, moves[0])), moves[1..]))
  }

  ghost function After(s: Redis, r: Requests, moves: seq<Move>): (Redis, Requests)
    requires IsHistory(s, r, moves)
    decreases |moves|
  {
    if moves == [] then (s, r)
    else After(RedisAfter(s, moves[0]), Respond(r, EventOf(s, moves[0])), moves[1..])
  }

  // ----- commands whose caller has given up -----

  /** A release that is still under way and would still go through gives back a code
      that nobody has taken. */
  ghost predicate ReleaseLinked(s: Redis, r: Requests, pc: Pc) {
    LateExec(pc) in s.late && pc.HasRead? && pc.op.ReleaseOp? && ResetKey(pc.op.k) && Unchanged(s, pc) ==>
      Untaken(r, pc.op.k, pc.op.c)
  }

  /** A registration that is still under way is that of a code that is issued, not
      stored and not taken. */
  ghost predicate SetLinked(s: Redis, r: Requests, k: Key, c: Code, nonce: nat) {
    LateSet(k, c, nonce) in s.late && ResetKey(k) ==>
      && Untaken(r, k, c) && (k, c) in r.issued && !Holds(Abs(s), k, c)
      && forall other :: LateSet(k, c, other) in s.late ==> other == nonce
  }

  ghost predicate Linked(s: Redis, r: Requests) {
    && (forall pc :: ReleaseLinked(s, r, pc))
    && (forall k, c, nonce :: SetLinked(s, r, k, c, nonce))
  }

  predicate Holds(t: Store, k: Key, c: Code) {
    k in t && t[k].code == c
  }

  /** The claim a request works on. */
  predicate IsClaim(e: Event, p: Pid, k: Key, c: Code) {
    e == StoreEvent(p, Claimed(k, c, true))
  }

  lemma HolderOnlyByClaim(r: Requests, e: Event, p: Pid, k: Key, c: Code)
    requires Permitted(r, e) && !Holder(r, p, k, c) && Holder(Respond(r, e), p, k, c)
    ensures IsClaim(e, p, k, c)
  {
  }

  /** A code is taken by a claim and by nothing else. */
  lemma TakenOnlyByClaim(r: Requests, e: Event, k: Key, c: Code)
    requires Permitted(r, e) && Untaken(r, k, c)
    requires forall p :: !IsClaim(e, p, k, c)
    ensures Untaken(Respond(r, e), k, c)
  {
    var r' := Respond(r, e);
    forall p
      ensures !Holder(r', p, k, c)
    {
      if Holder(r', p, k, c) {
        HolderOnlyByClaim(r, e, p, k, c);
      }
    }
    if e.UpdateResult? {
      assert !Holder(r, e.p, k, c);
    }
  }

  /** A claim changes the version of its key and takes a stored code. */
  lemma ClaimChanges(s: Redis, a: Action, k: Key, c: Code)
    requires Inv(s) && Enabled(s, a) && LabelOf(s, a) == Claimed(k, c, true)
    ensures VersionOf(Next(s, a), k) > VersionOf(s, k) && Holds(Abs(s), k, c)
  {
    OnlyExecClaims(s, a, k, c);
    ExecSimulates(s, a.p);
  }

  lemma OnlyExecClaims(s: Redis, a: Action, k: Key, c: Code)
    requires Enabled(s, a) && LabelOf(s, a) == Claimed(k, c, true)
    ensures a.Exec? && VersionOf(Next(s, a), k) > VersionOf(s, k)
  {
  }

  /** What is late after a step was late before, or was just given up. */
  lemma LateBefore(s: Redis, a: Action, l: Late)
    requires Enabled(s, a) && l in Next(s, a).late && l !in s.late
    ensures a.Slow?
    ensures a.step.Abandon? || a.step.AbandonSet? || a.step.AbandonDel?
    ensures a.step.Abandon? ==> l == LateExec(PcOf(s, a.step.p))
    ensures a.step.AbandonSet? ==> l == LateSet(a.step.k, a.step.c, a.step.nonce)
    ensures a.step.AbandonDel? ==> l == LateDel(a.step.k)
  {
  }

  /** Giving up on a release leaves its code untaken. */
  lemma AbandonedReleaseUntaken(t: Store, r: Requests, p: Pid, k: Key, c: Code)
    requires Safe(t, r) && HandlerOf(r, p) == Releasing(k, c)
    ensures Untaken(SetHandler(r, p, Away), k, c)
  {
    assert Holder(r, p, k, c);
    var r' := SetHandler(r, p, Away);
    forall q
      ensures !Holder(r', q, k, c)
    {
      if q != p {
        assert HandlerOf(r', q) == HandlerOf(r, q);
        assert Holder(r', q, k, c) ==> Holder(r, q, k, c);
      }
    }
  }

  lemma OldReleaseStaysLinked(s: Redis, r: Requests, p: Pid, a: Action, pc: Pc)
    requires Inv(s) && Linked(s, r) && Possible(s, r, RedisMove(p, a)) && LateExec(pc) in s.late
    requires pc.HasRead? && pc.op.ReleaseOp? && ResetKey(pc.op.k) && Unchanged(Next(s, a), pc)
    ensures Untaken(Respond(r, StoreEvent(p, LabelOf(s, a))), pc.op.k, pc.op.c)
  {
    var k, c := pc.op.k, pc.op.c;
    StillUnchanged(s, a, pc);
    assert ReleaseLinked(s, r, pc);
    if LabelOf(s, a) == Claimed(k, c, true) {
      ClaimChanges(s, a, k, c);
    }
    TakenOnlyByClaim(r, StoreEvent(p, LabelOf(s, a)), k, c);
  }

  lemma ReleaseStaysLinked(s: Redis, r: Requests, p: Pid, a: Action, pc: Pc)
    requires Inv(s) && Safe(Abs(s), r) && Linked(s, r) && Possible(s, r, RedisMove(p, a))
    ensures ReleaseLinked(Next(s, a), Respond(r, StoreEvent(p, LabelOf(s, a))), pc)
  {
    var t := Next(s, a);
    if LateExec(pc) in t.late && pc.HasRead? && pc.op.ReleaseOp? && ResetKey(pc.op.k) && Unchanged(t, pc) {
      if LateExec(pc) in s.late {
        OldReleaseStaysLinked(s, r, p, a, pc);
      } else {
        LateBefore(s, a, LateExec(pc));
        AbandonedReleaseUntaken(Abs(s), r, p, pc.op.k, pc.op.c);
      }
    }
  }

  /** A version that is still the one of a late EXEC was so before the step. */
  lemma StillUnchanged(s: Redis, a: Action, pc: Pc)
    requires Inv(s) && Enabled(s, a) && LateExec(pc) in s.late && pc.HasRead? && Unchanged(Next(s, a), pc)
    ensures Unchanged(s, pc) && VersionOf(Next(s, a), pc.op.k) == VersionOf(s, pc.op.k)
  {
    NextEvolves(s, a);
    assert LatePcOk(s, pc);
  }

  /** The step stores the code c under the key k, whether or not its caller learns of it. */
  predicate Stores(act: Label, k: Key, c: Code) {
    match act
    case Registered(k', c', _) => k' == k && c' == c
    case RegisterError(k', c', _, applied) => applied && k' == k && c' == c
    case TookEffect(e) => e.LateRegister? && e.k == k && e.c == c
    case _ => false
  }

  /** A code turns up in the store only by being stored. */
  lemma NewCodeIsStored(t: Store, act: Label, k: Key, c: Code)
    requires Holds(AtomicEffect(t, act), k, c) && !Holds(t, k, c)
    ensures Stores(act, k, c)
  {
  }

  lemma OldSetStaysLinked(s: Redis, r: Requests, p: Pid, a: Action, k: Key, c: Code, nonce: nat)
    requires Inv(s) && Linked(s, r) && Possible(s, r, RedisMove(p, a)) && ResetKey(k)
    requires LateSet(k, c, nonce) in s.late && LateSet(k, c, nonce) in Next(s, a).late
    ensures var r' := Respond(r, StoreEvent(p, LabelOf(s, a)));
            Untaken(r', k, c) && (k, c) in r'.issued && !Holds(Abs(Next(s, a)), k, c)
  {
    assert SetLinked(s, r, k, c, nonce);
    Simulates(s, a);
    var act := LabelOf(s, a);
    if act == Claimed(k, c, true) {
      ClaimChanges(s, a, k, c);
    }
    TakenOnlyByClaim(r, StoreEvent(p, act), k, c);
    if Holds(Abs(Next(s, a)), k, c) {
      NewCodeIsStored(Abs(s), act, k, c);
      LateRegisterIsDelivery(s, a, k, c);
    }
  }

  /** A late registration is the delivery of one that was under way, which is over then. */
  lemma LateRegisterIsDelivery(s: Redis, a: Action, k: Key, c: Code)
    requires Enabled(s, a) && LabelOf(s, a).TookEffect? && Stores(LabelOf(s, a), k, c)
    ensures a.Slow? && a.step.Deliver? && a.step.late.LateSet? && a.step.late.k == k && a.step.late.c == c
    ensures a.step.late in s.late && a.step.late !in Next(s, a).late
  {
  }

  lemma SetStaysLinked(s: Redis, r: Requests, p: Pid, a: Action, k: Key, c: Code, nonce: nat)
    requires Inv(s) && Safe(Abs(s), r) && Linked(s, r) && Possible(s, r, RedisMove(p, a))
    ensures SetLinked(Next(s, a), Respond(r, StoreEvent(p, LabelOf(s, a))), k, c, nonce)
  {
    if LateSet(k, c, nonce) in Next(s, a).late && ResetKey(k) {
      if LateSet(k, c, nonce) in s.late {
        OldSetStaysLinked(s, r, p, a, k, c, nonce);
        forall other | LateSet(k, c, other) in Next(s, a).late
          ensures other == nonce
        {
          assert SetLinked(s, r, k, c, nonce);
          if LateSet(k, c, other) !in s.late {
            LateBefore(s, a, LateSet(k, c, other));
          }
        }
      } else {
        LateBefore(s, a, LateSet(k, c, nonce));
        NewSetIsLinked(s, r, p, k, c, nonce);
      }
    }
  }

  lemma NewSetIsLinked(s: Redis, r: Requests, p: Pid, k: Key, c: Code, nonce: nat)
    requires Safe(Abs(s), r) && Linked(s, r) && ResetKey(k)
    requires Possible(s, r, RedisMove(p, Slow(AbandonSet(k, c, nonce))))
    ensures var a := Slow(AbandonSet(k, c, nonce));
            SetLinked(Next(s, a), Respond(r, StoreEvent(p, LabelOf(s, a))), k, c, nonce)
  {
    var a := Slow(AbandonSet(k, c, nonce));
    assert (k, c) !in r.issued;
    assert Untaken(r, k, c) by {
      assert Commits(r, k, c) == 0;
      forall q ensures !Holder(r, q, k, c) { }
    }
    assert Abs(Next(s, a)) == Abs(s);
    forall other | LateSet(k, c, other) in Next(s, a).late
      ensures other == nonce
    {
      assert SetLinked(s, r, k, c, other);
    }
    assert Untaken(Respond(r, StoreEvent(p, LabelOf(s, a))), k, c) by {
      TakenOnlyByClaim(r, StoreEvent(p, LabelOf(s, a)), k, c);
    }
  }

  lemma RedisMoveStaysLinked(s: Redis, r: Requests, p: Pid, a: Action)
    requires Inv(s) && Safe(Abs(s), r) && Linked(s, r) && Possible(s, r, RedisMove(p, a))
    ensures Linked(Next(s, a), Respond(r, StoreEvent(p, LabelOf(s, a))))
  {
    forall pc
      ensures ReleaseLinked(Next(s, a), Respond(r, StoreEvent(p, LabelOf(s, a))), pc)
    {
      ReleaseStaysLinked(s, r, p, a, pc);
    }
    forall k, c, nonce
      ensures SetLinked(Next(s, a), Respond(r, StoreEvent(p, LabelOf(s, a))), k, c, nonce)
    {
      SetStaysLinked(s, r, p, a, k, c, nonce);
    }
  }

  lemma LocalMoveStaysLinked(s: Redis, r: Requests, e: Event)
    requires Linked(s, r) && Permitted(r, e) && !e.StoreEvent?
    ensures Linked(s, Respond(r, e))
  {
    forall pc
      ensures ReleaseLinked(s, Respond(r, e), pc)
    {
      assert ReleaseLinked(s, r, pc);
      if pc.HasRead? && Untaken(r, pc.op.k, pc.op.c) {
        TakenOnlyByClaim(r, e, pc.op.k, pc.op.c);
      }
    }
    forall k, c, nonce
      ensures SetLinked(s, Respond(r, e), k, c, nonce)
    {
      assert SetLinked(s, r, k, c, nonce);
      if Untaken(r, k, c) {
        TakenOnlyByClaim(r, e, k, c);
      }
    }
  }

  /** What a delivery does fits the requests. */
  lemma DeliveryFits(s: Redis, r: Requests, a: Action)
    requires Inv(s) && Linked(s, r) && Enabled(s, a)
    ensures LateFits(r, LabelOf(s, a))
  {
    if LabelOf(s, a).TookEffect? {
      var l := a.step.late;
      match l
      case LateExec(pc) => assert ReleaseLinked(s, r, pc);
      case LateSet(k, c, nonce) => assert SetLinked(s, r, k, c, nonce);
      case LateDel(_) =>
    }
  }

  /** The state of the store and of the requests that every history keeps. */
  ghost predicate Sound(s: Redis, r: Requests) {
    Inv(s) && Safe(Abs(s), r) && Linked(s, r)
  }

  lemma MoveKeepsSound(s: Redis, r: Requests, m: Move)
    requires Sound(s, r) && Possible(s, r, m)
    ensures Sound(RedisAfter(s, m), Respond(r, EventOf(s, m)))
    ensures StoreMoves(Abs(s), EventOf(s, m), Abs(RedisAfter(s, m)))
  {
    if m.RedisMove? {
      InvStep(s, m.action);
      Simulates(s, m.action);
      DeliveryFits(s, r, m.action);
      RedisMoveStaysLinked(s, r, m.p, m.action);
    } else {
      LocalMoveStaysLinked(s, r, m.event);
    }
    EventKeepsSafe(Abs(s), r, EventOf(s, m), Abs(RedisAfter(s, m)));
  }

  lemma {:induction false} HistoryIsSafe(s: Redis, r: Requests, moves: seq<Move>)
    requires Sound(s, r) && IsHistory(s, r, moves)
    ensures var (s', r') := After(s, r, moves); Sound(s', r')
    decreases |moves|
  {
    if moves != [] {
      var m := moves[0];
      MoveKeepsSound(s, r, m);
      HistoryIsSafe(RedisAfter(s, m), Respond(r, EventOf(s, m)), moves[1..]);
    }
  }

  const NO_REQUESTS := Requests(map[], {}, map[])

  lemma StartIsSound(now: int)
    ensures Sound(Init(now), NO_REQUESTS)
  {
    var s, r := Init(now), NO_REQUESTS;
    assert Abs(s) == map[];
    assert forall pc :: ReleaseLinked(s, r, pc);
    assert forall k, c, nonce :: SetLinked(s, r, k, c, nonce);
  }

  lemma HistoryIsSafeFromStart(now: int, moves: seq<Move>)
    requires IsHistory(Init(now), NO_REQUESTS, moves)
    ensures var (s, r) := After(Init(now), NO_REQUESTS, moves); Sound(s, r)
  {
    StartIsSound(now);
    HistoryIsSafe(Init(now), NO_REQUESTS, moves);
  }

  /** In every run of concurrent resets over the shared store, with token
      rotation, expiry, mail and database failures, lost races, connection errors
      and crashes, an issued code has at most one holder and leads to at most one
      committed password change. */
  lemma OneHolderOneCommit(now: int, moves: seq<Move>, k: Key, c: Code)
    requires IsHistory(Init(now), NO_REQUESTS, moves)
    ensures var r := After(Init(now), NO_REQUESTS, moves).1;
            && Commits(r, k, c) <= 1
            && (forall p, q :: Holder(r, p, k, c) && Holder(r, q, k, c) ==> p == q)
            && (Commits(r, k, c) == 1 ==> forall p :: !Holder(r, p, k, c))
  {
    HistoryIsSafeFromStart(now, moves);
  }

  // ----- what a request went through -----

  ghost function Events(s: Redis, r: Requests, moves: seq<Move>): (es: seq<Event>)
    requires IsHistory(s, r, moves)
    ensures |es| == |moves|
    decreases |moves|
  {
    if moves == [] then []
    else
      var e := EventOf(s, moves[0]);
      [e] + Events(RedisAfter(s, moves[0]), Respond(r, e), moves[1..])
  }

  /** The event takes request p from one point of its handler to the next. */
  predicate Own(e: Event, p: Pid) {
    match e
    case MailResult(q, _) => q == p
    case UpdateResult(q, _) => q == p
    case Crash(q) => q == p
    case StoreEvent(q, act) =>
      q == p &&
      match act
      case Claimed(_, _, ok) => ok
      case _ => IsRelease(act) || IsDelete(act)
  }

  predicate IsRelease(act: Label) {
    act.Released? || act.ReleaseLostRaces? || act.ReleaseError?
  }

  predicate IsDelete(act: Label) {
    act.Deleted? || act.DeleteError?
  }

  /** Nothing happens to request p strictly between two points. */
  ghost predicate Quiet(es: seq<Event>, p: Pid, i: int, j: int) {
    forall m :: i < m < j && 0 <= m < |es| ==> !Own(es[m], p)
  }

  /** p claims the code at i. */
  ghost predicate ClaimedAt(es: seq<Event>, p: Pid, k: Key, c: Code, i: int) {
    0 <= i < |es| && IsClaim(es[i], p, k, c)
  }

  /** ... and learns at j whether the mail went out. */
  ghost predicate MailedAt(es: seq<Event>, p: Pid, k: Key, c: Code, sent: bool, i: int, j: int) {
    ClaimedAt(es, p, k, c, i) && i < j < |es| && Quiet(es, p, i, j) && es[j] == MailResult(p, sent)
  }

  /** ... and, the mail sent, learns at l whether the new password was stored. */
  ghost predicate UpdatedAt(es: seq<Event>, p: Pid, k: Key, c: Code, committed: bool, i: int, j: int, l: int) {
    MailedAt(es, p, k, c, true, i, j) && j < l < |es| && Quiet(es, p, j, l) && es[l] == UpdateResult(p, committed)
  }

  /** The events respond to each other as the handlers do. */
  ghost predicate Conform(r: Requests, es: seq<Event>)
    decreases |es|, 0
  {
    es == [] || (Conform(r, es[..|es| - 1]) && Permitted(Replayed(r, es[..|es| - 1]), es[|es| - 1]))
  }

  ghost function Replayed(r: Requests, es: seq<Event>): Requests
    requires Conform(r, es)
    decreases |es|, 1
  {
    if es == [] then r else Respond(Replayed(r, es[..|es| - 1]), es[|es| - 1])
  }

  lemma {:induction false} ConformFront(r: Requests, e: Event, es: seq<Event>)
    requires Permitted(r, e) && Conform(Respond(r, e), es)
    ensures Conform(r, [e] + es) && Replayed(r, [e] + es) == Replayed(Respond(r, e), es)
  {
    var all := [e] + es;
    if es == [] {
      assert all[..|all| - 1] == [] && all == [e];
    } else {
      ConformFront(r, e, es[..|es| - 1]);
      assert all[..|all| - 1] == [e] + es[..|es| - 1] && all[|all| - 1] == es[|es| - 1];
    }
  }

  /** Every history conforms. */
  lemma {:induction false} HistoryConforms(s: Redis, r: Requests, moves: seq<Move>)
    requires IsHistory(s, r, moves)
    ensures Conform(r, Events(s, r, moves)) && Replayed(r, Events(s, r, moves)) == After(s, r, moves).1
    decreases |moves|
  {
    if moves != [] {
      var e := EventOf(s, moves[0]);
      var s1, r1 := RedisAfter(s, moves[0]), Respond(r, e);
      HistoryConforms(s1, r1, moves[1..]);
      ConformFront(r, e, Events(s1, r1, moves[1..]));
    }
  }

  lemma {:induction false} ConformPrefix(r: Requests, es: seq<Event>, n: nat)
    requires Conform(r, es) && n <= |es|
    ensures Conform(r, es[..n])
    ensures n < |es| ==> Permitted(Replayed(r, es[..n]), es[n]) && Conform(r, es[..n + 1])
                         && Replayed(r, es[..n + 1]) == Respond(Replayed(r, es[..n]), es[n])
    decreases |es|
  {
    if n < |es| {
      var before := es[..|es| - 1];
      assert es[..n + 1][..n] == es[..n];
      if n < |es| - 1 {
        ConformPrefix(r, before, n);
        assert before[..n] == es[..n] && before[..n + 1] == es[..n + 1];
      } else {
        assert before == es[..n] && es[..n + 1] == es;
      }
    } else {
      assert es[..n] == es;
    }
  }

  lemma OthersLeaveAlone(r: Requests, e: Event, p: Pid)
    requires Permitted(r, e) && !Own(e, p)
    ensures HandlerOf(Respond(r, e), p) == HandlerOf(r, p)
  {
  }

  /** What the point a request is at says about the events so far. */
  ghost predicate Explained(es: seq<Event>, p: Pid, h: Handler) {
    match h
    case Away => true
    case Mailing(k, c) => exists i :: ClaimedAt(es, p, k, c, i) && Quiet(es, p, i, |es|)
    case Updating(k, c) => exists i, j :: MailedAt(es, p, k, c, true, i, j) && Quiet(es, p, j, |es|)
    case Releasing(k, c) =>
      || (exists i, j :: MailedAt(es, p, k, c, false, i, j) && Quiet(es, p, j, |es|))
      || (exists i, j, l :: UpdatedAt(es, p, k, c, false, i, j, l) && Quiet(es, p, l, |es|))
    case Consuming(k, c) => exists i, j, l :: UpdatedAt(es, p, k, c, true, i, j, l) && Quiet(es, p, l, |es|)
  }

  lemma QuietLonger(es: seq<Event>, e: Event, p: Pid, i: int)
    requires Quiet(es, p, i, |es|) && !Own(e, p)
    ensures Quiet(es + [e], p, i, |es + [e]|)
  {
  }

  lemma MailedLonger(es: seq<Event>, e: Event, p: Pid, k: Key, c: Code, sent: bool, i: int, j: int)
    requires MailedAt(es, p, k, c, sent, i, j)
    ensures MailedAt(es + [e], p, k, c, sent, i, j)
  {
  }

  lemma UpdatedLonger(es: seq<Event>, e: Event, p: Pid, k: Key, c: Code, committed: bool, i: int, j: int, l: int)
    requires UpdatedAt(es, p, k, c, committed, i, j, l)
    ensures UpdatedAt(es + [e], p, k, c, committed, i, j, l)
  {
    MailedLonger(es, e, p, k, c, true, i, j);
  }

  /** An event of somebody else changes nothing about that. */
  lemma ExplainedStays(es: seq<Event>, e: Event, p: Pid, h: Handler)
    requires Explained(es, p, h) && !Own(e, p)
    ensures Explained(es + [e], p, h)
  {
    match h
    case Away =>
    case Mailing(k, c) =>
      var i :| ClaimedAt(es, p, k, c, i) && Quiet(es, p, i, |es|);
      QuietLonger(es, e, p, i);
      assert ClaimedAt(es + [e], p, k, c, i);
    case Updating(k, c) =>
      var i, j :| MailedAt(es, p, k, c, true, i, j) && Quiet(es, p, j, |es|);
      QuietLonger(es, e, p, j);
      MailedLonger(es, e, p, k, c, true, i, j);
    case Releasing(k, c) =>
      if i, j :| MailedAt(es, p, k, c, false, i, j) && Quiet(es, p, j, |es|) {
        QuietLonger(es, e, p, j);
        MailedLonger(es, e, p, k, c, false, i, j);
      } else {
        var i, j, l :| UpdatedAt(es, p, k, c, false, i, j, l) && Quiet(es, p, l, |es|);
        QuietLonger(es, e, p, l);
        UpdatedLonger(es, e, p, k, c, false, i, j, l);
      }
    case Consuming(k, c) =>
      var i, j, l :| UpdatedAt(es, p, k, c, true, i, j, l) && Quiet(es, p, l, |es|);
      QuietLonger(es, e, p, l);
      UpdatedLonger(es, e, p, k, c, true, i, j, l);
  }

  lemma MailExplains(es: seq<Event>, p: Pid, k: Key, c: Code, sent: bool)
    requires Explained(es, p, Mailing(k, c))
    ensures Explained(es + [MailResult(p, sent)], p, if sent then Updating(k, c) else Releasing(k, c))
  {
    var i :| ClaimedAt(es, p, k, c, i) && Quiet(es, p, i, |es|);
    var more := es + [MailResult(p, sent)];
    assert MailedAt(more, p, k, c, sent, i, |es|);
    assert Quiet(more, p, |es|, |more|);
  }

  lemma UpdateExplains(es: seq<Event>, p: Pid, k: Key, c: Code, committed: bool) returns (i: int, j: int)
    requires Explained(es, p, Updating(k, c))
    ensures var more := es + [UpdateResult(p, committed)];
            && UpdatedAt(more, p, k, c, committed, i, j, |es|)
            && Explained(more, p, if committed then Consuming(k, c) else Releasing(k, c))
  {
    i, j :| MailedAt(es, p, k, c, true, i, j) && Quiet(es, p, j, |es|);
    var more := es + [UpdateResult(p, committed)];
    MailedLonger(es, UpdateResult(p, committed), p, k, c, true, i, j);
    assert UpdatedAt(more, p, k, c, committed, i, j, |es|);
    assert Quiet(more, p, |es|, |more|);
  }

  lemma ExplainedNext(es: seq<Event>, r: Requests, e: Event, p: Pid)
    requires Explained(es, p, HandlerOf(r, p)) && Permitted(r, e)
    ensures Explained(es + [e], p, HandlerOf(Respond(r, e), p))
  {
    if !Own(e, p) {
      OthersLeaveAlone(r, e, p);
      ExplainedStays(es, e, p, HandlerOf(r, p));
    } else {
      match e
      case MailResult(_, sent) => MailExplains(es, p, HandlerOf(r, p).k, HandlerOf(r, p).c, sent);
      case UpdateResult(_, committed) =>
        var _, _ := UpdateExplains(es, p, HandlerOf(r, p).k, HandlerOf(r, p).c, committed);
      case Crash(_) =>
      case StoreEvent(_, act) =>
        if act.Claimed? {
          assert ClaimedAt(es + [e], p, act.k, act.c, |es|) && Quiet(es + [e], p, |es|, |es + [e]|);
        }
    }
  }

  lemma {:induction false} AllExplained(es: seq<Event>, p: Pid)
    requires Conform(NO_REQUESTS, es)
    ensures Explained(es, p, HandlerOf(Replayed(NO_REQUESTS, es), p))
  {
    if es != [] {
      var before := es[..|es| - 1];
      AllExplained(before, p);
      ExplainedNext(before, Replayed(NO_REQUESTS, before), es[|es| - 1], p);
      assert before + [es[|es| - 1]] == es;
    }
  }

  /** A password was committed with the code. */
  ghost predicate CommittedWith(es: seq<Event>, k: Key, c: Code) {
    exists p, i, j, l :: UpdatedAt(es, p, k, c, true, i, j, l)
  }

  lemma CommittedLonger(es: seq<Event>, e: Event, k: Key, c: Code)
    requires CommittedWith(es, k, c)
    ensures CommittedWith(es + [e], k, c)
  {
    var p, i, j, l :| UpdatedAt(es, p, k, c, true, i, j, l);
    UpdatedLonger(es, e, p, k, c, true, i, j, l);
  }

  lemma CommitsGrowOnly(r: Requests, e: Event, k: Key, c: Code)
    requires Permitted(r, e)
    ensures Commits(r, k, c) <= Commits(Respond(r, e), k, c)
    ensures Commits(r, k, c) < Commits(Respond(r, e), k, c) ==>
      e.UpdateResult? && e.committed && HandlerOf(r, e.p) == Updating(k, c)
  {
  }

  lemma {:induction false} CommitWasMailed(es: seq<Event>, k: Key, c: Code)
    requires Conform(NO_REQUESTS, es) && Commits(Replayed(NO_REQUESTS, es), k, c) > 0
    ensures CommittedWith(es, k, c)
  {
    if es != [] {
      var before, e := es[..|es| - 1], es[|es| - 1];
      var r := Replayed(NO_REQUESTS, before);
      assert before + [e] == es;
      CommitsGrowOnly(r, e, k, c);
      if Commits(r, k, c) > 0 {
        CommitWasMailed(before, k, c);
        CommittedLonger(before, e, k, c);
      } else {
        AllExplained(before, e.p);
        var i, j := UpdateExplains(before, e.p, k, c, true);
      }
    }
  }

  // ----- and the other way round -----

  /** As long as nothing happens to a request, it stays where it is. */
  lemma {:induction false} StaysThere(es: seq<Event>, p: Pid, i: int, n: nat)
    requires Conform(NO_REQUESTS, es) && 0 <= i < n <= |es| && Quiet(es, p, i, n)
    ensures Conform(NO_REQUESTS, es[..n]) && Conform(NO_REQUESTS, es[..i + 1])
    ensures HandlerOf(Replayed(NO_REQUESTS, es[..n]), p) == HandlerOf(Replayed(NO_REQUESTS, es[..i + 1]), p)
  {
    ConformPrefix(NO_REQUESTS, es, n);
    ConformPrefix(NO_REQUESTS, es, i);
    if n > i + 1 {
      StaysThere(es, p, i, n - 1);
      ConformPrefix(NO_REQUESTS, es, n - 1);
      assert !Own(es[n - 1], p);
      OthersLeaveAlone(Replayed(NO_REQUESTS, es[..n - 1]), es[n - 1], p);
    }
  }

  lemma MailingUntil(es: seq<Event>, p: Pid, k: Key, c: Code, i: int, n: nat)
    requires Conform(NO_REQUESTS, es) && ClaimedAt(es, p, k, c, i) && i < n <= |es| && Quiet(es, p, i, n)
    ensures Conform(NO_REQUESTS, es[..n]) && HandlerOf(Replayed(NO_REQUESTS, es[..n]), p) == Mailing(k, c)
  {
    StaysThere(es, p, i, n);
    ConformPrefix(NO_REQUESTS, es, i);
  }

  lemma UpdatingUntil(es: seq<Event>, p: Pid, k: Key, c: Code, i: int, j: int, n: nat)
    requires Conform(NO_REQUESTS, es) && MailedAt(es, p, k, c, true, i, j) && j < n <= |es| && Quiet(es, p, j, n)
    ensures Conform(NO_REQUESTS, es[..n]) && HandlerOf(Replayed(NO_REQUESTS, es[..n]), p) == Updating(k, c)
  {
    MailingUntil(es, p, k, c, i, j);
    StaysThere(es, p, j, n);
    ConformPrefix(NO_REQUESTS, es, j);
  }

  lemma {:induction false} CommitsStay(es: seq<Event>, n: nat, k: Key, c: Code)
    requires Conform(NO_REQUESTS, es) && n <= |es|
    ensures Conform(NO_REQUESTS, es[..n])
    ensures Commits(Replayed(NO_REQUESTS, es[..n]), k, c) <= Commits(Replayed(NO_REQUESTS, es), k, c)
    decreases |es| - n
  {
    ConformPrefix(NO_REQUESTS, es, n);
    if n < |es| {
      CommitsStay(es, n + 1, k, c);
      CommitsGrowOnly(Replayed(NO_REQUESTS, es[..n]), es[n], k, c);
    } else {
      assert es[..n] == es;
    }
  }

  lemma MailedIsCommit(es: seq<Event>, p: Pid, k: Key, c: Code, i: int, j: int, l: int)
    requires Conform(NO_REQUESTS, es) && UpdatedAt(es, p, k, c, true, i, j, l)
    ensures Commits(Replayed(NO_REQUESTS, es), k, c) > 0
  {
    UpdatingUntil(es, p, k, c, i, j, l);
    ConformPrefix(NO_REQUESTS, es, l);
    CommitsStay(es, l + 1, k, c);
  }

  /** In every history a code has led to its one commit exactly when some request
      claimed it, then sent the mail with the new password, then stored that
      password, with nothing else happening to the request in between. */
  lemma CommitIffMailed(now: int, moves: seq<Move>, k: Key, c: Code)
    requires IsHistory(Init(now), NO_REQUESTS, moves)
    ensures Commits(After(Init(now), NO_REQUESTS, moves).1, k, c) == 1 <==>
            CommittedWith(Events(Init(now), NO_REQUESTS, moves), k, c)
  {
    var es := Events(Init(now), NO_REQUESTS, moves);
    HistoryConforms(Init(now), NO_REQUESTS, moves);
    OneHolderOneCommit(now, moves, k, c);
    if CommittedWith(es, k, c) {
      var p, i, j, l :| UpdatedAt(es, p, k, c, true, i, j, l);
      MailedIsCommit(es, p, k, c, i, j, l);
    } else if Commits(After(Init(now), NO_REQUESTS, moves).1, k, c) == 1 {
      CommitWasMailed(es, k, c);
    }
  }

  /** A request whose mail failed commits nothing with that claim. */
  lemma FailedMailNeverCommits(es: seq<Event>, p: Pid, k: Key, c: Code, i: int, j: int, j': int, l: int)
    requires MailedAt(es, p, k, c, false, i, j)
    ensures !UpdatedAt(es, p, k, c, true, i, j', l)
  {
    assert Own(es[j], p);
    if UpdatedAt(es, p, k, c, true, i, j', l) {
      assert Own(es[j'], p);
    }
  }

  /** A code is given back only after its mail or its update failed, and deleted only
      after a password was committed with it. */
  lemma EndsAsItWent(now: int, moves: seq<Move>, n: nat, p: Pid)
    requires IsHistory(Init(now), NO_REQUESTS, moves) && n < |moves|
    requires var e := Events(Init(now), NO_REQUESTS, moves)[n];
             e.StoreEvent? && e.p == p && (IsRelease(e.act) || IsDelete(e.act))
    ensures var es := Events(Init(now), NO_REQUESTS, moves)[..n];
            var act := Events(Init(now), NO_REQUESTS, moves)[n].act;
            if IsRelease(act) then
              || (exists i, j :: MailedAt(es, p, act.k, act.c, false, i, j) && Quiet(es, p, j, n))
              || (exists i, j, l :: UpdatedAt(es, p, act.k, act.c, false, i, j, l) && Quiet(es, p, l, n))
            else
              exists c, i, j, l :: UpdatedAt(es, p, act.k, c, true, i, j, l) && Quiet(es, p, l, n)
  {
    var all := Events(Init(now), NO_REQUESTS, moves);
    HistoryConforms(Init(now), NO_REQUESTS, moves);
    ConformPrefix(NO_REQUESTS, all, n);
    AllExplained(all[..n], p);
  }

  // ----- what deletion does not protect -----

  /** The event stores the code c under the key k. */
  predicate Issues(e: Event, k: Key, c: Code) {
    e.StoreEvent? && Stores(e.act, k, c)
  }

  lemma {:induction false} StoredSinceIsIssued(s: Redis, r: Requests, moves: seq<Move>, k: Key, c: Code)
    requires Sound(s, r) && IsHistory(s, r, moves)
    requires Holds(Abs(After(s, r, moves).0), k, c) && !Holds(Abs(s), k, c)
    ensures exists j :: 0 <= j < |moves| && Issues(Events(s, r, moves)[j], k, c)
    decreases |moves|
  {
    if moves != [] {
      var m := moves[0];
      var s1, r1 := RedisAfter(s, m), Respond(r, EventOf(s, m));
      MoveKeepsSound(s, r, m);
      var es := Events(s, r, moves);
      if Holds(Abs(s1), k, c) {
        NewCodeIsStored(Abs(s), EventOf(s, m).act, k, c);
        assert Issues(es[0], k, c);
      } else {
        StoredSinceIsIssued(s1, r1, moves[1..], k, c);
        var j :| 0 <= j < |moves[1..]| && Issues(Events(s1, r1, moves[1..])[j], k, c);
        assert es[j + 1] == Events(s1, r1, moves[1..])[j];
      }
    }
  }

  /** No registration of the code is still under way. */
  ghost predicate Settled(s: Redis, k: Key, c: Code) {
    forall nonce :: LateSet(k, c, nonce) !in s.late
  }

  lemma SettledStays(s: Redis, r: Requests, m: Move, k: Key, c: Code)
    requires Possible(s, r, m) && ResetKey(k) && (k, c) in r.issued && Settled(s, k, c)
    ensures Settled(RedisAfter(s, m), k, c) && (k, c) in Respond(r, EventOf(s, m)).issued
    ensures !Issues(EventOf(s, m), k, c)
  {
    if m.RedisMove? {
      forall nonce
        ensures LateSet(k, c, nonce) !in Next(s, m.action).late
      {
        if LateSet(k, c, nonce) in Next(s, m.action).late {
          LateBefore(s, m.action, LateSet(k, c, nonce));
        }
      }
      if LabelOf(s, m.action).TookEffect? && Stores(LabelOf(s, m.action), k, c) {
        LateRegisterIsDelivery(s, m.action, k, c);
      }
    }
  }

  /** What is stored later is not what was issued before, unless it was under way. */
  lemma {:induction false} IssuedLaterIsNew(s: Redis, r: Requests, moves: seq<Move>, k: Key, c: Code, j: nat)
    requires IsHistory(s, r, moves) && ResetKey(k) && (k, c) in r.issued && Settled(s, k, c) && j < |moves|
    ensures !Issues(Events(s, r, moves)[j], k, c)
    decreases |moves|
  {
    var m := moves[0];
    SettledStays(s, r, m, k, c);
    if j > 0 {
      IssuedLaterIsNew(RedisAfter(s, m), Respond(r, EventOf(s, m)), moves[1..], k, c, j - 1);
    }
  }

  lemma {:induction false} SplitAfter(s: Redis, r: Requests, moves: seq<Move>, i: nat)
    requires IsHistory(s, r, moves) && i <= |moves|
    ensures IsHistory(s, r, moves[..i])
    ensures var (s1, r1) := After(s, r, moves[..i]);
            IsHistory(s1, r1, moves[i..]) && After(s1, r1, moves[i..]) == After(s, r, moves)
    decreases |moves|
  {
    if i > 0 {
      var m := moves[0];
      SplitAfter(RedisAfter(s, m), Respond(r, EventOf(s, m)), moves[1..], i - 1);
      assert moves[..i][0] == m && moves[..i][1..] == moves[1..][..i - 1];
      assert moves[1..][i - 1..] == moves[i..];
    } else {
      assert moves[..i] == [] && moves[i..] == moves;
    }
  }

  lemma {:induction false} SplitEvents(s: Redis, r: Requests, moves: seq<Move>, i: nat)
    requires IsHistory(s, r, moves) && i <= |moves| && IsHistory(s, r, moves[..i])
    requires IsHistory(After(s, r, moves[..i]).0, After(s, r, moves[..i]).1, moves[i..])
    ensures var (s1, r1) := After(s, r, moves[..i]);
            Events(s, r, moves) == Events(s, r, moves[..i]) + Events(s1, r1, moves[i..])
    decreases |moves|
  {
    if i > 0 {
      var m := moves[0];
      assert moves[..i][0] == m && moves[..i][1..] == moves[1..][..i - 1];
      assert moves[1..][i - 1..] == moves[i..];
      SplitEvents(RedisAfter(s, m), Respond(r, EventOf(s, m)), moves[1..], i - 1);
    } else {
      assert moves[..i] == [] && moves[i..] == moves;
    }
  }

  lemma SplitHistory(s: Redis, r: Requests, moves: seq<Move>, i: nat)
    requires IsHistory(s, r, moves) && i <= |moves|
    ensures IsHistory(s, r, moves[..i])
    ensures var (s1, r1) := After(s, r, moves[..i]);
            && IsHistory(s1, r1, moves[i..]) && After(s1, r1, moves[i..]) == After(s, r, moves)
            && Events(s, r, moves) == Events(s, r, moves[..i]) + Events(s1, r1, moves[i..])
  {
    SplitAfter(s, r, moves, i);
    SplitEvents(s, r, moves, i);
  }

  lemma StoredIsSettled(s: Redis, r: Requests, k: Key, c: Code)
    requires Sound(s, r) && ResetKey(k) && Holds(Abs(s), k, c)
    ensures Settled(s, k, c) && (k, c) in r.issued
  {
    forall nonce
      ensures LateSet(k, c, nonce) !in s.late
    {
      assert SetLinked(s, r, k, c, nonce);
    }
  }

  /** From a claim on: another code is stored exactly when it was issued since. */
  lemma AnotherIsStoredIff(s: Redis, r: Requests, moves: seq<Move>, k: Key, c: Code, c': Code)
    requires Sound(s, r) && IsHistory(s, r, moves) && ResetKey(k) && Holds(Abs(s), k, c)
    ensures var t := Abs(After(s, r, moves).0);
            Holds(t, k, c') && c' != c <==>
            Holds(t, k, c') && exists j :: 0 <= j < |moves| && Issues(Events(s, r, moves)[j], k, c')
  {
    if Holds(Abs(After(s, r, moves).0), k, c') {
      StoredIsSettled(s, r, k, c);
      if c' != c {
        StoredSinceIsIssued(s, r, moves, k, c');
      } else {
        forall j | 0 <= j < |moves|
          ensures !Issues(Events(s, r, moves)[j], k, c)
        {
          IssuedLaterIsNew(s, r, moves, k, c, j);
        }
      }
    }
  }

  /** After a claim event the code is stored. */
  lemma ClaimLeavesCode(s: Redis, r: Requests, m: Move, p: Pid, k: Key, c: Code)
    requires Sound(s, r) && Possible(s, r, m) && IsClaim(EventOf(s, m), p, k, c)
    ensures ResetKey(k) && Holds(Abs(RedisAfter(s, m)), k, c)
  {
    MoveKeepsSound(s, r, m);
  }

  /** The unconditional delete of a finished reset takes another token with it, usable
      or held by another request, exactly when that token was issued after the claim
      of the reset and is still stored. */
  lemma DeleteTakesAnotherIff(now: int, moves: seq<Move>, p: Pid, k: Key, c: Code, i: nat, c': Code)
    requires IsHistory(Init(now), NO_REQUESTS, moves) && i < |moves|
    requires IsClaim(Events(Init(now), NO_REQUESTS, moves)[i], p, k, c)
    requires HandlerOf(After(Init(now), NO_REQUESTS, moves).1, p) == Consuming(k, c)
    ensures var (s, r) := After(Init(now), NO_REQUESTS, moves);
            && Possible(s, r, RedisMove(p, Del(k)))
            && (Takes(Abs(s), Abs(RedisAfter(s, RedisMove(p, Del(k)))), k, c') && c' != c <==>
                Holds(Abs(s), k, c') && IssuedAfter(Events(Init(now), NO_REQUESTS, moves), i, k, c'))
  {
    StartIsSound(now);
    AnotherSinceClaimIff(Init(now), NO_REQUESTS, moves, p, k, c, i, c');
    DeleteEffect(After(Init(now), NO_REQUESTS, moves).0, After(Init(now), NO_REQUESTS, moves).1, p, k, c, c');
  }

  lemma DeleteEffect(s: Redis, r: Requests, p: Pid, k: Key, c: Code, c': Code)
    requires HandlerOf(r, p) == Consuming(k, c)
    ensures Possible(s, r, RedisMove(p, Del(k)))
    ensures Takes(Abs(s), Abs(RedisAfter(s, RedisMove(p, Del(k)))), k, c') <==> Holds(Abs(s), k, c')
  {
    RemoveAgrees(s, k);
  }

  lemma AnotherSinceClaimIff(s: Redis, r: Requests, moves: seq<Move>, p: Pid, k: Key, c: Code, i: nat, c': Code)
    requires Sound(s, r) && IsHistory(s, r, moves) && i < |moves|
    requires IsClaim(Events(s, r, moves)[i], p, k, c)
    ensures var t := Abs(After(s, r, moves).0);
            Holds(t, k, c') && c' != c <==> Holds(t, k, c') && IssuedAfter(Events(s, r, moves), i, k, c')
  {
    SplitHistory(s, r, moves, i + 1);
    var first, rest := moves[..i + 1], moves[i + 1..];
    var (s1, r1) := After(s, r, first);
    HistoryIsSafe(s, r, first);
    CodeAfterClaim(s, r, first, p, k, c);
    AnotherIsStoredIff(s1, r1, rest, k, c, c');
    ShiftIssued(Events(s, r, moves), Events(s1, r1, rest), i, k, c');
  }

  lemma {:induction false} CodeAfterClaim(s: Redis, r: Requests, moves: seq<Move>, p: Pid, k: Key, c: Code)
    requires Sound(s, r) && IsHistory(s, r, moves) && moves != []
    requires IsClaim(Events(s, r, moves)[|moves| - 1], p, k, c)
    ensures ResetKey(k) && Holds(Abs(After(s, r, moves).0), k, c)
    decreases |moves|
  {
    var m := moves[0];
    if |moves| == 1 {
      ClaimLeavesCode(s, r, m, p, k, c);
    } else {
      MoveKeepsSound(s, r, m);
      CodeAfterClaim(RedisAfter(s, m), Respond(r, EventOf(s, m)), moves[1..], p, k, c);
    }
  }

  /** The code was stored before and the key is gone afterwards. */
  predicate Takes(t: Store, t': Store, k: Key, c: Code) {
    Holds(t, k, c) && k !in t'
  }

  ghost predicate IssuedAfter(es: seq<Event>, i: nat, k: Key, c: Code) {
    exists j :: i < j < |es| && Issues(es[j], k, c)
  }

  lemma ShiftIssued(es: seq<Event>, later: seq<Event>, i: nat, k: Key, c: Code)
    requires i < |es| && es[i + 1..] == later
    ensures IssuedAfter(es, i, k, c) <==> exists j :: 0 <= j < |later| && Issues(later[j], k, c)
  {
    forall j | 0 <= j < |later|
      ensures later[j] == es[i + 1 + j]
    {
    }
    if IssuedAfter(es, i, k, c) {
      var j :| i < j < |es| && Issues(es[j], k, c);
      assert Issues(later[j - i - 1], k, c);
    }
  }

  /** A token that was taken cannot be given back by the request that holds it. */
  lemma TakenIsGone(t: Store, k: Key, c: Code)
    ensures Release(Delete(t, k), k, c) == Delete(t, k) && !Usable(Delete(t, k), k, c)
  {
  }

  predicate WorksOn(h: Handler, k: Key, c: Code) {
    !h.Away? && h.k == k && h.c == c
  }

  /** Every request that works on a code has claimed it. */
  lemma {:induction false} WorkerHasClaimed(s: Redis, r: Requests, moves: seq<Move>, p: Pid, k: Key, c: Code)
    returns (i: nat)
    requires IsHistory(s, r, moves) && !WorksOn(HandlerOf(r, p), k, c)
    requires WorksOn(HandlerOf(After(s, r, moves).1, p), k, c)
    ensures i < |moves| && IsClaim(Events(s, r, moves)[i], p, k, c)
    decreases |moves|
  {
    var m := moves[0];
    var e := EventOf(s, m);
    var r1 := Respond(r, e);
    if WorksOn(HandlerOf(r1, p), k, c) {
      OnlyClaimsStart(r, e, p, k, c);
      i := 0;
    } else {
      var j := WorkerHasClaimed(RedisAfter(s, m), r1, moves[1..], p, k, c);
      i := j + 1;
    }
  }

  lemma OnlyClaimsStart(r: Requests, e: Event, p: Pid, k: Key, c: Code)
    requires Permitted(r, e) && !WorksOn(HandlerOf(r, p), k, c) && WorksOn(HandlerOf(Respond(r, e), p), k, c)
    ensures IsClaim(e, p, k, c)
  {
  }

  /** A history can be extended at its end. */
  lemma {:induction false} Extend(s: Redis, r: Requests, moves: seq<Move>, m: Move)
    requires IsHistory(s, r, moves)
    requires var (s', r') := After(s, r, moves); Possible(s', r', m)
    ensures IsHistory(s, r, moves + [m])
    ensures var (s', r') := After(s, r, moves);
            After(s, r, moves + [m]) == (RedisAfter(s', m), Respond(r', EventOf(s', m)))
    decreases |moves|
  {
    var all := moves + [m];
    if moves == [] {
      assert all[0] == m && all[1..] == [];
    } else {
      Extend(RedisAfter(s, moves[0]), Respond(r, EventOf(s, moves[0])), moves[1..], m);
      assert all[0] == moves[0] && all[1..] == moves[1..] + [m];
    }
  }

  /** The histories that lead to a given state from the start. */
  ghost predicate Leads(moves: seq<Move>, s: Redis, r: Requests) {
    IsHistory(Init(0), NO_REQUESTS, moves) && After(Init(0), NO_REQUESTS, moves) == (s, r)
  }

  lemma Step(moves: seq<Move>, s: Redis, r: Requests, m: Move) returns (longer: seq<Move>)
    requires Leads(moves, s, r) && Possible(s, r, m)
    ensures Leads(longer, RedisAfter(s, m), Respond(r, EventOf(s, m)))
  {
    Extend(Init(0), NO_REQUESTS, moves, m);
    longer := moves + [m];
  }

  lemma ReadSteps(moves: seq<Move>, s: Redis, r: Requests, p: Pid, op: Op) returns (longer: seq<Move>)
    requires Leads(moves, s, r)
    requires PcOf(s, p).Idle? && Proceeds(op, Stored(s, op.k))
    ensures Leads(longer, ReadyToCommit(s, p, op), r)
  {
    UndisturbedRead(s, p, op);
    var s1 := Next(s, Begin(p, op));
    var s2 := Next(s1, Watch(p));
    longer := Step(moves, s, r, RedisMove(p, Begin(p, op)));
    longer := Step(longer, s1, r, RedisMove(p, Watch(p)));
    longer := Step(longer, s2, r, RedisMove(p, HGetAll(p)));
  }

  /** From any point of a history, an idle request can claim a usable code. */
  lemma ClaimSteps(moves: seq<Move>, s: Redis, r: Requests, p: Pid, k: Key, c: Code)
    returns (longer: seq<Move>, s': Redis)
    requires Leads(moves, s, r)
    requires PcOf(s, p).Idle? && HandlerOf(r, p).Away? && ResetKey(k) && Usable(Abs(s), k, c)
    ensures Leads(longer, s', SetHandler(r, p, Mailing(k, c)))
    ensures Abs(s') == Claim(Abs(s), k, c)
  {
    var op := ClaimOp(k, c);
    HistoryIsSafeFromStart(0, moves);
    StoredProceeds(s, op);
    longer := ReadSteps(moves, s, r, p, op);
    longer := WinStep(longer, s, r, p, k, c);
    CommittedIsAtomic(s, p, op);
    s' := Committed(s, p, op);
  }

  lemma WinStep(moves: seq<Move>, s: Redis, r: Requests, p: Pid, k: Key, c: Code) returns (longer: seq<Move>)
    requires Leads(moves, ReadyToCommit(s, p, ClaimOp(k, c)), r) && HandlerOf(r, p).Away? && ResetKey(k)
    ensures Leads(longer, Committed(s, p, ClaimOp(k, c)), SetHandler(r, p, Mailing(k, c)))
  {
    UndisturbedExec(s, p, ClaimOp(k, c));
    longer := Step(moves, ReadyToCommit(s, p, ClaimOp(k, c)), r, RedisMove(p, Exec(p)));
  }

  /** For every reset key and two codes there is a run in which one reset commits
      with the older code and then deletes the newer one that nobody has used. */
  lemma OlderResetDeletesNewerToken(k: Key, older: Code, newer: Code)
    returns (moves: seq<Move>, s: Redis, r: Requests)
    requires ResetKey(k) && older != newer
    ensures Leads(moves, s, r)
    ensures Commits(r, k, older) == 1 && Commits(r, k, newer) == 0
    ensures (k, newer) in r.issued && !Usable(Abs(s), k, newer)
  {
    moves, s := IssueFirst(k, older);
    r := NO_REQUESTS.(issued := {(k, older)});
    moves, s := ClaimSteps(moves, s, r, 1, k, older);
    r := SetHandler(r, 1, Mailing(k, older));
    moves := RotateWhileMailing(moves, s, r, 1, k, older, newer);
    s, r := StoreCode(s, k, newer), SetHandler(r, 1, Updating(k, older)).(issued := r.issued + {(k, newer)});
    moves, r := CommitAndDelete(moves, s, r, 1, k, older);
    RemoveAgrees(s, k);
    s := Remove(s, k);
  }

  /** The shortest history with a token in it. */
  lemma IssueFirst(k: Key, c: Code) returns (moves: seq<Move>, s: Redis)
    requires ResetKey(k)
    ensures Leads(moves, s, NO_REQUESTS.(issued := {(k, c)}))
    ensures PcOf(s, 1).Idle? && Usable(Abs(s), k, c)
  {
    s := StoreCode(Init(0), k, c);
    moves := Step([], Init(0), NO_REQUESTS, RedisMove(0, SetCode(k, c)));
    assert NO_REQUESTS.issued + {(k, c)} == {(k, c)};
    StoreCodeAgrees(Init(0), k, c);
  }

  lemma RotateWhileMailing(moves: seq<Move>, s: Redis, r: Requests, p: Pid, k: Key, c: Code, newer: Code)
    returns (longer: seq<Move>)
    requires Leads(moves, s, r) && HandlerOf(r, p) == Mailing(k, c) && MayIssue(r, k, newer)
    ensures Leads(longer, StoreCode(s, k, newer),
                  SetHandler(r, p, Updating(k, c)).(issued := r.issued + {(k, newer)}))
  {
    longer := Step(moves, s, r, LocalMove(MailResult(p, true)));
    longer := Step(longer, s, SetHandler(r, p, Updating(k, c)), RedisMove(p, SetCode(k, newer)));
  }

  lemma CommitAndDelete(moves: seq<Move>, s: Redis, r: Requests, p: Pid, k: Key, c: Code)
    returns (longer: seq<Move>, r': Requests)
    requires Leads(moves, s, r) && HandlerOf(r, p) == Updating(k, c)
    ensures Leads(longer, Remove(s, k), r')
    ensures r'.issued == r.issued && r'.commits == r.commits[(k, c) := Commits(r, k, c) + 1]
  {
    var committed := Respond(r, UpdateResult(p, true));
    assert HandlerOf(committed, p) == Consuming(k, c);
    longer := Step(moves, s, r, LocalMove(UpdateResult(p, true)));
    longer := Step(longer, s, committed, RedisMove(p, Del(k)));
    r' := SetHandler(committed, p, Away);
  }
}
