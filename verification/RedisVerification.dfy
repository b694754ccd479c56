/** The shared verification store: Redis hashes with a time to live, rewritten by
    optimistic transactions of any number of instances. */
module RedisVerification {
  import opened VerificationSpec

  type Pid = nat

  /** The fields of the hash and their stored text. */
  datatype Field = CodeField | ClaimedField
  type Fields = map<Field, string>

  datatype Deadline = NoTTL | At(time: int)

  /** A Redis hash; HSET on a missing key creates one without a time to live. */
  datatype Hash = Hash(fields: Fields, deadline: Deadline)

  datatype Op = ClaimOp(k: Key, c: Code) | ReleaseOp(k: Key, c: Code)

  /** Where an instance is inside watchVerificationValue. start is the version of
      the key when the call began and ver the one its current WATCH saw. */
  datatype Pc =
    | Idle
    | Begun(op: Op, attempt: nat, start: nat)
    | Watched(op: Op, attempt: nat, start: nat, ver: nat)
    | HasRead(op: Op, attempt: nat, start: nat, ver: nat, values: Fields)

  /** Commands whose caller has given up and that may still take effect: the EXEC of a
      call, which the server still checks against its WATCH, a registration, which runs
      at most once, and a deletion. */
  datatype Late = LateExec(pc: Pc) | LateSet(k: Key, c: Code, nonce: nat) | LateDel(k: Key)

  /** version counts the writes, deletions and expiries of a key. */
  datatype Redis = Redis(
    now: int, hashes: map<Key, Hash>, version: map<Key, nat>, procs: map<Pid, Pc>, late: set<Late>)

  const MAX_ATTEMPTS := 3

  /** Giving up on a command, and its late effect. */
  datatype SlowStep =
    | Abandon(p: Pid)
    | AbandonSet(k: Key, c: Code, nonce: nat)
    | AbandonDel(k: Key)
    | Deliver(late: Late)

  datatype Action =
    | Advance(to: int)
    | SetCode(k: Key, c: Code)
    | SetCodeFails(k: Key, c: Code, applied: bool)
    | Look(k: Key, c: Code)
    | LookFails(k: Key, c: Code)
    | Del(k: Key)
    | DelFails(k: Key, applied: bool)
    | Begin(p: Pid, op: Op)
    | Watch(p: Pid)
    | HGetAll(p: Pid)
    | Exec(p: Pid)
    | ConnectionError(p: Pid, applied: bool)
    | Slow(step: SlowStep)

  /** What a command does that nobody waits for any more. */
  datatype Effect =
    | LateClaim(k: Key, c: Code)
    | LateRelease(k: Key, c: Code)
    | LateRegister(k: Key, c: Code, at: int)
    | LateDelete(k: Key)

  /** What the callers of the store can see of a step. */
  datatype Label =
    | Silent
    | Tick(now: int)
    | Registered(k: Key, c: Code, at: int)
    | RegisterError(k: Key, c: Code, at: int, applied: bool)
    | Verified(k: Key, c: Code, ok: bool)
    | VerifyError(k: Key, c: Code)
    | Claimed(k: Key, c: Code, ok: bool)
    | ClaimLostRaces(k: Key, c: Code)
    | ClaimError(k: Key, c: Code, applied: bool)
    | Released(k: Key, c: Code)
    | ReleaseLostRaces(k: Key, c: Code)
    | ReleaseError(k: Key, c: Code, applied: bool)
    | Deleted(k: Key)
    | DeleteError(k: Key, applied: bool)
    | TookEffect(effect: Effect)

  // ----- Redis commands -----

  function Get(values: Fields, f: Field): string {
    if f in values then values[f] else ""
  }

  function Stored(s: Redis, k: Key): Fields {
    if k in s.hashes then s.hashes[k].fields else map[]
  }

  function VersionOf(s: Redis, k: Key): nat {
    if k in s.version then s.version[k] else 0
  }

  function PcOf(s: Redis, p: Pid): Pc {
    if p in s.procs then s.procs[p] else Idle
  }

  function SetPc(s: Redis, p: Pid, pc: Pc): Redis {
    s.(procs := s.procs[p := pc])
  }

  function Bump(s: Redis, k: Key): map<Key, nat> {
    s.version[k := VersionOf(s, k) + 1]
  }

  predicate Elapsed(h: Hash, now: int) {
    h.deadline.At? && h.deadline.time <= now
  }

  /** HSET key field value ... keeps the remaining time to live. */
  function HSet(s: Redis, k: Key, fields: Fields): Redis {
    var deadline := if k in s.hashes then s.hashes[k].deadline else NoTTL;
    s.(hashes := s.hashes[k := Hash(Stored(s, k) + fields, deadline)], version := Bump(s, k))
  }

  /** MULTI; HSET key code c claimed 0; EXPIRE key TTL; EXEC. */
  function StoreCode(s: Redis, k: Key, c: Code): Redis {
    var fields := Stored(s, k) + map[CodeField := c, ClaimedField := "0"];
    s.(hashes := s.hashes[k := Hash(fields, At(s.now + TTL))], version := Bump(s, k))
  }

  function Remove(s: Redis, k: Key): Redis {
    if k in s.hashes then s.(hashes := s.hashes - {k}, version := Bump(s, k)) else s
  }

  /** Keys whose time is up vanish, which invalidates the transactions watching them. */
  function AdvanceTo(s: Redis, to: int): Redis {
    Redis(to,
          map k | k in s.hashes && !Elapsed(s.hashes[k], to) :: s.hashes[k],
          map k | k in s.version.Keys + s.hashes.Keys ::
            VersionOf(s, k) + (if k in s.hashes && Elapsed(s.hashes[k], to) then 1 else 0),
          s.procs,
          s.late)
  }

  // ----- watchVerificationValue and its two callbacks -----

  /** Whether the callback writes after having read these values. */
  predicate Proceeds(op: Op, values: Fields) {
    match op
    case ClaimOp(_, c) => !(values == map[] || Get(values, ClaimedField) == "1" || Get(values, CodeField) != c)
    case ReleaseOp(_, c) => !(values == map[] || Get(values, CodeField) != c)
  }

  function ClaimedValue(op: Op): string {
    if op.ClaimOp? then "1" else "0"
  }

  function Write(s: Redis, op: Op): Redis {
    HSet(s, op.k, map[ClaimedField := ClaimedValue(op)])
  }

  /** EXEC runs the queued HSET unless the watched key has changed. */
  predicate Unchanged(s: Redis, pc: Pc)
    requires pc.HasRead?
  {
    VersionOf(s, pc.op.k) == pc.ver
  }

  function Retry(pc: Pc): Pc
    requires pc.HasRead?
  {
    if pc.attempt + 1 < MAX_ATTEMPTS then Begun(pc.op, pc.attempt + 1, pc.start) else Idle
  }

  predicate SlowEnabled(s: Redis, step: SlowStep) {
    match step
    case Abandon(p) => PcOf(s, p).HasRead?
    case AbandonSet(k, c, nonce) => LateSet(k, c, nonce) !in s.late
    case AbandonDel(_) => true
    case Deliver(late) => late in s.late && (late.LateExec? ==> late.pc.HasRead?)
  }

  function SlowNext(s: Redis, step: SlowStep): Redis
    requires SlowEnabled(s, step)
  {
    match step
    case Abandon(p) => SetPc(s.(late := s.late + {LateExec(PcOf(s, p))}), p, Idle)
    case AbandonSet(k, c, nonce) => s.(late := s.late + {LateSet(k, c, nonce)})
    case AbandonDel(k) => s.(late := s.late + {LateDel(k)})
    case Deliver(late) =>
      match late
      case LateExec(pc) => if Unchanged(s, pc) then Write(s, pc.op) else s
      case LateSet(k, c, _) => StoreCode(s.(late := s.late - {late}), k, c)
      case LateDel(k) => Remove(s, k)
  }

  function ErrorLabel(op: Op, applied: bool): Label {
    match op
    case ClaimOp(k, c) => ClaimError(k, c, applied)
    case ReleaseOp(k, c) => ReleaseError(k, c, applied)
  }

  function SlowLabel(s: Redis, step: SlowStep): Label
    requires SlowEnabled(s, step)
  {
    match step
    case Abandon(p) => ErrorLabel(PcOf(s, p).op, false)
    case AbandonSet(k, c, _) => RegisterError(k, c, s.now, false)
    case AbandonDel(k) => DeleteError(k, false)
    case Deliver(late) =>
      match late
      case LateExec(pc) =>
        if !Unchanged(s, pc) then Silent
        else TookEffect(if pc.op.ClaimOp? then LateClaim(pc.op.k, pc.op.c) else LateRelease(pc.op.k, pc.op.c))
      case LateSet(k, c, _) => TookEffect(LateRegister(k, c, s.now))
      case LateDel(k) => TookEffect(LateDelete(k))
  }

  predicate Enabled(s: Redis, a: Action) {
    match a
    case Advance(to) => s.now <= to
    case Begin(p, _) => PcOf(s, p).Idle?
    case Watch(p) => PcOf(s, p).Begun?
    case HGetAll(p) => PcOf(s, p).Watched?
    case Exec(p) => PcOf(s, p).HasRead?
    case ConnectionError(p, applied) =>
      !PcOf(s, p).Idle? && (applied ==> PcOf(s, p).HasRead? && Unchanged(s, PcOf(s, p)))
    case Slow(step) => SlowEnabled(s, step)
    case _ => true
  }

  function Next(s: Redis, a: Action): Redis
    requires Enabled(s, a)
  {
    match a
    case Advance(to) => AdvanceTo(s, to)
    case SetCode(k, c) => StoreCode(s, k, c)
    case SetCodeFails(k, c, applied) => if applied then StoreCode(s, k, c) else s
    case Look(_, _) => s
    case LookFails(_, _) => s
    case Del(k) => Remove(s, k)
    case DelFails(k, applied) => if applied then Remove(s, k) else s
    case Begin(p, op) => SetPc(s, p, Begun(op, 0, VersionOf(s, op.k)))
    case Watch(p) =>
      var pc := PcOf(s, p);
      SetPc(s, p, Watched(pc.op, pc.attempt, pc.start, VersionOf(s, pc.op.k)))
    case HGetAll(p) =>
      var pc := PcOf(s, p);
      var values := Stored(s, pc.op.k);
      SetPc(s, p, if Proceeds(pc.op, values) then HasRead(pc.op, pc.attempt, pc.start, pc.ver, values) else Idle)
    case Exec(p) =>
      var pc := PcOf(s, p);
      if Unchanged(s, pc) then SetPc(Write(s, pc.op), p, Idle) else SetPc(s, p, Retry(pc))
    case ConnectionError(p, applied) =>
      SetPc(if applied then Write(s, PcOf(s, p).op) else s, p, Idle)
    case Slow(step) => SlowNext(s, step)
  }

  function Answer(op: Op, ok: bool): Label {
    match op
    case ClaimOp(k, c) => Claimed(k, c, ok)
    case ReleaseOp(k, c) => Released(k, c)
  }

  function LostRaces(op: Op): Label {
    match op
    case ClaimOp(k, c) => ClaimLostRaces(k, c)
    case ReleaseOp(k, c) => ReleaseLostRaces(k, c)
  }

  function LabelOf(s: Redis, a: Action): Label
    requires Enabled(s, a)
  {
    match a
    case Advance(to) => Tick(to)
    case SetCode(k, c) => Registered(k, c, s.now)
    case SetCodeFails(k, c, applied) => RegisterError(k, c, s.now, applied)
    case Look(k, c) =>
      var values := Stored(s, k);
      Verified(k, c, if values == map[] || Get(values, ClaimedField) == "1" then false else c == Get(values, CodeField))
    case LookFails(k, c) => VerifyError(k, c)
    case Del(k) => Deleted(k)
    case DelFails(k, applied) => DeleteError(k, applied)
    case Begin(_, _) => Silent
    case Watch(_) => Silent
    case HGetAll(p) =>
      var op := PcOf(s, p).op;
      if Proceeds(op, Stored(s, op.k)) then Silent else Answer(op, false)
    case Exec(p) =>
      var pc := PcOf(s, p);
      if Unchanged(s, pc) then Answer(pc.op, true)
      else if Retry(pc).Idle? then LostRaces(pc.op)
      else Silent
    case ConnectionError(p, applied) => ErrorLabel(PcOf(s, p).op, applied)
    case Slow(step) => SlowLabel(s, step)
  }

  // ----- the atomic store seen through the same labels -----

  /** Whether the mutex-guarded map could give this answer. */
  predicate AtomicAllows(t: Store, l: Label) {
    match l
    case Verified(k, c, ok) => ok == Usable(t, k, c)
    case Claimed(k, c, ok) => ok == Usable(t, k, c)
    case ClaimError(k, c, applied) => applied ==> Usable(t, k, c)
    case TookEffect(effect) => effect.LateClaim? ==> Usable(t, effect.k, effect.c)
    case _ => true
  }

  function LateAtomicEffect(t: Store, e: Effect): Store {
    match e
    case LateClaim(k, c) => Claim(t, k, c)
    case LateRelease(k, c) => Release(t, k, c)
    case LateRegister(k, c, at) => Register(t, k, c, at)
    case LateDelete(k) => Delete(t, k)
  }

  /** What the mutex-guarded map does; a lost race or an error before the write does nothing. */
  function AtomicEffect(t: Store, l: Label): Store {
    match l
    case Silent => t
    case Tick(now) => Expire(t, now)
    case Registered(k, c, at) => Register(t, k, c, at)
    case RegisterError(k, c, at, applied) => if applied then Register(t, k, c, at) else t
    case Verified(_, _, _) => t
    case VerifyError(_, _) => t
    case Claimed(k, c, _) => Claim(t, k, c)
    case ClaimLostRaces(_, _) => t
    case ClaimError(k, c, applied) => if applied then Claim(t, k, c) else t
    case Released(k, c) => Release(t, k, c)
    case ReleaseLostRaces(_, _) => t
    case ReleaseError(k, c, applied) => if applied then Release(t, k, c) else t
    case Deleted(k) => Delete(t, k)
    case DeleteError(k, applied) => if applied then Delete(t, k) else t
    case TookEffect(effect) => LateAtomicEffect(t, effect)
  }

  // ----- refinement -----

  predicate WellFormed(h: Hash, now: int) {
    && h.fields.Keys == {CodeField, ClaimedField}
    && (h.fields[ClaimedField] == "0" || h.fields[ClaimedField] == "1")
    && h.deadline.At?
    && now < h.deadline.time
  }

  function EntryOf(h: Hash): Entry {
    Entry(Get(h.fields, CodeField), if h.deadline.At? then h.deadline.time else 0, Get(h.fields, ClaimedField) == "1")
  }

  ghost function Abs(s: Redis): Store {
    map k | k in s.hashes :: EntryOf(s.hashes[k])
  }

  ghost predicate PcOk(s: Redis, pc: Pc) {
    match pc
    case Idle => true
    case Begun(op, attempt, start) => attempt < MAX_ATTEMPTS && start + attempt <= VersionOf(s, op.k)
    case Watched(op, attempt, start, ver) => attempt < MAX_ATTEMPTS && start + attempt <= ver <= VersionOf(s, op.k)
    case HasRead(op, attempt, start, ver, values) =>
      && attempt < MAX_ATTEMPTS
      && start + attempt <= ver <= VersionOf(s, op.k)
      && Proceeds(op, values)
      && (VersionOf(s, op.k) == ver ==> Stored(s, op.k) == values)
  }

  ghost predicate Inv(s: Redis) {
    && (forall k :: k in s.hashes ==> WellFormed(s.hashes[k], s.now))
    && (forall p :: p in s.procs ==> PcOk(s, s.procs[p]))
    && (forall pc :: LateExec(pc) in s.late ==> LatePcOk(s, pc))
  }

  /** A late EXEC is checked against what its call has read. */
  ghost predicate LatePcOk(s: Redis, pc: Pc) {
    pc.HasRead? && PcOk(s, pc)
  }

  /** Versions only grow, and a key whose version did not change did not change. */
  ghost predicate Evolves(s: Redis, t: Redis) {
    forall k :: VersionOf(s, k) <= VersionOf(t, k)
                && (VersionOf(s, k) == VersionOf(t, k) ==> Stored(s, k) == Stored(t, k))
  }

  lemma SameEvolves(s: Redis, t: Redis)
    requires s.hashes == t.hashes && s.version == t.version
    ensures Evolves(s, t)
  {
  }

  lemma HSetEvolves(s: Redis, k: Key, fields: Fields)
    ensures Evolves(s, HSet(s, k, fields))
  {
  }

  lemma StoreEvolves(s: Redis, k: Key, c: Code)
    ensures Evolves(s, StoreCode(s, k, c))
  {
  }

  lemma RemoveEvolves(s: Redis, k: Key)
    ensures Evolves(s, Remove(s, k))
  {
  }

  lemma AdvanceEvolves(s: Redis, to: int)
    ensures Evolves(s, AdvanceTo(s, to))
  {
    var t := AdvanceTo(s, to);
    forall k
      ensures VersionOf(s, k) <= VersionOf(t, k)
      ensures VersionOf(s, k) == VersionOf(t, k) ==> Stored(s, k) == Stored(t, k)
    {
    }
  }

  lemma EvolvesTrans(s: Redis, t: Redis, u: Redis)
    requires Evolves(s, t) && t.hashes == u.hashes && t.version == u.version
    ensures Evolves(s, u)
  {
  }

  lemma SlowEvolves(s: Redis, step: SlowStep)
    requires SlowEnabled(s, step)
    ensures Evolves(s, SlowNext(s, step))
  {
    match step
    case Deliver(late) =>
      match late {
        case LateExec(pc) =>
          HSetEvolves(s, pc.op.k, map[ClaimedField := ClaimedValue(pc.op)]);
          SameEvolves(s, s);
        case LateSet(k, c, _) =>
          StoreEvolves(s, k, c);
          EvolvesTrans(s, StoreCode(s, k, c), SlowNext(s, step));
        case LateDel(k) => RemoveEvolves(s, k);
      }
    case _ => SameEvolves(s, SlowNext(s, step));
  }

  lemma WriteEvolves(s: Redis, op: Op, t: Redis)
    requires t.hashes == Write(s, op).hashes && t.version == Write(s, op).version
    ensures Evolves(s, t)
  {
    HSetEvolves(s, op.k, map[ClaimedField := ClaimedValue(op)]);
    EvolvesTrans(s, Write(s, op), t);
  }

  lemma NextEvolves(s: Redis, a: Action)
    requires Enabled(s, a)
    ensures Evolves(s, Next(s, a))
  {
    SameEvolves(s, s);
    match a
    case Advance(to) => AdvanceEvolves(s, to);
    case SetCode(k, c) => StoreEvolves(s, k, c);
    case SetCodeFails(k, c, _) => StoreEvolves(s, k, c);
    case Del(k) => RemoveEvolves(s, k);
    case DelFails(k, _) => RemoveEvolves(s, k);
    case Exec(p) =>
      if Unchanged(s, PcOf(s, p)) { WriteEvolves(s, PcOf(s, p).op, Next(s, a)); } else { SameEvolves(s, Next(s, a)); }
    case ConnectionError(p, applied) =>
      if applied { WriteEvolves(s, PcOf(s, p).op, Next(s, a)); } else { SameEvolves(s, Next(s, a)); }
    case Slow(step) => SlowEvolves(s, step);
    case _ => SameEvolves(s, Next(s, a));
  }

  /** What was read stays what is stored as long as the version stays. */
  lemma PcStaysOk(s: Redis, t: Redis, pc: Pc)
    requires Evolves(s, t) && PcOk(s, pc)
    ensures PcOk(t, pc)
  {
  }

  /** The instance that takes a step is in order afterwards. */
  lemma OwnPcOk(s: Redis, a: Action, p: Pid)
    requires Inv(s) && Enabled(s, a) && p in Next(s, a).procs
    requires p !in s.procs || Next(s, a).procs[p] != s.procs[p]
    ensures PcOk(Next(s, a), Next(s, a).procs[p])
  {
    assert PcOk(s, PcOf(s, p));
  }

  /** The inductive step: every step keeps the invariant, and with it the
      equality of version and value that makes the optimistic EXEC sound. */
  lemma InvStep(s: Redis, a: Action)
    requires Inv(s) && Enabled(s, a)
    ensures Inv(Next(s, a))
  {
    NextEvolves(s, a);
    var t := Next(s, a);
    HashesStayWellFormed(s, a);
    forall p | p in t.procs
      ensures PcOk(t, t.procs[p])
    {
      if p in s.procs && t.procs[p] == s.procs[p] {
        PcStaysOk(s, t, s.procs[p]);
      } else {
        OwnPcOk(s, a, p);
      }
    }
    forall pc | LateExec(pc) in t.late
      ensures LatePcOk(t, pc)
    {
      LateStaysOk(s, a, pc);
    }
  }

  lemma LateStaysOk(s: Redis, a: Action, pc: Pc)
    requires Inv(s) && Enabled(s, a) && Evolves(s, Next(s, a)) && LateExec(pc) in Next(s, a).late
    ensures LatePcOk(Next(s, a), pc)
  {
    if LateExec(pc) in s.late {
      assert LatePcOk(s, pc);
    } else {
      assert PcOk(s, PcOf(s, a.step.p));
    }
    PcStaysOk(s, Next(s, a), pc);
  }

  /** Replacing one hash replaces one entry of the atomic store. */
  lemma AbsUpdate(s: Redis, t: Redis, k: Key, h: Hash)
    requires t.hashes == s.hashes[k := h]
    ensures Abs(t) == Abs(s)[k := EntryOf(h)]
  {
  }

  /** The hash a registration leaves under its key. */
  lemma CodeHash(fields: Fields, c: Code, now: int, h: Hash)
    requires fields.Keys <= {CodeField, ClaimedField}
    requires h == Hash(fields + map[CodeField := c, ClaimedField := "0"], At(now + TTL))
    ensures WellFormed(h, now)
    ensures EntryOf(h) == Entry(c, now + TTL, false)
  {
    assert h.fields.Keys == {CodeField, ClaimedField};
  }

  /** The hash a claim or release leaves under a key that exists. */
  lemma MarkedHash(s: Redis, op: Op, h: Hash)
    requires op.k in s.hashes && WellFormed(s.hashes[op.k], s.now)
    requires h == Hash(s.hashes[op.k].fields + map[ClaimedField := ClaimedValue(op)], s.hashes[op.k].deadline)
    ensures Write(s, op).hashes == s.hashes[op.k := h]
    ensures WellFormed(h, s.now)
    ensures EntryOf(h) == EntryOf(s.hashes[op.k]).(claimed := op.ClaimOp?)
  {
    assert h.fields.Keys == {CodeField, ClaimedField};
  }

  lemma StoreCodeAgrees(s: Redis, k: Key, c: Code)
    requires Inv(s)
    ensures forall q :: q in StoreCode(s, k, c).hashes ==> WellFormed(StoreCode(s, k, c).hashes[q], s.now)
    ensures Abs(StoreCode(s, k, c)) == Register(Abs(s), k, c, s.now)
  {
    var h := Hash(Stored(s, k) + map[CodeField := c, ClaimedField := "0"], At(s.now + TTL));
    assert k in s.hashes ==> WellFormed(s.hashes[k], s.now);
    CodeHash(Stored(s, k), c, s.now, h);
    AbsUpdate(s, StoreCode(s, k, c), k, h);
  }

  /** The write of a transaction that was not invalidated finds the values it read. */
  lemma WriteAgrees(s: Redis, pc: Pc)
    requires Inv(s) && pc.HasRead? && PcOk(s, pc) && Unchanged(s, pc)
    ensures var op := pc.op;
            && op.k in s.hashes
            && Proceeds(op, s.hashes[op.k].fields)
            && (forall k :: k in Write(s, op).hashes ==> WellFormed(Write(s, op).hashes[k], s.now))
            && Abs(Write(s, op)) == Abs(s)[op.k := EntryOf(s.hashes[op.k]).(claimed := op.ClaimOp?)]
  {
    var op := pc.op;
    assert Stored(s, op.k) == pc.values;
    var h := Hash(s.hashes[op.k].fields + map[ClaimedField := ClaimedValue(op)], s.hashes[op.k].deadline);
    MarkedHash(s, op, h);
    AbsUpdate(s, Write(s, op), op.k, h);
  }

  /** ... so it is the atomic claim, or the atomic release, at that moment. */
  lemma CommitAgrees(s: Redis, pc: Pc)
    requires Inv(s) && pc.HasRead? && PcOk(s, pc) && Unchanged(s, pc)
    ensures var op := pc.op;
            && (op.ClaimOp? ==> Usable(Abs(s), op.k, op.c) && Abs(Write(s, op)) == Claim(Abs(s), op.k, op.c))
            && (op.ReleaseOp? ==> Abs(Write(s, op)) == Release(Abs(s), op.k, op.c))
  {
    WriteAgrees(s, pc);
    var op := pc.op;
    assert Abs(s)[op.k] == EntryOf(s.hashes[op.k]);
  }

  ghost predicate AllWellFormed(s: Redis) {
    forall k :: k in s.hashes ==> WellFormed(s.hashes[k], s.now)
  }

  lemma SameWellFormed(s: Redis, t: Redis)
    requires s.hashes == t.hashes && s.now == t.now && AllWellFormed(s)
    ensures AllWellFormed(t)
  {
  }

  lemma RemoveWellFormed(s: Redis, k: Key)
    requires AllWellFormed(s)
    ensures AllWellFormed(Remove(s, k))
  {
  }

  lemma LateExecWellFormed(s: Redis, pc: Pc)
    requires Inv(s) && LateExec(pc) in s.late && pc.HasRead?
    ensures Unchanged(s, pc) ==> AllWellFormed(Write(s, pc.op))
  {
    assert LatePcOk(s, pc);
    if Unchanged(s, pc) {
      WriteAgrees(s, pc);
    }
  }

  lemma DeliverStaysWellFormed(s: Redis, late: Late)
    requires Inv(s) && SlowEnabled(s, Deliver(late))
    ensures AllWellFormed(SlowNext(s, Deliver(late)))
  {
    assert AllWellFormed(s);
    match late
    case LateExec(pc) => LateExecWellFormed(s, pc);
    case LateSet(k, c, _) =>
      StoreCodeAgrees(s, k, c);
      SameWellFormed(StoreCode(s, k, c), SlowNext(s, Deliver(late)));
    case LateDel(k) => RemoveWellFormed(s, k);
  }

  lemma SlowStaysWellFormed(s: Redis, step: SlowStep)
    requires Inv(s) && SlowEnabled(s, step)
    ensures AllWellFormed(SlowNext(s, step))
  {
    assert AllWellFormed(s);
    match step
    case Deliver(late) => DeliverStaysWellFormed(s, late);
    case _ => SameWellFormed(s, SlowNext(s, step));
  }

  /** No step leaves a hash behind without its code or its time to live. */
  lemma HashesStayWellFormed(s: Redis, a: Action)
    requires Inv(s) && Enabled(s, a)
    ensures AllWellFormed(Next(s, a))
  {
    match a
    case SetCode(k, c) => StoreCodeAgrees(s, k, c);
    case SetCodeFails(k, c, applied) => StoreCodeAgrees(s, k, c);
    case Exec(p) => assert PcOk(s, PcOf(s, p)); if Unchanged(s, PcOf(s, p)) { WriteAgrees(s, PcOf(s, p)); }
    case ConnectionError(p, applied) => assert PcOk(s, PcOf(s, p)); if applied { WriteAgrees(s, PcOf(s, p)); }
    case Slow(step) => SlowStaysWellFormed(s, step);
    case _ =>
  }

  /** A call that reads a value it cannot use answers what the atomic store would. */
  lemma RefusalAgrees(s: Redis, op: Op)
    requires Inv(s)
    requires !Proceeds(op, Stored(s, op.k))
    ensures op.ClaimOp? ==> !Usable(Abs(s), op.k, op.c)
    ensures op.ReleaseOp? ==> Release(Abs(s), op.k, op.c) == Abs(s)
  {
    if op.k in s.hashes {
      assert WellFormed(s.hashes[op.k], s.now);
      assert CodeField in s.hashes[op.k].fields;
    }
  }

  lemma AdvanceAgrees(s: Redis, to: int)
    requires Inv(s)
    ensures Abs(AdvanceTo(s, to)) == Expire(Abs(s), to)
  {
    forall k | k in s.hashes
      ensures Elapsed(s.hashes[k], to) <==> EntryOf(s.hashes[k]).expiresAt <= to
    {
      assert WellFormed(s.hashes[k], s.now);
    }
  }

  lemma RemoveAgrees(s: Redis, k: Key)
    ensures Abs(Remove(s, k)) == Delete(Abs(s), k)
  {
  }

  lemma LookAgrees(s: Redis, k: Key, c: Code)
    requires Inv(s)
    ensures AtomicAllows(Abs(s), LabelOf(s, Look(k, c)))
  {
    if k in s.hashes {
      assert WellFormed(s.hashes[k], s.now);
      assert CodeField in s.hashes[k].fields;
    }
  }

  /** The atomic store depends on the hashes only. */
  lemma SameHashes(s: Redis, t: Redis)
    requires s.hashes == t.hashes
    ensures Abs(s) == Abs(t)
  {
  }

  /** The steps inside a claim or a release, one by one. */
  lemma HGetAllSimulates(s: Redis, p: Pid)
    requires Inv(s) && Enabled(s, HGetAll(p))
    ensures AtomicAllows(Abs(s), LabelOf(s, HGetAll(p)))
    ensures Abs(Next(s, HGetAll(p))) == AtomicEffect(Abs(s), LabelOf(s, HGetAll(p)))
  {
    var op := PcOf(s, p).op;
    SameHashes(s, Next(s, HGetAll(p)));
    if !Proceeds(op, Stored(s, op.k)) {
      RefusalAgrees(s, op);
    }
  }

  lemma ExecSimulates(s: Redis, p: Pid)
    requires Inv(s) && Enabled(s, Exec(p))
    ensures AtomicAllows(Abs(s), LabelOf(s, Exec(p)))
    ensures Abs(Next(s, Exec(p))) == AtomicEffect(Abs(s), LabelOf(s, Exec(p)))
  {
    var pc, t := PcOf(s, p), Next(s, Exec(p));
    assert PcOk(s, pc);
    if Unchanged(s, pc) {
      CommitAgrees(s, pc);
      SameHashes(Write(s, pc.op), t);
    } else {
      SameHashes(s, t);
    }
  }

  lemma ErrorSimulates(s: Redis, p: Pid, applied: bool)
    requires Inv(s) && Enabled(s, ConnectionError(p, applied))
    ensures AtomicAllows(Abs(s), LabelOf(s, ConnectionError(p, applied)))
    ensures Abs(Next(s, ConnectionError(p, applied))) == AtomicEffect(Abs(s), LabelOf(s, ConnectionError(p, applied)))
  {
    var pc, t := PcOf(s, p), Next(s, ConnectionError(p, applied));
    assert PcOk(s, pc);
    if applied {
      CommitAgrees(s, pc);
      SameHashes(Write(s, pc.op), t);
    } else {
      SameHashes(s, t);
    }
  }

  predicate InsideCall(a: Action) {
    a.Begin? || a.Watch? || a.HGetAll? || a.Exec? || a.ConnectionError?
  }

  lemma CallSimulates(s: Redis, a: Action)
    requires Inv(s) && Enabled(s, a) && InsideCall(a)
    ensures AtomicAllows(Abs(s), LabelOf(s, a))
    ensures Abs(Next(s, a)) == AtomicEffect(Abs(s), LabelOf(s, a))
  {
    match a
    case Begin(_, _) => SameHashes(s, Next(s, a));
    case Watch(_) => SameHashes(s, Next(s, a));
    case HGetAll(p) => HGetAllSimulates(s, p);
    case Exec(p) => ExecSimulates(s, p);
    case ConnectionError(p, applied) => ErrorSimulates(s, p, applied);
  }

  /** Giving up changes nothing, and a late effect is the atomic operation at the moment
      it takes place. */
  lemma SlowSimulates(s: Redis, step: SlowStep)
    requires Inv(s) && SlowEnabled(s, step)
    ensures AtomicAllows(Abs(s), SlowLabel(s, step))
    ensures Abs(SlowNext(s, step)) == AtomicEffect(Abs(s), SlowLabel(s, step))
  {
    match step
    case Abandon(p) => SameHashes(s, SlowNext(s, step));
    case AbandonSet(_, _, _) => SameHashes(s, SlowNext(s, step));
    case AbandonDel(_) => SameHashes(s, SlowNext(s, step));
    case Deliver(late) => DeliverSimulates(s, late);
  }

  /** A late effect on the atomic store, and what the label says it is. */
  ghost predicate Explains(t: Store, l: Label, t': Store) {
    AtomicAllows(t, l) && t' == AtomicEffect(t, l)
  }

  lemma ExplainsLate(t: Store, e: Effect, t': Store)
    requires t' == LateAtomicEffect(t, e) && (e.LateClaim? ==> Usable(t, e.k, e.c))
    ensures Explains(t, TookEffect(e), t')
  {
  }

  lemma LateExecSimulates(s: Redis, pc: Pc)
    requires Inv(s) && LateExec(pc) in s.late && pc.HasRead?
    ensures var step := Deliver(LateExec(pc)); Explains(Abs(s), SlowLabel(s, step), Abs(SlowNext(s, step)))
  {
    assert LatePcOk(s, pc);
    if Unchanged(s, pc) {
      CommitAgrees(s, pc);
      var e := if pc.op.ClaimOp? then LateClaim(pc.op.k, pc.op.c) else LateRelease(pc.op.k, pc.op.c);
      ExplainsLate(Abs(s), e, Abs(Write(s, pc.op)));
    }
  }

  lemma LateSetSimulates(s: Redis, k: Key, c: Code, nonce: nat)
    requires Inv(s) && LateSet(k, c, nonce) in s.late
    ensures var step := Deliver(LateSet(k, c, nonce)); Explains(Abs(s), SlowLabel(s, step), Abs(SlowNext(s, step)))
  {
    var t := SlowNext(s, Deliver(LateSet(k, c, nonce)));
    StoreCodeAgrees(s, k, c);
    SameHashes(StoreCode(s, k, c), t);
    ExplainsLate(Abs(s), LateRegister(k, c, s.now), Abs(t));
  }

  lemma LateDelSimulates(s: Redis, k: Key)
    requires LateDel(k) in s.late
    ensures var step := Deliver(LateDel(k)); Explains(Abs(s), SlowLabel(s, step), Abs(SlowNext(s, step)))
  {
    RemoveAgrees(s, k);
    ExplainsLate(Abs(s), LateDelete(k), Abs(Remove(s, k)));
  }

  lemma DeliverSimulates(s: Redis, late: Late)
    requires Inv(s) && SlowEnabled(s, Deliver(late))
    ensures AtomicAllows(Abs(s), SlowLabel(s, Deliver(late)))
    ensures Abs(SlowNext(s, Deliver(late))) == AtomicEffect(Abs(s), SlowLabel(s, Deliver(late)))
  {
    match late
    case LateExec(pc) => LateExecSimulates(s, pc);
    case LateSet(k, c, nonce) => LateSetSimulates(s, k, c, nonce);
    case LateDel(k) => LateDelSimulates(s, k);
  }

  /** The steps that are a whole call. */
  lemma CommandSimulates(s: Redis, a: Action)
    requires Inv(s) && Enabled(s, a) && !InsideCall(a) && !a.Slow?
    ensures AtomicAllows(Abs(s), LabelOf(s, a))
    ensures Abs(Next(s, a)) == AtomicEffect(Abs(s), LabelOf(s, a))
  {
    match a
    case Advance(to) => AdvanceAgrees(s, to);
    case SetCode(k, c) => StoreCodeAgrees(s, k, c);
    case SetCodeFails(k, c, _) => StoreCodeAgrees(s, k, c);
    case Look(k, c) => LookAgrees(s, k, c);
    case LookFails(_, _) =>
    case Del(k) => RemoveAgrees(s, k);
    case DelFails(k, _) => RemoveAgrees(s, k);
  }

  /** Forward simulation: every step of every instance is a step of the atomic
      store, or leaves it alone. */
  lemma Simulates(s: Redis, a: Action)
    requires Inv(s) && Enabled(s, a)
    ensures AtomicAllows(Abs(s), LabelOf(s, a))
    ensures Abs(Next(s, a)) == AtomicEffect(Abs(s), LabelOf(s, a))
  {
    if a.Slow? {
      SlowSimulates(s, a.step);
    } else if InsideCall(a) {
      CallSimulates(s, a);
    } else {
      CommandSimulates(s, a);
    }
  }

  /** A call gives up for lost races only after three changes of its key by others. */
  lemma GivingUpTakesThreeWrites(s: Redis, p: Pid)
    requires Inv(s) && PcOf(s, p).HasRead?
    requires LabelOf(s, Exec(p)) == LostRaces(PcOf(s, p).op)
    ensures VersionOf(s, PcOf(s, p).op.k) >= PcOf(s, p).start + 3
  {
    assert PcOk(s, PcOf(s, p));
  }

  /** The state after an undisturbed Begin, WATCH and HGETALL of a claim. */
  function ReadyToCommit(s: Redis, p: Pid, op: Op): Redis {
    var v := VersionOf(s, op.k);
    SetPc(s, p, HasRead(op, 0, v, v, Stored(s, op.k)))
  }

  lemma UndisturbedRead(s: Redis, p: Pid, op: Op)
    requires PcOf(s, p).Idle? && Proceeds(op, Stored(s, op.k))
    ensures var s1 := Next(s, Begin(p, op));
            var s2 := Next(s1, Watch(p));
            LabelOf(s2, HGetAll(p)) == Silent && Next(s2, HGetAll(p)) == ReadyToCommit(s, p, op)
  {
    var v := VersionOf(s, op.k);
    var s1 := Next(s, Begin(p, op));
    assert PcOf(s1, p) == Begun(op, 0, v);
    var s2 := Next(s1, Watch(p));
    assert PcOf(s2, p) == Watched(op, 0, v, v);
  }

  /** The state after an undisturbed call. */
  function Committed(s: Redis, p: Pid, op: Op): Redis {
    SetPc(Write(s, op), p, Idle)
  }

  lemma UndisturbedExec(s: Redis, p: Pid, op: Op)
    ensures var s3 := ReadyToCommit(s, p, op);
            Enabled(s3, Exec(p)) && LabelOf(s3, Exec(p)) == Answer(op, true) && Next(s3, Exec(p)) == Committed(s, p, op)
  {
    var s3 := ReadyToCommit(s, p, op);
    assert PcOf(s3, p).HasRead? && Unchanged(s3, PcOf(s3, p));
    assert s3.procs[p := Idle] == s.procs[p := Idle];
  }

  lemma CommittedFrame(s: Redis, p: Pid, op: Op)
    ensures var t := Committed(s, p, op);
            && PcOf(t, p).Idle? && VersionOf(t, op.k) == VersionOf(s, op.k) + 1
            && forall q :: q != p ==> PcOf(t, q) == PcOf(s, q)
  {
  }

  lemma ReadyIsGood(s: Redis, p: Pid, op: Op)
    requires Inv(s) && Proceeds(op, Stored(s, op.k))
    ensures Inv(ReadyToCommit(s, p, op))
  {
    var s3 := ReadyToCommit(s, p, op);
    forall q | q in s3.procs
      ensures PcOk(s3, s3.procs[q])
    {
      assert q != p ==> PcOk(s, s.procs[q]);
    }
  }

  /** An undisturbed call is the atomic operation. */
  lemma CommittedIsAtomic(s: Redis, p: Pid, op: Op)
    requires Inv(s) && Proceeds(op, Stored(s, op.k))
    ensures op.ClaimOp? ==> Abs(Committed(s, p, op)) == Claim(Abs(s), op.k, op.c)
    ensures op.ReleaseOp? ==> Abs(Committed(s, p, op)) == Release(Abs(s), op.k, op.c)
  {
    var s3 := ReadyToCommit(s, p, op);
    ReadyIsGood(s, p, op);
    assert PcOf(s3, p).HasRead? && Unchanged(s3, PcOf(s3, p)) && PcOk(s3, PcOf(s3, p));
    CommitAgrees(s3, PcOf(s3, p));
    SameHashes(s, s3);
    SameHashes(Write(s3, op), Committed(s, p, op));
  }

  /** A claim that nobody disturbs succeeds at its first attempt on a usable code. */
  lemma UndisturbedClaimSucceeds(s: Redis, p: Pid, k: Key, c: Code)
    requires Inv(s) && PcOf(s, p).Idle? && Usable(Abs(s), k, c)
    ensures Proceeds(ClaimOp(k, c), Stored(s, k))
    ensures var s3 := ReadyToCommit(s, p, ClaimOp(k, c));
            && LabelOf(s3, Exec(p)) == Claimed(k, c, true)
            && Abs(Next(s3, Exec(p))) == Claim(Abs(s), k, c)
  {
    var op := ClaimOp(k, c);
    StoredProceeds(s, op);
    UndisturbedExec(s, p, op);
    CommittedIsAtomic(s, p, op);
  }

  /** A stored code is read as one to release, and as one to claim if it is free. */
  lemma StoredProceeds(s: Redis, op: Op)
    requires Inv(s) && op.k in Abs(s) && Abs(s)[op.k].code == op.c
    requires op.ClaimOp? ==> !Abs(s)[op.k].claimed
    ensures Proceeds(op, Stored(s, op.k))
  {
    assert WellFormed(s.hashes[op.k], s.now);
    assert CodeField in s.hashes[op.k].fields;
  }

  // ----- whole runs -----

  function Init(now: int): Redis {
    Redis(now, map[], map[], map[], {})
  }

  ghost predicate IsRun(s: Redis, actions: seq<Action>)
    decreases |actions|
  {
    actions == [] || (Enabled(s, actions[0]) && IsRun(Next(s, actions[0]), actions[1..]))
  }

  ghost function Final(s: Redis, actions: seq<Action>): Redis
    requires IsRun(s, actions)
    decreases |actions|
  {
    if actions == [] then s else Final(Next(s, actions[0]), actions[1..])
  }

  ghost function Trace(s: Redis, actions: seq<Action>): (labels: seq<Label>)
    requires IsRun(s, actions)
    ensures |labels| == |actions|
    decreases |actions|
  {
    if actions == [] then [] else [LabelOf(s, actions[0])] + Trace(Next(s, actions[0]), actions[1..])
  }

  ghost predicate AtomicRun(t: Store, labels: seq<Label>)
    decreases |labels|
  {
    labels == [] || (AtomicAllows(t, labels[0]) && AtomicRun(AtomicEffect(t, labels[0]), labels[1..]))
  }

  ghost function AtomicFinal(t: Store, labels: seq<Label>): Store
    decreases |labels|
  {
    if labels == [] then t else AtomicFinal(AtomicEffect(t, labels[0]), labels[1..])
  }

  lemma {:induction false} RunRefines(s: Redis, actions: seq<Action>)
    requires Inv(s) && IsRun(s, actions)
    ensures Inv(Final(s, actions))
    ensures AtomicRun(Abs(s), Trace(s, actions))
    ensures Abs(Final(s, actions)) == AtomicFinal(Abs(s), Trace(s, actions))
    decreases |actions|
  {
    if actions != [] {
      InvStep(s, actions[0]);
      Simulates(s, actions[0]);
      RunRefines(Next(s, actions[0]), actions[1..]);
      var labels := Trace(s, actions);
      assert labels[1..] == Trace(Next(s, actions[0]), actions[1..]);
    }
  }

  /** Over every interleaving of any number of instances, the shared store
      refines the mutex-guarded map. */
  lemma RedisRefinesAtomicStore(now: int, actions: seq<Action>)
    requires IsRun(Init(now), actions)
    ensures AtomicRun(map[], Trace(Init(now), actions))
    ensures Abs(Final(Init(now), actions)) == AtomicFinal(map[], Trace(Init(now), actions))
  {
    assert Abs(Init(now)) == map[];
    RunRefines(Init(now), actions);
  }

  // ----- losing three races -----

  ghost predicate Reaches(actions: seq<Action>, s: Redis) {
    IsRun(Init(0), actions) && Final(Init(0), actions) == s
  }

  lemma {:induction false} RunStep(s: Redis, actions: seq<Action>, a: Action)
    requires IsRun(s, actions) && Enabled(Final(s, actions), a)
    ensures IsRun(s, actions + [a]) && Final(s, actions + [a]) == Next(Final(s, actions), a)
    ensures Trace(s, actions + [a]) == Trace(s, actions) + [LabelOf(Final(s, actions), a)]
    decreases |actions|
  {
    var all := actions + [a];
    if actions == [] {
      assert all[0] == a && all[1..] == [];
    } else {
      RunStep(Next(s, actions[0]), actions[1..], a);
      assert all[0] == actions[0] && all[1..] == actions[1..] + [a];
    }
  }

  lemma Take(actions: seq<Action>, s: Redis, a: Action) returns (longer: seq<Action>)
    requires Reaches(actions, s) && Enabled(s, a)
    ensures Reaches(longer, Next(s, a))
    ensures Trace(Init(0), longer) == Trace(Init(0), actions) + [LabelOf(s, a)]
  {
    RunStep(Init(0), actions, a);
    longer := actions + [a];
  }

  lemma ReachedIsGood(actions: seq<Action>, s: Redis)
    requires Reaches(actions, s)
    ensures Inv(s)
  {
    RunRefines(Init(0), actions);
  }

  lemma WholeRead(actions: seq<Action>, s: Redis, q: Pid, op: Op) returns (longer: seq<Action>)
    requires Reaches(actions, s) && PcOf(s, q).Idle? && Proceeds(op, Stored(s, op.k))
    ensures Reaches(longer, ReadyToCommit(s, q, op))
  {
    UndisturbedRead(s, q, op);
    var s1 := Next(s, Begin(q, op));
    var s2 := Next(s1, Watch(q));
    longer := Take(actions, s, Begin(q, op));
    longer := Take(longer, s1, Watch(q));
    longer := Take(longer, s2, HGetAll(q));
  }

  /** A whole call of q that nobody disturbs. */
  lemma WholeCall(actions: seq<Action>, s: Redis, q: Pid, op: Op) returns (longer: seq<Action>)
    requires Reaches(actions, s) && PcOf(s, q).Idle? && Proceeds(op, Stored(s, op.k))
    ensures Reaches(longer, Committed(s, q, op))
  {
    longer := WholeRead(actions, s, q, op);
    UndisturbedExec(s, q, op);
    longer := Take(longer, ReadyToCommit(s, q, op), Exec(q));
  }

  /** Somebody claims a usable code and gives it back: two more versions. */
  lemma ClaimAndRelease(actions: seq<Action>, s: Redis, q: Pid, k: Key, c: Code)
    returns (longer: seq<Action>, s': Redis)
    requires Reaches(actions, s) && PcOf(s, q).Idle? && Usable(Abs(s), k, c)
    ensures Reaches(longer, s') && PcOf(s', q).Idle? && Usable(Abs(s'), k, c)
    ensures forall p :: p != q ==> PcOf(s', p) == PcOf(s, p)
    ensures VersionOf(s', k) == VersionOf(s, k) + 2
  {
    ReachedIsGood(actions, s);
    StoredProceeds(s, ClaimOp(k, c));
    longer := WholeCall(actions, s, q, ClaimOp(k, c));
    var s1 := Committed(s, q, ClaimOp(k, c));
    CommittedIsAtomic(s, q, ClaimOp(k, c));
    CommittedFrame(s, q, ClaimOp(k, c));
    ReachedIsGood(longer, s1);
    StoredProceeds(s1, ReleaseOp(k, c));
    longer := WholeCall(longer, s1, q, ReleaseOp(k, c));
    s' := Committed(s1, q, ReleaseOp(k, c));
    CommittedIsAtomic(s1, q, ReleaseOp(k, c));
    CommittedFrame(s1, q, ReleaseOp(k, c));
    ClaimThenRelease(Abs(s), k, c);
  }

  /** One attempt of p that loses its race: q claims and releases between its read and
      its EXEC. */
  lemma LoseOneRace(actions: seq<Action>, s: Redis, p: Pid, q: Pid, op: Op)
    returns (longer: seq<Action>, s': Redis)
    requires Reaches(actions, s) && p != q && PcOf(s, q).Idle? && Usable(Abs(s), op.k, op.c)
    requires PcOf(s, p).Begun? && PcOf(s, p).op == op
    ensures Reaches(longer, s') && PcOf(s', q).Idle? && Usable(Abs(s'), op.k, op.c)
    ensures var attempt := PcOf(s, p).attempt;
            if attempt + 1 < MAX_ATTEMPTS then
              PcOf(s', p).Begun? && PcOf(s', p).op == op && PcOf(s', p).attempt == attempt + 1
            else
              longer != [] && Trace(Init(0), longer)[|Trace(Init(0), longer)| - 1] == LostRaces(op)
  {
    var s2, s3;
    longer, s2 := ReadOnce(actions, s, p, op);
    longer, s3 := ClaimAndRelease(longer, s2, q, op.k, op.c);
    RacedExec(s3, p);
    longer := Take(longer, s3, Exec(p));
    s' := Next(s3, Exec(p));
  }

  lemma ReadOnce(actions: seq<Action>, s: Redis, p: Pid, op: Op) returns (longer: seq<Action>, s': Redis)
    requires Reaches(actions, s) && Usable(Abs(s), op.k, op.c) && PcOf(s, p).Begun? && PcOf(s, p).op == op
    ensures Reaches(longer, s') && Abs(s') == Abs(s) && VersionOf(s', op.k) == VersionOf(s, op.k)
    ensures PcOf(s', p).HasRead? && PcOf(s', p).op == op && PcOf(s', p).ver == VersionOf(s, op.k)
    ensures PcOf(s', p).attempt == PcOf(s, p).attempt && forall q :: q != p ==> PcOf(s', q) == PcOf(s, q)
  {
    longer := Take(actions, s, Watch(p));
    var s1 := Next(s, Watch(p));
    SameHashes(s, s1);
    ReachedIsGood(longer, s1);
    StoredProceeds(s1, op);
    longer := Take(longer, s1, HGetAll(p));
    s' := Next(s1, HGetAll(p));
    SameHashes(s1, s');
  }

  /** An EXEC after a change of the key: the next attempt, or the end. */
  lemma RacedExec(s: Redis, p: Pid)
    requires PcOf(s, p).HasRead? && PcOf(s, p).ver < VersionOf(s, PcOf(s, p).op.k)
    ensures var pc, t := PcOf(s, p), Next(s, Exec(p));
            && Abs(t) == Abs(s) && PcOf(t, p) == Retry(pc) && (forall q :: q != p ==> PcOf(t, q) == PcOf(s, q))
            && LabelOf(s, Exec(p)) == if pc.attempt + 1 < MAX_ATTEMPTS then Silent else LostRaces(pc.op)
  {
  }

  /** The extra behaviour is real: for every key and code there are runs in which a
      claim, or a release, is given up although the code is usable all the time it is
      looked at, and still is at the end. */
  lemma ThreeLostRaces(k: Key, c: Code, op: Op) returns (actions: seq<Action>)
    requires op == ClaimOp(k, c) || op == ReleaseOp(k, c)
    ensures IsRun(Init(0), actions) && Usable(Abs(Final(Init(0), actions)), k, c)
    ensures var labels := Trace(Init(0), actions); labels != [] && labels[|labels| - 1] == LostRaces(op)
  {
    var s0 := Init(0);
    actions := Take([], s0, SetCode(k, c));
    var s1 := Next(s0, SetCode(k, c));
    StoreCodeAgrees(s0, k, c);
    actions := Take(actions, s1, Begin(1, op));
    var s2 := Next(s1, Begin(1, op));
    assert Abs(s2) == Abs(s1);
    actions, s2 := LoseOneRace(actions, s2, 1, 2, op);
    actions, s2 := LoseOneRace(actions, s2, 1, 2, op);
    actions, s2 := LoseOneRace(actions, s2, 1, 2, op);
  }

  // ----- giving up, over whole runs -----

  lemma {:induction false} RunPrefix(s: Redis, actions: seq<Action>, n: nat)
    requires IsRun(s, actions) && n < |actions|
    ensures IsRun(s, actions[..n]) && Enabled(Final(s, actions[..n]), actions[n])
    ensures Trace(s, actions)[n] == LabelOf(Final(s, actions[..n]), actions[n])
    decreases |actions|
  {
    if n > 0 {
      RunPrefix(Next(s, actions[0]), actions[1..], n - 1);
      assert actions[..n][0] == actions[0] && actions[..n][1..] == actions[1..][..n - 1];
    } else {
      assert actions[..n] == [];
    }
  }

  /** An instance inside a call began it with its present operation. */
  lemma PcContinues(s: Redis, a: Action, p: Pid)
    requires Enabled(s, a) && !PcOf(Next(s, a), p).Idle?
    ensures var pc := PcOf(Next(s, a), p);
            if PcOf(s, p).Idle? then a == Begin(p, pc.op) && pc.start == VersionOf(s, pc.op.k)
            else PcOf(s, p).op == pc.op && PcOf(s, p).start == pc.start
  {
  }

  /** Where a call that is under way began, and the version of its key at that point. */
  lemma {:induction false} CallHasBegun(s: Redis, actions: seq<Action>, p: Pid, n: nat) returns (i: nat)
    requires IsRun(s, actions) && n <= |actions| && PcOf(s, p).Idle? && IsRun(s, actions[..n])
    requires !PcOf(Final(s, actions[..n]), p).Idle?
    ensures i < n && IsRun(s, actions[..i])
    ensures var pc := PcOf(Final(s, actions[..n]), p);
            actions[i] == Begin(p, pc.op) && pc.start == VersionOf(Final(s, actions[..i]), pc.op.k)
  {
    assert n > 0;
    RunPrefix(s, actions, n - 1);
    var before := Final(s, actions[..n - 1]);
    RunStep(s, actions[..n - 1], actions[n - 1]);
    assert actions[..n - 1] + [actions[n - 1]] == actions[..n];
    PcContinues(before, actions[n - 1], p);
    if PcOf(before, p).Idle? {
      i := n - 1;
    } else {
      i := CallHasBegun(s, actions, p, n - 1);
    }
  }

  lemma OnlyExecGivesUp(s: Redis, a: Action, op: Op)
    requires Enabled(s, a) && LabelOf(s, a) == LostRaces(op)
    ensures a.Exec? && PcOf(s, a.p).HasRead? && PcOf(s, a.p).op == op
  {
  }

  /** In every run, between the beginning of a call and the point where it gives up for
      lost races, its key has changed at least three times. */
  lemma GivingUpTakesThreeChanges(now: int, actions: seq<Action>, j: nat, op: Op) returns (i: nat)
    requires IsRun(Init(now), actions) && j < |actions|
    requires Trace(Init(now), actions)[j] == LostRaces(op)
    ensures i < j && IsRun(Init(now), actions[..i]) && IsRun(Init(now), actions[..j])
    ensures actions[j].Exec? && actions[i] == Begin(actions[j].p, op)
    ensures VersionOf(Final(Init(now), actions[..j]), op.k) >=
            VersionOf(Final(Init(now), actions[..i]), op.k) + 3
  {
    var s0 := Init(now);
    RunPrefix(s0, actions, j);
    var s := Final(s0, actions[..j]);
    OnlyExecGivesUp(s, actions[j], op);
    RunRefines(s0, actions[..j]);
    GivingUpTakesThreeWrites(s, actions[j].p);
    i := CallHasBegun(s0, actions, actions[j].p, j);
  }
}
