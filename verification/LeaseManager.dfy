/**
 Slot leases (pi/portal.py): who owns a slot, in what mode, until when.

 A lease that runs out is not removed until somebody asks about its slot.  The class
 keeps that lazy table in place, as the program does; `EagerStep` is the manager a
 caller imagines, which forgets a lease the instant it expires.

 The clock is read twice inside an operation, so an operation carries two times: `at`
 for the expiry check and `later` for whatever is computed afterwards.  The fresh token,
 the debug session and the first stray process on the device are parameters.
 */
module LeaseManager {
  import opened Options

  const SLOT_MODES: seq<string> :=
    ["idle", "flashing", "resetting", "monitoring", "flapping", "recovering", "download", "debugging"]
  const GRANT_TTL_DEFAULT: real := 60.0
  const GRANT_TTL_MAX: real := 3600.0

  datatype Grant = Grant(token: string, mode: string, owner: string, ttl: real, since: real, expiresAt: real)

  type Grants = map<string, Grant>

  datatype Request = Request(
    slot: string, mode: string, owner: string, ttl: Option<real>,
    debugging: bool, stray: Option<int>, token: string)

  datatype Op =
    | Acquire(r: Request, at: real, later: real)
    | Renew(token: string, at: real, later: real)
    | Release(token: string, at: real, later: real)
    | Query(slot: string, debugging: bool, present: bool, at: real, later: real)
    | Reset(at: real, later: real)

  datatype Answer =
    | Granted(token: string, mode: string, ttl: real)
    | BadMode
    | MissingOwner
    | Held(mode: string, owner: string, since: Option<real>, expiresIn: Option<real>)
    | OutOfBand(pid: int)
    | Renewed(ttl: real)
    | UnknownOrExpired
    | Released
    | UnknownToken
    | Status(mode: string, holder: Option<string>, since: Option<real>, expiresIn: Option<real>)
    | Cleared

  function Clamp(ttl: real): real {
    var capped := if ttl < GRANT_TTL_MAX then ttl else GRANT_TTL_MAX;
    if capped > 1.0 then capped else 1.0
  }

  /** A missing or zero ttl means the default. */
  function RequestedTtl(ttl: Option<real>): real {
    Clamp(if ttl.None? || ttl.value == 0.0 then GRANT_TTL_DEFAULT else ttl.value)
  }

  /** The leases that have not run out at time `t`. */
  function LiveAt(gs: Grants, t: real): Grants {
    map l | l in gs && t < gs[l].expiresAt :: gs[l]
  }

  ghost predicate UniqueTokens(gs: Grants) {
    forall l, m :: l in gs && m in gs && gs[l].token == gs[m].token ==> l == m
  }

  /** The slot whose lease has this token. */
  ghost function SlotOf(gs: Grants, token: string): Option<string> {
    if exists l :: l in gs && gs[l].token == token
    then var l :| l in gs && gs[l].token == token; Some(l)
    else None
  }

  /** The lease table after somebody asked about `slot`: its own expired lease is gone. */
  function Reclaim(gs: Grants, slot: string, at: real): Grants {
    if slot in gs && at >= gs[slot].expiresAt then gs - {slot} else gs
  }

  /** The answer to a request for a slot with no lease, and the lease it creates. */
  function Decide(r: Request, later: real): (Answer, Option<Grant>) {
    if r.mode != "debugging" && r.debugging then (Held("debugging", "debug-session", None, None), None)
    else if r.stray.Some? then (OutOfBand(r.stray.value), None)
    else
      var ttl := RequestedTtl(r.ttl);
      (Granted(r.token, r.mode, ttl), Some(Grant(r.token, r.mode, r.owner, ttl, later, later + ttl)))
  }

  function HeldBy(g: Grant, later: real): Answer {
    Held(g.mode, g.owner, Some(g.since), Some(g.expiresAt - later))
  }

  function Unleased(debugging: bool, present: bool): Answer {
    if debugging then Status("debugging", Some("debug-session"), None, None)
    else Status(if present then "idle" else "absent", None, None, None)
  }

  function Extended(g: Grant, later: real): Grant {
    g.(expiresAt := later + Clamp(g.ttl))
  }

  // ----- the manager a caller imagines

  /** One operation of a manager whose table `gs` holds no expired lease. */
  ghost function EagerStep(gs: Grants, op: Op): (Grants, Answer) {
    match op
    case Acquire(r, _, later) =>
      if r.mode !in SLOT_MODES then (gs, BadMode)
      else if r.owner == "" then (gs, MissingOwner)
      else if r.slot in gs then (gs, HeldBy(gs[r.slot], later))
      else
        var (answer, g) := Decide(r, later);
        (if g.Some? then gs[r.slot := g.value] else gs, answer)
    case Renew(token, _, later) =>
      var l := SlotOf(gs, token);
      if l.None? then (gs, UnknownOrExpired)
      else (gs[l.value := Extended(gs[l.value], later)], Renewed(Clamp(gs[l.value].ttl)))
    case Release(token, _, _) =>
      var l := SlotOf(gs, token);
      if l.None? then (gs, UnknownToken) else (gs - {l.value}, Released)
    case Query(slot, debugging, present, _, later) =>
      if slot !in gs then (gs, Unleased(debugging, present))
      else
        var g := gs[slot];
        (gs, Status(g.mode, Some(g.owner), Some(g.since), Some(g.expiresAt - later)))
    case Reset(_, _) => (map[], Cleared)
  }

  // ----- the manager of the program

  ghost function LazyStep(gs: Grants, op: Op): (Grants, Answer) {
    match op
    case Acquire(r, at, later) =>
      if r.mode !in SLOT_MODES then (gs, BadMode)
      else if r.owner == "" then (gs, MissingOwner)
      else
        var gs' := Reclaim(gs, r.slot, at);
        if r.slot in gs' then (gs', HeldBy(gs'[r.slot], later))
        else
          var (answer, g) := Decide(r, later);
          (if g.Some? then gs'[r.slot := g.value] else gs', answer)
    case Renew(token, at, later) =>
      var l := SlotOf(gs, token);
      if l.None? || at >= gs[l.value].expiresAt then (gs, UnknownOrExpired)
      else (gs[l.value := Extended(gs[l.value], later)], Renewed(Clamp(gs[l.value].ttl)))
    case Release(token, _, _) =>
      var l := SlotOf(gs, token);
      if l.None? then (gs, UnknownToken) else (gs - {l.value}, Released)
    case Query(slot, debugging, present, at, later) =>
      var gs' := Reclaim(gs, slot, at);
      if slot !in gs' then (gs', Unleased(debugging, present))
      else
        var g := gs'[slot];
        (gs', Status(g.mode, Some(g.owner), Some(g.since), Some(g.expiresAt - later)))
    case Reset(_, _) => (map[], Cleared)
  }

  /** The lease table of the portal, updated in place. */
  class Manager {
    var grants: Grants

    constructor ()
      ensures grants == map[]
    {
      grants := map[];
    }

    method LiveGrant(slot: string, now: real) returns (g: Option<Grant>)
      modifies this
      ensures grants == Reclaim(old(grants), slot, now)
      ensures g == if slot in grants then Some(grants[slot]) else None
    {
      if slot in grants && now >= grants[slot].expiresAt {
        grants := grants - {slot};
        return None;
      }
      g := if slot in grants then Some(grants[slot]) else None;
    }

    method SlotByToken(token: string) returns (slot: Option<string>)
      requires UniqueTokens(grants)
      ensures slot == SlotOf(grants, token)
    {
      var rest := grants.Keys;
      while rest != {}
        invariant rest <= grants.Keys
        invariant forall l :: l in grants && l !in rest ==> grants[l].token != token
      {
        var l :| l in rest;
        if grants[l].token == token {
          return Some(l);
        }
        rest := rest - {l};
      }
      slot := None;
    }

    method SlotAcquire(r: Request, at: real, later: real) returns (answer: Answer)
      modifies this
      ensures (grants, answer) == LazyStep(old(grants), Acquire(r, at, later))
    {
      if r.mode !in SLOT_MODES {
        return BadMode;
      }
      if r.owner == "" {
        return MissingOwner;
      }
      var ttl := RequestedTtl(r.ttl);
      var held := LiveGrant(r.slot, at);
      if held.Some? {
        return HeldBy(held.value, later);
      }
      if r.mode != "debugging" && r.debugging {
        return Held("debugging", "debug-session", None, None);
      }
      if r.stray.Some? {
        return OutOfBand(r.stray.value);
      }
      grants := grants[r.slot := Grant(r.token, r.mode, r.owner, ttl, later, later + ttl)];
      answer := Granted(r.token, r.mode, ttl);
    }

    method SlotRenew(token: string, at: real, later: real) returns (answer: Answer)
      requires UniqueTokens(grants)
      modifies this
      ensures (grants, answer) == LazyStep(old(grants), Renew(token, at, later))
    {
      var slot := SlotByToken(token);
      if slot.None? || at >= grants[slot.value].expiresAt {
        return UnknownOrExpired;
      }
      var g := grants[slot.value];
      var ttl := Clamp(g.ttl);
      grants := grants[slot.value := g.(expiresAt := later + ttl)];
      answer := Renewed(ttl);
    }

    method SlotRelease(token: string, at: real, later: real) returns (answer: Answer)
      requires UniqueTokens(grants)
      modifies this
      ensures (grants, answer) == LazyStep(old(grants), Release(token, at, later))
    {
      var slot := SlotByToken(token);
      if slot.None? {
        return UnknownToken;
      }
      grants := grants - {slot.value};
      answer := Released;
    }

    method SlotMode(slot: string, debugging: bool, present: bool, at: real, later: real) returns (answer: Answer)
      modifies this
      ensures (grants, answer) == LazyStep(old(grants), Query(slot, debugging, present, at, later))
    {
      var g := LiveGrant(slot, at);
      if g.None? {
        return Unleased(debugging, present);
      }
      answer := Status(g.value.mode, Some(g.value.owner), Some(g.value.since), Some(g.value.expiresAt - later));
    }

    method BenchReset(at: real, later: real) returns (answer: Answer)
      modifies this
      ensures (grants, answer) == LazyStep(old(grants), Reset(at, later))
    {
      grants := map[];
      answer := Cleared;
    }
  }

  // ----- what each operation does, case by case

  /** A lease on the slot is live at that time. */
  predicate Leased(gs: Grants, slot: string, at: real) {
    slot in gs && at < gs[slot].expiresAt
  }

  /** `got` is the nearest ttl to `asked` between a second and an hour. */
  predicate IsNearest(asked: real, got: real) {
    && (asked < 1.0 ==> got == 1.0)
    && (1.0 <= asked <= 3600.0 ==> got == asked)
    && (asked > 3600.0 ==> got == 3600.0)
  }

  /** The ttl that a request gets: a minute if it names none. */
  predicate IsTtlFor(asked: Option<real>, got: real) {
    if asked == None || asked == Some(0.0) then got == 60.0 else IsNearest(asked.value, got)
  }

  /** When a request is granted. */
  lemma GrantedExactly(gs: Grants, r: Request, at: real, later: real)
    ensures LazyStep(gs, Acquire(r, at, later)).1.Granted? <==>
            && r.mode in SLOT_MODES && r.owner != "" && !Leased(gs, r.slot, at)
            && r.stray == None && (r.mode == "debugging" || !r.debugging)
  {
  }

  /** What it is granted, and what it is refused with: by its own fault, by the lease, by a debug session, or by a
      stray process, in that order. */
  lemma AcquireAnswers(gs: Grants, r: Request, at: real, later: real)
    ensures var answer := LazyStep(gs, Acquire(r, at, later)).1;
            && (r.mode !in SLOT_MODES ==> answer == BadMode)
            && (r.mode in SLOT_MODES ==>
                  && (r.owner == "" ==> answer == MissingOwner)
                  && (r.owner != "" && Leased(gs, r.slot, at) ==>
                        var g := gs[r.slot]; answer == Held(g.mode, g.owner, Some(g.since), Some(g.expiresAt - later)))
                  && (r.owner != "" && !Leased(gs, r.slot, at) ==>
                        && (r.mode != "debugging" && r.debugging ==>
                              answer == Held("debugging", "debug-session", None, None))
                        && (r.mode == "debugging" || !r.debugging ==>
                              && (r.stray.Some? ==> answer == OutOfBand(r.stray.value))
                              && (r.stray.None? ==> answer.Granted? && answer.token == r.token && answer.mode == r.mode
                                                    && IsTtlFor(r.ttl, answer.ttl)))))
  {
  }

  /** The table after a request: only its own slot can change, to the new lease or to none for one that had run out. */
  lemma AcquireTable(gs: Grants, r: Request, at: real, later: real)
    ensures var (gs', answer) := LazyStep(gs, Acquire(r, at, later));
            && (answer.Granted? ==>
                  gs' == gs[r.slot := Grant(r.token, r.mode, r.owner, answer.ttl, later, later + answer.ttl)])
            && (answer == BadMode || answer == MissingOwner || Leased(gs, r.slot, at) ==> gs' == gs)
            && (!answer.Granted? && answer != BadMode && answer != MissingOwner && !Leased(gs, r.slot, at) ==>
                  gs' == gs - {r.slot})
  {
  }

  /** A renewal succeeds exactly for the token of a live lease, and moves its expiry one ttl from now. */
  lemma RenewExactly(gs: Grants, token: string, at: real, later: real)
    requires UniqueTokens(gs)
    ensures var (gs', answer) := LazyStep(gs, Renew(token, at, later));
            && (forall l :: l in gs && gs[l].token == token && at < gs[l].expiresAt ==>
                  && answer.Renewed? && IsNearest(gs[l].ttl, answer.ttl)
                  && gs' == gs[l := gs[l].(expiresAt := later + answer.ttl)])
            && ((forall l :: l in gs && gs[l].token == token ==> at >= gs[l].expiresAt) ==>
                  gs' == gs && answer == UnknownOrExpired)
  {
    if l :| l in gs && gs[l].token == token {
      SlotOfUnique(gs, l);
    }
  }

  /** A release succeeds exactly for a token in the table, and takes its lease out, and that alone. */
  lemma ReleaseExactly(gs: Grants, token: string, at: real, later: real)
    requires UniqueTokens(gs)
    ensures var (gs', answer) := LazyStep(gs, Release(token, at, later));
            && (forall l :: l in gs && gs[l].token == token ==> answer == Released && gs' == gs - {l})
            && ((forall l :: l in gs ==> gs[l].token != token) ==> answer == UnknownToken && gs' == gs)
  {
    if l :| l in gs && gs[l].token == token {
      SlotOfUnique(gs, l);
    }
  }

  /** What the portal says of a slot: the live lease, else a debug session, else whether a device is there. */
  lemma QueryExactly(gs: Grants, slot: string, debugging: bool, present: bool, at: real, later: real)
    ensures var (gs', answer) := LazyStep(gs, Query(slot, debugging, present, at, later));
            if Leased(gs, slot, at) then
              var g := gs[slot];
              gs' == gs && answer == Status(g.mode, Some(g.owner), Some(g.since), Some(g.expiresAt - later))
            else
              && gs' == gs - {slot}
              && (debugging ==> answer == Status("debugging", Some("debug-session"), None, None))
              && (!debugging && present ==> answer == Status("idle", None, None, None))
              && (!debugging && !present ==> answer == Status("absent", None, None, None))
  {
  }

  /** After a reset no slot is leased, and every well-formed request that nothing else stands against is granted. */
  lemma ResetFrees(gs: Grants, at: real, later: real, r: Request, now: real, after: real)
    ensures var gs' := LazyStep(gs, Reset(at, later)).0;
            && gs' == map[]
            && (r.mode in SLOT_MODES && r.owner != "" && r.stray == None && !r.debugging ==>
                  LazyStep(gs', Acquire(r, now, after)).1.Granted?)
  {
  }

  // ----- runs

  ghost function Run(gs: Grants, ops: seq<Op>): Grants
    decreases ops
  {
    if ops == [] then gs else Run(LazyStep(gs, ops[0]).0, ops[1..])
  }

  ghost function Answers(gs: Grants, ops: seq<Op>): seq<Answer>
    decreases ops
  {
    if ops == [] then [] else [LazyStep(gs, ops[0]).1] + Answers(LazyStep(gs, ops[0]).0, ops[1..])
  }

  /** The eager manager drops what has expired before it looks at an operation. */
  ghost function EagerAnswers(gs: Grants, ops: seq<Op>): seq<Answer>
    decreases ops
  {
    if ops == [] then []
    else
      var (gs', answer) := EagerStep(LiveAt(gs, ops[0].at), ops[0]);
      [answer] + EagerAnswers(gs', ops[1..])
  }

  ghost function EagerRun(gs: Grants, ops: seq<Op>): Grants
    decreases ops
  {
    if ops == [] then gs else EagerRun(EagerStep(LiveAt(gs, ops[0].at), ops[0]).0, ops[1..])
  }

  /** Time never goes back, neither between operations nor inside one. */
  ghost predicate Timed(ops: seq<Op>, from: real)
    decreases ops
  {
    ops == [] || (from <= ops[0].at <= ops[0].later && Timed(ops[1..], ops[0].later))
  }

  function Offered(op: Op): set<string> {
    if op.Acquire? then {op.r.token} else {}
  }

  /** Every request comes with a token that was never offered before. */
  ghost predicate Fresh(ops: seq<Op>, used: set<string>)
    decreases ops
  {
    ops == [] || (Offered(ops[0]) !! used && Fresh(ops[1..], used + Offered(ops[0])))
  }

  ghost predicate Tokens(gs: Grants, used: set<string>) {
    UniqueTokens(gs) && forall l :: l in gs ==> gs[l].token in used
  }

  lemma SlotOfUnique(gs: Grants, l: string)
    requires UniqueTokens(gs) && l in gs
    ensures SlotOf(gs, gs[l].token) == Some(l)
  {
  }

  lemma StepKeepsTokens(gs: Grants, used: set<string>, op: Op)
    requires Tokens(gs, used) && Offered(op) !! used
    ensures Tokens(LazyStep(gs, op).0, used + Offered(op))
  {
  }

  /** Looking a token up among the live leases. */
  lemma SlotOfLive(gs: Grants, token: string, at: real)
    requires UniqueTokens(gs)
    ensures var l := SlotOf(gs, token);
            SlotOf(LiveAt(gs, at), token) == if l.Some? && at < gs[l.value].expiresAt then l else None
  {
    var l := SlotOf(gs, token);
    assert l.Some? && at < gs[l.value].expiresAt ==> LiveAt(gs, at)[l.value].token == token;
    var found := SlotOf(LiveAt(gs, at), token);
    if found.Some? {
      assert found.value in gs;
    }
  }

  lemma LiveTwice(gs: Grants, s: real, t: real)
    requires s <= t
    ensures LiveAt(LiveAt(gs, s), t) == LiveAt(gs, t)
  {
  }

  lemma LiveAfterUpdate(gs: Grants, l: string, g: Grant, t: real)
    ensures LiveAt(gs[l := g], t) == if t < g.expiresAt then LiveAt(gs, t)[l := g] else LiveAt(gs, t) - {l}
  {
  }

  lemma LiveAfterRemove(gs: Grants, l: string, t: real)
    ensures LiveAt(gs - {l}, t) == LiveAt(gs, t) - {l}
  {
  }

  lemma LiveAfterReclaim(gs: Grants, l: string, at: real, t: real)
    requires at <= t
    ensures LiveAt(Reclaim(gs, l, at), t) == LiveAt(gs, t)
  {
  }

  lemma AcquireCommutes(gs: Grants, r: Request, at: real, later: real, t: real)
    requires at <= later <= t
    ensures LiveAt(LazyStep(gs, Acquire(r, at, later)).0, t) ==
        LiveAt(EagerStep(LiveAt(gs, at), Acquire(r, at, later)).0, t)
  {
    hide Decide;
    var live := LiveAt(gs, at);
    LiveTwice(gs, at, t);
    var lazy := Reclaim(gs, r.slot, at);
    LiveAfterReclaim(gs, r.slot, at, t);
    var g := Decide(r, later).1;
    if g.Some? {
      LiveAfterUpdate(lazy, r.slot, g.value, t);
      LiveAfterUpdate(live, r.slot, g.value, t);
    }
  }

  lemma RenewCommutes(gs: Grants, token: string, at: real, later: real, t: real)
    requires UniqueTokens(gs) && at <= later <= t
    ensures LiveAt(LazyStep(gs, Renew(token, at, later)).0, t) ==
        LiveAt(EagerStep(LiveAt(gs, at), Renew(token, at, later)).0, t)
  {
    hide UniqueTokens, Extended;
    LiveTwice(gs, at, t);
    SlotOfLive(gs, token, at);
    var l := SlotOf(gs, token);
    if l.Some? {
      LiveAfterUpdate(gs, l.value, Extended(gs[l.value], later), t);
      LiveAfterUpdate(LiveAt(gs, at), l.value, Extended(gs[l.value], later), t);
    }
  }

  lemma ReleaseCommutes(gs: Grants, token: string, at: real, later: real, t: real)
    requires UniqueTokens(gs) && at <= later <= t
    ensures LiveAt(LazyStep(gs, Release(token, at, later)).0, t) ==
        LiveAt(EagerStep(LiveAt(gs, at), Release(token, at, later)).0, t)
  {
    hide UniqueTokens;
    LiveTwice(gs, at, t);
    SlotOfLive(gs, token, at);
    var l := SlotOf(gs, token);
    if l.Some? {
      LiveAfterRemove(gs, l.value, t);
      LiveAfterRemove(LiveAt(gs, at), l.value, t);
      assert at >= gs[l.value].expiresAt ==> LiveAt(gs, t) - {l.value} == LiveAt(gs, t);
    }
  }

  /** The leases still live after an operation do not depend on which manager carried it out. */
  lemma StepCommutes(gs: Grants, op: Op, t: real)
    requires UniqueTokens(gs) && op.at <= op.later <= t
    ensures LiveAt(LazyStep(gs, op).0, t) == LiveAt(EagerStep(LiveAt(gs, op.at), op).0, t)
  {
    match op {
      case Acquire(r, at, later) => AcquireCommutes(gs, r, at, later, t);
      case Renew(token, at, later) => RenewCommutes(gs, token, at, later, t);
      case Release(token, at, later) => ReleaseCommutes(gs, token, at, later, t);
      case Query(slot, debugging, present, at, later) =>
        LiveTwice(gs, at, t);
        LiveAfterReclaim(gs, slot, at, t);
      case Reset(_, _) =>
    }
  }

  /** The release of a lease that has run out but that nobody has asked about since. */
  ghost predicate LateRelease(gs: Grants, op: Op) {
    op.Release? && var l := SlotOf(gs, op.token); l.Some? && op.at >= gs[l.value].expiresAt
  }

  /** The two managers give the same answer, except that a late release still succeeds here. */
  lemma SameAnswer(gs: Grants, op: Op)
    requires UniqueTokens(gs)
    ensures LazyStep(gs, op).1 == EagerStep(LiveAt(gs, op.at), op).1 <==> !LateRelease(gs, op)
    ensures LateRelease(gs, op) ==> LazyStep(gs, op).1 == Released
  {
    if op.Renew? || op.Release? {
      SlotOfLive(gs, op.token, op.at);
    }
  }

  /** For each operation of a run, whether it is a late release. */
  ghost function Late(gs: Grants, ops: seq<Op>): seq<bool>
    decreases ops
  {
    if ops == [] then [] else [LateRelease(gs, ops[0])] + Late(LazyStep(gs, ops[0]).0, ops[1..])
  }

  function EndOf(ops: seq<Op>, from: real): real {
    if ops == [] then from else ops[|ops| - 1].later
  }

  /** Over any run, started from tables with the same live leases, the live leases agree. */
  lemma {:induction false} LazyTableRefinesEager(gs: Grants, eager: Grants, ops: seq<Op>, from: real, used: set<string>)
    requires Tokens(gs, used) && Timed(ops, from) && Fresh(ops, used)
    requires LiveAt(gs, from) == LiveAt(eager, from)
    ensures forall t :: EndOf(ops, from) <= t ==> LiveAt(Run(gs, ops), t) == LiveAt(EagerRun(eager, ops), t)
    decreases ops
  {
    if ops == [] {
      forall t | from <= t ensures LiveAt(gs, t) == LiveAt(eager, t) {
        LiveTwice(gs, from, t);
        LiveTwice(eager, from, t);
      }
    } else {
      var op := ops[0];
      LiveTwice(gs, from, op.at);
      LiveTwice(eager, from, op.at);
      StepCommutes(gs, op, op.later);
      StepKeepsTokens(gs, used, op);
      assert EndOf(ops, from) == EndOf(ops[1..], op.later);
      LazyTableRefinesEager(LazyStep(gs, op).0, EagerStep(LiveAt(eager, op.at), op).0, ops[1..], op.later,
                            used + Offered(op));
    }
  }

  /** Over any run, lazy expiry cannot be told from eager expiry by its answers: exactly the late
      releases are answered differently. */
  lemma {:induction false} LazyAnswersRefineEager(gs: Grants, eager: Grants, ops: seq<Op>, from: real,
      used: set<string>)
    requires Tokens(gs, used) && Timed(ops, from) && Fresh(ops, used)
    requires LiveAt(gs, from) == LiveAt(eager, from)
    ensures |Answers(gs, ops)| == |EagerAnswers(eager, ops)| == |Late(gs, ops)| == |ops|
    ensures forall i :: 0 <= i < |ops| ==>
              (Answers(gs, ops)[i] == EagerAnswers(eager, ops)[i] <==> !Late(gs, ops)[i])
    decreases ops
  {
    hide LazyStep, EagerStep, LateRelease, LiveAt, UniqueTokens;
    if ops != [] {
      var op := ops[0];
      LiveTwice(gs, from, op.at);
      LiveTwice(eager, from, op.at);
      SameAnswer(gs, op);
      StepCommutes(gs, op, op.later);
      StepKeepsTokens(gs, used, op);
      LazyAnswersRefineEager(LazyStep(gs, op).0, EagerStep(LiveAt(eager, op.at), op).0, ops[1..], op.later,
                             used + Offered(op));
    }
  }

  /** A late release, concretely: the portal says released, the eager manager unknown token. */
  lemma LateReleaseExists() returns (gs: Grants, op: Op)
    ensures Tokens(gs, {"t"}) && LateRelease(gs, op)
    ensures LazyStep(gs, op).1 == Released && EagerStep(LiveAt(gs, op.at), op).1 == UnknownToken
  {
    gs := map["SLOT1" := Grant("t", "flashing", "me", 60.0, 0.0, 60.0)];
    op := Release("t", 61.0, 61.0);
    SlotOfUnique(gs, "SLOT1");
    SameAnswer(gs, op);
    SlotOfLive(gs, "t", 61.0);
  }

  // ----- exclusion

  /** Well-formed requests for `slot`, the ones that look at the lease. */
  predicate AsksFor(op: Op, slot: string) {
    op.Acquire? && op.r.slot == slot && op.r.mode in SLOT_MODES && op.r.owner != ""
  }

  /** A run during which the holder of `token` neither gives its lease up nor lets it run out:
      no release of its own, no bench reset, and a renewal always before the current expiry. */
  ghost predicate KeepsLease(ops: seq<Op>, token: string, ttl: real, expiry: real)
    decreases ops
  {
    ops == []
    || (&& ops[0].at < expiry
        && !ops[0].Reset?
        && !(ops[0].Release? && ops[0].token == token)
        && KeepsLease(ops[1..], token, ttl,
                      if ops[0].Renew? && ops[0].token == token then ops[0].later + Clamp(ttl) else expiry))
  }

  /** One operation of such a run: the lease stays, and whoever asks for the slot is told its owner. */
  lemma LeaseSurvivesStep(gs: Grants, slot: string, op: Op)
    requires UniqueTokens(gs) && slot in gs && op.at < gs[slot].expiresAt
    requires !op.Reset? && !(op.Release? && op.token == gs[slot].token)
    ensures var (gs', answer) := LazyStep(gs, op);
            && slot in gs'
            && gs'[slot] == (if op.Renew? && op.token == gs[slot].token then Extended(gs[slot], op.later) else gs[slot])
            && (AsksFor(op, slot) ==> answer == HeldBy(gs[slot], op.later))
            && (op.Renew? && op.token == gs[slot].token ==> answer == Renewed(Clamp(gs[slot].ttl)))
  {
    SlotOfUnique(gs, slot);
  }

  /** Exclusion over whole runs: while the holder keeps its lease, every request for the slot is
      refused and names that holder and its mode. */
  lemma {:induction false} Exclusion(gs: Grants, slot: string, ops: seq<Op>, used: set<string>)
    requires Tokens(gs, used) && Fresh(ops, used) && slot in gs
    requires KeepsLease(ops, gs[slot].token, gs[slot].ttl, gs[slot].expiresAt)
    ensures |Answers(gs, ops)| == |ops|
    ensures forall i :: 0 <= i < |ops| && AsksFor(ops[i], slot) ==>
              var a := Answers(gs, ops)[i]; a.Held? && a.owner == gs[slot].owner && a.mode == gs[slot].mode
    ensures slot in Run(gs, ops) && Run(gs, ops)[slot].token == gs[slot].token
    decreases ops
  {
    if ops != [] {
      LeaseSurvivesStep(gs, slot, ops[0]);
      StepKeepsTokens(gs, used, ops[0]);
      Exclusion(LazyStep(gs, ops[0]).0, slot, ops[1..], used + Offered(ops[0]));
    }
  }

  /** What a successful request sets up, so that `Exclusion` applies to what follows it. */
  lemma GrantedStarts(gs: Grants, r: Request, at: real, later: real)
    requires LazyStep(gs, Acquire(r, at, later)).1.Granted?
    ensures var (gs', answer) := LazyStep(gs, Acquire(r, at, later));
            && r.slot in gs' && gs'[r.slot].token == answer.token == r.token
            && gs'[r.slot].owner == r.owner && gs'[r.slot].mode == r.mode
            && gs'[r.slot].expiresAt == later + gs'[r.slot].ttl
            && 1.0 <= gs'[r.slot].ttl <= GRANT_TTL_MAX && Clamp(gs'[r.slot].ttl) == gs'[r.slot].ttl
  {
  }

  // ----- expiry

  /** No lease reaches further than `limit`. */
  ghost predicate Within(gs: Grants, limit: real) {
    forall l :: l in gs ==> gs[l].expiresAt <= limit
  }

  ghost predicate NoRenewal(ops: seq<Op>, token: string) {
    forall i :: 0 <= i < |ops| ==> !(ops[i].Renew? && ops[i].token == token)
  }

  lemma {:induction false} LeaseHorizon(gs: Grants, ops: seq<Op>, from: real)
    requires Timed(ops, from) && Within(gs, from + GRANT_TTL_MAX)
    ensures Within(Run(gs, ops), EndOf(ops, from) + GRANT_TTL_MAX)
    decreases ops
  {
    if ops != [] {
      LeaseHorizon(LazyStep(gs, ops[0]).0, ops[1..], ops[0].later);
    }
  }

  /** One operation that does not renew a lease leaves it as it is or removes it. */
  lemma SilentStep(gs: Grants, slot: string, op: Op)
    requires UniqueTokens(gs) && slot in gs && !(op.Renew? && op.token == gs[slot].token)
    requires forall l :: l in gs ==> gs[l].token !in Offered(op)
    ensures var gs' := LazyStep(gs, op).0;
            (slot in gs' && gs'[slot] == gs[slot]) || SlotOf(gs', gs[slot].token).None?
  {
    SlotOfUnique(gs, slot);
  }

  /** Without renewals a lease keeps the expiry it had, for as long as it is in the table. */
  lemma {:induction false} SilentLeaseIsFixed(gs: Grants, slot: string, ops: seq<Op>, used: set<string>)
    requires Tokens(gs, used) && Fresh(ops, used) && slot in gs && NoRenewal(ops, gs[slot].token)
    ensures var end := Run(gs, ops);
            slot in end && end[slot].token == gs[slot].token ==> end[slot] == gs[slot]
    decreases ops
  {
    if ops != [] {
      var gs' := LazyStep(gs, ops[0]).0;
      StepKeepsTokens(gs, used, ops[0]);
      var token := gs[slot].token;
      SilentStep(gs, slot, ops[0]);
      if slot in gs' && gs'[slot].token == token {
        SilentLeaseIsFixed(gs', slot, ops[1..], used + Offered(ops[0]));
      } else {
        DeadTokenStaysDead(gs', used + Offered(ops[0]), ops[1..], token);
      }
    }
  }

  /** A token that was handed out and is no longer in the table never comes back. */
  lemma {:induction false} DeadTokenStaysDead(gs: Grants, used: set<string>, ops: seq<Op>, token: string)
    requires Tokens(gs, used) && Fresh(ops, used) && token in used
    requires SlotOf(gs, token).None?
    ensures SlotOf(Run(gs, ops), token).None?
    ensures |Answers(gs, ops)| == |ops|
    ensures forall i :: 0 <= i < |ops| ==>
              && (ops[i].Renew? && ops[i].token == token ==> Answers(gs, ops)[i] == UnknownOrExpired)
              && (ops[i].Release? && ops[i].token == token ==> Answers(gs, ops)[i] == UnknownToken)
    decreases ops
  {
    if ops != [] {
      StepKeepsTokens(gs, used, ops[0]);
      DeadTokenStaysDead(LazyStep(gs, ops[0]).0, used + Offered(ops[0]), ops[1..], token);
    }
  }

  /** Renewing or releasing with a token leaves every lease with another token alone. */
  lemma TokenReachesOnlyItsOwn(gs: Grants, op: Op, slot: string)
    requires UniqueTokens(gs) && (op.Renew? || op.Release?) && slot in gs && gs[slot].token != op.token
    ensures var gs' := LazyStep(gs, op).0; slot in gs' && gs'[slot] == gs[slot]
  {
  }

  /** A holder that went silent is not the reason for a refusal once its ttl is over, which is at
      most an hour after the last operation it could have renewed in: a request for the slot is then
      answered as if that lease had never existed. */
  lemma SilenceFrees(gs: Grants, slot: string, ops: seq<Op>, from: real, used: set<string>, r: Request, at: real,
      later: real)
    requires Tokens(gs, used) && Timed(ops, from) && Fresh(ops, used) && Within(gs, from + GRANT_TTL_MAX)
    requires slot in gs && NoRenewal(ops, gs[slot].token) && r.slot == slot
    requires at >= gs[slot].expiresAt || at >= from + GRANT_TTL_MAX
    ensures var end := Run(gs, ops);
            slot in end && end[slot].token == gs[slot].token ==>
              LazyStep(end, Acquire(r, at, later)).1 == LazyStep(end - {slot}, Acquire(r, at, later)).1
  {
    SilentLeaseIsFixed(gs, slot, ops, used);
  }
}
