/**
 * Redeeming an invite code (backend/app/routers/beta.py): the conditional updates of the user and
 * of the code, with first reads that may be out of date.
 *
 * A request holds the lock on its user's row from the first update to its commit or rollback; the
 * update of the code, the insert and the commit are one step, under the lock on the code's row.
 */
module BetaCodes {
  import opened Wrappers

  type Code = string
  type User = string
  type Time = int

  datatype Row = Row(used: nat, max: nat, active: bool, expiresAt: Option<Time>)

  datatype Redemption = Redemption(code: Code, user: User)

  /** The committed tables; `access` are the users with beta_access. */
  datatype Tables = Tables(codes: map<Code, Row>, redemptions: seq<Redemption>, access: set<User>)

  datatype Phase = Fresh | Passed(now: Time) | Activated(now: Time) | Over

  datatype Request = Request(user: User, code: Code, phase: Phase)

  datatype World = World(tables: Tables, requests: seq<Request>)

  datatype Step =
    | Check(r: nat, now: Time)              // the reads at the start
    | Activate(r: nat)                      // UPDATE of the user
    | Claim(r: nat)                         // UPDATE of the code, insert and commit; or rollback
    | Abort(r: nat)                         // the connection is lost
    | Arrive(user: User, code: Code)
    | TokenAccess(user: User)               // access by a claim in the user's token
    | AddCode(code: Code, max: nat, expiresAt: Option<Time>)
    | RevokeCode(code: Code)

  /** What the first read lets through. */
  predicate Passes(row: Option<Row>, now: Time) {
    && row.Some? && row.value.active && !(row.value.expiresAt.Some? && row.value.expiresAt.value < now)
    && row.value.used < row.value.max
  }

  /** The WHERE of the claim. */
  predicate Claimable(row: Row, now: Time) {
    row.active && row.used < row.max && (row.expiresAt.None? || row.expiresAt.value >= now)
  }

  function Lookup(t: Tables, code: Code): Option<Row> {
    if code in t.codes then Some(t.codes[code]) else None
  }

  function Claimed(t: Tables, code: Code, user: User): Tables
    requires code in t.codes
  {
    Tables(t.codes[code := t.codes[code].(used := t.codes[code].used + 1)],
           t.redemptions + [Redemption(code, user)], t.access + {user})
  }

  /** The UNIQUE constraint on the user of a redemption. */
  predicate HasRedeemed(t: Tables, user: User) {
    exists i | 0 <= i < |t.redemptions| :: t.redemptions[i].user == user
  }

  predicate Locked(w: World, user: User) {
    exists i | 0 <= i < |w.requests| :: w.requests[i].phase.Activated? && w.requests[i].user == user
  }

  predicate Enabled(w: World, s: Step) {
    match s
    case Check(r, _) => r < |w.requests| && w.requests[r].phase.Fresh?
    case Activate(r) => r < |w.requests| && w.requests[r].phase.Passed? && !Locked(w, w.requests[r].user)
    case Claim(r) => r < |w.requests| && w.requests[r].phase.Activated?
    case Abort(r) => r < |w.requests|
    case Arrive(_, _) => true
    case TokenAccess(user) => !Locked(w, user)
    case AddCode(code, _, _) => code !in w.tables.codes
    case RevokeCode(code) => code in w.tables.codes
  }

  function Turn(w: World, r: nat, phase: Phase): World
    requires r < |w.requests|
  {
    w.(requests := w.requests[r := w.requests[r].(phase := phase)])
  }

  function Next(w: World, s: Step): World
    requires Enabled(w, s)
  {
    var t := w.tables;
    match s
    case Check(r, now) => Turn(w, r, if Passes(Lookup(t, w.requests[r].code), now) then Passed(now) else Over)
    case Activate(r) =>
      Turn(w, r, if w.requests[r].user in t.access then Over else Activated(w.requests[r].phase.now))
    case Claim(r) =>
      var q := w.requests[r];
      if q.code in t.codes && Claimable(t.codes[q.code], q.phase.now) && !HasRedeemed(t, q.user)
      then Turn(w, r, Over).(tables := Claimed(t, q.code, q.user))
      else Turn(w, r, Over)
    case Abort(r) => Turn(w, r, Over)
    case Arrive(user, code) => w.(requests := w.requests + [Request(user, code, Fresh)])
    case TokenAccess(user) => w.(tables := t.(access := t.access + {user}))
    case AddCode(code, max, expiresAt) => w.(tables := t.(codes := t.codes[code := Row(0, max, true, expiresAt)]))
    case RevokeCode(code) => w.(tables := t.(codes := t.codes[code := t.codes[code].(active := false)]))
  }

  function CountFor(redemptions: seq<Redemption>, code: Code): nat {
    if redemptions == [] then 0
    else CountFor(redemptions[..|redemptions| - 1], code) + if redemptions[|redemptions| - 1].code == code then 1 else 0
  }

  /** The counters are the redemptions, within the limits; nobody redeemed twice. */
  ghost predicate Sound(t: Tables) {
    && (forall c | c in t.codes :: t.codes[c].used == CountFor(t.redemptions, c) && t.codes[c].used <= t.codes[c].max)
    && (forall i | 0 <= i < |t.redemptions| :: t.redemptions[i].code in t.codes && t.redemptions[i].user in t.access)
    && (forall i, j | 0 <= i < j < |t.redemptions| :: t.redemptions[i].user != t.redemptions[j].user)
  }

  ghost predicate Inv(w: World) {
    && Sound(w.tables)
    && (forall i | 0 <= i < |w.requests| && w.requests[i].phase.Activated? :: w.requests[i].user !in w.tables.access)
    && (forall i, j | 0 <= i < j < |w.requests| && w.requests[i].phase.Activated? && w.requests[j].phase.Activated? ::
          w.requests[i].user != w.requests[j].user)
  }

  lemma CountOneMore(redemptions: seq<Redemption>, r: Redemption, code: Code)
    ensures CountFor(redemptions + [r], code) == CountFor(redemptions, code) + if r.code == code then 1 else 0
  {
    assert (redemptions + [r])[..|redemptions|] == redemptions;
  }

  lemma {:induction false} UnusedHasNone(redemptions: seq<Redemption>, code: Code)
    requires forall i | 0 <= i < |redemptions| :: redemptions[i].code != code
    ensures CountFor(redemptions, code) == 0
  {
    if redemptions != [] {
      UnusedHasNone(redemptions[..|redemptions| - 1], code);
    }
  }

  lemma ClaimKeepsSound(t: Tables, code: Code, user: User)
    requires Sound(t) && code in t.codes && t.codes[code].used < t.codes[code].max && user !in t.access
    ensures Sound(Claimed(t, code, user))
  {
    forall c | c in t.codes
      ensures CountFor(Claimed(t, code, user).redemptions, c) == CountFor(t.redemptions, c) + if c == code then 1 else 0
    {
      CountOneMore(t.redemptions, Redemption(code, user), c);
    }
  }

  lemma TablesStaySound(w: World, s: Step)
    requires Inv(w) && Enabled(w, s)
    ensures Sound(Next(w, s).tables)
  {
    match s
    case Claim(r) =>
      var q := w.requests[r];
      if q.code in w.tables.codes && Claimable(w.tables.codes[q.code], q.phase.now) {
        ClaimKeepsSound(w.tables, q.code, q.user);
      }
    case AddCode(code, _, _) => UnusedHasNone(w.tables.redemptions, code);
    case _ =>
  }

  lemma InvStep(w: World, s: Step)
    requires Inv(w) && Enabled(w, s)
    ensures Inv(Next(w, s))
  {
    TablesStaySound(w, s);
  }

  /** The insert never meets the UNIQUE constraint: who has redeemed has access, and is stopped before. */
  lemma ConstraintNeverFires(w: World, r: nat)
    requires Inv(w) && Enabled(w, Claim(r))
    ensures !HasRedeemed(w.tables, w.requests[r].user)
  {
  }

  /**
   * However late its claim comes, a request uses up one use and gives access to its own user,
   * or changes nothing; it does the first exactly if the code can be claimed then.
   */
  lemma ClaimIsAllOrNothing(w: World, r: nat)
    requires Inv(w) && Enabled(w, Claim(r))
    ensures var q, t, t' := w.requests[r], w.tables, Next(w, Claim(r)).tables;
            if && q.code in t.codes && t.codes[q.code].active && t.codes[q.code].used < t.codes[q.code].max
               && (t.codes[q.code].expiresAt.Some? ==> q.phase.now <= t.codes[q.code].expiresAt.value)
            then t'.access == t.access + {q.user} && q.user !in t.access && |t'.redemptions| == |t.redemptions| + 1
                 && t'.codes.Keys == t.codes.Keys
                 && forall c | c in t.codes :: t'.codes[c].used == t.codes[c].used + if c == q.code then 1 else 0
            else t' == t
  {
    ConstraintNeverFires(w, r);
  }

  predicate IsRun(w: World, run: seq<Step>)
    decreases |run|
  {
    run == [] || (Enabled(w, run[0]) && IsRun(Next(w, run[0]), run[1..]))
  }

  function After(w: World, run: seq<Step>): World
    requires IsRun(w, run)
    decreases |run|
  {
    if run == [] then w else After(Next(w, run[0]), run[1..])
  }

  lemma {:induction false} RunKeepsInv(w: World, run: seq<Step>)
    requires Inv(w) && IsRun(w, run)
    ensures Inv(After(w, run))
    decreases |run|
  {
    if run != [] {
      InvStep(w, run[0]);
      RunKeepsInv(Next(w, run[0]), run[1..]);
    }
  }

  /** After any run the counters are exact and within their limits, and nobody has redeemed twice. */
  lemma CountersAreExact(run: seq<Step>)
    requires IsRun(World(Tables(map[], [], {}), []), run)
    ensures Sound(After(World(Tables(map[], [], {}), []), run).tables)
  {
    RunKeepsInv(World(Tables(map[], [], {}), []), run);
  }

  /** Once a code is revoked nobody redeems it any more, not even a request that had read it before. */
  lemma {:induction false} NoRedemptionAfterRevocation(w: World, run: seq<Step>, code: Code)
    requires IsRun(w, run) && code in w.tables.codes && !w.tables.codes[code].active
    ensures CountFor(After(w, run).tables.redemptions, code) == CountFor(w.tables.redemptions, code)
    decreases |run|
  {
    if run != [] {
      RevokedStep(w, run[0], code);
      NoRedemptionAfterRevocation(Next(w, run[0]), run[1..], code);
    }
  }

  lemma RevokedStep(w: World, s: Step, code: Code)
    requires Enabled(w, s) && code in w.tables.codes && !w.tables.codes[code].active
    ensures var t := Next(w, s).tables;
            && code in t.codes && !t.codes[code].active
            && CountFor(t.redemptions, code) == CountFor(w.tables.redemptions, code)
  {
    if s.Claim? {
      var q := w.requests[s.r];
      CountOneMore(w.tables.redemptions, Redemption(q.code, q.user), code);
    }
  }

  /** A first read lets a request on exactly if the code is active, has a use left and has not expired. */
  lemma CheckExactly(w: World, r: nat, now: Time)
    requires Enabled(w, Check(r, now))
    ensures var code, codes := w.requests[r].code, w.tables.codes;
            Next(w, Check(r, now)).requests[r].phase.Passed?
            <==> code in codes && codes[code].active && codes[code].used < codes[code].max
                 && (codes[code].expiresAt.Some? ==> now <= codes[code].expiresAt.value)
  {
  }

  /** A request that is lost, at whatever point, changes nothing and locks nothing any more. */
  lemma AbortLeavesNothing(w: World, r: nat)
    requires Inv(w) && Enabled(w, Abort(r))
    ensures var next := Next(w, Abort(r));
            && next.tables == w.tables
            && (w.requests[r].phase.Activated? ==> !Locked(next, w.requests[r].user))
  {
  }

  // ----- One request -----

  datatype Reply = Invalid | Expired | UsedUp | Ok

  class BetaDb {
    var codes: map<Code, Row>
    var redemptions: seq<Redemption>
    var access: set<User>

    ghost function Committed(): Tables
      reads this
    {
      Tables(codes, redemptions, access)
    }

    constructor ()
      ensures Committed() == Tables(map[], [], {})
    {
      codes, redemptions, access := map[], [], {};
    }

    /** `redeem_invite_code`, when `seen` is what the first read saw, however long ago. */
    method RedeemInviteCode(user: User, code: Code, seen: Option<Row>, now: Time) returns (reply: Reply)
      requires Sound(Committed()) && (seen.Some? ==> code in codes)
      modifies this
      ensures Sound(Committed())
      ensures var t := old(Committed());
              if Passes(seen, now) && user !in t.access && Claimable(t.codes[code], now)
              then Committed() == Claimed(t, code, user) && reply == Ok
              else Committed() == t
      ensures reply == Ok ==> user in access
      ensures reply == Invalid <==> seen.None? || !seen.value.active
      ensures reply == Expired <==>
                seen.Some? && seen.value.active && seen.value.expiresAt.Some? && seen.value.expiresAt.value < now
      ensures reply == UsedUp && seen.value.used < seen.value.max ==>
                var row := old(codes)[code];
                !row.active || row.used >= row.max || (row.expiresAt.Some? && row.expiresAt.value < now)
    {
      if seen.None? || !seen.value.active {
        return Invalid;
      }
      if seen.value.expiresAt.Some? && seen.value.expiresAt.value < now {
        return Expired;
      }
      if seen.value.used >= seen.value.max {
        return UsedUp;
      }
      var before := access;
      if user in access {
        return Ok;
      }
      access := access + {user};
      if !Claimable(codes[code], now) {
        access := before;
        return UsedUp;
      }
      ghost var t := old(Committed());
      codes := codes[code := codes[code].(used := codes[code].used + 1)];
      redemptions := redemptions + [Redemption(code, user)];
      ClaimKeepsSound(t, code, user);
      reply := Ok;
    }
  }
}
