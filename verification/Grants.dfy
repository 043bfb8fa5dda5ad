/**
 * Reserving uses of owner-granted management permissions (backend/app/auth.py) and the
 * grant endpoints beside it (backend/app/routers/agent_management.py).
 *
 * The table is a sequence of rows in the order the database returns them.  The methods are
 * transactions that nothing comes between; GrantRuns has their interleavings.
 */
module Grants {
  import opened Wrappers
  import opened Sorting

  type GrantId = nat
  type UserId = nat
  type AgentId = string
  type DaemonId = string
  type Scope = string
  type Time = nat

  const DAEMON_AGENTS_PROVISION: Scope := "daemon_agents:provision"

  const ALLOWED_SCOPES: set<Scope> :=
    {"cloud_agents:create", "team_orchestration:provision", DAEMON_AGENTS_PROVISION, "runtime_skills:install"}

  /** The JSON value stored under limits.max_uses. */
  datatype JsonValue = JsonNull | JsonBool(flag: bool) | JsonInt(value: int) | JsonOther

  datatype Grant = Grant(
    id: GrantId,
    userId: UserId,
    agentId: AgentId,
    scope: Scope,
    daemon: Option<DaemonId>,
    maxUses: JsonValue,
    otherLimits: string,                // the other keys of limits_json
    useCount: int,
    expiresAt: Option<Time>,
    revokedAt: Option<Time>,
    createdAt: Option<Time>)
  {
    /** The limit in force: only a non-negative integer that is not a boolean counts. */
    function Limit(): Option<nat> {
      if maxUses.JsonInt? && maxUses.value >= 0 then Some(maxUses.value) else None
    }
  }

  /** One caller's parameters: its context, the daemon it acts for, and the clock it read. */
  datatype Caller = Caller(userId: UserId, agentId: AgentId, daemon: Option<DaemonId>, allowGlobal: bool, now: Time)

  // ----- The two readings of a grant -----

  /** `_grant_is_current`, on a loaded grant. */
  predicate IsCurrent(g: Grant, c: Caller) {
    if g.revokedAt.Some? then false
    else if g.expiresAt.Some? && g.expiresAt.value <= c.now then false
    else if g.Limit().Some? && g.useCount >= g.Limit().value then false
    else if c.daemon.None? then g.daemon.None?
    else if c.allowGlobal && g.daemon.None? then true
    else g.daemon == c.daemon
  }

  /** The WHERE of the conditional UPDATE, built from the loaded grant and read on a row. */
  predicate UpdateMatches(row: Grant, loaded: Grant, c: Caller) {
    && row.id == loaded.id
    && row.revokedAt.None?
    && (row.expiresAt.None? || row.expiresAt.value > c.now)
    && (if c.daemon.None? then row.daemon.None?
        else if c.allowGlobal then row.daemon.None? || row.daemon == c.daemon
        else row.daemon == c.daemon)
    && (loaded.Limit().Some? ==> row.useCount < loaded.Limit().value)
  }

  /** On a locked row the two agree. */
  lemma ReadingsAgree(g: Grant, c: Caller)
    ensures IsCurrent(g, c) <==> UpdateMatches(g, g, c)
  {
  }

  // ----- Choosing a grant -----

  predicate Concerns(g: Grant, c: Caller, scope: Scope) {
    g.userId == c.userId && g.agentId == c.agentId && g.scope == scope
  }

  predicate Usable(g: Grant, c: Caller, scope: Scope) {
    Concerns(g, c, scope) && IsCurrent(g, c)
  }

  function Rank(g: Grant, c: Caller): nat {
    if c.daemon.Some? && g.daemon == c.daemon then 0 else 1
  }

  /** A missing creation time counts as the smallest one. */
  function Age(g: Grant): int {
    if g.createdAt.Some? then g.createdAt.value else -1
  }

  /** Daemon-specific grants first, then older ones. */
  predicate Preferred(c: Caller, a: Grant, b: Grant) {
    Rank(a, c) < Rank(b, c) || (Rank(a, c) == Rank(b, c) && Age(a) <= Age(b))
  }

  function Preference(c: Caller): (Grant, Grant) -> bool {
    (a: Grant, b: Grant) => Preferred(c, a, b)
  }

  function Candidates(rows: seq<Grant>, c: Caller, scope: Scope): seq<Grant> {
    StableSort(Filter(rows, (g: Grant) => Usable(g, c, scope)), Preference(c))
  }

  function Chosen(rows: seq<Grant>, c: Caller, scope: Scope): Option<Grant> {
    if Candidates(rows, c, scope) == [] then None else Some(Candidates(rows, c, scope)[0])
  }

  lemma PreferenceIsTotal(c: Caller)
    ensures TotalPreorder(Preference(c))
  {
  }

  lemma CandidatesAreUsable(rows: seq<Grant>, c: Caller, scope: Scope, g: Grant)
    ensures g in Candidates(rows, c, scope) <==> g in rows && Usable(g, c, scope)
  {
    var usable := Filter(rows, (g: Grant) => Usable(g, c, scope));
    FilterMembers(rows, (g: Grant) => Usable(g, c, scope), g);
    PreferenceIsTotal(c);
    SortIsSortedPermutation(usable, Preference(c));
    assert g in multiset(Candidates(rows, c, scope)) <==> g in multiset(usable);
  }

  /** Some usable grant is chosen if there is one, and none is preferred to it. */
  lemma ChosenIsBest(rows: seq<Grant>, c: Caller, scope: Scope)
    ensures Chosen(rows, c, scope).None? <==> forall g | g in rows :: !Usable(g, c, scope)
    ensures Chosen(rows, c, scope).Some? ==>
              var best := Chosen(rows, c, scope).value;
              && best in rows && Usable(best, c, scope)
              && forall g | g in rows && Usable(g, c, scope) :: Preferred(c, best, g)
  {
    var sorted := Candidates(rows, c, scope);
    PreferenceIsTotal(c);
    SortIsSortedPermutation(Filter(rows, (g: Grant) => Usable(g, c, scope)), Preference(c));
    forall g ensures g in sorted <==> g in rows && Usable(g, c, scope) {
      CandidatesAreUsable(rows, c, scope, g);
    }
    if sorted != [] {
      assert sorted[0] in sorted;
      forall g | g in sorted ensures Preferred(c, sorted[0], g) {
        var i :| 0 <= i < |sorted| && sorted[i] == g;
        if i == 0 {
          assert Preference(c)(g, g);
        } else {
          assert Preference(c)(sorted[0], sorted[i]);
        }
      }
    }
  }

  /** What the caller needs of a grant for a scope, in the grant's own fields. */
  predicate Fits(g: Grant, c: Caller, scope: Scope) {
    && g.userId == c.userId && g.agentId == c.agentId && g.scope == scope
    && g.revokedAt.None?
    && (g.expiresAt.Some? ==> c.now < g.expiresAt.value)
    && (g.maxUses.JsonInt? && g.maxUses.value >= 0 ==> g.useCount < g.maxUses.value)
    && (g.daemon == c.daemon || (g.daemon.None? && c.allowGlobal))
  }

  /** One is chosen exactly if one fits, and it fits. */
  lemma ChosenExactlyIfOneFits(rows: seq<Grant>, c: Caller, scope: Scope)
    ensures Chosen(rows, c, scope).Some? <==> exists g | g in rows :: Fits(g, c, scope)
    ensures var chosen := Chosen(rows, c, scope);
            chosen.Some? ==> chosen.value in rows && Fits(chosen.value, c, scope)
  {
    ChosenIsBest(rows, c, scope);
    assert forall g | g in rows :: Usable(g, c, scope) <==> Fits(g, c, scope);
  }

  /**
   * A grant for the caller's own daemon goes before a global one.  Among grants that are alike in
   * this, one without a creation time goes first, and otherwise none is older.
   */
  lemma ChosenIsSpecificThenOldest(rows: seq<Grant>, c: Caller, scope: Scope, other: Grant)
    requires other in rows && Fits(other, c, scope)
    ensures Chosen(rows, c, scope).Some?
    ensures var best := Chosen(rows, c, scope).value;
            && (c.daemon.Some? && other.daemon == c.daemon ==> best.daemon == c.daemon)
            && (best.daemon == other.daemon ==>
                  best.createdAt.None? || (other.createdAt.Some? && best.createdAt.value <= other.createdAt.value))
  {
    ChosenExactlyIfOneFits(rows, c, scope);
    ChosenIsBest(rows, c, scope);
    assert Usable(other, c, scope);
  }

  // ----- Changes to the table -----

  predicate DistinctIds(rows: seq<Grant>) {
    forall i, j | 0 <= i < j < |rows| :: rows[i].id != rows[j].id
  }

  /** Adds `delta` to the use count of one grant. */
  function Bump(rows: seq<Grant>, id: GrantId, delta: int): seq<Grant> {
    seq(|rows|, i requires 0 <= i < |rows| =>
      if rows[i].id == id then rows[i].(useCount := rows[i].useCount + delta) else rows[i])
  }

  /** The table after reserving one use for each scope in turn, where there is one. */
  function ReserveAll(rows: seq<Grant>, c: Caller, scopes: seq<Scope>): seq<Grant>
    decreases |scopes|
  {
    if scopes == [] then rows
    else
      var chosen := Chosen(rows, c, scopes[0]);
      ReserveAll(if chosen.Some? then Bump(rows, chosen.value.id, 1) else rows, c, scopes[1..])
  }

  /** `missing_agent_management_scopes`: the scopes that no loaded grant currently covers. */
  function Missing(rows: seq<Grant>, c: Caller, scopes: seq<Scope>): seq<Scope> {
    Filter(scopes, (scope: Scope) => !exists g | g in rows :: Usable(g, c, scope))
  }

  /** `list(dict.fromkeys(scopes))`: first occurrences, in order. */
  function DedupOnto(seen: seq<Scope>, scopes: seq<Scope>): seq<Scope>
    decreases |scopes|
  {
    if scopes == [] then seen
    else DedupOnto(if scopes[0] in seen then seen else seen + [scopes[0]], scopes[1..])
  }

  predicate Distinct(scopes: seq<Scope>) {
    forall i, j | 0 <= i < j < |scopes| :: scopes[i] != scopes[j]
  }

  lemma {:induction false} DedupIsDistinct(seen: seq<Scope>, scopes: seq<Scope>)
    requires Distinct(seen)
    ensures Distinct(DedupOnto(seen, scopes))
    decreases |scopes|
  {
    if scopes != [] {
      var next := if scopes[0] in seen then seen else seen + [scopes[0]];
      assert Distinct(next);
      DedupIsDistinct(next, scopes[1..]);
    }
  }

  lemma {:induction false} DedupKeepsMembers(seen: seq<Scope>, scopes: seq<Scope>, s: Scope)
    ensures s in DedupOnto(seen, scopes) <==> s in seen || s in scopes
    decreases |scopes|
  {
    if scopes != [] {
      DedupKeepsMembers(if scopes[0] in seen then seen else seen + [scopes[0]], scopes[1..], s);
      assert s in scopes <==> s == scopes[0] || s in scopes[1..];
    }
  }

  // ----- What a reservation changes -----

  lemma {:induction false} FilterPointwise<T>(a: seq<T>, b: seq<T>, keep: T -> bool)
    requires |a| == |b|
    requires forall i | 0 <= i < |a| :: a[i] == b[i] || (!keep(a[i]) && !keep(b[i]))
    ensures Filter(a, keep) == Filter(b, keep)
  {
    if a != [] {
      FilterPointwise(a[1..], b[1..], keep);
    }
  }

  /** A use taken from a grant of another scope leaves the choice for this one. */
  lemma BumpKeepsOtherChoices(rows: seq<Grant>, c: Caller, taken: Grant, scope: Scope)
    requires DistinctIds(rows) && taken in rows && taken.scope != scope
    ensures Chosen(Bump(rows, taken.id, 1), c, scope) == Chosen(rows, c, scope)
    ensures DistinctIds(Bump(rows, taken.id, 1))
  {
    FilterPointwise(rows, Bump(rows, taken.id, 1), (g: Grant) => Usable(g, c, scope));
  }

  /** The grant that a reservation of these scopes takes one use of. */
  predicate Taken(rows: seq<Grant>, c: Caller, scopes: seq<Scope>, g: Grant) {
    g.scope in scopes && Chosen(rows, c, g.scope) == Some(g)
  }

  /**
   * Reserving distinct scopes takes exactly one use of the best grant of each, measured
   * on the table before, and touches nothing else.
   */
  lemma {:induction false} ReserveAllTakesOneEach(rows: seq<Grant>, c: Caller, scopes: seq<Scope>)
    requires DistinctIds(rows) && Distinct(scopes)
    ensures |ReserveAll(rows, c, scopes)| == |rows|
    ensures forall i | 0 <= i < |rows| ::
              ReserveAll(rows, c, scopes)[i]
              == if Taken(rows, c, scopes, rows[i]) then rows[i].(useCount := rows[i].useCount + 1) else rows[i]
    decreases |scopes|
  {
    if scopes != [] {
      var chosen := Chosen(rows, c, scopes[0]);
      ChosenIsBest(rows, c, scopes[0]);
      var next := if chosen.Some? then Bump(rows, chosen.value.id, 1) else rows;
      forall scope | scope in scopes[1..] ensures Chosen(next, c, scope) == Chosen(rows, c, scope) {
        if chosen.Some? {
          BumpKeepsOtherChoices(rows, c, chosen.value, scope);
        }
      }
      ReserveAllTakesOneEach(next, c, scopes[1..]);
      forall i | 0 <= i < |rows|
        ensures ReserveAll(rows, c, scopes)[i]
                == if Taken(rows, c, scopes, rows[i]) then rows[i].(useCount := rows[i].useCount + 1) else rows[i]
      {
        TakenAfterFirst(rows, c, scopes, next, i);
      }
    }
  }

  lemma TakenAfterFirst(rows: seq<Grant>, c: Caller, scopes: seq<Scope>, next: seq<Grant>, i: nat)
    requires DistinctIds(rows) && Distinct(scopes) && scopes != [] && i < |rows| && |next| == |rows|
    requires next == var chosen := Chosen(rows, c, scopes[0]);
                     if chosen.Some? then Bump(rows, chosen.value.id, 1) else rows
    requires forall scope | scope in scopes[1..] :: Chosen(next, c, scope) == Chosen(rows, c, scope)
    ensures Taken(rows, c, scopes, rows[i])
            <==> Chosen(rows, c, scopes[0]) == Some(rows[i]) || Taken(next, c, scopes[1..], next[i])
    ensures !(Chosen(rows, c, scopes[0]) == Some(rows[i]) && Taken(next, c, scopes[1..], next[i]))
    ensures Chosen(rows, c, scopes[0]) != Some(rows[i]) ==> next[i] == rows[i]
  {
    ChosenIsBest(rows, c, scopes[0]);
    assert scopes == [scopes[0]] + scopes[1..];
  }

  /** Part-way through the scopes: what is left will go as it would have gone from the start. */
  ghost predicate SameAhead(start: seq<Grant>, current: seq<Grant>, c: Caller, scopes: seq<Scope>, i: nat)
    requires i <= |scopes|
  {
    && DistinctIds(current)
    && (forall k | i <= k < |scopes| :: Chosen(current, c, scopes[k]) == Chosen(start, c, scopes[k]))
    && ReserveAll(start, c, scopes) == ReserveAll(current, c, scopes[i..])
  }

  lemma OneMoreScope(start: seq<Grant>, current: seq<Grant>, c: Caller, scopes: seq<Scope>, i: nat)
    requires i < |scopes| && Distinct(scopes) && SameAhead(start, current, c, scopes, i)
    ensures var chosen := Chosen(current, c, scopes[i]);
            && chosen == Chosen(start, c, scopes[i])
            && SameAhead(start, if chosen.Some? then Bump(current, chosen.value.id, 1) else current, c, scopes, i + 1)
            && Missing(start, c, scopes[..i + 1])
               == Missing(start, c, scopes[..i]) + (if chosen.None? then [scopes[i]] else [])
  {
    var chosen := Chosen(current, c, scopes[i]);
    var next := if chosen.Some? then Bump(current, chosen.value.id, 1) else current;
    ChosenIsBest(start, c, scopes[i]);
    ChosenIsBest(current, c, scopes[i]);
    forall k | i < k < |scopes| ensures Chosen(next, c, scopes[k]) == Chosen(start, c, scopes[k]) {
      if chosen.Some? {
        BumpKeepsOtherChoices(current, c, chosen.value, scopes[k]);
      }
    }
    assert scopes[i..][1..] == scopes[i + 1..];
    MissingOneMore(start, c, scopes, i);
  }

  /** What the loop over the scopes has done after i of them. */
  ghost predicate ReservedUpTo(start: seq<Grant>, current: seq<Grant>, c: Caller, scopes: seq<Scope>, i: nat,
                               reserved: seq<Grant>, missing: seq<Scope>)
    requires i <= |scopes|
  {
    && SameAhead(start, current, c, scopes, i)
    && missing == Missing(start, c, scopes[..i])
    && (missing == [] ==> AreChosen(start, c, scopes[..i], reserved))
  }

  /** These grants are the choices for these scopes. */
  ghost predicate AreChosen(rows: seq<Grant>, c: Caller, scopes: seq<Scope>, grants: seq<Grant>) {
    |grants| == |scopes| && forall k | 0 <= k < |scopes| :: Chosen(rows, c, scopes[k]) == Some(grants[k])
  }

  lemma OneMoreChosen(rows: seq<Grant>, c: Caller, scopes: seq<Scope>, i: nat, grants: seq<Grant>, g: Grant)
    requires i < |scopes| && AreChosen(rows, c, scopes[..i], grants) && Chosen(rows, c, scopes[i]) == Some(g)
    ensures AreChosen(rows, c, scopes[..i + 1], grants + [g])
  {
    forall k | 0 <= k < i + 1 ensures Chosen(rows, c, scopes[..i + 1][k]) == Some((grants + [g])[k]) {
      if k < i {
        assert scopes[..i + 1][k] == scopes[..i][k];
      }
    }
  }

  lemma NoScopeYet(rows: seq<Grant>, c: Caller, scopes: seq<Scope>)
    requires DistinctIds(rows)
    ensures ReservedUpTo(rows, rows, c, scopes, 0, [], [])
  {
    assert scopes[0..] == scopes && scopes[..0] == [];
  }

  lemma ReservedOneMore(start: seq<Grant>, current: seq<Grant>, c: Caller, scopes: seq<Scope>, i: nat,
                        reserved: seq<Grant>, missing: seq<Scope>)
    requires i < |scopes| && Distinct(scopes) && ReservedUpTo(start, current, c, scopes, i, reserved, missing)
    ensures var chosen := Chosen(current, c, scopes[i]);
            ReservedUpTo(start, if chosen.Some? then Bump(current, chosen.value.id, 1) else current, c, scopes, i + 1,
                         if chosen.Some? then reserved + [chosen.value] else reserved,
                         if chosen.None? then missing + [scopes[i]] else missing)
  {
    OneMoreScope(start, current, c, scopes, i);
    var chosen := Chosen(current, c, scopes[i]);
    if chosen.Some? && missing == [] {
      OneMoreChosen(start, c, scopes, i, reserved, chosen.value);
    }
  }

  lemma AllScopesDone(start: seq<Grant>, current: seq<Grant>, c: Caller, scopes: seq<Scope>,
                      reserved: seq<Grant>, missing: seq<Scope>)
    requires ReservedUpTo(start, current, c, scopes, |scopes|, reserved, missing)
    ensures current == ReserveAll(start, c, scopes) && missing == Missing(start, c, scopes)
    ensures missing == [] ==> AreChosen(start, c, scopes, reserved)
  {
    assert scopes[..|scopes|] == scopes && scopes[|scopes|..] == [];
  }

  lemma MissingOneMore(rows: seq<Grant>, c: Caller, scopes: seq<Scope>, i: nat)
    requires i < |scopes|
    ensures Missing(rows, c, scopes[..i + 1])
            == Missing(rows, c, scopes[..i]) + (if Chosen(rows, c, scopes[i]).None? then [scopes[i]] else [])
  {
    var absent := (scope: Scope) => !exists g | g in rows :: Usable(g, c, scope);
    assert scopes[..i + 1] == scopes[..i] + [scopes[i]];
    FilterConcat(scopes[..i], [scopes[i]], absent);
    ChosenIsBest(rows, c, scopes[i]);
  }

  // ----- The rows after release, grant and revocation -----

  /** The UPDATE of a release: one use back for each listed grant that has any. */
  function ReleaseAll(rows: seq<Grant>, ids: set<GrantId>): seq<Grant> {
    seq(|rows|, i requires 0 <= i < |rows| =>
      if rows[i].id in ids && rows[i].useCount > 0 then rows[i].(useCount := rows[i].useCount - 1) else rows[i])
  }

  /** A release of what was just reserved leaves the table as it was before. */
  lemma ReleaseUndoesReserve(rows: seq<Grant>, c: Caller, scopes: seq<Scope>, ids: set<GrantId>)
    requires DistinctIds(rows) && Distinct(scopes) && forall g | g in rows :: g.useCount >= 0
    requires forall i | 0 <= i < |rows| :: rows[i].id in ids <==> Taken(rows, c, scopes, rows[i])
    ensures ReleaseAll(ReserveAll(rows, c, scopes), ids) == rows
  {
    ReserveAllTakesOneEach(rows, c, scopes);
    var reserved := ReserveAll(rows, c, scopes);
    forall i | 0 <= i < |rows| ensures ReleaseAll(reserved, ids)[i] == rows[i] {
      assert rows[i] in rows && reserved[i].id == rows[i].id;
    }
  }

  /** The unrevoked grant that a new one for this scope and daemon takes over. */
  predicate Renewable(g: Grant, userId: UserId, agentId: AgentId, scope: Scope, daemon: Option<DaemonId>) {
    g.userId == userId && g.agentId == agentId && g.scope == scope && g.revokedAt.None? && g.daemon == daemon
  }

  /** The body of a grant request, validated, for one scope. */
  datatype Offer = Offer(userId: UserId, agentId: AgentId, scope: Scope, daemon: Option<DaemonId>,
                         maxUses: JsonValue, otherLimits: string, expiresInDays: nat, now: Time)

  function ExpiryOf(offer: Offer): Time {
    offer.now + offer.expiresInDays * 86400
  }

  /** The position of the first grant that the offer renews; the table's length if there is none. */
  function RenewedAt(rows: seq<Grant>, offer: Offer): (at: nat)
    ensures at <= |rows|
    ensures forall i | 0 <= i < at :: !Renewable(rows[i], offer.userId, offer.agentId, offer.scope, offer.daemon)
    ensures at < |rows| ==> Renewable(rows[at], offer.userId, offer.agentId, offer.scope, offer.daemon)
  {
    if rows == [] || Renewable(rows[0], offer.userId, offer.agentId, offer.scope, offer.daemon) then 0
    else 1 + RenewedAt(rows[1..], offer)
  }

  function NewGrant(offer: Offer, freshId: GrantId): Grant {
    Grant(freshId, offer.userId, offer.agentId, offer.scope, offer.daemon, offer.maxUses, offer.otherLimits, 0,
          Some(ExpiryOf(offer)), None, Some(offer.now))
  }

  function Renewed(g: Grant, offer: Offer): Grant {
    g.(expiresAt := Some(ExpiryOf(offer)), maxUses := offer.maxUses, otherLimits := offer.otherLimits, useCount := 0)
  }

  /** `create_agent_management_grant` for one scope: renew in place, resetting the counter, or insert. */
  function Regrant(rows: seq<Grant>, offer: Offer, freshId: GrantId): seq<Grant> {
    var at := RenewedAt(rows, offer);
    if at < |rows| then rows[at := Renewed(rows[at], offer)] else rows + [NewGrant(offer, freshId)]
  }

  function RevokeRow(rows: seq<Grant>, id: GrantId, userId: UserId, now: Time): seq<Grant> {
    seq(|rows|, i requires 0 <= i < |rows| =>
      if rows[i].id == id && rows[i].userId == userId && rows[i].revokedAt.None?
      then rows[i].(revokedAt := Some(now)) else rows[i])
  }

  /** A scope is missing exactly if no grant fits. */
  lemma MissingExactly(rows: seq<Grant>, c: Caller, scopes: seq<Scope>, scope: Scope)
    ensures scope in Missing(rows, c, scopes) <==> scope in scopes && forall g | g in rows :: !Fits(g, c, scope)
  {
    FilterMembers(scopes, (scope: Scope) => !exists g | g in rows :: Usable(g, c, scope), scope);
    assert forall g | g in rows :: Usable(g, c, scope) <==> Fits(g, c, scope);
  }

  /**
   * The grant that an offer renews or inserts is unused and fits its agent, for as many days as
   * offered, exactly if it allows any use; no other row changes.
   */
  lemma OfferFitsExactly(rows: seq<Grant>, offer: Offer, freshId: GrantId, c: Caller)
    requires c.userId == offer.userId && c.agentId == offer.agentId && c.daemon == offer.daemon
    ensures var at, after := RenewedAt(rows, offer), Regrant(rows, offer, freshId);
            && at < |after| && after[at].useCount == 0
            && (Fits(after[at], c, offer.scope)
                <==> offer.maxUses != JsonInt(0) && c.now < offer.now + offer.expiresInDays * 24 * 60 * 60)
            && (at < |rows| ==> after[at].id == rows[at].id && |after| == |rows|)
            && (at == |rows| ==>
                  after[at].id == freshId && after[at].createdAt == Some(offer.now) && |after| == |rows| + 1)
            && forall i | 0 <= i < |rows| && i != at :: after[i] == rows[i]
  {
  }

  /** Whatever happens to other rows, a revoked grant fits nobody any more. */
  lemma RevokedFitsNobody(rows: seq<Grant>, id: GrantId, userId: UserId, now: Time, i: nat, c: Caller, scope: Scope)
    requires i < |rows|
    ensures var after := RevokeRow(rows, id, userId, now);
            && |after| == |rows|
            && (rows[i].id == id && rows[i].userId == userId ==> !Fits(after[i], c, scope))
            && (rows[i].id != id || rows[i].userId != userId ==> after[i] == rows[i])
            && after[i].(revokedAt := rows[i].revokedAt) == rows[i]
  {
  }

  /** What the limits validator lets through for max_uses. */
  predicate ValidLimit(maxUses: JsonValue) {
    maxUses.JsonNull? || (maxUses.JsonInt? && maxUses.value >= 0)
  }

  /** The conditional increment: every row that the WHERE matches. */
  function UpdateRows(rows: seq<Grant>, loaded: Grant, c: Caller): seq<Grant> {
    seq(|rows|, i requires 0 <= i < |rows| =>
      if UpdateMatches(rows[i], loaded, c) then rows[i].(useCount := rows[i].useCount + 1) else rows[i])
  }

  /** Under the row lock the UPDATE for a usable grant hits that row and no other. */
  lemma UpdateHitsTheLoadedRow(rows: seq<Grant>, g: Grant, c: Caller)
    requires DistinctIds(rows) && g in rows && IsCurrent(g, c)
    ensures UpdateRows(rows, g, c) == Bump(rows, g.id, 1)
    ensures exists i | 0 <= i < |rows| :: UpdateMatches(rows[i], g, c)
  {
    ReadingsAgree(g, c);
  }

  datatype Context = Context(isAgent: bool, userId: UserId, activeAgentId: Option<AgentId>)

  datatype Reservation =
    | UnknownScope                              // RuntimeError
    | NotNeeded                                 // a user acts: {}
    | PermissionRequired(missing: seq<Scope>)   // 403
    | Reserved(grants: seq<Grant>)              // one for each distinct scope

  class GrantTable {
    var rows: seq<Grant>

    constructor ()
      ensures rows == []
    {
      rows := [];
    }

    /** `_reserve_agent_management_scope_use` */
    method ReserveScopeUse(c: Caller, scope: Scope) returns (reserved: Option<Grant>)
      requires DistinctIds(rows)
      modifies this
      ensures reserved == Chosen(old(rows), c, scope)
      ensures rows == if reserved.Some? then Bump(old(rows), reserved.value.id, 1) else old(rows)
    {
      var usable: seq<Grant> := [];
      for i := 0 to |rows|
        invariant rows == old(rows) && usable == Filter(rows[..i], (g: Grant) => Usable(g, c, scope))
      {
        FilterConcat(rows[..i], [rows[i]], (g: Grant) => Usable(g, c, scope));
        assert rows[..i + 1] == rows[..i] + [rows[i]];
        if Concerns(rows[i], c, scope) && IsCurrent(rows[i], c) {
          usable := usable + [rows[i]];
        }
      }
      assert rows[..|rows|] == rows;
      var candidates := StableSort(usable, Preference(c));
      ChosenIsBest(rows, c, scope);
      for i := 0 to |candidates|
        invariant i == 0 && rows == old(rows)
      {
        var loaded := candidates[i];
        UpdateHitsTheLoadedRow(rows, loaded, c);
        var hit := exists j | 0 <= j < |rows| :: UpdateMatches(rows[j], loaded, c);
        rows := UpdateRows(rows, loaded, c);
        if hit {
          return Some(loaded);
        }
      }
      return None;
    }

    /** `reserve_agent_management_scope_uses`: all scopes or none. */
    method ReserveScopeUses(ctx: Context, scopes: seq<Scope>, daemon: Option<DaemonId>, allowGlobal: bool, now: Time)
      returns (reservation: Reservation)
      requires DistinctIds(rows)
      modifies this
      ensures !reservation.Reserved? ==> rows == old(rows)
      ensures reservation.UnknownScope? <==>
                exists s | s in scopes :: s !in {"cloud_agents:create", "team_orchestration:provision",
                                                 "daemon_agents:provision", "runtime_skills:install"}
      ensures !reservation.UnknownScope? ==>
                var c := Caller(ctx.userId, ctx.activeAgentId.GetOr(""), daemon, allowGlobal, now);
                var required := DedupOnto([], scopes);
                if !ctx.isAgent then reservation == NotNeeded
                else if ctx.activeAgentId.GetOr("") == "" then reservation == PermissionRequired(required)
                else if Missing(old(rows), c, required) != [] then
                  reservation == PermissionRequired(Missing(old(rows), c, required))
                else
                  && reservation.Reserved? && AreChosen(old(rows), c, required, reservation.grants)
                  && rows == ReserveAll(old(rows), c, required)
    {
      var required := DedupOnto([], scopes);
      DedupIsDistinct([], scopes);
      forall s ensures s in required <==> s in scopes {
        DedupKeepsMembers([], scopes, s);
      }
      if exists s | s in required :: s !in ALLOWED_SCOPES {
        return UnknownScope;
      }
      if !ctx.isAgent {
        return NotNeeded;
      }
      var agentId := ctx.activeAgentId.GetOr("");
      if agentId == "" {
        return PermissionRequired(required);
      }
      var c := Caller(ctx.userId, agentId, daemon, allowGlobal, now);
      var before := rows;
      var reserved, missing := ReserveRequired(c, required);
      if missing != [] {
        rows := before;                          // ROLLBACK
        return PermissionRequired(missing);
      }
      return Reserved(reserved);
    }

    /** The loop over the distinct scopes, inside the transaction. */
    method ReserveRequired(c: Caller, required: seq<Scope>) returns (reserved: seq<Grant>, missing: seq<Scope>)
      requires DistinctIds(rows) && Distinct(required)
      modifies this
      ensures missing == Missing(old(rows), c, required)
      ensures missing == [] ==> AreChosen(old(rows), c, required, reserved)
      ensures rows == ReserveAll(old(rows), c, required)
    {
      reserved, missing := [], [];
      ghost var start := rows;
      NoScopeYet(start, c, required);
      for i := 0 to |required|
        invariant ReservedUpTo(start, rows, c, required, i, reserved, missing)
      {
        ghost var current := rows;
        var grant := ReserveScopeUse(c, required[i]);
        ReservedOneMore(start, current, c, required, i, reserved, missing);
        if grant.None? {
          missing := missing + [required[i]];
        } else {
          reserved := reserved + [grant.value];
        }
      }
      AllScopesDone(start, rows, c, required, reserved, missing);
    }

    /** `release_agent_management_scope_uses` */
    method ReleaseScopeUses(grants: seq<Grant>)
      modifies this
      ensures |rows| == |old(rows)|
      ensures forall i | 0 <= i < |rows| ::
                if (exists g | g in grants :: g.id == old(rows)[i].id) && old(rows)[i].useCount > 0
                then rows[i] == old(rows)[i].(useCount := old(rows)[i].useCount - 1)
                else rows[i] == old(rows)[i]
    {
      if grants == [] {
        return;
      }
      var ids := set g | g in grants :: g.id;
      rows := ReleaseAll(rows, ids);
    }

    /** One scope of `create_agent_management_grant`; `freshId` is the key a new row would get. */
    method CreateGrant(offer: Offer, freshId: GrantId)
      modifies this
      ensures rows == Regrant(old(rows), offer, freshId)
    {
      var at := 0;
      while at < |rows| && !Renewable(rows[at], offer.userId, offer.agentId, offer.scope, offer.daemon)
        invariant rows == old(rows) && at <= |rows|
        invariant RenewedAt(rows, offer) == at + RenewedAt(rows[at..], offer)
      {
        at := at + 1;
      }
      if at == |rows| {
        rows := rows + [NewGrant(offer, freshId)];
      } else {
        rows := rows[at := Renewed(rows[at], offer)];
      }
    }

    /** `revoke_agent_management_grant`: false is the 404. */
    method RevokeGrant(id: GrantId, userId: UserId, now: Time) returns (found: bool)
      requires DistinctIds(rows)
      modifies this
      ensures found <==> exists g | g in old(rows) :: g.id == id && g.userId == userId
      ensures rows == RevokeRow(old(rows), id, userId, now)
    {
      for at := 0 to |rows|
        invariant rows == old(rows)
        invariant forall i | 0 <= i < at :: !(rows[i].id == id && rows[i].userId == userId)
      {
        if rows[at].id == id && rows[at].userId == userId {
          assert rows[at] in rows;
          if rows[at].revokedAt.None? {
            rows := rows[at := rows[at].(revokedAt := Some(now))];
          }
          assert rows == RevokeRow(old(rows), id, userId, now);
          return true;
        }
      }
      assert rows == RevokeRow(rows, id, userId, now);
      return false;
    }
  }
}
