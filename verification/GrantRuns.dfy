/**
 * Reserving, releasing, renewing and revoking grants side by side.
 *
 * Reservations lock the rows they read and releases are one UPDATE, so each is one step.  A
 * renewal reads its row without a lock and writes it later; the ORM writes a field only if it
 * differs from the loaded one, so a counter loaded as zero is not written at all.
 */
module GrantRuns {
  import opened Wrappers
  import opened Sorting
  import opened Grants

  /** One use handed out: of which grant, and after how many renewals of it. */
  datatype Use = Use(grant: GrantId, renewal: nat)

  /** A grant request between its query and its commit; None inserts a new row. */
  datatype Request = Request(offer: Offer, loaded: Option<Grant>)

  datatype World = World(
    rows: seq<Grant>,
    renewals: map<GrantId, nat>,       // how often each grant was renewed
    uses: multiset<Use>,               // handed out and not given back
    requests: seq<Request>)

  datatype Step =
    | Reserve(c: Caller, scopes: seq<Scope>)
    | Release(back: set<Use>)
    | Load(offer: Offer)
    | Store(k: nat, freshId: GrantId)
    | Drop(k: nat)
    | Revoke(id: GrantId, userId: UserId, now: Time)

  const EMPTY: World := World([], map[], multiset{}, [])

  /** A release returns what one reservation handed out: at most one use of each grant. */
  predicate Enabled(w: World, s: Step) {
    match s
    case Reserve(_, scopes) => Distinct(scopes)
    case Release(back) =>
      && (forall u | u in back :: u in w.uses)
      && (forall u, v | u in back && v in back && u.grant == v.grant :: u == v)
    case Load(offer) => ValidLimit(offer.maxUses)
    case Store(k, freshId) => k < |w.requests| && freshId !in w.renewals
    case Drop(k) => k < |w.requests|
    case Revoke(_, _, _) => true
  }

  function RenewalOf(w: World, id: GrantId): nat {
    if id in w.renewals then w.renewals[id] else 0
  }

  /** The uses that a successful reservation hands out. */
  function HandedOut(w: World, c: Caller, scopes: seq<Scope>): set<Use> {
    set g | g in w.rows && Taken(w.rows, c, scopes, g) :: Use(g.id, RenewalOf(w, g.id))
  }

  predicate SameLimits(g: Grant, offer: Offer) {
    g.maxUses == offer.maxUses && g.otherLimits == offer.otherLimits
  }

  /** The row after an UPDATE of the fields in which the renewal changed the loaded grant. */
  function Rewritten(row: Grant, loaded: Grant, offer: Offer): Grant {
    row.(expiresAt := if loaded.expiresAt != Some(ExpiryOf(offer)) then Some(ExpiryOf(offer)) else row.expiresAt,
         maxUses := if SameLimits(loaded, offer) then row.maxUses else offer.maxUses,
         otherLimits := if SameLimits(loaded, offer) then row.otherLimits else offer.otherLimits,
         useCount := if loaded.useCount != 0 then 0 else row.useCount)
  }

  function RewriteRow(rows: seq<Grant>, loaded: Grant, offer: Offer): seq<Grant> {
    seq(|rows|, i requires 0 <= i < |rows| =>
      if rows[i].id == loaded.id then Rewritten(rows[i], loaded, offer) else rows[i])
  }

  function Without(requests: seq<Request>, k: nat): seq<Request>
    requires k < |requests|
  {
    requests[..k] + requests[k + 1..]
  }

  function Stored(w: World, r: Request, freshId: GrantId): World {
    match r.loaded
    case None => w.(rows := w.rows + [NewGrant(r.offer, freshId)], renewals := w.renewals[freshId := 0])
    case Some(g) => w.(rows := RewriteRow(w.rows, g, r.offer), renewals := w.renewals[g.id := RenewalOf(w, g.id) + 1])
  }

  function LoadedFor(rows: seq<Grant>, offer: Offer): Option<Grant> {
    var at := RenewedAt(rows, offer);
    if at < |rows| then Some(rows[at]) else None
  }

  function Next(w: World, s: Step): World
    requires Enabled(w, s)
  {
    match s
    case Reserve(c, scopes) =>
      if Missing(w.rows, c, scopes) != [] then w
      else w.(rows := ReserveAll(w.rows, c, scopes), uses := w.uses + multiset(HandedOut(w, c, scopes)))
    case Release(back) =>
      w.(rows := ReleaseAll(w.rows, set u | u in back :: u.grant), uses := w.uses - multiset(back))
    case Load(offer) => w.(requests := w.requests + [Request(offer, LoadedFor(w.rows, offer))])
    case Store(k, freshId) => Stored(w, w.requests[k], freshId).(requests := Without(w.requests, k))
    case Drop(k) => w.(requests := Without(w.requests, k))
    case Revoke(id, userId, now) => w.(rows := RevokeRow(w.rows, id, userId, now))
  }

  /** Undisturbed, loading and storing is what the one transaction does. */
  lemma UndisturbedRenewal(w: World, offer: Offer, freshId: GrantId)
    requires DistinctIds(w.rows)
    ensures Stored(w, Request(offer, LoadedFor(w.rows, offer)), freshId).rows == Regrant(w.rows, offer, freshId)
  {
    var at := RenewedAt(w.rows, offer);
    if at < |w.rows| {
      var g := w.rows[at];
      assert Rewritten(g, g, offer) == Renewed(g, offer);
      assert forall i | 0 <= i < |w.rows| && i != at :: w.rows[i].id != g.id;
    }
  }

  // ----- The invariant -----

  /** Rows are told apart, no counter is negative, and no use or request is of an unknown grant or a renewal to come. */
  ghost predicate Inv(w: World) {
    && DistinctIds(w.rows)
    && (forall g | g in w.rows :: g.id in w.renewals && 0 <= g.useCount)
    && (forall u | u in w.uses :: u.grant in w.renewals && u.renewal <= w.renewals[u.grant])
    && (forall k | 0 <= k < |w.requests| ::
          ValidLimit(w.requests[k].offer.maxUses)
          && (w.requests[k].loaded.Some? ==> w.requests[k].loaded.value.id in w.renewals))
  }

  predicate WithinLimit(g: Grant) {
    g.Limit().Some? ==> g.useCount <= g.Limit().value
  }

  ghost predicate AllWithin(rows: seq<Grant>) {
    forall g | g in rows :: WithinLimit(g)
  }

  /** Rows that change only their counters and revocations, none to a negative counter. */
  ghost predicate Recounted(before: seq<Grant>, after: seq<Grant>) {
    && |after| == |before|
    && forall i | 0 <= i < |before| ::
         after[i] == before[i].(useCount := after[i].useCount, revokedAt := after[i].revokedAt)
               && 0 <= after[i].useCount
  }

  lemma RecountedKeepsRows(w: World, after: seq<Grant>)
    requires Inv(w) && Recounted(w.rows, after)
    ensures Inv(w.(rows := after))
  {
    forall g | g in after ensures g.id in w.renewals && 0 <= g.useCount {
      var i :| 0 <= i < |after| && after[i] == g;
      assert w.rows[i] in w.rows;
    }
  }

  /** A grant about to be used has a use left. */
  lemma TakenHasRoom(rows: seq<Grant>, c: Caller, scopes: seq<Scope>, g: Grant)
    requires Taken(rows, c, scopes, g)
    ensures g in rows && (g.Limit().Some? ==> g.useCount < g.Limit().value)
  {
    ChosenIsBest(rows, c, g.scope);
  }

  lemma ReserveKeepsInv(w: World, s: Step)
    requires Inv(w) && Enabled(w, s) && s.Reserve?
    ensures Inv(Next(w, s))
  {
    var after := ReserveAll(w.rows, s.c, s.scopes);
    ReserveAllTakesOneEach(w.rows, s.c, s.scopes);
    forall i | 0 <= i < |w.rows|
      ensures after[i] == w.rows[i].(useCount := after[i].useCount) && 0 <= after[i].useCount
    {
      assert w.rows[i] in w.rows;
    }
    RecountedKeepsRows(w, after);
  }

  lemma ChangeKeepsInv(w: World, s: Step)
    requires Inv(w) && Enabled(w, s) && (s.Release? || s.Revoke?)
    ensures Inv(Next(w, s))
  {
    var after := Next(w, s).rows;
    forall i | 0 <= i < |w.rows|
      ensures after[i] == w.rows[i].(useCount := after[i].useCount, revokedAt := after[i].revokedAt)
                  && 0 <= after[i].useCount
    {
      assert w.rows[i] in w.rows;
    }
    RecountedKeepsRows(w, after);
  }

  lemma RewriteKeepsInv(w: World, g: Grant, offer: Offer)
    requires Inv(w) && g.id in w.renewals
    ensures Inv(Stored(w, Request(offer, Some(g)), 0))
  {
    var after := RewriteRow(w.rows, g, offer);
    forall h | h in after ensures h.id in w.renewals && 0 <= h.useCount {
      var i :| 0 <= i < |after| && after[i] == h;
      assert w.rows[i] in w.rows;
    }
  }

  lemma InsertKeepsInv(w: World, offer: Offer, freshId: GrantId)
    requires Inv(w) && freshId !in w.renewals
    ensures Inv(Stored(w, Request(offer, None), freshId))
  {
    forall i | 0 <= i < |w.rows| ensures w.rows[i].id != freshId {
      assert w.rows[i] in w.rows;
    }
  }

  lemma WithoutKeepsInv(w: World, k: nat)
    requires Inv(w) && k < |w.requests|
    ensures Inv(w.(requests := Without(w.requests, k)))
  {
    var after := Without(w.requests, k);
    assert forall j | 0 <= j < |after| :: after[j] == w.requests[if j < k then j else j + 1];
  }

  lemma LoadKeepsInv(w: World, offer: Offer)
    requires Inv(w) && ValidLimit(offer.maxUses)
    ensures Inv(Next(w, Load(offer)))
  {
    var at := RenewedAt(w.rows, offer);
    if at < |w.rows| {
      assert w.rows[at] in w.rows;
    }
  }

  lemma StepKeepsInv(w: World, s: Step)
    requires Inv(w) && Enabled(w, s)
    ensures Inv(Next(w, s))
  {
    match s
    case Reserve(_, _) => ReserveKeepsInv(w, s);
    case Release(_) => ChangeKeepsInv(w, s);
    case Revoke(_, _, _) => ChangeKeepsInv(w, s);
    case Load(offer) => LoadKeepsInv(w, offer);
    case Drop(k) => WithoutKeepsInv(w, k);
    case Store(k, freshId) =>
      var r := w.requests[k];
      if r.loaded.Some? {
        RewriteKeepsInv(w, r.loaded.value, r.offer);
      } else {
        InsertKeepsInv(w, r.offer, freshId);
      }
      WithoutKeepsInv(Stored(w, r, freshId), k);
  }

  // ----- Counters and limits -----

  /** A renewal that lowers the limit of a grant it loaded unused, below the uses taken since. */
  ghost predicate OverfillsRow(w: World, s: Step, g: Grant) {
    && s.Store? && s.k < |w.requests| && w.requests[s.k].loaded.Some?
    && var loaded, offer := w.requests[s.k].loaded.value, w.requests[s.k].offer;
    && g.id == loaded.id && loaded.useCount == 0 && !SameLimits(loaded, offer)
    && offer.maxUses.JsonInt? && g.useCount > offer.maxUses.value
  }

  ghost predicate Overfills(w: World, s: Step) {
    exists g | g in w.rows :: OverfillsRow(w, s, g)
  }

  lemma ReserveStaysWithin(w: World, s: Step)
    requires Inv(w) && AllWithin(w.rows) && Enabled(w, s) && s.Reserve?
    ensures AllWithin(Next(w, s).rows)
  {
    var after := Next(w, s).rows;
    ReserveAllTakesOneEach(w.rows, s.c, s.scopes);
    forall g | g in after ensures WithinLimit(g) {
      var i :| 0 <= i < |after| && after[i] == g;
      assert w.rows[i] in w.rows;
      if Taken(w.rows, s.c, s.scopes, w.rows[i]) {
        TakenHasRoom(w.rows, s.c, s.scopes, w.rows[i]);
      }
    }
  }

  lemma ChangeStaysWithin(w: World, s: Step)
    requires Inv(w) && AllWithin(w.rows) && Enabled(w, s) && (s.Release? || s.Revoke?)
    ensures AllWithin(Next(w, s).rows)
  {
    var after := Next(w, s).rows;
    forall g | g in after ensures WithinLimit(g) {
      var i :| 0 <= i < |after| && after[i] == g;
      assert w.rows[i] in w.rows;
    }
  }

  lemma RewrittenWithinExactly(w: World, s: Step, g: Grant)
    requires Inv(w) && Enabled(w, s) && s.Store? && w.requests[s.k].loaded.Some? && g in w.rows && WithinLimit(g)
    requires g.id == w.requests[s.k].loaded.value.id
    ensures WithinLimit(Rewritten(g, w.requests[s.k].loaded.value, w.requests[s.k].offer)) <==> !OverfillsRow(w, s, g)
  {
  }

  lemma StoreStaysWithin(w: World, s: Step)
    requires Inv(w) && AllWithin(w.rows) && Enabled(w, s) && s.Store?
    ensures AllWithin(Next(w, s).rows) <==> !Overfills(w, s)
  {
    var r, after := w.requests[s.k], Next(w, s).rows;
    if r.loaded.Some? {
      forall i | 0 <= i < |w.rows| ensures WithinLimit(after[i]) <==> !OverfillsRow(w, s, w.rows[i]) {
        assert w.rows[i] in w.rows;
        if w.rows[i].id == r.loaded.value.id {
          RewrittenWithinExactly(w, s, w.rows[i]);
        }
      }
      WithinByIndex(after);
    }
  }

  lemma WithinByIndex(rows: seq<Grant>)
    ensures AllWithin(rows) <==> forall i | 0 <= i < |rows| :: WithinLimit(rows[i])
  {
    if AllWithin(rows) {
      forall i | 0 <= i < |rows| ensures WithinLimit(rows[i]) {
        assert rows[i] in rows;
      }
    }
  }

  /** A step keeps every counter within its limit if and only if it is not such a renewal. */
  lemma StepStaysWithinExactly(w: World, s: Step)
    requires Inv(w) && AllWithin(w.rows) && Enabled(w, s)
    ensures AllWithin(Next(w, s).rows) <==> !Overfills(w, s)
  {
    match s
    case Reserve(_, _) => ReserveStaysWithin(w, s);
    case Release(_) => ChangeStaysWithin(w, s);
    case Revoke(_, _, _) => ChangeStaysWithin(w, s);
    case Store(_, _) => StoreStaysWithin(w, s);
    case _ =>
  }

  // ----- Counting the uses -----

  /** Each counter is the number of uses handed out since the last renewal and not given back. */
  ghost predicate Exact(w: World) {
    forall g | g in w.rows :: g.useCount == w.uses[Use(g.id, RenewalOf(w, g.id))]
  }

  /** Some use given back predates the grant's last renewal, and the counter has one to lose. */
  ghost predicate LateFor(w: World, back: set<Use>, g: Grant) {
    g.useCount > 0 && exists u | u in back :: u.grant == g.id && u.renewal != RenewalOf(w, g.id)
  }

  /** A release is late when a grant it returns to was renewed since, and it still takes a use back. */
  ghost predicate Late(w: World, s: Step) {
    s.Release? && exists g | g in w.rows :: LateFor(w, s.back, g)
  }

  /** A renewal that loaded a grant unused leaves the uses taken since on its counter. */
  ghost predicate UnresetRow(w: World, s: Step, g: Grant) {
    s.Store? && s.k < |w.requests| && w.requests[s.k].loaded.Some?
    && w.requests[s.k].loaded.value.id == g.id && w.requests[s.k].loaded.value.useCount == 0 && g.useCount > 0
  }

  ghost predicate Unreset(w: World, s: Step) {
    exists g | g in w.rows :: UnresetRow(w, s, g)
  }

  /** The uses that reserving hands out are one of each taken grant, at its current renewal. */
  lemma ReserveCounts(w: World, c: Caller, scopes: seq<Scope>, g: Grant)
    requires Inv(w) && g in w.rows
    ensures (Use(g.id, RenewalOf(w, g.id)) in HandedOut(w, c, scopes)) <==> Taken(w.rows, c, scopes, g)
  {
    if Use(g.id, RenewalOf(w, g.id)) in HandedOut(w, c, scopes) {
      var h :| h in w.rows && Taken(w.rows, c, scopes, h) && h.id == g.id;
      assert h == g;
    }
  }

  lemma ReserveKeepsExact(w: World, s: Step)
    requires Inv(w) && Exact(w) && Enabled(w, s) && s.Reserve?
    ensures Exact(Next(w, s))
  {
    ReserveAllTakesOneEach(w.rows, s.c, s.scopes);
    var after := Next(w, s);
    forall g | g in after.rows ensures g.useCount == after.uses[Use(g.id, RenewalOf(after, g.id))] {
      var i :| 0 <= i < |after.rows| && after.rows[i] == g;
      assert w.rows[i] in w.rows;
      ReserveCounts(w, s.c, s.scopes, w.rows[i]);
    }
  }

  lemma RevokeKeepsExact(w: World, s: Step)
    requires Inv(w) && Exact(w) && Enabled(w, s) && s.Revoke?
    ensures Exact(Next(w, s))
  {
    var after := Next(w, s);
    forall g | g in after.rows ensures g.useCount == after.uses[Use(g.id, RenewalOf(after, g.id))] {
      var i :| 0 <= i < |after.rows| && after.rows[i] == g;
      assert w.rows[i] in w.rows;
    }
  }

  /** One row's counter after a renewal is stored: exact unless that row is left unreset. */
  lemma StoredCount(w: World, s: Step, i: nat)
    requires Inv(w) && Exact(w) && Enabled(w, s) && s.Store? && w.requests[s.k].loaded.Some? && i < |w.rows|
    ensures var after := Next(w, s);
            after.rows[i].useCount == after.uses[Use(after.rows[i].id, RenewalOf(after, after.rows[i].id))]
            <==> !UnresetRow(w, s, w.rows[i])
  {
    var row, after := w.rows[i], Next(w, s);
    assert row in w.rows;
    if row.id == w.requests[s.k].loaded.value.id {
      assert Use(row.id, RenewalOf(w, row.id) + 1) !in w.uses;
    }
  }

  lemma InsertKeepsExact(w: World, s: Step)
    requires Inv(w) && Exact(w) && Enabled(w, s) && s.Store? && w.requests[s.k].loaded.None?
    ensures Exact(Next(w, s)) && !Unreset(w, s)
  {
    var after := Next(w, s);
    assert Use(s.freshId, 0) !in w.uses;
    forall g | g in after.rows ensures g.useCount == after.uses[Use(g.id, RenewalOf(after, g.id))] {
      assert g in w.rows || g == NewGrant(w.requests[s.k].offer, s.freshId);
    }
  }

  lemma ExactByIndex(w: World)
    ensures Exact(w)
            <==> forall i | 0 <= i < |w.rows| ::
                   w.rows[i].useCount == w.uses[Use(w.rows[i].id, RenewalOf(w, w.rows[i].id))]
  {
    if Exact(w) {
      forall i | 0 <= i < |w.rows| ensures w.rows[i].useCount == w.uses[Use(w.rows[i].id, RenewalOf(w, w.rows[i].id))] {
        assert w.rows[i] in w.rows;
      }
    }
  }

  lemma StoreExactly(w: World, s: Step)
    requires Inv(w) && Exact(w) && Enabled(w, s) && s.Store?
    ensures Exact(Next(w, s)) <==> !Unreset(w, s)
  {
    if w.requests[s.k].loaded.None? {
      InsertKeepsExact(w, s);
    } else {
      forall i | 0 <= i < |w.rows|
        ensures var after := Next(w, s);
                after.rows[i].useCount == after.uses[Use(after.rows[i].id, RenewalOf(after, after.rows[i].id))]
                <==> !UnresetRow(w, s, w.rows[i])
      {
        StoredCount(w, s, i);
      }
      ExactByIndex(Next(w, s));
    }
  }

  lemma ReleaseOfOne(w: World, s: Step, i: nat)
    requires Inv(w) && Exact(w) && Enabled(w, s) && s.Release? && i < |w.rows|
    ensures var g := w.rows[i];
            Next(w, s).rows[i].useCount == Next(w, s).uses[Use(g.id, RenewalOf(w, g.id))] <==> !LateFor(w, s.back, g)
  {
    var g := w.rows[i];
    assert g in w.rows;
    var current := Use(g.id, RenewalOf(w, g.id));
    assert (multiset(s.back))[current] == if current in s.back then 1 else 0;
    if u :| u in s.back && u.grant == g.id {
      assert u.grant in set v | v in s.back :: v.grant;
    }
  }

  lemma ReleaseExactly(w: World, s: Step)
    requires Inv(w) && Exact(w) && Enabled(w, s) && s.Release?
    ensures Exact(Next(w, s)) <==> !Late(w, s)
  {
    forall i | 0 <= i < |w.rows|
      ensures var g := w.rows[i];
              Next(w, s).rows[i].useCount == Next(w, s).uses[Use(g.id, RenewalOf(w, g.id))] <==> !LateFor(w, s.back, g)
    {
      ReleaseOfOne(w, s, i);
    }
    ExactByIndex(Next(w, s));
  }

  /**
   * A step keeps every count exact if and only if it is neither a late release nor a renewal that leaves uses
   * behind.
   */
  lemma StepExactly(w: World, s: Step)
    requires Inv(w) && Exact(w) && Enabled(w, s)
    ensures Exact(Next(w, s)) <==> !Late(w, s) && !Unreset(w, s)
  {
    match s
    case Reserve(_, _) => ReserveKeepsExact(w, s);
    case Revoke(_, _, _) => RevokeKeepsExact(w, s);
    case Release(_) => ReleaseExactly(w, s);
    case Store(_, _) => StoreExactly(w, s);
    case _ =>
  }

  // ----- Runs -----

  predicate IsRun(w: World, run: seq<Step>)
    decreases |run|
  {
    run == [] || (Enabled(w, run[0]) && IsRun(Next(w, run[0]), run[1..]))
  }

  function After(w: World, run: seq<Step>): World
    requires IsRun(w, run)
    decreases |run|
  {
    if run == [] then w else After(Next(w, run[0]), run[1..])
  }

  lemma {:induction false} RunKeepsInv(w: World, run: seq<Step>)
    requires Inv(w) && IsRun(w, run)
    ensures Inv(After(w, run))
    decreases |run|
  {
    if run != [] {
      StepKeepsInv(w, run[0]);
      RunKeepsInv(Next(w, run[0]), run[1..]);
    }
  }

  /** Every counter is within its limit in every world of the run. */
  ghost predicate AlwaysWithin(w: World, run: seq<Step>)
    requires IsRun(w, run)
    decreases |run|
  {
    AllWithin(w.rows) && (run != [] ==> AlwaysWithin(Next(w, run[0]), run[1..]))
  }

  ghost predicate NeverOverfills(w: World, run: seq<Step>)
    requires IsRun(w, run)
    decreases |run|
  {
    run == [] || (!Overfills(w, run[0]) && NeverOverfills(Next(w, run[0]), run[1..]))
  }

  lemma {:induction false} WithinFrom(w: World, run: seq<Step>)
    requires Inv(w) && AllWithin(w.rows) && IsRun(w, run)
    ensures AlwaysWithin(w, run) <==> NeverOverfills(w, run)
    decreases |run|
  {
    if run != [] {
      StepKeepsInv(w, run[0]);
      StepStaysWithinExactly(w, run[0]);
      if !Overfills(w, run[0]) {
        WithinFrom(Next(w, run[0]), run[1..]);
      }
    }
  }

  /**
   * In every interleaving no counter is ever negative, and every counter stays within its limit
   * if and only if no renewal lowers the limit of a grant it loaded unused below the uses taken since.
   */
  lemma CountersStayWithinLimitsExactly(run: seq<Step>)
    requires IsRun(EMPTY, run)
    ensures forall g | g in After(EMPTY, run).rows :: 0 <= g.useCount
    ensures AlwaysWithin(EMPTY, run) <==> NeverOverfills(EMPTY, run)
  {
    RunKeepsInv(EMPTY, run);
    WithinFrom(EMPTY, run);
  }

  /** No release of the run comes late, and no renewal leaves uses behind. */
  ghost predicate Timely(w: World, run: seq<Step>)
    requires IsRun(w, run)
    decreases |run|
  {
    run == [] || (!Late(w, run[0]) && !Unreset(w, run[0]) && Timely(Next(w, run[0]), run[1..]))
  }

  /** Every count is exact in every world of the run. */
  ghost predicate AlwaysExact(w: World, run: seq<Step>)
    requires IsRun(w, run)
    decreases |run|
  {
    Exact(w) && (run != [] ==> AlwaysExact(Next(w, run[0]), run[1..]))
  }

  lemma {:induction false} ExactFrom(w: World, run: seq<Step>)
    requires Inv(w) && Exact(w) && IsRun(w, run)
    ensures AlwaysExact(w, run) <==> Timely(w, run)
    ensures Timely(w, run) ==> Exact(After(w, run)) && NeverOverfills(w, run)
    decreases |run|
  {
    if run != [] {
      StepKeepsInv(w, run[0]);
      StepExactly(w, run[0]);
      OverfillingLeavesUses(w, run[0]);
      if !Late(w, run[0]) && !Unreset(w, run[0]) {
        ExactFrom(Next(w, run[0]), run[1..]);
      }
    }
  }

  lemma OverfillingLeavesUses(w: World, s: Step)
    requires Inv(w)
    ensures Overfills(w, s) ==> Unreset(w, s)
  {
    if Overfills(w, s) {
      var g :| g in w.rows && OverfillsRow(w, s, g);
      assert UnresetRow(w, s, g);
    }
  }

  /** Counting never goes wrong in a run if and only if it is timely. */
  lemma RunExactIffTimely(run: seq<Step>)
    requires IsRun(EMPTY, run)
    ensures AlwaysExact(EMPTY, run) <==> Timely(EMPTY, run)
  {
    ExactFrom(EMPTY, run);
  }

  lemma {:induction false} LastIsWithin(w: World, run: seq<Step>)
    requires IsRun(w, run) && AlwaysWithin(w, run)
    ensures AllWithin(After(w, run).rows)
    decreases |run|
  {
    if run != [] {
      LastIsWithin(Next(w, run[0]), run[1..]);
    }
  }

  /** After a timely run no grant has more uses outstanding since its last renewal than its limit. */
  lemma TimelyRunsHonourLimits(run: seq<Step>)
    requires IsRun(EMPTY, run) && Timely(EMPTY, run)
    ensures var end := After(EMPTY, run);
            forall g | g in end.rows ::
              g.useCount == end.uses[Use(g.id, RenewalOf(end, g.id))]
              && (g.Limit().Some? ==> end.uses[Use(g.id, RenewalOf(end, g.id))] <= g.Limit().value)
  {
    ExactFrom(EMPTY, run);
    WithinFrom(EMPTY, run);
    LastIsWithin(EMPTY, run);
  }

  // ----- Refusals and revocations -----

  /** The position of a grant that fits the scope and gains a use. */
  lemma OneTaken(rows: seq<Grant>, c: Caller, scopes: seq<Scope>, s: Scope) returns (i: nat)
    requires DistinctIds(rows) && Distinct(scopes) && s in scopes && exists g | g in rows :: Fits(g, c, s)
    ensures i < |rows| == |ReserveAll(rows, c, scopes)| && Fits(rows[i], c, s)
    ensures ReserveAll(rows, c, scopes)[i] == rows[i].(useCount := rows[i].useCount + 1)
  {
    ReserveAllTakesOneEach(rows, c, scopes);
    ChosenExactlyIfOneFits(rows, c, s);
    i :| 0 <= i < |rows| && rows[i] == Chosen(rows, c, s).value;
    assert Taken(rows, c, scopes, rows[i]);
  }

  lemma MissingNoneExactly(rows: seq<Grant>, c: Caller, scopes: seq<Scope>)
    ensures Missing(rows, c, scopes) != [] <==> exists s | s in scopes :: forall g | g in rows :: !Fits(g, c, s)
  {
    forall s ensures s in Missing(rows, c, scopes) <==> s in scopes && forall g | g in rows :: !Fits(g, c, s) {
      MissingExactly(rows, c, scopes, s);
    }
    if Missing(rows, c, scopes) != [] {
      assert Missing(rows, c, scopes)[0] in Missing(rows, c, scopes);
    }
  }

  /** Row i gains a use, and fits the scope. */
  ghost predicate GainsUse(rows: seq<Grant>, after: seq<Grant>, c: Caller, s: Scope, i: nat) {
    i < |rows| == |after| && Fits(rows[i], c, s) && after[i] == rows[i].(useCount := rows[i].useCount + 1)
  }

  /** In any run a reservation changes nothing if no grant fits some scope, and otherwise takes a use for each. */
  lemma ReserveIsAllOrNothing(w: World, c: Caller, scopes: seq<Scope>)
    requires Inv(w) && Distinct(scopes)
    ensures var next := Next(w, Reserve(c, scopes));
            if exists s | s in scopes :: forall g | g in w.rows :: !Fits(g, c, s) then next == w
            else forall s | s in scopes :: exists i :: GainsUse(w.rows, next.rows, c, s, i)
  {
    MissingNoneExactly(w.rows, c, scopes);
    if Missing(w.rows, c, scopes) == [] {
      forall s | s in scopes ensures exists i :: GainsUse(w.rows, ReserveAll(w.rows, c, scopes), c, s, i) {
        var i := OneTaken(w.rows, c, scopes, s);
        assert GainsUse(w.rows, ReserveAll(w.rows, c, scopes), c, s, i);
      }
    }
  }

  /** This grant is known, and revoked. */
  ghost predicate IsRevoked(w: World, id: GrantId) {
    id in w.renewals && forall g | g in w.rows && g.id == id :: g.revokedAt.Some?
  }

  lemma RevokedIsNotTaken(w: World, c: Caller, scopes: seq<Scope>, id: GrantId)
    requires IsRevoked(w, id)
    ensures forall u | u in HandedOut(w, c, scopes) :: u.grant != id
  {
    forall g | g in w.rows && Taken(w.rows, c, scopes, g) ensures g.id != id {
      ChosenIsBest(w.rows, c, g.scope);
    }
  }

  lemma RowsKeepRevocation(w: World, s: Step, g: Grant)
    requires Inv(w) && Enabled(w, s) && g in Next(w, s).rows && g.id in w.renewals
    ensures exists h | h in w.rows :: h.id == g.id && (h.revokedAt.Some? ==> g.revokedAt.Some?)
  {
    var after := Next(w, s).rows;
    if s.Reserve? {
      ReserveAllTakesOneEach(w.rows, s.c, s.scopes);
    }
    var i :| 0 <= i < |after| && after[i] == g;
    assert w.rows[i] in w.rows;
  }

  lemma RevokedStep(w: World, s: Step, id: GrantId)
    requires Inv(w) && Enabled(w, s) && IsRevoked(w, id)
    ensures IsRevoked(Next(w, s), id) && forall n :: Next(w, s).uses[Use(id, n)] <= w.uses[Use(id, n)]
  {
    var after := Next(w, s).rows;
    if s.Reserve? {
      RevokedIsNotTaken(w, s.c, s.scopes, id);
    }
    forall g | g in after && g.id == id ensures g.revokedAt.Some? {
      RowsKeepRevocation(w, s, g);
    }
  }

  lemma {:induction false} RevokedInRun(w: World, run: seq<Step>, id: GrantId)
    requires Inv(w) && IsRun(w, run) && IsRevoked(w, id)
    ensures forall n :: After(w, run).uses[Use(id, n)] <= w.uses[Use(id, n)]
    decreases |run|
  {
    if run != [] {
      StepKeepsInv(w, run[0]);
      RevokedStep(w, run[0], id);
      RevokedInRun(Next(w, run[0]), run[1..], id);
    }
  }

  /** Once its owner has revoked a grant, nothing hands out a use of it, not even a renewal that loaded it before. */
  lemma RevokedIsNeverUsedAgain(before: seq<Step>, run: seq<Step>, g: Grant, now: Time)
    requires IsRun(EMPTY, before) && g in After(EMPTY, before).rows
    requires IsRun(Next(After(EMPTY, before), Revoke(g.id, g.userId, now)), run)
    ensures var w := After(EMPTY, before);
            var end := After(Next(w, Revoke(g.id, g.userId, now)), run);
            forall n :: end.uses[Use(g.id, n)] <= w.uses[Use(g.id, n)]
  {
    var w := After(EMPTY, before);
    RunKeepsInv(EMPTY, before);
    var next := Next(w, Revoke(g.id, g.userId, now));
    StepKeepsInv(w, Revoke(g.id, g.userId, now));
    forall h | h in next.rows && h.id == g.id ensures h.revokedAt.Some? {
      var i :| 0 <= i < |next.rows| && next.rows[i] == h;
      assert w.rows[i] in w.rows && w.rows[i] == g;
    }
    RevokedInRun(next, run, g.id);
  }

  // ----- Two runs that surprise -----

  lemma FilterOne(x: Scope, keep: Scope -> bool)
    ensures Filter([x], keep) == if keep(x) then [x] else []
  {
    assert [x][1..] == [];
  }

  /** A table of one usable grant: reserving takes it. */
  lemma SingleGrant(g: Grant, c: Caller)
    requires Usable(g, c, g.scope)
    ensures Missing([g], c, [g.scope]) == []
    ensures ReserveAll([g], c, [g.scope]) == [g.(useCount := g.useCount + 1)]
    ensures forall h | h in [g] :: Taken([g], c, [g.scope], h)
  {
    ChosenIsBest([g], c, g.scope);
    assert [g][0] in [g];
    var chosen := Chosen([g], c, g.scope);
    assert chosen == Some(g);
    assert [g.scope][1..] == [] && [g][0] == g;
    FilterOne(g.scope, (scope: Scope) => !exists h | h in [g] :: Usable(h, c, scope));
    assert ReserveAll([g], c, [g.scope]) == Bump([g], g.id, 1);
  }

  function SampleOffer(max: nat): Offer {
    Offer(1, "ag_1", "cloud_agents:create", None, JsonInt(max), "", 30, 0)
  }

  function SampleCaller(): Caller {
    Caller(1, "ag_1", None, true, 0)
  }

  function SampleGrant(useCount: int): Grant {
    NewGrant(SampleOffer(1), 7).(useCount := useCount)
  }

  const RESERVE: Step := Reserve(SampleCaller(), ["cloud_agents:create"])

  function Sample(useCount: int, renewal: nat, uses: multiset<Use>, requests: seq<Request>): World {
    World([SampleGrant(useCount)], map[7 := renewal], uses, requests)
  }

  lemma SampleReserve(renewal: nat, uses: multiset<Use>, requests: seq<Request>)
    ensures var w := Sample(0, renewal, uses, requests);
            Enabled(w, RESERVE) && Next(w, RESERVE) == Sample(1, renewal, uses + multiset{Use(7, renewal)}, requests)
  {
    var w := Sample(0, renewal, uses, requests);
    SingleGrant(SampleGrant(0), SampleCaller());
    assert SampleGrant(0) in w.rows;
    assert HandedOut(w, SampleCaller(), ["cloud_agents:create"]) == {Use(7, renewal)};
    assert multiset({Use(7, renewal)}) == multiset{Use(7, renewal)};
  }

  lemma SampleRelease(uses: multiset<Use>)
    requires Use(7, 0) in uses
    ensures var s, w := Release({Use(7, 0)}), Sample(1, 1, uses, []);
            Enabled(w, s) && Next(w, s) == Sample(0, 1, uses - multiset{Use(7, 0)}, [])
  {
    var s := Release({Use(7, 0)});
    assert Use(7, 0) in s.back && 7 in set u | u in s.back :: u.grant;
    assert multiset({Use(7, 0)}) == multiset{Use(7, 0)};
  }

  /** A request under way. */
  function Asked(useCount: int, max: nat): Request {
    Request(SampleOffer(max), Some(SampleGrant(useCount)))
  }

  lemma SampleLoad(useCount: int, renewal: nat, uses: multiset<Use>, max: nat)
    ensures Next(Sample(useCount, renewal, uses, []), Load(SampleOffer(max)))
            == Sample(useCount, renewal, uses, [Asked(useCount, max)])
  {
  }

  lemma SampleRenewal(uses: multiset<Use>)
    ensures Next(Sample(1, 0, uses, [Asked(1, 1)]), Store(0, 8)) == Sample(0, 1, uses, [])
  {
    assert RewriteRow([SampleGrant(1)], SampleGrant(1), SampleOffer(1)) == [SampleGrant(0)];
    assert Without([Asked(1, 1)], 0) == [];
  }

  /** The first grant, on an empty table. */
  lemma SampleStart(rest: seq<Step>) returns (run: seq<Step>)
    requires IsRun(Sample(0, 0, multiset{}, []), rest)
    ensures IsRun(EMPTY, run) && After(EMPTY, run) == After(Sample(0, 0, multiset{}, []), rest)
  {
    var asked := World([], map[], multiset{}, [Request(SampleOffer(1), None)]);
    assert Without(asked.requests, 0) == [];
    assert Stored(asked, asked.requests[0], 7).rows == [SampleGrant(0)];
    run := Prepend(asked, Store(0, 7), Sample(0, 0, multiset{}, []), rest);
    run := Prepend(EMPTY, Load(SampleOffer(1)), asked, run);
  }

  /** Some grant has more uses outstanding since its last renewal than it allows. */
  ghost predicate Overspent(w: World) {
    exists g | g in w.rows && g.Limit().Some? :: w.uses[Use(g.id, RenewalOf(w, g.id))] > g.Limit().value
  }

  /** Reserve, renew, reserve, release the first, reserve: two uses of a grant limited to one. */
  lemma LateReleaseOverspends()
    ensures exists run :: IsRun(EMPTY, run) && Overspent(After(EMPTY, run))
  {
    var first := multiset{Use(7, 0)};
    var run := SecondRound();
    SampleRenewal(first);
    run := Prepend(Sample(1, 0, first, [Asked(1, 1)]), Store(0, 8), Sample(0, 1, first, []), run);
    SampleLoad(1, 0, first, 1);
    run := Prepend(Sample(1, 0, first, []), Load(SampleOffer(1)), Sample(1, 0, first, [Asked(1, 1)]), run);
    SampleReserve(0, multiset{}, []);
    assert multiset{} + first == first;
    run := Prepend(Sample(0, 0, multiset{}, []), RESERVE, Sample(1, 0, first, []), run);
    run := SampleStart(run);
  }

  lemma SecondRound() returns (run: seq<Step>)
    ensures IsRun(Sample(0, 1, multiset{Use(7, 0)}, []), run)
    ensures Overspent(After(Sample(0, 1, multiset{Use(7, 0)}, []), run))
  {
    var first, both, second := multiset{Use(7, 0)}, multiset{Use(7, 0), Use(7, 1)}, multiset{Use(7, 1)};
    assert first + second == both && both - first == second;
    TwoUses();
    SampleReserve(1, second, []);
    run := Prepend(Sample(0, 1, second, []), RESERVE, Sample(1, 1, second + second, []), []);
    SampleRelease(both);
    run := Prepend(Sample(1, 1, both, []), Release({Use(7, 0)}), Sample(0, 1, second, []), run);
    SampleReserve(1, first, []);
    run := Prepend(Sample(0, 1, first, []), RESERVE, Sample(1, 1, both, []), run);
  }

  lemma TwoUses()
    ensures Overspent(Sample(1, 1, multiset{Use(7, 1)} + multiset{Use(7, 1)}, []))
  {
    assert SampleGrant(1) in Sample(1, 1, multiset{Use(7, 1)} + multiset{Use(7, 1)}, []).rows;
  }

  /** Load a renewal to a limit of zero, reserve, store it: the counter is one. */
  lemma RenewalOverfills()
    ensures exists run :: IsRun(EMPTY, run) && !AllWithin(After(EMPTY, run).rows)
  {
    var first := multiset{Use(7, 0)};
    var late := Next(Sample(1, 0, first, [Asked(0, 0)]), Store(0, 8));
    assert late.rows[0] in late.rows && !WithinLimit(late.rows[0]);
    var run := Prepend(Sample(1, 0, first, [Asked(0, 0)]), Store(0, 8), late, []);
    SampleReserve(0, multiset{}, [Asked(0, 0)]);
    assert multiset{} + first == first;
    run := Prepend(Sample(0, 0, multiset{}, [Asked(0, 0)]), RESERVE, Sample(1, 0, first, [Asked(0, 0)]), run);
    SampleLoad(0, 0, multiset{}, 0);
    run := Prepend(Sample(0, 0, multiset{}, []), Load(SampleOffer(0)), Sample(0, 0, multiset{}, [Asked(0, 0)]), run);
    run := SampleStart(run);
  }

  lemma Prepend(w: World, s: Step, next: World, run: seq<Step>) returns (longer: seq<Step>)
    requires Enabled(w, s) && Next(w, s) == next && IsRun(next, run)
    ensures IsRun(w, longer) && After(w, longer) == After(next, run)
  {
    longer := [s] + run;
    assert longer[1..] == run;
  }
}
