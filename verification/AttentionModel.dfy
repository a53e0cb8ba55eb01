/** The attention queue and the sovereign lease of one perspective and timeline, as database states and
    the transactions that rewrite them. Every transaction of the service is one function from a
    state to a state; a rejected transaction rolls back, so it returns the state it was given. */
module AttentionModel {
  import opened Wrappers

  type AttentionId = nat
  type LeaseId = nat
  type EpisodeId = nat
  type Token = nat

  // ----- Tables ------------------------------------------------------------------------------

  datatype ItemStatus = Queued | Leased | Responded | Acknowledged

  datatype Item = Item(sequence: nat, cursor: int, priority: int, critical: bool, dependency: nat, status: ItemStatus)

  datatype LeaseStatus = Open | Placed | Answered | Receipted | Abandoned

  /** A lease row together with its rows of the join table `attention_lease_items`. */
  datatype Lease = Lease(episode: EpisodeId, items: set<AttentionId>, through: nat, status: LeaseStatus, expires: real)

  datatype Head = Head(next: nat, acknowledged: nat)

  datatype EpisodeMode = Gameplay | Communication | Recovery

  datatype SovereignStatus = Active | Committed | Cancelled | Expired

  datatype Sovereign = Sovereign(episode: EpisodeId, mode: EpisodeMode, token: Token, status: SovereignStatus,
                                 expires: real)

  datatype Db = Db(
    items: map<AttentionId, Item>,
    leases: map<LeaseId, Lease>,
    head: Option<Head>,
    sovereign: Option<Sovereign>)

  const EMPTY := Db(map[], map[], None, None)

  datatype AttentionError =
    | InvalidLeaseTransition
    | PlacementScopeMismatch
    | NotCognitivelyResponded
    | AckScopeMismatch
    | AckCursorOutOfRange
    | UnknownLease
    | InvocationAlreadyActive
    | OwnerChanged
    | AuthorityLost
    | InvalidSovereignLease

  // ----- Queries -----------------------------------------------------------------------------

  predicate Live(lease: Lease) {
    lease.status in {Open, Placed, Answered}
  }

  function Next(db: Db): nat {
    if db.head.Some? then db.head.value.next else 1
  }

  function AcknowledgedCursor(db: Db): nat {
    if db.head.Some? then db.head.value.acknowledged else 0
  }

  predicate AtSequence(items: map<AttentionId, Item>, k: nat, i: AttentionId) {
    i in items && items[i].sequence == k
  }

  predicate Occupied(items: map<AttentionId, Item>, k: nat) {
    exists i | i in items :: AtSequence(items, k, i)
  }

  predicate AcknowledgedAt(items: map<AttentionId, Item>, k: nat) {
    exists i | i in items :: AtSequence(items, k, i) && items[i].status == Acknowledged
  }

  /** `s` precedes every item that is not yet published at `cap`. */
  predicate BelowBarrier(items: map<AttentionId, Item>, cap: int, s: nat) {
    forall i | i in items && items[i].cursor > cap :: s < items[i].sequence
  }

  predicate Least(s: set<nat>, m: nat) {
    m in s && forall x | x in s :: m <= x
  }

  lemma LeastOfPart(s: set<nat>, k: nat, below: set<nat>, m: nat)
    requires below == (set x | x in s && x < k) && Least(below, m)
    ensures Least(s, m)
  {
    forall x | x in s ensures m <= x { assert x in below || k <= x; }
  }

  lemma {:induction false} LeastExists(s: set<nat>)
    requires s != {}
    ensures exists m :: Least(s, m)
  {
    var k :| k in s;
    var below := set x | x in s && x < k;
    if below == {} {
      forall x | x in s ensures k <= x { assert x !in below; }
      assert Least(s, k);
    } else {
      assert below < s by { assert k in s && k !in below; }
      LeastExists(below);
      var m :| Least(below, m);
      LeastOfPart(s, k, below, m);
    }
  }

  predicate Under(barrier: Option<nat>, s: nat) {
    barrier.Some? ==> s < barrier.value
  }

  /** The lowest sequence that is not yet published at `cap` (SELECT MIN). */
  function Barrier(items: map<AttentionId, Item>, cap: int): (b: Option<nat>)
    ensures forall s: nat :: Under(b, s) <==> BelowBarrier(items, cap, s)
  {
    var unpublished := set i | i in items && items[i].cursor > cap :: items[i].sequence;
    assert forall i | i in items && items[i].cursor > cap :: items[i].sequence in unpublished;
    if unpublished == {} then None else
      LeastExists(unpublished);
      var m :| m in unpublished && Least(unpublished, m);
      Some(m)
  }

  /** Delivery order: critical first, then higher priority, then the older sequence. */
  predicate Before(a: Item, b: Item) {
    if a.critical != b.critical then a.critical
    else if a.priority != b.priority then a.priority > b.priority
    else a.sequence < b.sequence
  }

  ghost predicate DistinctSequences(items: map<AttentionId, Item>) {
    forall k, i, j | AtSequence(items, k, i) && AtSequence(items, k, j) :: i == j
  }

  lemma SequencesDiffer(items: map<AttentionId, Item>, i: AttentionId, j: AttentionId)
    requires DistinctSequences(items) && i in items && j in items && i != j
    ensures items[i].sequence != items[j].sequence
  {
    assert AtSequence(items, items[i].sequence, i);
    assert AtSequence(items, items[j].sequence, j);
  }

  /** `i` is delivered before everything else in the pool. */
  predicate Foremost(items: map<AttentionId, Item>, pool: set<AttentionId>, i: AttentionId)
    requires pool <= items.Keys
  {
    i in pool && forall j | j in pool && j != i :: Before(items[i], items[j])
  }

  lemma ForemostOfTwo(items: map<AttentionId, Item>, pool: set<AttentionId>, k: AttentionId, i: AttentionId)
    requires pool <= items.Keys && k in pool && Foremost(items, pool - {k}, i)
    requires items[i].sequence != items[k].sequence
    ensures Foremost(items, pool, if Before(items[i], items[k]) then i else k)
  {}

  lemma {:induction false} ForemostExists(items: map<AttentionId, Item>, pool: set<AttentionId>)
    requires pool != {} && pool <= items.Keys && DistinctSequences(items)
    ensures exists i :: Foremost(items, pool, i)
  {
    hide DistinctSequences;
    var k :| k in pool;
    var rest := pool - {k};
    if rest == {} {
      assert pool == {k};
      assert Foremost(items, pool, k);
    } else {
      ForemostExists(items, rest);
      var i :| Foremost(items, rest, i);
      SequencesDiffer(items, i, k);
      ForemostOfTwo(items, pool, k, i);
    }
  }

  function First(items: map<AttentionId, Item>, pool: set<AttentionId>): (i: AttentionId)
    requires pool != {} && pool <= items.Keys && DistinctSequences(items)
    ensures Foremost(items, pool, i)
  {
    ForemostExists(items, pool);
    var i :| i in pool && Foremost(items, pool, i);
    i
  }

  /** The first `n` of `pool` in delivery order (ORDER BY ... LIMIT n). */
  function Ranked(items: map<AttentionId, Item>, pool: set<AttentionId>, n: nat): (r: seq<AttentionId>)
    requires pool <= items.Keys && DistinctSequences(items)
    ensures forall i | i in r :: i in pool
    ensures |r| == if |pool| <= n then |pool| else n
    ensures forall a, b | 0 <= a < b < |r| :: r[a] != r[b] && Before(items[r[a]], items[r[b]])
    ensures forall i, j | i in r && j in pool && j !in r :: Before(items[i], items[j])
    decreases n
  {
    if n == 0 || pool == {} then [] else
      var first := First(items, pool);
      [first] + Ranked(items, pool - {first}, n - 1)
  }

  predicate Greatest(s: set<nat>, m: nat) {
    m in s && forall x | x in s :: x <= m
  }

  lemma GreatestOfPart(s: set<nat>, k: nat, above: set<nat>, m: nat)
    requires above == (set x | x in s && x > k) && Greatest(above, m)
    ensures Greatest(s, m)
  {
    forall x | x in s ensures x <= m { assert x in above || x <= k; }
  }

  lemma {:induction false} GreatestExists(s: set<nat>)
    requires s != {}
    ensures exists m :: Greatest(s, m)
  {
    var k :| k in s;
    var above := set x | x in s && x > k;
    if above == {} {
      forall x | x in s ensures x <= k { assert x !in above; }
      assert Greatest(s, k);
    } else {
      assert above < s by { assert k in s && k !in above; }
      GreatestExists(above);
      var m :| Greatest(above, m);
      GreatestOfPart(s, k, above, m);
    }
  }

  function MaxOr0(s: set<nat>): (m: nat)
    ensures s == {} ==> m == 0
    ensures s != {} ==> m in s
    ensures forall x | x in s :: x <= m
  {
    if s == {} then 0 else
      GreatestExists(s);
      var m :| m in s && Greatest(s, m);
      m
  }

  function Sequences(items: map<AttentionId, Item>, ids: set<AttentionId>): set<nat> {
    set i | i in ids && i in items :: items[i].sequence
  }

  function Through(items: map<AttentionId, Item>, ids: set<AttentionId>): nat {
    MaxOr0(Sequences(items, ids))
  }

  function Ids(rows: seq<AttentionId>): set<AttentionId> {
    set i | i in rows
  }

  // ----- Updates -----------------------------------------------------------------------------

  const ANY: set<ItemStatus> := {Queued, Leased, Responded, Acknowledged}

  lemma AnyStatus(status: ItemStatus)
    ensures status in ANY
  {
    match status
    case Queued =>
    case Leased =>
    case Responded =>
    case Acknowledged =>
  }

  /** UPDATE attention_items SET status = to WHERE attention_id IN ids AND status IN from. */
  function Update(items: map<AttentionId, Item>, ids: set<AttentionId>, from: set<ItemStatus>, to: ItemStatus)
    : map<AttentionId, Item>
  {
    map i | i in items :: if i in ids && items[i].status in from then items[i].(status := to) else items[i]
  }

  function LinkedTo(leases: map<LeaseId, Lease>, ls: set<LeaseId>): set<AttentionId> {
    set l, i | l in ls && l in leases && i in leases[l].items :: i
  }

  /** `_abandon_locked` for each lease of `ls`: requeue what their rows hold, close the live ones. */
  function AbandonAll(db: Db, ls: set<LeaseId>): Db {
    db.(items := Update(db.items, LinkedTo(db.leases, ls), {Leased, Responded}, Queued),
        leases := map l | l in db.leases ::
          if l in ls && Live(db.leases[l]) then db.leases[l].(status := Abandoned) else db.leases[l])
  }

  function LiveOf(db: Db, episode: EpisodeId): set<LeaseId> {
    set l | l in db.leases && db.leases[l].episode == episode && Live(db.leases[l])
  }

  // ----- Well-formed tables ------------------------------------------------------------------

  ghost predicate Sequenced(db: Db) {
    && 1 <= Next(db)
    && DistinctSequences(db.items)
    && (forall i | i in db.items :: 1 <= db.items[i].sequence < Next(db))
    && (forall k: nat | 1 <= k < Next(db) :: Occupied(db.items, k))
  }

  ghost predicate OneLeasePerEpisode(db: Db) {
    forall e, l, m | l in LiveOf(db, e) && m in LiveOf(db, e) :: l == m
  }

  ghost predicate LinksResolve(db: Db) {
    forall l | l in db.leases :: db.leases[l].items <= db.items.Keys
  }

  /** Each lease's cursor is the last sequence it holds. */
  ghost predicate ThroughExact(db: Db) {
    forall l | l in db.leases :: db.leases[l].through == Through(db.items, db.leases[l].items)
  }

  /** What every transaction keeps of the tables, disciplined or not. */
  ghost predicate WellFormed(db: Db) {
    Sequenced(db) && OneLeasePerEpisode(db) && LinksResolve(db) && AcknowledgedCursor(db) < Next(db)
  }

  // ----- Queue transactions ------------------------------------------------------------------

  function Clamp(x: int, low: int, high: int): int
    requires low <= high
  {
    if x < low then low else if x > high then high else x
  }

  /** The insert of `enqueue`: one more queued item carrying the next sequence. */
  function Insert(db: Db, id: AttentionId, cursor: int, priority: int, critical: bool, dependency: nat): Db {
    if id in db.items then db else
      db.(items := db.items[id := Item(Next(db), cursor, Clamp(priority, 0, 100), critical, dependency, Queued)],
          head := Some(Head(Next(db) + 1, AcknowledgedCursor(db))))
  }

  function ClampTtl(ttl: int): real {
    Clamp(ttl, 30, 3600) as real
  }

  function ExpiredLeases(db: Db, now: real): set<LeaseId> {
    set l | l in db.leases && Live(db.leases[l]) && db.leases[l].expires <= now
  }

  /** The queued items a fresh lease may take. */
  function Deliverable(db: Db, cap: int): set<AttentionId> {
    set i | i in db.items && db.items[i].status == Queued && BelowBarrier(db.items, cap, db.items[i].sequence)
  }

  /** The in-flight lease may be handed out again: everything it holds is still published and below
      the barrier, and a completed one does not hide newly deliverable items. */
  predicate Reusable(db: Db, cap: int, l: LeaseId)
    requires l in db.leases
  {
    && (forall i | i in db.leases[l].items && i in db.items ::
          db.items[i].cursor <= cap && BelowBarrier(db.items, cap, db.items[i].sequence))
    && (db.leases[l].status == Answered ==> Deliverable(db, cap) == {})
  }

  datatype Delivery = Delivery(lease: LeaseId, items: seq<AttentionId>, through: nat, reused: bool)

  ghost predicate Reuses(db: Db, episode: EpisodeId, cap: int) {
    LiveOf(db, episode) != {} && forall l | l in LiveOf(db, episode) :: Reusable(db, cap, l)
  }

  ghost function Grant(db: Db, episode: EpisodeId, limit: int, ttl: int, cap: int, newLease: LeaseId, now: real)
    : (Db, Delivery)
    requires WellFormed(db)
  {
    var rows := Ranked(db.items, Deliverable(db, cap), Clamp(limit, 1, 64));
    var ids := Ids(rows);
    (db.(items := Update(db.items, ids, ANY, Leased),
         leases := db.leases[newLease := Lease(episode, ids, Through(db.items, ids), Open, now + ClampTtl(ttl))]),
     Delivery(newLease, rows, Through(db.items, ids), false))
  }

  /** The transaction changed nothing of an item but its status. */
  ghost predicate StatusOnly(items: map<AttentionId, Item>, items': map<AttentionId, Item>) {
    && items'.Keys == items.Keys
    && forall i | i in items :: items'[i] == items[i].(status := items'[i].status)
  }

  lemma StatusOnlyKeepsSequences(db: Db, db': Db)
    requires Sequenced(db) && StatusOnly(db.items, db'.items) && Next(db') == Next(db)
    ensures Sequenced(db')
  {
    forall k, i ensures AtSequence(db'.items, k, i) == AtSequence(db.items, k, i) {}
    forall k: nat | 1 <= k < Next(db') ensures Occupied(db'.items, k) {
      assert Occupied(db.items, k);
      var i :| i in db.items && AtSequence(db.items, k, i);
      assert AtSequence(db'.items, k, i);
    }
  }

  /** Abandoning any set of leases keeps the tables well formed. */
  lemma Sweep(db: Db, ls: set<LeaseId>)
    requires WellFormed(db)
    ensures WellFormed(AbandonAll(db, ls))
  {
    StatusOnlyKeepsSequences(db, AbandonAll(db, ls));
    forall e, l | l in LiveOf(AbandonAll(db, ls), e) ensures l in LiveOf(db, e) {}
  }

  ghost function LeaseFrom(db: Db, episode: EpisodeId, limit: int, ttl: int, cap: int, newLease: LeaseId, now: real)
    : (Db, Delivery)
    requires WellFormed(db)
  {
    if Reuses(db, episode, cap) then
      var l :| l in LiveOf(db, episode);
      (db, Delivery(l, Ranked(db.items, db.leases[l].items, |db.leases[l].items|), db.leases[l].through, true))
    else
      Sweep(db, LiveOf(db, episode));
      Grant(AbandonAll(db, LiveOf(db, episode)), episode, limit, ttl, cap, newLease, now)
  }

  /** `lease`: reclaim what expired, then reuse the episode's in-flight lease or replace it. */
  ghost function LeaseTx(db: Db, episode: EpisodeId, limit: int, ttl: int, cap: int, newLease: LeaseId, now: real)
    : (Db, Delivery)
    requires WellFormed(db)
  {
    Sweep(db, ExpiredLeases(db, now));
    LeaseFrom(AbandonAll(db, ExpiredLeases(db, now)), episode, limit, ttl, cap, newLease, now)
  }

  /** `_transition_lease`: the row moves only from the expected status. */
  function Transition(db: Db, l: LeaseId, expected: LeaseStatus, to: LeaseStatus): Result<Db, AttentionError> {
    if l in db.leases && db.leases[l].status == expected
    then Ok(db.(leases := db.leases[l := db.leases[l].(status := to)]))
    else Err(InvalidLeaseTransition)
  }

  function RestrictTx(db: Db, l: LeaseId, visible: set<AttentionId>): Result<Db, AttentionError> {
    if l !in db.leases || !Live(db.leases[l]) then Err(InvalidLeaseTransition)
    else if !(visible <= db.leases[l].items) then Err(PlacementScopeMismatch)
    else
      Ok(db.(items := Update(db.items, db.leases[l].items - visible, {Leased}, Queued),
             leases := db.leases[l := db.leases[l].(items := visible, through := Through(db.items, visible))]))
  }

  /** The second transaction of `responded`: the item rows follow the lease row, with no status filter. */
  function RespondItems(db: Db, l: LeaseId): Db {
    if l in db.leases then db.(items := Update(db.items, db.leases[l].items, ANY, Responded)) else db
  }

  /** `acknowledge` looks from the stored cursor for the next acknowledged sequences. */
  ghost function Contiguous(db: Db, k: nat): nat
    requires Sequenced(db) && k < Next(db)
    decreases Next(db) - k
  {
    if AcknowledgedAt(db.items, k + 1) then
      assert k + 1 < Next(db);
      Contiguous(db, k + 1)
    else k
  }

  /** The cursor an acknowledgement covers: an omitted cursor with no ids is the whole batch. */
  function Covered(lease: Lease, through: Option<int>, ids: set<AttentionId>): int {
    match through
    case Some(t) => t
    case None => if ids != {} then 0 else lease.through
  }

  function Eligible(db: Db, l: LeaseId, through: Option<int>, ids: set<AttentionId>): set<AttentionId>
    requires l in db.leases
  {
    set i | i in db.leases[l].items && i in db.items
            && (db.items[i].sequence <= Covered(db.leases[l], through, ids) || i in ids)
  }

  function AckError(db: Db, l: LeaseId, through: Option<int>, ids: set<AttentionId>): Option<AttentionError> {
    if l !in db.leases || db.leases[l].status !in {Answered, Receipted} then Some(NotCognitivelyResponded)
    else if !(ids <= db.leases[l].items) then Some(AckScopeMismatch)
    else if !(0 <= Covered(db.leases[l], through, ids) <= db.leases[l].through) then Some(AckCursorOutOfRange)
    else None
  }

  /** The rows `acknowledge` rewrites, before the head is moved. */
  function AckRows(db: Db, l: LeaseId, through: Option<int>, ids: set<AttentionId>): Db
    requires l in db.leases
  {
    var eligible := Eligible(db, l, through, ids);
    var marked := Update(db.items, eligible, ANY, Acknowledged);
    db.(items := Update(marked, db.leases[l].items - eligible, {Leased, Responded}, Queued),
        leases := db.leases[l := db.leases[l].(status := Receipted)])
  }

  function MoveHead(db: Db, acknowledged: nat): Db {
    if db.head.Some? then db.(head := Some(Head(db.head.value.next, acknowledged))) else db
  }

  ghost function AckTx(db: Db, l: LeaseId, through: Option<int>, ids: set<AttentionId>): Result<Db, AttentionError>
    requires WellFormed(db)
  {
    if AckError(db, l, through, ids).Some? then Err(AckError(db, l, through, ids).value)
    else
      var rows := AckRows(db, l, through, ids);
      StatusOnlyKeepsSequences(db, rows);
      Ok(MoveHead(rows, Contiguous(rows, AcknowledgedCursor(rows))))
  }

  function DropTx(db: Db, l: LeaseId): Result<Db, AttentionError> {
    if l in db.leases then Ok(AbandonAll(db, {l})) else Err(UnknownLease)
  }

  // ----- Sovereign transactions --------------------------------------------------------------

  predicate CanRenew(db: Db, token: Token, now: real) {
    && db.sovereign.Some? && db.sovereign.value.token == token
    && db.sovereign.value.status == Active && db.sovereign.value.expires > now
  }

  /** `ownerOk` is the answer of the session and run check, which lives outside this model. */
  function AcquireTx(db: Db, episode: EpisodeId, mode: EpisodeMode, ttl: int, ownerOk: bool, token: Token, now: real)
    : Result<Db, AttentionError>
  {
    var row := Some(Sovereign(episode, mode, token, Active, now + ClampTtl(ttl)));
    if !ownerOk then Err(OwnerChanged)
    else if db.sovereign.None? then Ok(db.(sovereign := row))
    else
      var current := db.sovereign.value;
      if current.status == Active && current.expires > now && (current.episode != episode || current.mode != mode)
      then Err(InvocationAlreadyActive)
      else if current.status in {Active, Expired} && current.expires <= now
      then Ok(AbandonAll(db, LiveOf(db, current.episode)).(sovereign := row))
      else Ok(db.(sovereign := row))
  }

  function RenewTx(db: Db, token: Token, episode: EpisodeId, ttl: int, ownerOk: bool, now: real)
    : Result<Db, AttentionError>
  {
    if !ownerOk then Err(OwnerChanged)
    else if CanRenew(db, token, now) && db.sovereign.value.episode == episode
    then Ok(db.(sovereign := Some(db.sovereign.value.(expires := now + ClampTtl(ttl)))))
    else Err(AuthorityLost)
  }

  /** `sovereign_state` writes too: it marks an overdue lease as expired before reading it. */
  function ReadSovereignTx(db: Db, now: real): Db {
    if db.sovereign.Some? && db.sovereign.value.status == Active && db.sovereign.value.expires <= now
    then db.(sovereign := Some(db.sovereign.value.(status := Expired)))
    else db
  }

  function EndAuthority(db: Db, to: SovereignStatus): Db
    requires db.sovereign.Some?
  {
    AbandonAll(db, LiveOf(db, db.sovereign.value.episode)).(sovereign := Some(db.sovereign.value.(status := to)))
  }

  function ReleaseTx(db: Db, token: Token, committed: bool): Result<Db, AttentionError> {
    if db.sovereign.Some? && db.sovereign.value.token == token && db.sovereign.value.status == Active
    then Ok(EndAuthority(db, if committed then Committed else Cancelled))
    else Err(InvalidSovereignLease)
  }

  function CancelTx(db: Db): Db {
    if db.sovereign.Some? && db.sovereign.value.status == Active then EndAuthority(db, Cancelled) else db
  }

  // ----- The tables stay well formed ---------------------------------------------------------

  lemma StatusOnlyKeepsThrough(items: map<AttentionId, Item>, items': map<AttentionId, Item>, ids: set<AttentionId>)
    requires StatusOnly(items, items')
    ensures Through(items', ids) == Through(items, ids)
  {
    assert Sequences(items', ids) == Sequences(items, ids);
  }
}
