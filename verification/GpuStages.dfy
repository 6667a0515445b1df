/** The state behind the GPU stage coordinator's lock, and one function for every section under it. */
module GpuStages {
  // Time is a parameter; the environment switches are fixed for a run.

  import opened Options

  const AGE := 30000         // milliseconds a waiting reader needs below memory pressure
  const LIFETIME := 30000    // milliseconds a demand lives without a poll
  const COOLDOWN := 10000
  const CLAIM_WINDOW := 2000
  const TURNS := 2

  datatype Flags = Flags(pressureRetirement: bool, ageRetirement: bool, overlap: bool)

  datatype Kind = SourceProjection | Sam | Backprojection | Other

  datatype Purpose = Purpose(kind: Kind, name: nat)

  /** A demand for a retirement turn; the list of demands is in order of first request. */
  datatype Request = Request(purpose: Purpose, expiry: int, devices: seq<int>, first: int)

  datatype Resident = Resident(token: nat, purpose: Purpose, lendable: bool, quarantined: bool, claim: Option<nat>)

  /** Who holds which device: stage leases with their tokens and claims, resident owners, and
      devices reserved by an attempt that has not committed. */
  datatype Owners = Owners(
    leases: map<int, Purpose>,
    tokens: map<int, nat>,
    claims: map<int, nat>,
    residents: map<int, Resident>,
    provisional: map<int, nat>)

  /** The fairness queue: live demands, the device being drained for one of them, and how many
      projections each device has admitted since its last dispatch. */
  datatype Queue = Queue(
    requests: seq<Request>,
    reserved: Option<int>,
    handoff: Option<int>,
    deadline: int,
    burst: map<int, nat>,
    cursor: nat,
    retryAfter: int)

  datatype Coordinator = Coordinator(
    workers: set<int>,
    inflight: map<int, nat>,
    epoch: nat,
    priority: bool,
    retiring: bool,
    retired: map<int, nat>,
    backlog: bool,
    pressure: bool,
    own: Owners,
    queue: Queue)

  const Unowned := Owners(map[], map[], map[], map[], map[])

  const Unasked := Queue([], None, None, 0, map[], 0, 0)

  const Initial := Coordinator({}, map[], 0, false, false, map[], false, false, Unowned, Unasked)

  function Count(m: map<int, nat>, d: int): nat {
    if d in m then m[d] else 0
  }

  // ----- demands -----

  function LiveRequests(requests: seq<Request>, now: int): seq<Request> {
    if requests == [] then []
    else (if requests[0].expiry > now then [requests[0]] else []) + LiveRequests(requests[1..], now)
  }

  function Purposes(requests: seq<Request>): (ps: seq<Purpose>)
    ensures |ps| == |requests|
    ensures forall i | 0 <= i < |ps| :: ps[i] == requests[i].purpose
  {
    seq(|requests|, i requires 0 <= i < |requests| => requests[i].purpose)
  }

  predicate Due(c: Coordinator, flags: Flags, r: Request, now: int) {
    c.pressure || (flags.ageRetirement && now - r.first >= AGE)
  }

  /** The oldest live demand that may use `device`. */
  function NextRequest(c: Coordinator, flags: Flags, requests: seq<Request>, device: int, now: int): Option<Purpose> {
    if requests == [] then None
    else if device in requests[0].devices && Due(c, flags, requests[0], now) then Some(requests[0].purpose)
    else NextRequest(c, flags, requests[1..], device, now)
  }

  function ClearTurn(c: Coordinator): Coordinator {
    c.(queue := c.queue.(reserved := None, handoff := None, deadline := 0))
  }

  /** Drop expired demands, then drop or expire the reserved turn. */
  function Refresh(c: Coordinator, flags: Flags, now: int): Coordinator {
    var c := c.(queue := c.queue.(requests := LiveRequests(c.queue.requests, now)));
    if c.queue.requests == [] || !flags.pressureRetirement || c.retiring || !c.backlog
       || (c.queue.reserved.Some? && NextRequest(c, flags, c.queue.requests, c.queue.reserved.value, now).None?)
    then ClearTurn(c)
    else if c.queue.handoff.Some? && now >= c.queue.deadline then
      var d := c.queue.handoff.value;
      var q := c.queue;
      ClearTurn(c.(queue := q.(burst := q.burst[d := if Count(q.burst, d) < TURNS then TURNS else Count(q.burst, d)])))
    else c
  }

  function PutRequest(requests: seq<Request>, purpose: Purpose, devices: seq<int>, now: int): seq<Request> {
    if requests == [] then [Request(purpose, now + LIFETIME, devices, now)]
    else if requests[0].purpose == purpose then
      [Request(purpose, now + LIFETIME, devices, requests[0].first)] + requests[1..]
    else [requests[0]] + PutRequest(requests[1..], purpose, devices, now)
  }

  function DropRequest(requests: seq<Request>, purpose: Purpose): seq<Request> {
    if requests == [] then []
    else if requests[0].purpose == purpose then requests[1..]
    else [requests[0]] + DropRequest(requests[1..], purpose)
  }

  predicate Projecting(c: Coordinator) {
    exists d <- c.own.leases :: c.own.leases[d].kind == SourceProjection
  }

  predicate Drainable(c: Coordinator, d: int) {
    d in c.workers && d !in c.own.leases && Count(c.queue.burst, d) < TURNS
  }

  function Available(c: Coordinator): set<int> {
    set d | d in c.workers && Drainable(c, d)
  }

  function Select(ds: seq<int>, keep: set<int>): (r: seq<int>)
    ensures forall d <- r :: d in ds && d in keep
    ensures forall d <- ds :: d in keep ==> d in r
  {
    if ds == [] then [] else (if ds[0] in keep then [ds[0]] else []) + Select(ds[1..], keep)
  }

  /** The drainable devices of the oldest due demand that has any. */
  function DrainCandidates(c: Coordinator, flags: Flags, requests: seq<Request>, available: set<int>,
        now: int): (r: seq<int>)
    ensures forall d <- r :: d in available
  {
    if requests == [] then []
    else
      var mine := Select(requests[0].devices, available);
      if mine != [] && Due(c, flags, requests[0], now) then mine
      else DrainCandidates(c, flags, requests[1..], available, now)
  }

  function Position(c: Coordinator, d: int): nat {
    |set w | w in c.workers && w < d|
  }

  function Rank(c: Coordinator, d: int): int
    requires c.workers != {}
  {
    (Position(c, d) - c.queue.cursor) % |c.workers|
  }

  predicate Before(c: Coordinator, a: int, b: int)
    requires c.workers != {}
  {
    Count(c.inflight, a) < Count(c.inflight, b)
    || (Count(c.inflight, a) == Count(c.inflight, b) && Rank(c, a) <= Rank(c, b))
  }

  lemma {:induction false} BeforeIsTotal(c: Coordinator, a: int, b: int, ds: seq<int>)
    requires c.workers != {} && forall d <- ds :: Before(c, b, d)
    ensures Before(c, a, a) && (Before(c, a, b) || Before(c, b, a))
    ensures Before(c, a, b) ==> forall d <- ds :: Before(c, a, d)
  {
    hide Rank;
  }

  /** The least loaded candidate, ties broken round robin. */
  function LeastLoaded(c: Coordinator, ds: seq<int>): (best: int)
    requires ds != [] && c.workers != {}
    ensures best in ds && forall d <- ds :: Before(c, best, d)
  {
    if |ds| == 1 then ds[0]
    else
      var rest := LeastLoaded(c, ds[1..]);
      BeforeIsTotal(c, ds[0], rest, ds[1..]);
      if Before(c, ds[0], rest) then ds[0] else rest
  }

  function TakeTurn(c: Coordinator, d: int): Coordinator
    requires c.workers != {}
  {
    c.(queue := c.queue.(reserved := Some(d), cursor := (Position(c, d) + 1) % |c.workers|))
  }

  function Demanded(c: Coordinator, purpose: Purpose, devices: seq<int>, now: int): Coordinator {
    c.(queue := c.queue.(requests := PutRequest(c.queue.requests, purpose, devices, now)))
  }

  function RequestTurn(c: Coordinator, flags: Flags, candidates: seq<int>, purpose: Purpose, now: int): Coordinator {
    if purpose.kind != SourceProjection || !c.backlog || c.retiring || now < c.queue.retryAfter
        || !flags.pressureRetirement then c
    else
      var c := Refresh(c, flags, now);
      var devices := Select(candidates, c.workers);
      if devices == [] then c
      else
        var c := Demanded(c, purpose, devices, now);
        if Projecting(c) || c.queue.reserved.Some? then c
        else
          var choice := DrainCandidates(c, flags, c.queue.requests, Available(c), now);
          if choice == [] then c
          else
            assert choice[0] in choice;
            TakeTurn(c, LeastLoaded(c, choice))
  }

  function Cancel(c: Coordinator, flags: Flags, purpose: Purpose, failed: bool, now: int): Coordinator {
    var c := c.(queue := c.queue.(requests := if failed then [] else DropRequest(c.queue.requests, purpose),
                                  retryAfter := if failed then now + COOLDOWN else c.queue.retryAfter));
    Refresh(c, flags, now)
  }

  function FailedProbe(c: Coordinator, now: int): Coordinator {
    ClearTurn(c.(queue := c.queue.(requests := [], retryAfter := now + COOLDOWN)))
  }

  function RecordProjection(c: Coordinator, d: int, purpose: Purpose): Coordinator {
    var burst := if d in c.workers then c.queue.burst[d := Count(c.queue.burst, d) + 1] else c.queue.burst;
    ClearTurn(c.(queue := c.queue.(burst := burst, requests := DropRequest(c.queue.requests, purpose))))
  }

  // ----- admission -----

  /** Whether inference priority or a retirement turn keeps `purpose` off the device. */
  function PriorityBlocks(c: Coordinator, flags: Flags, d: int, purpose: Purpose, now: int): (bool, Coordinator) {
    if c.retiring && d in c.workers then (!(d in c.retired && purpose.kind == Sam), c)
    else if purpose.kind == SourceProjection then
      if !c.backlog || d !in c.workers then (false, c)
      else
        var c := Refresh(c, flags, now);
        (c.queue.reserved != Some(d) || NextRequest(c, flags, c.queue.requests, d, now) != Some(purpose)
            || Projecting(c), c)
    else if flags.overlap && purpose.kind == Backprojection && !c.backlog then (false, c)
    else (c.priority && d in c.workers, c)
  }

  predicate ResidentAllows(c: Coordinator, d: int, purpose: Purpose, residentToken: Option<nat>) {
    if residentToken.Some? then d in c.own.residents && c.own.residents[d].token == residentToken.value
    else d in c.own.residents ==> c.own.residents[d].lendable && purpose.kind == SourceProjection
  }

  predicate Unclaimed(c: Coordinator, d: int, reservation: Option<nat>) {
    d !in c.own.leases && (d in c.own.provisional ==> reservation == Some(c.own.provisional[d]))
  }

  function StageEligible(c: Coordinator, flags: Flags, d: int, purpose: Purpose, reservation: Option<nat>,
                         residentToken: Option<nat>, now: int): (bool, Coordinator) {
    if !ResidentAllows(c, d, purpose, residentToken) || !Unclaimed(c, d, reservation) then (false, c)
    else if residentToken.Some? then (Count(c.inflight, d) == 0, c)
    else
      var (blocked, c') := PriorityBlocks(c, flags, d, purpose, now);
      (!blocked && Count(c.inflight, d) == 0, c')
  }

  function Reserved(c: Coordinator, d: int, reservation: nat): Coordinator {
    c.(own := c.own.(provisional := c.own.provisional[d := reservation]))
  }

  function Leased(c: Coordinator, d: int, purpose: Purpose, token: nat, claim: Option<nat>): Coordinator {
    c.(own := c.own.(leases := c.own.leases[d := purpose], tokens := c.own.tokens[d := token],
                     claims := if claim.Some? then c.own.claims[d := claim.value] else c.own.claims,
                     provisional := c.own.provisional - {d}))
  }

  function Unleased(c: Coordinator, d: int): Coordinator {
    c.(own := c.own.(leases := c.own.leases - {d}, tokens := c.own.tokens - {d}, claims := c.own.claims - {d}))
  }

  function Reserve(c: Coordinator, flags: Flags, d: int, purpose: Purpose, epoch: nat, residentToken: Option<nat>,
                   reservation: nat, now: int): (bool, Coordinator) {
    if c.epoch != epoch then (false, c)
    else
      var (ok, c') := StageEligible(c, flags, d, purpose, None, residentToken, now);
      if ok then (true, Reserved(c', d, reservation)) else (false, c')
  }

  predicate GuardedByResident(c: Coordinator, d: int) {
    d in c.own.residents && c.own.residents[d].claim.Some?
  }

  function CommitStage(c: Coordinator, flags: Flags, d: int, purpose: Purpose, epoch: nat, residentToken: Option<nat>,
                       reservation: nat, claim: Option<nat>, token: nat, now: int): (bool, Coordinator) {
    if c.epoch != epoch || d !in c.own.provisional || c.own.provisional[d] != reservation then (false, c)
    else
      var (ok, c) := StageEligible(c, flags, d, purpose, Some(reservation), residentToken, now);
      if !ok then (false, c)
      else
        var c := Leased(c, d, purpose, token, claim);
        (true, if purpose.kind == SourceProjection then RecordProjection(c, d, purpose) else c)
  }

  function PopReservation(c: Coordinator, d: int, reservation: nat): Coordinator {
    if d in c.own.provisional && c.own.provisional[d] == reservation
    then c.(own := c.own.(provisional := c.own.provisional - {d}))
    else c
  }

  function ClaimAt(claims: map<int, nat>, d: int): Option<nat> {
    if d in claims then Some(claims[d]) else None
  }

  predicate HoldsStage(c: Coordinator, d: int, purpose: Purpose, token: nat) {
    d in c.own.leases && c.own.leases[d] == purpose && d in c.own.tokens && c.own.tokens[d] == token
  }

  function HandedOver(c: Coordinator, d: int, now: int): Coordinator {
    c.(queue := c.queue.(reserved := Some(d), handoff := Some(d), deadline := now + CLAIM_WINDOW))
  }

  /** Release a stage, keeping the drained device for one more reader when one is due. */
  function ReleaseStage(c: Coordinator, flags: Flags, d: int, purpose: Purpose, token: nat,
        now: int): (Option<nat>, Coordinator) {
    if !HoldsStage(c, d, purpose, token) then (None, c)
    else
      var claim := ClaimAt(c.own.claims, d);
      var c := Refresh(Unleased(c, d), flags, now);
      if purpose.kind == SourceProjection && c.queue.reserved.None? && c.backlog && !c.retiring
         && now >= c.queue.retryAfter && flags.pressureRetirement && !Projecting(c) && Count(c.queue.burst, d) < TURNS
         && NextRequest(c, flags, c.queue.requests, d, now).Some?
      then (claim, HandedOver(c, d, now))
      else (claim, c)
  }

  predicate CanPromote(c: Coordinator, d: int, purpose: Purpose, token: nat) {
    d !in c.own.residents && HoldsStage(c, d, purpose, token)
  }

  function Promote(c: Coordinator, d: int, purpose: Purpose, token: nat, residentToken: nat): Coordinator {
    if !CanPromote(c, d, purpose, token) then c
    else
      var owner := Resident(residentToken, purpose, true, false, ClaimAt(c.own.claims, d));
      var c := Unleased(c, d);
      c.(own := c.own.(residents := c.own.residents[d := owner]))
  }

  predicate OwnsResidency(c: Coordinator, d: int, token: nat) {
    d in c.own.residents && c.own.residents[d].token == token
  }

  function Quarantine(c: Coordinator, d: int, token: nat): Coordinator {
    if !OwnsResidency(c, d, token) then c
    else c.(own := c.own.(residents :=
        c.own.residents[d := c.own.residents[d].(lendable := false, quarantined := true)]))
  }

  /** A residency ends only while no compute stage is active or being claimed on it. */
  function ReleaseResidency(c: Coordinator, d: int, token: nat): (Option<nat>, Coordinator) {
    if !OwnsResidency(c, d, token) || d in c.own.leases || d in c.own.provisional then (None, c)
    else (c.own.residents[d].claim, c.(own := c.own.(residents := c.own.residents - {d})))
  }

  // ----- inference -----

  function BeginInference(c: Coordinator, flags: Flags, d: int, now: int): (bool, Coordinator) {
    if d in c.retired || d in c.own.residents || d in c.own.provisional then (false, c)
    else
      var c := Refresh(c, flags, now);
      if c.queue.reserved == Some(d) || d in c.own.leases then (false, c)
      else
        (true, c.(inflight := c.inflight[d := Count(c.inflight, d) + 1],
                  queue := c.queue.(burst := c.queue.burst - {d})))
  }

  function Fewer(m: map<int, nat>, d: int): (r: map<int, nat>)
    ensures forall x <- r :: x in m && (r[x] == m[x] || (x == d && r[x] > 0 && r[x] + 1 == m[x]))
    ensures forall x: int :: Count(r, x) == if x == d && Count(m, x) > 0 then Count(m, x) - 1 else Count(m, x)
  {
    if Count(m, d) > 1 then m[d := m[d] - 1] else m - {d}
  }

  function FinishInference(c: Coordinator, d: int): Coordinator {
    c.(inflight := Fewer(c.inflight, d))
  }

  predicate CanRetire(c: Coordinator, d: int, proofEpoch: nat) {
    proofEpoch == c.epoch && d in c.workers && d !in c.retired && c.retiring && !c.backlog
    && forall w <- c.inflight :: c.inflight[w] == 0
  }

  function MarkRetired(c: Coordinator, d: int, task: nat, proofEpoch: nat): Coordinator {
    if CanRetire(c, d, proofEpoch) then c.(retired := c.retired[d := task]) else c
  }

  /** A new run: everything but the epoch starts over, unless a residency is still owned. */
  function Configure(c: Coordinator, workers: set<int>): Coordinator {
    if c.own.residents != map[] then c
    else Initial.(epoch := c.epoch + 1, workers := workers, priority := workers != {})
  }

  function SetBacklog(c: Coordinator, active: bool): Coordinator {
    c.(backlog := active)
  }

  function SetPressure(c: Coordinator, flags: Flags, active: bool, now: int): Coordinator {
    Refresh(c.(pressure := active), flags, now)
  }

  function SetPriority(c: Coordinator, active: bool): Coordinator {
    c.(priority := active && c.workers != {})
  }

  function SetRetiring(c: Coordinator, active: bool): Coordinator {
    c.(retiring := active)
  }
}
