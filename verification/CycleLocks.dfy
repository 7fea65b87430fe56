/**
The locks of one cycle: a semaphore per portal, a lock per signature and one lock for mutating alerts,
taken and released by one worker per planned query, in every interleaving.

A worker takes its portal's permit and then its signature's lock, gives both back in reverse order when
it has its candidates, takes the mutation lock once per alert, and commits at the end.  What makes a
step end one way or another (an answer, a ScraperError, another error) is chosen freely.
*/
module CycleLocks {
  import opened Wrappers
  import Collections

  datatype Worker = Worker(portal: string, signature: string, alerts: nat)

  datatype Config = Config(workers: seq<Worker>, limit: string -> nat)

  datatype Ending = Answered | Unanswered | Raised

  datatype Pc =
    | Waiting
    | Queued
    | Resolving
    | Leaving(ending: Ending)
    | Evaluating(k: nat)
    | Evaluated(k: nat)
    | Persisting(k: nat)
    | Recording
    | Finished

  datatype State = State(pcs: seq<Pc>, permits: map<string, nat>, locked: map<string, bool>, mutating: bool)

  predicate Shaped(c: Config, s: State) {
    && |s.pcs| == |c.workers|
    && forall w :: 0 <= w < |c.workers| ==> c.workers[w].portal in s.permits && c.workers[w].signature in s.locked
  }

  function Initial(c: Config): State {
    State(seq(|c.workers|, i => Waiting),
          map w | w in c.workers :: w.portal := c.limit(w.portal),
          map w | w in c.workers :: w.signature := false,
          false)
  }

  /** The next step of worker w; None while a lock keeps it waiting, and when it has finished. */
  function Next(c: Config, s: State, w: nat, ending: Ending): Option<State>
    requires Shaped(c, s) && w < |c.workers|
  {
    var worker := c.workers[w];
    match s.pcs[w]
    case Waiting =>
      if s.permits[worker.portal] == 0 then None
      else Some(s.(pcs := s.pcs[w := Queued], permits := s.permits[worker.portal := s.permits[worker.portal] - 1]))
    case Queued =>
      if s.locked[worker.signature] then None
      else Some(s.(pcs := s.pcs[w := Resolving], locked := s.locked[worker.signature := true]))
    case Resolving =>
      Some(s.(pcs := s.pcs[w := Leaving(ending)], locked := s.locked[worker.signature := false]))
    case Leaving(how) =>
      var pc := match how case Answered => Evaluating(0) case Unanswered => Recording case Raised => Finished;
      Some(s.(pcs := s.pcs[w := pc], permits := s.permits[worker.portal := s.permits[worker.portal] + 1]))
    case Evaluating(k) =>
      if k >= worker.alerts || ending.Raised? then Some(s.(pcs := s.pcs[w := Finished]))
      else Some(s.(pcs := s.pcs[w := Evaluated(k)]))
    case Evaluated(k) =>
      if s.mutating then None else Some(s.(pcs := s.pcs[w := Persisting(k)], mutating := true))
    case Persisting(k) =>
      Some(s.(pcs := s.pcs[w := if ending.Raised? then Finished else Evaluating(k + 1)], mutating := false))
    case Recording => Some(s.(pcs := s.pcs[w := Finished]))
    case Finished => None
  }

  // ----- Who holds what

  predicate HasPermit(pc: Pc) {
    pc.Queued? || pc.Resolving? || pc.Leaving?
  }

  type Role = (nat, Pc) -> bool

  ghost function Where(pcs: seq<Pc>, role: Role): set<nat> {
    set w | 0 <= w < |pcs| && role(w, pcs[w])
  }

  /** The workers that hold a permit of the portal. */
  function PermitHolder(c: Config, portal: string): Role {
    (w: nat, pc: Pc) => w < |c.workers| && c.workers[w].portal == portal && HasPermit(pc)
  }

  /** The workers that resolve candidates under the signature's lock. */
  function LockHolder(c: Config, signature: string): Role {
    (w: nat, pc: Pc) => w < |c.workers| && c.workers[w].signature == signature && pc.Resolving?
  }

  /** The workers that store matches under the mutation lock. */
  function MutationHolder(): Role {
    (w: nat, pc: Pc) => pc.Persisting?
  }

  function Bit(b: bool): nat {
    if b then 1 else 0
  }

  predicate InRange(pc: Pc, alerts: nat) {
    match pc
    case Evaluating(k) => k <= alerts
    case Evaluated(k) => k < alerts
    case Persisting(k) => k < alerts
    case _ => true
  }

  /** Permits out and permits left make the limit, and a lock is taken exactly while one worker holds it. */
  ghost predicate Inv(c: Config, s: State) {
    && Shaped(c, s)
    && (forall w :: 0 <= w < |s.pcs| ==> InRange(s.pcs[w], c.workers[w].alerts))
    && (forall portal :: portal in s.permits ==>
          s.permits[portal] + |Where(s.pcs, PermitHolder(c, portal))| == c.limit(portal))
    && (forall signature :: signature in s.locked ==>
          |Where(s.pcs, LockHolder(c, signature))| == Bit(s.locked[signature]))
    && |Where(s.pcs, MutationHolder())| == Bit(s.mutating)
  }

  lemma WhereUpdated(pcs: seq<Pc>, w: nat, pc: Pc, role: Role)
    requires w < |pcs|
    ensures |Where(pcs[w := pc], role)| + Bit(role(w, pcs[w])) == |Where(pcs, role)| + Bit(role(w, pc))
  {
    var before, after := Where(pcs, role), Where(pcs[w := pc], role);
    assert before - {w} == after - {w};
    assert w in before <==> role(w, pcs[w]);
    assert w in after <==> role(w, pc);
    assert |before - {w}| + Bit(w in before) == |before|;
    assert |after - {w}| + Bit(w in after) == |after|;
  }

  lemma InitialIsShaped(c: Config)
    ensures Shaped(c, Initial(c))
  {
    var s := Initial(c);
    forall w | 0 <= w < |c.workers|
      ensures c.workers[w].portal in s.permits && c.workers[w].signature in s.locked
    {
      assert c.workers[w] in c.workers;
    }
  }

  lemma NobodyThere(pcs: seq<Pc>, role: Role)
    requires forall w :: 0 <= w < |pcs| ==> !role(w, pcs[w])
    ensures |Where(pcs, role)| == 0
  {
    assert Where(pcs, role) == {};
  }

  lemma NobodyAtFirst(c: Config, role: Role)
    requires forall w :: !role(w, Waiting)
    ensures |Where(Initial(c).pcs, role)| == 0
  {
    hide Where;
    NobodyThere(Initial(c).pcs, role);
  }

  lemma InitialTables(c: Config)
    ensures var s := Initial(c);
            && |s.pcs| == |c.workers| && (forall w :: 0 <= w < |s.pcs| ==> s.pcs[w] == Waiting)
            && (forall portal :: portal in s.permits ==> s.permits[portal] == c.limit(portal))
            && (forall signature :: signature in s.locked ==> !s.locked[signature])
            && !s.mutating
  {
  }

  lemma InitialInv(c: Config)
    ensures Inv(c, Initial(c))
  {
    hide Where, Shaped, Initial;
    InitialIsShaped(c);
    InitialTables(c);
    var s := Initial(c);
    forall portal | portal in s.permits
      ensures s.permits[portal] + |Where(s.pcs, PermitHolder(c, portal))| == c.limit(portal)
    {
      NobodyAtFirst(c, PermitHolder(c, portal));
    }
    forall signature | signature in s.locked
      ensures |Where(s.pcs, LockHolder(c, signature))| == Bit(s.locked[signature])
    {
      NobodyAtFirst(c, LockHolder(c, signature));
    }
    NobodyAtFirst(c, MutationHolder());
  }

  /** A step moves one worker. */
  lemma StepMoves(c: Config, s: State, w: nat, ending: Ending)
    requires Shaped(c, s) && w < |c.workers| && Next(c, s, w, ending).Some?
    ensures var t := Next(c, s, w, ending).value;
            && t.pcs == s.pcs[w := t.pcs[w]]
            && t.permits.Keys == s.permits.Keys && t.locked.Keys == s.locked.Keys
            && (InRange(s.pcs[w], c.workers[w].alerts) ==> InRange(t.pcs[w], c.workers[w].alerts))
  {
  }

  lemma StepKeepsPermits(c: Config, s: State, w: nat, ending: Ending, portal: string)
    requires Shaped(c, s) && w < |c.workers| && Next(c, s, w, ending).Some? && portal in s.permits
    ensures var t := Next(c, s, w, ending).value;
            && portal in t.permits
            && t.permits[portal] + |Where(t.pcs, PermitHolder(c, portal))|
               == s.permits[portal] + |Where(s.pcs, PermitHolder(c, portal))|
  {
    hide Where;
    var t := Next(c, s, w, ending).value;
    StepMoves(c, s, w, ending);
    WhereUpdated(s.pcs, w, t.pcs[w], PermitHolder(c, portal));
  }

  lemma StepKeepsLock(c: Config, s: State, w: nat, ending: Ending, signature: string)
    requires Shaped(c, s) && w < |c.workers| && Next(c, s, w, ending).Some? && signature in s.locked
    requires |Where(s.pcs, LockHolder(c, signature))| == Bit(s.locked[signature])
    ensures var t := Next(c, s, w, ending).value;
            && signature in t.locked
            && |Where(t.pcs, LockHolder(c, signature))| == Bit(t.locked[signature])
  {
    hide Where;
    var t := Next(c, s, w, ending).value;
    StepMoves(c, s, w, ending);
    WhereUpdated(s.pcs, w, t.pcs[w], LockHolder(c, signature));
  }

  lemma StepKeepsMutation(c: Config, s: State, w: nat, ending: Ending)
    requires Shaped(c, s) && w < |c.workers| && Next(c, s, w, ending).Some?
    requires |Where(s.pcs, MutationHolder())| == Bit(s.mutating)
    ensures var t := Next(c, s, w, ending).value;
            |Where(t.pcs, MutationHolder())| == Bit(t.mutating)
  {
    hide Where;
    var t := Next(c, s, w, ending).value;
    StepMoves(c, s, w, ending);
    WhereUpdated(s.pcs, w, t.pcs[w], MutationHolder());
  }

  /** Every step of every worker keeps the books. */
  lemma StepKeepsInv(c: Config, s: State, w: nat, ending: Ending)
    requires Inv(c, s) && w < |c.workers| && Next(c, s, w, ending).Some?
    ensures Inv(c, Next(c, s, w, ending).value)
  {
    hide Where, Next, PermitHolder, LockHolder, MutationHolder, InRange;
    var t := Next(c, s, w, ending).value;
    StepMoves(c, s, w, ending);
    forall portal | portal in t.permits
      ensures t.permits[portal] + |Where(t.pcs, PermitHolder(c, portal))| == c.limit(portal)
    {
      StepKeepsPermits(c, s, w, ending, portal);
    }
    forall signature | signature in t.locked
      ensures |Where(t.pcs, LockHolder(c, signature))| == Bit(t.locked[signature])
    {
      StepKeepsLock(c, s, w, ending, signature);
    }
    StepKeepsMutation(c, s, w, ending);
  }

  // ----- Runs

  /** One worker's turn, and how what it does then ends. */
  datatype Turn = Turn(worker: nat, ending: Ending)

  /** The state after some turns, each of them possible. */
  function Ran(c: Config, turns: seq<Turn>): (s: Option<State>)
    ensures s.Some? ==> Shaped(c, s.value)
  {
    if turns == [] then
      InitialIsShaped(c);
      Some(Initial(c))
    else
      var before, turn := Ran(c, turns[..|turns| - 1]), turns[|turns| - 1];
      if before.None? || turn.worker >= |c.workers| then None
      else Next(c, before.value, turn.worker, turn.ending)
  }

  lemma {:induction false} EveryRunKeepsInv(c: Config, turns: seq<Turn>)
    requires Ran(c, turns).Some?
    ensures Inv(c, Ran(c, turns).value)
  {
    hide Inv, Next;
    if turns == [] {
      InitialInv(c);
    } else {
      var turn := turns[|turns| - 1];
      EveryRunKeepsInv(c, turns[..|turns| - 1]);
      StepKeepsInv(c, Ran(c, turns[..|turns| - 1]).value, turn.worker, turn.ending);
    }
  }

  /** The workers that talk to a portal. */
  function ResolvingAt(c: Config, portal: string): Role {
    (w: nat, pc: Pc) => w < |c.workers| && c.workers[w].portal == portal && pc.Resolving?
  }

  /**
  Safety in every interleaving: permits are conserved; at most `limit` workers resolve against one
  portal; at most one resolves under one signature; at most one stores matches.
  */
  lemma LocksAreSafe(c: Config, turns: seq<Turn>, w: nat)
    requires Ran(c, turns).Some? && w < |c.workers|
    ensures var s, worker := Ran(c, turns).value, c.workers[w];
            && s.permits[worker.portal] + |Where(s.pcs, PermitHolder(c, worker.portal))| == c.limit(worker.portal)
            && |Where(s.pcs, ResolvingAt(c, worker.portal))| <= c.limit(worker.portal)
            && |Where(s.pcs, LockHolder(c, worker.signature))| <= 1
            && |Where(s.pcs, MutationHolder())| <= 1
  {
    EveryRunKeepsInv(c, turns);
    var s, portal := Ran(c, turns).value, c.workers[w].portal;
    var all, some := Where(s.pcs, PermitHolder(c, portal)), Where(s.pcs, ResolvingAt(c, portal));
    assert some <= all;
    Collections.SubsetIsNoLarger(some, all);
  }

  // ----- Progress

  predicate CanStep(c: Config, s: State, w: nat)
    requires Shaped(c, s)
  {
    w < |c.workers| && Next(c, s, w, Answered).Some?
  }

  /** A free worker: one that no lock can hold up. */
  predicate IsFree(pc: Pc) {
    !pc.Waiting? && !pc.Queued? && !pc.Evaluated? && !pc.Finished?
  }

  /** No deadlock: while some worker is unfinished, some worker can step. */
  lemma SomebodyCanStep(c: Config, s: State, unfinished: nat) returns (w: nat)
    requires Inv(c, s) && (forall worker :: worker in c.workers ==> 1 <= c.limit(worker.portal))
    requires unfinished < |c.workers| && s.pcs[unfinished] != Finished
    ensures CanStep(c, s, w)
  {
    hide Where;
    assert c.workers[unfinished] in c.workers;
    if x :| 0 <= x < |s.pcs| && IsFree(s.pcs[x]) {
      w := x;
    } else if x :| 0 <= x < |s.pcs| && s.pcs[x].Evaluated? {
      NobodyThere(s.pcs, MutationHolder());
      w := x;
    } else if x :| 0 <= x < |s.pcs| && s.pcs[x].Queued? {
      NobodyThere(s.pcs, LockHolder(c, c.workers[x].signature));
      w := x;
    } else {
      NobodyThere(s.pcs, PermitHolder(c, c.workers[unfinished].portal));
      w := unfinished;
    }
  }

  /** How many steps a worker has at most before it. */
  function Rank(pc: Pc, alerts: nat): nat {
    match pc
    case Waiting => 3 * alerts + 5
    case Queued => 3 * alerts + 4
    case Resolving => 3 * alerts + 3
    case Leaving(_) => 3 * alerts + 2
    case Evaluating(k) => if k <= alerts then 3 * (alerts - k) + 1 else 1
    case Evaluated(k) => if k < alerts then 3 * (alerts - k) else 0
    case Persisting(k) => if k < alerts then 3 * (alerts - k) - 1 else 0
    case Recording => 1
    case Finished => 0
  }

  function Ranks(workers: seq<Worker>, pcs: seq<Pc>): nat
    requires |pcs| == |workers|
  {
    if pcs == [] then 0 else Rank(pcs[0], workers[0].alerts) + Ranks(workers[1..], pcs[1..])
  }

  lemma {:induction false} RanksUpdated(workers: seq<Worker>, pcs: seq<Pc>, w: nat, pc: Pc)
    requires |pcs| == |workers| && w < |pcs|
    ensures Ranks(workers, pcs[w := pc]) + Rank(pcs[w], workers[w].alerts)
            == Ranks(workers, pcs) + Rank(pc, workers[w].alerts)
  {
    hide Rank;
    if w == 0 {
      assert pcs[w := pc][1..] == pcs[1..];
    } else {
      assert pcs[w := pc][1..] == pcs[1..][w - 1 := pc];
      RanksUpdated(workers[1..], pcs[1..], w - 1, pc);
    }
  }

  lemma StepDescends(c: Config, s: State, w: nat, ending: Ending)
    requires Inv(c, s) && w < |c.workers| && Next(c, s, w, ending).Some?
    ensures Shaped(c, Next(c, s, w, ending).value)
    ensures Ranks(c.workers, Next(c, s, w, ending).value.pcs) < Ranks(c.workers, s.pcs)
  {
    hide Where, Ranks, Rank, Next, PermitHolder, LockHolder, MutationHolder;
    var t := Next(c, s, w, ending).value;
    StepMoves(c, s, w, ending);
    OneRankDescends(c, s, w, ending);
    RanksUpdated(c.workers, s.pcs, w, t.pcs[w]);
  }

  lemma OneRankDescends(c: Config, s: State, w: nat, ending: Ending)
    requires Shaped(c, s) && w < |c.workers| && Next(c, s, w, ending).Some?
    requires InRange(s.pcs[w], c.workers[w].alerts)
    ensures |Next(c, s, w, ending).value.pcs| == |s.pcs|
    ensures var alerts := c.workers[w].alerts;
            Rank(Next(c, s, w, ending).value.pcs[w], alerts) < Rank(s.pcs[w], alerts)
  {
  }

  /** No cycle goes on for ever: a run has no more turns than its workers have steps. */
  lemma {:induction false} RunsAreBounded(c: Config, turns: seq<Turn>)
    requires Ran(c, turns).Some?
    ensures |turns| + Ranks(c.workers, Ran(c, turns).value.pcs) <= Ranks(c.workers, Initial(c).pcs)
  {
    hide Inv, Next, Ranks;
    if turns == [] {
    } else {
      var earlier, turn := turns[..|turns| - 1], turns[|turns| - 1];
      RunsAreBounded(c, earlier);
      EveryRunKeepsInv(c, earlier);
      StepDescends(c, Ran(c, earlier).value, turn.worker, turn.ending);
    }
  }

  /** Nobody can take a turn. */
  ghost predicate IsStuck(c: Config, s: State)
    requires Shaped(c, s)
  {
    forall w :: 0 <= w < |c.workers| ==> !CanStep(c, s, w)
  }

  /** All workers have finished, and everything they took is back. */
  ghost predicate IsOver(c: Config, s: State)
    requires Shaped(c, s)
  {
    && (forall w :: 0 <= w < |c.workers| ==> s.pcs[w] == Finished)
    && (forall worker :: worker in c.workers && worker.portal in s.permits ==>
          s.permits[worker.portal] == c.limit(worker.portal))
    && (forall worker :: worker in c.workers && worker.signature in s.locked ==> !s.locked[worker.signature])
    && !s.mutating
  }

  lemma StuckIsOver(c: Config, s: State)
    requires Inv(c, s) && IsStuck(c, s) && (forall worker :: worker in c.workers ==> 1 <= c.limit(worker.portal))
    ensures IsOver(c, s)
  {
    forall w | 0 <= w < |c.workers|
      ensures s.pcs[w] == Finished
    {
      if s.pcs[w] != Finished {
        var x := SomebodyCanStep(c, s, w);
        assert false;
      }
    }
    hide Where, CanStep;
    forall worker | worker in c.workers && worker.portal in s.permits
      ensures s.permits[worker.portal] == c.limit(worker.portal)
    {
      NobodyThere(s.pcs, PermitHolder(c, worker.portal));
    }
    forall worker | worker in c.workers && worker.signature in s.locked
      ensures !s.locked[worker.signature]
    {
      NobodyThere(s.pcs, LockHolder(c, worker.signature));
    }
    NobodyThere(s.pcs, MutationHolder());
  }

  /** A portal that admits nobody keeps its workers waiting for ever. */
  lemma {:induction false} NoPermitNoStart(c: Config, turns: seq<Turn>, w: nat)
    requires Ran(c, turns).Some? && w < |c.workers| && c.limit(c.workers[w].portal) == 0
    ensures Ran(c, turns).value.pcs[w] == Waiting
  {
    if turns == [] {
    } else {
      hide Where, PermitHolder, LockHolder, MutationHolder;
      var earlier, turn := turns[..|turns| - 1], turns[|turns| - 1];
      NoPermitNoStart(c, earlier, w);
      EveryRunKeepsInv(c, earlier);
      StepMoves(c, Ran(c, earlier).value, turn.worker, turn.ending);
    }
  }

  lemma AdmittingCycleEnds(c: Config, turns: seq<Turn>)
    requires forall worker :: worker in c.workers ==> 1 <= c.limit(worker.portal)
    requires Ran(c, turns).Some? && IsStuck(c, Ran(c, turns).value)
    ensures IsOver(c, Ran(c, turns).value)
  {
    hide Inv, Ran, IsStuck, IsOver;
    EveryRunKeepsInv(c, turns);
    StuckIsOver(c, Ran(c, turns).value);
  }

  lemma BlockedCycleStarves(c: Config, w: nat) returns (turns: seq<Turn>)
    requires w < |c.workers| && c.limit(c.workers[w].portal) == 0
    ensures Ran(c, turns).Some? && IsStuck(c, Ran(c, turns).value) && !IsOver(c, Ran(c, turns).value)
  {
    hide Inv, Ran, IsStuck;
    NothingRan(c);
    turns := LastRun(c, []);
    NoPermitNoStart(c, turns, w);
  }

  /** The run cannot be continued, and yet some worker is unfinished or something is not given back. */
  ghost predicate IsDeadlock(c: Config, turns: seq<Turn>) {
    Ran(c, turns).Some? && IsStuck(c, Ran(c, turns).value) && !IsOver(c, Ran(c, turns).value)
  }

  /**
  Every run that nobody can continue has finished all workers and returned every permit and lock,
  exactly when every portal of the cycle admits at least one worker.
  */
  lemma NoDeadlockIffPortalsAdmit(c: Config)
    ensures (forall worker :: worker in c.workers ==> 1 <= c.limit(worker.portal))
            <==> (forall turns :: !IsDeadlock(c, turns))
  {
    hide Inv, Next, Ran, IsStuck, IsOver;
    if forall worker :: worker in c.workers ==> 1 <= c.limit(worker.portal) {
      forall turns
        ensures !IsDeadlock(c, turns)
      {
        if IsDeadlock(c, turns) {
          AdmittingCycleEnds(c, turns);
        }
      }
    } else {
      var w :| 0 <= w < |c.workers| && c.limit(c.workers[w].portal) == 0;
      var turns := BlockedCycleStarves(c, w);
      assert IsDeadlock(c, turns);
    }
  }

  /** Some run reaches a state in which nobody can step. */
  lemma LastRun(c: Config, turns: seq<Turn>) returns (longest: seq<Turn>)
    requires Ran(c, turns).Some?
    ensures Ran(c, longest).Some? && IsStuck(c, Ran(c, longest).value)
    decreases Ranks(c.workers, Ran(c, turns).value.pcs)
  {
    hide Inv, Next, Ranks;
    var s := Ran(c, turns).value;
    if w :| 0 <= w < |c.workers| && CanStep(c, s, w) {
      var longer := turns + [Turn(w, Answered)];
      assert longer[..|longer| - 1] == turns;
      EveryRunKeepsInv(c, turns);
      StepDescends(c, s, w, Answered);
      longest := LastRun(c, longer);
    } else {
      longest := turns;
    }
  }

  lemma NothingRan(c: Config)
    ensures Ran(c, []) == Some(Initial(c))
  {
  }

  // ----- What a worker has done when it is through

  const STORING: Pc -> bool := (pc: Pc) => pc.Persisting?
  const RECORDING: Pc -> bool := (pc: Pc) => pc.Recording?

  /** How many of a worker's turns were taken from a place like this. */
  function TurnsAt(c: Config, turns: seq<Turn>, w: nat, at: Pc -> bool): nat {
    if turns == [] then 0
    else
      var earlier, turn := turns[..|turns| - 1], turns[|turns| - 1];
      var before := Ran(c, earlier);
      TurnsAt(c, earlier, w, at)
      + if turn.worker == w && before.Some? && w < |c.workers| && at(before.value.pcs[w]) then 1 else 0
  }

  /** Whatever the worker's turns do, they end this way. */
  predicate AllEnd(turns: seq<Turn>, w: nat, ending: Ending) {
    forall turn :: turn in turns && turn.worker == w ==> turn.ending == ending
  }

  /** How many alerts a worker that meets no error has stored, by its place. */
  predicate HasStored(pc: Pc, alerts: nat, stored: nat) {
    match pc
    case Evaluating(k) => stored == k <= alerts
    case Evaluated(k) => stored == k < alerts
    case Persisting(k) => stored == k < alerts
    case Finished => stored == alerts
    case Recording => false
    case Leaving(ending) => ending.Answered? && stored == 0
    case _ => stored == 0
  }

  lemma StoringStep(c: Config, s: State, x: nat, ending: Ending, w: nat, stored: nat)
    requires Shaped(c, s) && x < |c.workers| && w < |c.workers| && Next(c, s, x, ending).Some?
    requires HasStored(s.pcs[w], c.workers[w].alerts, stored) && (x == w ==> ending == Answered)
    ensures |Next(c, s, x, ending).value.pcs| == |s.pcs|
    ensures HasStored(Next(c, s, x, ending).value.pcs[w], c.workers[w].alerts,
                      stored + if x == w && s.pcs[w].Persisting? then 1 else 0)
  {
  }

  lemma {:induction false} StoringFollowsThePlace(c: Config, turns: seq<Turn>, w: nat)
    requires Ran(c, turns).Some? && w < |c.workers| && AllEnd(turns, w, Answered)
    ensures HasStored(Ran(c, turns).value.pcs[w], c.workers[w].alerts, TurnsAt(c, turns, w, STORING))
  {
    if turns == [] {
    } else {
      var earlier, turn := turns[..|turns| - 1], turns[|turns| - 1];
      assert turn in turns && forall t :: t in earlier ==> t in turns;
      StoringFollowsThePlace(c, earlier, w);
      hide Next, HasStored;
      StoringStep(c, Ran(c, earlier).value, turn.worker, turn.ending, w, TurnsAt(c, earlier, w, STORING));
    }
  }

  /** A worker that has its candidates and meets no error stores the matches of each of its alerts once. */
  lemma FinishedWorkersStoredEveryAlert(c: Config, turns: seq<Turn>, w: nat)
    requires Ran(c, turns).Some? && w < |c.workers| && AllEnd(turns, w, Answered)
    requires Ran(c, turns).value.pcs[w] == Finished
    ensures TurnsAt(c, turns, w, STORING) == c.workers[w].alerts
    ensures TurnsAt(c, turns, w, RECORDING) == 0
  {
    StoringFollowsThePlace(c, turns, w);
    NothingIsRecorded(c, turns, w);
  }

  lemma {:induction false} NothingIsRecorded(c: Config, turns: seq<Turn>, w: nat)
    requires Ran(c, turns).Some? && w < |c.workers| && AllEnd(turns, w, Answered)
    ensures TurnsAt(c, turns, w, RECORDING) == 0
  {
    hide Next;
    if turns == [] {
    } else {
      var earlier, turn := turns[..|turns| - 1], turns[|turns| - 1];
      assert turn in turns && forall t :: t in earlier ==> t in turns;
      NothingIsRecorded(c, earlier, w);
      StoringFollowsThePlace(c, earlier, w);
    }
  }

  /** How often a worker without an answer has recorded its failure, by its place. */
  predicate HasRecorded(pc: Pc, recorded: nat) {
    match pc
    case Finished => recorded == 1
    case Leaving(ending) => ending.Unanswered? && recorded == 0
    case Waiting => recorded == 0
    case Queued => recorded == 0
    case Resolving => recorded == 0
    case Recording => recorded == 0
    case _ => false
  }

  lemma RecordingStep(c: Config, s: State, x: nat, ending: Ending, w: nat, recorded: nat)
    requires Shaped(c, s) && x < |c.workers| && w < |c.workers| && Next(c, s, x, ending).Some?
    requires HasRecorded(s.pcs[w], recorded) && (x == w ==> ending == Unanswered)
    ensures |Next(c, s, x, ending).value.pcs| == |s.pcs| && !s.pcs[w].Persisting?
    ensures HasRecorded(Next(c, s, x, ending).value.pcs[w],
                        recorded + if x == w && s.pcs[w].Recording? then 1 else 0)
  {
  }

  /** A worker whose portal does not answer records that once, and stores nothing. */
  lemma {:induction false} UnansweredWorkersRecordOnce(c: Config, turns: seq<Turn>, w: nat)
    requires Ran(c, turns).Some? && w < |c.workers| && AllEnd(turns, w, Unanswered)
    ensures HasRecorded(Ran(c, turns).value.pcs[w], TurnsAt(c, turns, w, RECORDING))
    ensures TurnsAt(c, turns, w, STORING) == 0
  {
    if turns == [] {
    } else {
      var earlier, turn := turns[..|turns| - 1], turns[|turns| - 1];
      assert turn in turns && forall t :: t in earlier ==> t in turns;
      UnansweredWorkersRecordOnce(c, earlier, w);
      hide Next, HasRecorded;
      RecordingStep(c, Ran(c, earlier).value, turn.worker, turn.ending, w, TurnsAt(c, earlier, w, RECORDING));
    }
  }

  /** Where nothing but a raised error can have brought the worker. */
  predicate HasGivenUp(pc: Pc) {
    pc.Finished? || pc == Leaving(Raised)
  }

  lemma RaisingGivesUp(c: Config, s: State, w: nat)
    requires Shaped(c, s) && w < |c.workers| && Next(c, s, w, Raised).Some?
    requires s.pcs[w].Resolving? || s.pcs[w].Evaluating? || s.pcs[w].Persisting?
    ensures |Next(c, s, w, Raised).value.pcs| == |s.pcs| && HasGivenUp(Next(c, s, w, Raised).value.pcs[w])
  {
  }

  lemma GivingUpStays(c: Config, s: State, x: nat, ending: Ending, w: nat)
    requires Shaped(c, s) && x < |c.workers| && w < |c.workers| && Next(c, s, x, ending).Some?
    requires HasGivenUp(s.pcs[w])
    ensures |Next(c, s, x, ending).value.pcs| == |s.pcs| && HasGivenUp(Next(c, s, x, ending).value.pcs[w])
  {
  }

  /**
  An error that a worker raises, while it resolves, evaluates or stores, is the end of it: it gives its
  permit back, and neither stores nor records anything any more.
  */
  lemma {:induction false} RaisingIsTheEnd(c: Config, turns: seq<Turn>, k: nat, w: nat)
    requires k < |turns| && Ran(c, turns).Some? && turns[k] == Turn(w, Raised) && w < |c.workers|
    requires var before := Ran(c, turns[..k]);
             before.Some? && var pc := before.value.pcs[w]; pc.Resolving? || pc.Evaluating? || pc.Persisting?
    ensures HasGivenUp(Ran(c, turns).value.pcs[w])
    ensures TurnsAt(c, turns, w, RECORDING) == TurnsAt(c, turns[..k + 1], w, RECORDING)
    ensures TurnsAt(c, turns, w, STORING) == TurnsAt(c, turns[..k + 1], w, STORING)
  {
    hide Next;
    var n := |turns| - 1;
    var earlier, turn := turns[..n], turns[n];
    assert turns[..n + 1] == turns;
    if k < n {
      assert earlier[..k] == turns[..k] && earlier[..k + 1] == turns[..k + 1];
      RaisingIsTheEnd(c, earlier, k, w);
      GivingUpStays(c, Ran(c, earlier).value, turn.worker, turn.ending, w);
    } else {
      RaisingGivesUp(c, Ran(c, earlier).value, w);
    }
  }
}
