/**
 The daemon's weighted fair queue: six priority lanes with credits and a cursor, and inside a lane
 round-robin over sessions. The classes hold the state the daemon updates in place; the functions on
 `Lane` and `Queue` values say what each operation does, and the lemmas are about those functions.
 */
module FairQueue {
  import opened Base
  import opened TaskGraph

  datatype ScheduledJob = ScheduledJob(owner: string, jobId: string, priority: JobPriority, deadline: Option<u64>)

  const LANES: nat := 6

  const WEIGHTS: seq<u8> := [8, 6, 4, 3, 2, 1]

  function PriorityIndex(p: JobPriority): (i: nat)
    ensures i < LANES
  {
    Rank(p)
  }

  // ----- A lane as a value -----

  datatype Lane = Lane(sessions: map<string, seq<ScheduledJob>>, order: seq<string>)

  /** `order` lists exactly the sessions with queued jobs, once each; every job sits under its owner. */
  ghost predicate ValidLane(lane: Lane) {
    && NoDuplicates(lane.order)
    && (forall o :: o in lane.order <==> o in lane.sessions)
    && (forall o | o in lane.sessions :: lane.sessions[o] != [])
    && (forall o, j | o in lane.sessions && j in lane.sessions[o] :: j.owner == o)
  }

  function Queued(lane: Lane, owner: string): seq<ScheduledJob> {
    if owner in lane.sessions then lane.sessions[owner] else []
  }

  function LanePush(lane: Lane, job: ScheduledJob): Lane {
    Lane(lane.sessions[job.owner := Queued(lane, job.owner) + [job]],
         if job.owner in lane.sessions then lane.order else lane.order + [job.owner])
  }

  function LanePop(lane: Lane): Lane
    requires lane.order != [] && lane.order[0] in lane.sessions && lane.sessions[lane.order[0]] != []
  {
    var owner := lane.order[0];
    var rest := lane.sessions[owner][1..];
    if rest != [] then Lane(lane.sessions[owner := rest], lane.order[1..] + [owner])
    else Lane(lane.sessions - {owner}, lane.order[1..])
  }

  function LaneHead(lane: Lane): ScheduledJob
    requires lane.order != [] && lane.order[0] in lane.sessions && lane.sessions[lane.order[0]] != []
  {
    lane.sessions[lane.order[0]][0]
  }

  lemma {:induction false} LanePushValid(lane: Lane, job: ScheduledJob)
    requires ValidLane(lane)
    ensures ValidLane(LanePush(lane, job))
    ensures forall o :: Queued(LanePush(lane, job), o) == Queued(lane, o) + if o == job.owner then [job] else []
  {
    var lane' := LanePush(lane, job);
    if job.owner !in lane.sessions {
      ConcatNoDuplicates(lane.order, [job.owner]);
    }
    forall o, j | o in lane'.sessions && j in lane'.sessions[o] ensures j.owner == o {
      if o == job.owner {
        assert j in Queued(lane, o) || j == job;
      }
    }
  }

  lemma {:induction false} LanePopQueues(lane: Lane)
    requires ValidLane(lane) && lane.order != []
    ensures lane.order[0] in lane.sessions && lane.sessions[lane.order[0]] != []
    ensures LaneHead(lane).owner == lane.order[0]
    ensures forall o ::
              Queued(lane, o) == (if o == lane.order[0] then [LaneHead(lane)] else []) + Queued(LanePop(lane), o)
  {
    var owner := lane.order[0];
    assert owner in lane.order;
    assert lane.sessions[owner] == [LaneHead(lane)] + lane.sessions[owner][1..];
    assert LaneHead(lane) in lane.sessions[owner];
  }

  lemma {:induction false} LanePopOrder(lane: Lane)
    requires ValidLane(lane) && lane.order != []
    requires lane.order[0] in lane.sessions && lane.sessions[lane.order[0]] != []
    ensures NoDuplicates(LanePop(lane).order)
    ensures forall o :: o in LanePop(lane).order <==> o in LanePop(lane).sessions
  {
    var owner, rest := lane.order[0], lane.order[1..];
    assert lane.order == [owner] + rest;
    assert owner !in rest;
    assert forall o :: o in rest <==> o in lane.order && o != owner;
    ConcatNoDuplicates(rest, [owner]);
  }

  lemma {:induction false} LanePopValid(lane: Lane)
    requires ValidLane(lane) && lane.order != []
    ensures lane.order[0] in lane.sessions && lane.sessions[lane.order[0]] != []
    ensures ValidLane(LanePop(lane))
  {
    LanePopQueues(lane);
    LanePopOrder(lane);
    var lane' := LanePop(lane);
    forall o, j | o in lane'.sessions && j in lane'.sessions[o] ensures j.owner == o {
      assert j in lane.sessions[o];
    }
  }

  // ----- The queue as a value -----

  datatype Queue = Queue(lanes: seq<Lane>, credits: seq<u8>, cursor: nat, len: nat)

  predicate AllZero(credits: seq<u8>) {
    forall i | 0 <= i < |credits| :: credits[i] == 0
  }

  /**
   Credits before the cursor are spent and credits after it are full; the lane at the cursor still
   has credit, except that with everything spent the cursor is back at the first lane.
   */
  ghost predicate ValidCredits(credits: seq<u8>, cursor: nat) {
    && |credits| == LANES && cursor < LANES
    && (forall i | 0 <= i < LANES :: credits[i] <= WEIGHTS[i])
    && (forall i | 0 <= i < cursor :: credits[i] == 0)
    && if credits[cursor] > 0 then forall i | cursor < i < LANES :: credits[i] == WEIGHTS[i]
       else cursor == 0 && AllZero(credits)
  }

  ghost predicate OfPriority(lane: Lane, p: nat) {
    forall o, j | o in lane.sessions && j in lane.sessions[o] :: PriorityIndex(j.priority) == p
  }

  ghost predicate ValidLanes(lanes: seq<Lane>) {
    && |lanes| == LANES
    && forall p | 0 <= p < LANES :: ValidLane(lanes[p]) && OfPriority(lanes[p], p)
  }

  ghost predicate ValidQueue(q: Queue) {
    ValidLanes(q.lanes) && ValidCredits(q.credits, q.cursor) && q.len == Total(q.lanes)
  }

  /** Number of jobs in a lane, and in all lanes. */
  ghost function LaneSize(sessions: map<string, seq<ScheduledJob>>, order: seq<string>): nat {
    if order == [] then 0
    else (if order[0] in sessions then |sessions[order[0]]| else 0) + LaneSize(sessions, order[1..])
  }

  ghost function Total(lanes: seq<Lane>): nat {
    if lanes == [] then 0 else LaneSize(lanes[0].sessions, lanes[0].order) + Total(lanes[1..])
  }

  function QueuePush(q: Queue, job: ScheduledJob): Queue
    requires |q.lanes| == LANES
  {
    var p := PriorityIndex(job.priority);
    q.(lanes := q.lanes[p := LanePush(q.lanes[p], job)], len := q.len + 1)
  }

  function Next(cursor: nat): (r: nat)
    requires cursor < LANES
    ensures r == if cursor == LANES - 1 then 0 else cursor + 1
  {
    (cursor + 1) % LANES
  }

  /** The reset at the top of the pop loop. */
  function Refill(q: Queue): Queue {
    if AllZero(q.credits) then q.(credits := WEIGHTS, cursor := 0) else q
  }

  predicate Skips(q: Queue)
    requires |q.lanes| == LANES && |q.credits| == LANES && q.cursor < LANES
  {
    q.credits[q.cursor] == 0 || q.lanes[q.cursor].order == []
  }

  function Skip(q: Queue): Queue
    requires |q.credits| == LANES && q.cursor < LANES
  {
    q.(credits := q.credits[q.cursor := 0], cursor := Next(q.cursor))
  }

  function Serve(q: Queue): Queue
    requires |q.lanes| == LANES && |q.credits| == LANES && q.cursor < LANES
    requires ValidLane(q.lanes[q.cursor]) && q.lanes[q.cursor].order != [] && q.credits[q.cursor] > 0 && q.len > 0
  {
    LanePopValid(q.lanes[q.cursor]);
    var left := q.credits[q.cursor] - 1;
    Queue(q.lanes[q.cursor := LanePop(q.lanes[q.cursor])],
          q.credits[q.cursor := left],
          if left == 0 then Next(q.cursor) else q.cursor,
          q.len - 1)
  }

  // ----- Sizes -----

  lemma {:induction false} LaneSizeAgrees(a: map<string, seq<ScheduledJob>>, b: map<string, seq<ScheduledJob>>,
                                          order: seq<string>)
    requires forall o | o in order :: (o in a <==> o in b) && (o in a ==> a[o] == b[o])
    ensures LaneSize(a, order) == LaneSize(b, order)
  {
    if order != [] {
      assert order[0] in order && forall o | o in order[1..] :: o in order;
      LaneSizeAgrees(a, b, order[1..]);
    }
  }

  lemma {:induction false} LaneSizeSnoc(sessions: map<string, seq<ScheduledJob>>, order: seq<string>, o: string)
    ensures LaneSize(sessions, order + [o]) == LaneSize(sessions, order) + if o in sessions then |sessions[o]| else 0
  {
    if order == [] {
      assert order + [o] == [o];
      assert LaneSize(sessions, [o][1..]) == 0;
    } else {
      assert (order + [o])[1..] == order[1..] + [o];
      LaneSizeSnoc(sessions, order[1..], o);
    }
  }

  lemma {:induction false} LaneSizeUpdate(sessions: map<string, seq<ScheduledJob>>, order: seq<string>, o: string,
                                          queue: seq<ScheduledJob>)
    requires NoDuplicates(order) && o in order && o in sessions
    ensures LaneSize(sessions[o := queue], order) + |sessions[o]| == LaneSize(sessions, order) + |queue|
  {
    assert order == [order[0]] + order[1..];
    if order[0] == o {
      assert o !in order[1..];
      LaneSizeAgrees(sessions, sessions[o := queue], order[1..]);
    } else {
      LaneSizeUpdate(sessions, order[1..], o, queue);
    }
  }

  lemma {:induction false} LanePushSize(lane: Lane, job: ScheduledJob)
    requires ValidLane(lane)
    ensures LaneSize(LanePush(lane, job).sessions, LanePush(lane, job).order) == LaneSize(lane.sessions, lane.order) + 1
  {
    var lane' := LanePush(lane, job);
    if job.owner in lane.sessions {
      LaneSizeUpdate(lane.sessions, lane.order, job.owner, lane.sessions[job.owner] + [job]);
    } else {
      LaneSizeAgrees(lane.sessions, lane'.sessions, lane.order);
      LaneSizeSnoc(lane'.sessions, lane.order, job.owner);
    }
  }

  lemma {:induction false} LanePopSize(lane: Lane)
    requires ValidLane(lane) && lane.order != []
    requires lane.order[0] in lane.sessions && lane.sessions[lane.order[0]] != []
    ensures LaneSize(LanePop(lane).sessions, LanePop(lane).order) + 1 == LaneSize(lane.sessions, lane.order)
  {
    var owner, lane' := lane.order[0], LanePop(lane);
    assert lane.order == [owner] + lane.order[1..];
    assert owner !in lane.order[1..];
    LaneSizeAgrees(lane.sessions, lane'.sessions, lane.order[1..]);
    if lane.sessions[owner][1..] != [] {
      LaneSizeSnoc(lane'.sessions, lane.order[1..], owner);
    }
  }

  lemma {:induction false} TotalUpdate(lanes: seq<Lane>, p: nat, lane: Lane)
    requires p < |lanes|
    ensures Total(lanes[p := lane]) + LaneSize(lanes[p].sessions, lanes[p].order)
            == Total(lanes) + LaneSize(lane.sessions, lane.order)
  {
    if p == 0 {
      assert lanes[p := lane][1..] == lanes[1..];
    } else {
      assert lanes[p := lane][1..] == lanes[1..][p - 1 := lane];
      TotalUpdate(lanes[1..], p - 1, lane);
    }
  }

  lemma {:induction false} SomeLaneHasJobs(lanes: seq<Lane>) returns (p: nat)
    requires Total(lanes) > 0
    ensures p < |lanes| && lanes[p].order != []
  {
    if lanes[0].order != [] {
      p := 0;
    } else {
      p := SomeLaneHasJobs(lanes[1..]);
      p := p + 1;
    }
  }

  lemma {:induction false} EmptyTotal(lanes: seq<Lane>, p: nat)
    requires Total(lanes) == 0 && p < |lanes| && ValidLane(lanes[p])
    ensures lanes[p].order == [] && forall o :: Queued(lanes[p], o) == []
  {
    if p == 0 {
      assert lanes[0].order == [];
    } else {
      EmptyTotal(lanes[1..], p - 1);
    }
  }

  // ----- pop -----

  /** A nonempty lane with credit is still ahead in this cycle. */
  ghost predicate Servable(q: Queue)
    requires |q.lanes| == LANES && |q.credits| == LANES
  {
    exists p :: 0 <= p < LANES && q.credits[p] > 0 && q.lanes[p].order != []
  }

  /** Turns the pop loop can still take. */
  ghost function Turns(q: Queue): nat
    requires |q.lanes| == LANES && ValidCredits(q.credits, q.cursor)
  {
    if Servable(q) then LANES - q.cursor
    else if AllZero(q.credits) then LANES + 1
    else 2 * LANES + 2 - q.cursor
  }

  lemma {:induction false} RefillValid(q: Queue)
    requires ValidQueue(q) && q.len > 0
    ensures ValidQueue(Refill(q)) && Refill(q).credits[Refill(q).cursor] > 0
    ensures AllZero(q.credits) ==> Servable(Refill(q))
  {
    if AllZero(q.credits) {
      var p := SomeLaneHasJobs(q.lanes);
      assert Refill(q).credits[p] > 0;
    }
  }

  lemma {:induction false} SkipTurns(q: Queue)
    requires |q.lanes| == LANES && ValidCredits(q.credits, q.cursor)
    requires q.credits[q.cursor] > 0 && q.lanes[q.cursor].order == []
    ensures ValidCredits(Skip(q).credits, Skip(q).cursor)
    ensures Turns(Skip(q)) < Turns(q)
  {
    var q' := Skip(q);
    if q.cursor == LANES - 1 {
      assert AllZero(q'.credits);
    } else {
      assert q'.credits[q.cursor + 1] > 0;
    }
    if p :| 0 <= p < LANES && q.credits[p] > 0 && q.lanes[p].order != [] {
      assert p > q.cursor && q'.credits[p] > 0 && Servable(q');
    } else {
      assert forall p | 0 <= p < LANES && q'.credits[p] > 0 :: q.credits[p] > 0;
    }
  }

  lemma {:induction false} SkipValid(q: Queue)
    requires ValidQueue(q) && q.len > 0 && q.credits[q.cursor] > 0 && Skips(q)
    ensures ValidQueue(Skip(q))
    ensures Turns(Skip(q)) < Turns(q)
  {
    SkipTurns(q);
  }

  lemma {:induction false} ServeCredits(credits: seq<u8>, cursor: nat)
    requires ValidCredits(credits, cursor) && credits[cursor] > 0
    ensures var left := credits[cursor] - 1;
      ValidCredits(credits[cursor := left], if left == 0 then Next(cursor) else cursor)
  {
    var left := credits[cursor] - 1;
    if left == 0 && cursor < LANES - 1 {
      assert credits[cursor + 1] == WEIGHTS[cursor + 1];
    }
  }

  lemma {:induction false} LanePopPriority(lane: Lane, p: nat)
    requires ValidLane(lane) && OfPriority(lane, p) && lane.order != []
    ensures lane.order[0] in lane.sessions && lane.sessions[lane.order[0]] != []
    ensures OfPriority(LanePop(lane), p) && PriorityIndex(LaneHead(lane).priority) == p
  {
    LanePopValid(lane);
    var lane' := LanePop(lane);
    forall o, j | o in lane'.sessions && j in lane'.sessions[o] ensures PriorityIndex(j.priority) == p {
      assert j in lane.sessions[o];
    }
  }

  lemma {:induction false} ServeValid(q: Queue)
    requires ValidQueue(q) && q.len > 0 && !Skips(q)
    ensures ValidQueue(Serve(q))
    ensures PriorityIndex(LaneHead(q.lanes[q.cursor]).priority) == q.cursor
  {
    var lane := q.lanes[q.cursor];
    LanePopValid(lane);
    LanePopQueues(lane);
    LanePopPriority(lane, q.cursor);
    LanePopSize(lane);
    TotalUpdate(q.lanes, q.cursor, LanePop(lane));
    ServeCredits(q.credits, q.cursor);
  }

  function TakeHead(q: Queue): Queue
    requires q.cursor < |q.lanes| && ValidLane(q.lanes[q.cursor]) && q.lanes[q.cursor].order != []
  {
    q.(lanes := q.lanes[q.cursor := LanePop(q.lanes[q.cursor])])
  }

  function Spent(q: Queue): Queue
    requires q.cursor < |q.credits| == LANES && q.credits[q.cursor] > 0 && q.len > 0
  {
    var left := q.credits[q.cursor] - 1;
    q.(credits := q.credits[q.cursor := left],
       cursor := if left == 0 then Next(q.cursor) else q.cursor,
       len := q.len - 1)
  }

  /** A turn taken part by part. */
  lemma {:induction false} ServedInParts(q: Queue)
    requires ValidQueue(q) && q.len > 0 && !Skips(q)
    ensures Spent(TakeHead(q)) == Serve(q) && ValidQueue(Serve(q))
  {
    ServeValid(q);
  }

  lemma {:induction false} LanePushPriority(lane: Lane, job: ScheduledJob)
    requires ValidLane(lane) && OfPriority(lane, PriorityIndex(job.priority))
    ensures OfPriority(LanePush(lane, job), PriorityIndex(job.priority))
  {
    var lane' := LanePush(lane, job);
    forall o, j | o in lane'.sessions && j in lane'.sessions[o]
      ensures PriorityIndex(j.priority) == PriorityIndex(job.priority) {
      assert j in Queued(lane, o) || j == job;
    }
  }

  lemma {:induction false} PushedQueue(q: Queue, job: ScheduledJob)
    requires |q.lanes| == LANES
    ensures var p := PriorityIndex(job.priority);
      QueuePush(q, job) == q.(lanes := q.lanes[p := LanePush(q.lanes[p], job)], len := q.len + 1)
  {
  }

  lemma {:induction false} PushValid(q: Queue, job: ScheduledJob)
    requires ValidQueue(q)
    ensures ValidQueue(QueuePush(q, job))
  {
    var p := PriorityIndex(job.priority);
    LanePushValid(q.lanes[p], job);
    LanePushPriority(q.lanes[p], job);
    LanePushSize(q.lanes[p], job);
    TotalUpdate(q.lanes, p, LanePush(q.lanes[p], job));
  }

  datatype Popped = Popped(queue: Queue, job: ScheduledJob, lane: nat)

  /** The pop loop: refill when everything is spent, skip lanes that cannot serve, serve the first that can. */
  function QueuePop(q: Queue): (r: Popped)
    requires ValidQueue(q) && q.len > 0
    ensures ValidQueue(r.queue) && r.queue.len == q.len - 1
    ensures r.lane < LANES && PriorityIndex(r.job.priority) == r.lane
    ensures q.lanes[r.lane].order != [] && r.job.owner == q.lanes[r.lane].order[0]
    ensures q.lanes[r.lane].order[0] in q.lanes[r.lane].sessions
    ensures q.lanes[r.lane].sessions[q.lanes[r.lane].order[0]] != []
    ensures r.job == LaneHead(q.lanes[r.lane])
    ensures r.queue.lanes == q.lanes[r.lane := LanePop(q.lanes[r.lane])]
    decreases Turns(q)
  {
    RefillValid(q);
    var q1 := Refill(q);
    if Skips(q1) then
      SkipValid(q1);
      RefillTurns(q);
      QueuePop(Skip(q1))
    else
      ServeValid(q1);
      LanePopQueues(q1.lanes[q1.cursor]);
      Popped(Serve(q1), LaneHead(q1.lanes[q1.cursor]), q1.cursor)
  }

  lemma {:induction false} RefillTurns(q: Queue)
    requires ValidQueue(q) && q.len > 0
    ensures ValidQueue(Refill(q)) && Turns(Refill(q)) <= Turns(q)
  {
    RefillValid(q);
  }

  // ----- How long a lane can wait -----

  ghost function Sum(a: seq<u8>, lo: nat, hi: nat): nat
    requires hi <= |a|
    decreases hi - lo
  {
    if lo >= hi then 0 else a[lo] + Sum(a, lo + 1, hi)
  }

  lemma {:induction false} SumAgrees(a: seq<u8>, b: seq<u8>, lo: nat, hi: nat)
    requires hi <= |a| == |b| && forall i | lo <= i < hi :: a[i] == b[i]
    ensures Sum(a, lo, hi) == Sum(b, lo, hi)
    decreases hi - lo
  {
    if lo < hi {
      SumAgrees(a, b, lo + 1, hi);
    }
  }

  lemma {:induction false} SumAtMost(a: seq<u8>, b: seq<u8>, lo: nat, hi: nat)
    requires hi <= |a| == |b| && forall i | lo <= i < hi :: a[i] <= b[i]
    ensures Sum(a, lo, hi) <= Sum(b, lo, hi)
    decreases hi - lo
  {
    if lo < hi {
      SumAtMost(a, b, lo + 1, hi);
    }
  }

  lemma {:induction false} SumSplit(a: seq<u8>, lo: nat, mid: nat, hi: nat)
    requires lo <= mid <= hi <= |a|
    ensures Sum(a, lo, hi) == Sum(a, lo, mid) + Sum(a, mid, hi)
    decreases mid - lo
  {
    if lo < mid {
      SumSplit(a, lo + 1, mid, hi);
    }
  }

  lemma {:induction false} SumZero(a: seq<u8>, lo: nat, hi: nat)
    requires hi <= |a| && forall i | lo <= i < hi :: a[i] == 0
    ensures Sum(a, lo, hi) == 0
    decreases hi - lo
  {
    if lo < hi {
      SumZero(a, lo + 1, hi);
    }
  }

  /** Pops that other lanes can still take before lane `p`, if `p` stays nonempty. */
  ghost function Ahead(credits: seq<u8>, cursor: nat, p: nat): nat
    requires |credits| == LANES && p < LANES
  {
    if credits[p] > 0 then Sum(credits, cursor, p) else Sum(credits, cursor, LANES) + Sum(WEIGHTS, 0, p)
  }

  lemma {:induction false} TotalWeight()
    ensures Sum(WEIGHTS, 0, LANES) == 24
  {
    assert Sum(WEIGHTS, 5, 6) == 1;
    assert Sum(WEIGHTS, 4, 6) == 3;
    assert Sum(WEIGHTS, 3, 6) == 6;
    assert Sum(WEIGHTS, 2, 6) == 10;
    assert Sum(WEIGHTS, 1, 6) == 16;
  }

  lemma {:induction false} AheadBound(credits: seq<u8>, cursor: nat, p: nat)
    requires ValidCredits(credits, cursor) && p < LANES
    ensures Ahead(credits, cursor, p) + WEIGHTS[p] <= 24
  {
    TotalWeight();
    SumSplit(WEIGHTS, 0, p, LANES);
    assert Sum(WEIGHTS, p, LANES) == WEIGHTS[p] + Sum(WEIGHTS, p + 1, LANES);
    if credits[p] > 0 {
      SumAtMost(credits, WEIGHTS, cursor, p);
      SumSplit(WEIGHTS, 0, cursor, p);
    } else if AllZero(credits) {
      SumZero(credits, cursor, LANES);
    } else {
      SumAtMost(credits, WEIGHTS, cursor, LANES);
      SumSplit(WEIGHTS, p + 1, cursor, LANES);
    }
  }

  lemma {:induction false} SkipAhead(credits: seq<u8>, cursor: nat, p: nat)
    requires ValidCredits(credits, cursor) && p < LANES && p != cursor && credits[cursor] > 0
    ensures Ahead(credits[cursor := 0], Next(cursor), p) <= Ahead(credits, cursor, p)
  {
    var credits' := credits[cursor := 0];
    if credits[p] > 0 {
      SumAgrees(credits, credits', cursor + 1, p);
    } else if cursor == LANES - 1 {
      SumZero(credits', 0, LANES);
    } else {
      SumAgrees(credits, credits', cursor + 1, LANES);
    }
  }

  /** Taking one unit of credit at `lo` takes one unit off the sum, wherever the sum then starts. */
  lemma {:induction false} SumSpend(credits: seq<u8>, lo: nat, hi: nat)
    requires lo < hi <= |credits| && credits[lo] > 0
    ensures Sum(credits[lo := credits[lo] - 1], lo, hi) + 1 == Sum(credits, lo, hi)
    ensures credits[lo] == 1 ==> Sum(credits[lo := credits[lo] - 1], lo + 1, hi) + 1 == Sum(credits, lo, hi)
  {
    SumAgrees(credits, credits[lo := credits[lo] - 1], lo + 1, hi);
  }

  lemma {:induction false} ServeAhead(credits: seq<u8>, cursor: nat, p: nat)
    requires ValidCredits(credits, cursor) && p < LANES && p != cursor && credits[cursor] > 0
    ensures var left := credits[cursor] - 1;
      Ahead(credits[cursor := left], if left == 0 then Next(cursor) else cursor, p) + 1 <= Ahead(credits, cursor, p)
  {
    if credits[p] > 0 {
      assert cursor < p;
      SumSpend(credits, cursor, p);
    } else {
      SumSpend(credits, cursor, LANES);
      if cursor == LANES - 1 {
        SumZero(credits[cursor := 0], 0, LANES);
      }
    }
  }

  lemma {:induction false} RefillAhead(q: Queue, p: nat)
    requires ValidQueue(q) && p < LANES
    ensures Ahead(Refill(q).credits, Refill(q).cursor, p) <= Ahead(q.credits, q.cursor, p)
  {
    if AllZero(q.credits) {
      SumZero(q.credits, 0, LANES);
    }
  }

  /** Lane `p` was served, or it is as before with strictly fewer pops ahead of it. */
  ghost predicate Progress(lanes: seq<Lane>, ahead: nat, r: Popped, p: nat)
    requires p < |lanes|
  {
    || r.lane == p
    || (&& |r.queue.lanes| == LANES && |r.queue.credits| == LANES && p < LANES
        && r.queue.lanes[p] == lanes[p]
        && Ahead(r.queue.credits, r.queue.cursor, p) + 1 <= ahead)
  }

  lemma {:induction false} PopUnfolds(q: Queue)
    requires ValidQueue(q) && q.len > 0
    ensures ValidQueue(Refill(q)) && Refill(q).credits[Refill(q).cursor] > 0
    ensures Skips(Refill(q)) ==>
              ValidQueue(Skip(Refill(q))) && Turns(Skip(Refill(q))) < Turns(q)
              && QueuePop(q) == QueuePop(Skip(Refill(q)))
    ensures !Skips(Refill(q)) ==> QueuePop(q).queue == Serve(Refill(q)) && QueuePop(q).lane == Refill(q).cursor
  {
    RefillValid(q);
    RefillTurns(q);
    if Skips(Refill(q)) {
      SkipValid(Refill(q));
    }
  }

  lemma {:induction false} SkipProgress(q: Queue, p: nat)
    requires ValidQueue(q) && p < LANES && q.lanes[p].order != [] && q.credits[q.cursor] > 0 && Skips(q)
    ensures Ahead(Skip(q).credits, Skip(q).cursor, p) <= Ahead(q.credits, q.cursor, p)
  {
    SkipAhead(q.credits, q.cursor, p);
  }

  lemma {:induction false} ServeProgress(q: Queue, p: nat, r: Popped)
    requires ValidQueue(q) && q.len > 0 && p < LANES && !Skips(q)
    requires r.queue == Serve(q) && r.lane == q.cursor
    ensures Progress(q.lanes, Ahead(q.credits, q.cursor, p), r, p)
  {
    if q.cursor != p {
      ServeAhead(q.credits, q.cursor, p);
    }
  }

  lemma {:induction false} PopProgress(q: Queue, p: nat)
    requires ValidQueue(q) && q.len > 0 && p < LANES && q.lanes[p].order != []
    ensures Progress(q.lanes, Ahead(q.credits, q.cursor, p), QueuePop(q), p)
    decreases Turns(q)
  {
    PopUnfolds(q);
    RefillAhead(q, p);
    if Skips(Refill(q)) {
      SkipProgress(Refill(q), p);
      PopProgress(Skip(Refill(q)), p);
    } else {
      ServeProgress(Refill(q), p, QueuePop(q));
    }
  }

  // ----- Runs -----

  datatype Op = PushOp(job: ScheduledJob) | PopOp

  /** A whole run: the jobs popped, in order, and the queue left behind. */
  function Run(q: Queue, ops: seq<Op>): (r: (seq<ScheduledJob>, Queue))
    requires ValidQueue(q)
    ensures ValidQueue(r.1)
    decreases |ops|
  {
    if ops == [] then ([], q)
    else if ops[0].PushOp? then
      PushValid(q, ops[0].job);
      Run(QueuePush(q, ops[0].job), ops[1..])
    else if q.len == 0 then Run(q, ops[1..])
    else
      var first := QueuePop(q);
      var rest := Run(first.queue, ops[1..]);
      ([first.job] + rest.0, rest.1)
  }

  function Pops(ops: seq<Op>): nat {
    if ops == [] then 0 else (if ops[0].PopOp? then 1 else 0) + Pops(ops[1..])
  }

  /** The oldest job of the session at place `k` of lane `p`. */
  function HeadOf(q: Queue, p: nat, k: nat): ScheduledJob
    requires p < |q.lanes| && k < |q.lanes[p].order|
    requires q.lanes[p].order[k] in q.lanes[p].sessions && q.lanes[p].sessions[q.lanes[p].order[k]] != []
  {
    q.lanes[p].sessions[q.lanes[p].order[k]][0]
  }

  ghost predicate HasHead(q: Queue, p: nat, k: nat) {
    && p < LANES && p < |q.lanes| && k < |q.lanes[p].order|
    && q.lanes[p].order[k] in q.lanes[p].sessions && q.lanes[p].sessions[q.lanes[p].order[k]] != []
  }

  /** Pops within which the session at place `k` of lane `p` is served. */
  ghost function Patience(q: Queue, p: nat, k: nat): nat
    requires |q.credits| == LANES && p < LANES
  {
    k * (25 - WEIGHTS[p]) + Ahead(q.credits, q.cursor, p) + 1
  }

  lemma {:induction false} HeadsExist(q: Queue, p: nat, k: nat)
    requires ValidQueue(q) && p < LANES && k < |q.lanes[p].order|
    ensures HasHead(q, p, k) && q.len > 0
  {
    assert q.lanes[p].order[k] in q.lanes[p].order;
    if q.len == 0 {
      EmptyTotal(q.lanes, p);
    }
  }

  lemma {:induction false} PushKeepsHead(q: Queue, job: ScheduledJob, p: nat, k: nat)
    requires ValidQueue(q) && HasHead(q, p, k)
    ensures ValidQueue(QueuePush(q, job)) && HasHead(QueuePush(q, job), p, k)
    ensures HeadOf(QueuePush(q, job), p, k) == HeadOf(q, p, k)
  {
    PushValid(q, job);
  }

  lemma {:induction false} PopMovesHead(q: Queue, p: nat, k: nat)
    requires ValidQueue(q) && q.len > 0 && HasHead(q, p, k)
    ensures QueuePop(q).lane == p && k == 0 ==> QueuePop(q).job == HeadOf(q, p, k)
    ensures QueuePop(q).lane == p && k > 0 ==>
              HasHead(QueuePop(q).queue, p, k - 1) && HeadOf(QueuePop(q).queue, p, k - 1) == HeadOf(q, p, k)
    ensures QueuePop(q).lane != p ==>
              HasHead(QueuePop(q).queue, p, k) && HeadOf(QueuePop(q).queue, p, k) == HeadOf(q, p, k)
  {
    if QueuePop(q).lane == p && k > 0 {
      var order := q.lanes[p].order;
      assert order[0] != order[k];
    }
  }

  lemma {:induction false} PatienceShrinks(q: Queue, p: nat, k: nat)
    requires ValidQueue(q) && q.len > 0 && HasHead(q, p, k)
    ensures QueuePop(q).lane == p && k > 0 ==> Patience(QueuePop(q).queue, p, k - 1) + 1 <= Patience(q, p, k)
    ensures QueuePop(q).lane != p ==> Patience(QueuePop(q).queue, p, k) + 1 <= Patience(q, p, k)
  {
    PopProgress(q, p);
    PatienceAdds(q, QueuePop(q), p, k);
  }

  lemma {:induction false} PatienceAdds(q: Queue, r: Popped, p: nat, k: nat)
    requires |q.lanes| == LANES && |q.credits| == LANES && p < LANES && ValidCredits(r.queue.credits, r.queue.cursor)
    requires Progress(q.lanes, Ahead(q.credits, q.cursor, p), r, p)
    ensures r.lane == p && k > 0 ==> Patience(r.queue, p, k - 1) + 1 <= Patience(q, p, k)
    ensures r.lane != p ==> Patience(r.queue, p, k) + 1 <= Patience(q, p, k)
  {
    AheadBound(r.queue.credits, r.queue.cursor, p);
    if k > 0 {
      OneMoreRound(k - 1, 25 - WEIGHTS[p]);
    }
  }

  lemma {:induction false} OneMoreRound(k: nat, gap: nat)
    ensures (k + 1) * gap == k * gap + gap
  {
  }

  lemma {:induction false} RunUnfolds(q: Queue, ops: seq<Op>)
    requires ValidQueue(q) && ops != []
    ensures ops[0].PushOp? ==>
              ValidQueue(QueuePush(q, ops[0].job)) && Run(q, ops) == Run(QueuePush(q, ops[0].job), ops[1..])
    ensures ops[0].PopOp? && q.len == 0 ==> Run(q, ops) == Run(q, ops[1..])
    ensures ops[0].PopOp? && q.len > 0 ==>
      && Run(q, ops).0 == [QueuePop(q).job] + Run(QueuePop(q).queue, ops[1..]).0
      && Run(q, ops).1 == Run(QueuePop(q).queue, ops[1..]).1
  {
    if ops[0].PushOp? {
      PushValid(q, ops[0].job);
    }
  }

  /** Whatever is pushed in between, the waiting job is among the popped ones once enough pops happened. */
  lemma {:induction false} ServedWithinPatience(q: Queue, ops: seq<Op>, p: nat, k: nat)
    requires ValidQueue(q) && HasHead(q, p, k) && Pops(ops) >= Patience(q, p, k)
    ensures HeadOf(q, p, k) in Run(q, ops).0
    decreases |ops|
  {
    RunUnfolds(q, ops);
    if ops[0].PushOp? {
      PushKeepsHead(q, ops[0].job, p, k);
      ServedWithinPatience(QueuePush(q, ops[0].job), ops[1..], p, k);
    } else {
      HeadsExist(q, p, k);
      var served, k' := PopBringsCloser(q, p, k);
      if !served {
        ServedWithinPatience(QueuePop(q).queue, ops[1..], p, k');
      }
    }
  }

  /** One pop serves the waiting job or brings it strictly closer. */
  lemma {:induction false} PopBringsCloser(q: Queue, p: nat, k: nat) returns (served: bool, k': nat)
    requires ValidQueue(q) && q.len > 0 && HasHead(q, p, k)
    ensures served ==> QueuePop(q).job == HeadOf(q, p, k)
    ensures !served ==> HasHead(QueuePop(q).queue, p, k') && HeadOf(QueuePop(q).queue, p, k') == HeadOf(q, p, k)
                        && Patience(QueuePop(q).queue, p, k') + 1 <= Patience(q, p, k)
  {
    PopMovesHead(q, p, k);
    PatienceShrinks(q, p, k);
    served := QueuePop(q).lane == p && k == 0;
    k' := if QueuePop(q).lane == p && k > 0 then k - 1 else k;
  }

  /** No session starves: place `k` of lane `p` is served within `(k + 1) * (25 - weight)` pops. */
  lemma {:induction false} SessionStarvationBound(q: Queue, ops: seq<Op>, p: nat, k: nat)
    requires ValidQueue(q) && p < LANES && k < |q.lanes[p].order|
    requires Pops(ops) >= (k + 1) * (25 - WEIGHTS[p])
    ensures HasHead(q, p, k) && HeadOf(q, p, k) in Run(q, ops).0
  {
    HeadsExist(q, p, k);
    PatienceBound(q, p, k);
    ServedWithinPatience(q, ops, p, k);
  }

  lemma {:induction false} PatienceBound(q: Queue, p: nat, k: nat)
    requires ValidCredits(q.credits, q.cursor) && p < LANES
    ensures Patience(q, p, k) <= (k + 1) * (25 - WEIGHTS[p])
  {
    AheadBound(q.credits, q.cursor, p);
    OneMoreRound(k, 25 - WEIGHTS[p]);
  }

  /** No lane starves: a nonempty lane is served within `25 - weight` pops. */
  lemma {:induction false} LaneStarvationBound(q: Queue, ops: seq<Op>, p: nat)
    requires ValidQueue(q) && p < LANES && q.lanes[p].order != [] && Pops(ops) >= 25 - WEIGHTS[p]
    ensures exists j :: j in Run(q, ops).0 && PriorityIndex(j.priority) == p
  {
    SessionStarvationBound(q, ops, p, 0);
    var j := HeadOf(q, p, 0);
    assert j in q.lanes[p].sessions[q.lanes[p].order[0]];
    assert OfPriority(q.lanes[p], p);
  }

  // ----- Conservation and order -----

  /** The jobs of one session in one lane, in order. */
  function Of(jobs: seq<ScheduledJob>, p: nat, owner: string): seq<ScheduledJob> {
    if jobs == [] then []
    else (if PriorityIndex(jobs[0].priority) == p && jobs[0].owner == owner then [jobs[0]] else [])
         + Of(jobs[1..], p, owner)
  }

  function Pushed(ops: seq<Op>): seq<ScheduledJob> {
    if ops == [] then [] else (if ops[0].PushOp? then [ops[0].job] else []) + Pushed(ops[1..])
  }

  lemma {:induction false} OfAppend(a: seq<ScheduledJob>, b: seq<ScheduledJob>, p: nat, owner: string)
    ensures Of(a + b, p, owner) == Of(a, p, owner) + Of(b, p, owner)
  {
    if a == [] {
      assert a + b == b;
    } else {
      assert (a + b)[1..] == a[1..] + b;
      OfAppend(a[1..], b, p, owner);
    }
  }

  lemma {:induction false} PushQueued(q: Queue, job: ScheduledJob, p: nat, owner: string)
    requires ValidQueue(q) && p < LANES
    ensures Queued(QueuePush(q, job).lanes[p], owner) == Queued(q.lanes[p], owner) + Of([job], p, owner)
  {
    LanePushValid(q.lanes[PriorityIndex(job.priority)], job);
    assert [job][1..] == [];
  }

  lemma {:induction false} PopQueued(q: Queue, p: nat, owner: string)
    requires ValidQueue(q) && q.len > 0 && p < LANES
    ensures Queued(q.lanes[p], owner) == Of([QueuePop(q).job], p, owner) + Queued(QueuePop(q).queue.lanes[p], owner)
  {
    var r := QueuePop(q);
    LanePopQueues(q.lanes[r.lane]);
    OfOne(r.job, p, owner);
    PoppedQueued(q.lanes, r, p, owner);
  }

  lemma {:induction false} OfOne(job: ScheduledJob, p: nat, owner: string)
    ensures Of([job], p, owner) == if PriorityIndex(job.priority) == p && job.owner == owner then [job] else []
  {
    assert [job][1..] == [];
  }

  lemma {:induction false} PoppedQueued(lanes: seq<Lane>, r: Popped, p: nat, owner: string)
    requires |lanes| == LANES && p < LANES && r.lane < LANES && PriorityIndex(r.job.priority) == r.lane
    requires lanes[r.lane].order != [] && lanes[r.lane].order[0] in lanes[r.lane].sessions
    requires lanes[r.lane].sessions[lanes[r.lane].order[0]] != []
    requires r.job == LaneHead(lanes[r.lane]) && r.job.owner == lanes[r.lane].order[0]
    requires r.queue.lanes == lanes[r.lane := LanePop(lanes[r.lane])]
    ensures Queued(lanes[p], owner) == Of([r.job], p, owner) + Queued(r.queue.lanes[p], owner)
  {
    OfOne(r.job, p, owner);
    if p == r.lane && owner == r.job.owner {
      var queue := lanes[p].sessions[owner];
      assert queue == [queue[0]] + queue[1..];
    }
  }

  /**
   Per lane and session, what was queued and pushed comes out first in, first out: nothing is lost,
   duplicated or reordered.
   */
  lemma {:induction false} FirstInFirstOut(q: Queue, ops: seq<Op>, p: nat, owner: string)
    requires ValidQueue(q) && p < LANES
    ensures Queued(q.lanes[p], owner) + Of(Pushed(ops), p, owner) ==
            Of(Run(q, ops).0, p, owner) + Queued(Run(q, ops).1.lanes[p], owner)
    decreases |ops|
  {
    if ops == [] {
      var queued := Queued(q.lanes[p], owner);
      assert Run(q, ops) == ([], q) && queued + [] == [] + queued;
    } else {
      RunUnfolds(q, ops);
      if ops[0].PushOp? {
        PushKeepsOrder(q, ops, p, owner);
      } else if q.len == 0 {
        assert Pushed(ops) == Pushed(ops[1..]);
        FirstInFirstOut(q, ops[1..], p, owner);
      } else {
        PopKeepsOrder(q, ops, p, owner);
      }
    }
  }

  lemma {:induction false} PushKeepsOrder(q: Queue, ops: seq<Op>, p: nat, owner: string)
    requires ValidQueue(q) && p < LANES && ops != [] && ops[0].PushOp?
    ensures Queued(q.lanes[p], owner) + Of(Pushed(ops), p, owner) ==
            Of(Run(q, ops).0, p, owner) + Queued(Run(q, ops).1.lanes[p], owner)
    decreases |ops|, 0
  {
    RunUnfolds(q, ops);
    FirstInFirstOut(QueuePush(q, ops[0].job), ops[1..], p, owner);
    PushQueued(q, ops[0].job, p, owner);
    OfAppend([ops[0].job], Pushed(ops[1..]), p, owner);
    Regroup(Queued(q.lanes[p], owner), Of([ops[0].job], p, owner), Of(Pushed(ops[1..]), p, owner));
  }

  lemma {:induction false} Regroup<T>(a: seq<T>, b: seq<T>, c: seq<T>)
    ensures (a + b) + c == a + (b + c)
  {
  }

  lemma {:induction false} PopKeepsOrder(q: Queue, ops: seq<Op>, p: nat, owner: string)
    requires ValidQueue(q) && p < LANES && ops != [] && ops[0].PopOp? && q.len > 0
    ensures Queued(q.lanes[p], owner) + Of(Pushed(ops), p, owner) ==
            Of(Run(q, ops).0, p, owner) + Queued(Run(q, ops).1.lanes[p], owner)
    decreases |ops|, 0
  {
    RunUnfolds(q, ops);
    var next := QueuePop(q).queue;
    FirstInFirstOut(next, ops[1..], p, owner);
    PopQueued(q, p, owner);
    OfAppend([QueuePop(q).job], Run(next, ops[1..]).0, p, owner);
    assert Pushed(ops) == Pushed(ops[1..]);
    Regroup(Of([QueuePop(q).job], p, owner), Queued(next.lanes[p], owner), Of(Pushed(ops[1..]), p, owner));
    Regroup(Of([QueuePop(q).job], p, owner), Of(Run(next, ops[1..]).0, p, owner),
            Queued(Run(next, ops[1..]).1.lanes[p], owner));
  }

  // ----- The daemon's objects -----

  ghost function LaneValues(lanes: seq<PriorityLane>): (r: seq<Lane>)
    reads lanes
    ensures |r| == |lanes| && forall i | 0 <= i < |lanes| :: r[i] == lanes[i].Value()
  {
    if lanes == [] then [] else [lanes[0].Value()] + LaneValues(lanes[1..])
  }

  lemma {:induction false} EmptyQueueIsValid(q: Queue)
    requires |q.lanes| == LANES && forall i | 0 <= i < LANES :: q.lanes[i] == Lane(map[], [])
    requires q.credits == WEIGHTS && q.cursor == q.len == 0
    ensures ValidQueue(q)
  {
    if Total(q.lanes) > 0 {
      var p := SomeLaneHasJobs(q.lanes);
    }
  }

  lemma {:induction false} DrainStep(q: Queue, start: Queue, jobs: seq<ScheduledJob>)
    requires ValidQueue(q) && ValidQueue(start) && q.len > 0
    requires forall p, owner | 0 <= p < LANES ::
      Queued(start.lanes[p], owner) == Of(jobs, p, owner) + Queued(q.lanes[p], owner)
    ensures forall p, owner | 0 <= p < LANES ::
      Queued(start.lanes[p], owner)
        == Of(jobs + [QueuePop(q).job], p, owner) + Queued(QueuePop(q).queue.lanes[p], owner)
  {
    forall p, owner | 0 <= p < LANES
      ensures Queued(start.lanes[p], owner) ==
              Of(jobs + [QueuePop(q).job], p, owner) + Queued(QueuePop(q).queue.lanes[p], owner)
    {
      PopQueued(q, p, owner);
      OfAppend(jobs, [QueuePop(q).job], p, owner);
      Regroup(Of(jobs, p, owner), Of([QueuePop(q).job], p, owner), Queued(QueuePop(q).queue.lanes[p], owner));
    }
  }

  lemma {:induction false} DrainEnds(q: Queue, start: Queue, jobs: seq<ScheduledJob>)
    requires ValidQueue(q) && ValidQueue(start) && q.len == 0
    requires forall p, owner | 0 <= p < LANES ::
      Queued(start.lanes[p], owner) == Of(jobs, p, owner) + Queued(q.lanes[p], owner)
    ensures forall p, owner | 0 <= p < LANES :: Of(jobs, p, owner) == Queued(start.lanes[p], owner)
  {
    forall p, owner | 0 <= p < LANES ensures Of(jobs, p, owner) == Queued(start.lanes[p], owner) {
      EmptyTotal(q.lanes, p);
    }
  }

  class PriorityLane {
    var sessions: map<string, seq<ScheduledJob>>
    var order: seq<string>

    function Value(): Lane
      reads this
    {
      Lane(sessions, order)
    }

    constructor ()
      ensures Value() == Lane(map[], [])
    {
      sessions, order := map[], [];
    }

    method Push(job: ScheduledJob)
      modifies this
      ensures Value() == LanePush(old(Value()), job)
    {
      if job.owner !in sessions {
        order := order + [job.owner];
      }
      sessions := sessions[job.owner := (if job.owner in sessions then sessions[job.owner] else []) + [job]];
    }

    method Pop() returns (job: Option<ScheduledJob>)
      modifies this
      ensures old(order) == [] ==> job == None && Value() == old(Value())
      ensures old(order) != [] && ValidLane(old(Value())) ==>
        && old(order[0]) in old(sessions) && old(sessions[order[0]]) != []
        && job == Some(LaneHead(old(Value()))) && Value() == LanePop(old(Value()))
    {
      if ValidLane(Value()) && order != [] {
        LanePopQueues(Value());
      }
      while order != []
        invariant old(order) == [] || ValidLane(old(Value())) ==> Value() == old(Value())
        decreases |order|
      {
        var owner := order[0];
        order := order[1..];
        if owner in sessions {
          var queue := sessions[owner];
          job := if queue == [] then None else Some(queue[0]);
          var rest := if queue == [] then [] else queue[1..];
          if rest != [] {
            sessions := sessions[owner := rest];
            order := order + [owner];
          } else {
            sessions := sessions - {owner};
          }
          if job.Some? {
            return;
          }
        }
      }
      job := None;
    }

    predicate IsEmpty()
      reads this
    {
      order == []
    }
  }

  class FairScheduler {
    const lanes: seq<PriorityLane>
    const credits: array<u8>
    var cursor: nat
    var len: nat

    ghost predicate Shaped() {
      && |lanes| == LANES && credits.Length == LANES
      && forall i, j | 0 <= i < j < LANES :: lanes[i] != lanes[j]
    }

    ghost function Value(): Queue
      reads this, lanes, credits
    {
      Queue(LaneValues(lanes), credits[..], cursor, len)
    }

    ghost predicate Valid()
      reads this, lanes, credits
    {
      Shaped() && ValidQueue(Value())
    }

    constructor ()
      ensures Valid() && fresh(credits) && forall lane | lane in lanes :: fresh(lane)
      ensures Value() == Queue(seq(LANES, i => Lane(map[], [])), WEIGHTS, 0, 0)
    {
      var made: seq<PriorityLane> := [];
      for i := 0 to LANES
        invariant |made| == i
        invariant forall k | 0 <= k < i :: fresh(made[k]) && made[k].Value() == Lane(map[], [])
        invariant forall j, k | 0 <= j < k < i :: made[j] != made[k]
      {
        var lane := new PriorityLane();
        made := made + [lane];
      }
      lanes := made;
      credits := new u8[LANES](i requires 0 <= i < LANES => WEIGHTS[i]);
      cursor, len := 0, 0;
      new;
      assert credits[..] == WEIGHTS;
      assert LaneValues(lanes) == seq(LANES, i => Lane(map[], []));
      EmptyQueueIsValid(Value());
    }

    /** The counter saturates, so past 2^64 - 1 jobs it would no longer be their number. */
    method Push(job: ScheduledJob)
      requires Valid()
      modifies this, lanes
      ensures Shaped()
      ensures Value() == QueuePush(old(Value()), job).(len := if old(len) < U64_MAX then old(len) + 1 else old(len))
      ensures old(len) < U64_MAX ==> Valid()
    {
      hide ValidQueue, LanePush, QueuePush, PriorityIndex;
      PushValid(Value(), job);
      var p := PriorityIndex(job.priority);
      ghost var before := LaneValues(lanes);
      assert before[p] == lanes[p].Value();
      PushedQueue(Value(), job);
      lanes[p].Push(job);
      len := if len < U64_MAX then len + 1 else len;
      assert LaneValues(lanes) == before[p := LanePush(before[p], job)];
    }

    method Pop() returns (job: Option<ScheduledJob>)
      requires Valid()
      modifies this, lanes, credits
      ensures Valid()
      ensures old(len) == 0 ==> job == None && Value() == old(Value())
      ensures old(len) > 0 ==> job == Some(QueuePop(old(Value())).job) && Value() == QueuePop(old(Value())).queue
    {
      hide QueuePop, ValidLanes, Total;
      if len == 0 {
        return None;
      }
      while true
        invariant Valid() && len > 0
        invariant QueuePop(Value()) == QueuePop(old(Value()))
        decreases Turns(Value())
      {
        PopUnfolds(Value());
        RefillCredits();
        if credits[cursor] == 0 || lanes[cursor].IsEmpty() {
          SkipLane();
          continue;
        }
        job := ServeLane();
        return;
      }
    }

    method RefillCredits()
      requires Valid()
      modifies this, credits
      ensures Shaped() && Value() == Refill(old(Value()))
    {
      if forall i | 0 <= i < LANES :: credits[i] == 0 {
        forall i | 0 <= i < LANES {
          credits[i] := WEIGHTS[i];
        }
        cursor := 0;
        assert credits[..] == WEIGHTS;
      } else {
        assert !AllZero(credits[..]);
      }
    }

    method SkipLane()
      requires Valid() && len > 0
      modifies this, credits
      ensures Shaped() && Value() == Skip(old(Value()))
    {
      credits[cursor] := 0;
      cursor := (cursor + 1) % LANES;
    }

    method ServeLane() returns (job: Option<ScheduledJob>)
      requires Valid() && len > 0 && !Skips(Value())
      modifies this, lanes, credits
      ensures Valid() && Value() == Serve(old(Value()))
      ensures job == Some(LaneHead(old(Value()).lanes[old(cursor)]))
    {
      ghost var before := Value();
      job := PopLane();
      SpendCredit();
      ServedInParts(before);
    }

    method PopLane() returns (job: Option<ScheduledJob>)
      requires Valid() && cursor < LANES && lanes[cursor].Value().order != []
      modifies lanes
      ensures Shaped() && job == Some(LaneHead(old(Value()).lanes[cursor]))
      ensures Value() == TakeHead(old(Value()))
    {
      job := lanes[cursor].Pop();
      assert LaneValues(lanes) == old(LaneValues(lanes))[cursor := LanePop(old(lanes[cursor].Value()))];
    }

    /** A lane keeps its turn until its credits are spent. */
    method SpendCredit()
      requires Shaped() && cursor < LANES && credits[cursor] > 0 && len > 0
      modifies this`cursor, this`len, credits
      ensures Shaped() && Value() == Spent(old(Value()))
    {
      len := len - 1;
      credits[cursor] := credits[cursor] - 1;
      if credits[cursor] == 0 {
        cursor := (cursor + 1) % LANES;
      }
    }

    predicate IsEmpty()
      reads this
    {
      len == 0
    }

    /** Pops everything; what comes out is a run of pops alone. */
    method Drain() returns (jobs: seq<ScheduledJob>)
      requires Valid()
      modifies this, lanes, credits
      ensures Valid() && len == 0
      ensures forall p, owner | 0 <= p < LANES :: Of(jobs, p, owner) == Queued(old(Value()).lanes[p], owner)
    {
      jobs := [];
      ghost var start := Value();
      while true
        invariant Valid()
        invariant forall p, owner | 0 <= p < LANES ::
          Queued(start.lanes[p], owner) == Of(jobs, p, owner) + Queued(Value().lanes[p], owner)
        decreases len
      {
        ghost var q := Value();
        var job := Pop();
        if job.None? {
          DrainEnds(q, start, jobs);
          return;
        }
        DrainStep(q, start, jobs);
        jobs := jobs + [job.value];
      }
    }
  }
}
