/**
 The registry of jobs: scheduling, reads that sweep first, and lazy eviction. The registry's run
 interleaves reads with the steps of every job's own protocol.
 */
module DownloadRegistry {
  import opened Common
  import opened DownloadTypes
  import P = DownloadProtocol
  import opened DownloadJob

  predicate Expired(j: P.Job, now: Instant, retention: int) {
    j.completed && now - j.completedAt >= retention
  }

  // ---------------------------------------------------------- all runs

  /**
   `all` holds every job ever scheduled, `known` the ids still in the registry's map, and `swept`
   the clock reading of the last sweep.
   */
  datatype World = World(all: map<JobID, P.System>, known: set<JobID>, swept: Instant, retention: int, buffer: nat)

  datatype Move =
    | Schedule(id: JobID, requests: seq<Request>)
    | Read(id: JobID, now: Instant)          // Snapshot, or the lookup of Subscribe
    | Step(id: JobID, action: P.Action)      // any step of a job, still known or not

  function Begin(retention: int, buffer: nat, now: Instant): World { World(map[], {}, now, retention, buffer) }

  /** Ids are fresh, the sweeping clock never runs backwards, and a job steps by its own protocol. */
  predicate Allowed(w: World, m: Move) {
    match m
    case Schedule(id, _) => id !in w.all
    case Read(_, now) => w.swept <= now
    case Step(id, action) => id in w.all && P.Enabled(w.all[id], action)
  }

  function Kept(w: World, now: Instant): set<JobID> {
    set id | id in w.known && id in w.all && !Expired(w.all[id].job, now, w.retention)
  }

  function Apply(w: World, m: Move): World
    requires Allowed(w, m)
  {
    match m
    case Schedule(id, requests) =>
      if requests == [] then w
      else w.(all := w.all[id := P.Start(id, requests, w.buffer)], known := w.known + {id})
    case Read(_, now) => w.(known := Kept(w, now), swept := now)
    case Step(id, action) => w.(all := w.all[id := P.Next(w.all[id], action)])
  }

  function Play(w: World, moves: seq<Move>): Option<World>
    decreases |moves|
  {
    if moves == [] then Some(w)
    else if Allowed(w, moves[0]) then Play(Apply(w, moves[0]), moves[1..])
    else None
  }

  /** The eager reading of retention: a job is there from its scheduling until its age reaches it. */
  predicate Retained(w: World, id: JobID, now: Instant) {
    id in w.all && !Expired(w.all[id].job, now, w.retention)
  }

  /** A job's worker has nothing left to do once the job is complete. */
  predicate Settled(s: P.System) { s.job.completed ==> s.next > |s.job.requests| }

  ghost predicate WorldInv(w: World) {
    && w.known <= w.all.Keys
    && (forall id :: id in w.all ==> Settled(w.all[id]))
    && (forall id :: id in w.all && id !in w.known ==> Expired(w.all[id].job, w.swept, w.retention))
  }

  /** No step of a job undoes or re-dates its completion. */
  lemma StepSettled(s: P.System, a: P.Action)
    requires Settled(s) && P.Enabled(s, a)
    ensures Settled(P.Next(s, a))
    ensures s.job.completed ==> P.Next(s, a).job.completed && P.Next(s, a).job.completedAt == s.job.completedAt
  {
  }

  lemma ApplyKeeps(w: World, m: Move)
    requires WorldInv(w) && Allowed(w, m)
    ensures WorldInv(Apply(w, m)) && w.all.Keys <= Apply(w, m).all.Keys
    ensures forall id :: id in w.all && id !in w.known ==> id !in Apply(w, m).known
  {
    if m.Step? {
      StepSettled(w.all[m.id], m.action);
    }
  }

  lemma {:induction false} PlayKeeps(w: World, moves: seq<Move>, t: World)
    requires WorldInv(w) && Play(w, moves) == Some(t)
    ensures WorldInv(t) && t.retention == w.retention && w.all.Keys <= t.all.Keys
    ensures forall id :: id in w.all && id !in w.known ==> id !in t.known
    decreases |moves|
  {
    if moves != [] {
      ApplyKeeps(w, moves[0]);
      PlayKeeps(Apply(w, moves[0]), moves[1..], t);
    }
  }

  // ------------------------------------------- what a run did to one id

  predicate Schedules(m: Move, id: JobID) { m.Schedule? && m.id == id && m.requests != [] }

  /** The worker of `id` ended, by its clock, at least `retention` before `now`. */
  predicate EndsOverdue(m: Move, id: JobID, now: Instant, retention: int) {
    m.Step? && m.id == id && m.action.Finish? && now - m.action.at >= retention
  }

  predicate ScheduledIn(moves: seq<Move>, id: JobID) { exists k :: 0 <= k < |moves| && Schedules(moves[k], id) }

  predicate OverdueIn(moves: seq<Move>, id: JobID, now: Instant, retention: int) {
    exists k :: 0 <= k < |moves| && EndsOverdue(moves[k], id, now, retention)
  }

  lemma StepExpiry(s: P.System, a: P.Action, now: Instant, retention: int)
    requires Settled(s) && P.Enabled(s, a)
    ensures Expired(P.Next(s, a).job, now, retention) <==>
              Expired(s.job, now, retention) || (a.Finish? && now - a.at >= retention)
  {
  }

  lemma MoveHistory(w: World, m: Move, id: JobID, now: Instant)
    requires WorldInv(w) && Allowed(w, m)
    ensures id in Apply(w, m).all <==> id in w.all || Schedules(m, id)
    ensures id in Apply(w, m).all ==>
              (Expired(Apply(w, m).all[id].job, now, w.retention) <==>
               (id in w.all && Expired(w.all[id].job, now, w.retention)) || EndsOverdue(m, id, now, w.retention))
  {
    if m.Step? { StepExpiry(w.all[m.id], m.action, now, w.retention); }
  }

  lemma HistoryCons(moves: seq<Move>, id: JobID, now: Instant, retention: int)
    requires moves != []
    ensures ScheduledIn(moves, id) <==> Schedules(moves[0], id) || ScheduledIn(moves[1..], id)
    ensures OverdueIn(moves, id, now, retention) <==>
              EndsOverdue(moves[0], id, now, retention) || OverdueIn(moves[1..], id, now, retention)
  {
    var rest := moves[1..];
    assert forall k :: 0 <= k < |rest| ==> rest[k] == moves[k + 1];
    assert forall k :: 1 <= k < |moves| ==> moves[k] == rest[k - 1];
  }

  /** A job expires by its own end only: what it came to is read off the moves. */
  lemma {:induction false} PlayHistory(w: World, moves: seq<Move>, t: World, id: JobID, now: Instant)
    requires WorldInv(w) && Play(w, moves) == Some(t)
    ensures id in t.all <==> id in w.all || ScheduledIn(moves, id)
    ensures id in t.all ==>
              (Expired(t.all[id].job, now, w.retention) <==>
               (id in w.all && Expired(w.all[id].job, now, w.retention)) || OverdueIn(moves, id, now, w.retention))
    decreases |moves|
  {
    if moves != [] {
      var w1 := Apply(w, moves[0]);
      ApplyKeeps(w, moves[0]);
      MoveHistory(w, moves[0], id, now);
      HistoryCons(moves, id, now, w.retention);
      PlayHistory(w1, moves[1..], t, id, now);
    }
  }

  /**
   Lazy eviction refines eager expiry: after any run, a read at `now` finds an id exactly when it was
   scheduled and its worker has not ended with an age of at least the retention. Jobs in progress are
   always found.
   */
  lemma LazyIsEager(retention: int, buffer: nat, t0: Instant, moves: seq<Move>, w: World, id: JobID, now: Instant)
    requires Play(Begin(retention, buffer, t0), moves) == Some(w) && w.swept <= now
    ensures id in Apply(w, Read(id, now)).known <==> ScheduledIn(moves, id) && !OverdueIn(moves, id, now, retention)
    ensures id in Apply(w, Read(id, now)).known <==> Retained(w, id, now)
    ensures id in w.all && !w.all[id].job.completed ==> id in w.known && id in Apply(w, Read(id, now)).known
  {
    PlayKeeps(Begin(retention, buffer, t0), moves, w);
    PlayHistory(Begin(retention, buffer, t0), moves, w, id, now);
  }

  /** An evicted id never returns, whatever happens next. */
  lemma EvictedForGood(retention: int, buffer: nat, t0: Instant, moves: seq<Move>, w: World, more: seq<Move>, t: World,
                       id: JobID)
    requires Play(Begin(retention, buffer, t0), moves) == Some(w) && Play(w, more) == Some(t)
    requires id in w.all && id !in w.known
    ensures id in t.all && id !in t.known && !Retained(t, id, t.swept)
  {
    PlayKeeps(Begin(retention, buffer, t0), moves, w);
    PlayKeeps(w, more, t);
  }

  /** The steps a run takes inside one job. */
  function StepsOf(moves: seq<Move>, id: JobID): seq<P.Action>
    decreases |moves|
  {
    if moves == [] then []
    else (if moves[0].Step? && moves[0].id == id then [moves[0].action] else []) + StepsOf(moves[1..], id)
  }

  /** Jobs do not interfere: inside any run of the registry, each job's history is a run of its own protocol. */
  lemma {:induction false} JobsAreIndependent(w: World, moves: seq<Move>, t: World, id: JobID)
    requires Play(w, moves) == Some(t) && id in w.all
    ensures id in t.all && P.Run(w.all[id], StepsOf(moves, id)) == Some(t.all[id])
    decreases |moves|
  {
    if moves != [] {
      JobsAreIndependent(Apply(w, moves[0]), moves[1..], t, id);
      if moves[0].Step? && moves[0].id == id {
        assert StepsOf(moves, id)[1..] == StepsOf(moves[1..], id);
      } else {
        assert StepsOf(moves, id) == StepsOf(moves[1..], id);
      }
    }
  }

  // ------------------------------------------------------- the registry

  const NO_JOB := JobSnapshot("", 0, 0, 0, false, ZERO_TIME, [])

  /** The records a sweep leaves behind. */
  ghost function Survivors(jobs: map<JobID, JobRecord>, now: Instant, retention: int): map<JobID, JobRecord>
    reads jobs.Values
  {
    map id | id in jobs && !(jobs[id].completed && now - jobs[id].completedAt >= retention) :: jobs[id]
  }

  ghost predicate InStateOf(jobs: map<JobID, JobRecord>, w: World)
    reads *
  {
    forall id :: id in jobs ==> jobs[id].Valid() && id in w.all && jobs[id].Abs() == w.all[id].job
  }

  lemma OneMoreJob(jobs: map<JobID, JobRecord>, w: World, id: JobID, requests: seq<Request>, j: JobRecord)
    requires InStateOf(jobs, w) && id !in w.all && requests != []
    requires j.Valid() && j.Abs() == P.NewJob(id, requests, w.buffer)
    ensures InStateOf(jobs[id := j], Apply(w, Move.Schedule(id, requests)))
  {
  }

  lemma OneJobStepped(jobs: map<JobID, JobRecord>, w: World, id: JobID, a: P.Action)
    requires id in jobs && id in w.all && P.Enabled(w.all[id], a)
    requires forall other :: other in jobs ==> jobs[other].Valid() && other in w.all
    requires forall other :: other in jobs && other != id ==> jobs[other].Abs() == w.all[other].job
    requires jobs[id].Abs() == P.Next(w.all[id], a).job
    ensures InStateOf(jobs, Apply(w, Step(id, a)))
  {
  }

  /** A subscription at `now`: the read, then the attachment if the job is still known. */
  function Subscribed(w: World, id: JobID, now: Instant): World
    requires w.swept <= now
  {
    var swept := Apply(w, Read(id, now));
    if id in swept.known then Apply(swept, Step(id, P.Attach)) else swept
  }

  class Registry {
    const retention: int
    const buffer: nat
    var jobs: map<JobID, JobRecord>

    /** The jobs are sound and share no object, channels included. */
    ghost predicate Valid()
      reads *
    {
      && (forall id :: id in jobs ==> jobs[id].Valid())
      && (forall a, b :: a in jobs && b in jobs && a != b ==> jobs[a].Apart(jobs[b]))
    }

    /** The registry's map holds what the world knows, each job in the world's state of it. */
    ghost predicate Represents(w: World)
      reads *
    {
      InStateOf(jobs, w) && w.retention == retention && w.buffer == buffer && w.known == jobs.Keys
    }

    constructor (retention: int, buffer: nat, ghost t0: Instant)
      ensures jobs == map[] && Represents(Begin(retention, buffer, t0))
    {
      this.retention, this.buffer, jobs := retention, buffer, map[];
    }

    /** An empty batch schedules nothing; otherwise the job is in the map before its worker starts. */
    method Schedule(id: JobID, requests: seq<Request>, ghost w: World) returns (snapshot: JobSnapshot)
      requires Valid() && id !in jobs
      modifies this`jobs
      ensures Valid()
      ensures requests == [] ==> jobs == old(jobs) && snapshot == JobSnapshot("", 0, 0, 0, false, 0, [])
      ensures requests != [] ==>
                && jobs.Keys == old(jobs).Keys + {id} && fresh(jobs[id]) && jobs == old(jobs)[id := jobs[id]]
                && jobs[id].Abs() == P.NewJob(id, requests, buffer)
                && snapshot == P.Snapshot(P.NewJob(id, requests, buffer))
      ensures old(Represents(w)) && id !in w.all ==> Represents(Apply(w, Move.Schedule(id, requests)))
    {
      if requests == [] { return NO_JOB; }
      var j := Launch(id, requests, w);
      snapshot := j.BuildSnapshotLocked(j.completed, j.completedAt);
    }

    method Launch(id: JobID, requests: seq<Request>, ghost w: World) returns (j: JobRecord)
      requires Valid() && id !in jobs && requests != []
      modifies this`jobs
      ensures Valid() && fresh(j) && jobs == old(jobs)[id := j]
      ensures j.Valid() && j.Abs() == P.NewJob(id, requests, buffer)
      ensures old(Represents(w)) && id !in w.all ==> Represents(Apply(w, Move.Schedule(id, requests)))
    {
      ghost var before, known := jobs, Represents(w);
      j := Create(id, requests, w);
      Add(id, j, w);
      if known && id !in w.all { OneMoreJob(before, w, id, requests, j); }
    }

    method Create(id: JobID, requests: seq<Request>, ghost w: World) returns (j: JobRecord)
      requires Valid()
      ensures Valid() && fresh(j) && j.Valid() && j.Abs() == P.NewJob(id, requests, buffer)
      ensures forall other :: other in jobs ==> jobs[other].Apart(j) && j.Apart(jobs[other])
      ensures old(InStateOf(jobs, w)) ==> InStateOf(jobs, w)
    {
      j := new JobRecord(id, requests, buffer);
    }

    /** Enter a record that shares nothing with the others. */
    method Add(id: JobID, j: JobRecord, ghost w: World)
      requires Valid() && id !in jobs && j.Valid()
      requires forall other :: other in jobs ==> jobs[other].Apart(j) && j.Apart(jobs[other])
      modifies this`jobs
      ensures Valid() && jobs == old(jobs)[id := j] && j.Valid() && j.Abs() == old(j.Abs())
      ensures old(InStateOf(jobs, w)) ==> InStateOf(old(jobs), w)
    {
      jobs := jobs[id := j];
    }

    /** Delete every completed job whose age has reached the retention window, in whatever order the map yields them. */
    method SweepLocked(now: Instant)
      modifies this`jobs
      ensures jobs == old(Survivors(jobs, now, retention))
    {
      var todo := jobs.Keys;
      while todo != {}
        invariant todo <= jobs.Keys
        invariant forall id :: id in jobs ==> id in old(jobs) && jobs[id] == old(jobs)[id]
        invariant forall id :: id in old(jobs) && id !in todo ==>
                    (id in jobs <==> !(old(jobs)[id].completed && now - old(jobs)[id].completedAt >= retention))
        decreases |todo|
      {
        var id :| id in todo;
        todo := todo - {id};
        var j := jobs[id];
        if j.completed && now - j.completedAt >= retention {
          jobs := jobs - {id};
        }
      }
    }

    /** The sweep every read begins with: the world's read. */
    method Sweep(id: JobID, now: Instant, ghost w: World)
      requires Valid()
      modifies this`jobs
      ensures Valid() && jobs == old(Survivors(jobs, now, retention))
      ensures forall other :: other in old(jobs) ==>
                old(jobs)[other].Valid() && old(jobs)[other].Abs() == old(jobs[other].Abs())
      ensures old(Represents(w)) && w.swept <= now ==> Represents(Apply(w, Read(id, now)))
    {
      SweepLocked(now);
    }

    /** The current snapshot of a job, or None once it is unknown or evicted. */
    method Snapshot(id: JobID, now: Instant, ghost w: World) returns (snapshot: Option<JobSnapshot>)
      requires Valid()
      modifies this`jobs
      ensures Valid() && jobs == old(Survivors(jobs, now, retention))
      ensures snapshot.Some? <==> old(id in jobs && !Expired(jobs[id].Abs(), now, retention))
      ensures snapshot.Some? ==> snapshot.value == P.Snapshot(old(jobs[id].Abs()))
      ensures old(Represents(w)) && w.swept <= now ==>
                && Represents(Apply(w, Read(id, now)))
                && (snapshot.Some? <==> id in Apply(w, Read(id, now)).known)
    {
      Sweep(id, now, w);
      if id !in jobs { return None; }
      var s := jobs[id].BuildSnapshotLocked(jobs[id].completed, jobs[id].completedAt);
      snapshot := Some(s);
    }

    /** The subscription proper: this job's protocol step, and nobody else's business. */
    method Attach(id: JobID) returns (backlog: seq<Event>, channel: Channel)
      requires Valid() && id in jobs
      modifies jobs[id], jobs[id].slots
      ensures jobs[id].Valid() && jobs[id].Abs() == P.Subscribe(old(jobs[id].Abs()))
      ensures backlog == old(jobs[id].events) && fresh(channel) && jobs[id].chans == old(jobs[id].chans) + [channel]
      ensures jobs[id].live == old(jobs[id].live) + {channel}
      ensures jobs[id].slots == old(jobs[id].slots) || fresh(jobs[id].slots)
      ensures forall other :: other in jobs && other != id ==>
                jobs[other].Valid() && jobs[other].Abs() == old(jobs[other].Abs())
    {
      backlog, channel := jobs[id].Subscribe();
    }

    /** The new channel and a larger array are shared with no other job. */
    method AttachApart(id: JobID) returns (backlog: seq<Event>, channel: Channel)
      requires Valid() && id in jobs
      modifies jobs[id], jobs[id].slots
      ensures Valid() && jobs[id].Abs() == P.Subscribe(old(jobs[id].Abs()))
      ensures backlog == old(jobs[id].events) && fresh(channel) && jobs[id].chans == old(jobs[id].chans) + [channel]
      ensures forall other :: other in jobs && other != id ==> jobs[other].Abs() == old(jobs[other].Abs())
    {
      backlog, channel := Attach(id);
    }

    method AttachIn(id: JobID, ghost w: World) returns (backlog: seq<Event>, channel: Channel)
      requires Valid() && id in jobs
      modifies jobs[id], jobs[id].slots
      ensures Valid() && jobs[id].Abs() == P.Subscribe(old(jobs[id].Abs()))
      ensures backlog == old(jobs[id].events) && fresh(channel) && jobs[id].chans == old(jobs[id].chans) + [channel]
      ensures forall other :: other in jobs && other != id ==> jobs[other].Abs() == old(jobs[other].Abs())
      ensures old(Represents(w)) ==> Represents(Apply(w, Step(id, P.Attach)))
    {
      ghost var known := Represents(w);
      backlog, channel := AttachApart(id);
      if known { OneJobStepped(jobs, w, id, P.Attach); }
    }

    /** Sweep, look up, and subscribe to what is found. */
    method Subscribe(id: JobID, now: Instant, ghost w: World) returns (r: Option<(seq<Event>, Channel)>)
      requires Valid()
      modifies this`jobs, if id in jobs then {jobs[id], jobs[id].slots} else {}
      ensures Valid() && jobs == old(Survivors(jobs, now, retention))
      ensures r.Some? <==> old(id in jobs && !Expired(jobs[id].Abs(), now, retention))
      ensures r.Some? ==>
                && id in jobs && jobs[id].Abs() == P.Subscribe(old(jobs[id].Abs()))
                && r.value.0 == old(jobs[id].events) && fresh(r.value.1)
                && jobs[id].chans == old(jobs[id].chans) + [r.value.1]
      ensures forall other :: other in jobs && (other != id || r.None?) ==> jobs[other].Abs() == old(jobs[other].Abs())
      ensures old(Represents(w)) && w.swept <= now ==> Represents(Subscribed(w, id, now))
    {
      Sweep(id, now, w);
      if id !in jobs { return None; }
      ghost var swept := if w.swept <= now then Apply(w, Read(id, now)) else w;
      var backlog, channel := AttachIn(id, swept);
      r := Some((backlog, channel));
    }
  }
}
