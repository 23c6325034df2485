/**
 * The preview job scheduler (PreviewGeneratorManager): at most one running
 * previewer per track type, the others wait and are started in the order in
 * which they registered.
 *
 * The manager keeps `_cpipeline` (track type -> running previewer) and
 * `_pipelines` (track type -> waiting list). New waiters are inserted at the
 * front of the list and promoted from its back, so the waiting list read
 * backwards (`Reverse`) is the service order. `Line(m, t)` is the running job
 * followed by the waiters in service order; the lemmas below show that
 * registering appends to the line and a `done` pops its head.
 */
module Scheduler {
  import opened Seqs

  datatype TrackType = Audio | Video

  /** A previewer that asks for generation; `id` stands for object identity. */
  datatype Job = Job(id: nat, trackType: TrackType)

  /**
   * The manager's state: the running job per type, the waiting list per type
   * (newest first) and, in order, every job whose generation was started.
   */
  datatype Manager = Manager(current: map<TrackType, Job>, waiting: map<TrackType, seq<Job>>, started: seq<Job>)

  /** Every track type has a waiting list (the constructor creates both). */
  ghost predicate WellFormed(m: Manager)
  {
    forall t: TrackType :: t in m.waiting
  }

  /** The running job of type `t`, then its waiters in the order they will run. */
  function Line(m: Manager, t: TrackType): seq<Job>
    requires WellFormed(m)
  {
    (if t in m.current then [m.current[t]] else []) + Reverse(m.waiting[t])
  }

  /**
   * Per type: nobody waits while nothing runs, no job is both running and
   * waiting or waits twice, and every job is filed under its own type.
   */
  ghost predicate TypeInv(m: Manager, t: TrackType)
    requires WellFormed(m)
  {
    && (m.waiting[t] != [] ==> t in m.current)
    && Distinct(Line(m, t))
    && forall j | j in Line(m, t) :: j.trackType == t
  }

  ghost predicate Inv(m: Manager)
  {
    WellFormed(m) && forall t :: TypeInv(m, t)
  }

  /** `addPipeline`: the state after registering `job`. */
  function Add(m: Manager, job: Job): (r: Manager)
    requires WellFormed(m)
    ensures WellFormed(r)
  {
    var t := job.trackType;
    if job in m.waiting[t] || (t in m.current && m.current[t] == job) then m
    else if m.waiting[t] == [] && t !in m.current then
      m.(current := m.current[t := job], started := m.started + [job])
    else
      m.(waiting := m.waiting[t := [job] + m.waiting[t]])
  }

  /** `_nextPipeline`: the running job of type `t` is dropped, the oldest waiter starts. */
  function Next(m: Manager, t: TrackType): (r: Manager)
    requires WellFormed(m)
    ensures WellFormed(r)
  {
    var popped := m.(current := m.current - {t});
    var w := m.waiting[t];
    if w != [] then
      var j := w[|w| - 1];
      popped.(current := popped.current[t := j], waiting := m.waiting[t := w[..|w| - 1]], started := m.started + [j])
    else
      popped
  }

  /**
   * A job emits `done`; the manager's handler is connected to a job exactly
   * while it is the running job of its type.
   */
  function Done(m: Manager, job: Job): (r: Manager)
    requires WellFormed(m)
    ensures WellFormed(r)
  {
    var t := job.trackType;
    if t in m.current && m.current[t] == job then Next(m, t) else m
  }

  lemma LineMembers(m: Manager, t: TrackType, job: Job)
    requires WellFormed(m)
    ensures job in Line(m, t) <==> job in m.waiting[t] || (t in m.current && m.current[t] == job)
  {
    ReverseElements(m.waiting[t]);
  }

  /**
   * Registering a job that is already running or waiting changes nothing.
   * Otherwise the job joins the end of its type's line, and it is started at
   * once exactly when that line was empty (nothing running, nobody waiting).
   * Other types are untouched.
   */
  lemma AddJoinsLine(m: Manager, job: Job)
    requires Inv(m)
    ensures Inv(Add(m, job))
    ensures job in Line(m, job.trackType) ==> Add(m, job) == m
    ensures job !in Line(m, job.trackType) ==>
              && Line(Add(m, job), job.trackType) == Line(m, job.trackType) + [job]
              && Add(m, job).started == m.started + (if Line(m, job.trackType) == [] then [job] else [])
    ensures forall u | u != job.trackType :: Line(Add(m, job), u) == Line(m, u)
  {
    var t := job.trackType;
    var r := Add(m, job);
    LineMembers(m, t, job);
    if job !in Line(m, t) {
      ReverseCons(job, m.waiting[t]);
      assert Line(r, t) == Line(m, t) + [job];
      assert TypeInv(m, t);
      assert Distinct(Line(r, t));
      forall u ensures TypeInv(r, u) {
        if u != t {
          assert Line(r, u) == Line(m, u);
          assert TypeInv(m, u);
        }
      }
    }
  }

  /** Registering the same job twice is the same as registering it once. */
  lemma AddTwice(m: Manager, job: Job)
    requires WellFormed(m)
    ensures Add(Add(m, job), job) == Add(m, job)
  {
  }

  /**
   * On `done` for type `t`, the line loses its head and the next job in it,
   * if any, is started; other types are untouched. With nothing running the
   * handler changes nothing.
   */
  lemma NextPopsLine(m: Manager, t: TrackType)
    requires Inv(m)
    ensures Inv(Next(m, t))
    ensures Line(m, t) == [] ==> Next(m, t) == m
    ensures Line(m, t) != [] ==>
              && Line(Next(m, t), t) == Line(m, t)[1..]
              && Next(m, t).started == m.started + (if |Line(m, t)| > 1 then [Line(m, t)[1]] else [])
    ensures forall u | u != t :: Line(Next(m, t), u) == Line(m, u)
  {
    assert TypeInv(m, t);
    NextOwnLine(m, t);
    forall u | u != t ensures Line(Next(m, t), u) == Line(m, u) && TypeInv(Next(m, t), u) {
      NextKeepsOther(m, t, u);
      assert TypeInv(m, u);
    }
  }

  /** `done` for type `t` pops the head of `t`'s line and keeps its invariant. */
  lemma {:induction false} NextOwnLine(m: Manager, t: TrackType)
    requires WellFormed(m) && TypeInv(m, t)
    ensures TypeInv(Next(m, t), t)
    ensures Line(m, t) == [] ==> Next(m, t) == m
    ensures Line(m, t) != [] ==>
              && Line(Next(m, t), t) == Line(m, t)[1..]
              && Next(m, t).started == m.started + (if |Line(m, t)| > 1 then [Line(m, t)[1]] else [])
  {
    var r := Next(m, t);
    var w := m.waiting[t];
    if t !in m.current {
      assert m.current - {t} == m.current;
      assert r == m;
    } else {
      if w != [] {
        ReverseDropLast(w);
        assert Line(r, t) == Reverse(w) == Line(m, t)[1..];
        assert Line(m, t)[1] == w[|w| - 1];
      } else {
        assert Line(r, t) == [] == Line(m, t)[1..];
      }
      forall j | j in Line(r, t) ensures j.trackType == t {
        assert j in Line(m, t);
      }
    }
  }

  /** `done` for type `t` leaves the other type's state alone. */
  lemma {:induction false} NextKeepsOther(m: Manager, t: TrackType, u: TrackType)
    requires WellFormed(m) && u != t
    ensures Line(Next(m, t), u) == Line(m, u)
    ensures Next(m, t).waiting[u] == m.waiting[u] && (u in Next(m, t).current <==> u in m.current)
  {
  }

  /** Registers `jobs` one after the other. */
  function AddAll(m: Manager, jobs: seq<Job>): (r: Manager)
    requires WellFormed(m)
    ensures WellFormed(r)
    decreases |jobs|
  {
    if jobs == [] then m else AddAll(Add(m, jobs[0]), jobs[1..])
  }

  /** `n` successive `done` signals from the running job of type `t`. */
  function NextN(m: Manager, t: TrackType, n: nat): (r: Manager)
    requires WellFormed(m)
    ensures WellFormed(r)
    decreases n
  {
    if n == 0 then m else NextN(Next(m, t), t, n - 1)
  }

  /** New, distinct registrations join the line in registration order. */
  lemma {:induction false} AddAllJoinsLine(m: Manager, t: TrackType, jobs: seq<Job>)
    requires Inv(m) && Distinct(jobs)
    requires forall j | j in jobs :: j.trackType == t && j !in Line(m, t)
    ensures Inv(AddAll(m, jobs))
    ensures Line(AddAll(m, jobs), t) == Line(m, t) + jobs
    ensures Line(m, t) != [] ==> AddAll(m, jobs).started == m.started
    decreases |jobs|
  {
    if jobs != [] {
      var m1 := Add(m, jobs[0]);
      AddJoinsLine(m, jobs[0]);
      assert Line(m1, t) == Line(m, t) + [jobs[0]];
      forall j | j in jobs[1..] ensures j.trackType == t && j !in Line(m1, t) {
        assert j in jobs;
        assert j != jobs[0];
      }
      AddAllJoinsLine(m1, t, jobs[1..]);
      assert jobs == [jobs[0]] + jobs[1..];
    }
  }

  /** `n` completions start the next `n` jobs of the line, in line order. */
  lemma {:induction false} NextNServesLine(m: Manager, t: TrackType, n: nat)
    requires WellFormed(m) && TypeInv(m, t) && n < |Line(m, t)|
    ensures Line(NextN(m, t, n), t) == Line(m, t)[n..]
    ensures NextN(m, t, n).started == m.started + Line(m, t)[1..n + 1]
    decreases n
  {
    if n > 0 {
      var m1 := Next(m, t);
      NextOwnLine(m, t);
      NextNServesLine(m1, t, n - 1);
      ShiftSlices(m.started, Line(m, t), Line(m1, t), n);
    }
  }

  lemma ShiftSlices<T>(s0: seq<T>, line: seq<T>, rest: seq<T>, n: nat)
    requires 0 < n < |line| && rest == line[1..]
    ensures rest[n - 1..] == line[n..]
    ensures s0 + [line[1]] + rest[1..n] == s0 + line[1..n + 1]
  {
    assert [line[1]] + rest[1..n] == line[1..n + 1];
    assert s0 + [line[1]] + rest[1..n] == s0 + ([line[1]] + rest[1..n]);
    assert rest[1..n] == line[2..n + 1];
  }

  /**
   * FIFO service: while a job of type `t` runs, jobs registered one after the
   * other are started, once everything before them has completed, in exactly
   * the order in which they registered.
   */
  lemma {:induction false} StartOrderIsRegistrationOrder(m: Manager, t: TrackType, jobs: seq<Job>)
    requires Inv(m) && t in m.current && Distinct(jobs)
    requires forall j | j in jobs :: j.trackType == t && j !in Line(m, t)
    ensures NextN(AddAll(m, jobs), t, |Line(m, t)| - 1 + |jobs|).started == m.started + Line(m, t)[1..] + jobs
  {
    assert Line(m, t) != [];
    AddAllJoinsLine(m, t, jobs);
    ServeAfterJoin(AddAll(m, jobs), t, m.started, Line(m, t), jobs);
  }

  /** Serving a line made of `line` then `jobs` starts `line`'s waiters, then `jobs`. */
  lemma {:induction false} ServeAfterJoin(m: Manager, t: TrackType, s0: seq<Job>, line: seq<Job>, jobs: seq<Job>)
    requires Inv(m) && line != [] && Line(m, t) == line + jobs && m.started == s0
    ensures NextN(m, t, |line| - 1 + |jobs|).started == s0 + line[1..] + jobs
  {
    var n := |line| - 1 + |jobs|;
    assert TypeInv(m, t);
    NextNServesLine(m, t, n);
    ServeAll(s0, line, jobs, Line(m, t), NextN(m, t, n).started);
  }

  lemma ServeAll(s0: seq<Job>, line: seq<Job>, jobs: seq<Job>, whole: seq<Job>, out: seq<Job>)
    requires line != [] && whole == line + jobs && out == s0 + whole[1..]
    ensures out == s0 + line[1..] + jobs
  {
    DropHead(line, jobs);
    assert out == s0 + (line[1..] + jobs);
  }

  /** The manager object: `_cpipeline`, `_pipelines` and the start log. */
  class PreviewGeneratorManager {
    var current: map<TrackType, Job>
    var waiting: map<TrackType, seq<Job>>
    var started: seq<Job>

    ghost function Model(): Manager
      reads this
    {
      Manager(current, waiting, started)
    }

    ghost predicate Valid()
      reads this
    {
      Inv(Model())
    }

    constructor ()
      ensures Valid()
      ensures current == map[] && waiting == map[Audio := [], Video := []] && started == []
    {
      current := map[];
      waiting := map[Audio := [], Video := []];
      started := [];
      new;
      forall t: TrackType ensures t in waiting {
        assert t == Audio || t == Video;
      }
    }

    /**
     * `addPipeline`: registers `job`. The result tells whether `_setPipeline`
     * made it the running job, in which case the source calls the
     * previewer's `startGeneration` before returning; the registering
     * previewer does that on this answer.
     */
    method AddPipeline(job: Job) returns (startNow: bool)
      requires Valid()
      modifies this
      ensures Valid() && Model() == Add(old(Model()), job)
      ensures startNow <==> Line(old(Model()), job.trackType) == []
    {
      AddJoinsLine(Model(), job);
      LineMembers(Model(), job.trackType, job);
      var t := job.trackType;
      var cur: Option<Job> := if t in current then Some(current[t]) else None;
      if job in waiting[t] || cur == Some(job) {
        // already waiting or already running
        return false;
      }
      if waiting[t] == [] && cur == None {
        SetPipeline(job);
        startNow := true;
      } else {
        waiting := waiting[t := [job] + waiting[t]];
        startNow := false;
      }
    }

    /**
     * `_setPipeline`: makes `job` the running job of its type; the start of
     * its generation is recorded in `started`.
     */
    method SetPipeline(job: Job)
      modifies this
      ensures current == old(current)[job.trackType := job]
      ensures waiting == old(waiting) && started == old(started) + [job]
    {
      current := current[job.trackType := job];
      started := started + [job];
    }

    /** The `done` handler of the running job `controlled`. */
    method NextPipeline(controlled: Job)
      requires Valid()
      modifies this
      ensures Valid() && Model() == Next(old(Model()), controlled.trackType)
    {
      var t := controlled.trackType;
      NextPopsLine(Model(), t);
      assert TypeInv(Model(), t);
      current := current - {t};
      if waiting[t] != [] {
        var w := waiting[t];
        LineMembers(old(Model()), t, w[|w| - 1]);
        waiting := waiting[t := w[..|w| - 1]];
        SetPipeline(w[|w| - 1]);
      }
    }

    /** `job` emits `done`: the handler runs only if `job` is the running job. */
    method EmitDone(job: Job)
      requires Valid()
      modifies this
      ensures Valid() && Model() == Done(old(Model()), job)
    {
      var t := job.trackType;
      if t in current && current[t] == job {
        NextPipeline(job);
      }
    }
  }
}
