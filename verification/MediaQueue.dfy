/**
 * The media offload queue of the archiver (archiver/src/media.ts): one worker, a bounded queue with
 * retries, and a bounded memory of the keys already seen. The code between two awaits is one step.
 */
module MediaQueue {
  import opened Options
  import opened Sequences

  const QUEUE_CAP: nat := 50000
  const MAX_JOB_ATTEMPTS: nat := 5
  const SEEN_MAX_SIZE: nat := 100_000
  const BACKOFF: nat := 60_000

  /** session:chat:message; ids hold no colon. */
  datatype Key = Key(session: string, chat: string, message: string)

  /** `id` numbers the accepted jobs; the source has no such field. */
  datatype Job = Job(key: Key, fileId: string, attempts: nat, notBefore: int, id: nat)

  /** What became of an accepted job. */
  datatype Fate = Waiting | InWork | Uploaded | Skipped | FailedForGood | GivenUp | Purged

  /** How process() ends: its three results, and the two kinds of error it throws. */
  datatype Result = Done | Retry | Skip | Permanent | Retriable

  datatype Media = Media(
    queue: seq<Job>,
    busy: Option<Job>,
    seen: seq<Key>,        // a JavaScript Map: oldest insertion first
    running: bool,
    uploaded: nat,
    failed: nat,
    fates: seq<Fate>,      // by job id
    runs: seq<nat>,        // how often process() ran, by job id
    skipped: nat,
    permanent: nat,
    givenUp: nat,
    purged: nat,
    touches: nat,          // how many touches there were
    touched: map<Key, nat>)  // when each key was last touched

  datatype Action =
    | Enqueue(key: Key, fileId: string)
    | Take(now: int)
    | Settle(result: Result, now: int)
    | Purge(session: string)
    | Forget(key: Key)
    | Stop

  function Fresh(): Media {
    Media([], None, [], true, 0, 0, [], [], 0, 0, 0, 0, 0, map[])
  }

  /** delete then set: the key moves to the end. */
  function TouchSeen(m: Media, k: Key): Media {
    m.(seen := Without(m.seen, k) + [k], touches := m.touches + 1, touched := m.touched[k := m.touches])
  }

  /** The oldest key makes room. */
  function MarkSeen(m: Media, k: Key): Media {
    m.(seen := (if |m.seen| >= SEEN_MAX_SIZE then m.seen[1..] else m.seen) + [k],
       touches := m.touches + 1, touched := m.touched[k := m.touches])
  }

  function EnqueueJob(m: Media, k: Key, fileId: string): Media {
    if k in m.seen then TouchSeen(m, k)
    else if |m.queue| >= QUEUE_CAP then m
    else
      MarkSeen(m, k).(queue := m.queue + [Job(k, fileId, 0, 0, |m.fates|)],
        fates := m.fates + [Waiting], runs := m.runs + [0])
  }

  function SetFate(m: Media, id: nat, f: Fate): Media {
    if id < |m.fates| then m.(fates := m.fates[id := f]) else m
  }

  function TakeJob(m: Media, now: int): Media {
    if !m.running || m.busy.Some? || m.queue == [] then m
    else
      var job := m.queue[0];
      if job.notBefore > now then m.(queue := m.queue[1..] + [job])
      else
        SetFate(m, job.id, InWork).(queue := m.queue[1..], busy := Some(job),
          runs := if job.id < |m.runs| then m.runs[job.id := m.runs[job.id] + 1] else m.runs)
  }

  /** requeueOrGiveUp: the length of the queue is not looked at. */
  function RequeueOrGiveUp(m: Media, job: Job, now: int): Media {
    var tries := job.attempts + 1;
    if tries < MAX_JOB_ATTEMPTS then
      SetFate(m, job.id, Waiting).(queue := m.queue + [job.(attempts := tries, notBefore := now + BACKOFF * tries)])
    else
      SetFate(m, job.id, GivenUp).(failed := m.failed + 1, seen := Without(m.seen, job.key), givenUp := m.givenUp + 1)
  }

  function SettleJob(m: Media, r: Result, now: int): Media {
    if m.busy.None? then m
    else
      var job, t := m.busy.value, m.(busy := None);
      match r
      case Done => SetFate(t, job.id, Uploaded).(uploaded := m.uploaded + 1)
      case Skip => SetFate(t, job.id, Skipped).(skipped := m.skipped + 1)
      case Permanent => SetFate(t, job.id, FailedForGood).(failed := m.failed + 1, permanent := m.permanent + 1)
      case Retry => RequeueOrGiveUp(t, job, now)
      case Retriable => RequeueOrGiveUp(t, job, now)
  }

  function Kept(q: seq<Job>, session: string): (r: seq<Job>)
    ensures |r| <= |q|
  {
    if q == [] then []
    else if q[0].key.session == session then Kept(q[1..], session) else [q[0]] + Kept(q[1..], session)
  }

  predicate QueuedFor(q: seq<Job>, session: string, id: nat) {
    exists i | 0 <= i < |q| :: q[i].id == id && q[i].key.session == session
  }

  /** purgeSession: the queued jobs of the session go; the one in work stays. */
  function PurgeQueue(m: Media, session: string): Media {
    m.(queue := Kept(m.queue, session),
       fates := seq(|m.fates|, i requires 0 <= i < |m.fates| =>
         if QueuedFor(m.queue, session, i) then Purged else m.fates[i]),
       purged := m.purged + |m.queue| - |Kept(m.queue, session)|)
  }

  function Step(m: Media, a: Action): Media {
    match a
    case Enqueue(k, fileId) => EnqueueJob(m, k, fileId)
    case Take(now) => TakeJob(m, now)
    case Settle(r, now) => SettleJob(m, r, now)
    case Purge(session) => PurgeQueue(m, session)
    case Forget(k) => m.(seen := Without(m.seen, k))
    case Stop => m.(running := false)
  }

  function Run(m: Media, acts: seq<Action>): Media
    decreases |acts|
  {
    if acts == [] then m else Run(Step(m, acts[0]), acts[1..])
  }

  // ------------------------------------------------------------------ what the steps do

  /** Nothing of the queue, the job in work and the counters differs. */
  predicate SameWork(m: Media, r: Media) {
    && r.queue == m.queue && r.busy == m.busy && r.running == m.running
    && r.uploaded == m.uploaded && r.failed == m.failed && r.fates == m.fates && r.runs == m.runs
  }

  /**
   * A key seen before is only moved to the recent end; a full queue takes nothing in; any other job waits at
   * the end of the queue, due at once, and its key is remembered.
   */
  predicate EnqueuedAs(m: Media, k: Key, fileId: string, r: Media) {
    && (k in m.seen ==> SameWork(m, r) && r.seen != [] && r.seen[|r.seen| - 1] == k)
    && (k !in m.seen && |m.queue| >= 50000 ==> r == m)
    && (k !in m.seen && |m.queue| < 50000 ==>
         && r.queue == m.queue + [Job(k, fileId, 0, 0, |m.fates|)] && r.busy == m.busy
         && r.fates == m.fates + [Waiting] && r.seen != [] && r.seen[|r.seen| - 1] == k)
  }

  lemma EnqueueExactly(m: Media, k: Key, fileId: string)
    ensures EnqueuedAs(m, k, fileId, EnqueueJob(m, k, fileId))
  {
  }

  /** The first job goes into work if it is due and the worker is free, and to the end if it is not due. */
  predicate TakenAs(m: Media, now: int, r: Media) {
    && r.seen == m.seen && r.uploaded == m.uploaded && r.failed == m.failed
    && (!m.running || m.busy.Some? || m.queue == [] ==> r == m)
    && (m.running && m.busy.None? && m.queue != [] ==>
         && (r.busy == if m.queue[0].notBefore > now then None else Some(m.queue[0]))
         && r.queue == m.queue[1..] + if m.queue[0].notBefore > now then [m.queue[0]] else [])
  }

  lemma TakeExactly(m: Media, now: int)
    ensures TakenAs(m, now, TakeJob(m, now))
  {
    if m.queue != [] {
      assert m.queue[1..] + [] == m.queue[1..];
    }
  }

  /** How a job ends with this result, if it does: the retried ones do at the fifth attempt. */
  predicate EndsWith(job: Job, res: Result, f: Fate) {
    match res
    case Done => f == Uploaded
    case Skip => f == Skipped
    case Permanent => f == FailedForGood
    case _ => job.attempts + 1 >= 5 && f == GivenUp
  }

  /** The job waits again at the end of the queue, a minute longer for every attempt it has had. */
  predicate WaitsAgain(m: Media, job: Job, now: int, r: Media)
    requires job.id < |m.fates|
  {
    && r.queue == m.queue + [Job(job.key, job.fileId, job.attempts + 1, now + 60_000 * (job.attempts + 1), job.id)]
    && r.fates == m.fates[job.id := Waiting] && r.seen == m.seen
    && r.uploaded == m.uploaded && r.failed == m.failed
  }

  /** What a result makes of the job in work; only a job given up may be enqueued anew. */
  predicate SettledAs(m: Media, res: Result, now: int, r: Media)
    requires m.busy.Some? && m.busy.value.id < |m.fates|
  {
    var job := m.busy.value;
    var again := (res == Retry || res == Retriable) && job.attempts + 1 < 5;
    && r.busy == None && r.running == m.running
    && (again ==> WaitsAgain(m, job, now, r))
    && (!again ==>
         && r.queue == m.queue && |r.fates| == |m.fates| && EndsWith(job, res, r.fates[job.id])
         && r.fates == m.fates[job.id := r.fates[job.id]]
         && r.uploaded == m.uploaded + (if res == Done then 1 else 0)
         && r.failed == m.failed + (if res == Done || res == Skip then 0 else 1)
         && r.seen == if res == Retry || res == Retriable then Without(m.seen, job.key) else m.seen)
  }

  lemma SettleExactly(m: Media, res: Result, now: int)
    requires m.busy.Some? && m.busy.value.id < |m.fates|
    ensures SettledAs(m, res, now, SettleJob(m, res, now))
  {
  }

  // ------------------------------------------------------------------ the invariant

  predicate InQueue(q: seq<Job>, id: nat) {
    exists i | 0 <= i < |q| :: q[i].id == id
  }

  predicate DistinctIds(q: seq<Job>) {
    forall i, j | 0 <= i < j < |q| :: q[i].id != q[j].id
  }

  /** A queued job waits, and ran once per attempt counted in it. */
  predicate QueueOk(q: seq<Job>, fates: seq<Fate>, runs: seq<nat>) {
    && |runs| == |fates|
    && DistinctIds(q)
    && (forall i | 0 <= i < |q| ::
         q[i].id < |fates| && fates[q[i].id] == Waiting && runs[q[i].id] == q[i].attempts < MAX_JOB_ATTEMPTS)
  }

  predicate BusyOk(busy: Option<Job>, fates: seq<Fate>, runs: seq<nat>)
    requires |runs| == |fates|
  {
    busy.Some? ==>
      && busy.value.id < |fates| && fates[busy.value.id] == InWork
      && runs[busy.value.id] == busy.value.attempts + 1 <= MAX_JOB_ATTEMPTS
  }

  /** Every accepted job is where its fate says: waiting in the queue, in work, or at its end. */
  predicate FatesOk(m: Media) {
    && |m.runs| == |m.fates|
    && (forall id | 0 <= id < |m.fates| ::
         && (m.fates[id] == Waiting ==> InQueue(m.queue, id))
         && (m.fates[id] == InWork ==> m.busy.Some? && m.busy.value.id == id)
         && m.runs[id] <= MAX_JOB_ATTEMPTS)
  }

  function InFlight(m: Media): nat {
    if m.busy.Some? then 1 else 0
  }

  predicate CountsOk(m: Media) {
    && |m.fates| == |m.queue| + InFlight(m) + m.uploaded + m.skipped + m.permanent + m.givenUp + m.purged
    && m.failed == m.permanent + m.givenUp
    && |m.queue| + InFlight(m) <= QUEUE_CAP + 1
  }

  /** The keys stand in the order of their last touch, so each stands once. */
  predicate Ordered(seen: seq<Key>, touched: map<Key, nat>) {
    && (forall k | k in seen :: k in touched)
    && (forall i, j | 0 <= i < j < |seen| :: touched[seen[i]] < touched[seen[j]])
  }

  predicate SeenOk(seen: seq<Key>, touches: nat, touched: map<Key, nat>) {
    && |seen| <= SEEN_MAX_SIZE && Ordered(seen, touched)
    && (forall k | k in seen :: touched[k] < touches)
  }

  predicate Inv(m: Media) {
    && QueueOk(m.queue, m.fates, m.runs) && BusyOk(m.busy, m.fates, m.runs)
    && FatesOk(m) && CountsOk(m) && SeenOk(m.seen, m.touches, m.touched)
  }

  // ------------------------------------------------------------------ the memory of keys

  lemma OrderedTail(s: seq<Key>, touched: map<Key, nat>)
    requires s != [] && Ordered(s, touched)
    ensures Ordered(s[1..], touched) && forall x | x in s[1..] :: touched[s[0]] < touched[x]
  {
    var rest := s[1..];
    assert forall i | 0 <= i < |rest| :: rest[i] == s[i + 1];
  }

  lemma OrderedCons(h: Key, w: seq<Key>, touched: map<Key, nat>)
    requires Ordered(w, touched) && h in touched && forall x | x in w :: touched[h] < touched[x]
    ensures Ordered([h] + w, touched)
  {
    var r := [h] + w;
    assert forall i | 0 < i < |r| :: r[i] == w[i - 1];
  }

  /** Taking out one key keeps the others in their order. */
  lemma {:induction false} WithoutKeeps(s: seq<Key>, k: Key, touched: map<Key, nat>)
    requires Ordered(s, touched)
    ensures Ordered(Without(s, k), touched)
    ensures forall x :: x in Without(s, k) <==> x in s && x != k
    ensures |Without(s, k)| == if k in s then |s| - 1 else |s|
    decreases |s|
  {
    if s != [] {
      var rest := s[1..];
      assert s == [s[0]] + rest;
      OrderedTail(s, touched);
      WithoutKeeps(rest, k, touched);
      if s[0] != k {
        OrderedCons(s[0], Without(rest, k), touched);
      }
      forall x ensures x in Without(s, k) <==> x in s && x != k {
        assert x in s <==> x == s[0] || x in rest;
      }
    }
  }

  lemma AppendTouched(s: seq<Key>, k: Key, touches: nat, touched: map<Key, nat>)
    requires SeenOk(s, touches, touched) && k !in s && |s| < SEEN_MAX_SIZE
    ensures SeenOk(s + [k], touches + 1, touched[k := touches])
  {
    forall i | 0 <= i < |s| ensures s[i] != k { assert s[i] in s; }
  }

  lemma TouchKeeps(m: Media, k: Key)
    requires SeenOk(m.seen, m.touches, m.touched) && k in m.seen
    ensures var r := TouchSeen(m, k); SeenOk(r.seen, r.touches, r.touched) && (forall x :: x in r.seen <==> x in m.seen)
  {
    WithoutKeeps(m.seen, k, m.touched);
    AppendTouched(Without(m.seen, k), k, m.touches, m.touched);
  }

  /** What a new key pushes out, if anything, is the key touched longest ago. */
  lemma MarkEvictsLeastRecent(m: Media, k: Key)
    requires SeenOk(m.seen, m.touches, m.touched) && k !in m.seen
    ensures var r := MarkSeen(m, k);
      && SeenOk(r.seen, r.touches, r.touched) && k in r.seen
      && (forall x | x in m.seen && x !in r.seen ::
           |m.seen| == SEEN_MAX_SIZE && forall y | y in r.seen && y != k :: y in m.seen && m.touched[x] < m.touched[y])
  {
    var r := MarkSeen(m, k);
    if |m.seen| < SEEN_MAX_SIZE {
      AppendTouched(m.seen, k, m.touches, m.touched);
      assert forall x | x in m.seen :: x in r.seen;
    } else {
      var rest := m.seen[1..];
      assert m.seen == [m.seen[0]] + rest;
      OrderedTail(m.seen, m.touched);
      AppendTouched(rest, k, m.touches, m.touched);
      assert forall x :: x in r.seen <==> x in rest || x == k;
    }
  }

  // ------------------------------------------------------------------ the actions

  lemma AcceptKeeps(m: Media, k: Key, fileId: string)
    requires QueueOk(m.queue, m.fates, m.runs) && BusyOk(m.busy, m.fates, m.runs) && FatesOk(m)
    requires k !in m.seen && |m.queue| < QUEUE_CAP
    ensures var r := EnqueueJob(m, k, fileId);
      QueueOk(r.queue, r.fates, r.runs) && BusyOk(r.busy, r.fates, r.runs) && FatesOk(r)
  {
    var r := EnqueueJob(m, k, fileId);
    assert r.queue[|m.queue|].id == |m.fates|;
    forall id | 0 <= id < |m.fates| && InQueue(m.queue, id) ensures InQueue(r.queue, id) {
      var i :| 0 <= i < |m.queue| && m.queue[i].id == id;
      assert r.queue[i].id == id;
    }
  }

  lemma EnqueueKeeps(m: Media, k: Key, fileId: string)
    requires Inv(m)
    ensures Inv(EnqueueJob(m, k, fileId))
  {
    if k in m.seen {
      TouchKeeps(m, k);
    } else if |m.queue| < QUEUE_CAP {
      MarkEvictsLeastRecent(m, k);
      AcceptKeeps(m, k, fileId);
    }
  }

  lemma TailOfQueue(q: seq<Job>, fates: seq<Fate>, runs: seq<nat>)
    requires q != [] && QueueOk(q, fates, runs)
    ensures QueueOk(q[1..], fates, runs) && !InQueue(q[1..], q[0].id)
    ensures forall id: nat :: InQueue(q, id) ==> id == q[0].id || InQueue(q[1..], id)
  {
    var rest := q[1..];
    assert forall i | 0 <= i < |rest| :: rest[i] == q[i + 1];
    forall id: nat | InQueue(q, id) && id != q[0].id ensures InQueue(rest, id) {
      var i :| 0 <= i < |q| && q[i].id == id;
      assert rest[i - 1].id == id;
    }
  }

  lemma SnocInQueue(q: seq<Job>, job: Job)
    ensures forall id: nat :: InQueue(q + [job], id) <==> InQueue(q, id) || id == job.id
  {
    var r := q + [job];
    forall id: nat ensures InQueue(r, id) <==> InQueue(q, id) || id == job.id {
      if InQueue(q, id) {
        var i :| 0 <= i < |q| && q[i].id == id;
        assert r[i].id == id;
      } else if id == job.id {
        assert r[|q|].id == id;
      }
    }
  }

  lemma RotateKeeps(m: Media)
    requires Inv(m) && m.queue != [] && m.busy.None?
    ensures Inv(m.(queue := m.queue[1..] + [m.queue[0]]))
  {
    TailOfQueue(m.queue, m.fates, m.runs);
    SnocInQueue(m.queue[1..], m.queue[0]);
    forall i | 0 <= i < |m.queue| - 1 ensures m.queue[1..][i].id != m.queue[0].id {
      assert m.queue[i + 1].id != m.queue[0].id;
    }
  }

  lemma TakeKeeps(m: Media, now: int)
    requires Inv(m)
    ensures Inv(TakeJob(m, now))
  {
    if m.running && m.busy.None? && m.queue != [] {
      if m.queue[0].notBefore > now {
        RotateKeeps(m);
      } else {
        TailOfQueue(m.queue, m.fates, m.runs);
        forall i | 0 <= i < |m.queue| - 1 ensures m.queue[1..][i].id != m.queue[0].id {
          assert m.queue[i + 1].id != m.queue[0].id;
        }
      }
    }
  }

  lemma RetryKeeps(m: Media, job: Job, now: int)
    requires Inv(m) && m.busy == Some(job) && job.attempts + 1 < MAX_JOB_ATTEMPTS
    ensures Inv(RequeueOrGiveUp(m.(busy := None), job, now))
  {
    var r := RequeueOrGiveUp(m.(busy := None), job, now);
    SnocInQueue(m.queue, r.queue[|m.queue|]);
    assert FatesOk(r);
  }

  lemma GiveUpKeeps(m: Media, job: Job, now: int)
    requires Inv(m) && m.busy == Some(job) && job.attempts + 1 >= MAX_JOB_ATTEMPTS
    ensures Inv(RequeueOrGiveUp(m.(busy := None), job, now))
  {
    WithoutKeeps(m.seen, job.key, m.touched);
  }

  lemma RequeueKeeps(m: Media, job: Job, now: int)
    requires Inv(m) && m.busy == Some(job)
    ensures Inv(RequeueOrGiveUp(m.(busy := None), job, now))
  {
    if job.attempts + 1 < MAX_JOB_ATTEMPTS {
      RetryKeeps(m, job, now);
    } else {
      GiveUpKeeps(m, job, now);
    }
  }

  lemma SettleKeeps(m: Media, res: Result, now: int)
    requires Inv(m)
    ensures Inv(SettleJob(m, res, now))
  {
    if m.busy.Some? && (res.Retry? || res.Retriable?) {
      RequeueKeeps(m, m.busy.value, now);
    }
  }

  lemma InQueueCons(h: Job, q: seq<Job>)
    ensures forall id: nat :: InQueue([h] + q, id) <==> h.id == id || InQueue(q, id)
  {
    var r := [h] + q;
    forall id: nat ensures InQueue(r, id) <==> h.id == id || InQueue(q, id) {
      if InQueue(q, id) {
        var i :| 0 <= i < |q| && q[i].id == id;
        assert r[i + 1].id == id;
      } else if h.id == id {
        assert r[0].id == id;
      }
    }
  }

  lemma QueuedForCons(h: Job, q: seq<Job>, session: string)
    ensures forall id: nat :: QueuedFor([h] + q, session, id) <==>
      (h.id == id && h.key.session == session) || QueuedFor(q, session, id)
  {
    var r := [h] + q;
    forall id: nat ensures QueuedFor(r, session, id) <==>
      (h.id == id && h.key.session == session) || QueuedFor(q, session, id) {
      if QueuedFor(q, session, id) {
        var i :| 0 <= i < |q| && q[i].id == id && q[i].key.session == session;
        assert r[i + 1].id == id && r[i + 1].key.session == session;
      } else if h.id == id && h.key.session == session {
        assert r[0].id == id;
      }
    }
  }

  lemma QueueOkCons(h: Job, q: seq<Job>, fates: seq<Fate>, runs: seq<nat>)
    requires QueueOk(q, fates, runs) && QueueOk([h], fates, runs) && !InQueue(q, h.id)
    ensures QueueOk([h] + q, fates, runs)
  {
    var r := [h] + q;
    assert [h][0] == h;
    forall i | 0 <= i < |r| ensures r[i] == if i == 0 then h else q[i - 1] {}
    forall j | 0 <= j < |q| ensures q[j].id != h.id {}
  }

  /** Filtering keeps the jobs of the other sessions, in order. */
  lemma {:induction false} KeptIs(q: seq<Job>, session: string, fates: seq<Fate>, runs: seq<nat>)
    requires QueueOk(q, fates, runs)
    ensures QueueOk(Kept(q, session), fates, runs)
    ensures forall id: nat :: InQueue(Kept(q, session), id) <==> InQueue(q, id) && !QueuedFor(q, session, id)
    decreases |q|
  {
    if q != [] {
      var h, rest := q[0], q[1..];
      TailOfQueue(q, fates, runs);
      KeptIs(rest, session, fates, runs);
      assert q == [h] + rest;
      InQueueCons(h, rest);
      QueuedForCons(h, rest, session);
      if h.key.session != session {
        InQueueCons(h, Kept(rest, session));
        QueueOkCons(h, Kept(rest, session), fates, runs);
      }
      assert !InQueue(rest, h.id);
      assert !QueuedFor(rest, session, h.id) by {
        assert QueuedFor(rest, session, h.id) ==> InQueue(rest, h.id);
      }
    }
  }

  /** A purge ends exactly the waiting jobs of its session; the others go on waiting, and the one in work goes on. */
  lemma PurgeExactly(m: Media, session: string)
    requires Inv(m)
    ensures var r := Step(m, Purge(session));
      && r.busy == m.busy && r.seen == m.seen && |r.fates| == |m.fates|
      && (forall j :: j in r.queue <==> j in m.queue && j.key.session != session)
      && (forall id: nat | id < |m.fates| ::
           r.fates[id] == if QueuedFor(m.queue, session, id) then Purged else m.fates[id])
  {
    OthersKept(m.queue, session);
  }

  lemma {:induction false} OthersKept(q: seq<Job>, session: string)
    ensures forall j :: j in Kept(q, session) <==> j in q && j.key.session != session
    decreases |q|
  {
    if q != [] {
      OthersKept(q[1..], session);
      assert q == [q[0]] + q[1..];
    }
  }

  lemma PurgeKeeps(m: Media, session: string)
    requires Inv(m)
    ensures Inv(PurgeQueue(m, session))
  {
    var r := PurgeQueue(m, session);
    KeptIs(m.queue, session, m.fates, m.runs);
    forall i | 0 <= i < |r.queue| ensures r.fates[r.queue[i].id] == Waiting {
      assert InQueue(r.queue, r.queue[i].id);
    }
    if m.busy.Some? {
      assert !QueuedFor(m.queue, session, m.busy.value.id);
    }
  }

  lemma StepKeeps(m: Media, a: Action)
    requires Inv(m)
    ensures Inv(Step(m, a))
  {
    match a {
      case Enqueue(k, fileId) => EnqueueKeeps(m, k, fileId);
      case Take(now) => TakeKeeps(m, now);
      case Settle(res, now) => SettleKeeps(m, res, now);
      case Purge(session) => PurgeKeeps(m, session);
      case Forget(k) => WithoutKeeps(m.seen, k, m.touched);
      case Stop =>
    }
  }

  lemma {:induction false} RunKeepsInv(m: Media, acts: seq<Action>)
    requires Inv(m)
    ensures Inv(Run(m, acts))
    decreases |acts|
  {
    if acts != [] {
      StepKeeps(m, acts[0]);
      RunKeepsInv(Step(m, acts[0]), acts[1..]);
    }
  }

  lemma FreshIsInv()
    ensures Inv(Fresh())
  {
  }

  /**
   * The queue and the job in work never exceed the cap by more than one, although a requeue does not look
   * at it; every accepted job is processed at most five times; the accepted jobs are exactly those queued,
   * in work, or ended in one of five ways; and the memory of keys stays within its bound.
   */
  predicate Bounded(m: Media) {
    && |m.queue| + InFlight(m) <= QUEUE_CAP + 1
    && (forall n | n in m.runs :: n <= MAX_JOB_ATTEMPTS)
    && |m.fates| == |m.queue| + InFlight(m) + m.uploaded + m.skipped + m.permanent + m.givenUp + m.purged
    && m.failed == m.permanent + m.givenUp
    && |m.seen| <= SEEN_MAX_SIZE
  }

  lemma InvIsBounded(m: Media)
    requires Inv(m)
    ensures Bounded(m)
  {
    RunsBounded(m);
  }

  /** So in every run. */
  lemma QueueStaysBounded(acts: seq<Action>)
    ensures Bounded(Run(Fresh(), acts))
  {
    var m := Fresh();
    FreshIsInv();
    RunKeepsInv(m, acts);
    InvIsBounded(Run(m, acts));
  }

  lemma RunsBounded(m: Media)
    requires FatesOk(m)
    ensures forall n | n in m.runs :: n <= MAX_JOB_ATTEMPTS
  {
    forall n | n in m.runs ensures n <= MAX_JOB_ATTEMPTS {
      var id :| 0 <= id < |m.runs| && m.runs[id] == n;
    }
  }

  predicate Ended(f: Fate) {
    f != Waiting && f != InWork
  }

  predicate EndKept(m: Media, r: Media, id: nat)
    requires id < |m.fates| && id < |m.runs|
  {
    id < |r.fates| && id < |r.runs| && r.fates[id] == m.fates[id] && r.runs[id] == m.runs[id]
  }

  lemma WorkKeepsEnds(m: Media, a: Action, id: nat)
    requires QueueOk(m.queue, m.fates, m.runs) && BusyOk(m.busy, m.fates, m.runs)
    requires id < |m.fates| && Ended(m.fates[id]) && (a.Take? || a.Settle?)
    ensures EndKept(m, Step(m, a), id)
  {
  }

  lemma OthersKeepEnds(m: Media, a: Action, id: nat)
    requires QueueOk(m.queue, m.fates, m.runs)
    requires id < |m.fates| && Ended(m.fates[id]) && !a.Take? && !a.Settle?
    ensures EndKept(m, Step(m, a), id)
  {
    if a.Purge? {
      assert !QueuedFor(m.queue, a.session, id);
    }
  }

  lemma StepKeepsEnds(m: Media, a: Action, id: nat)
    requires Inv(m) && id < |m.fates| && Ended(m.fates[id])
    ensures EndKept(m, Step(m, a), id)
  {
    if a.Take? || a.Settle? {
      WorkKeepsEnds(m, a, id);
    } else {
      OthersKeepEnds(m, a, id);
    }
  }

  /** A job that ended stays as it ended and is not processed again. */
  lemma {:induction false} EndedForGood(m: Media, acts: seq<Action>, id: nat)
    requires Inv(m) && id < |m.fates| && Ended(m.fates[id])
    ensures EndKept(m, Run(m, acts), id)
    decreases |acts|
  {
    if acts != [] {
      StepKeeps(m, acts[0]);
      StepKeepsEnds(m, acts[0], id);
      EndedForGood(Step(m, acts[0]), acts[1..], id);
    }
  }

  // ------------------------------------------------------------------ the offloader, in place

  /** The source's fields, and after them the ledger of View, which the source does not keep. */
  class MediaOffloader {
    var queue: seq<Job>
    var busy: Option<Job>
    var seen: seq<Key>
    var running: bool
    var uploaded: nat
    var failed: nat
    var fates: seq<Fate>
    var runs: seq<nat>
    var skipped: nat
    var permanent: nat
    var givenUp: nat
    var purged: nat
    var touches: nat
    var touched: map<Key, nat>

    function View(): Media
      reads this
    {
      Media(queue, busy, seen, running, uploaded, failed, fates, runs,
            skipped, permanent, givenUp, purged, touches, touched)
    }

    constructor ()
      ensures View() == Fresh()
    {
      queue, busy, seen, running, uploaded, failed := [], None, [], true, 0, 0;
      fates, runs, skipped, permanent, givenUp, purged, touches, touched := [], [], 0, 0, 0, 0, 0, map[];
    }

    method Delete(k: Key)
      modifies this`seen
      ensures seen == Without(old(seen), k)
    {
      var i := 0;
      while i < |seen|
        invariant i <= |seen| && seen == old(seen) && k !in seen[..i]
      {
        if seen[i] == k {
          WithoutAt(seen, i, k);
          seen := seen[..i] + seen[i + 1..];
          return;
        }
        i := i + 1;
      }
      WithoutAt(seen, i, k);
    }

    method Touch(k: Key)
      modifies this`touches, this`touched, this`seen
      ensures View() == TouchSeen(old(View()), k)
    {
      Delete(k);
      seen := seen + [k];
      touched, touches := touched[k := touches], touches + 1;
    }

    method Mark(k: Key)
      modifies this`touches, this`touched, this`seen
      ensures View() == MarkSeen(old(View()), k)
    {
      if |seen| >= SEEN_MAX_SIZE {
        seen := seen[1..];
      }
      seen := seen + [k];
      touched, touches := touched[k := touches], touches + 1;
    }

    method EnqueueMedia(k: Key, fileId: string)
      modifies this
      ensures View() == Step(old(View()), Action.Enqueue(k, fileId))
      ensures EnqueuedAs(old(View()), k, fileId, View())
    {
      EnqueueExactly(View(), k, fileId);
      if k in seen {
        Touch(k);
        return;
      }
      if |queue| >= QUEUE_CAP { return; }
      Mark(k);
      queue := queue + [Job(k, fileId, 0, 0, |fates|)];
      fates, runs := fates + [Waiting], runs + [0];
    }

    /** The head of the loop, up to the call of process(). */
    method TakeNext(now: int) returns (job: Option<Job>)
      requires QueueOk(queue, fates, runs) && busy.None?
      modifies this
      ensures View() == Step(old(View()), Take(now)) && job == busy
      ensures TakenAs(old(View()), now, View())
    {
      TakeExactly(View(), now);
      if !running || queue == [] { return None; }
      var head := queue[0];
      queue := queue[1..];
      if head.notBefore > now {
        queue := queue + [head];
        return None;
      }
      busy := Some(head);
      fates, runs := fates[head.id := InWork], runs[head.id := runs[head.id] + 1];
      job := busy;
    }

    method Requeue(job: Job, now: int)
      requires job.id < |fates|
      modifies this
      ensures View() == RequeueOrGiveUp(old(View()), job, now)
    {
      var tries := job.attempts + 1;
      if tries < MAX_JOB_ATTEMPTS {
        queue := queue + [job.(attempts := tries, notBefore := now + BACKOFF * tries)];
        fates := fates[job.id := Waiting];
        return;
      }
      failed, givenUp := failed + 1, givenUp + 1;
      Delete(job.key);
      fates := fates[job.id := GivenUp];
    }

    /** The result of process() decides what becomes of the job. */
    method SettleBusy(res: Result, now: int)
      requires busy.Some? && busy.value.id < |fates|
      modifies this
      ensures View() == SettleJob(old(View()), res, now)
    {
      var job := busy.value;
      busy := None;
      match res {
        case Done => uploaded, fates := uploaded + 1, fates[job.id := Uploaded];
        case Skip => skipped, fates := skipped + 1, fates[job.id := Skipped];
        case Permanent => failed, permanent, fates := failed + 1, permanent + 1, fates[job.id := FailedForGood];
        case Retry => Requeue(job, now);
        case Retriable => Requeue(job, now);
      }
    }

    /** The rest of the loop body, once process() has ended. */
    method Finish(res: Result, now: int)
      requires busy.Some? && busy.value.id < |fates|
      modifies this
      ensures View() == Step(old(View()), Settle(res, now))
      ensures SettledAs(old(View()), res, now, View())
    {
      SettleExactly(View(), res, now);
      SettleBusy(res, now);
    }
  }
}
