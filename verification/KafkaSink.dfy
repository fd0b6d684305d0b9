/** The Kafka sink (src/events/kafka_sink.cpp): the bounded-queue worker whose hand-over is librdkafka's produce. */
module KafkaSink {
  import opened BatchWorker

  const KAFKA_MAX_QUEUE: nat := 20000

  datatype Message = Message(key: string, payload: string)

  datatype Action = Produce(m: Message) | Woken | HandOne | BatchDone | StopFlag

  /** produce() does not look at the stop flag. */
  function Step(w: Worker<Message>, a: Action): Worker<Message> {
    match a
    case Produce(m) => Enqueue(w, m, KAFKA_MAX_QUEUE, true)
    case Woken => Wake(w)
    case HandOne => Hand(w)
    case BatchDone => Sleep(w)
    case StopFlag => w.(stop := true)
  }

  function Run(w: Worker<Message>, acts: seq<Action>): Worker<Message>
    decreases |acts|
  {
    if acts == [] then w else Run(Step(w, acts[0]), acts[1..])
  }

  lemma StepKeeps(w: Worker<Message>, a: Action)
    requires Inv(w, KAFKA_MAX_QUEUE)
    ensures var r := Step(w, a);
      && Inv(r, KAFKA_MAX_QUEUE)
      && w.accepted <= r.accepted && w.handed <= r.handed
      && (w.exited ==> r.exited && r.handed == w.handed)
      && (r.exited && !w.exited ==> r.handed == w.accepted)
  {
    match a {
      case Produce(m) => EnqueueKeeps(w, m, KAFKA_MAX_QUEUE, true);
      case Woken => WakeKeeps(w, KAFKA_MAX_QUEUE);
      case HandOne => HandKeeps(w, KAFKA_MAX_QUEUE);
      case _ =>
    }
  }

  /**
   * In every interleaving: the messages handed to librdkafka are, in order and once each, a prefix of the
   * accepted ones; the queue stays within its bound; and by the time the worker has left, everything
   * accepted before it left, so everything accepted before stop, was handed on.
   */
  lemma {:induction false} KafkaHandsOverInOrder(w: Worker<Message>, acts: seq<Action>)
    requires Inv(w, KAFKA_MAX_QUEUE)
    ensures var r := Run(w, acts);
      && Inv(r, KAFKA_MAX_QUEUE) && |r.queue| <= KAFKA_MAX_QUEUE
      && w.accepted <= r.accepted && w.handed <= r.handed <= r.accepted
      && (w.exited ==> r.exited && r.handed == w.handed)
      && (r.exited && !w.exited ==> w.accepted <= r.handed)
    decreases |acts|
  {
    if acts != [] {
      StepKeeps(w, acts[0]);
      KafkaHandsOverInOrder(Step(w, acts[0]), acts[1..]);
    }
  }

  /** Somebody produces after the worker has left. */
  predicate ProducedLate(w: Worker<Message>, acts: seq<Action>)
    decreases |acts|
  {
    acts != [] && ((w.exited && acts[0].Produce?) || ProducedLate(Step(w, acts[0]), acts[1..]))
  }

  /** What the sink loses is exactly what arrives after the worker has left, whatever comes before or after it. */
  lemma {:induction false} LostIsLate(w: Worker<Message>, acts: seq<Action>)
    requires Inv(w, KAFKA_MAX_QUEUE) && (w.exited ==> w.handed == w.accepted)
    ensures var r := Run(w, acts); r.exited ==> (r.handed == r.accepted <==> !ProducedLate(w, acts))
    decreases |acts|
  {
    if acts != [] {
      var n := Step(w, acts[0]);
      StepKeeps(w, acts[0]);
      if w.exited && acts[0].Produce? {
        assert |n.accepted| > |n.handed|;
        KafkaHandsOverInOrder(n, acts[1..]);
      } else {
        LostIsLate(n, acts[1..]);
      }
    }
  }

  lemma {:induction false} RunSnoc(w: Worker<Message>, acts: seq<Action>, a: Action)
    ensures Run(w, acts + [a]) == Step(Run(w, acts), a)
    decreases |acts|
  {
    if acts == [] {
      assert [a][1..] == [];
    } else {
      assert (acts + [a])[0] == acts[0] && (acts + [a])[1..] == acts[1..] + [a];
      RunSnoc(Step(w, acts[0]), acts[1..], a);
    }
  }

  /** The sink's own fields; `handed` is what librdkafka was called with. */
  class Sink {
    var queue: seq<Message>
    var stop: bool
    var exited: bool
    ghost var awake: bool
    ghost var batch: seq<Message>
    ghost var accepted: seq<Message>
    var handed: seq<Message>

    ghost function View(): Worker<Message>
      reads this
    {
      Worker(queue, stop, batch, awake, exited, accepted, handed)
    }

    constructor ()
      ensures View() == New() && Inv(View(), KAFKA_MAX_QUEUE)
    {
      queue, stop, exited, handed := [], false, false, [];
      awake, batch, accepted := false, [], [];
    }

    method Enqueued(m: Message)
      modifies this
      ensures View() == Step(old(View()), Produce(m))
      ensures queue == old(queue) + if |old(queue)| < 20000 then [m] else []
      ensures stop == old(stop) && exited == old(exited) && handed == old(handed)
    {
      if |queue| >= KAFKA_MAX_QUEUE { return; }
      queue := queue + [m];
      accepted := accepted + [m];
    }

    /** The locked section of the worker; `taken` is its local batch. */
    method TakeBatch() returns (taken: seq<Message>)
      requires !awake && !exited
      modifies this
      ensures View() == Step(old(View()), Woken)
      ensures taken == batch || exited
      ensures taken == old(queue) && queue == [] && (exited <==> old(queue) == [] && stop)
    {
      taken := queue;
      queue := [];
      if taken == [] && stop {
        exited := true;
        return;
      }
      batch, awake := taken, true;
    }

    /** The loop over the local batch; what producers append meanwhile stays in the queue. */
    method HandBatch(taken: seq<Message>) returns (ghost acts: seq<Action>)
      requires awake && taken == batch
      modifies this
      ensures View() == Run(old(View()), acts) && forall a | a in acts :: a == HandOne || a == BatchDone
      ensures handed == old(handed) + taken && batch == [] && !awake
      ensures queue == old(queue) && stop == old(stop) && exited == old(exited) && accepted == old(accepted)
      ensures Inv(old(View()), KAFKA_MAX_QUEUE) ==> Inv(View(), KAFKA_MAX_QUEUE)
    {
      var i := 0;
      acts := [];
      while i < |taken|
        invariant View() == Run(old(View()), acts) && forall a | a in acts :: a == HandOne || a == BatchDone
        invariant i <= |taken| && awake && batch == taken[i..] && handed == old(handed) + taken[..i]
        invariant queue == old(queue) && stop == old(stop) && exited == old(exited) && accepted == old(accepted)
      {
        RunSnoc(old(View()), acts, HandOne);
        acts := acts + [HandOne];
        handed := handed + [taken[i]];
        batch := batch[1..];
        i := i + 1;
      }
      RunSnoc(old(View()), acts, BatchDone);
      acts := acts + [BatchDone];
      awake := false;
      assert taken[..i] == taken;
    }

    /** flush(): raise the flag, then join, here by letting the worker run to its end. */
    method Flush()
      requires Inv(View(), KAFKA_MAX_QUEUE) && !awake && !exited
      modifies this
      ensures exited && stop && queue == [] && handed == accepted == old(accepted)
      ensures Inv(View(), KAFKA_MAX_QUEUE)
    {
      stop := true;
      while !exited
        invariant Inv(View(), KAFKA_MAX_QUEUE) && !awake && stop && accepted == old(accepted)
        invariant exited ==> queue == []
        decreases !exited, |queue|
      {
        WakeKeeps(View(), KAFKA_MAX_QUEUE);
        var taken := TakeBatch();
        if !exited {
          ghost var acts := HandBatch(taken);
        }
      }
    }
  }
}
