/**
 * The worker behind a bounded queue, the shape both outgoing channels share (src/events/kafka_sink.cpp,
 * src/webhook/webhook_dispatcher.cpp): producers append under the mutex or drop, one worker thread swaps
 * the whole queue out, hands the batch on one by one without the mutex, and leaves once it wakes to an
 * empty queue after stop.
 */
module BatchWorker {
  datatype Worker<T> = Worker(
    queue: seq<T>,
    stop: bool,
    batch: seq<T>,     // what the worker swapped out and has not handed on
    awake: bool,       // between the swap and the next wait
    exited: bool,
    accepted: seq<T>,  // everything a producer ever appended
    handed: seq<T>)    // everything the worker ever handed on

  function New<T>(): Worker<T> {
    Worker([], false, [], false, false, [], [])
  }

  /** A full or closed queue drops the item. */
  function Enqueue<T>(w: Worker<T>, x: T, max: nat, open: bool): Worker<T> {
    if open && |w.queue| < max then w.(queue := w.queue + [x], accepted := w.accepted + [x]) else w
  }

  /** The worker's section under the mutex, whatever woke it: stop, an item, or a timeout. */
  function Wake<T>(w: Worker<T>): Worker<T> {
    if w.awake || w.exited then w
    else if w.queue == [] && w.stop then w.(exited := true)
    else w.(batch := w.queue, queue := [], awake := true)
  }

  function Hand<T>(w: Worker<T>): Worker<T> {
    if w.awake && w.batch != [] then w.(handed := w.handed + [w.batch[0]], batch := w.batch[1..]) else w
  }

  function Sleep<T>(w: Worker<T>): Worker<T> {
    if w.awake && w.batch == [] then w.(awake := false) else w
  }

  /** Nothing accepted is lost, doubled or reordered; the worker leaves only with nothing in its hands. */
  predicate Inv<T(==)>(w: Worker<T>, max: nat) {
    && w.accepted == w.handed + w.batch + w.queue
    && |w.queue| <= max
    && (!w.awake ==> w.batch == [])
    && (w.exited ==> !w.awake && w.stop)
  }

  lemma EnqueueKeeps<T>(w: Worker<T>, x: T, max: nat, open: bool)
    requires Inv(w, max)
    ensures Inv(Enqueue(w, x, max, open), max)
  {
  }

  lemma WakeKeeps<T>(w: Worker<T>, max: nat)
    requires Inv(w, max)
    ensures Inv(Wake(w), max)
    ensures Wake(w).exited && !w.exited ==> w.handed == w.accepted
  {
  }

  lemma HandKeeps<T>(w: Worker<T>, max: nat)
    requires Inv(w, max)
    ensures Inv(Hand(w), max)
  {
    if w.awake && w.batch != [] {
      assert w.batch == [w.batch[0]] + w.batch[1..];
      assert w.handed + w.batch + w.queue == (w.handed + [w.batch[0]]) + w.batch[1..] + w.queue;
    }
  }

  /** The worker left to itself, until it leaves or waits for good. */
  function Alone<T>(w: Worker<T>): Worker<T>
    decreases if w.exited then 0 else 1, |w.queue|, |w.batch|, if w.awake then 1 else 0
  {
    if w.exited then w
    else if w.awake then Alone(if w.batch != [] then Hand(w) else Sleep(w))
    else if w.queue == [] && !w.stop then w
    else Alone(Wake(w))
  }

  /** With no more producers the worker hands on everything accepted, and after stop it leaves. */
  lemma {:induction false} WorkerDrains<T>(w: Worker<T>, max: nat)
    requires Inv(w, max) && !w.exited
    ensures var r := Alone(w); r.accepted == w.accepted && r.handed == w.accepted && (r.exited <==> w.stop)
    decreases |w.queue|, |w.batch|, if w.awake then 1 else 0
  {
    if w.awake {
      if w.batch != [] {
        HandKeeps(w, max);
        WorkerDrains(Hand(w), max);
      } else {
        WorkerDrains(Sleep(w), max);
      }
    } else if w.queue == [] && w.stop {
      assert Alone(Wake(w)) == Wake(w);
    } else if w.queue != [] {
      WakeKeeps(w, max);
      WorkerDrains(Wake(w), max);
    }
  }
}
