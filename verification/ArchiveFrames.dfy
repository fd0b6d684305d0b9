/**
 * The consumer as Kafka drives it: whole frames, each attempt of which may stop after any number of
 * store calls, and a position that a restart moves back to an earlier frame.
 */
module ArchiveFrames {
  import opened Options
  import opened Archive
  import opened ArchiveReplay

  /** An attempt at the next frame whose store fails after `budget` calls, or a restart at an earlier frame. */
  datatype Event = Attempt(budget: nat) | Seek(frame: nat)
  datatype Reader = Reader(frame: nat, tables: Tables)

  /** The operations of each frame. */
  function Blocks(frames: seq<Frame>): seq<seq<Op>> {
    seq(|frames|, i requires 0 <= i < |frames| => FrameOps(frames[i]))
  }

  /** One attempt does to the tables what HandleEvent does to the store; the frame is left only when it is done. */
  function OnEvent(blocks: seq<seq<Op>>, r: Reader, e: Event): Reader {
    match e
    case Attempt(budget) =>
      if r.frame >= |blocks| then r
      else if |blocks[r.frame]| <= budget then Reader(r.frame + 1, Fold(blocks[r.frame], r.tables))
      else r.(tables := Fold(blocks[r.frame][..budget], r.tables))
    case Seek(f) => if f <= r.frame then r.(frame := f) else r
  }

  function Read(blocks: seq<seq<Op>>, r: Reader, es: seq<Event>): Reader
    decreases |es|
  {
    if es == [] then r else Read(blocks, OnEvent(blocks, r, es[0]), es[1..])
  }

  /** The method that handles a frame realises one attempt of the reader. */
  method AttemptFrame(store: Store, frames: seq<Frame>, frame: nat, budget: nat) returns (next: nat)
    requires frame < |frames|
    modifies store
    ensures Reader(next, store.Contents())
      == OnEvent(Blocks(frames), Reader(frame, old(store.Contents())), Attempt(budget))
  {
    var done := HandleEvent(store, frames[frame], budget);
    ghost var ops := FrameOps(frames[frame]);
    assert ops[..|ops|] == ops;
    next := if done then frame + 1 else frame;
  }

  // ------------------------------------------------------------------ blocks of operations and their log

  function Concat(blocks: seq<seq<Op>>): seq<Op> {
    if blocks == [] then [] else blocks[0] + Concat(blocks[1..])
  }

  function Offset(blocks: seq<seq<Op>>, f: nat): nat
    requires f <= |blocks|
  {
    |Concat(blocks[..f])|
  }

  lemma Associates(a: seq<Op>, b: seq<Op>, c: seq<Op>)
    ensures (a + b) + c == a + (b + c)
  {
  }

  lemma {:induction false} ConcatSplit(a: seq<seq<Op>>, b: seq<seq<Op>>)
    ensures Concat(a + b) == Concat(a) + Concat(b)
    decreases |a|
  {
    if a == [] {
      assert a + b == b;
    } else {
      assert (a + b)[0] == a[0] && (a + b)[1..] == a[1..] + b;
      ConcatSplit(a[1..], b);
      Associates(a[0], Concat(a[1..]), Concat(b));
    }
  }

  lemma SplitsAt(blocks: seq<seq<Op>>, f: nat)
    requires f <= |blocks|
    ensures Concat(blocks) == Concat(blocks[..f]) + Concat(blocks[f..])
  {
    assert blocks == blocks[..f] + blocks[f..];
    ConcatSplit(blocks[..f], blocks[f..]);
  }

  lemma ConcatOne(ops: seq<Op>)
    ensures Concat([ops]) == ops
  {
    assert [ops][1..] == [];
    assert ops + [] == ops;
  }

  lemma BlockEnds(blocks: seq<seq<Op>>, f: nat)
    requires f < |blocks|
    ensures Concat(blocks[..f + 1]) == Concat(blocks[..f]) + blocks[f]
  {
    assert blocks[..f + 1] == blocks[..f] + [blocks[f]];
    ConcatSplit(blocks[..f], [blocks[f]]);
    ConcatOne(blocks[f]);
  }

  lemma OffsetNext(blocks: seq<seq<Op>>, f: nat)
    requires f < |blocks|
    ensures Offset(blocks, f + 1) == Offset(blocks, f) + |blocks[f]|
  {
    BlockEnds(blocks, f);
  }

  lemma MiddleOf(a: seq<Op>, o: seq<Op>, b: seq<Op>)
    ensures |a| + |o| <= |(a + o) + b| && ((a + o) + b)[|a|..|a| + |o|] == o
  {
  }

  /** Block f occupies the operations from its offset on. */
  lemma BlockAt(blocks: seq<seq<Op>>, f: nat)
    requires f < |blocks|
    ensures Offset(blocks, f) + |blocks[f]| <= |Concat(blocks)|
    ensures Concat(blocks)[Offset(blocks, f)..Offset(blocks, f) + |blocks[f]|] == blocks[f]
  {
    BlockEnds(blocks, f);
    SplitsAt(blocks, f + 1);
    MiddleOf(Concat(blocks[..f]), blocks[f], Concat(blocks[f + 1..]));
  }

  lemma OffsetEnds(blocks: seq<seq<Op>>)
    ensures Offset(blocks, 0) == 0 && Offset(blocks, |blocks|) == |Concat(blocks)|
  {
    assert blocks[..0] == [] && blocks[..|blocks|] == blocks;
  }

  lemma {:induction false} OffsetMonotone(blocks: seq<seq<Op>>, f: nat, g: nat)
    requires f <= g <= |blocks|
    ensures Offset(blocks, f) <= Offset(blocks, g)
    decreases g
  {
    if f < g {
      OffsetMonotone(blocks, f, g - 1);
      OffsetNext(blocks, g - 1);
    }
  }

  lemma {:induction false} BlockOfOperation(blocks: seq<seq<Op>>, i: nat, g: nat) returns (f: nat)
    requires g <= |blocks| && i < Offset(blocks, g)
    ensures f < g && Offset(blocks, f) <= i < Offset(blocks, f) + |blocks[f]|
    decreases g
  {
    if g == 0 {
      OffsetEnds(blocks);
      assert false;
    }
    OffsetNext(blocks, g - 1);
    if Offset(blocks, g - 1) <= i {
      f := g - 1;
    } else {
      f := BlockOfOperation(blocks, i, g - 1);
    }
  }

  // ------------------------------------------------------------------ frame schedules as schedules of operations

  function Position(blocks: seq<seq<Op>>, r: Reader): Consumer
    requires r.frame <= |blocks|
  {
    Consumer(Offset(blocks, r.frame), r.tables)
  }

  /** n operations of the log processed one after the other. */
  lemma PartRefines(log: seq<Op>, c: Consumer, ops: seq<Op>, n: nat)
    requires n <= |ops| && c.pos + |ops| <= |log| && log[c.pos..c.pos + |ops|] == ops
    ensures Run(log, c, Processes(n)) == Consumer(c.pos + n, Fold(ops[..n], c.tables))
  {
    RunProcesses(log, c, n);
    assert log[c.pos..c.pos + n] == ops[..n];
  }

  lemma WholeRefines(log: seq<Op>, c: Consumer, ops: seq<Op>)
    requires c.pos + |ops| <= |log| && log[c.pos..c.pos + |ops|] == ops
    ensures Run(log, c, Processes(|ops|)) == Consumer(c.pos + |ops|, Fold(ops, c.tables))
  {
    PartRefines(log, c, ops, |ops|);
    assert ops[..|ops|] == ops;
  }

  lemma RewindTo(log: seq<Op>, c: Consumer, to: nat)
    requires to <= c.pos
    ensures Run(log, c, [Rewind(to)]) == c.(pos := to)
  {
    assert [Rewind(to)][1..] == [];
  }

  lemma CutShort(log: seq<Op>, c: Consumer, ops: seq<Op>, n: nat)
    requires n <= |ops| && c.pos + |ops| <= |log| && log[c.pos..c.pos + |ops|] == ops
    ensures Run(log, c, Processes(n) + [Rewind(c.pos)]) == Consumer(c.pos, Fold(ops[..n], c.tables))
  {
    PartRefines(log, c, ops, n);
    RunSplit(log, c, Processes(n), [Rewind(c.pos)]);
    RewindTo(log, Consumer(c.pos + n, Fold(ops[..n], c.tables)), c.pos);
  }

  lemma AttemptRefines(blocks: seq<seq<Op>>, r: Reader, budget: nat) returns (ds: seq<Delivery>)
    requires r.frame < |blocks|
    ensures Run(Concat(blocks), Position(blocks, r), ds) == Position(blocks, OnEvent(blocks, r, Attempt(budget)))
  {
    var log, c, ops := Concat(blocks), Position(blocks, r), blocks[r.frame];
    BlockAt(blocks, r.frame);
    if |ops| <= budget {
      ds := Processes(|ops|);
      WholeRefines(log, c, ops);
      OffsetNext(blocks, r.frame);
    } else {
      ds := Processes(budget) + [Rewind(c.pos)];
      CutShort(log, c, ops, budget);
    }
  }

  /** Every frame-level event is a schedule of operation-level deliveries. */
  lemma EventRefines(blocks: seq<seq<Op>>, r: Reader, e: Event) returns (ds: seq<Delivery>)
    requires r.frame <= |blocks|
    ensures OnEvent(blocks, r, e).frame <= |blocks|
    ensures Run(Concat(blocks), Position(blocks, r), ds) == Position(blocks, OnEvent(blocks, r, e))
  {
    ds := [];
    if e.Attempt? && r.frame < |blocks| {
      ds := AttemptRefines(blocks, r, e.budget);
    } else if e.Seek? && e.frame <= r.frame {
      OffsetMonotone(blocks, e.frame, r.frame);
      ds := [Rewind(Offset(blocks, e.frame))];
      RewindTo(Concat(blocks), Position(blocks, r), Offset(blocks, e.frame));
    }
  }

  lemma {:induction false} ReadRefines(blocks: seq<seq<Op>>, r: Reader, es: seq<Event>) returns (ds: seq<Delivery>)
    requires r.frame <= |blocks|
    ensures Read(blocks, r, es).frame <= |blocks|
    ensures Run(Concat(blocks), Position(blocks, r), ds) == Position(blocks, Read(blocks, r, es))
    decreases |es|
  {
    if es == [] {
      ds := [];
    } else {
      var first := EventRefines(blocks, r, es[0]);
      var rest := ReadRefines(blocks, OnEvent(blocks, r, es[0]), es[1..]);
      RunSplit(Concat(blocks), Position(blocks, r), first, rest);
      ds := first + rest;
    }
  }

  // ------------------------------------------------------------------ redelivering one block after the whole log

  function Attempts(blocks: seq<seq<Op>>): seq<Event> {
    if blocks == [] then [] else [Attempt(|blocks[0]|)] + Attempts(blocks[1..])
  }

  lemma {:induction false} ReadAll(blocks: seq<seq<Op>>, f: nat, t: Tables)
    requires f <= |blocks|
    ensures Read(blocks, Reader(f, t), Attempts(blocks[f..])) == Reader(|blocks|, Fold(Concat(blocks[f..]), t))
    decreases |blocks| - f
  {
    if f < |blocks| {
      assert blocks[f..][1..] == blocks[f + 1..];
      assert Attempts(blocks[f..])[1..] == Attempts(blocks[f + 1..]);
      FoldSplit(blocks[f], Concat(blocks[f + 1..]), t);
      ReadAll(blocks, f + 1, Fold(blocks[f], t));
    }
  }

  lemma {:induction false} ReadSplit(blocks: seq<seq<Op>>, r: Reader, a: seq<Event>, b: seq<Event>)
    ensures Read(blocks, r, a + b) == Read(blocks, Read(blocks, r, a), b)
    decreases |a|
  {
    if a == [] {
      assert a + b == b;
    } else {
      assert (a + b)[1..] == a[1..] + b;
      ReadSplit(blocks, OnEvent(blocks, r, a[0]), a[1..], b);
    }
  }

  /** Through the whole log, back to block f, and through the rest again. */
  function Twice(blocks: seq<seq<Op>>, f: nat): seq<Event>
    requires f <= |blocks|
  {
    Attempts(blocks) + ([Seek(f)] + Attempts(blocks[f..]))
  }

  lemma FromBlock(blocks: seq<seq<Op>>, f: nat, t: Tables)
    requires f <= |blocks|
    ensures Read(blocks, Reader(|blocks|, t), [Seek(f)] + Attempts(blocks[f..]))
      == Reader(|blocks|, Fold(Concat(blocks[f..]), t))
  {
    var again := [Seek(f)] + Attempts(blocks[f..]);
    assert again[0] == Seek(f) && again[1..] == Attempts(blocks[f..]);
    ReadAll(blocks, f, t);
  }

  lemma ReadTwice(blocks: seq<seq<Op>>, t0: Tables, f: nat)
    requires f <= |blocks|
    ensures Read(blocks, Reader(0, t0), Twice(blocks, f))
      == Reader(|blocks|, Fold(Concat(blocks[f..]), Fold(Concat(blocks), t0)))
  {
    assert blocks[0..] == blocks;
    ReadAll(blocks, 0, t0);
    ReadSplit(blocks, Reader(0, t0), Attempts(blocks), [Seek(f)] + Attempts(blocks[f..]));
    FromBlock(blocks, f, Fold(Concat(blocks), t0));
  }

  lemma RestOfLog(blocks: seq<seq<Op>>, f: nat)
    requires f <= |blocks|
    ensures Offset(blocks, f) <= |Concat(blocks)| && Concat(blocks)[Offset(blocks, f)..] == Concat(blocks[f..])
  {
    SplitsAt(blocks, f);
  }

  /** A block that marks a row does not drop it. */
  predicate MarksDropNothing(ops: seq<Op>) {
    forall x, y | x in ops && y in ops && IsMark(x) :: y != DeleteRow(x.key)
  }

  lemma LacksFrom(log: seq<Op>, j: nat, e: nat, i: nat, x: Op)
    requires j <= i < e <= |log| && x !in log[j..e] && x !in log[i + 1..]
    ensures x !in log[j..]
  {
    forall n | j <= n < |log| ensures log[n] != x {
      if n < e {
        assert log[n] == log[j..e][n - j];
      } else {
        assert log[n] == log[i + 1..][n - i - 1];
      }
    }
  }

  /** No deletion of the marked row from the start of the mark's block on. */
  lemma NoDropFromBlock(log: seq<Op>, j: nat, e: nat, i: nat)
    requires j <= i < e <= |log| && MarksDropNothing(log[j..e])
    requires IsMark(log[i]) && DeleteRow(log[i].key) !in log[i + 1..]
    ensures DeleteRow(log[i].key) !in log[j..]
  {
    assert log[j..e][i - j] == log[i];
    LacksFrom(log, j, e, i, DeleteRow(log[i].key));
  }

  ghost predicate BlocksConverge(blocks: seq<seq<Op>>, t0: Tables) {
    forall es: seq<Event> | Read(blocks, Reader(0, t0), es).frame == |blocks| ::
      Read(blocks, Reader(0, t0), es).tables == Fold(Concat(blocks), t0)
  }

  lemma Diverging(blocks: seq<seq<Op>>, t0: Tables, es: seq<Event>)
    requires Read(blocks, Reader(0, t0), es).frame == |blocks|
    requires Read(blocks, Reader(0, t0), es).tables != Fold(Concat(blocks), t0)
    ensures !BlocksConverge(blocks, t0)
  {
  }

  /** The block of a latent mark, redelivered after the whole log, leaves other tables. */
  lemma LatentBlockMarks(blocks: seq<seq<Op>>, t0: Tables, i: nat, f: nat)
    requires i < |Concat(blocks)| && Latent(Concat(blocks), t0, i)
    requires f < |blocks| && Offset(blocks, f) <= i < Offset(blocks, f) + |blocks[f]| && MarksDropNothing(blocks[f])
    ensures Fold(Concat(blocks[f..]), Fold(Concat(blocks), t0)) != Fold(Concat(blocks), t0)
  {
    BlockAt(blocks, f);
    RestOfLog(blocks, f);
    NoDropFromBlock(Concat(blocks), Offset(blocks, f), Offset(blocks, f) + |blocks[f]|, i);
    RedeliveryMarks(Concat(blocks), t0, i, Offset(blocks, f));
  }

  /** A latent mark shows when its own block is redelivered after the whole log. */
  lemma LatentBlockDiverges(blocks: seq<seq<Op>>, t0: Tables, i: nat)
    requires i < |Concat(blocks)| && Latent(Concat(blocks), t0, i)
    requires forall f | 0 <= f < |blocks| :: MarksDropNothing(blocks[f])
    ensures !BlocksConverge(blocks, t0)
  {
    OffsetEnds(blocks);
    var f := BlockOfOperation(blocks, i, |blocks|);
    LatentBlockMarks(blocks, t0, i, f);
    ReadTwice(blocks, t0, f);
    Diverging(blocks, t0, Twice(blocks, f));
  }

  lemma BlocksConvergeIf(blocks: seq<seq<Op>>, t0: Tables)
    requires NoLatent(Concat(blocks), t0)
    ensures BlocksConverge(blocks, t0)
  {
    OffsetEnds(blocks);
    forall es: seq<Event> | Read(blocks, Reader(0, t0), es).frame == |blocks|
      ensures Read(blocks, Reader(0, t0), es).tables == Fold(Concat(blocks), t0)
    {
      var ds := ReadRefines(blocks, Reader(0, t0), es);
      RedeliveryConverges(Concat(blocks), t0, ds);
    }
  }

  // ------------------------------------------------------------------ the frames of the topic

  /** The frames one after the other, as operations. */
  function Flatten(frames: seq<Frame>): seq<Op> {
    Concat(Blocks(frames))
  }

  ghost predicate FramesConverge(frames: seq<Frame>, t0: Tables) {
    BlocksConverge(Blocks(frames), t0)
  }

  /** A frame that marks rows deletes none. */
  lemma FramesDropNothing(f: Frame)
    ensures MarksDropNothing(FrameOps(f))
  {
  }

  /**
   * However often frames are retried from the middle, or the consumer restarts at an earlier frame, the
   * archive ends as after one clean pass: for every schedule if and only if the log holds no latent mark.
   */
  lemma FramesConvergeExactly(frames: seq<Frame>, t0: Tables)
    ensures FramesConverge(frames, t0) <==> NoLatent(Flatten(frames), t0)
  {
    var blocks := Blocks(frames);
    if NoLatent(Concat(blocks), t0) {
      BlocksConvergeIf(blocks, t0);
    } else {
      var i :| 0 <= i < |Concat(blocks)| && Latent(Concat(blocks), t0, i);
      forall f | 0 <= f < |blocks| ensures MarksDropNothing(blocks[f]) {
        FramesDropNothing(frames[f]);
      }
      LatentBlockDiverges(blocks, t0, i);
    }
  }
}
