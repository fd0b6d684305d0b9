/**
 * At-least-once delivery of the event log: when does every crash-and-redeliver schedule leave the
 * archive as one clean pass would? Exactly when the log holds no latent mark.
 */
module ArchiveReplay {
  import opened Options
  import opened Archive

  // ------------------------------------------------------------------ one cell at a time

  datatype Cell = RowCell(key: MessageKey) | ChatCell(chatKey: ChatKey) | SeqCell(session: string)
  datatype Value = RowValue(row: Row) | ChatValue(chat: Chat) | SeqValue(number: int)

  function CellOf(op: Op): Cell {
    match op
    case UpsertChat(ck, _) => ChatCell(ck)
    case AdvanceSeq(s, _) => SeqCell(s)
    case _ => RowCell(op.key)
  }

  function Read(t: Tables, c: Cell): Option<Value> {
    match c
    case RowCell(k) => if k in t.messages then Some(RowValue(t.messages[k])) else None
    case ChatCell(ck) => if ck in t.chats then Some(ChatValue(t.chats[ck])) else None
    case SeqCell(s) => if s in t.lastSeq then Some(SeqValue(t.lastSeq[s])) else None
  }

  /** The values a cell can hold. */
  predicate Fits(c: Cell, v: Option<Value>) {
    v.Some? ==>
      match c
      case RowCell(_) => v.value.RowValue?
      case ChatCell(_) => v.value.ChatValue?
      case SeqCell(_) => v.value.SeqValue?
  }

  /** The effect of an operation on the one cell it names. */
  function Act(op: Op, v: Option<Value>): (r: Option<Value>)
    requires Fits(CellOf(op), v)
    ensures Fits(CellOf(op), r)
  {
    match op
    case UpsertMessage(_, cols) => Some(RowValue(if v.Some? then v.value.row.(cols := cols) else FreshRow(cols)))
    case DeleteRow(_) => None
    case UpdateText(_, text, kind, file) =>
      if v.None? then None
      else Some(RowValue(v.value.row.(cols := v.value.row.cols.(text := text, kind := kind, file := file))))
    case MarkEdited(_, date) => if v.None? then None else Some(RowValue(v.value.row.(editedAt := date)))
    case MarkDeleted(_) => if v.None? then None else Some(RowValue(v.value.row.(deleted := true)))
    case UpsertChat(_, chat) => Some(ChatValue(chat))
    case AdvanceSeq(_, n) => if v.None? || n > v.value.number then Some(SeqValue(n)) else v
  }

  lemma ApplyReads(op: Op, t: Tables, c: Cell)
    ensures Read(Apply(op, t), c) == if CellOf(op) == c then Act(op, Read(t, c)) else Read(t, c)
  {
  }

  lemma TablesExtensional(a: Tables, b: Tables)
    requires forall c :: Read(a, c) == Read(b, c)
    ensures a == b
  {
    forall k ensures k in a.messages <==> k in b.messages
      ensures k in a.messages ==> a.messages[k] == b.messages[k]
    {
      assert Read(a, RowCell(k)) == Read(b, RowCell(k));
    }
    forall k ensures k in a.chats <==> k in b.chats
      ensures k in a.chats ==> a.chats[k] == b.chats[k]
    {
      assert Read(a, ChatCell(k)) == Read(b, ChatCell(k));
    }
    forall k ensures k in a.lastSeq <==> k in b.lastSeq
      ensures k in a.lastSeq ==> a.lastSeq[k] == b.lastSeq[k]
    {
      assert Read(a, SeqCell(k)) == Read(b, SeqCell(k));
    }
    assert a.messages == b.messages;
    assert a.chats == b.chats;
    assert a.lastSeq == b.lastSeq;
  }

  function FoldCell(c: Cell, ops: seq<Op>, v: Option<Value>): (r: Option<Value>)
    requires Fits(c, v)
    ensures Fits(c, r)
    decreases |ops|
  {
    if ops == [] then v
    else FoldCell(c, ops[1..], if CellOf(ops[0]) == c then Act(ops[0], v) else v)
  }

  lemma {:induction false} FoldReads(ops: seq<Op>, t: Tables, c: Cell)
    ensures Read(Fold(ops, t), c) == FoldCell(c, ops, Read(t, c))
    decreases |ops|
  {
    if ops != [] {
      ApplyReads(ops[0], t, c);
      FoldReads(ops[1..], Apply(ops[0], t), c);
    }
  }

  lemma {:induction false} FoldCellSplit(c: Cell, a: seq<Op>, b: seq<Op>, v: Option<Value>)
    requires Fits(c, v)
    ensures FoldCell(c, a + b, v) == FoldCell(c, b, FoldCell(c, a, v))
    decreases |a|
  {
    if a == [] {
      assert a + b == b;
    } else {
      assert (a + b)[1..] == a[1..] + b;
      FoldCellSplit(c, a[1..], b, if CellOf(a[0]) == c then Act(a[0], v) else v);
    }
  }

  // ------------------------------------------------------------------ a row that is present throughout

  predicate HasEdit(k: MessageKey, ops: seq<Op>) {
    exists i :: 0 <= i < |ops| && ops[i].MarkEdited? && ops[i].key == k
  }

  predicate HasTomb(k: MessageKey, ops: seq<Op>) {
    MarkDeleted(k) in ops
  }

  predicate HasUpsert(k: MessageKey, ops: seq<Op>) {
    exists i :: 0 <= i < |ops| && ops[i].UpsertMessage? && ops[i].key == k
  }

  function Cols(k: MessageKey, ops: seq<Op>, cols: Columns): Columns
    decreases |ops|
  {
    if ops == [] then cols
    else if ops[0].UpsertMessage? && ops[0].key == k then Cols(k, ops[1..], ops[0].cols)
    else if ops[0].UpdateText? && ops[0].key == k then
      Cols(k, ops[1..], cols.(text := ops[0].text, kind := ops[0].kind, file := ops[0].file))
    else Cols(k, ops[1..], cols)
  }

  function Edits(k: MessageKey, ops: seq<Op>, e: Option<int>): Option<int>
    decreases |ops|
  {
    if ops == [] then e
    else Edits(k, ops[1..], if ops[0].MarkEdited? && ops[0].key == k then ops[0].date else e)
  }

  lemma {:induction false} PresentFold(k: MessageKey, ops: seq<Op>, row: Row)
    requires DeleteRow(k) !in ops
    ensures FoldCell(RowCell(k), ops, Some(RowValue(row)))
         == Some(RowValue(Row(Cols(k, ops, row.cols), row.mediaUrl, Edits(k, ops, row.editedAt),
                              row.deleted || HasTomb(k, ops))))
    decreases |ops|
  {
    if ops != [] {
      var v := Some(RowValue(row));
      var next := if CellOf(ops[0]) == RowCell(k) then Act(ops[0], v) else v;
      assert ops == [ops[0]] + ops[1..];
      PresentFold(k, ops[1..], next.value.row);
    }
  }

  lemma {:induction false} EditsForget(k: MessageKey, ops: seq<Op>, d: Option<int>, e: Option<int>)
    ensures HasEdit(k, ops) ==> Edits(k, ops, d) == Edits(k, ops, e)
    ensures !HasEdit(k, ops) ==> Edits(k, ops, d) == d
    decreases |ops|
  {
    if ops != [] {
      var hit := ops[0].MarkEdited? && ops[0].key == k;
      EditsForget(k, ops[1..], if hit then ops[0].date else d, if hit then ops[0].date else e);
      forall i | 0 <= i < |ops[1..]| && ops[1..][i].MarkEdited? && ops[1..][i].key == k
        ensures HasEdit(k, ops)
      {
        assert ops[i + 1] == ops[1..][i];
      }
      if HasEdit(k, ops) && !hit {
        var i :| 0 <= i < |ops| && ops[i].MarkEdited? && ops[i].key == k;
        assert ops[1..][i - 1] == ops[i];
      }
    }
  }

  lemma {:induction false} EditsSplit(k: MessageKey, a: seq<Op>, b: seq<Op>, e: Option<int>)
    ensures Edits(k, a + b, e) == Edits(k, b, Edits(k, a, e))
    decreases |a|
  {
    if a == [] {
      assert a + b == b;
    } else {
      assert (a + b)[1..] == a[1..] + b;
      EditsSplit(k, a[1..], b, if a[0].MarkEdited? && a[0].key == k then a[0].date else e);
    }
  }

  /** Columns already written by an operation of the list are written again before its end. */
  lemma {:induction false} ColsAbsorb(k: MessageKey, ops: seq<Op>, i: nat, cols: Columns, other: Columns)
    requires i < |ops| && CellOf(ops[i]) == RowCell(k)
    requires || ops[i].UpsertMessage?
             || (ops[i].UpdateText? && other == cols.(text := other.text, kind := other.kind, file := other.file))
    ensures Cols(k, ops, cols) == Cols(k, ops, other)
    decreases |ops|
  {
    if i > 0 {
      var op := ops[0];
      assert ops[1..][i - 1] == ops[i];
      if op.UpsertMessage? && op.key == k {
      } else if op.UpdateText? && op.key == k {
        ColsAbsorb(k, ops[1..], i - 1, cols.(text := op.text, kind := op.kind, file := op.file),
                   other.(text := op.text, kind := op.kind, file := op.file));
      } else {
        ColsAbsorb(k, ops[1..], i - 1, cols, other);
      }
    }
  }

  // ------------------------------------------------------------------ absorption

  lemma {:induction false} DropForgets(k: MessageKey, ops: seq<Op>, v: Option<Value>, w: Option<Value>)
    requires DeleteRow(k) in ops
    requires Fits(RowCell(k), v) && Fits(RowCell(k), w)
    ensures FoldCell(RowCell(k), ops, v) == FoldCell(RowCell(k), ops, w)
    decreases |ops|
  {
    if ops[0] != DeleteRow(k) {
      assert ops == [ops[0]] + ops[1..];
      var mine := CellOf(ops[0]) == RowCell(k);
      DropForgets(k, ops[1..], if mine then Act(ops[0], v) else v, if mine then Act(ops[0], w) else w);
    }
  }

  lemma {:induction false} ChatForgets(c: Cell, ops: seq<Op>, i: nat, v: Option<Value>, w: Option<Value>)
    requires i < |ops| && ops[i].UpsertChat? && CellOf(ops[i]) == c
    requires Fits(c, v) && Fits(c, w)
    ensures FoldCell(c, ops, v) == FoldCell(c, ops, w)
    decreases |ops|
  {
    if i > 0 {
      var mine := CellOf(ops[0]) == c;
      assert ops[1..][i - 1] == ops[i];
      ChatForgets(c, ops[1..], i - 1, if mine then Act(ops[0], v) else v, if mine then Act(ops[0], w) else w);
    }
  }

  lemma {:induction false} SeqAbsorb(c: Cell, ops: seq<Op>, i: nat, v: Option<Value>)
    requires i < |ops| && ops[i].AdvanceSeq? && CellOf(ops[i]) == c && Fits(c, v)
    ensures FoldCell(c, ops, Act(ops[i], v)) == FoldCell(c, ops, v)
    decreases |ops|
  {
    if i > 0 {
      var mine := CellOf(ops[0]) == c;
      assert ops[1..][i - 1] == ops[i];
      var next := if mine then Act(ops[0], v) else v;
      SeqAbsorb(c, ops[1..], i - 1, next);
    }
  }

  lemma {:induction false} FirstUpsert(k: MessageKey, ops: seq<Op>) returns (u: nat)
    requires HasUpsert(k, ops)
    ensures u < |ops| && ops[u].UpsertMessage? && ops[u].key == k && !HasUpsert(k, ops[..u])
    decreases |ops|
  {
    if ops[0].UpsertMessage? && ops[0].key == k {
      u := 0;
    } else {
      var i :| 0 <= i < |ops| && ops[i].UpsertMessage? && ops[i].key == k;
      assert ops[1..][i - 1] == ops[i];
      u := FirstUpsert(k, ops[1..]);
      u := u + 1;
      assert ops[1..][..u - 1] == ops[..u][1..];
      forall j | 0 <= j < u ensures !(ops[j].UpsertMessage? && ops[j].key == k) {
        assert j > 0 ==> ops[j] == ops[1..][..u - 1][j - 1];
      }
    }
  }

  /** An absent row stays absent until its first upsert. */
  lemma {:induction false} AbsentFold(k: MessageKey, ops: seq<Op>)
    requires !HasUpsert(k, ops)
    ensures FoldCell(RowCell(k), ops, None) == None
    decreases |ops|
  {
    if ops != [] {
      forall j | 0 <= j < |ops[1..]| ensures !(ops[1..][j].UpsertMessage? && ops[1..][j].key == k) {
        assert ops[1..][j] == ops[j + 1];
      }
      assert ops[0].UpsertMessage? ==> ops[0].key != k;
      AbsentFold(k, ops[1..]);
    }
  }

  /** From an absent row, a list without a deletion starts afresh at the first upsert. */
  lemma FromAbsent(k: MessageKey, ops: seq<Op>, u: nat)
    requires u < |ops| && ops[u].UpsertMessage? && ops[u].key == k && !HasUpsert(k, ops[..u])
    requires DeleteRow(k) !in ops
    ensures FoldCell(RowCell(k), ops, None)
         == Some(RowValue(Row(Cols(k, ops[u + 1..], ops[u].cols), None,
              Edits(k, ops[u + 1..], None), HasTomb(k, ops[u + 1..]))))
  {
    assert ops == ops[..u] + ([ops[u]] + ops[u + 1..]);
    FoldCellSplit(RowCell(k), ops[..u], [ops[u]] + ops[u + 1..], None);
    AbsentFold(k, ops[..u]);
    assert ([ops[u]] + ops[u + 1..])[1..] == ops[u + 1..];
    PresentFold(k, ops[u + 1..], FreshRow(ops[u].cols));
  }

  lemma ColsFromUpsert(k: MessageKey, ops: seq<Op>, u: nat, cols: Columns)
    requires u < |ops| && ops[u].UpsertMessage? && ops[u].key == k
    ensures Cols(k, ops, cols) == Cols(k, ops[u + 1..], ops[u].cols)
    decreases |ops|
  {
    if u == 0 {
    } else {
      assert ops[1..][u - 1] == ops[u] && ops[1..][u..] == ops[u + 1..];
      var op := ops[0];
      if op.UpsertMessage? && op.key == k {
        ColsFromUpsert(k, ops[1..], u - 1, op.cols);
      } else if op.UpdateText? && op.key == k {
        ColsFromUpsert(k, ops[1..], u - 1, cols.(text := op.text, kind := op.kind, file := op.file));
      } else {
        ColsFromUpsert(k, ops[1..], u - 1, cols);
      }
    }
  }

  /** Marks before the first upsert of a row do not outlive the list they stand in. */
  predicate MarksSettle(k: MessageKey, ops: seq<Op>, u: nat)
    requires u <= |ops|
  {
    && Edits(k, ops, None) == Edits(k, ops[u..], None)
    && (HasTomb(k, ops) ==> HasTomb(k, ops[u..]))
  }

  ghost predicate Settled(k: MessageKey, ops: seq<Op>) {
    forall u | 0 <= u < |ops| && ops[u].UpsertMessage? && ops[u].key == k && !HasUpsert(k, ops[..u]) ::
      MarksSettle(k, ops, u)
  }

  /** Doing an operation of the list once more before the list changes nothing at its end. */
  lemma Absorb(c: Cell, ops: seq<Op>, i: nat, v: Option<Value>)
    requires i < |ops| && CellOf(ops[i]) == c && Fits(c, v)
    requires v.None? && ops[i].UpsertMessage? && DeleteRow(ops[i].key) !in ops ==> Settled(ops[i].key, ops)
    ensures FoldCell(c, ops, Act(ops[i], v)) == FoldCell(c, ops, v)
  {
    var x := ops[i];
    if x.UpsertChat? {
      ChatForgets(c, ops, i, Act(x, v), v);
    } else if x.AdvanceSeq? {
      SeqAbsorb(c, ops, i, v);
    } else if DeleteRow(x.key) in ops {
      DropForgets(x.key, ops, Act(x, v), v);
    } else if v.Some? {
      AbsorbPresent(x.key, ops, i, v.value.row);
    } else if x.UpsertMessage? {
      AbsorbAbsent(x.key, ops, i);
    }
  }

  lemma AbsorbPresent(k: MessageKey, ops: seq<Op>, i: nat, row: Row)
    requires i < |ops| && CellOf(ops[i]) == RowCell(k) && DeleteRow(k) !in ops
    ensures FoldCell(RowCell(k), ops, Act(ops[i], Some(RowValue(row))))
      == FoldCell(RowCell(k), ops, Some(RowValue(row)))
  {
    var x := ops[i];
    var again := Act(x, Some(RowValue(row))).value.row;
    PresentFold(k, ops, row);
    PresentFold(k, ops, again);
    if x.UpsertMessage? || x.UpdateText? {
      ColsAbsorb(k, ops, i, row.cols, again.cols);
    }
    EditsForget(k, ops, row.editedAt, again.editedAt);
  }

  /** Where the marks settle, only those after the first upsert tell. */
  lemma MarksAfterUpsert(k: MessageKey, ops: seq<Op>, u: nat)
    requires u < |ops| && ops[u].UpsertMessage? && MarksSettle(k, ops, u)
    ensures Edits(k, ops, None) == Edits(k, ops[u + 1..], None)
    ensures HasTomb(k, ops) == HasTomb(k, ops[u + 1..])
  {
    assert ops[u..][0] == ops[u] && ops[u..][1..] == ops[u + 1..];
    assert ops[u..] == [ops[u]] + ops[u + 1..];
    assert ops == ops[..u + 1] + ops[u + 1..];
  }

  lemma AbsorbAbsent(k: MessageKey, ops: seq<Op>, i: nat)
    requires i < |ops| && ops[i].UpsertMessage? && ops[i].key == k && DeleteRow(k) !in ops
    requires Settled(k, ops)
    ensures FoldCell(RowCell(k), ops, Act(ops[i], None)) == FoldCell(RowCell(k), ops, None)
  {
    var u := FirstUpsert(k, ops);
    MarksAfterUpsert(k, ops, u);
    FromAbsent(k, ops, u);
    PresentFold(k, ops, FreshRow(ops[i].cols));
    ColsFromUpsert(k, ops, u, ops[i].cols);
  }

  // ------------------------------------------------------------------ the consumer under redelivery

  /** Process the next operation, or come back (after a crash or a failed frame) to an earlier one. */
  datatype Delivery = Process | Rewind(to: nat)
  datatype Consumer = Consumer(pos: nat, tables: Tables)

  function Deliver(log: seq<Op>, c: Consumer, d: Delivery): Consumer {
    match d
    case Process => if c.pos < |log| then Consumer(c.pos + 1, Apply(log[c.pos], c.tables)) else c
    case Rewind(to) => if to <= c.pos then c.(pos := to) else c
  }

  function Run(log: seq<Op>, c: Consumer, ds: seq<Delivery>): Consumer
    decreases |ds|
  {
    if ds == [] then c else Run(log, Deliver(log, c, ds[0]), ds[1..])
  }

  /** The i-th operation is an edited or deleted mark (an edited mark with a date). */
  predicate IsMark(op: Op) {
    op.MarkDeleted? || (op.MarkEdited? && op.date.Some?)
  }

  predicate SameField(a: Op, b: Op) {
    (a.MarkDeleted? && b.MarkDeleted? && a.key == b.key) || (a.MarkEdited? && b.MarkEdited? && a.key == b.key)
  }

  /**
   * A mark that misses its row on the clean pass although a later upsert creates the row for good,
   * and that no later mark of the same field replaces.
   */
  ghost predicate Latent(log: seq<Op>, t0: Tables, i: nat)
    requires i < |log|
  {
    && IsMark(log[i])
    && log[i].key !in Fold(log[..i], t0).messages
    && HasUpsert(log[i].key, log[i + 1..])
    && DeleteRow(log[i].key) !in log[i + 1..]
    && forall j | i < j < |log| :: !SameField(log[i], log[j])
  }

  ghost predicate NoLatent(log: seq<Op>, t0: Tables) {
    forall i | 0 <= i < |log| :: !Latent(log, t0, i)
  }

  /** Every mark of the log finds its row on the clean pass. */
  ghost predicate MarksHit(log: seq<Op>, t0: Tables) {
    forall i | 0 <= i < |log| && (log[i].MarkEdited? || log[i].MarkDeleted?) ::
      log[i].key in Fold(log[..i], t0).messages
  }

  /** Going on from any earlier position ends where the clean pass ends. */
  ghost predicate EndsAlike(log: seq<Op>, t0: Tables, c: Consumer) {
    forall j | 0 <= j <= c.pos <= |log| :: Fold(log[j..], c.tables) == Fold(log, t0)
  }

  /** A row the clean pass had at an earlier position, and deletes no more, is there. */
  ghost predicate RowsStay(log: seq<Op>, t0: Tables, c: Consumer) {
    forall j, k | 0 <= j <= c.pos <= |log| && k in Fold(log[..j], t0).messages && DeleteRow(k) !in log[j..] ::
      k in c.tables.messages
  }

  ghost predicate Inv(log: seq<Op>, t0: Tables, c: Consumer) {
    c.pos <= |log| && EndsAlike(log, t0, c) && RowsStay(log, t0, c)
  }

  /** The mark of the field is the last one of the list. */
  predicate IsLastEdit(k: MessageKey, ops: seq<Op>, i: nat) {
    i < |ops| && ops[i].MarkEdited? && ops[i].key == k && !HasEdit(k, ops[i + 1..])
  }

  lemma {:induction false} LastEditDecides(k: MessageKey, ops: seq<Op>, i: nat, e: Option<int>)
    requires IsLastEdit(k, ops, i)
    ensures Edits(k, ops, e) == ops[i].date
    decreases |ops|
  {
    if i == 0 {
      EditsForget(k, ops[1..], ops[0].date, e);
    } else {
      assert ops[1..][i - 1] == ops[i] && ops[1..][i..] == ops[i + 1..];
      LastEditDecides(k, ops[1..], i - 1, if ops[0].MarkEdited? && ops[0].key == k then ops[0].date else e);
    }
  }

  lemma EditAtHead(k: MessageKey, ops: seq<Op>)
    requires HasEdit(k, ops) && !HasEdit(k, ops[1..])
    ensures IsLastEdit(k, ops, 0)
  {
    forall j | 1 <= j < |ops| ensures !(ops[j].MarkEdited? && ops[j].key == k) {
      assert ops[1..][j - 1] == ops[j];
    }
  }

  /** Where the last mark of a field stands. */
  lemma {:induction false} LastEdit(k: MessageKey, ops: seq<Op>) returns (i: nat)
    requires HasEdit(k, ops)
    ensures IsLastEdit(k, ops, i)
    decreases |ops|
  {
    if HasEdit(k, ops[1..]) {
      i := LastEdit(k, ops[1..]);
      assert ops[1..][i + 1..] == ops[i + 2..];
      i := i + 1;
    } else {
      i := 0;
      EditAtHead(k, ops);
    }
  }

  lemma {:induction false} LastTomb(k: MessageKey, ops: seq<Op>) returns (i: nat)
    requires HasTomb(k, ops)
    ensures i < |ops| && ops[i] == MarkDeleted(k) && !HasTomb(k, ops[i + 1..])
    decreases |ops|
  {
    if HasTomb(k, ops[1..]) {
      i := LastTomb(k, ops[1..]);
      assert ops[1..][i + 1..] == ops[i + 2..];
      i := i + 1;
    } else {
      assert ops == [ops[0]] + ops[1..];
      i := 0;
    }
  }

  /** With no upsert in between, a row present later was present before. */
  lemma {:induction false} PresentBefore(log: seq<Op>, t0: Tables, j: nat, i: nat, k: MessageKey)
    requires j <= i <= |log| && k in Fold(log[..i], t0).messages
    requires forall n | j <= n < i :: !(log[n].UpsertMessage? && log[n].key == k)
    ensures k in Fold(log[..j], t0).messages
    decreases i
  {
    if j < i {
      FoldOne(log, i - 1, t0);
      PresentBefore(log, t0, j, i - 1, k);
    }
  }

  /** A mark standing before the first upsert of a list that starts without the row must be latent. */
  lemma UnsettledIsLatent(log: seq<Op>, t0: Tables, j: nat, k: MessageKey, u: nat, i: nat)
    requires j <= i < u < |log| && DeleteRow(k) !in log[j..]
    requires log[u].UpsertMessage? && log[u].key == k
    requires forall n | j <= n < u :: !(log[n].UpsertMessage? && log[n].key == k)
    requires k !in Fold(log[..j], t0).messages
    requires IsMark(log[i]) && log[i].key == k
    requires forall n | i < n < |log| :: !SameField(log[i], log[n])
    ensures Latent(log, t0, i)
  {
    if k in Fold(log[..i], t0).messages {
      PresentBefore(log, t0, j, i, k);
    }
    assert log[i + 1..][u - i - 1] == log[u];
    assert log[j..] == log[j..i + 1] + log[i + 1..];
  }

  /** A mark before the first upsert u of what follows position j, and not replaced by a later one, is latent. */
  lemma UnsettledAt(log: seq<Op>, t0: Tables, j: nat, k: MessageKey, u: nat, i: nat)
    requires j <= |log| && DeleteRow(k) !in log[j..] && k !in Fold(log[..j], t0).messages
    requires i < u < |log[j..]| && log[j..][u].UpsertMessage? && log[j..][u].key == k && !HasUpsert(k, log[j..][..u])
    requires IsMark(log[j..][i]) && log[j..][i].key == k
    requires forall n | i < n < |log[j..]| :: !SameField(log[j..][i], log[j..][n])
    ensures !NoLatent(log, t0)
  {
    var q := log[j..];
    forall n | j <= n < j + u ensures !(log[n].UpsertMessage? && log[n].key == k) {
      assert q[..u][n - j] == log[n];
    }
    forall n | j + i < n < |log| ensures !SameField(log[j + i], log[n]) {
      assert q[n - j] == log[n];
    }
    UnsettledIsLatent(log, t0, j, k, j + u, j + i);
  }

  /** The last edit of a list is followed by no other, also when the rest has none. */
  lemma NoneAfter(q: seq<Op>, u: nat, i: nat)
    requires i < u <= |q| && (q[i].MarkEdited? || q[i].MarkDeleted?)
    requires q[i].MarkEdited? ==> !HasEdit(q[i].key, q[..u][i + 1..]) && !HasEdit(q[i].key, q[u..])
    requires q[i].MarkDeleted? ==> !HasTomb(q[i].key, q[..u][i + 1..]) && !HasTomb(q[i].key, q[u..])
    ensures forall n | i < n < |q| :: !SameField(q[i], q[n])
  {
    forall n | i < n < |q| ensures !SameField(q[i], q[n]) {
      if n < u {
        assert q[..u][i + 1..][n - i - 1] == q[n];
      } else {
        assert q[u..][n - u] == q[n];
      }
    }
  }

  lemma EditsSettle(log: seq<Op>, t0: Tables, j: nat, k: MessageKey, u: nat)
    requires j <= |log| && DeleteRow(k) !in log[j..] && k !in Fold(log[..j], t0).messages && NoLatent(log, t0)
    requires u < |log[j..]| && log[j..][u].UpsertMessage? && log[j..][u].key == k && !HasUpsert(k, log[j..][..u])
    ensures Edits(k, log[j..], None) == Edits(k, log[j..][u..], None)
  {
    var q := log[j..];
    assert q == q[..u] + q[u..];
    EditsSplit(k, q[..u], q[u..], None);
    EditsForget(k, q[u..], Edits(k, q[..u], None), None);
    if Edits(k, q, None) != Edits(k, q[u..], None) {
      EditsForget(k, q[..u], None, None);
      var i := LastEdit(k, q[..u]);
      LastEditDecides(k, q[..u], i, None);
      assert q[..u][i] == q[i];
      NoneAfter(q, u, i);
      UnsettledAt(log, t0, j, k, u, i);
      assert false;
    }
  }

  lemma TombsSettle(log: seq<Op>, t0: Tables, j: nat, k: MessageKey, u: nat)
    requires j <= |log| && DeleteRow(k) !in log[j..] && k !in Fold(log[..j], t0).messages && NoLatent(log, t0)
    requires u < |log[j..]| && log[j..][u].UpsertMessage? && log[j..][u].key == k && !HasUpsert(k, log[j..][..u])
    ensures HasTomb(k, log[j..]) ==> HasTomb(k, log[j..][u..])
  {
    var q := log[j..];
    assert q == q[..u] + q[u..];
    if HasTomb(k, q) && !HasTomb(k, q[u..]) {
      var i := LastTomb(k, q[..u]);
      assert q[..u][i] == q[i];
      NoneAfter(q, u, i);
      UnsettledAt(log, t0, j, k, u, i);
      assert false;
    }
  }

  lemma SettledAt(log: seq<Op>, t0: Tables, j: nat, k: MessageKey)
    requires j <= |log| && DeleteRow(k) !in log[j..]
    requires k !in Fold(log[..j], t0).messages
    requires NoLatent(log, t0)
    ensures Settled(k, log[j..])
  {
    var q := log[j..];
    forall u | 0 <= u < |q| && q[u].UpsertMessage? && q[u].key == k && !HasUpsert(k, q[..u])
      ensures MarksSettle(k, q, u)
    {
      EditsSettle(log, t0, j, k, u);
      TombsSettle(log, t0, j, k, u);
    }
  }

  /** On the cell of the operation at `pos`, doing it once more before everything from j on changes nothing. */
  lemma CellAbsorbs(log: seq<Op>, t0: Tables, c: Consumer, j: nat)
    requires j <= c.pos < |log| && RowsStay(log, t0, c) && NoLatent(log, t0)
    ensures var x := log[c.pos]; var v := Read(c.tables, CellOf(x));
      FoldCell(CellOf(x), log[j..], Act(x, v)) == FoldCell(CellOf(x), log[j..], v)
  {
    var q, x := log[j..], log[c.pos];
    assert q[c.pos - j] == x;
    var v := Read(c.tables, CellOf(x));
    if v.None? && x.UpsertMessage? && DeleteRow(x.key) !in q {
      SettledAt(log, t0, j, x.key);
    }
    Absorb(CellOf(x), q, c.pos - j, v);
  }

  /**
   * Doing the operation at `pos` and then everything from an earlier point ends where it would have ended
   * without it.
   */
  lemma ReplayAbsorbs(log: seq<Op>, t0: Tables, c: Consumer, j: nat)
    requires j <= c.pos < |log| && RowsStay(log, t0, c) && NoLatent(log, t0)
    ensures Fold(log[j..], Apply(log[c.pos], c.tables)) == Fold(log[j..], c.tables)
  {
    var q, x := log[j..], log[c.pos];
    var t := Apply(x, c.tables);
    CellAbsorbs(log, t0, c, j);
    forall cell ensures Read(Fold(q, t), cell) == Read(Fold(q, c.tables), cell) {
      FoldReads(q, t, cell);
      FoldReads(q, c.tables, cell);
      ApplyReads(x, c.tables, cell);
    }
    TablesExtensional(Fold(q, t), Fold(q, c.tables));
  }

  /** After a step the rest of the log has the effect the step and the rest had before it. */
  lemma ProcessFolds(log: seq<Op>, c: Consumer)
    requires c.pos < |log|
    ensures Fold(log[c.pos + 1..], Deliver(log, c, Process).tables) == Fold(log[c.pos..], c.tables)
  {
    assert log[c.pos..][0] == log[c.pos] && log[c.pos..][1..] == log[c.pos + 1..];
  }

  lemma ProcessEndsAt(log: seq<Op>, t0: Tables, c: Consumer, j: nat, end: Tables)
    requires c.pos < |log| && RowsStay(log, t0, c) && NoLatent(log, t0)
    requires j <= c.pos + 1 && Fold(log[if j <= c.pos then j else c.pos..], c.tables) == end
    ensures Fold(log[j..], Deliver(log, c, Process).tables) == end
  {
    if j <= c.pos {
      ReplayAbsorbs(log, t0, c, j);
    } else {
      ProcessFolds(log, c);
    }
  }

  lemma ProcessEndsAlike(log: seq<Op>, t0: Tables, c: Consumer)
    requires c.pos < |log| && EndsAlike(log, t0, c) && RowsStay(log, t0, c) && NoLatent(log, t0)
    ensures EndsAlike(log, t0, Deliver(log, c, Process))
  {
    var n := Deliver(log, c, Process);
    forall j | 0 <= j <= n.pos ensures Fold(log[j..], n.tables) == Fold(log, t0) {
      ProcessEndsAt(log, t0, c, j, Fold(log, t0));
    }
  }

  lemma ProcessKeepsRow(log: seq<Op>, t0: Tables, c: Consumer, j: nat, k: MessageKey)
    requires c.pos < |log| && j <= c.pos + 1 && RowsStay(log, t0, c)
    requires k in Fold(log[..j], t0).messages && DeleteRow(k) !in log[j..]
    ensures k in Deliver(log, c, Process).tables.messages
  {
    var x := log[c.pos];
    if j <= c.pos {
      assert log[j..][c.pos - j] == x;
    } else {
      FoldOne(log, c.pos, t0);
      assert log[c.pos..] == [x] + log[j..];
      if !(x.UpsertMessage? && x.key == k) {
        assert x != DeleteRow(k);
        assert k in Fold(log[..c.pos], t0).messages && DeleteRow(k) !in log[c.pos..];
      }
    }
  }

  lemma DeliverKeepsInv(log: seq<Op>, t0: Tables, c: Consumer, d: Delivery)
    requires Inv(log, t0, c) && NoLatent(log, t0)
    ensures Inv(log, t0, Deliver(log, c, d))
  {
    if d.Process? && c.pos < |log| {
      ProcessEndsAlike(log, t0, c);
      var n := Deliver(log, c, d);
      forall j, k | 0 <= j <= n.pos && k in Fold(log[..j], t0).messages && DeleteRow(k) !in log[j..]
        ensures k in n.tables.messages
      {
        ProcessKeepsRow(log, t0, c, j, k);
      }
    }
  }

  lemma {:induction false} RunKeepsInv(log: seq<Op>, t0: Tables, c: Consumer, ds: seq<Delivery>)
    requires Inv(log, t0, c) && NoLatent(log, t0)
    ensures Inv(log, t0, Run(log, c, ds))
    decreases |ds|
  {
    if ds != [] {
      DeliverKeepsInv(log, t0, c, ds[0]);
      RunKeepsInv(log, t0, Deliver(log, c, ds[0]), ds[1..]);
    }
  }

  lemma InvAtStart(log: seq<Op>, t0: Tables)
    ensures Inv(log, t0, Consumer(0, t0))
  {
    assert log[0..] == log && log[..0] == [];
  }

  /** Without latent marks every schedule that gets through the log ends with the clean pass's tables. */
  lemma RedeliveryConverges(log: seq<Op>, t0: Tables, ds: seq<Delivery>)
    requires NoLatent(log, t0)
    ensures var c := Run(log, Consumer(0, t0), ds);
      c.pos == |log| ==> c.tables == Fold(log, t0)
  {
    InvAtStart(log, t0);
    RunKeepsInv(log, t0, Consumer(0, t0), ds);
    var c := Run(log, Consumer(0, t0), ds);
    if c.pos == |log| {
      assert log[c.pos..] == [];
      assert Fold(log[c.pos..], c.tables) == Fold(log, t0);
    }
  }

  // ------------------------------------------------------------------ and only then

  function Processes(n: nat): (r: seq<Delivery>)
    ensures |r| == n
  {
    seq(n, _ => Process)
  }

  lemma {:induction false} RunProcesses(log: seq<Op>, c: Consumer, n: nat)
    requires c.pos + n <= |log|
    ensures Run(log, c, Processes(n)) == Consumer(c.pos + n, Fold(log[c.pos..c.pos + n], c.tables))
    decreases n
  {
    if n > 0 {
      assert Processes(n)[1..] == Processes(n - 1);
      assert log[c.pos..c.pos + n][1..] == log[c.pos + 1..c.pos + n];
      RunProcesses(log, Deliver(log, c, Process), n - 1);
    }
  }

  lemma {:induction false} RunSplit(log: seq<Op>, c: Consumer, a: seq<Delivery>, b: seq<Delivery>)
    ensures Run(log, c, a + b) == Run(log, Run(log, c, a), b)
    decreases |a|
  {
    if a == [] {
      assert a + b == b;
    } else {
      assert (a + b)[1..] == a[1..] + b;
      RunSplit(log, Deliver(log, c, a[0]), a[1..], b);
    }
  }

  /** The clean pass leaves the row of a latent mark unmarked. */
  lemma CleanPassUnmarked(log: seq<Op>, t0: Tables, i: nat)
    requires i < |log| && Latent(log, t0, i)
    ensures var k := log[i].key; var t := Fold(log, t0);
      k in t.messages && (if log[i].MarkEdited? then t.messages[k].editedAt == None else !t.messages[k].deleted)
  {
    var k := log[i].key;
    var rest := log[i + 1..];
    var c := RowCell(k);
    assert log == log[..i] + ([log[i]] + rest) && ([log[i]] + rest)[1..] == rest;
    FoldSplit(log[..i], [log[i]] + rest, t0);
    FoldReads(rest, Apply(log[i], Fold(log[..i], t0)), c);
    var u := FirstUpsert(k, rest);
    FromAbsent(k, rest, u);
    var tail := rest[u + 1..];
    forall n | 0 <= n < |tail| ensures !SameField(log[i], tail[n]) {
      assert tail[n] == log[i + u + n + 2];
    }
    if log[i].MarkEdited? {
      EditsForget(k, tail, None, None);
    }
  }

  lemma {:induction false} EditsEndWith(k: MessageKey, ops: seq<Op>, i: nat, e: Option<int>)
    requires i < |ops| && ops[i].MarkEdited? && ops[i].key == k
    requires forall n | i < n < |ops| :: !(ops[n].MarkEdited? && ops[n].key == k)
    ensures Edits(k, ops, e) == ops[i].date
    decreases i
  {
    if i == 0 {
      EditsForget(k, ops[1..], ops[0].date, e);
    } else {
      EditsEndWith(k, ops[1..], i - 1, if ops[0].MarkEdited? && ops[0].key == k then ops[0].date else e);
    }
  }

  /**
   * Redelivering from at or before a latent mark, with no deletion of its row from there on, marks the row
   * after all.
   */
  lemma RedeliveryMarks(log: seq<Op>, t0: Tables, i: nat, j: nat)
    requires j <= i < |log| && Latent(log, t0, i) && DeleteRow(log[i].key) !in log[j..]
    ensures Fold(log[j..], Fold(log, t0)) != Fold(log, t0)
  {
    var k := log[i].key;
    var q := log[j..];
    var t := Fold(log, t0);
    CleanPassUnmarked(log, t0, i);
    FoldReads(q, t, RowCell(k));
    PresentFold(k, q, t.messages[k]);
    assert q[i - j] == log[i];
    if log[i].MarkEdited? {
      forall n | i - j < n < |q| ensures !(q[n].MarkEdited? && q[n].key == k) {
        assert !SameField(log[i], log[n + j]);
      }
      EditsEndWith(k, q, i - j, t.messages[k].editedAt);
    }
  }

  ghost predicate AlwaysConverges(log: seq<Op>, t0: Tables) {
    forall ds: seq<Delivery> | Run(log, Consumer(0, t0), ds).pos == |log| ::
      Run(log, Consumer(0, t0), ds).tables == Fold(log, t0)
  }

  function RedeliverFrom(log: seq<Op>, j: nat): seq<Delivery>
    requires j <= |log|
  {
    Processes(|log|) + ([Rewind(j)] + Processes(|log| - j))
  }

  lemma RunRedeliverFrom(log: seq<Op>, t0: Tables, j: nat)
    requires j <= |log|
    ensures Run(log, Consumer(0, t0), RedeliverFrom(log, j)) == Consumer(|log|, Fold(log[j..], Fold(log, t0)))
  {
    var c0 := Consumer(0, t0);
    RunSplit(log, c0, Processes(|log|), [Rewind(j)] + Processes(|log| - j));
    RunProcesses(log, c0, |log|);
    assert log[0..0 + |log|] == log && log[j..j + (|log| - j)] == log[j..];
    assert ([Rewind(j)] + Processes(|log| - j))[1..] == Processes(|log| - j);
    RunProcesses(log, Consumer(j, Fold(log, t0)), |log| - j);
  }

  /** Redelivery is harmless under every schedule if and only if the log holds no latent mark. */
  lemma ConvergesExactly(log: seq<Op>, t0: Tables)
    ensures AlwaysConverges(log, t0) <==> NoLatent(log, t0)
  {
    if NoLatent(log, t0) {
      forall ds: seq<Delivery> | Run(log, Consumer(0, t0), ds).pos == |log|
        ensures Run(log, Consumer(0, t0), ds).tables == Fold(log, t0)
      {
        RedeliveryConverges(log, t0, ds);
      }
    } else {
      var i :| 0 <= i < |log| && Latent(log, t0, i);
      assert log[i..] == [log[i]] + log[i + 1..];
      RedeliveryMarks(log, t0, i, i);
      RunRedeliverFrom(log, t0, i);
      assert Run(log, Consumer(0, t0), RedeliverFrom(log, i)).pos == |log|;
    }
  }

  /** The condition a producer of events would state: every mark finds its row. */
  lemma MarksHitSuffices(log: seq<Op>, t0: Tables)
    requires MarksHit(log, t0)
    ensures NoLatent(log, t0) && AlwaysConverges(log, t0)
  {
    ConvergesExactly(log, t0);
  }

  /** Applying a suffix twice: the log p + s with s redelivered in full. */
  lemma SuffixTwice(p: seq<Op>, s: seq<Op>, t0: Tables)
    requires NoLatent(p + s, t0)
    ensures Fold(s, Fold(p + s, t0)) == Fold(p + s, t0)
  {
    assert (p + s)[|p|..] == s;
    RunRedeliverFrom(p + s, t0, |p|);
    RedeliveryConverges(p + s, t0, RedeliverFrom(p + s, |p|));
  }

  /** An edit delivered before the row it names is lost on a clean pass and appears on redelivery. */
  lemma EditBeforeInsertDiverges(k: MessageKey, date: int, cols: Columns)
    ensures var log := [MarkEdited(k, Some(date)), UpsertMessage(k, cols)];
      !AlwaysConverges(log, Tables(map[], map[], map[]))
  {
    var log := [MarkEdited(k, Some(date)), UpsertMessage(k, cols)];
    var t0 := Tables(map[], map[], map[]);
    assert log[..0] == [];
    assert log[1..][0] == UpsertMessage(k, cols);
    assert Latent(log, t0, 0);
    ConvergesExactly(log, t0);
  }

  predicate Advances(op: Op, s: string) {
    op.AdvanceSeq? && op.session == s
  }

  lemma {:induction false} SeqGrows(log: seq<Op>, t0: Tables, s: string)
    requires s in t0.lastSeq
    ensures var t := Fold(log, t0); s in t.lastSeq && t0.lastSeq[s] <= t.lastSeq[s]
    decreases |log|
  {
    if log != [] {
      SeqGrows(log[1..], Apply(log[0], t0), s);
    }
  }

  lemma {:induction false} SeqCovers(log: seq<Op>, t0: Tables, s: string, i: nat)
    requires i < |log| && Advances(log[i], s)
    ensures var t := Fold(log, t0); s in t.lastSeq && log[i].number <= t.lastSeq[s]
    decreases |log|
  {
    if i == 0 {
      SeqGrows(log[1..], Apply(log[0], t0), s);
    } else {
      SeqCovers(log[1..], Apply(log[0], t0), s, i - 1);
    }
  }

  /** The stored number was there at first, or the log advanced to it. */
  ghost predicate SeqFrom(log: seq<Op>, t0: Tables, s: string, n: int) {
    (s in t0.lastSeq && t0.lastSeq[s] == n) || exists i :: 0 <= i < |log| && log[i] == AdvanceSeq(s, n)
  }

  lemma {:induction false} SeqWasSeen(log: seq<Op>, t0: Tables, s: string)
    requires s in Fold(log, t0).lastSeq
    ensures SeqFrom(log, t0, s, Fold(log, t0).lastSeq[s])
    decreases |log|
  {
    if log != [] {
      var t1, rest, n := Apply(log[0], t0), log[1..], Fold(log, t0).lastSeq[s];
      SeqWasSeen(rest, t1, s);
      if i :| 0 <= i < |rest| && rest[i] == AdvanceSeq(s, n) {
        assert log[i + 1] == AdvanceSeq(s, n);
      } else if !(s in t0.lastSeq && t0.lastSeq[s] == n) {
        assert log[0] == AdvanceSeq(s, n);
      }
    }
  }

  /** The stored sequence number is the largest seen, whatever was redelivered. */
  lemma {:induction false} LastSeqIsMaximum(log: seq<Op>, t0: Tables, s: string)
    ensures var t := Fold(log, t0);
      && (s in t.lastSeq <==> s in t0.lastSeq || exists i :: 0 <= i < |log| && Advances(log[i], s))
      && (s in t.lastSeq ==>
        && (s in t0.lastSeq ==> t0.lastSeq[s] <= t.lastSeq[s])
        && (forall i :: 0 <= i < |log| && Advances(log[i], s) ==> log[i].number <= t.lastSeq[s])
        && SeqFrom(log, t0, s, t.lastSeq[s]))
  {
    var t := Fold(log, t0);
    if s in t0.lastSeq {
      SeqGrows(log, t0, s);
    }
    forall i | 0 <= i < |log| && Advances(log[i], s) ensures s in t.lastSeq && log[i].number <= t.lastSeq[s] {
      SeqCovers(log, t0, s, i);
    }
    if s in t.lastSeq {
      SeqWasSeen(log, t0, s);
      if s !in t0.lastSeq {
        var i :| 0 <= i < |log| && log[i] == AdvanceSeq(s, t.lastSeq[s]);
        assert Advances(log[i], s);
      }
    }
  }
}
