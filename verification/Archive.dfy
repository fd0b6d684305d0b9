/** The archiver's tables and the handling of one event frame (archiver/src/store.ts, archiver/src/index.ts). */
module Archive {
  import opened Options

  datatype MessageKey = MessageKey(session: string, chat: string, message: string)
  datatype Columns = Columns(
    date: Option<int>, outgoing: bool, kind: string, text: string,
    file: Option<string>, fileName: Option<string>, mime: Option<string>)
  datatype Row = Row(cols: Columns, mediaUrl: Option<string>, editedAt: Option<int>, deleted: bool)
  datatype ChatKey = ChatKey(session: string, chat: string)
  datatype Chat = Chat(title: string, kind: string)

  datatype Tables = Tables(
    messages: map<MessageKey, Row>, chats: map<ChatKey, Chat>, lastSeq: map<string, int>)

  /** One completed store call; the sequence number's read, compare and write count as one. */
  datatype Op =
    | UpsertMessage(key: MessageKey, cols: Columns)
    | DeleteRow(key: MessageKey)
    | UpdateText(key: MessageKey, text: string, kind: string, file: Option<string>)
    | MarkEdited(key: MessageKey, date: Option<int>)
    | MarkDeleted(key: MessageKey)
    | UpsertChat(chatKey: ChatKey, chat: Chat)
    | AdvanceSeq(session: string, number: int)

  /** What the INSERT half of the upsert stores: the columns it does not name get their defaults. */
  function FreshRow(cols: Columns): Row {
    Row(cols, None, None, false)
  }

  function Apply(op: Op, t: Tables): Tables {
    match op
    case UpsertMessage(k, cols) =>
      t.(messages := t.messages[k := if k in t.messages then t.messages[k].(cols := cols) else FreshRow(cols)])
    case DeleteRow(k) =>
      t.(messages := t.messages - {k})
    case UpdateText(k, text, kind, file) =>
      if k in t.messages then
        var row := t.messages[k];
        t.(messages := t.messages[k := row.(cols := row.cols.(text := text, kind := kind, file := file))])
      else t
    case MarkEdited(k, date) =>
      if k in t.messages then t.(messages := t.messages[k := t.messages[k].(editedAt := date)]) else t
    case MarkDeleted(k) =>
      if k in t.messages then t.(messages := t.messages[k := t.messages[k].(deleted := true)]) else t
    case UpsertChat(ck, chat) =>
      t.(chats := t.chats[ck := chat])
    case AdvanceSeq(s, n) =>
      if s !in t.lastSeq || n > t.lastSeq[s] then t.(lastSeq := t.lastSeq[s := n]) else t
  }

  function Fold(ops: seq<Op>, t: Tables): Tables {
    if ops == [] then t else Fold(ops[1..], Apply(ops[0], t))
  }

  lemma {:induction false} FoldSplit(a: seq<Op>, b: seq<Op>, t: Tables)
    ensures Fold(a + b, t) == Fold(b, Fold(a, t))
    decreases |a|
  {
    if a == [] {
      assert a + b == b;
    } else {
      assert (a + b)[1..] == a[1..] + b;
      FoldSplit(a[1..], b, Apply(a[0], t));
    }
  }

  lemma FoldOne(ops: seq<Op>, i: nat, t: Tables)
    requires i < |ops|
    ensures Fold(ops[..i + 1], t) == Apply(ops[i], Fold(ops[..i], t))
  {
    assert ops[..i + 1] == ops[..i] + [ops[i]];
    FoldSplit(ops[..i], [ops[i]], t);
    assert [ops[i]][1..] == [];
  }

  // ------------------------------------------------------------------ frames

  datatype Content = Content(
    kind: Option<string>, text: Option<string>, caption: Option<string>,
    file: Option<string>, fileName: Option<string>, mime: Option<string>)
  datatype Message = Message(
    id: Option<string>, chat: Option<string>, date: Option<int>, outgoing: bool, content: Content)

  datatype Update =
    | NewMessage(msg: Message)
    | SendSucceeded(oldId: Option<string>, msg: Message)
    | ContentChanged(chat: Option<string>, id: Option<string>, content: Content)
    | Edited(chat: Option<string>, id: Option<string>, date: Option<int>)
    | Deleted(chat: Option<string>, ids: seq<string>)
    | NewChat(id: Option<string>, title: Option<string>, kind: Option<string>)
    | Unknown

  datatype Frame = Frame(sessionId: Option<string>, update: Update, number: Option<int>)

  function SessionOf(f: Frame): string {
    f.sessionId.GetOr("default")
  }

  function TextOf(c: Content): string {
    match c.text
    case Some(t) => t
    case None => c.caption.GetOr("")
  }

  function KeyOf(session: string, chat: Option<string>, id: Option<string>): MessageKey {
    MessageKey(session, chat.GetOr(""), id.GetOr(""))
  }

  function MessageColumns(m: Message): Columns {
    Columns(m.date, m.outgoing, m.content.kind.GetOr("unknown"), TextOf(m.content),
            m.content.file, m.content.fileName, m.content.mime)
  }

  /** A row is stored only under a non-empty chat id and message id. */
  function StoreMessage(session: string, m: Message): seq<Op> {
    var k := KeyOf(session, m.chat, m.id);
    if k.chat != "" && k.message != "" then [UpsertMessage(k, MessageColumns(m))] else []
  }

  predicate Truthy(s: Option<string>) {
    s.Some? && s.value != ""
  }

  function Tombstones(session: string, chat: Option<string>, ids: seq<string>): (r: seq<Op>)
    ensures |r| == |ids|
    ensures forall i :: 0 <= i < |ids| ==> r[i] == MarkDeleted(MessageKey(session, chat.GetOr(""), ids[i]))
  {
    if ids == [] then []
    else [MarkDeleted(MessageKey(session, chat.GetOr(""), ids[0]))] + Tombstones(session, chat, ids[1..])
  }

  function UpdateOps(session: string, u: Update): seq<Op> {
    match u
    case NewMessage(m) => StoreMessage(session, m)
    case SendSucceeded(oldId, m) =>
      (if Truthy(oldId) && Truthy(m.chat) then [DeleteRow(KeyOf(session, m.chat, oldId))] else [])
      + StoreMessage(session, m)
    case ContentChanged(chat, id, c) =>
      [UpdateText(KeyOf(session, chat, id), TextOf(c), c.kind.GetOr("unknown"), c.file)]
    case Edited(chat, id, date) => [MarkEdited(KeyOf(session, chat, id), date)]
    case Deleted(chat, ids) => Tombstones(session, chat, ids)
    case NewChat(id, title, kind) => [UpsertChat(ChatKey(session, id.GetOr("")), Chat(title.GetOr(""), kind.GetOr("")))]
    case Unknown => []
  }

  /** The store calls of one frame, in order; the sequence number is advanced only after the others. */
  function FrameOps(f: Frame): seq<Op> {
    UpdateOps(SessionOf(f), f.update) + (if f.number.Some? then [AdvanceSeq(SessionOf(f), f.number.value)] else [])
  }

  // ------------------------------------------------------------------ what a frame does to the tables

  /** The text a content is archived with: its text, else its caption, else nothing. */
  predicate ArchivedText(c: Content, text: string) {
    && (c.text.Some? ==> text == c.text.value)
    && (c.text.None? && c.caption.Some? ==> text == c.caption.value)
    && (c.text.None? && c.caption.None? ==> text == "")
  }

  predicate ArchivedKind(c: Content, kind: string) {
    (c.kind.Some? ==> kind == c.kind.value) && (c.kind.None? ==> kind == "unknown")
  }

  predicate ArchivedColumns(m: Message, cols: Columns) {
    && cols.date == m.date && cols.outgoing == m.outgoing
    && ArchivedKind(m.content, cols.kind) && ArchivedText(m.content, cols.text)
    && cols.file == m.content.file && cols.fileName == m.content.fileName && cols.mime == m.content.mime
  }

  /** No row but the one at k differs. */
  ghost predicate OnlyRow(b: map<MessageKey, Row>, a: map<MessageKey, Row>, k: MessageKey) {
    && (forall j | j in a && j != k :: j in b && a[j] == b[j])
    && (forall j | j in b && j != k :: j in a)
  }

  predicate SameMarks(b: Row, a: Row) {
    a.mediaUrl == b.mediaUrl && a.editedAt == b.editedAt && a.deleted == b.deleted
  }

  /** The message has its row, if it has ids; an older row under its key keeps its marks. */
  ghost predicate MessageStored(session: string, m: Message, b: map<MessageKey, Row>, a: map<MessageKey, Row>) {
    if m.chat.GetOr("") == "" || m.id.GetOr("") == "" then a == b
    else
      var k := MessageKey(session, m.chat.value, m.id.value);
      && OnlyRow(b, a, k) && k in a && ArchivedColumns(m, a[k].cols)
      && (k in b ==> SameMarks(b[k], a[k]))
      && (k !in b ==> a[k].mediaUrl == None && a[k].editedAt == None && !a[k].deleted)
  }

  /** The row with its deleted mark, if it is hit. */
  predicate RowMarked(hit: bool, b: Row, a: Row) {
    && (hit ==> a.deleted && a.cols == b.cols && a.mediaUrl == b.mediaUrl && a.editedAt == b.editedAt)
    && (!hit ==> a == b)
  }

  /** Exactly the rows of the listed messages of the chat are marked, those that exist. */
  ghost predicate MessagesMarked(session: string, chat: string, ids: seq<string>, b: map<MessageKey, Row>,
      a: map<MessageKey, Row>)
  {
    && a.Keys == b.Keys
    && forall k | k in b :: RowMarked(k.session == session && k.chat == chat && k.message in ids, b[k], a[k])
  }

  ghost predicate TextChanged(k: MessageKey, c: Content, b: map<MessageKey, Row>, a: map<MessageKey, Row>) {
    && a.Keys == b.Keys && OnlyRow(b, a, k)
    && (k in b ==>
         && SameMarks(b[k], a[k]) && ArchivedText(c, a[k].cols.text) && ArchivedKind(c, a[k].cols.kind)
         && a[k].cols.file == c.file && a[k].cols.date == b[k].cols.date && a[k].cols.outgoing == b[k].cols.outgoing
         && a[k].cols.fileName == b[k].cols.fileName && a[k].cols.mime == b[k].cols.mime)
  }

  ghost predicate EditDated(k: MessageKey, date: Option<int>, b: map<MessageKey, Row>, a: map<MessageKey, Row>) {
    && a.Keys == b.Keys && OnlyRow(b, a, k)
    && (k in b ==>
         a[k].editedAt == date && a[k].cols == b[k].cols && a[k].mediaUrl == b[k].mediaUrl
         && a[k].deleted == b[k].deleted)
  }

  predicate DropsProvisional(oldId: Option<string>, m: Message) {
    oldId.GetOr("") != "" && m.chat.GetOr("") != ""
  }

  /** The rows without the provisional one, if the frame names it. */
  function Dropped(session: string, oldId: Option<string>, m: Message, b: map<MessageKey, Row>): map<MessageKey, Row> {
    if DropsProvisional(oldId, m) then b - {MessageKey(session, m.chat.value, oldId.value)} else b
  }

  /** What a handled update did to the rows and the chats. */
  ghost predicate UpdateEffect(session: string, u: Update, b: Tables, a: Tables) {
    && (!u.NewChat? ==> a.chats == b.chats)
    && match u
       case NewMessage(m) => MessageStored(session, m, b.messages, a.messages)
       case SendSucceeded(oldId, m) => MessageStored(session, m, Dropped(session, oldId, m, b.messages), a.messages)
       case ContentChanged(chat, id, c) =>
         TextChanged(MessageKey(session, chat.GetOr(""), id.GetOr("")), c, b.messages, a.messages)
       case Edited(chat, id, date) =>
         EditDated(MessageKey(session, chat.GetOr(""), id.GetOr("")), date, b.messages, a.messages)
       case Deleted(chat, ids) => MessagesMarked(session, chat.GetOr(""), ids, b.messages, a.messages)
       case NewChat(id, title, kind) =>
         && a.messages == b.messages
         && a.chats == b.chats[ChatKey(session, id.GetOr("")) := Chat(title.GetOr(""), kind.GetOr(""))]
       case Unknown => a.messages == b.messages
  }

  /** The session's number is the larger one, and no other session's changed. */
  ghost predicate NumberEffect(session: string, number: Option<int>, b: map<string, int>, a: map<string, int>) {
    match number
    case None => a == b
    case Some(n) => a == b[session := if session in b && b[session] >= n then b[session] else n]
  }

  ghost predicate FrameEffect(f: Frame, b: Tables, a: Tables) {
    var session := f.sessionId.GetOr("default");
    UpdateEffect(session, f.update, b, a) && NumberEffect(session, f.number, b.lastSeq, a.lastSeq)
  }

  predicate HasIds(m: Message) {
    m.chat.GetOr("") != "" && m.id.GetOr("") != ""
  }

  /** How many store calls an update takes. */
  function CallsOf(u: Update): nat {
    match u
    case NewMessage(m) => if HasIds(m) then 1 else 0
    case SendSucceeded(oldId, m) => (if DropsProvisional(oldId, m) then 1 else 0) + if HasIds(m) then 1 else 0
    case Deleted(_, ids) => |ids|
    case Unknown => 0
    case _ => 1
  }

  /** What a frame cut off after `budget` calls did: no number, and of its update what the calls so far did. */
  ghost predicate CutEffect(f: Frame, budget: nat, b: Tables, a: Tables) {
    var session := f.sessionId.GetOr("default");
    && a.lastSeq == b.lastSeq
    && if budget >= CallsOf(f.update) then UpdateEffect(session, f.update, b, a)
       else
         && a.chats == b.chats
         && match f.update
            case Deleted(chat, ids) =>
              budget < |ids| && MessagesMarked(session, chat.GetOr(""), ids[..budget], b.messages, a.messages)
            case SendSucceeded(oldId, m) =>
              a.messages == if budget == 1 then Dropped(session, oldId, m, b.messages) else b.messages
            case _ => a.messages == b.messages
  }

  lemma OneOp(op: Op, t: Tables)
    ensures Fold([op], t) == Apply(op, t)
  {
    assert [op][1..] == [];
  }

  lemma StoreEffect(session: string, m: Message, t: Tables)
    ensures var r := Fold(StoreMessage(session, m), t);
      && MessageStored(session, m, t.messages, r.messages) && r.chats == t.chats && r.lastSeq == t.lastSeq
      && |StoreMessage(session, m)| == if HasIds(m) then 1 else 0
  {
    if HasIds(m) {
      OneOp(UpsertMessage(KeyOf(session, m.chat, m.id), MessageColumns(m)), t);
    }
  }

  lemma MarkedCons(session: string, chat: string, ids: seq<string>, b: map<MessageKey, Row>, m: map<MessageKey, Row>,
      a: map<MessageKey, Row>)
    requires ids != [] && MessagesMarked(session, chat, [ids[0]], b, m) && MessagesMarked(session, chat, ids[1..], m, a)
    ensures MessagesMarked(session, chat, ids, b, a)
  {
    assert ids == [ids[0]] + ids[1..];
    forall k | k in b ensures RowMarked(k.session == session && k.chat == chat && k.message in ids, b[k], a[k]) {
      assert RowMarked(k.session == session && k.chat == chat && k.message in [ids[0]], b[k], m[k]);
    }
  }

  lemma OneMarked(session: string, chat: string, id: string, t: Tables)
    ensures var r := Apply(MarkDeleted(MessageKey(session, chat, id)), t);
      && MessagesMarked(session, chat, [id], t.messages, r.messages) && r.chats == t.chats && r.lastSeq == t.lastSeq
  {
  }

  lemma {:induction false} TombstonesEffect(session: string, chat: Option<string>, ids: seq<string>, t: Tables)
    ensures var r := Fold(Tombstones(session, chat, ids), t);
      && MessagesMarked(session, chat.GetOr(""), ids, t.messages, r.messages)
      && r.chats == t.chats && r.lastSeq == t.lastSeq
    decreases |ids|
  {
    if ids != [] {
      var op := MarkDeleted(MessageKey(session, chat.GetOr(""), ids[0]));
      assert Tombstones(session, chat, ids)[1..] == Tombstones(session, chat, ids[1..]);
      var m := Apply(op, t);
      OneMarked(session, chat.GetOr(""), ids[0], t);
      TombstonesEffect(session, chat, ids[1..], m);
      assert Fold(Tombstones(session, chat, ids), t) == Fold(Tombstones(session, chat, ids[1..]), m);
      MarkedCons(session, chat.GetOr(""), ids, t.messages, m.messages,
        Fold(Tombstones(session, chat, ids[1..]), m).messages);
    }
  }

  lemma {:induction false} TombstonesCut(session: string, chat: Option<string>, ids: seq<string>, n: nat)
    requires n <= |ids|
    ensures Tombstones(session, chat, ids)[..n] == Tombstones(session, chat, ids[..n])
    decreases n
  {
    if n > 0 {
      TombstonesCut(session, chat, ids[1..], n - 1);
      assert ids[..n][1..] == ids[1..][..n - 1] && ids[..n][0] == ids[0];
    }
  }

  lemma SendSucceededEffect(session: string, oldId: Option<string>, m: Message, t: Tables)
    ensures var ops := UpdateOps(session, SendSucceeded(oldId, m)); var r := Fold(ops, t);
      && |ops| == CallsOf(SendSucceeded(oldId, m)) && r.chats == t.chats && r.lastSeq == t.lastSeq
      && MessageStored(session, m, Dropped(session, oldId, m, t.messages), r.messages)
    ensures DropsProvisional(oldId, m) ==>
      var ops := UpdateOps(session, SendSucceeded(oldId, m));
      Fold(ops[..1], t) == t.(messages := Dropped(session, oldId, m, t.messages))
  {
    var upsert := StoreMessage(session, m);
    if DropsProvisional(oldId, m) {
      var drop := DeleteRow(KeyOf(session, m.chat, oldId));
      FoldSplit([drop], upsert, t);
      OneOp(drop, t);
      StoreEffect(session, m, Apply(drop, t));
      assert UpdateOps(session, SendSucceeded(oldId, m))[..1] == [drop];
    } else {
      assert UpdateOps(session, SendSucceeded(oldId, m)) == upsert;
      StoreEffect(session, m, t);
    }
  }

  /** An update does to the tables what it says. */
  lemma UpdateHasEffect(session: string, u: Update, t: Tables)
    ensures var r := Fold(UpdateOps(session, u), t); UpdateEffect(session, u, t, r) && r.lastSeq == t.lastSeq
    ensures |UpdateOps(session, u)| == CallsOf(u)
  {
    match u {
      case NewMessage(m) => StoreEffect(session, m, t);
      case SendSucceeded(oldId, m) => SendSucceededEffect(session, oldId, m, t);
      case Deleted(chat, ids) => TombstonesEffect(session, chat, ids, t);
      case Unknown =>
      case _ => OneOp(UpdateOps(session, u)[0], t);
    }
  }

  lemma FrameCalls(f: Frame)
    ensures |FrameOps(f)| == CallsOf(f.update) + if f.number.Some? then 1 else 0
  {
    UpdateHasEffect(SessionOf(f), f.update, Tables(map[], map[], map[]));
  }

  /** A frame handled to its end. */
  lemma FrameHasEffect(f: Frame, t: Tables)
    ensures FrameEffect(f, t, Fold(FrameOps(f), t))
  {
    var session := SessionOf(f);
    var ops := UpdateOps(session, f.update);
    UpdateHasEffect(session, f.update, t);
    if f.number.Some? {
      FoldSplit(ops, [AdvanceSeq(session, f.number.value)], t);
      OneOp(AdvanceSeq(session, f.number.value), Fold(ops, t));
    } else {
      assert FrameOps(f) == ops;
    }
  }

  lemma UpdateCut(session: string, u: Update, budget: nat, t: Tables)
    requires budget < |UpdateOps(session, u)|
    ensures CutEffect(Frame(Some(session), u, None), budget, t, Fold(UpdateOps(session, u)[..budget], t))
  {
    UpdateHasEffect(session, u, t);
    match u {
      case Deleted(chat, ids) =>
        TombstonesCut(session, chat, ids, budget);
        TombstonesEffect(session, chat, ids[..budget], t);
      case SendSucceeded(oldId, m) => SendSucceededEffect(session, oldId, m, t);
      case _ =>
    }
  }

  /** A frame whose store call after the first `budget` throws. */
  lemma FrameCut(f: Frame, budget: nat, t: Tables)
    requires budget < |FrameOps(f)|
    ensures CutEffect(f, budget, t, Fold(FrameOps(f)[..budget], t))
  {
    var session := SessionOf(f);
    var ops := UpdateOps(session, f.update);
    UpdateHasEffect(session, f.update, t);
    if budget < |ops| {
      assert FrameOps(f)[..budget] == ops[..budget];
      UpdateCut(session, f.update, budget, t);
    } else {
      assert FrameOps(f)[..budget] == ops;
    }
  }

  // ------------------------------------------------------------------ the store and the handler, in place

  class Store {
    var messages: map<MessageKey, Row>
    var chats: map<ChatKey, Chat>
    var lastSeq: map<string, int>

    function Contents(): Tables
      reads this
    {
      Tables(messages, chats, lastSeq)
    }

    constructor ()
      ensures Contents() == Tables(map[], map[], map[])
    {
      messages, chats, lastSeq := map[], map[], map[];
    }

    method UpsertMessageRow(k: MessageKey, cols: Columns)
      modifies this`messages
      ensures Contents() == Apply(UpsertMessage(k, cols), old(Contents()))
    {
      if k in messages {
        messages := messages[k := messages[k].(cols := cols)];
      } else {
        messages := messages[k := FreshRow(cols)];
      }
    }

    method DeleteMessageRow(k: MessageKey)
      modifies this`messages
      ensures Contents() == Apply(DeleteRow(k), old(Contents()))
    {
      messages := messages - {k};
    }

    method UpdateMessageText(k: MessageKey, text: string, kind: string, file: Option<string>)
      modifies this`messages
      ensures Contents() == Apply(UpdateText(k, text, kind, file), old(Contents()))
    {
      if k in messages {
        messages := messages[k := messages[k].(cols := messages[k].cols.(text := text, kind := kind, file := file))];
      }
    }

    method MarkMessageEdited(k: MessageKey, date: Option<int>)
      modifies this`messages
      ensures Contents() == Apply(MarkEdited(k, date), old(Contents()))
    {
      if k in messages {
        messages := messages[k := messages[k].(editedAt := date)];
      }
    }

    method MarkMessageDeleted(k: MessageKey)
      modifies this`messages
      ensures Contents() == Apply(MarkDeleted(k), old(Contents()))
    {
      if k in messages {
        messages := messages[k := messages[k].(deleted := true)];
      }
    }

    method UpsertChatRow(ck: ChatKey, chat: Chat)
      modifies this`chats
      ensures Contents() == Apply(UpsertChat(ck, chat), old(Contents()))
    {
      chats := chats[ck := chat];
    }

    method GetSeq(s: string) returns (r: Option<int>)
      ensures r == if s in lastSeq then Some(lastSeq[s]) else None
    {
      r := if s in lastSeq then Some(lastSeq[s]) else None;
    }

    method SetSeq(s: string, n: int)
      modifies this`lastSeq
      ensures Contents() == old(Contents()).(lastSeq := old(lastSeq)[s := n])
    {
      lastSeq := lastSeq[s := n];
    }
  }

  /** The guarded upsert shared by the two message frames; false when the store call throws. */
  method StoreOne(store: Store, session: string, m: Message, budget: nat) returns (ok: bool)
    modifies store
    ensures ok <==> |StoreMessage(session, m)| <= budget
    ensures store.Contents() ==
      if ok then Fold(StoreMessage(session, m), old(store.Contents())) else old(store.Contents())
  {
    var k := KeyOf(session, m.chat, m.id);
    if k.chat != "" && k.message != "" {
      if budget == 0 { return false; }
      FoldOne(StoreMessage(session, m), 0, store.Contents());
      store.UpsertMessageRow(k, MessageColumns(m));
    }
    ok := true;
  }

  method TombstoneAll(store: Store, session: string, chat: Option<string>, ids: seq<string>, budget: nat)
    returns (ok: bool)
    modifies store
    ensures ok <==> |ids| <= budget
    ensures store.Contents()
      == Fold(Tombstones(session, chat, ids)[..if ok then |ids| else budget], old(store.Contents()))
  {
    ghost var ops := Tombstones(session, chat, ids);
    var made: nat := 0;
    while made < |ids|
      invariant made <= |ids| && made <= budget
      invariant store.Contents() == Fold(ops[..made], old(store.Contents()))
    {
      if budget == made { return false; }
      FoldOne(ops, made, old(store.Contents()));
      store.MarkMessageDeleted(MessageKey(session, chat.GetOr(""), ids[made]));
      made := made + 1;
    }
    ok := true;
  }

  method SendSucceededRow(store: Store, session: string, oldId: Option<string>, m: Message, budget: nat)
    returns (ok: bool)
    modifies store
    ensures var ops := UpdateOps(session, SendSucceeded(oldId, m));
      && (ok <==> |ops| <= budget)
      && store.Contents() == Fold(ops[..if ok then |ops| else budget], old(store.Contents()))
  {
    ghost var ops := UpdateOps(session, SendSucceeded(oldId, m));
    ghost var upsert := StoreMessage(session, m);
    ghost var start := store.Contents();
    if Truthy(oldId) && Truthy(m.chat) {
      if budget == 0 { return false; }
      ghost var drop := [DeleteRow(KeyOf(session, m.chat, oldId))];
      assert drop[1..] == [] && ops == drop + upsert;
      store.DeleteMessageRow(KeyOf(session, m.chat, oldId));
      FoldSplit(drop, upsert, start);
      ok := StoreOne(store, session, m, budget - 1);
      assert ops[..|ops|] == ops;
      assert !ok ==> ops[..budget] == drop;
    } else {
      assert ops == upsert && ops[..|ops|] == ops;
      ok := StoreOne(store, session, m, budget);
    }
  }

  method HandleUpdate(store: Store, session: string, u: Update, budget: nat) returns (ok: bool)
    modifies store
    ensures ok <==> |UpdateOps(session, u)| <= budget
    ensures store.Contents()
      == Fold(UpdateOps(session, u)[..if ok then |UpdateOps(session, u)| else budget], old(store.Contents()))
  {
    ghost var ops := UpdateOps(session, u);
    assert ops[..|ops|] == ops;
    match u {
      case NewMessage(m) =>
        ok := StoreOne(store, session, m, budget);
      case SendSucceeded(oldId, m) =>
        ok := SendSucceededRow(store, session, oldId, m, budget);
      case Deleted(chat, ids) =>
        ok := TombstoneAll(store, session, chat, ids, budget);
      case Unknown =>
        ok := true;
      case ContentChanged(chat, id, c) =>
        ok := budget > 0;
        if ok { store.UpdateMessageText(KeyOf(session, chat, id), TextOf(c), c.kind.GetOr("unknown"), c.file); }
      case Edited(chat, id, date) =>
        ok := budget > 0;
        if ok { store.MarkMessageEdited(KeyOf(session, chat, id), date); }
      case NewChat(id, title, kind) =>
        ok := budget > 0;
        if ok { store.UpsertChatRow(ChatKey(session, id.GetOr("")), Chat(title.GetOr(""), kind.GetOr(""))); }
    }
  }

  /** The store calls of one frame, of which the first `budget` succeed and the next throws. */
  method MakeCalls(store: Store, f: Frame, budget: nat) returns (done: bool)
    modifies store
    ensures done <==> |FrameOps(f)| <= budget
    ensures store.Contents() == Fold(FrameOps(f)[..if done then |FrameOps(f)| else budget], old(store.Contents()))
  {
    ghost var start := store.Contents();
    var session := SessionOf(f);
    ghost var ops := UpdateOps(session, f.update);
    done := HandleUpdate(store, session, f.update, budget);
    if !done {
      assert FrameOps(f)[..budget] == ops[..budget];
      return;
    }
    assert ops[..|ops|] == ops && FrameOps(f)[..|FrameOps(f)|] == FrameOps(f);
    if f.number.Some? {
      if budget == |UpdateOps(session, f.update)| {
        assert FrameOps(f)[..budget] == ops;
        return false;
      }
      FoldSplit(ops, [AdvanceSeq(session, f.number.value)], start);
      var prev := store.GetSeq(session);
      if prev.None? || f.number.value > prev.value {
        store.SetSeq(session, f.number.value);
      }
    } else {
      assert FrameOps(f) == ops;
    }
  }
  /**
   * Handles one frame against a store whose first `budget` calls succeed and whose next call throws. A frame
   * handled to its end did what it says, and one cut off did exactly what its calls so far do: nothing is undone.
   */
  method HandleEvent(store: Store, f: Frame, budget: nat) returns (done: bool)
    modifies store
    ensures done <==> CallsOf(f.update) + (if f.number.Some? then 1 else 0) <= budget
    ensures done ==> FrameEffect(f, old(store.Contents()), store.Contents())
    ensures !done ==> CutEffect(f, budget, old(store.Contents()), store.Contents())
    ensures done <==> |FrameOps(f)| <= budget
    ensures store.Contents() == Fold(FrameOps(f)[..if done then |FrameOps(f)| else budget], old(store.Contents()))
  {
    ghost var start := store.Contents();
    FrameCalls(f);
    done := MakeCalls(store, f, budget);
    if done {
      assert FrameOps(f)[..|FrameOps(f)|] == FrameOps(f);
      FrameHasEffect(f, start);
    } else {
      FrameCut(f, budget, start);
    }
  }
}
