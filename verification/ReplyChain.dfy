/**
 * What triggers a webhook and the reply chain it carries (src/ws/owner_mention_detector.hpp,
 * src/webhook/context_builder.cpp). Replies may form any graph, cycles included, and every fetch of a
 * message may fail.
 */
module ReplyChain {
  import opened Options

  datatype Sender = Nobody | User(id: int) | Chat(id: int)

  datatype ReplyTo = NoReply | ToMessage(messageId: int) | ToStory(storyId: int)

  datatype Message = Message(id: int, sender: Sender, replyTo: ReplyTo, outgoing: bool, mentionsOwner: bool)

  datatype Reason = Dm | Mention | Reply

  datatype Detection = Detection(triggered: bool, replyPending: bool, reason: Reason)

  /** The k-th request for a message, answered with an error or the message. */
  type Fetch = (nat, int) -> Option<Message>

  datatype Event = Event(reason: Reason, chain: seq<Message>, truncated: bool)

  function ReplyParent(m: Message): Option<int> {
    if m.replyTo.ToMessage? then Some(m.replyTo.messageId) else None
  }

  predicate SenderIsOwner(m: Message, owner: int) {
    m.sender == User(owner)
  }

  /** Mentions come before replies, replies before private messages; a reply is still to be verified. */
  function Detect(m: Message, owner: int, isPrivate: bool, isBroadcast: bool): (d: Detection)
    ensures !(d.triggered && d.replyPending)
    ensures d.reason == Reply <==> d.replyPending
    ensures d.reason == Mention <==> d.triggered && m.mentionsOwner
    ensures d.replyPending <==>
      !isBroadcast && !m.outgoing && !SenderIsOwner(m, owner) && !m.mentionsOwner && ReplyParent(m).Some?
    ensures d.triggered <==>
      !isBroadcast && !m.outgoing && !SenderIsOwner(m, owner)
      && (m.mentionsOwner || (isPrivate && ReplyParent(m).None?))
  {
    if isBroadcast || m.outgoing then Detection(false, false, Dm)
    else if m.sender.User? && m.sender.id == owner then Detection(false, false, Dm)
    else if m.mentionsOwner then Detection(true, false, Mention)
    else if m.replyTo.ToMessage? then Detection(false, true, Reply)
    else if isPrivate then Detection(true, false, Dm)
    else Detection(false, false, Dm)
  }

  // ------------------------------------------------------------------ the reply path

  /** The id to look up after the first i messages of a chain; 0 when there is none. */
  function IdAt(parent: Option<int>, chain: seq<Message>, i: nat): int
    requires i <= |chain|
  {
    (if i == 0 then parent else ReplyParent(chain[i - 1])).GetOr(0)
  }

  /** Message i of the chain is what the one before it replies to. */
  predicate Linked(fetch: Fetch, parent: Option<int>, chain: seq<Message>, i: nat)
    requires i < |chain|
  {
    IdAt(parent, chain, i) != 0 && fetch(i, IdAt(parent, chain, i)) == Some(chain[i])
  }

  predicate Follows(fetch: Fetch, parent: Option<int>, chain: seq<Message>) {
    forall i | 0 <= i < |chain| :: Linked(fetch, parent, chain, i)
  }

  /** The chain cannot go on: at the limit, at a message without a parent, or at a failed fetch. */
  predicate Stops(fetch: Fetch, parent: Option<int>, chain: seq<Message>, limit: int) {
    var next := IdAt(parent, chain, |chain|);
    |chain| >= limit || next == 0 || fetch(|chain|, next).None?
  }

  predicate IsPath(fetch: Fetch, parent: Option<int>, chain: seq<Message>, limit: int) {
    && Follows(fetch, parent, chain) && Stops(fetch, parent, chain, limit)
    && |chain| <= if limit > 0 then limit else 0
  }

  lemma ChainGrows(fetch: Fetch, parent: Option<int>, chain: seq<Message>, m: Message)
    requires Follows(fetch, parent, chain) && IdAt(parent, chain, |chain|) != 0
    requires fetch(|chain|, IdAt(parent, chain, |chain|)) == Some(m)
    ensures Follows(fetch, parent, chain + [m])
    ensures IdAt(parent, chain + [m], |chain| + 1) == ReplyParent(m).GetOr(0)
  {
    forall i | 0 <= i < |chain| + 1 ensures Linked(fetch, parent, chain + [m], i) {
      if i < |chain| {
        assert Linked(fetch, parent, chain, i);
      }
    }
  }

  /** There is one such path. */
  lemma PathIsUnique(fetch: Fetch, parent: Option<int>, c: seq<Message>, d: seq<Message>, limit: int)
    requires IsPath(fetch, parent, c, limit) && IsPath(fetch, parent, d, limit)
    ensures c == d
  {
    var n := if |c| <= |d| then |c| else |d|;
    SamePrefix(fetch, parent, c, d, n);
    assert IdAt(parent, c, n) == IdAt(parent, d, n);
    assert n < |c| ==> Linked(fetch, parent, c, n);
    assert n < |d| ==> Linked(fetch, parent, d, n);
  }

  lemma {:induction false} SamePrefix(fetch: Fetch, parent: Option<int>, c: seq<Message>, d: seq<Message>, n: nat)
    requires Follows(fetch, parent, c) && Follows(fetch, parent, d) && n <= |c| && n <= |d|
    ensures forall i | 0 <= i < n :: c[i] == d[i]
    decreases n
  {
    if n > 0 {
      SamePrefix(fetch, parent, c, d, n - 1);
      assert IdAt(parent, c, n - 1) == IdAt(parent, d, n - 1);
      assert Linked(fetch, parent, c, n - 1) && Linked(fetch, parent, d, n - 1);
    }
  }

  // ------------------------------------------------------------------ the event

  /** Whether the trigger stands: a pending reply needs its first parent fetched and sent by the owner. */
  predicate Stands(fetch: Fetch, parent: Option<int>, d: Detection, owner: int, limit: int) {
    d.replyPending ==>
      && limit > 0 && parent.Some?
      && (parent.value == 0 || (fetch(0, parent.value).Some? && SenderIsOwner(fetch(0, parent.value).value, owner)))
  }

  /** The event for a message, or that there is none. */
  predicate IsEvent(fetch: Fetch, m: Message, d: Detection, owner: int, limit: int, e: Option<Event>) {
    && (e.Some? <==> Stands(fetch, ReplyParent(m), d, owner, limit))
    && (e.Some? ==>
         && IsPath(fetch, ReplyParent(m), e.value.chain, limit)
         && (e.value.truncated <==> IdAt(ReplyParent(m), e.value.chain, |e.value.chain|) != 0)
         && e.value.reason == if d.replyPending && ReplyParent(m) != Some(0) then Reply else d.reason)
  }

  /** buildEvent(): the chain is as long as the path, at most the limit, whatever the graph of replies. */
  method BuildEvent(fetch: Fetch, m: Message, d: Detection, owner: int, limit: int) returns (e: Option<Event>)
    ensures IsEvent(fetch, m, d, owner, limit, e)
  {
    var parent := ReplyParent(m);
    if d.replyPending && limit <= 0 { return None; }
    var reason: Option<Reason> := None;
    var chain: seq<Message> := [];
    var truncated := false;
    if parent.Some? {
      var cur := parent.value;
      var hops := 0;
      while cur != 0 && hops < limit
        invariant hops == |chain| && (limit > 0 ==> hops <= limit) && (limit <= 0 ==> hops == 0)
        invariant cur == IdAt(parent, chain, hops)
        invariant Follows(fetch, parent, chain)
        invariant hops == 0 ==> reason == None
        invariant hops > 0 && d.replyPending ==> reason == Some(Reply) && Stands(fetch, parent, d, owner, limit)
        invariant hops > 0 && !d.replyPending ==> reason == None
        invariant !truncated
        decreases limit - hops
      {
        var got := fetch(hops, cur);
        if got.None? {
          if hops == 0 && d.replyPending { return None; }
          truncated := true;
          break;
        }
        if hops == 0 && d.replyPending {
          if !SenderIsOwner(got.value, owner) { return None; }
          reason := Some(Reply);
        }
        ChainGrows(fetch, parent, chain, got.value);
        chain := chain + [got.value];
        cur := ReplyParent(got.value).GetOr(0);
        hops := hops + 1;
      }
      if cur != 0 {
        truncated := truncated || hops >= limit;
      }
    } else if d.replyPending {
      return None;
    }
    assert chain != [] ==> Linked(fetch, parent, chain, 0);
    e := Some(Event(reason.GetOr(d.reason), chain, truncated));
  }

  lemma EventIsUnique(fetch: Fetch, m: Message, d: Detection, owner: int, limit: int, e: Option<Event>,
      f: Option<Event>)
    requires IsEvent(fetch, m, d, owner, limit, e) && IsEvent(fetch, m, d, owner, limit, f)
    ensures e == f
  {
    if e.Some? {
      PathIsUnique(fetch, ReplyParent(m), e.value.chain, f.value.chain, limit);
    }
  }

  /**
   * For what the detector finds: an event with reason "reply" comes out exactly when the message is a
   * pending reply whose first parent was fetched and was sent by the owner, provided the parent has a
   * non-zero id; a reply to id 0 comes out unverified.
   */
  lemma ReplyIsVerified(fetch: Fetch, m: Message, owner: int, isPrivate: bool, isBroadcast: bool, limit: int,
      e: Option<Event>)
    requires IsEvent(fetch, m, Detect(m, owner, isPrivate, isBroadcast), owner, limit, e)
    ensures var d := Detect(m, owner, isPrivate, isBroadcast);
      e.Some? && e.value.reason == Reply <==>
        && d.replyPending && limit > 0
        && (ReplyParent(m).value == 0 ||
            exists p :: fetch(0, ReplyParent(m).value) == Some(p) && SenderIsOwner(p, owner))
  {
  }

  /**
   * The unverified one: a message in a group, from somebody else, that mentions nobody and replies to id 0.
   * Whatever can be fetched, its event says "reply" and carries no chain.
   */
  lemma ReplyToZeroIsUnverified(fetch: Fetch, id: int, sender: int, owner: int, limit: int)
    requires sender != owner && limit > 0
    ensures var m := Message(id, User(sender), ToMessage(0), false, false);
      IsEvent(fetch, m, Detect(m, owner, false, false), owner, limit, Some(Event(Reply, [], false)))
  {
  }

  /** An event that is not truncated carries the whole path, down to a message that replies to nothing. */
  lemma WholeWhenNotTruncated(fetch: Fetch, m: Message, d: Detection, owner: int, limit: int, e: Option<Event>)
    requires IsEvent(fetch, m, d, owner, limit, e) && e.Some? && ReplyParent(m).GetOr(0) != 0
    ensures !e.value.truncated <==>
      e.value.chain != [] && ReplyParent(e.value.chain[|e.value.chain| - 1]).GetOr(0) == 0
  {
  }

  // ------------------------------------------------------------------ cycles

  /** A graph of replies that does not change while it is walked. */
  ghost predicate Walks(fetch: Fetch, graph: int -> Option<Message>) {
    forall i, id :: fetch(i, id) == graph(id)
  }

  /** Along a chain each id is the parent of the message before. */
  lemma NextId(fetch: Fetch, graph: int -> Option<Message>, parent: Option<int>, chain: seq<Message>, i: nat)
    requires Walks(fetch, graph) && Follows(fetch, parent, chain) && i < |chain|
    ensures IdAt(parent, chain, i) != 0
    ensures graph(IdAt(parent, chain, i)).Some?
    ensures IdAt(parent, chain, i + 1) == ReplyParent(graph(IdAt(parent, chain, i)).value).GetOr(0)
  {
    assert Linked(fetch, parent, chain, i);
  }

  lemma {:induction false} Repeats(fetch: Fetch, graph: int -> Option<Message>, parent: Option<int>,
      chain: seq<Message>, i: nat, j: nat, t: nat)
    requires Walks(fetch, graph) && Follows(fetch, parent, chain) && i < j && j + t <= |chain|
    requires IdAt(parent, chain, i) == IdAt(parent, chain, j)
    ensures IdAt(parent, chain, i + t) == IdAt(parent, chain, j + t)
    decreases t
  {
    if t > 0 {
      Repeats(fetch, graph, parent, chain, i, j, t - 1);
      NextId(fetch, graph, parent, chain, i + t - 1);
      NextId(fetch, graph, parent, chain, j + t - 1);
    }
  }

  /** On a cycle of replies the chain is cut by the limit and by nothing else, and the event says so. */
  lemma CycleFillsLimit(fetch: Fetch, graph: int -> Option<Message>, m: Message, d: Detection, owner: int, limit: int,
      e: Option<Event>, i: nat, j: nat)
    requires Walks(fetch, graph) && IsEvent(fetch, m, d, owner, limit, e) && e.Some? && limit > 0
    requires i < j <= |e.value.chain|
    requires IdAt(ReplyParent(m), e.value.chain, i) == IdAt(ReplyParent(m), e.value.chain, j)
    ensures |e.value.chain| == limit && e.value.truncated
  {
    var parent, chain := ReplyParent(m), e.value.chain;
    var n := |chain|;
    Repeats(fetch, graph, parent, chain, i, j, n - j);
    NextId(fetch, graph, parent, chain, n - (j - i));
    assert fetch(n, IdAt(parent, chain, n)) == graph(IdAt(parent, chain, n));
  }
}
