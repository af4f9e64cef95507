// How the remote logger batches messages under the payload limit.
module LogBatcher {
  import opened Options
  import opened JsonLists

  // A log message as its JSON text.
  type Message = string

  const MAX_COUNT := 20

  // What the loop keeps: messages not looked at, the one in hand, the batch being filled,
  // the batches sent, and the count.
  datatype State = State(queue: seq<Message>, held: Option<Message>, batch: seq<Message>,
                         sent: seq<seq<Message>>, count: nat)

  function Start(queue: seq<Message>): State
    requires queue != []
  {
    State(queue[1..], Some(queue[0]), [], [], 1)
  }

  predicate Done(s: State) { s.count > MAX_COUNT || (s.held == None && s.queue == []) }

  function InHand(s: State): State
    requires !Done(s)
  {
    if s.held.Some? then s else s.(held := Some(s.queue[0]), queue := s.queue[1..])
  }

  function Add(s: State, m: Message, limit: int): State {
    if ListSize(s.batch) + |m| > limit
    then s.(sent := s.sent + [s.batch], batch := [m], held := None, count := s.count + 1)
    else s.(batch := s.batch + [m], held := None, count := s.count + 1)
  }

  // One round of the inner loop, connected: a message over the limit stays in hand.
  function Round(s: State, limit: int): State {
    if Done(s) then s
    else if |InHand(s).held.value| > limit then InHand(s)
    else Add(InHand(s), InHand(s).held.value, limit)
  }

  function Rounds(s: State, limit: int, k: nat): State {
    if k == 0 then s else Round(Rounds(s, limit, k - 1), limit)
  }

  function Taken(queue: seq<Message>): nat { if |queue| <= MAX_COUNT then |queue| else MAX_COUNT }

  predicate AllFit(messages: seq<Message>, limit: int) { forall i | 0 <= i < |messages| :: |messages[i]| <= limit }

  // The batches of a sequence of messages: those sent, and the one being filled.
  datatype Batches = Batches(sent: seq<seq<Message>>, open_: seq<Message>)

  function Batched(messages: seq<Message>, limit: int): Batches {
    if messages == [] then Batches([], [])
    else Place(Batched(messages[..|messages| - 1], limit), messages[|messages| - 1], limit)
  }

  function Place(b: Batches, m: Message, limit: int): Batches {
    if ListSize(b.open_) + |m| > limit then Batches(b.sent + [b.open_], [m]) else Batches(b.sent, b.open_ + [m])
  }

  function AllSent(b: Batches): seq<seq<Message>> { if b.open_ == [] then b.sent else b.sent + [b.open_] }

  // One pass of the sending loop over a queue with a message in it. A message over the
  // limit would be looked at for ever; what is left over when the service stops is lost.
  method SendLogs(queue: seq<Message>, limit: int, stopped: bool) returns (sent: seq<seq<Message>>, rest: seq<Message>)
    requires queue != [] && AllFit(queue[..Taken(queue)], limit)
    ensures rest == queue[Taken(queue)..]
    ensures sent == if stopped then Batched(queue[..Taken(queue)], limit).sent
                    else AllSent(Batched(queue[..Taken(queue)], limit))
  {
    assert Batched(queue[..0], limit) == Batches([], []);
    hide Batched, ListSize;
    var batch: seq<Message>;
    batch, sent := [], [];
    var held := Some(queue[0]);
    rest := queue[1..];
    var count := 1;
    while count <= MAX_COUNT
      invariant 1 <= count <= Taken(queue) + 1
      invariant if count == 1 then held == Some(queue[0]) && rest == queue[1..]
                else held == None && rest == queue[count - 1..]
      invariant Batches(sent, batch) == Batched(queue[..count - 1], limit)
    {
      if held == None {
        if rest == [] { break; }
        held, rest := Some(rest[0]), rest[1..];
      }
      var m := held.value;
      assert m == queue[count - 1] && rest == queue[count..];
      FitsAt(queue, limit, count - 1);
      BatchedSnoc(queue, limit, count - 1);
      if ListSize(batch) + |m| > limit {
        sent, batch := sent + [batch], [m];
      } else {
        batch := batch + [m];
      }
      held := None;
      count := count + 1;
    }
    if batch != [] && !stopped { sent := sent + [batch]; }
  }

  lemma FitsAt(queue: seq<Message>, limit: int, i: nat)
    requires i < Taken(queue) && AllFit(queue[..Taken(queue)], limit)
    ensures |queue[i]| <= limit
  {
    assert queue[..Taken(queue)][i] == queue[i];
  }

  lemma BatchedSnoc(queue: seq<Message>, limit: int, i: nat)
    requires i < |queue|
    ensures Batched(queue[..i + 1], limit) == Place(Batched(queue[..i], limit), queue[i], limit)
  {
    assert queue[..i + 1][..i] == queue[..i];
  }

  // ---------- Termination ----------

  function Pending(s: State): seq<Message> { if s.held.Some? then [s.held.value] + s.queue else s.queue }

  lemma RoundAdds(s: State, limit: int, m: Message, more: seq<Message>)
    requires s.count <= MAX_COUNT && Pending(s) == [m] + more && |m| <= limit
    ensures var n := Round(s, limit);
      Pending(n) == more && n.count == s.count + 1
      && Batches(n.sent, n.batch) == Place(Batches(s.sent, s.batch), m, limit)
  {
    assert ([m] + more)[1..] == more && ([m] + more)[0] == m;
    assert !Done(s) && InHand(s).held == Some(m) && InHand(s).queue == more;
  }

  lemma {:induction false} RoundsReach(queue: seq<Message>, limit: int, k: nat)
    requires queue != [] && k <= Taken(queue) && AllFit(queue[..k], limit)
    ensures var s := Rounds(Start(queue), limit, k);
      s.count == k + 1 && Pending(s) == queue[k..] && Batches(s.sent, s.batch) == Batched(queue[..k], limit)
  {
    hide Round, Place;
    if k == 0 {
      assert [queue[0]] + queue[1..] == queue;
    } else {
      PrefixFits(queue, limit, k - 1, k);
      RoundsReach(queue, limit, k - 1);
      assert queue[k - 1..] == [queue[k - 1]] + queue[k..];
      assert |queue[..k][k - 1]| <= limit;
      RoundAdds(Rounds(Start(queue), limit, k - 1), limit, queue[k - 1], queue[k..]);
      BatchedSnoc(queue, limit, k - 1);
    }
  }

  lemma PrefixFits(queue: seq<Message>, limit: int, i: nat, k: nat)
    requires i <= k <= |queue| && AllFit(queue[..k], limit)
    ensures AllFit(queue[..i], limit)
  {
    assert forall j | 0 <= j < i :: queue[..i][j] == queue[..k][j];
  }

  // The inner loop ends exactly if none of the messages it takes is over the limit.
  lemma PassEndsExactly(queue: seq<Message>, limit: int)
    requires queue != []
    ensures (exists k :: Done(Rounds(Start(queue), limit, k))) <==> AllFit(queue[..Taken(queue)], limit)
  {
    if AllFit(queue[..Taken(queue)], limit) {
      RoundsReach(queue, limit, Taken(queue));
      assert Done(Rounds(Start(queue), limit, Taken(queue)));
    } else {
      var i := FirstOversized(queue[..Taken(queue)], limit);
      assert queue[..Taken(queue)][..i] == queue[..i];
      forall k ensures !Done(Rounds(Start(queue), limit, k)) { NeverDone(queue, limit, i, k); }
    }
  }

  lemma FirstOversized(messages: seq<Message>, limit: int) returns (i: nat)
    requires !AllFit(messages, limit)
    ensures i < |messages| && |messages[i]| > limit && AllFit(messages[..i], limit)
  {
    i := 0;
    while i < |messages| && |messages[i]| <= limit
      invariant i <= |messages| && forall j | 0 <= j < i :: |messages[j]| <= limit
    {
      i := i + 1;
    }
  }

  lemma ReachedNotDone(queue: seq<Message>, limit: int, k: nat)
    requires queue != [] && k < Taken(queue) && AllFit(queue[..k], limit)
    ensures var s := Rounds(Start(queue), limit, k); !Done(s) && InHand(s).held == Some(queue[k])
  {
    RoundsReach(queue, limit, k);
    assert queue[k..][0] == queue[k];
  }

  // Once in hand, a message over the limit stays there.
  lemma {:induction false} Stuck(queue: seq<Message>, limit: int, i: nat, k: nat)
    requires queue != [] && i < Taken(queue) && |queue[i]| > limit && AllFit(queue[..i], limit) && i <= k
    ensures !Done(Rounds(Start(queue), limit, k)) && InHand(Rounds(Start(queue), limit, k)).held == Some(queue[i])
  {
    if k == i { ReachedNotDone(queue, limit, i); } else { Stuck(queue, limit, i, k - 1); }
  }

  lemma NeverDone(queue: seq<Message>, limit: int, i: nat, k: nat)
    requires queue != [] && i < Taken(queue) && |queue[i]| > limit && AllFit(queue[..i], limit)
    ensures !Done(Rounds(Start(queue), limit, k))
  {
    if k <= i {
      PrefixFits(queue, limit, k, i);
      ReachedNotDone(queue, limit, k);
    } else {
      Stuck(queue, limit, i, k);
    }
  }

  // ---------- What is sent ----------

  function Flatten(batches: seq<seq<Message>>): seq<Message> {
    if batches == [] then [] else Flatten(batches[..|batches| - 1]) + batches[|batches| - 1]
  }

  lemma FlattenSnoc(batches: seq<seq<Message>>, b: seq<Message>)
    ensures Flatten(batches + [b]) == Flatten(batches) + b
  {
    assert (batches + [b])[..|batches|] == batches;
  }

  function Contents(b: Batches): seq<Message> { Flatten(b.sent) + b.open_ }

  lemma PlacedContents(b: Batches, m: Message, limit: int)
    ensures Contents(Place(b, m, limit)) == Contents(b) + [m]
  {
    FlattenSnoc(b.sent, b.open_);
    assert Flatten(b.sent) + (b.open_ + [m]) == Contents(b) + [m];
  }

  lemma SentContents(b: Batches)
    ensures Flatten(AllSent(b)) == Contents(b)
  {
    FlattenSnoc(b.sent, b.open_);
    assert Flatten(b.sent) + [] == Flatten(b.sent);
  }

  lemma {:induction false} BatchedContents(messages: seq<Message>, limit: int)
    ensures Contents(Batched(messages, limit)) == messages
  {
    hide Place;
    if messages != [] {
      var n := |messages| - 1;
      BatchedContents(messages[..n], limit);
      PlacedContents(Batched(messages[..n], limit), messages[n], limit);
      assert messages == messages[..n] + [messages[n]];
    }
  }

  // A pass takes twenty messages, or all if they are fewer.
  lemma TwentyAreTaken(queue: seq<Message>)
    ensures Taken(queue) == if |queue| <= 20 then |queue| else 20
  {}

  // The batches are the messages taken, in order, none lost or doubled.
  lemma BatchesAreTheMessages(messages: seq<Message>, limit: int)
    ensures Flatten(AllSent(Batched(messages, limit))) == messages
  {
    BatchedContents(messages, limit);
    SentContents(Batched(messages, limit));
  }

  lemma SizeSnoc(batch: seq<Message>, m: Message)
    ensures ListSize([m]) == 2 + |m|
    ensures batch != [] ==> ListSize(batch + [m]) == ListSize(batch) + 1 + |m|
  {
    assert [m][..0] == [] && (batch + [m])[..|batch|] == batch;
  }

  // A batch keeps to the limit but for the comma before its last message, or for its
  // brackets if it has one message at most.
  ghost predicate WithinLimit(batch: seq<Message>, limit: int) {
    |ListText(batch)| <= limit + (if |batch| <= 1 then 2 else 1)
  }

  lemma PlacedWithinLimit(b: Batches, m: Message, limit: int)
    requires |m| <= limit
    ensures WithinLimit(Place(b, m, limit).open_, limit) && Place(b, m, limit).open_ != []
  {
    SizeSnoc(b.open_, m);
    SizeOfText(Place(b, m, limit).open_);
    assert [] + [m] == [m];
  }

  lemma {:induction false} BatchesKeepTheLimit(messages: seq<Message>, limit: int)
    requires AllFit(messages, limit) && messages != []
    ensures var b := Batched(messages, limit);
      (forall i | 0 <= i < |b.sent| :: WithinLimit(b.sent[i], limit)) && WithinLimit(b.open_, limit) && b.open_ != []
  {
    var n := |messages| - 1;
    var b := Batched(messages[..n], limit);
    if n > 0 { BatchesKeepTheLimit(messages[..n], limit); } else { SizeOfText([]); }
    PlacedWithinLimit(b, messages[n], limit);
  }

  // An empty batch is sent exactly if the first message leaves no room for the brackets.
  lemma {:induction false} EmptyBatchIsSentExactly(messages: seq<Message>, limit: int)
    requires AllFit(messages, limit) && messages != []
    ensures [] in AllSent(Batched(messages, limit)) <==> |messages[0]| + 2 > limit
    ensures Batched(messages, limit).open_ != []
  {
    var n := |messages| - 1;
    PlacedWithinLimit(Batched(messages[..n], limit), messages[n], limit);
    if n > 0 { EmptyBatchIsSentExactly(messages[..n], limit); }
  }

  function Following(b: Batches, i: nat): seq<Message>
    requires i < |b.sent|
  {
    if i + 1 < |b.sent| then b.sent[i + 1] else b.open_
  }

  ghost predicate ClosedFor(batch: seq<Message>, next: seq<Message>, limit: int) {
    next != [] && |ListText(batch)| + |next[0]| > limit
  }

  ghost predicate Greedy(b: Batches, limit: int) {
    forall i | 0 <= i < |b.sent| :: ClosedFor(b.sent[i], Following(b, i), limit)
  }

  lemma PlacedGreedy(b: Batches, m: Message, limit: int)
    requires Greedy(b, limit) && (b.open_ == [] ==> b.sent == [])
    ensures Greedy(Place(b, m, limit), limit)
  {
    var c := Place(b, m, limit);
    SizeOfText(b.open_);
    forall i | 0 <= i < |c.sent| ensures ClosedFor(c.sent[i], Following(c, i), limit) {
      if i < |b.sent| {
        assert ClosedFor(b.sent[i], Following(b, i), limit);
        assert c.sent[i] == b.sent[i] && Following(c, i) != [] && Following(c, i)[0] == Following(b, i)[0];
      }
    }
  }

  // A batch is closed only for a message that has no room in it, the first of the next.
  lemma {:induction false} BatchesAreGreedy(messages: seq<Message>, limit: int)
    ensures Greedy(Batched(messages, limit), limit)
    ensures messages != [] ==> Batched(messages, limit).open_ != []
  {
    if messages != [] {
      BatchesAreGreedy(messages[..|messages| - 1], limit);
      PlacedGreedy(Batched(messages[..|messages| - 1], limit), messages[|messages| - 1], limit);
    }
  }
}
