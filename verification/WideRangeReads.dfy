// Modbus wide-range reads: an address range is cut into requests of limited size, and
// the responses are collected under the tag of the value they are for.
module WideRangeReads {
  import opened Sequences

  type Word = int

  datatype Chunk = Chunk(start: int, count: int)

  // An address as configured: one register, two numbers joined by a dash, or not such.
  datatype Address = Single(at: int) | Range(first: nat, last: nat) | Malformed

  datatype Config = Config(tag: string, address: Address, objects: int, limit: int)

  datatype Parsed = Chunks(chunks: seq<Chunk>) | Invalid

  function Min(a: int, b: int): int { if a <= b then a else b }

  function Registers(c: Config): int
    requires c.address.Range?
  {
    c.address.last - c.address.first + c.objects
  }

  // ---------- Cutting a range into requests ----------

  function Split(start: int, remaining: int, limit: int): seq<Chunk>
    requires limit >= 1
    decreases remaining
  {
    if remaining <= 0 then []
    else [Chunk(start, Min(limit, remaining))] +
         Split(start + Min(limit, remaining), remaining - Min(limit, remaining), limit)
  }

  // What is left to cut after k rounds of the loop.
  function Remaining(registers: int, limit: int, k: nat): int {
    if k == 0 then registers else Remaining(registers, limit, k - 1) - Min(limit, Remaining(registers, limit, k - 1))
  }

  // The loop has an end exactly if the limit allows a register per request.
  lemma CuttingEndsExactly(registers: int, limit: int)
    requires registers > 0
    ensures (exists k :: Remaining(registers, limit, k) <= 0) <==> limit >= 1
  {
    if limit >= 1 {
      CuttingEnds(registers, limit, registers);
      assert Remaining(registers, limit, registers) <= 0;
    } else {
      forall k ensures Remaining(registers, limit, k) > 0 { CuttingGoesOn(registers, limit, k); }
    }
  }

  lemma {:induction false} CuttingEnds(registers: int, limit: int, k: nat)
    requires registers > 0 && limit >= 1
    ensures Remaining(registers, limit, k) <= registers - k || Remaining(registers, limit, k) == 0
    ensures Remaining(registers, limit, k) >= 0
  {
    if k > 0 { CuttingEnds(registers, limit, k - 1); }
  }

  lemma {:induction false} CuttingGoesOn(registers: int, limit: int, k: nat)
    requires registers > 0 && limit <= 0
    ensures Remaining(registers, limit, k) > 0
  {
    if k > 0 { CuttingGoesOn(registers, limit, k - 1); }
  }

  predicate Cuttable(c: Config) { c.address.Range? && 0 < Registers(c) && c.limit < Registers(c) ==> c.limit >= 1 }

  // The chunks lie side by side from lo to hi, and all but the last are full.
  ghost predicate Tiles(chunks: seq<Chunk>, lo: int, hi: int, limit: int) {
    && chunks != [] && chunks[0].start == lo
    && (forall i | 0 <= i < |chunks| - 1 ::
          chunks[i].count == limit && chunks[i + 1].start == chunks[i].start + chunks[i].count)
    && (forall i | 0 <= i < |chunks| :: 1 <= chunks[i].count <= limit)
    && chunks[|chunks| - 1].start + chunks[|chunks| - 1].count == hi
  }

  lemma {:induction false} SplitTiles(start: int, remaining: int, limit: int)
    requires limit >= 1 && remaining >= 1
    ensures Tiles(Split(start, remaining, limit), start, start + remaining, limit)
    decreases remaining
  {
    if remaining > limit {
      SplitTiles(start + limit, remaining - limit, limit);
      var rest := Split(start + limit, remaining - limit, limit);
      var all := Split(start, remaining, limit);
      assert all == [Chunk(start, limit)] + rest;
      forall i | 0 <= i < |all| - 1 ensures all[i].count == limit && all[i + 1].start == all[i].start + all[i].count {
        if i > 0 { assert all[i] == rest[i - 1] && all[i + 1] == rest[i]; }
      }
    } else {
      assert Split(start, remaining, limit) == [Chunk(start, remaining)];
    }
  }

  function ParsedRange(c: Config): Parsed
    requires Cuttable(c)
  {
    if !c.address.Range? || Registers(c) <= 0 then Invalid
    else if Registers(c) > c.limit then Chunks(Split(c.address.first, Registers(c), c.limit))
    else Chunks([Chunk(c.address.first, Registers(c))])
  }

  lemma NoneLeft(start: int, remaining: int, limit: int)
    requires limit >= 1 && remaining <= 0
    ensures Split(start, remaining, limit) == []
  {}

  lemma OneChunkMore(before: seq<Chunk>, start: int, remaining: int, limit: int)
    requires limit >= 1 && remaining > 0
    ensures var size := Min(limit, remaining);
      before + [Chunk(start, size)] + Split(start + size, remaining - size, limit) ==
      before + Split(start, remaining, limit)
  {
    var size := Min(limit, remaining);
    Associative(before, [Chunk(start, size)], Split(start + size, remaining - size, limit));
  }

  lemma ParsedRangeTiles(c: Config)
    requires Cuttable(c)
    ensures ParsedRange(c).Chunks? ==>
      Tiles(ParsedRange(c).chunks, c.address.first, c.address.last + c.objects, c.limit)
  {
    if c.address.Range? && Registers(c) > 0 { SplitTiles(c.address.first, Registers(c), c.limit); }
  }

  method ParseWideRangeRequest(c: Config) returns (r: Parsed)
    requires Cuttable(c)
    ensures r == ParsedRange(c)
    ensures r.Invalid? <==> !c.address.Range? || c.address.last + c.objects <= c.address.first
    ensures r.Chunks? ==> Tiles(r.chunks, c.address.first, c.address.last + c.objects, c.limit)
  {
    hide Tiles, Split;
    ParsedRangeTiles(c);
    if !c.address.Range? || Registers(c) <= 0 { return Invalid; }
    if Registers(c) > c.limit {
      var result, current, remaining := [], c.address.first as int, Registers(c);
      while remaining > 0
        invariant 0 <= remaining
        invariant result + Split(current, remaining, c.limit) == Split(c.address.first, Registers(c), c.limit)
      {
        var size := Min(c.limit, remaining);
        OneChunkMore(result, current, remaining, c.limit);
        result := result + [Chunk(current, size)];
        current, remaining := current + size, remaining - size;
      }
      NoneLeft(current, remaining, c.limit);
      assert result + [] == result;
      return Chunks(result);
    }
    return Chunks([Chunk(c.address.first, Registers(c))]);
  }

  // ---------- Reading ----------

  // A device's answer: registers, an error in place of them, or none in time.
  datatype Reply = Words(words: seq<Word>) | Refused | Late

  function Requests(c: Config): seq<Chunk>
    requires Cuttable(c)
  {
    if c.address.Single? then [Chunk(c.address.at, c.objects)]
    else if ParsedRange(c).Chunks? then ParsedRange(c).chunks
    else []
  }

  // The answers kept of a row of requests: those before the first that is late.
  function Timely(replies: seq<Reply>): seq<Reply> {
    if replies == [] || replies[0].Late? then [] else [replies[0]] + Timely(replies[1..])
  }

  lemma {:induction false} TimelySnoc(replies: seq<Reply>, q: Reply)
    ensures Timely(replies + [q]) ==
      if |Timely(replies)| == |replies| && !q.Late? then Timely(replies) + [q] else Timely(replies)
    ensures |Timely(replies)| == |replies| ==> Timely(replies) == replies
  {
    if replies != [] {
      TimelySnoc(replies[1..], q);
      assert (replies + [q])[1..] == replies[1..] + [q];
    }
  }

  // What is stored per tag after the configured values were read, `net` answering the
  // k-th request for the i-th value, which is for the registers of the given chunk.
  function StoreUnder(stored: map<string, seq<Reply>>, tag: string, replies: seq<Reply>): map<string, seq<Reply>> {
    if replies == [] then stored
    else stored[tag := (if tag in stored then stored[tag] else []) + replies]
  }

  function Replies(c: Config, i: nat, net: (nat, nat, Chunk) -> Reply): seq<Reply>
    requires Cuttable(c)
  {
    seq(|Requests(c)|, k requires 0 <= k < |Requests(c)| => net(i, k, Requests(c)[k]))
  }

  function ReadAll(configs: seq<Config>, net: (nat, nat, Chunk) -> Reply): map<string, seq<Reply>>
    requires forall c | c in configs :: Cuttable(c)
  {
    if configs == [] then map[]
    else
      StoreUnder(ReadAll(configs[..|configs| - 1], net), configs[|configs| - 1].tag,
                 Timely(Replies(configs[|configs| - 1], |configs| - 1, net)))
  }

  lemma {:induction false} LateEnds(replies: seq<Reply>, k: nat)
    requires k < |replies| && replies[k].Late?
    ensures Timely(replies) == Timely(replies[..k + 1])
  {
    if k > 0 && !replies[0].Late? {
      LateEnds(replies[1..], k - 1);
      assert replies[..k + 1][1..] == replies[1..][..k];
    }
  }

  lemma StoringOneByOne(stored: map<string, seq<Reply>>, tag: string, replies: seq<Reply>, q: Reply)
    ensures StoreUnder(StoreUnder(stored, tag, replies), tag, [q]) == StoreUnder(stored, tag, replies + [q])
  {
    var before := if tag in stored then stored[tag] else [];
    var once := StoreUnder(stored, tag, replies);
    assert (if tag in once then once[tag] else []) == before + replies;
    assert before + replies + [q] == before + (replies + [q]);
    assert once[tag := before + replies + [q]] == stored[tag := before + replies + [q]];
  }

  method ReadRequests(before: map<string, seq<Reply>>, c: Config, i: nat, net: (nat, nat, Chunk) -> Reply,
                      requests: seq<Chunk>)
    returns (stored: map<string, seq<Reply>>)
    requires Cuttable(c) && requests == Requests(c)
    ensures stored == StoreUnder(before, c.tag, Timely(Replies(c, i, net)))
  {
    stored := before;
    ghost var all := Replies(c, i, net);
    for k := 0 to |requests|
      invariant |Timely(all[..k])| == k
      invariant stored == StoreUnder(before, c.tag, Timely(all[..k]))
    {
      assert all[..k + 1] == all[..k] + [net(i, k, requests[k])];
      TimelySnoc(all[..k], net(i, k, requests[k]));
      var reply := net(i, k, requests[k]);
      if reply.Late? {
        LateEnds(all, k);
        return;
      }
      StoringOneByOne(before, c.tag, Timely(all[..k]), reply);
      stored := stored[c.tag := (if c.tag in stored then stored[c.tag] else []) + [reply]];
    }
    assert all[..|all|] == all;
  }

  method ReadSlaveData(configs: seq<Config>, net: (nat, nat, Chunk) -> Reply) returns (stored: map<string, seq<Reply>>)
    requires forall c | c in configs :: Cuttable(c)
    ensures stored == ReadAll(configs, net)
  {
    stored := map[];
    for i := 0 to |configs|
      invariant stored == ReadAll(configs[..i], net)
    {
      assert configs[..i + 1][..i] == configs[..i];
      var c := configs[i];
      var requests := [];
      if c.address.Single? {
        requests := [Chunk(c.address.at, c.objects)];
      } else {
        var parsed := ParseWideRangeRequest(c);
        if parsed.Chunks? { requests := parsed.chunks; }
      }
      stored := ReadRequests(stored, c, i, net, requests);
    }
    assert configs[..|configs|] == configs;
  }

  // All answers that a tag collects.
  function Collected(configs: seq<Config>, net: (nat, nat, Chunk) -> Reply, tag: string): seq<Reply>
    requires forall c | c in configs :: Cuttable(c)
  {
    if configs == [] then []
    else
      Collected(configs[..|configs| - 1], net, tag) +
      (if configs[|configs| - 1].tag == tag then Timely(Replies(configs[|configs| - 1], |configs| - 1, net)) else [])
  }

  // Values that share a tag get each other's answers.
  lemma {:induction false} TagsCollect(configs: seq<Config>, net: (nat, nat, Chunk) -> Reply, tag: string)
    requires forall c | c in configs :: Cuttable(c)
    ensures var stored := ReadAll(configs, net);
      (if tag in stored then stored[tag] else []) == Collected(configs, net, tag)
  {
    if configs != [] { TagsCollect(configs[..|configs| - 1], net, tag); }
  }

  lemma {:induction false} NothingCollected(configs: seq<Config>, net: (nat, nat, Chunk) -> Reply, tag: string)
    requires (forall c | c in configs :: Cuttable(c)) && forall c | c in configs :: c.tag != tag
    ensures Collected(configs, net, tag) == []
  {
    if configs != [] { NothingCollected(configs[..|configs| - 1], net, tag); }
  }

  lemma {:induction false} OwnTagOnly(configs: seq<Config>, net: (nat, nat, Chunk) -> Reply, i: nat)
    requires (forall c | c in configs :: Cuttable(c)) && i < |configs|
    requires forall j | 0 <= j < |configs| && j != i :: configs[j].tag != configs[i].tag
    ensures Collected(configs, net, configs[i].tag) == Timely(Replies(configs[i], i, net))
  {
    var n := |configs| - 1;
    if i < n { OwnTagOnly(configs[..n], net, i); } else { NothingCollected(configs[..n], net, configs[i].tag); }
  }

  // The requests for one value: the objects of a single address, the registers of a range
  // without gap or overlap, or none.
  ghost predicate AsksFor(chunks: seq<Chunk>, c: Config) {
    match c.address
    case Single(at) => chunks == [Chunk(at, c.objects)]
    case Range(first, last) =>
      if first < last + c.objects then Tiles(chunks, first, last + c.objects, c.limit)
      else chunks == []
    case Malformed => chunks == []
  }

  // The answers to these requests up to the first that is late.
  ghost predicate Answers(replies: seq<Reply>, chunks: seq<Chunk>, i: nat, net: (nat, nat, Chunk) -> Reply) {
    && |replies| <= |chunks|
    && (forall k | 0 <= k < |replies| :: replies[k] == net(i, k, chunks[k]) && !replies[k].Late?)
    && (|replies| < |chunks| ==> net(i, |replies|, chunks[|replies|]).Late?)
  }

  lemma {:induction false} TimelyExactly(replies: seq<Reply>)
    ensures var t := Timely(replies);
      && |t| <= |replies| && t == replies[..|t|]
      && (forall k | 0 <= k < |t| :: !t[k].Late?)
      && (|t| < |replies| ==> replies[|t|].Late?)
  {
    if replies != [] && !replies[0].Late? {
      TimelyExactly(replies[1..]);
      var t := Timely(replies[1..]);
      assert Timely(replies) == [replies[0]] + t && replies[1..][..|t|] == replies[1..|t| + 1];
    }
  }

  lemma RequestsAskForIt(c: Config)
    requires Cuttable(c)
    ensures AsksFor(Requests(c), c)
  {
    if c.address.Range? && Registers(c) > 0 { SplitTiles(c.address.first, Registers(c), c.limit); }
  }

  // A value with a tag of its own gets exactly the timely answers to its own requests, which
  // are for its own registers.
  lemma OwnTagOwnAnswers(configs: seq<Config>, net: (nat, nat, Chunk) -> Reply, i: nat)
    requires (forall c | c in configs :: Cuttable(c)) && i < |configs|
    requires forall j | 0 <= j < |configs| && j != i :: configs[j].tag != configs[i].tag
    ensures var c, stored := configs[i], ReadAll(configs, net);
      && AsksFor(Requests(c), c)
      && Answers(if c.tag in stored then stored[c.tag] else [], Requests(c), i, net)
  {
    hide ReadAll, Collected, Timely, AsksFor, Requests, Tiles;
    RequestsAskForIt(configs[i]);
    TagsCollect(configs, net, configs[i].tag);
    OwnTagOnly(configs, net, i);
    TimelyExactly(Replies(configs[i], i, net));
  }
}
