// What a wide-range read is converted to: the registers of the usable answers are
// joined, cut into objects, and each decoded object gets the next address as its label.
module WideRangeDecoding {
  import opened WideRangeReads

  // Decoding one object: a value, nothing, or an exception.
  datatype Decoded<V> = Value(value: V) | Nothing | Raises

  datatype Datapoint<V> = Datapoint(address: int, value: V)

  datatype Converted<V> = Failed | Points(points: seq<Datapoint<V>>)

  // ---------- Joining the usable answers ----------

  function Usable(replies: seq<Reply>): seq<Reply> {
    if replies == [] then []
    else Usable(replies[..|replies| - 1]) + (if replies[|replies| - 1].Words? then [replies[|replies| - 1]] else [])
  }

  function Joined(replies: seq<Reply>): seq<Word> {
    if replies == [] then []
    else Joined(replies[..|replies| - 1]) + (if replies[|replies| - 1].Words? then replies[|replies| - 1].words else [])
  }

  method ValidateEncodedData(replies: seq<Reply>) returns (usable: seq<Reply>)
    ensures usable == Usable(replies) && forall q | q in usable :: q.Words?
  {
    usable := [];
    for i := 0 to |replies|
      invariant usable == Usable(replies[..i]) && forall q | q in usable :: q.Words?
    {
      assert replies[..i + 1][..i] == replies[..i];
      if replies[i].Words? { usable := usable + [replies[i]]; }
    }
    assert replies[..|replies|] == replies;
  }

  method GetRegisters(usable: seq<Reply>) returns (words: seq<Word>)
    requires forall q | q in usable :: q.Words?
    ensures words == Joined(usable)
  {
    words := [];
    for i := 0 to |usable|
      invariant words == Joined(usable[..i])
    {
      assert usable[..i + 1][..i] == usable[..i];
      words := words + usable[i].words;
    }
    assert usable[..|usable|] == usable;
  }

  lemma {:induction false} UsableJoins(replies: seq<Reply>)
    ensures Joined(Usable(replies)) == Joined(replies)
  {
    if replies != [] {
      var n := |replies| - 1;
      UsableJoins(replies[..n]);
      if replies[n].Words? {
        var usable := Usable(replies[..n]);
        assert (usable + [replies[n]])[..|usable|] == usable;
        assert Joined(usable + [replies[n]]) == Joined(usable) + replies[n].words;
      } else {
        assert Usable(replies) == Usable(replies[..n]) && Joined(replies) == Joined(replies[..n]);
      }
    }
  }

  // ---------- Cutting into objects and labelling ----------

  function Size(words: seq<Word>, objects: int): int { Min(objects, |words|) }

  function Prepend<V>(points: seq<Datapoint<V>>, c: Converted<V>): Converted<V> {
    match c case Failed => Failed case Points(rest) => Points(points + rest)
  }

  // An object that decodes to nothing is left out without using up its address.
  function Labelled<V>(words: seq<Word>, address: int, objects: int, decode: seq<Word> -> Decoded<V>): Converted<V>
    requires objects >= 1
    decreases |words|
  {
    if words == [] then Points([])
    else
      match decode(words[..Size(words, objects)])
      case Raises => Failed
      case Nothing => Labelled(words[Size(words, objects)..], address, objects, decode)
      case Value(v) =>
        Prepend([Datapoint(address, v)], Labelled(words[Size(words, objects)..], address + objects, objects, decode))
  }

  // A step of zero between objects raises, a negative one finds no object.
  function Convert<V>(replies: seq<Reply>, address: int, objects: int, decode: seq<Word> -> Decoded<V>): Converted<V> {
    if objects == 0 then Failed
    else if objects < 0 then Points([])
    else Labelled(Joined(replies), address, objects, decode)
  }

  lemma Prepending<V>(points: seq<Datapoint<V>>, p: Datapoint<V>, c: Converted<V>)
    ensures Prepend(points, Prepend([p], c)) == Prepend(points + [p], c)
  {
    if c.Points? { assert points + ([p] + c.points) == points + [p] + c.points; }
  }

  method LabelObjects<V>(words: seq<Word>, address: int, objects: int, decode: seq<Word> -> Decoded<V>)
    returns (r: Converted<V>)
    requires objects >= 1
    ensures r == Labelled(words, address, objects, decode)
  {
    var result: seq<Datapoint<V>>, current, i := [], address, 0;
    while i < |words|
      invariant 0 <= i <= |words|
      invariant Prepend(result, Labelled(words[i..], current, objects, decode))
             == Labelled(words, address, objects, decode)
    {
      var chunk := words[i..][..Size(words[i..], objects)];
      assert words[i..][|chunk|..] == words[i + |chunk|..];
      var decoded := decode(chunk);
      if decoded.Raises? { return Failed; }
      if decoded.Value? {
        Prepending(result, Datapoint(current, decoded.value),
                   Labelled(words[i + |chunk|..], current + objects, objects, decode));
        result, current := result + [Datapoint(current, decoded.value)], current + objects;
      }
      i := i + |chunk|;
    }
    return Points(result);
  }

  method ProcessWideRangeResponse<V>(replies: seq<Reply>, address: int, objects: int, decode: seq<Word> -> Decoded<V>)
    returns (r: Converted<V>)
    ensures r == Convert(replies, address, objects, decode)
  {
    var usable := ValidateEncodedData(replies);
    var words := GetRegisters(usable);
    UsableJoins(replies);
    if objects == 0 { return Failed; }
    if objects < 0 { return Points([]); }
    r := LabelObjects(words, address, objects, decode);
  }

  // ---------- Exactness ----------

  function Memory(mem: int -> Word, start: int, count: nat): seq<Word> { seq(count, i => mem(start + i)) }

  // The answers a request list gets from a device that holds `mem`.
  ghost predicate Truthful(chunks: seq<Chunk>, replies: seq<Reply>, mem: int -> Word) {
    && |replies| <= |chunks|
    && (forall i | 0 <= i < |replies| && replies[i].Words? ::
          chunks[i].count >= 0 && replies[i].words == Memory(mem, chunks[i].start, chunks[i].count))
  }

  // The addresses that the joined registers were read from.
  function Sources(chunks: seq<Chunk>, replies: seq<Reply>): seq<int>
    requires |replies| <= |chunks|
  {
    if replies == [] then []
    else Sources(chunks, replies[..|replies| - 1]) +
         (if replies[|replies| - 1].Words? then Addresses(chunks[|replies| - 1]) else [])
  }

  function Addresses(c: Chunk): seq<int> { seq(if c.count < 0 then 0 else c.count, i => c.start + i) }

  lemma {:induction false} RegistersComeFromSources(chunks: seq<Chunk>, replies: seq<Reply>, mem: int -> Word)
    requires Truthful(chunks, replies, mem)
    ensures |Joined(replies)| == |Sources(chunks, replies)|
    ensures forall p | 0 <= p < |Joined(replies)| :: Joined(replies)[p] == mem(Sources(chunks, replies)[p])
  {
    if replies != [] { RegistersComeFromSources(chunks, replies[..|replies| - 1], mem); }
  }

  // Only answers at the end are missing.
  ghost predicate OnlyTailRefused(replies: seq<Reply>) {
    forall i, k | 0 <= i < k < |replies| :: replies[k].Words? ==> replies[i].Words?
  }

  ghost predicate Aligned(sources: seq<int>, lo: int) { forall p | 0 <= p < |sources| :: sources[p] == lo + p }

  lemma {:induction false} SourcesFromTheStart(chunks: seq<Chunk>, replies: seq<Reply>, lo: int, hi: int, limit: int)
    requires Tiles(chunks, lo, hi, limit) && |replies| <= |chunks|
    ensures |replies| < |chunks| ==> |Sources(chunks, replies)| <= chunks[|replies|].start - lo
    ensures |replies| == |chunks| ==> |Sources(chunks, replies)| <= hi - lo
    ensures (forall i | 0 <= i < |replies| :: replies[i].Words?) ==>
              |Sources(chunks, replies)| == (if |replies| < |chunks| then chunks[|replies|].start else hi) - lo
    ensures (exists i :: 0 <= i < |replies| && !replies[i].Words?) ==>
              |Sources(chunks, replies)| < (if |replies| < |chunks| then chunks[|replies|].start else hi) - lo
  {
    if replies != [] {
      SourcesFromTheStart(chunks, replies[..|replies| - 1], lo, hi, limit);
      assert forall i | 0 <= i < |replies| - 1 :: replies[..|replies| - 1][i] == replies[i];
    }
  }

  // Every joined register stands where its address says exactly if no refused answer
  // comes before a usable one.
  lemma {:induction false} RegistersAlignExactly(chunks: seq<Chunk>, replies: seq<Reply>, lo: int, hi: int, limit: int)
    requires Tiles(chunks, lo, hi, limit) && |replies| <= |chunks|
    ensures Aligned(Sources(chunks, replies), lo) <==> OnlyTailRefused(replies)
  {
    if replies != [] {
      var n := |replies| - 1;
      var before := replies[..n];
      RegistersAlignExactly(chunks, before, lo, hi, limit);
      SourcesFromTheStart(chunks, before, lo, hi, limit);
      var a, b := Sources(chunks, before), Sources(chunks, replies);
      assert a == b[..|a|];
      assert forall i | 0 <= i < n :: before[i] == replies[i];
      if replies[n].Words? {
        assert b[|a|] == chunks[n].start;
        if Aligned(b, lo) { assert Aligned(a, lo); }
        if OnlyTailRefused(replies) { assert forall i | 0 <= i < n :: before[i].Words?; }
      } else {
        if OnlyTailRefused(before) { assert OnlyTailRefused(replies); }
      }
    }
  }

  // Where the objects begin that give a datapoint.
  function Offsets<V>(words: seq<Word>, at: int, objects: int, decode: seq<Word> -> Decoded<V>): seq<int>
    requires objects >= 1
    decreases |words|
  {
    if words == [] then []
    else (if decode(words[..Size(words, objects)]).Value? then [at] else []) +
         Offsets(words[Size(words, objects)..], at + objects, objects, decode)
  }

  ghost predicate NoValues<V>(words: seq<Word>, objects: int, decode: seq<Word> -> Decoded<V>)
    requires objects >= 1
    decreases |words|
  {
    words == [] ||
    (!decode(words[..Size(words, objects)]).Value? && NoValues(words[Size(words, objects)..], objects, decode))
  }

  // No object that decodes to nothing comes before one that has a value.
  ghost predicate OnlyTailEmpty<V>(words: seq<Word>, objects: int, decode: seq<Word> -> Decoded<V>)
    requires objects >= 1
    decreases |words|
  {
    words == [] ||
    if decode(words[..Size(words, objects)]).Value? then OnlyTailEmpty(words[Size(words, objects)..], objects, decode)
    else NoValues(words[Size(words, objects)..], objects, decode)
  }

  lemma {:induction false} LabelsNeverRunAhead<V>(words: seq<Word>, address: int, at: int, objects: int,
                                                  decode: seq<Word> -> Decoded<V>)
    requires objects >= 1 && Labelled(words, address, objects, decode).Points?
    ensures var points := Labelled(words, address, objects, decode).points;
      && |points| == |Offsets(words, at, objects, decode)|
      && (forall j | 0 <= j < |points| :: points[j].address - address <= Offsets(words, at, objects, decode)[j] - at)
      && (NoValues(words, objects, decode) <==> points == [])
    decreases |words|
  {
    if words != [] {
      var rest := words[Size(words, objects)..];
      if decode(words[..Size(words, objects)]).Value? {
        LabelsNeverRunAhead(rest, address + objects, at + objects, objects, decode);
      } else {
        LabelsNeverRunAhead(rest, address, at + objects, objects, decode);
      }
    }
  }

  ghost predicate AtPlaces<V>(points: seq<Datapoint<V>>, places: seq<int>) {
    |points| == |places| && forall j | 0 <= j < |points| :: points[j].address == places[j]
  }

  lemma AtPlacesCons<V>(p: Datapoint<V>, points: seq<Datapoint<V>>, places: seq<int>)
    ensures AtPlaces([p] + points, [p.address] + places) <==> AtPlaces(points, places)
  {
    if AtPlaces([p] + points, [p.address] + places) {
      forall j | 0 <= j < |points| ensures points[j].address == places[j] {
        assert ([p] + points)[j + 1].address == ([p.address] + places)[j + 1];
      }
    }
  }

  // A datapoint's label is the place of its object exactly if objects without a value
  // only follow those that have one.
  lemma {:induction false} LabelsAlignExactly<V>(words: seq<Word>, address: int, objects: int,
                                                 decode: seq<Word> -> Decoded<V>)
    requires objects >= 1 && Labelled(words, address, objects, decode).Points?
    ensures AtPlaces(Labelled(words, address, objects, decode).points, Offsets(words, address, objects, decode))
       <==> OnlyTailEmpty(words, objects, decode)
    decreases |words|
  {
    if words != [] {
      var rest := words[Size(words, objects)..];
      var first := decode(words[..Size(words, objects)]);
      if first.Value? {
        LabelsAlignExactly(rest, address + objects, objects, decode);
        AtPlacesCons(Datapoint(address, first.value), Labelled(rest, address + objects, objects, decode).points,
                     Offsets(rest, address + objects, objects, decode));
      } else {
        LabelsNeverRunAhead(rest, address, address + objects, objects, decode);
        assert Offsets(words, address, objects, decode) == Offsets(rest, address + objects, objects, decode);
        var points := Labelled(rest, address, objects, decode).points;
        if points != [] { assert points[0].address != Offsets(words, address, objects, decode)[0]; }
      }
    }
  }

  // The datapoints of a memory whose objects all have a value.
  ghost predicate AllValues<V>(mem: int -> Word, address: int, n: nat, objects: nat, decode: seq<Word> -> Decoded<V>) {
    forall i | 0 <= i < n :: decode(Memory(mem, address + i * objects, objects)).Value?
  }

  function Expected<V>(mem: int -> Word, address: int, n: nat, objects: nat, decode: seq<Word> -> Decoded<V>)
    : seq<Datapoint<V>>
    requires AllValues(mem, address, n, objects, decode)
  {
    seq(n, i requires 0 <= i < n =>
      Datapoint(address + i * objects, decode(Memory(mem, address + i * objects, objects)).value))
  }

  lemma NextObject(address: int, i: int, objects: nat)
    ensures address + (i + 1) * objects == address + objects + i * objects
  {}

  lemma AllValuesCons<V>(mem: int -> Word, address: int, n: nat, objects: nat, decode: seq<Word> -> Decoded<V>)
    requires n > 0 && AllValues(mem, address, n, objects, decode)
    ensures AllValues(mem, address + objects, n - 1, objects, decode) && decode(Memory(mem, address, objects)).Value?
  {
    assert decode(Memory(mem, address + 0 * objects, objects)).Value?;
    forall i | 0 <= i < n - 1 ensures decode(Memory(mem, address + objects + i * objects, objects)).Value? {
      NextObject(address, i, objects);
      assert decode(Memory(mem, address + (i + 1) * objects, objects)).Value?;
    }
  }

  lemma ExpectedAt<V>(mem: int -> Word, address: int, n: nat, objects: nat, decode: seq<Word> -> Decoded<V>, i: nat)
    requires i + 1 < n && AllValues(mem, address, n, objects, decode)
    requires AllValues(mem, address + objects, n - 1, objects, decode)
    ensures Expected(mem, address, n, objects, decode)[i + 1]
         == Expected(mem, address + objects, n - 1, objects, decode)[i]
  {
    NextObject(address, i, objects);
  }

  lemma ExpectedCons<V>(mem: int -> Word, address: int, n: nat, objects: nat, decode: seq<Word> -> Decoded<V>)
    requires n > 0 && AllValues(mem, address, n, objects, decode)
    ensures AllValues(mem, address + objects, n - 1, objects, decode) && decode(Memory(mem, address, objects)).Value?
    ensures Expected(mem, address, n, objects, decode) ==
      [Datapoint(address, decode(Memory(mem, address, objects)).value)]
      + Expected(mem, address + objects, n - 1, objects, decode)
  {
    AllValuesCons(mem, address, n, objects, decode);
    var all := Expected(mem, address, n, objects, decode);
    var rest := Expected(mem, address + objects, n - 1, objects, decode);
    forall i | 0 <= i < n - 1 ensures all[1..][i] == rest[i] { ExpectedAt(mem, address, n, objects, decode, i); }
  }

  lemma {:induction false} LabelledExactly<V>(mem: int -> Word, address: int, n: nat, objects: nat,
                                              decode: seq<Word> -> Decoded<V>)
    requires objects >= 1 && AllValues(mem, address, n, objects, decode)
    ensures n * objects >= 0
    ensures Labelled(Memory(mem, address, n * objects), address, objects, decode)
         == Points(Expected(mem, address, n, objects, decode))
    decreases n
  {
    if n > 0 {
      ExpectedCons(mem, address, n, objects, decode);
      LabelledExactly(mem, address + objects, n - 1, objects, decode);
      NextObject(0, n - 1, objects);
      var words := Memory(mem, address, n * objects);
      assert words[..objects] == Memory(mem, address, objects);
      assert words[objects..] == Memory(mem, address + objects, (n - 1) * objects);
    }
  }

  lemma JoinedMemory(chunks: seq<Chunk>, replies: seq<Reply>, mem: int -> Word, lo: int, hi: int, limit: int)
    requires Tiles(chunks, lo, hi, limit) && Truthful(chunks, replies, mem)
    requires |replies| == |chunks| && forall i | 0 <= i < |replies| :: replies[i].Words?
    ensures hi >= lo && Joined(replies) == Memory(mem, lo, hi - lo)
  {
    RegistersAlignExactly(chunks, replies, lo, hi, limit);
    SourcesFromTheStart(chunks, replies, lo, hi, limit);
    RegistersComeFromSources(chunks, replies, mem);
    assert |Joined(replies)| == hi - lo;
  }

  // A wide-range read in which every request is answered from the device's memory and
  // every object has a value: one datapoint per object of the range, in order, each
  // labelled with its address and decoded from exactly the registers there.
  lemma WideRangeReadIsExact<V>(c: Config, replies: seq<Reply>, mem: int -> Word, n: nat,
                                decode: seq<Word> -> Decoded<V>)
    requires Cuttable(c) && c.address.Range? && c.objects >= 1
    requires c.address.last - c.address.first == (n - 1) * c.objects
    requires Registers(c) >= 1 && Truthful(Requests(c), replies, mem)
    requires |replies| == |Requests(c)| && forall i | 0 <= i < |replies| :: replies[i].Words?
    requires AllValues(mem, c.address.first, n, c.objects, decode)
    ensures Convert(replies, c.address.first, c.objects, decode)
         == Points(Expected(mem, c.address.first, n, c.objects, decode))
  {
    var lo, hi := c.address.first as int, c.address.last + c.objects;
    if Registers(c) > c.limit { SplitTiles(lo, Registers(c), c.limit); }
    assert hi - lo == n * c.objects;
    JoinedMemory(Requests(c), replies, mem, lo, hi, if Registers(c) > c.limit then c.limit else Registers(c));
    LabelledExactly(mem, lo, n, c.objects, decode);
  }

  // The datapoint's value was decoded from the registers at its label.
  ghost predicate FromMemory<V>(p: Datapoint<V>, mem: int -> Word, objects: int, decode: seq<Word> -> Decoded<V>) {
    exists n :: 1 <= n <= objects && decode(Memory(mem, p.address, n)) == Value(p.value)
  }

  lemma {:induction false} LabelledFromMemory<V>(mem: int -> Word, address: int, n: nat, objects: int,
                                                 decode: seq<Word> -> Decoded<V>)
    requires objects >= 1 && OnlyTailEmpty(Memory(mem, address, n), objects, decode)
    requires Labelled(Memory(mem, address, n), address, objects, decode).Points?
    ensures forall p | p in Labelled(Memory(mem, address, n), address, objects, decode).points ::
              FromMemory(p, mem, objects, decode)
    decreases n
  {
    if n > 0 {
      var words := Memory(mem, address, n);
      var k := Size(words, objects);
      var rest := words[k..];
      assert words[..k] == Memory(mem, address, k);
      if decode(words[..k]).Value? {
        if k == objects {
          assert rest == Memory(mem, address + objects, n - objects);
          LabelledFromMemory(mem, address + objects, n - objects, objects, decode);
        }
      } else {
        LabelsNeverRunAhead(rest, address, address, objects, decode);
      }
    }
  }

  lemma JoinedPrefix(chunks: seq<Chunk>, replies: seq<Reply>, mem: int -> Word, lo: int, hi: int, limit: int)
    requires Tiles(chunks, lo, hi, limit) && Truthful(chunks, replies, mem) && OnlyTailRefused(replies)
    ensures Joined(replies) == Memory(mem, lo, |Joined(replies)|)
  {
    RegistersAlignExactly(chunks, replies, lo, hi, limit);
    RegistersComeFromSources(chunks, replies, mem);
  }

  // However many answers at the end are missing or objects there without a value, every
  // datapoint was decoded from the registers at its label.
  lemma DatapointsAreFromTheirLabels<V>(c: Config, replies: seq<Reply>, mem: int -> Word,
                                        decode: seq<Word> -> Decoded<V>)
    requires Cuttable(c) && c.address.Range? && c.objects >= 1 && Registers(c) >= 1
    requires Truthful(Requests(c), replies, mem) && OnlyTailRefused(replies)
    requires OnlyTailEmpty(Joined(replies), c.objects, decode)
    requires Convert(replies, c.address.first, c.objects, decode).Points?
    ensures forall p | p in Convert(replies, c.address.first, c.objects, decode).points ::
              FromMemory(p, mem, c.objects, decode)
  {
    var lo, hi := c.address.first as int, c.address.last + c.objects;
    if Registers(c) > c.limit { SplitTiles(lo, Registers(c), c.limit); }
    JoinedPrefix(Requests(c), replies, mem, lo, hi, if Registers(c) > c.limit then c.limit else Registers(c));
    LabelledFromMemory(mem, lo, |Joined(replies)|, c.objects, decode);
  }

  // ---------- When the conversion fails ----------

  // The k-th object of the registers, the last of which may be short.
  function ObjectAt(words: seq<Word>, objects: int, k: nat): seq<Word>
    requires objects >= 1 && k * objects < |words|
  {
    words[k * objects..Min((k + 1) * objects, |words|)]
  }

  predicate RaisesAt<V>(words: seq<Word>, objects: int, decode: seq<Word> -> Decoded<V>, k: nat) {
    objects >= 1 && k * objects < |words| && decode(ObjectAt(words, objects, k)) == Raises
  }

  ghost predicate SomeRaises<V>(words: seq<Word>, objects: int, decode: seq<Word> -> Decoded<V>) {
    exists k: nat :: RaisesAt(words, objects, decode, k)
  }

  lemma RaisesLater<V>(words: seq<Word>, objects: int, decode: seq<Word> -> Decoded<V>, k: nat)
    requires objects >= 1 && words != []
    ensures var rest := words[Size(words, objects)..];
      RaisesAt(rest, objects, decode, k) <==> RaisesAt(words, objects, decode, k + 1)
  {
    var rest := words[Size(words, objects)..];
    assert (k + 1) * objects == k * objects + objects && (k + 2) * objects == (k + 1) * objects + objects;
    assert k * objects >= 0;
    if |words| > objects && k * objects < |rest| {
      assert ObjectAt(rest, objects, k) == ObjectAt(words, objects, k + 1);
    }
  }

  lemma {:induction false} LabellingFailsExactly<V>(words: seq<Word>, address: int, objects: int,
                                                    decode: seq<Word> -> Decoded<V>)
    requires objects >= 1
    ensures Labelled(words, address, objects, decode).Failed? <==> SomeRaises(words, objects, decode)
    decreases |words|
  {
    if words != [] {
      var rest := words[Size(words, objects)..];
      assert ObjectAt(words, objects, 0) == words[..Size(words, objects)];
      var next := if decode(words[..Size(words, objects)]).Value? then address + objects else address;
      if !decode(words[..Size(words, objects)]).Raises? {
        LabellingFailsExactly(rest, next, objects, decode);
        if SomeRaises(rest, objects, decode) {
          var k: nat :| RaisesAt(rest, objects, decode, k);
          RaisesLater(words, objects, decode, k);
        }
        if SomeRaises(words, objects, decode) {
          var k: nat :| RaisesAt(words, objects, decode, k);
          assert k > 0;
          RaisesLater(words, objects, decode, k - 1);
        }
      } else {
        assert RaisesAt(words, objects, decode, 0);
      }
    }
  }

  // The conversion fails if and only if objects have no registers or decoding some object of
  // the joined registers raises.
  lemma ConversionFailsExactly<V>(replies: seq<Reply>, address: int, objects: int, decode: seq<Word> -> Decoded<V>)
    ensures Convert(replies, address, objects, decode).Failed? <==>
      objects == 0 || SomeRaises(Joined(replies), objects, decode)
  {
    if objects >= 1 { LabellingFailsExactly(Joined(replies), address, objects, decode); }
  }
}
