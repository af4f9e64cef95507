// Each hypothesis of the acknowledgement theorem is needed.
module AckLimits {
  import opened Options
  import opened Platform
  import opened Delivery
  import opened DeliverySafety
  import opened DeliveryRuns

  // One record with an attribute and a telemetry point, hence two messages.
  const VALUES: Object := [("k", "1")]
  const RECORD: Pack := Pack("d", [VALUES], [Entry(0, VALUES)])
  const STORED: State := State([Event(RECORD)], 0, [], [], [], [])
  const GROUPED: Buffer := [("d", Bucket([Entry(0, VALUES)], VALUES))]

  function Service(qos: int): Config { Config("g", "h", [], qos) }

  const PLACE: Slot := Slot(Device("d"), Point(0, "k"))

  lemma RecordGroups()
    ensures Fill([], [Event(RECORD)]) == Filled(GROUPED, false)
  {
    var e: seq<StoredEvent> := [Event(RECORD)];
    assert e[..0] == [];
    var os: seq<Object> := [VALUES];
    assert os[..0] == [] && VALUES[..0] == [];
    assert MergeAll([], os) == VALUES;
    assert Extend(EMPTY_BUCKET, RECORD).telemetry == [Entry(0, VALUES)];
  }

  lemma RecordIsHistory(qos: int)
    ensures HistoryAt(Service(qos), [Event(RECORD)], PLACE) == Some("1")
  {
    var c := Service(qos);
    var e: seq<StoredEvent> := [Event(RECORD)];
    assert e[..0] == [];
    var es: seq<Entry> := [Entry(0, VALUES)];
    assert es[..0] == [];
    assert VALUES[..0] == [];
    assert TargetOf(c, "d") == Device("d");
    assert EntryAt(es[0], PLACE.item) == Some("1");
    assert TelemetryAt(es, PLACE.item) == Some("1");
    assert EventAt(c, e[0], PLACE) == Some("1");
  }

  function TwoCalls(a: Outcome, b: Outcome): seq<Sent> {
    [Sent(AttributesMessage(Device("d"), VALUES), a), Sent(TelemetryMessage(Device("d"), [Entry(0, VALUES)]), b)]
  }

  lemma RecordIsSent(qos: int, a: Outcome, b: Outcome)
    requires a != Raises
    ensures var x := SendAll(Service(qos), GROUPED, [a, b]);
      if b == Raises then x.raised && x.sent == TwoCalls(a, b)[..1] else !x.raised && x.sent == TwoCalls(a, b)
  {
    var c := Service(qos);
    assert TargetOf(c, "d") == Device("d");
    assert Drop([a, b], 1) == [b];
    assert CallAttributes(c, "d", GROUPED[0].1, [a, b]).sent == [TwoCalls(a, b)[0]];
    assert SendUpTo(c, GROUPED, [a, b], 0).rest == [a, b];
    assert SendUpTo(c, GROUPED, [a, b], 1) == SendStep(c, SendUpTo(c, GROUPED, [a, b], 0), 0);
  }

  // The record has been cleared from the storage, and its telemetry point is not on the
  // platform although it would be, had the record been applied.
  ghost predicate LosesPoint(c: Config, t: Turn) {
    var s := Step(c, STORED, t);
    s.acked == STORED.pending && PlatformAt(s.platform, PLACE) == None && HistoryAt(c, s.acked, PLACE) == Some("1")
  }

  predicate Online(t: Turn) {
    Reads(t) && t.packSize == 1 && t.connectedAtSend && Checks(t) && t.connectedAtAck
  }

  function SentOf(a: Outcome, b: Outcome): seq<Sent> {
    if b == Raises then [TwoCalls(a, b)[0]] else TwoCalls(a, b)
  }

  lemma PointIsMissing(a: Outcome, b: Outcome)
    requires b in {Raises, Lost}
    ensures PlatformAt(Arrived(SentOf(a, b)), PLACE) == None
  {
    ArrivedOne(TwoCalls(a, b)[0], PLACE);
    if b == Lost {
      ArrivedOne(TwoCalls(a, b)[1], PLACE);
      assert TwoCalls(a, b) == [TwoCalls(a, b)[0]] + [TwoCalls(a, b)[1]];
      ArrivedJoin([TwoCalls(a, b)[0]], [TwoCalls(a, b)[1]], PLACE);
    }
  }

  lemma RecordIsTransmitted(qos: int, t: Turn, a: Outcome, b: Outcome)
    requires Online(t) && t.calls == [a, b] && a == Confirmed
    ensures Proceeds(ReadPack(STORED, t), t)
    ensures var x := Transmit(Service(qos), Grouped(ReadPack(STORED, t)), t);
      && x.published == SentOf(a, b) && x.platform == Arrived(SentOf(a, b)) && x.handed == 1
      && x.pending == STORED.pending && x.acked == [] && Step(Service(qos), STORED, t) == Settle(Service(qos), x, t)
  {
    RecordGroups();
    RecordIsSent(qos, a, b);
    assert STORED.pending[..1] == STORED.pending;
    assert TwoCalls(a, b)[..1] == [TwoCalls(a, b)[0]];
  }

  lemma ClearedTurn(qos: int, t: Turn, x: State, sent: seq<Sent>)
    requires x.published == sent && x.platform == Arrived(sent) && x.handed == 1
    requires x.pending == STORED.pending && x.acked == []
    requires Step(Service(qos), STORED, t) == Settle(Service(qos), x, t)
    requires Online(t) && Published(Service(qos), sent[..DrainCount(sent, t)], t)
    requires PlatformAt(Arrived(sent), PLACE) == None
    ensures LosesPoint(Service(qos), t)
  {
    hide Step, Settle, PlatformAt, HistoryAt, Arrived;
    RecordIsHistory(qos);
    ClearingKeepsPlatform(Service(qos), x, t);
    assert STORED.pending[..1] == STORED.pending == [Event(RECORD)];
  }

  // An online turn on the one record: what is drained decides, and only delivered
  // messages reach the platform.
  lemma OneTurn(qos: int, t: Turn, a: Outcome, b: Outcome)
    requires Online(t) && t.calls == [a, b] && a == Confirmed && b in {Raises, Lost}
    requires Published(Service(qos), SentOf(a, b)[..DrainCount(SentOf(a, b), t)], t)
    ensures LosesPoint(Service(qos), t)
  {
    hide Transmit, Settle, Step, LosesPoint, PlatformAt, Arrived;
    RecordIsTransmitted(qos, t, a, b);
    PointIsMissing(a, b);
    ClearedTurn(qos, t, Transmit(Service(qos), Grouped(ReadPack(STORED, t)), t), SentOf(a, b));
  }

  lemma ClearingKeepsPlatform(c: Config, x: State, t: Turn)
    requires Bounded(x) && Succeeds(c, x, t)
    ensures Settle(c, x, t).platform == x.platform
    ensures Settle(c, x, t).acked == x.acked + x.pending[..x.handed]
  {}

  function OnlineTurn(calls: seq<Outcome>, stopAfter: Option<nat>, connectedAtDrain: bool): Turn {
    Turn(true, false, 1, true, calls, true, false, stopAfter, connectedAtDrain, false, true)
  }

  // A raising send call: the messages before it are confirmed, the pack is cleared.
  lemma RaisingCallLosesData()
    ensures LosesPoint(Service(1), OnlineTurn([Confirmed, Raises], None, true))
  {
    OneTurn(1, OnlineTurn([Confirmed, Raises], None, true), Confirmed, Raises);
  }

  // A stop seen while the handles are drained.
  lemma StopWhileDrainingLosesData()
    ensures LosesPoint(Service(1), OnlineTurn([Confirmed, Lost], Some(1), true))
  {
    OneTurn(1, OnlineTurn([Confirmed, Lost], Some(1), true), Confirmed, Lost);
  }

  // The connection is down when the handles would be awaited and up again right after.
  lemma ConnectionFlipLosesData()
    ensures LosesPoint(Service(1), OnlineTurn([Confirmed, Lost], None, false))
  {
    OneTurn(1, OnlineTurn([Confirmed, Lost], None, false), Confirmed, Lost);
  }

  // Any other quality of service.
  lemma OtherQosLosesData(qos: int)
    requires qos != 1
    ensures LosesPoint(Service(qos), OnlineTurn([Confirmed, Lost], None, true))
  {
    OneTurn(qos, OnlineTurn([Confirmed, Lost], None, true), Confirmed, Lost);
  }
}
