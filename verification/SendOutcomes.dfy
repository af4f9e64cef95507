// How the publish calls of a turn show in what it publishes and in what it leaves in the
// buffer.
module SendOutcomes {
  import opened Platform
  import opened Delivery
  import opened DeliverySafety

  predicate AllConfirm(calls: seq<Outcome>) { forall k | 0 <= k < |calls| :: calls[k] == Confirmed }

  function Sure(k: nat): (calls: seq<Outcome>)
    ensures |calls| == k && AllConfirm(calls)
  {
    seq(k, _ => Confirmed)
  }

  function CallAt(calls: seq<Outcome>, k: nat): Outcome { if k < |calls| then calls[k] else Lost }

  // The messages of a sending carry the outcomes of the calls in order, and a raising
  // call comes right after them.
  ghost predicate FollowsCalls(x: Sending, calls: seq<Outcome>) {
    && (forall i | 0 <= i < |x.sent| :: x.sent[i].outcome == CallAt(calls, i))
    && (if x.raised then CallAt(calls, |x.sent|) == Raises else x.rest == Drop(calls, |x.sent|))
  }

  lemma DropTwice(calls: seq<Outcome>, m: nat, n: nat)
    ensures Drop(Drop(calls, m), n) == Drop(calls, m + n)
    ensures Call(Drop(calls, m)) == CallAt(calls, m)
  {}

  lemma BucketFollows(c: Config, d: Name, b: Bucket, calls: seq<Outcome>)
    ensures var r := SendBucket(c, d, b, calls);
      && (forall i | 0 <= i < |r.sent| :: r.sent[i].outcome == CallAt(calls, i))
      && (r.raised ==> CallAt(calls, |r.sent|) == Raises)
  {
    DropTwice(calls, |CallAttributes(c, d, b, calls).sent|, 0);
  }

  lemma StepRest(c: Config, x: Sending, n: nat)
    requires n < |x.buffer| && !SendStep(c, x, n).raised
    ensures SendStep(c, x, n).rest == Drop(x.rest, |SendBucket(c, x.buffer[n].0, x.buffer[n].1, x.rest).sent|)
  {}

  lemma StepFollows(c: Config, x: Sending, n: nat, calls: seq<Outcome>)
    requires n < |x.buffer| && FollowsCalls(x, calls)
    ensures FollowsCalls(SendStep(c, x, n), calls)
  {
    hide SendStep, SendBucket;
    StepSent(c, x, n);
    if !x.raised {
      var r := SendBucket(c, x.buffer[n].0, x.buffer[n].1, x.rest);
      BucketFollows(c, x.buffer[n].0, x.buffer[n].1, x.rest);
      DropTwice(calls, |x.sent|, |r.sent|);
      forall i | 0 <= i <= |r.sent| ensures CallAt(x.rest, i) == CallAt(calls, |x.sent| + i) {}
      if !r.raised { StepRest(c, x, n); }
      assert SendStep(c, x, n).sent == x.sent + r.sent;
    }
  }

  lemma {:induction false} SendingFollows(c: Config, buf: Buffer, calls: seq<Outcome>, n: nat)
    requires n <= |buf|
    ensures FollowsCalls(SendUpTo(c, buf, calls, n), calls)
  {
    hide SendStep, FollowsCalls;
    if n > 0 {
      SendingFollows(c, buf, calls, n - 1);
      SendShape(c, buf, calls, n - 1);
      StepFollows(c, SendUpTo(c, buf, calls, n - 1), n - 1, calls);
    } else {
      StartFollows(buf, calls);
    }
  }

  lemma StartFollows(buf: Buffer, calls: seq<Outcome>)
    ensures FollowsCalls(Sending(buf, [], calls, false), calls)
  {}

  // ---------- The buffer afterwards ----------

  lemma StepEmpties(c: Config, x: Sending, n: nat)
    requires n < |x.buffer| && !SendStep(c, x, n).raised
    ensures SendStep(c, x, n).buffer == x.buffer[n := (x.buffer[n].0, EMPTY_BUCKET)] && !x.raised
    ensures |SendStep(c, x, n).sent| <= |x.sent| + 2
  {}

  // A sending that does not raise empties every bucket, with two calls for each at most.
  lemma {:induction false} SendingEmpties(c: Config, buf: Buffer, calls: seq<Outcome>, n: nat)
    requires n <= |buf| && !SendUpTo(c, buf, calls, n).raised
    ensures var r := SendUpTo(c, buf, calls, n);
      && |r.buffer| == |buf| && |r.sent| <= 2 * n
      && (forall m | 0 <= m < n :: r.buffer[m] == (buf[m].0, EMPTY_BUCKET))
      && (forall m | n <= m < |buf| :: r.buffer[m] == buf[m])
  {
    hide SendStep;
    if n > 0 {
      var x := SendUpTo(c, buf, calls, n - 1);
      SendShape(c, buf, calls, n - 1);
      StepEmpties(c, x, n - 1);
      SendingEmpties(c, buf, calls, n - 1);
    }
  }
}
