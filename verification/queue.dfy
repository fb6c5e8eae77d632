/** The service's message queue: enqueue with an idempotency key, claim by
    polling, acknowledge, release with a back-off, heartbeat, and reclaiming
    messages whose worker went silent. Messages are kept in insertion order
    and every lookup takes the first match. */
module MessageQueue {
  import opened Wrappers
  import opened Json
  import opened Storage
  import Seqs
  import Service

  /** How long a released message waits before it can be claimed again. */
  const NackBackoffMs := 5000
  /** How long a claimed message may go without a heartbeat. */
  const StuckTimeoutMs := 30000
  /** The `maxAttempts` every message is created with; nothing reads it. */
  const DefaultMaxAttempts := 3

  /** No two messages share an id. */
  predicate UniqueIds(q: seq<QueueMessage>) {
    forall i, j :: 0 <= i < j < |q| ==> q[i].messageId != q[j].messageId
  }

  // ===========================================================================
  // Enqueue

  /** A key deduplicates only when it is truthy. */
  predicate KeyInForce(key: Option<string>) {
    key.Some? && key.value != ""
  }

  predicate SameKey(m: QueueMessage, queueName: Option<string>, key: Option<string>) {
    m.idempotencyKey == key && m.queueName == queueName
  }

  /** The earlier message an enqueue with `key` on `queueName` collapses into. */
  function Duplicate(q: seq<QueueMessage>, queueName: Option<string>, key: Option<string>): (r: Option<nat>)
    ensures r.Some? ==> r.value < |q| && KeyInForce(key) && SameKey(q[r.value], queueName, key)
    ensures r.Some? ==> forall j :: 0 <= j < r.value ==> !SameKey(q[j], queueName, key)
    ensures r.None? <==> !KeyInForce(key) || forall j :: 0 <= j < |q| ==> !SameKey(q[j], queueName, key)
  {
    if KeyInForce(key) then Seqs.FirstIndex(q, (m: QueueMessage) => SameKey(m, queueName, key)) else None
  }

  /** `queue`: returns the id of the first message already enqueued on the
      same queue under the same truthy key, changing nothing; otherwise
      appends a pending message with no attempts, `maxAttempts` 3 and
      `notBefore` now, under the fresh id `messageId`. */
  function Enqueue(s: Store, queueName: Option<string>, message: Option<Value>, key: Option<string>,
                   messageId: string, now: int): (r: (Store, string))
    ensures Duplicate(s.queue, queueName, key).Some? ==>
              r == (s, s.queue[Duplicate(s.queue, queueName, key).value].messageId)
    ensures Duplicate(s.queue, queueName, key).None? ==>
              && r.1 == messageId
              && r.0 == s.(queue := r.0.queue)
              && |r.0.queue| == |s.queue| + 1
              && r.0.queue[..|s.queue|] == s.queue
              && r.0.queue[|s.queue|] == QueueMessage(messageId, queueName, message, key, Pending,
                                                      0, DefaultMaxAttempts, now, now, now, None)
  {
    var dup := Duplicate(s.queue, queueName, key);
    if dup.Some? then (s, s.queue[dup.value].messageId)
    else
      var m := QueueMessage(messageId, queueName, message, key, Pending, 0, DefaultMaxAttempts,
                            now, now, now, None);
      assert (s.queue + [m])[..|s.queue|] == s.queue;
      (s.(queue := s.queue + [m]), messageId)
  }

  /** Enqueuing twice with the same truthy key on the same queue yields the
      first call's id, and the second call changes nothing. */
  lemma {:induction false} EnqueueIdempotent(s: Store, queueName: Option<string>, key: Option<string>,
                                             m1: Option<Value>, m2: Option<Value>,
                                             id1: string, id2: string, t1: int, t2: int)
    requires KeyInForce(key)
    ensures var (s1, a) := Enqueue(s, queueName, m1, key, id1, t1);
      Enqueue(s1, queueName, m2, key, id2, t2) == (s1, a)
  {
    var (s1, a) := Enqueue(s, queueName, m1, key, id1, t1);
    if Duplicate(s.queue, queueName, key).None? {
      var n := |s.queue|;
      assert SameKey(s1.queue[n], queueName, key);
      var d := Duplicate(s1.queue, queueName, key);
      assert d.Some?;
      assert forall j :: 0 <= j < n ==> s1.queue[j] == s.queue[j];
    } else {
      assert s1 == s;
    }
  }

  /** A key dedupes only within its queue: the same key on another queue,
      where it is not yet used, enqueues a new message. */
  lemma EnqueueKeyPerQueue(s: Store, q1: Option<string>, q2: Option<string>, key: Option<string>,
                           m1: Option<Value>, m2: Option<Value>, id1: string, id2: string, t1: int, t2: int)
    requires q1 != q2
    requires forall j :: 0 <= j < |s.queue| ==> !SameKey(s.queue[j], q2, key)
    ensures var s1 := Enqueue(s, q1, m1, key, id1, t1).0;
      var (s2, b) := Enqueue(s1, q2, m2, key, id2, t2);
      b == id2 && |s2.queue| == |s1.queue| + 1
  {
    var s1 := Enqueue(s, q1, m1, key, id1, t1).0;
    assert forall j :: 0 <= j < |s1.queue| ==> !SameKey(s1.queue[j], q2, key) by {
      forall j | 0 <= j < |s1.queue| ensures !SameKey(s1.queue[j], q2, key) {
        if j < |s.queue| {
          assert s1.queue[j] == s.queue[j];
        }
      }
    }
  }

  // ===========================================================================
  // Claiming

  /** A message `poll` may claim from `queueName` at `now`. */
  predicate Eligible(m: QueueMessage, queueName: string, now: int) {
    m.queueName == Some(queueName) && m.status == Pending && m.notBefore <= now
  }

  /** What `poll` hands to a worker. */
  datatype Claim = Claim(id: string, data: Value, attempt: int)

  /** A message after it was claimed at `now`. */
  function Claimed(m: QueueMessage, now: int): (c: QueueMessage)
    ensures c.status == Processing && c.attempt == m.attempt + 1 && c.updatedAt == now
    ensures c == m.(status := c.status, attempt := c.attempt, updatedAt := c.updatedAt)
  {
    m.(status := Processing, attempt := m.attempt + 1, updatedAt := now)
  }

  /** The store with the message at `i` replaced by `m`. */
  function Replace(s: Store, i: nat, m: QueueMessage): (r: Store)
    requires i < |s.queue|
  {
    s.(queue := s.queue[i := m])
  }

  /** The message `poll` claims: the first eligible one. */
  function FirstEligible(q: seq<QueueMessage>, queueName: string, now: int): (r: Option<nat>)
    ensures r.Some? ==> r.value < |q| && Eligible(q[r.value], queueName, now)
    ensures r.Some? ==> forall j :: 0 <= j < r.value ==> !Eligible(q[j], queueName, now)
    ensures r.None? <==> forall j :: 0 <= j < |q| ==> !Eligible(q[j], queueName, now)
  {
    Seqs.FirstIndex(q, (m: QueueMessage) => Eligible(m, queueName, now))
  }

  /** What a poll of message `m` returns once it is claimed. */
  function Delivery(m: QueueMessage): (r: Result<Option<Claim>, Service.Error>)
    ensures r.Success? <==> m.payload.Some?
    ensures r.Success? ==> r.value == Some(Claim(m.messageId, m.payload.value, m.attempt))
    ensures r.Failure? ==> r.error == Service.PayloadNotJson
  {
    if m.payload.Some? then Success(Some(Claim(m.messageId, m.payload.value, m.attempt)))
    else Failure(Service.PayloadNotJson)
  }

  /** `poll`: claims the first eligible message of `queueName`, marking it
      processing with one more attempt, and returns its id, payload and the
      new attempt count; with no eligible message returns nothing and changes
      nothing. A message enqueued with no payload is claimed and then fails to
      parse. */
  function Poll(s: Store, queueName: string, now: int): (r: (Store, Result<Option<Claim>, Service.Error>))
    ensures FirstEligible(s.queue, queueName, now).None? <==> r == (s, Success(None))
    ensures FirstEligible(s.queue, queueName, now).Some? ==>
      var i := FirstEligible(s.queue, queueName, now).value;
      && r.0 == Replace(s, i, Claimed(s.queue[i], now))
      && r.1 == Delivery(r.0.queue[i])
  {
    var i := FirstEligible(s.queue, queueName, now);
    if i.None? then (s, Success(None))
    else
      var next := Replace(s, i.value, Claimed(s.queue[i.value], now));
      assert next.queue[i.value].status != s.queue[i.value].status;
      (next, Delivery(next.queue[i.value]))
  }

  /** The id a poll handed out, if it handed one out. */
  function ClaimedId(r: Result<Option<Claim>, Service.Error>): Option<string> {
    if r.Success? && r.value.Some? then Some(r.value.value.id) else None
  }

  /** A claimed message is not handed out again by the next poll, at any time. */
  lemma PollClaimsOnce(s: Store, queueName: string, q2: string, t1: int, t2: int)
    requires UniqueIds(s.queue)
    requires ClaimedId(Poll(s, queueName, t1).1).Some?
    ensures var s1 := Poll(s, queueName, t1).0;
      ClaimedId(Poll(s1, q2, t2).1) != ClaimedId(Poll(s, queueName, t1).1)
  {
    var i := FirstEligible(s.queue, queueName, t1).value;
    var s1 := Poll(s, queueName, t1).0;
    assert s1.queue[i].status == Processing;
    var j := FirstEligible(s1.queue, q2, t2);
    if j.Some? {
      assert j.value != i;
      assert s1.queue[j.value] == s.queue[j.value];
    }
  }

  /** A message queued without a key is what the next poll of its queue hands
      out, with its payload as its first attempt, when nothing queued earlier
      is waiting there. */
  lemma EnqueueThenPoll(s: Store, q: string, payload: Value, id: string, now: int, later: int)
    requires now <= later
    requires FirstEligible(s.queue, q, later).None?
    ensures var (s1, mid) := Enqueue(s, Some(q), Some(payload), None, id, now);
      && mid == id
      && Poll(s1, q, later).1 == Success(Some(Claim(id, payload, 1)))
  {
    var (s1, mid) := Enqueue(s, Some(q), Some(payload), None, id, now);
    assert s1.queue[..|s.queue|] == s.queue;
    assert Eligible(s1.queue[|s.queue|], q, later);
    assert FirstEligible(s1.queue, q, later) == Some(|s.queue|);
  }

  // ===========================================================================
  // Acknowledge, release, heartbeat

  /** The first message carrying `messageId`; an absent id matches nothing. */
  function MessageIndex(q: seq<QueueMessage>, messageId: Option<string>): (r: Option<nat>)
    ensures r.Some? ==> r.value < |q| && Some(q[r.value].messageId) == messageId
    ensures r.Some? ==> forall j :: 0 <= j < r.value ==> Some(q[j].messageId) != messageId
    ensures r.None? <==> forall j :: 0 <= j < |q| ==> Some(q[j].messageId) != messageId
  {
    Seqs.FirstIndex(q, (m: QueueMessage) => Some(m.messageId) == messageId)
  }

  /** `ack`: marks the message completed, stamping `processedAt`; an unknown id
      is ignored. The reply is always success. */
  function Ack(s: Store, messageId: Option<string>, now: int): (r: Store)
    ensures MessageIndex(s.queue, messageId).None? ==> r == s
    ensures MessageIndex(s.queue, messageId).Some? ==>
      var i := MessageIndex(s.queue, messageId).value;
      r == Replace(s, i, s.queue[i].(status := Completed, processedAt := Some(now), updatedAt := now))
  {
    var i := MessageIndex(s.queue, messageId);
    if i.None? then s
    else Replace(s, i.value, s.queue[i.value].(status := Completed, processedAt := Some(now), updatedAt := now))
  }

  /** `nack`: puts the message back to pending, claimable again only after
      the back-off; its attempt count is kept. An unknown id is ignored. */
  function Nack(s: Store, messageId: Option<string>, now: int): (r: Store)
    ensures MessageIndex(s.queue, messageId).None? ==> r == s
    ensures MessageIndex(s.queue, messageId).Some? ==>
      var i := MessageIndex(s.queue, messageId).value;
      r == Replace(s, i, s.queue[i].(status := Pending, notBefore := now + NackBackoffMs, updatedAt := now))
  {
    var i := MessageIndex(s.queue, messageId);
    if i.None? then s
    else Replace(s, i.value, s.queue[i.value].(status := Pending, notBefore := now + NackBackoffMs, updatedAt := now))
  }

  /** `touch`: the worker's heartbeat, refreshing only `updatedAt`. An unknown
      id is ignored. */
  function Touch(s: Store, messageId: Option<string>, now: int): (r: Store)
    ensures MessageIndex(s.queue, messageId).None? ==> r == s
    ensures MessageIndex(s.queue, messageId).Some? ==>
      var i := MessageIndex(s.queue, messageId).value;
      r == Replace(s, i, s.queue[i].(updatedAt := now))
  {
    var i := MessageIndex(s.queue, messageId);
    if i.None? then s
    else Replace(s, i.value, s.queue[i.value].(updatedAt := now))
  }

  /** An acknowledged message is never handed out again. */
  lemma AckedNeverPolled(s: Store, id: string, t1: int, queueName: string, t2: int)
    requires UniqueIds(s.queue)
    ensures ClaimedId(Poll(Ack(s, Some(id), t1), queueName, t2).1) != Some(id)
  {
    var s1 := Ack(s, Some(id), t1);
    var j := FirstEligible(s1.queue, queueName, t2);
    var i := MessageIndex(s.queue, Some(id));
    if j.Some? && i.Some? && j.value != i.value {
      assert s1.queue[j.value] == s.queue[j.value];
    }
  }

  /** A released message is not handed out during its back-off ... */
  lemma NackedWaitsOutBackoff(s: Store, id: string, t1: int, queueName: string, t2: int)
    requires UniqueIds(s.queue)
    requires t2 < t1 + NackBackoffMs
    ensures ClaimedId(Poll(Nack(s, Some(id), t1), queueName, t2).1) != Some(id)
  {
    var s1 := Nack(s, Some(id), t1);
    var j := FirstEligible(s1.queue, queueName, t2);
    var i := MessageIndex(s.queue, Some(id));
    if j.Some? && i.Some? && j.value != i.value {
      assert s1.queue[j.value] == s.queue[j.value];
    }
  }

  /** ... and is eligible again once it is over. */
  lemma NackedEligibleAfterBackoff(s: Store, id: string, t1: int, t2: int)
    requires MessageIndex(s.queue, Some(id)).Some?
    requires t2 >= t1 + NackBackoffMs
    ensures var i := MessageIndex(s.queue, Some(id)).value;
      var m := Nack(s, Some(id), t1).queue[i];
      m.queueName.Some? ==> Eligible(m, m.queueName.value, t2)
  {
  }

  // ===========================================================================
  // Reclaiming stuck messages

  /** A claimed message whose last heartbeat is more than the timeout ago. */
  predicate Stuck(m: QueueMessage, now: int) {
    m.status == Processing && now - m.updatedAt > StuckTimeoutMs
  }

  function StuckAt(now: int): QueueMessage -> bool {
    (m: QueueMessage) => Stuck(m, now)
  }

  /** A stuck message put back to pending, claimable at once; its `updatedAt`
      is left as it was. */
  function Reclaim(m: QueueMessage, now: int): (r: QueueMessage)
    ensures Stuck(m, now) ==> r == m.(status := Pending, notBefore := now)
    ensures !Stuck(m, now) ==> r == m
  {
    if Stuck(m, now) then m.(status := Pending, notBefore := now) else m
  }

  /** `q` is `s.queue` with its first `i` messages reclaimed, and `count`
      of those were stuck. */
  ghost predicate Swept(s: Store, q: seq<QueueMessage>, i: int, count: int, now: int) {
    && 0 <= i <= |q| == |s.queue|
    && (forall j :: 0 <= j < i ==> q[j] == Reclaim(s.queue[j], now))
    && (forall j :: i <= j < |q| ==> q[j] == s.queue[j])
    && count == Seqs.Count(s.queue[..i], StuckAt(now))
  }

  /** One step of the sweep: reclaiming the next message extends the swept
      prefix, and the count grows exactly when that message was stuck. */
  lemma SweepStep(s: Store, q: seq<QueueMessage>, i: nat, count: nat, now: int)
    requires Swept(s, q, i, count, now) && i < |q|
    ensures Swept(s, q[i := Reclaim(q[i], now)], i + 1, count + (if Stuck(q[i], now) then 1 else 0), now)
    ensures !Stuck(q[i], now) ==> q[i := Reclaim(q[i], now)] == q
  {
    Seqs.CountPrefix(s.queue, i, StuckAt(now));
    assert q[i] == s.queue[i];
  }

  /** A finished sweep has reclaimed every message, stuck ones counted. */
  lemma SweepDone(s: Store, q: seq<QueueMessage>, count: int, now: int)
    requires Swept(s, q, |q|, count, now)
    ensures |q| == |s.queue|
    ensures forall i :: 0 <= i < |s.queue| ==> q[i] == Reclaim(s.queue[i], now)
    ensures count == Seqs.Count(s.queue, StuckAt(now))
    ensures forall i :: 0 <= i < |q| ==> !Stuck(q[i], now)
  {
    assert s.queue[..|q|] == s.queue;
  }

  /** `cleanupStuckMessages`: reclaims every stuck message and returns how
      many there were; every other message is untouched. */
  method CleanupStuckMessages(s: Store, now: int) returns (r: Store, count: nat)
    ensures r == s.(queue := r.queue)
    ensures |r.queue| == |s.queue|
    ensures forall i :: 0 <= i < |s.queue| ==> r.queue[i] == Reclaim(s.queue[i], now)
    ensures count == Seqs.Count(s.queue, StuckAt(now))
    ensures forall i :: 0 <= i < |r.queue| ==> !Stuck(r.queue[i], now)
  {
    var q := s.queue;
    count := 0;
    var i := 0;
    while i < |q|
      invariant Swept(s, q, i, count, now)
      decreases |s.queue| - i
    {
      SweepStep(s, q, i, count, now);
      if Stuck(q[i], now) {
        q := q[i := Reclaim(q[i], now)];
        count := count + 1;
      }
      i := i + 1;
    }
    SweepDone(s, q, count, now);
    r := s.(queue := q);
  }

  /** A reclaimed message can be claimed by the very next poll of its queue. */
  lemma ReclaimedIsEligible(m: QueueMessage, queueName: string, now: int)
    requires Stuck(m, now) && m.queueName == Some(queueName)
    ensures Eligible(Reclaim(m, now), queueName, now)
  {
  }

  /** A heartbeat keeps a claimed message from being reclaimed for the whole
      timeout that follows it. */
  lemma TouchDefersReclaim(s: Store, id: string, t: int, now: int)
    requires MessageIndex(s.queue, Some(id)).Some?
    requires now <= t + StuckTimeoutMs
    ensures var i := MessageIndex(s.queue, Some(id)).value;
      !Stuck(Touch(s, Some(id), t).queue[i], now)
  {
  }
}
