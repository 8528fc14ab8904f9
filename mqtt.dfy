/** The broker-side handler: immediate-or-queued publishing with a persistent
    synchronous retry counter, one retry pass over the pending queue per loop
    tick, and the property-set command path (reply first, then per-property
    dispatch).

    The MQTT client is an oracle. `Env.connected` is what the client reports
    as its connection state. A send while it reports itself disconnected
    fails without consuming an outcome; otherwise each send consumes the next
    scripted outcome (a send past the end of the script fails). `Env.trace` records every send
    attempt and every dispatched property in order, and `Env.led` is the
    level last written to the LED pin. The clock is passed in as `now`. */
module Mqtt {
  import opened Strings
  import opened Documents
  import opened PropertySet

  const MaxQueueSize: nat := 10
  const MaxRetryCount: nat := 3
  /** The bound `publish` puts on its synchronous re-attempts (a literal in
      `publish`, separate from MaxRetryCount). */
  const ImmediateRetryLimit: nat := 3
  /** Delays before the first queued attempt, and the flat retry backoff. */
  const OfflineQueueDelay: nat := 1000
  const FailedSendQueueDelay: nat := 2000
  const RetryBackoff: nat := 5000
  /** The `delay` before each synchronous re-attempt of `publish`; the clock
      a re-attempt reads is this much later. */
  const ReattemptDelay: nat := 1000

  datatype PendingMessage = PendingMessage(topic: string, payload: Payload, retryCount: int, nextAttemptTime: nat)

  /** What the client's publish reports; `FailedLinkLost` is a failure after
      which the client reports itself disconnected. */
  datatype SendOutcome = Delivered | Failed | FailedLinkLost

  datatype Event = Sent(topic: string, payload: Payload, ok: bool) | Dispatched(name: string, action: Action)

  datatype Env = Env(connected: bool, outcomes: seq<SendOutcome>, trace: seq<Event>, led: Level)

  /** The handler's state: the pending queue, the synchronous retry counter
      and the environment. */
  datatype MqttState = MqttState(queue: seq<PendingMessage>, retry: int, env: Env)

  predicate QueueWellFormed(queue: seq<PendingMessage>) {
    forall k :: 0 <= k < |queue| ==> 0 <= queue[k].retryCount < MaxRetryCount
  }

  /** The handler's invariant: the counter within its bound, the queue within
      its capacity, and every queued entry below the retry ceiling. */
  predicate Wf(s: MqttState) {
    0 <= s.retry <= ImmediateRetryLimit && |s.queue| <= MaxQueueSize && QueueWellFormed(s.queue)
  }

  function NextOutcome(env: Env): SendOutcome {
    if env.outcomes == [] then Failed else env.outcomes[0]
  }

  /** One call of the client's publish. */
  function Send(env: Env, topic: string, payload: Payload): (bool, Env) {
    if !env.connected then (false, env.(trace := env.trace + [Sent(topic, payload, false)]))
    else
      var outcome := NextOutcome(env);
      var ok := outcome == Delivered;
      (ok, env.(connected := outcome != FailedLinkLost,
                outcomes := if env.outcomes == [] then [] else env.outcomes[1..],
                trace := env.trace + [Sent(topic, payload, ok)]))
  }

  function Msg(m: PendingMessage): (string, Payload) { (m.topic, m.payload) }

  /** The (topic, payload) pairs of the send attempts among `events`. */
  function SentMessages(events: seq<Event>): seq<(string, Payload)>
    decreases |events|
  {
    if events == [] then []
    else
      var e := events[|events| - 1];
      SentMessages(events[..|events| - 1]) + (if e.Sent? then [(e.topic, e.payload)] else [])
  }

  // ------------------------------------------------------------------ publish

  datatype Published = Published(ok: bool, state: MqttState)

  /** The queue after a failed send: the message appended (first attempt 2 s
      later) when there is room. */
  function Requeue(queue: seq<PendingMessage>, topic: string, payload: Payload, now: nat): seq<PendingMessage> {
    if |queue| < MaxQueueSize then queue + [PendingMessage(topic, payload, 0, now + FailedSendQueueDelay)]
    else queue
  }

  /** The state a connected call is left in by a failed send, with the
      counter counted up. */
  function AfterFailure(s: MqttState, topic: string, payload: Payload, now: nat): MqttState {
    MqttState(Requeue(s.queue, topic, payload, now), s.retry + 1, Send(s.env, topic, payload).1)
  }

  /** `publish`. Disconnected: queue the message (first attempt 1 s later)
      only when asked to and there is room. Connected: send; on success reset
      the counter; on failure queue the message (first attempt 2 s later) if
      there is room, then while the counter is below 3 count up and, a second
      later, publish again without queueing permission, else reset the
      counter and fail.
      The counter is a field, so what a call leaves behind (after a re-attempt
      found the link gone) bounds the next call's re-attempts. */
  function PublishSpec(s: MqttState, topic: string, payload: Payload, queued: bool, now: nat): (r: Published)
    requires 0 <= s.retry <= ImmediateRetryLimit
    ensures 0 <= r.state.retry <= ImmediateRetryLimit
    decreases ImmediateRetryLimit - s.retry
  {
    if !s.env.connected then
      if queued && |s.queue| < MaxQueueSize then
        Published(true, s.(queue := s.queue + [PendingMessage(topic, payload, 0, now + OfflineQueueDelay)]))
      else
        Published(false, s)
    else if Send(s.env, topic, payload).0 then
      Published(true, s.(retry := 0, env := Send(s.env, topic, payload).1))
    else if s.retry < ImmediateRetryLimit then
      PublishSpec(AfterFailure(s, topic, payload, now), topic, payload, false, now + ReattemptDelay)
    else
      Published(false, AfterFailure(s, topic, payload, now).(retry := 0))
  }

  /** Disconnected, nothing is sent: without queueing permission (the default)
      the call fails and changes nothing; with it, a full queue rejects the
      message, and otherwise exactly one fresh entry is appended. */
  lemma PublishWhileDisconnected(s: MqttState, topic: string, payload: Payload, queued: bool, now: nat)
    requires 0 <= s.retry <= ImmediateRetryLimit && !s.env.connected
    ensures var r := PublishSpec(s, topic, payload, queued, now);
      && (!queued ==> r == Published(false, s))
      && (queued && |s.queue| >= MaxQueueSize ==> r == Published(false, s))
      && (queued && |s.queue| < MaxQueueSize ==>
            r.ok && r.state.retry == s.retry && r.state.env == s.env
            && r.state.queue == s.queue + [PendingMessage(topic, payload, 0, now + OfflineQueueDelay)])
  {
  }

  /** Connected, a delivered first send succeeds with one attempt, resets the
      counter and leaves the queue alone. */
  lemma PublishDelivered(s: MqttState, topic: string, payload: Payload, queued: bool, now: nat)
    requires 0 <= s.retry <= ImmediateRetryLimit && s.env.connected
    requires NextOutcome(s.env) == Delivered
    ensures var r := PublishSpec(s, topic, payload, queued, now);
      r.ok && r.state.retry == 0 && r.state.queue == s.queue
      && r.state.env.trace == s.env.trace + [Sent(topic, payload, true)]
  {
  }

  /** The queue `queue` extended by entries of (`topic`, `payload`) that have
      not been retried yet. */
  predicate ExtendsWithFresh(queue: seq<PendingMessage>, queue': seq<PendingMessage>, topic: string, payload: Payload) {
    && |queue| <= |queue'| && queue'[..|queue|] == queue
    && forall k :: |queue| <= k < |queue'| ==>
         Msg(queue'[k]) == (topic, payload) && queue'[k].retryCount == 0
  }

  /** Requeueing keeps the queue well formed and within its capacity, and
      extends it with exactly one fresh entry, first due 2 s from now, when
      there is room, and with none when the queue is full. */
  lemma RequeueFresh(queue: seq<PendingMessage>, topic: string, payload: Payload, now: nat)
    requires QueueWellFormed(queue) && |queue| <= MaxQueueSize
    ensures var q := Requeue(queue, topic, payload, now);
      && QueueWellFormed(q) && |q| <= MaxQueueSize && ExtendsWithFresh(queue, q, topic, payload)
      && |q| <= |queue| + 1
      && (|queue| < MaxQueueSize ==>
            |q| == |queue| + 1 && q[|queue|].nextAttemptTime == now + FailedSendQueueDelay)
      && (|queue| == MaxQueueSize ==> q == queue)
  {
    var q := Requeue(queue, topic, payload, now);
    assert forall k :: 0 <= k < |queue| ==> q[k] == queue[k];
  }

  /** Extending by fresh entries twice is extending by fresh entries. */
  lemma ExtendsTransitive(q0: seq<PendingMessage>, q1: seq<PendingMessage>, q2: seq<PendingMessage>, topic: string, payload: Payload)
    requires ExtendsWithFresh(q0, q1, topic, payload) && ExtendsWithFresh(q1, q2, topic, payload)
    ensures ExtendsWithFresh(q0, q2, topic, payload)
  {
    assert q2[..|q1|][..|q0|] == q2[..|q0|];
    forall k | |q0| <= k < |q2|
      ensures Msg(q2[k]) == (topic, payload) && q2[k].retryCount == 0
    {
      if k < |q1| {
        assert q2[k] == q2[..|q1|][k];
      }
    }
  }

  /** Publishing keeps the handler's invariant. */
  lemma {:induction false} PublishKeepsWf(s: MqttState, topic: string, payload: Payload, queued: bool, now: nat)
    requires Wf(s)
    ensures Wf(PublishSpec(s, topic, payload, queued, now).state)
    decreases ImmediateRetryLimit - s.retry
  {
    if s.env.connected && !Send(s.env, topic, payload).0 {
      RequeueFresh(s.queue, topic, payload, now);
      if s.retry < ImmediateRetryLimit {
        PublishKeepsWf(AfterFailure(s, topic, payload, now), topic, payload, false, now + ReattemptDelay);
      }
    } else if !s.env.connected && queued && |s.queue| < MaxQueueSize {
      AppendFresh(s.queue, PendingMessage(topic, payload, 0, now + OfflineQueueDelay));
    }
  }

  /** Publishing keeps the handler's invariant, removes nothing from the
      queue, and appends only fresh entries for this message. */
  lemma {:induction false} PublishPreservesQueue(s: MqttState, topic: string, payload: Payload, queued: bool, now: nat)
    requires Wf(s)
    ensures var r := PublishSpec(s, topic, payload, queued, now);
      Wf(r.state) && ExtendsWithFresh(s.queue, r.state.queue, topic, payload)
    decreases ImmediateRetryLimit - s.retry
  {
    PublishKeepsWf(s, topic, payload, queued, now);
    if !s.env.connected {
      if queued && |s.queue| < MaxQueueSize {
        AppendFresh(s.queue, PendingMessage(topic, payload, 0, now + OfflineQueueDelay));
      }
    } else if !Send(s.env, topic, payload).0 {
      var s' := AfterFailure(s, topic, payload, now);
      RequeueFresh(s.queue, topic, payload, now);
      if s.retry < ImmediateRetryLimit {
        PublishPreservesQueue(s', topic, payload, false, now + ReattemptDelay);
        ExtendsTransitive(s.queue, s'.queue, PublishSpec(s', topic, payload, false, now + ReattemptDelay).state.queue, topic, payload);
      }
    }
  }

  /** Appending a fresh entry keeps the queue well formed and the old entries. */
  lemma AppendFresh(queue: seq<PendingMessage>, m: PendingMessage)
    requires QueueWellFormed(queue) && m.retryCount == 0
    ensures QueueWellFormed(queue + [m]) && (queue + [m])[..|queue|] == queue
  {
    assert forall k :: 0 <= k < |queue| ==> (queue + [m])[k] == queue[k];
  }

  /** The trace `t'` is `t` followed by send attempts of (`topic`, `payload`). */
  predicate ExtendsWithSends(t: seq<Event>, t': seq<Event>, topic: string, payload: Payload) {
    && |t| <= |t'| && t'[..|t|] == t
    && forall k :: |t| <= k < |t'| ==>
         t'[k].Sent? && t'[k].topic == topic && t'[k].payload == payload
  }

  /** One send appends exactly its own attempt to the trace and leaves the
      LED alone. */
  lemma SendExtends(env: Env, topic: string, payload: Payload)
    ensures var env' := Send(env, topic, payload).1;
      && |env'.trace| == |env.trace| + 1
      && ExtendsWithSends(env.trace, env'.trace, topic, payload)
      && env'.led == env.led
  {
    var t := Send(env, topic, payload).1.trace;
    assert t[..|env.trace|] == env.trace;
  }

  lemma ExtendsWithSendsTransitive(t0: seq<Event>, t1: seq<Event>, t2: seq<Event>, topic: string, payload: Payload)
    requires ExtendsWithSends(t0, t1, topic, payload) && ExtendsWithSends(t1, t2, topic, payload)
    ensures ExtendsWithSends(t0, t2, topic, payload)
  {
    assert t2[..|t1|][..|t0|] == t2[..|t0|];
    forall k | |t0| <= k < |t2|
      ensures t2[k].Sent? && t2[k].topic == topic && t2[k].payload == payload
    {
      if k < |t1| {
        assert t2[k] == t2[..|t1|][k];
      }
    }
  }

  /** A call makes at most `4 - counter` send attempts, all of this message,
      and sends nothing else; while the link is up it makes at least one. */
  lemma {:induction false} PublishSendsBounded(s: MqttState, topic: string, payload: Payload, queued: bool, now: nat)
    requires 0 <= s.retry <= ImmediateRetryLimit
    ensures var r := PublishSpec(s, topic, payload, queued, now);
      && |r.state.env.trace| <= |s.env.trace| + ImmediateRetryLimit + 1 - s.retry
      && (s.env.connected ==> |s.env.trace| < |r.state.env.trace|)
      && ExtendsWithSends(s.env.trace, r.state.env.trace, topic, payload)
      && r.state.env.led == s.env.led
    decreases ImmediateRetryLimit - s.retry
  {
    if !s.env.connected {
      assert s.env.trace[..|s.env.trace|] == s.env.trace;
    } else {
      SendExtends(s.env, topic, payload);
      if !Send(s.env, topic, payload).0 && s.retry < ImmediateRetryLimit {
        var s' := AfterFailure(s, topic, payload, now);
        PublishSendsBounded(s', topic, payload, false, now + ReattemptDelay);
        ExtendsWithSendsTransitive(s.env.trace, s'.env.trace, PublishSpec(s', topic, payload, false, now + ReattemptDelay).state.env.trace, topic, payload);
      }
    }
  }

  /** A call succeeds exactly when it queued the message while disconnected
      or one of its send attempts was delivered. */
  lemma {:induction false} PublishOkMeaning(s: MqttState, topic: string, payload: Payload, queued: bool, now: nat)
    requires 0 <= s.retry <= ImmediateRetryLimit
    ensures var r := PublishSpec(s, topic, payload, queued, now);
      r.ok <==>
        (!s.env.connected && queued && |s.queue| < MaxQueueSize)
        || (|s.env.trace| <= |r.state.env.trace|
            && Sent(topic, payload, true) in r.state.env.trace[|s.env.trace|..])
    decreases ImmediateRetryLimit - s.retry
  {
    if s.env.connected {
      var n := |s.env.trace|;
      var env := Send(s.env, topic, payload).1;
      if Send(s.env, topic, payload).0 {
        assert env.trace[n..] == [Sent(topic, payload, true)];
      } else if s.retry < ImmediateRetryLimit {
        var s' := AfterFailure(s, topic, payload, now);
        PublishOkMeaning(s', topic, payload, false, now + ReattemptDelay);
        PublishSendsBounded(s', topic, payload, false, now + ReattemptDelay);
        var t := PublishSpec(s', topic, payload, false, now + ReattemptDelay).state.env.trace;
        assert t[n..] == [Sent(topic, payload, false)] + t[n + 1..];
      } else {
        assert env.trace[n..] == [Sent(topic, payload, false)];
      }
    }
  }

  /** While the link stays up and every send fails, a call starting from
      counter c makes exactly 4 - c attempts, fails, resets the counter, and
      queues one copy of the message per attempt while there is room. */
  lemma {:induction false} PublishExhausted(s: MqttState, topic: string, payload: Payload, queued: bool, now: nat)
    requires 0 <= s.retry <= ImmediateRetryLimit && s.env.connected && |s.queue| <= MaxQueueSize
    requires |s.env.outcomes| >= ImmediateRetryLimit + 1 - s.retry
    requires forall k :: 0 <= k < ImmediateRetryLimit + 1 - s.retry ==> s.env.outcomes[k] == Failed
    ensures var r := PublishSpec(s, topic, payload, queued, now);
      && !r.ok && r.state.retry == 0 && r.state.env.connected
      && |r.state.env.trace| == |s.env.trace| + ImmediateRetryLimit + 1 - s.retry
      && |r.state.queue| == (if |s.queue| + ImmediateRetryLimit + 1 - s.retry <= MaxQueueSize
                             then |s.queue| + ImmediateRetryLimit + 1 - s.retry
                             else MaxQueueSize)
      && s.queue <= r.state.queue
      && (forall k :: |s.queue| <= k < |r.state.queue| ==>
            r.state.queue[k] == PendingMessage(topic, payload, 0,
                                  now + FailedSendQueueDelay + (k - |s.queue|) * ReattemptDelay))
    decreases ImmediateRetryLimit - s.retry
  {
    var s' := AfterFailure(s, topic, payload, now);
    var n := |s.queue|;
    if s.retry < ImmediateRetryLimit {
      assert forall k :: 0 <= k < ImmediateRetryLimit + 1 - s'.retry ==> s'.env.outcomes[k] == s.env.outcomes[k + 1];
      PublishExhausted(s', topic, payload, false, now + ReattemptDelay);
      var q := PublishSpec(s', topic, payload, false, now + ReattemptDelay).state.queue;
      PrefixTransitive(s.queue, s'.queue, q);
      if n < MaxQueueSize {
        assert q[n] == s'.queue[n] by { assert q[..|s'.queue|][n] == q[n]; }
      }
    }
  }

  /** A prefix of a prefix is a prefix. */
  lemma PrefixTransitive<T>(a: seq<T>, b: seq<T>, c: seq<T>)
    requires a <= b && b <= c
    ensures a <= c
  {
    assert c[..|b|][..|a|] == c[..|a|];
  }

  // --------------------------------------------------------------- the queue

  datatype Drained = Drained(kept: seq<PendingMessage>, env: Env)

  /** One step of `processMessageQueue` on an entry: an entry not yet due is
      kept as it is; a due one is sent once, and dropped when delivered or
      when its incremented count reaches the ceiling, else kept with the
      incremented count and the next attempt 5 s from now. */
  function Visit(m: PendingMessage, now: nat, env: Env): (r: Drained)
    ensures r.kept == [] || r.kept == [r.kept[0]]
    ensures now < m.nextAttemptTime ==> r == Drained([m], env)
    ensures now >= m.nextAttemptTime ==> r.env == Send(env, m.topic, m.payload).1
    ensures now >= m.nextAttemptTime ==>
      (r.kept == [] <==> Send(env, m.topic, m.payload).0 || m.retryCount + 1 >= MaxRetryCount)
    ensures now >= m.nextAttemptTime && r.kept != [] ==>
      r.kept == [m.(retryCount := m.retryCount + 1, nextAttemptTime := now + RetryBackoff)]
  {
    if now < m.nextAttemptTime then Drained([m], env)
    else
      var sent := Send(env, m.topic, m.payload);
      if sent.0 then Drained([], sent.1)
      else if m.retryCount + 1 >= MaxRetryCount then Drained([], sent.1)
      else Drained([m.(retryCount := m.retryCount + 1, nextAttemptTime := now + RetryBackoff)], sent.1)
  }

  /** The first `j` steps of a `processMessageQueue` pass, entry by entry in
      queue order: what is kept of the first `j` entries, and the client
      after them. */
  function Pass(queue: seq<PendingMessage>, j: nat, now: nat, env: Env): Drained
    requires j <= |queue|
    decreases j
  {
    if j == 0 then Drained([], env)
    else
      var prior := Pass(queue, j - 1, now, env);
      var last := Visit(queue[j - 1], now, prior.env);
      Drained(prior.kept + last.kept, last.env)
  }

  /** One whole `processMessageQueue` pass. */
  function Drain(queue: seq<PendingMessage>, now: nat, env: Env): Drained {
    Pass(queue, |queue|, now, env)
  }

  /** While the client reports itself disconnected, a due entry's send fails
      and leaves the link state and the outcome script alone: the entry uses
      up one retry, and is dropped once that reaches the ceiling. */
  lemma VisitOffline(m: PendingMessage, now: nat, env: Env)
    requires !env.connected && now >= m.nextAttemptTime
    ensures var r := Visit(m, now, env);
      && r.env == env.(trace := env.trace + [Sent(m.topic, m.payload, false)])
      && (m.retryCount + 1 >= MaxRetryCount ==> r.kept == [])
      && (m.retryCount + 1 < MaxRetryCount ==>
            r.kept == [m.(retryCount := m.retryCount + 1, nextAttemptTime := now + RetryBackoff)])
  {
  }

  /** A pass over a single entry is that entry's visit. */
  lemma DrainSingle(m: PendingMessage, now: nat, env: Env)
    ensures Drain([m], now, env) == Visit(m, now, env)
  {
    var v := Visit(m, now, env);
    assert Pass([m], 0, now, env) == Drained([], env);
    assert [m][0] == m;
    assert [] + v.kept == v.kept;
    assert Pass([m], 1, now, env) == Drained([] + v.kept, v.env);
  }

  /** A message queued while the link is down is never delivered while it
      stays down: if it is alone in the queue and a pass runs once it is due
      and twice more, each at least the backoff after the one before, the
      third pass drops it after three failed attempts. */
  lemma OfflineEntryDropped(m: PendingMessage, env: Env, t1: nat, t2: nat, t3: nat)
    requires !env.connected && m.retryCount == 0
    requires m.nextAttemptTime <= t1 && t1 + RetryBackoff <= t2 && t2 + RetryBackoff <= t3
    ensures var p1 := Drain([m], t1, env);
      var p2 := Drain(p1.kept, t2, p1.env);
      var p3 := Drain(p2.kept, t3, p2.env);
      var e := Sent(m.topic, m.payload, false);
      && |p1.kept| == 1 && |p2.kept| == 1 && p3.kept == []
      && p3.env == env.(trace := env.trace + [e, e, e])
  {
    var e := Sent(m.topic, m.payload, false);
    DrainSingle(m, t1, env);
    VisitOffline(m, t1, env);
    var p1 := Drain([m], t1, env);
    var m1 := p1.kept[0];
    assert p1.kept == [m1];
    DrainSingle(m1, t2, p1.env);
    VisitOffline(m1, t2, p1.env);
    var p2 := Drain(p1.kept, t2, p1.env);
    var m2 := p2.kept[0];
    assert p2.kept == [m2];
    DrainSingle(m2, t3, p2.env);
    VisitOffline(m2, t3, p2.env);
    assert env.trace + [e] + [e] + [e] == env.trace + [e, e, e];
  }

  /** The messages of the due entries, in queue order. */
  function DueMessages(queue: seq<PendingMessage>, now: nat): seq<(string, Payload)>
    decreases |queue|
  {
    if queue == [] then []
    else
      var m := queue[|queue| - 1];
      DueMessages(queue[..|queue| - 1], now) + (if now >= m.nextAttemptTime then [Msg(m)] else [])
  }

  function Messages(queue: seq<PendingMessage>): (r: seq<(string, Payload)>)
    ensures |r| == |queue|
    decreases |queue|
  {
    if queue == [] then [] else Messages(queue[..|queue| - 1]) + [Msg(queue[|queue| - 1])]
  }

  /** `a` is `b` with some elements left out. */
  predicate IsSubsequence<T(==)>(a: seq<T>, b: seq<T>)
    decreases |b|
  {
    if a == [] then true
    else if b == [] then false
    else
      (a[|a| - 1] == b[|b| - 1] && IsSubsequence(a[..|a| - 1], b[..|b| - 1]))
      || IsSubsequence(a, b[..|b| - 1])
  }

  /** A non-empty prefix is the shorter prefix and one more entry. */
  lemma PrefixSnoc<T>(queue: seq<T>, j: nat)
    requires 0 < j <= |queue|
    ensures queue[..j] == queue[..j - 1] + [queue[j - 1]]
    ensures queue[..j][..j - 1] == queue[..j - 1]
  {
  }

  lemma MessagesAppend(queue: seq<PendingMessage>, m: PendingMessage)
    ensures Messages(queue + [m]) == Messages(queue) + [Msg(m)]
  {
    assert (queue + [m])[..|queue|] == queue;
  }

  /** Extending the list visited by one entry, and the kept list by nothing
      or by one entry with that entry's message, keeps the one a subsequence
      of the other. */
  lemma {:induction false} SubsequenceExtend(kept: seq<PendingMessage>, visited: seq<PendingMessage>, extra: seq<PendingMessage>, m: PendingMessage)
    requires IsSubsequence(Messages(kept), Messages(visited))
    requires extra == [] || (extra == [extra[0]] && Msg(extra[0]) == Msg(m))
    ensures IsSubsequence(Messages(kept + extra), Messages(visited + [m]))
  {
    MessagesAppend(visited, m);
    var b := Messages(visited + [m]);
    assert b[..|b| - 1] == Messages(visited);
    if extra == [] {
      assert kept + extra == kept;
    } else {
      MessagesAppend(kept, extra[0]);
      var a := Messages(kept + extra);
      assert a[..|a| - 1] == Messages(kept);
    }
  }

  /** A pass adds no entry and keeps the survivors in their relative order. */
  lemma {:induction false} PassKeepsOrder(queue: seq<PendingMessage>, j: nat, now: nat, env: Env)
    requires j <= |queue|
    ensures var r := Pass(queue, j, now, env);
      |r.kept| <= j && IsSubsequence(Messages(r.kept), Messages(queue[..j]))
    decreases j
  {
    if j > 0 {
      PassKeepsOrder(queue, j - 1, now, env);
      var prior := Pass(queue, j - 1, now, env);
      var last := Visit(queue[j - 1], now, prior.env);
      PrefixSnoc(queue, j);
      SubsequenceExtend(prior.kept, queue[..j - 1], last.kept, queue[j - 1]);
    }
  }

  /** One visit appends to the trace at most its own send attempt, and only
      for a due entry; it leaves the LED alone. */
  lemma VisitTrace(m: PendingMessage, now: nat, env: Env, n: nat)
    requires n <= |env.trace|
    ensures var t := Visit(m, now, env).env.trace;
      && env.trace <= t
      && SentMessages(t[n..]) == SentMessages(env.trace[n..]) + (if now >= m.nextAttemptTime then [Msg(m)] else [])
    ensures Visit(m, now, env).env.led == env.led
  {
    var sent := SentMessages(env.trace[n..]);
    if now >= m.nextAttemptTime {
      var e := Sent(m.topic, m.payload, Send(env, m.topic, m.payload).0);
      var t := env.trace + [e];
      assert Visit(m, now, env).env.trace == t;
      assert t[n..] == env.trace[n..] + [e];
      SentMessagesAppend(env.trace[n..], e);
    } else {
      assert sent + [] == sent;
    }
  }

  /** A pass sends each due entry exactly once, in queue order, and nothing
      else; it only appends to the trace, and it does not touch the LED. */
  lemma {:induction false} PassSendsDueOnce(queue: seq<PendingMessage>, j: nat, now: nat, env: Env)
    requires j <= |queue|
    ensures var r := Pass(queue, j, now, env);
      && env.trace <= r.env.trace
      && SentMessages(r.env.trace[|env.trace|..]) == DueMessages(queue[..j], now)
      && r.env.led == env.led
    decreases j
  {
    if j > 0 {
      PassSendsDueOnce(queue, j - 1, now, env);
      var prior := Pass(queue, j - 1, now, env);
      VisitTrace(queue[j - 1], now, prior.env, |env.trace|);
      PrefixSnoc(queue, j);
    }
  }

  lemma SentMessagesAppend(events: seq<Event>, e: Event)
    ensures SentMessages(events + [e]) == SentMessages(events) + (if e.Sent? then [(e.topic, e.payload)] else [])
  {
    assert (events + [e])[..|events|] == events;
  }

  /** An entry that is not due survives the pass unchanged. */
  lemma {:induction false} PassKeepsNotDue(queue: seq<PendingMessage>, j: nat, now: nat, env: Env, k: nat)
    requires k < j <= |queue| && now < queue[k].nextAttemptTime
    ensures queue[k] in Pass(queue, j, now, env).kept
    decreases j
  {
    if k < j - 1 {
      PassKeepsNotDue(queue, j - 1, now, env, k);
    }
  }

  /** A pass over entries none of which is due changes nothing. */
  lemma {:induction false} PassIdle(queue: seq<PendingMessage>, j: nat, now: nat, env: Env)
    requires j <= |queue|
    requires forall k :: 0 <= k < j ==> now < queue[k].nextAttemptTime
    ensures Pass(queue, j, now, env) == Drained(queue[..j], env)
    decreases j
  {
    if j > 0 {
      PassIdle(queue, j - 1, now, env);
      PrefixSnoc(queue, j);
    }
  }

  /** A pass keeps the queue within its capacity, and every entry it keeps
      is below the retry ceiling. */
  lemma {:induction false} PassWellFormed(queue: seq<PendingMessage>, j: nat, now: nat, env: Env)
    requires j <= |queue| && QueueWellFormed(queue)
    ensures |Pass(queue, j, now, env).kept| <= j
    ensures QueueWellFormed(Pass(queue, j, now, env).kept)
    decreases j
  {
    if j > 0 {
      PassWellFormed(queue, j - 1, now, env);
    }
  }

  lemma AppendNothing<T>(s: seq<T>)
    ensures s + [] == s
  {
  }

  /** Erasing or overwriting the entry at the seam between the entries
      already visited and those still to come. */
  lemma Seam<T>(kept: seq<T>, queue: seq<T>, j: nat, x: T)
    requires j < |queue|
    ensures var q := kept + queue[j..];
      && |kept| < |q| && q[|kept|] == queue[j]
      && q[..|kept|] + q[|kept| + 1..] == kept + queue[j + 1..]
      && q[|kept| := x] == (kept + [x]) + queue[j + 1..]
  {
    var q := kept + queue[j..];
    assert q[..|kept|] == kept && q[|kept| + 1..] == queue[j + 1..];
  }

  /** One step of the loop of `processMessageQueue`: with the entries before
      position `i` of `queue` being what the pass kept of the first `j`
      original entries, and the rest still untouched, erasing or overwriting
      the entry at `i` as its visit says extends that to `j + 1` entries. */
  lemma PassAdvance(queue0: seq<PendingMessage>, j: nat, now: nat, env0: Env,
                    queue: seq<PendingMessage>, kept: seq<PendingMessage>, client: Env)
    requires j < |queue0| && queue == kept + queue0[j..]
    requires Pass(queue0, j, now, env0) == Drained(kept, client)
    ensures |kept| < |queue|
    ensures var v := Visit(queue[|kept|], now, client);
      v.kept == [] ==>
        && queue[..|kept|] + queue[|kept| + 1..] == kept + queue0[j + 1..]
        && Pass(queue0, j + 1, now, env0) == Drained(kept, v.env)
    ensures var v := Visit(queue[|kept|], now, client);
      v.kept != [] ==>
        && queue[|kept| := v.kept[0]] == (kept + v.kept) + queue0[j + 1..]
        && Pass(queue0, j + 1, now, env0) == Drained(kept + v.kept, v.env)
  {
    var v := Visit(queue0[j], now, client);
    Seam(kept, queue0, j, if v.kept == [] then queue0[j] else v.kept[0]);
    if v.kept == [] {
      AppendNothing(kept);
    }
  }

  /** The body of the loop of `processMessageQueue`, for the entry at `i`:
      it is visited, then erased in place when the visit drops it, or
      overwritten in place by what the visit keeps. `kept` and `j` track the
      pass over the original queue `queue0`. */
  method VisitAt(queue: seq<PendingMessage>, i: nat, now: nat, client: Env,
                 ghost queue0: seq<PendingMessage>, ghost j: nat, ghost env0: Env, ghost kept: seq<PendingMessage>)
    returns (queue': seq<PendingMessage>, i': nat, client': Env, ghost kept': seq<PendingMessage>)
    requires j < |queue0| && i == |kept| && queue == kept + queue0[j..]
    requires Pass(queue0, j, now, env0) == Drained(kept, client)
    ensures i' == |kept'| && queue' == kept' + queue0[j + 1..]
    ensures Pass(queue0, j + 1, now, env0) == Drained(kept', client')
  {
    PassAdvance(queue0, j, now, env0, queue, kept, client);
    var visited := Visit(queue[i], now, client);
    client' := visited.env;
    if visited.kept == [] {
      queue', i', kept' := queue[..i] + queue[i + 1..], i, kept;
    } else {
      queue', i', kept' := queue[i := visited.kept[0]], i + 1, kept + visited.kept;
    }
  }

  /** The loop of `processMessageQueue` over the queue and the client. */
  method RetryPass(queue0: seq<PendingMessage>, env0: Env, now: nat) returns (queue: seq<PendingMessage>, client: Env)
    ensures Drained(queue, client) == Drain(queue0, now, env0)
  {
    queue, client := queue0, env0;
    ghost var kept: seq<PendingMessage> := [];
    var i := 0;
    ghost var j := 0;
    while i < |queue|
      invariant 0 <= j <= |queue0| && i == |kept|
      invariant queue == kept + queue0[j..]
      invariant Pass(queue0, j, now, env0) == Drained(kept, client)
      decreases |queue0| - j
    {
      queue, i, client, kept := VisitAt(queue, i, now, client, queue0, j, env0, kept);
      j := j + 1;
    }
    assert queue == kept by {
      assert queue0[j..] == [];
      assert kept + [] == kept;
    }
  }

  // ------------------------------------------------------- property-set path

  /** The environment after one property was dispatched. */
  function Apply(env: Env, name: string, action: Action): Env {
    env.(trace := env.trace + [Dispatched(name, action)],
         led := if action.WritePin? then action.level else env.led)
  }

  /** Dispatching properties in order. */
  function DispatchAll(env: Env, params: seq<(string, JsonValue)>): Env
    decreases |params|
  {
    if params == [] then env
    else
      var (name, value) := params[|params| - 1];
      Apply(DispatchAll(env, params[..|params| - 1]), name, RouteValue(name, value))
  }

  /** The events dispatching `params` records. */
  function DispatchEvents(params: seq<(string, JsonValue)>): seq<Event>
    decreases |params|
  {
    if params == [] then []
    else
      var (name, value) := params[|params| - 1];
      DispatchEvents(params[..|params| - 1]) + [Dispatched(name, RouteValue(name, value))]
  }

  /** Dispatch records one event per property, in document order, each with
      its routed action, and sends nothing. */
  lemma {:induction false} DispatchAllRecords(env: Env, params: seq<(string, JsonValue)>)
    ensures DispatchAll(env, params).trace == env.trace + DispatchEvents(params)
    ensures DispatchAll(env, params).connected == env.connected
    ensures DispatchAll(env, params).outcomes == env.outcomes
    ensures |DispatchEvents(params)| == |params|
    ensures forall k :: 0 <= k < |params| ==>
      DispatchEvents(params)[k] == Dispatched(params[k].0, RouteValue(params[k].0, params[k].1))
    decreases |params|
  {
    if params != [] {
      DispatchAllRecords(env, params[..|params| - 1]);
    }
  }

  /** The reply a command gets. */
  function ReplyFor(cmd: Command, now: nat): Reply {
    var req := CommandReply(cmd);
    BuildReply(req.requestId, req.code, req.message, now)
  }

  /** `handlePropertySetCommand`: publish the reply (without queueing
      permission), then dispatch the command's properties. */
  function HandleSpec(s: MqttState, cmd: Command, now: nat): MqttState
    requires 0 <= s.retry <= ImmediateRetryLimit
  {
    var after := PublishSpec(s, SetReplyTopic, ReplyPayload(ReplyFor(cmd, now)), false, now).state;
    after.(env := DispatchAll(after.env, CommandParams(cmd)))
  }

  /** One reply is published for every command, before any property is
      dispatched: the new events are the reply's send attempts followed by
      one dispatch event per property in document order. While the link is
      up the reply is attempted at least once; while it is down the reply is
      dropped without an attempt. A parse error is
      answered 400 with the clock as id; a missing `params` 400 with the
      decoded id; anything else 200, and only then are properties dispatched. */
  lemma HandleRepliesFirst(s: MqttState, cmd: Command, now: nat)
    requires Wf(s)
    ensures var reply := ReplyFor(cmd, now);
      var r := HandleSpec(s, cmd, now);
      var p := PublishSpec(s, SetReplyTopic, ReplyPayload(reply), false, now).state;
      && Wf(r)
      && r.env.trace == p.env.trace + DispatchEvents(CommandParams(cmd))
      && |s.env.trace| <= |p.env.trace| <= |s.env.trace| + ImmediateRetryLimit + 1
      && (s.env.connected ==> |s.env.trace| < |p.env.trace|)
      && (!s.env.connected ==> p == s)
      && (forall k :: |s.env.trace| <= k < |p.env.trace| ==>
            p.env.trace[k].Sent? && p.env.trace[k].topic == SetReplyTopic
            && p.env.trace[k].payload == ReplyPayload(reply))
      && (cmd.ParseError? ==> reply.code == 400 && DigitsValue(reply.id) == now
                              && CommandParams(cmd) == [])
      && (cmd.Decoded? && cmd.params.None? ==>
            reply.code == 400 && CommandParams(cmd) == []
            && (cmd.id.GetOr([]) != [] ==> reply.id == cmd.id.value))
      && (cmd.Decoded? && cmd.params.Some? ==>
            reply.code == 200 && reply.data.value.result == SuccessMessage
            && CommandParams(cmd) == cmd.params.value)
  {
    var reply := ReplyFor(cmd, now);
    var req := CommandReply(cmd);
    var p := PublishSpec(s, SetReplyTopic, ReplyPayload(reply), false, now).state;
    PublishPreservesQueue(s, SetReplyTopic, ReplyPayload(reply), false, now);
    PublishSendsBounded(s, SetReplyTopic, ReplyPayload(reply), false, now);
    if !s.env.connected {
      PublishWhileDisconnected(s, SetReplyTopic, ReplyPayload(reply), false, now);
    }
    DispatchAllRecords(p.env, CommandParams(cmd));
    ReplyIdentity(req.requestId, req.code, req.message, now);
  }

  // ------------------------------------------------------------------ handler

  class MqttHandler {
    var messageQueue: seq<PendingMessage>
    var publishRetryCount: int
    var env: Env

    ghost function State(): MqttState
      reads this
    {
      MqttState(messageQueue, publishRetryCount, env)
    }

    ghost predicate Valid()
      reads this
    {
      Wf(State())
    }

    /** A handler with an empty queue and a zero counter over a client whose
        link state and send outcomes are given; the LED starts off (High). */
    constructor (connected: bool, outcomes: seq<SendOutcome>)
      ensures Valid()
      ensures messageQueue == [] && publishRetryCount == 0
      ensures env == Env(connected, outcomes, [], High)
    {
      messageQueue := [];
      publishRetryCount := 0;
      env := Env(connected, outcomes, [], High);
    }

    /** `getQueueSize`. */
    method GetQueueSize() returns (n: nat)
      ensures n == |messageQueue|
    {
      n := |messageQueue|;
    }

    /** `publish`; `queued` defaults to false as in the header. */
    method Publish(topic: string, payload: Payload, now: nat, queued: bool := false) returns (ok: bool)
      requires Valid()
      modifies this
      ensures Valid()
      ensures Published(ok, State()) == PublishSpec(old(State()), topic, payload, queued, now)
      decreases ImmediateRetryLimit - publishRetryCount
    {
      if !env.connected {
        if queued {
          if |messageQueue| >= MaxQueueSize {
            return false;
          }
          messageQueue := messageQueue + [PendingMessage(topic, payload, 0, now + OfflineQueueDelay)];
          return true;
        }
        return false;
      }
      var sent := Send(env, topic, payload);
      ok, env := sent.0, sent.1;
      if ok {
        publishRetryCount := 0;
      } else {
        if |messageQueue| < MaxQueueSize {
          messageQueue := messageQueue + [PendingMessage(topic, payload, 0, now + FailedSendQueueDelay)];
        }
        if publishRetryCount < ImmediateRetryLimit {
          publishRetryCount := publishRetryCount + 1;
          ok := Publish(topic, payload, now + ReattemptDelay, false);
          return;
        } else {
          publishRetryCount := 0;
        }
      }
    }

    /** `processMessageQueue`: one pass over the queue, erasing entries that
        were delivered or reached the retry ceiling. */
    method ProcessMessageQueue(now: nat)
      requires Valid()
      modifies this
      ensures Valid()
      ensures var r := Drain(old(messageQueue), now, old(env));
        messageQueue == r.kept && env == r.env && publishRetryCount == old(publishRetryCount)
    {
      if messageQueue == [] {
        return;
      }
      PassWellFormed(messageQueue, |messageQueue|, now, env);
      messageQueue, env := RetryPass(messageQueue, env, now);
    }

    /** `sendHeartbeat`: nothing when disconnected, else a default (never
        queued) publish of the heartbeat. */
    method SendHeartbeat(now: nat)
      requires Valid()
      modifies this
      ensures Valid()
      ensures !old(env.connected) ==> State() == old(State())
      ensures old(env.connected) ==>
        State() == PublishSpec(old(State()), PostTopic, HeartbeatPayload(DeviceId, "online", now), false, now).state
    {
      if !env.connected {
        return;
      }
      var _ := Publish(PostTopic, HeartbeatPayload(DeviceId, "online", now), now);
    }

    /** `sendPropertySetResponse`: build the reply and publish it to the
        set-reply topic with the default (no queueing) flag. */
    method SendPropertySetResponse(requestId: string, code: int, message: string, now: nat)
      requires Valid()
      modifies this
      ensures Valid()
      ensures State() == PublishSpec(old(State()), SetReplyTopic,
                                     ReplyPayload(BuildReply(requestId, code, message, now)), false, now).state
    {
      var reply := BuildReply(requestId, code, message, now);
      var _ := Publish(SetReplyTopic, ReplyPayload(reply), now);
    }

    /** `processPropertySetValue` with the handlers it calls: route the value
        and perform the action (only a pin write changes device state). */
    method ProcessPropertySetValue(name: string, value: JsonValue)
      modifies this
      ensures State() == old(State()).(env := Apply(old(env), name, RouteValue(name, value)))
    {
      var action := RouteValue(name, value);
      env := Apply(env, name, action);
    }

    /** `handlePropertySetCommand`. */
    method HandlePropertySetCommand(cmd: Command, now: nat)
      requires Valid()
      modifies this
      ensures Valid()
      ensures State() == HandleSpec(old(State()), cmd, now)
    {
      if cmd.ParseError? {
        SendPropertySetResponse([], 400, ParseFailureMessage, now);
        return;
      }
      var requestId := cmd.id.GetOr([]);
      if cmd.params.None? {
        SendPropertySetResponse(requestId, 400, MissingParamsMessage, now);
        return;
      }
      SendPropertySetResponse(requestId, 200, SuccessMessage, now);
      ghost var after := State();
      var params := cmd.params.value;
      var k := 0;
      while k < |params|
        invariant 0 <= k <= |params|
        invariant State() == after.(env := DispatchAll(after.env, params[..k]))
      {
        assert params[..k + 1][..k] == params[..k];
        ProcessPropertySetValue(params[k].0, params[k].1);
        k := k + 1;
      }
      assert params[..k] == params;
    }

    /** `mqttCallback`: truncate the payload, decode it, and handle it when it
        arrived on the set topic. */
    method MqttCallback(topic: string, payload: string, now: nat, decode: string -> Command)
      requires Valid()
      modifies this
      ensures Valid()
      ensures topic == SetTopic ==> State() == HandleSpec(old(State()), decode(TruncatePayload(payload)), now)
      ensures topic != SetTopic ==> State() == old(State())
    {
      var text := TruncatePayload(payload);
      if topic == SetTopic {
        HandlePropertySetCommand(decode(text), now);
      }
    }
  }
}
