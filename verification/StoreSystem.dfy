// Any number of clients, the bounded command channel and the actor, interleaved in every possible
// way. Every reachable state agrees with the sequential specification in StoreSpec.
module StoreSystem {
  import opened Wrappers
  import opened Tables
  import opened StoreSpec
  import opened StoreActor

  const CHANNEL_CAPACITY: nat := 100

  type ClientId = nat

  // A call whose command the channel has accepted. Its ticket is its index in channel order.
  datatype Call<!K, !V> = Call(client: ClientId, request: Request<K, V>, invokedAt: nat, enqueuedAt: nat)

  datatype Client<!K, !V> =
    | Idle
    | Sending(request: Request<K, V>, since: nat)    // suspended in channel.send
    | Awaiting(ticket: Ticket)                       // suspended on the oneshot receiver

  datatype Returned<K, V> = Returned(reply: Reply<K, V>, at: nat)

  datatype System<!K, !V(!new)> = System(
    codec: ValueCodec<V>,
    initial: map<K, V>,
    // the running system
    now: nat,
    handles: set<ClientId>,              // the clients that hold a clone of the Store
    clients: map<ClientId, Client<K, V>>,
    queue: seq<Command<K, V>>,
    actor: ActorState<K, V>,
    outbox: seq<Answer<K, V>>,
    ended: bool,                         // the receive loop has ended
    lost: set<Ticket>,                   // repliers that were dropped without an answer
    // its history
    calls: seq<Call<K, V>>,
    history: seq<Entry<K, V>>,
    processedAt: seq<nat>,
    received: map<Ticket, Returned<K, V>>)

  datatype Action<!K, !V> =
    | Invoke(client: ClientId, request: Request<K, V>)   // a client calls a method of its Store
    | Enqueue(client: ClientId)                          // the channel has room and takes the command
    | Process(outcome: Outcome)                          // the actor handles the oldest command
    | Receive(client: ClientId, reply: Reply<K, V>)      // the client's receiver yields its answer
    | Clone(client: ClientId, other: ClientId)           // a client gives another one a clone of its Store
    | Drop(client: ClientId)                             // a client drops its Store; a pending call keeps it
    | Finish                                             // the channel is empty and no Store is left: the loop ends

  ghost function ClientOf<K, V(!new)>(s: System<K, V>, c: ClientId): Client<K, V> {
    if c in s.clients then s.clients[c] else Idle
  }

  ghost predicate Enabled<K, V(!new)>(s: System<K, V>, a: Action<K, V>) {
    match a
    case Invoke(c, _) => c in s.handles && ClientOf(s, c).Idle?
    case Enqueue(c) => ClientOf(s, c).Sending? && |s.queue| < CHANNEL_CAPACITY
    case Process(_) => !s.ended && s.queue != [] && |s.history| < |s.calls|
    case Receive(c, reply) => ClientOf(s, c).Awaiting? && Answer(ClientOf(s, c).ticket, reply) in s.outbox
    case Clone(c, d) => c in s.handles && d !in s.handles
    case Drop(c) => c in s.handles && ClientOf(s, c).Idle?
    case Finish => !s.ended && s.handles == {} && s.queue == []
  }

  // Every replier that a map of queues holds.
  function ParkedTickets<K>(q: Queues<K>): set<Ticket> {
    set k, t | k in q && t in q[k] :: t
  }

  ghost function Next<K, V(!new)>(s: System<K, V>, a: Action<K, V>): System<K, V>
    requires Enabled(s, a)
  {
    match a
    case Invoke(c, r) =>
      s.(now := s.now + 1, clients := s.clients[c := Sending(r, s.now)])
    case Enqueue(c) =>
      var r := ClientOf(s, c).request;
      var t := |s.calls|;
      s.(now := s.now + 1,
         clients := s.clients[c := if r.WantsReply() then Awaiting(t) else Idle],
         queue := s.queue + [ToCommand(r, t)],
         calls := s.calls + [Call(c, r, ClientOf(s, c).since, s.now)])
    case Process(out) =>
      var (actor, answers) := Step(s.codec, s.actor, s.queue[0], out);
      s.(now := s.now + 1,
         queue := s.queue[1..],
         actor := actor,
         outbox := s.outbox + answers,
         history := s.history + [Entry(s.calls[|s.history|].request, out)],
         processedAt := s.processedAt + [s.now])
    case Receive(c, reply) =>
      s.(now := s.now + 1,
         clients := s.clients[c := Idle],
         received := s.received[ClientOf(s, c).ticket := Returned(reply, s.now)])
    case Clone(_, d) => s.(handles := s.handles + {d})
    case Drop(c) => s.(handles := s.handles - {c})
    case Finish =>
      // the task ends and drops its obligations
      s.(ended := true, actor := s.actor.(obligations := map[]), lost := s.lost + ParkedTickets(s.actor.obligations))
  }

  function Start<K, V(!new)>(codec: ValueCodec<V>, initial: map<K, V>): System<K, V> {
    System(codec, initial, 0, {0}, map[], [], ActorState(initial, map[]), [], false, {}, [], [], [], map[])
  }

  // The state after a run, if every action of the run is enabled where it is taken.
  ghost function After<K, V(!new)>(s: System<K, V>, run: seq<Action<K, V>>): Option<System<K, V>> {
    if run == [] then Some(s) else
      match After(s, run[..|run| - 1])
      case None => None
      case Some(mid) => if Enabled(mid, run[|run| - 1]) then Some(Next(mid, run[|run| - 1])) else None
  }

  ghost predicate Reachable<K, V(!new)>(
      codec: ValueCodec<V>, initial: map<K, V>, run: seq<Action<K, V>>, s: System<K, V>)
  {
    After(Start(codec, initial), run) == Some(s)
  }

  // ----- Invariants -----

  // The channel holds the accepted calls that the actor has not handled, in order.
  ghost predicate ChannelInv<K, V(!new)>(s: System<K, V>) {
    && |s.calls| == |s.history| + |s.queue|
    && |s.queue| <= CHANNEL_CAPACITY
    && (forall i :: 0 <= i < |s.queue| ==> s.queue[i] == ToCommand(s.calls[|s.history| + i].request, |s.history| + i))
    && (forall i :: 0 <= i < |s.history| ==> s.history[i].request == s.calls[i].request)
  }

  // The table and the waiter queues are those of the specification.
  ghost predicate ActorInv<K(!new), V(!new)>(initial: map<K, V>, actor: ActorState<K, V>, h: seq<Entry<K, V>>) {
    && actor.table == TableAfter(initial, h)
    && (forall k :: QueueOf(actor.obligations, k) == Waiters(initial, h, k))
    && (forall k :: k in actor.obligations ==> actor.obligations[k] != [])
  }

  // The messages sent are the verdicts on the settled calls, one each.
  ghost predicate OutboxInv<K, V(!new)>(
      codec: ValueCodec<V>, initial: map<K, V>, h: seq<Entry<K, V>>, outbox: seq<Answer<K, V>>)
  {
    && (forall x :: 0 <= x < |outbox| ==> Verdict(codec, initial, h, outbox[x].ticket) == Some(outbox[x].reply))
    && (forall t: nat :: t < |h| && Verdict(codec, initial, h, t).Some? ==>
         Answer(t, Verdict(codec, initial, h, t).value) in outbox)
    && (forall x, y :: 0 <= x < y < |outbox| ==> outbox[x].ticket != outbox[y].ticket)
  }

  ghost predicate ClockInv<K, V(!new)>(s: System<K, V>) {
    && |s.processedAt| == |s.history| <= |s.calls|
    && (forall i :: 0 <= i < |s.calls| ==> s.calls[i].invokedAt < s.calls[i].enqueuedAt < s.now)
    && (forall i, j :: 0 <= i < j < |s.calls| ==> s.calls[i].enqueuedAt < s.calls[j].enqueuedAt)
    && (forall i :: 0 <= i < |s.history| ==> s.calls[i].enqueuedAt < s.processedAt[i] < s.now)
    && (forall i, j :: 0 <= i < j < |s.history| ==> s.processedAt[i] < s.processedAt[j])
  }

  // When call t has come back to its client before the given time.
  ghost predicate EndedBefore<K, V(!new)>(s: System<K, V>, t: nat, time: nat)
    requires t < |s.calls|
  {
    if s.calls[t].request.WantsReply() then t in s.received && s.received[t].at < time
    else s.calls[t].enqueuedAt < time
  }

  ghost predicate InProgressOrEnded<K, V(!new)>(s: System<K, V>, t: nat)
    requires t < |s.calls|
  {
    var c := ClientOf(s, s.calls[t].client);
    (c.Awaiting? && c.ticket == t) || EndedBefore(s, t, if c.Sending? then c.since else s.now)
  }

  ghost predicate ReturnsInv<K, V(!new)>(s: System<K, V>) {
    forall t :: t in s.received ==>
      && t < |s.calls| && s.calls[t].request.WantsReply()
      && Answer(t, s.received[t].reply) in s.outbox
      && s.received[t].at < s.now
      && (forall i :: 0 <= i < |s.processedAt| && Settler(s.initial, s.history, t) == Some(i) ==>
           s.processedAt[i] < s.received[t].at)
  }

  // A client has at most one call in progress, and its calls follow one another.
  ghost predicate ClientInv<K, V(!new)>(s: System<K, V>) {
    && (forall c :: ClientOf(s, c).Sending? ==> ClientOf(s, c).since < s.now)
    && (forall c :: ClientOf(s, c).Awaiting? ==>
          var t := ClientOf(s, c).ticket;
          t < |s.calls| && s.calls[t].client == c && s.calls[t].request.WantsReply() && t !in s.received)
    && (forall t :: 0 <= t < |s.calls| ==> InProgressOrEnded(s, t))
    && (forall a, b :: 0 <= a < b < |s.calls| && s.calls[a].client == s.calls[b].client ==>
         EndedBefore(s, a, s.calls[b].invokedAt))
  }

  // A client with a call in progress holds its Store, and the loop outlives every Store.
  ghost predicate HandleInv<K, V(!new)>(s: System<K, V>) {
    && (forall c :: !ClientOf(s, c).Idle? ==> c in s.handles)
    && (s.ended ==> s.handles == {} && s.queue == [])
    && s.lost == {}
  }

  ghost predicate Inv<K(!new), V(!new)>(s: System<K, V>) {
    && ChannelInv(s)
    && ActorInv(s.initial, s.actor, s.history)
    && OutboxInv(s.codec, s.initial, s.history, s.outbox)
    && ClockInv(s) && ReturnsInv(s) && ClientInv(s) && HandleInv(s)
  }

  // ----- One step of the actor matches the specification -----

  ghost function OwnAnswer<K, V(!new)>(
      codec: ValueCodec<V>, table: map<K, V>, e: Entry<K, V>, t: Ticket): seq<Answer<K, V>>
  {
    if !e.request.WantsReply() then []
    else if !e.request.NotifyRead? then [Answer(t, SequentialReply(codec, table, e))]
    else if Hit(table, e) then [Answer(t, Found(Ok(Lookup(table, e.request.key))))]
    else []
  }

  lemma ReleaseNothing<K, V>(q: Queues<K>, reply: Reply<K, V>)
    ensures Drained(q, []) == [] && DropAll(q, []) == q && AnswerEach([], reply) == []
  {
  }

  lemma StepMatchesSpec<K(!new), V(!new)>(codec: ValueCodec<V>, st: ActorState<K, V>, e: Entry<K, V>, t: Ticket)
    ensures var (st', answers) := Step(codec, st, ToCommand(e.request, t), e.outcome);
            && st'.table == Effect(st.table, e)
            && answers == AnswerEach(Drained(st.obligations, ReleaseKeys(e)), Found(Ok(ReleaseValue(e))))
                          + OwnAnswer(codec, st.table, e, t)
            && st'.obligations ==
               (if e.request.NotifyRead? && !Hit(st.table, e) then Park(st.obligations, e.request.key, t)
                else DropAll(st.obligations, ReleaseKeys(e)))
  {
    hide PutAll, DropAll, Drained, AnswerEach, LookupAll, Filtered;
    ReleaseNothing<K, V>(st.obligations, Found(Ok(ReleaseValue(e))));
    var released := AnswerEach<K, V>(Drained(st.obligations, ReleaseKeys(e)), Found(Ok(ReleaseValue(e))));
    assert released + [] == released;
    assert forall a: Answer<K, V> :: [] + [a] == [a];
    if e.outcome.Success? {
      match e.request {
        case AsyncWrite(_, _) =>
        case SyncWrite(_, _) =>
        case SyncWriteAll(_) =>
        case Remove(_) =>
        case RemoveAll(_) =>
        case NotifyRead(_) =>
        case _ =>
      }
    }
  }

  lemma QueueAfterDrop<K>(q: Queues<K>, keys: seq<K>, k: K)
    ensures QueueOf(DropAll(q, keys), k) == if k in keys then [] else QueueOf(q, k)
    ensures k in DropAll(q, keys) <==> k in q && k !in keys
  {
    DropAllKeys(q, keys);
  }

  lemma TableNext<K, V>(initial: map<K, V>, h: seq<Entry<K, V>>, e: Entry<K, V>)
    ensures TableAfter(initial, h + [e]) == Effect(TableAfter(initial, h), e)
  {
    assert (h + [e])[..|h|] == h;
  }

  lemma WaitersNext<K, V>(initial: map<K, V>, h: seq<Entry<K, V>>, e: Entry<K, V>, k: K)
    ensures Waiters(initial, h + [e], k) ==
            if k in ReleaseKeys(e) then []
            else if Misses(TableAfter(initial, h), e, k) then Waiters(initial, h, k) + [|h|]
            else Waiters(initial, h, k)
  {
    assert (h + [e])[..|h|] == h;
  }

  lemma ActorStep<K(!new), V(!new)>(
      codec: ValueCodec<V>, initial: map<K, V>, h: seq<Entry<K, V>>, st: ActorState<K, V>, e: Entry<K, V>)
    requires ActorInv(initial, st, h)
    ensures ActorInv(initial, Step(codec, st, ToCommand(e.request, |h|), e.outcome).0, h + [e])
  {
    hide Step, DropAll, Effect, Waiters, TableAfter;
    StepMatchesSpec(codec, st, e, |h|);
    var st' := Step(codec, st, ToCommand(e.request, |h|), e.outcome).0;
    forall k ensures QueueOf(st'.obligations, k) == Waiters(initial, h + [e], k)
             ensures k in st'.obligations ==> st'.obligations[k] != [] {
      QueueAfterDrop(st.obligations, ReleaseKeys(e), k);
      WaitersNext(initial, h, e, k);
    }
    TableNext(initial, h, e);
  }

  // ----- Draining -----

  lemma {:induction false} DrainedMembers<K>(q: Queues<K>, keys: seq<K>, t: Ticket)
    ensures t in Drained(q, keys) <==> exists k :: k in keys && t in QueueOf(q, k)
    decreases |keys|
  {
    if keys != [] {
      DrainedMembers(q - {keys[0]}, keys[1..], t);
      assert forall k :: k != keys[0] ==> QueueOf(q - {keys[0]}, k) == QueueOf(q, k);
      assert keys == [keys[0]] + keys[1..];
    }
  }

  predicate NoRepeats(s: seq<Ticket>) {
    forall i, j :: 0 <= i < j < |s| ==> s[i] != s[j]
  }

  ghost predicate DisjointQueues<K(!new)>(q: Queues<K>) {
    && (forall k :: k in q ==> NoRepeats(q[k]))
    && (forall k, k', t :: k in q && k' in q && t in q[k] && t in q[k'] ==> k == k')
  }

  lemma {:induction false} DrainedNoRepeats<K(!new)>(q: Queues<K>, keys: seq<K>)
    requires DisjointQueues(q)
    ensures NoRepeats(Drained(q, keys))
    decreases |keys|
  {
    if keys != [] {
      var q', d := q - {keys[0]}, QueueOf(q, keys[0]);
      DrainedNoRepeats(q', keys[1..]);
      var rest := Drained(q', keys[1..]);
      forall i, j | 0 <= i < |d| && 0 <= j < |rest| ensures d[i] != rest[j] {
        assert rest[j] in rest && d[i] in d;
        DrainedMembers(q', keys[1..], rest[j]);
        var k :| k in keys[1..] && rest[j] in QueueOf(q', k);
      }
    }
  }

  ghost predicate Increasing(s: seq<Ticket>) {
    forall i, j :: 0 <= i < j < |s| ==> s[i] < s[j]
  }

  ghost predicate InParkingOrder<K(!new)>(q: Queues<K>, released: seq<Ticket>) {
    forall i, j, k :: 0 <= i < j < |released| && k in q && released[i] in q[k] && released[j] in q[k] ==>
        released[i] < released[j]
  }

  // Waiters of one key are released in the order in which they were parked.
  lemma {:induction false} DrainedInOrder<K(!new)>(q: Queues<K>, keys: seq<K>)
    requires DisjointQueues(q) && forall k :: k in q ==> Increasing(q[k])
    ensures InParkingOrder(q, Drained(q, keys))
    decreases |keys|
  {
    if keys != [] {
      var q', d := q - {keys[0]}, QueueOf(q, keys[0]);
      var rest := Drained(q', keys[1..]);
      DrainedInOrder(q', keys[1..]);
      forall j, k | 0 <= j < |rest| && k in q && rest[j] in q[k] ensures k in q' {
        assert rest[j] in rest;
        DrainedMembers(q', keys[1..], rest[j]);
      }
      var all := d + rest;
      forall i, j, k | 0 <= i < j < |all| && k in q && all[i] in q[k] && all[j] in q[k] ensures all[i] < all[j] {
        if j < |d| {
          assert all[i] in d && k == keys[0];
        } else {
          assert k in q' && all[j] == rest[j - |d|];
          if i < |d| {
            assert false;
          }
          assert all[i] == rest[i - |d|];
        }
      }
    }
  }

  lemma WaitersAreDisjoint<K(!new), V(!new)>(initial: map<K, V>, h: seq<Entry<K, V>>, st: ActorState<K, V>)
    requires ActorInv(initial, st, h)
    ensures DisjointQueues(st.obligations) && forall k :: k in st.obligations ==> Increasing(st.obligations[k])
  {
    forall k | k in st.obligations
      ensures Increasing(st.obligations[k])
      ensures NoRepeats(st.obligations[k])
      ensures forall t :: t in st.obligations[k] ==> t < |h| && h[t].request == NotifyRead(k)
    {
      assert st.obligations[k] == QueueOf(st.obligations, k);
      WaitersAreUnsettled(initial, h, k);
    }
  }

  // ----- The outbox -----

  // Every message of a step is the verdict on its ticket, which no earlier message answered.
  lemma NewAnswersAreVerdicts<K(!new), V(!new)>(
      codec: ValueCodec<V>, initial: map<K, V>, h: seq<Entry<K, V>>, st: ActorState<K, V>, e: Entry<K, V>,
      a: Answer<K, V>)
    requires ActorInv(initial, st, h)
    requires a in Step(codec, st, ToCommand(e.request, |h|), e.outcome).1
    ensures Verdict(codec, initial, h, a.ticket).None?
    ensures Verdict(codec, initial, h + [e], a.ticket) == Some(a.reply)
  {
    StepMatchesSpec(codec, st, e, |h|);
    var h' := h + [e];
    assert h'[..|h|] == h;
    if a !in OwnAnswer(codec, st.table, e, |h|) {
      var t := a.ticket;
      DrainedMembers(st.obligations, ReleaseKeys(e), t);
      var k :| k in ReleaseKeys(e) && t in QueueOf(st.obligations, k);
      WaitersAreUnsettled(initial, h, k);
      SettlerExtends(initial, h, e, t);
      assert h'[..t] == h[..t];
    }
  }

  // A call that a step settles is answered by the step.
  lemma NewVerdictsAreAnswered<K(!new), V(!new)>(
      codec: ValueCodec<V>, initial: map<K, V>, h: seq<Entry<K, V>>, st: ActorState<K, V>, e: Entry<K, V>, t: nat)
    requires ActorInv(initial, st, h)
    requires t <= |h| && Verdict(codec, initial, h, t).None? && Verdict(codec, initial, h + [e], t).Some?
    ensures Answer(t, Verdict(codec, initial, h + [e], t).value) in
            Step(codec, st, ToCommand(e.request, |h|), e.outcome).1
  {
    StepMatchesSpec(codec, st, e, |h|);
    var h' := h + [e];
    assert h'[..|h|] == h;
    if t < |h| {
      assert h'[..t] == h[..t];
      SettlerExtends(initial, h, e, t);
      var k := h[t].request.key;
      WaitersAreUnsettled(initial, h, k);
      assert t in QueueOf(st.obligations, k);
      DrainedMembers(st.obligations, ReleaseKeys(e), t);
      var released, reply := Drained(st.obligations, ReleaseKeys(e)), Reply<K, V>.Found(Ok(ReleaseValue(e)));
      var i :| 0 <= i < |released| && released[i] == t;
      assert AnswerEach<K, V>(released, reply)[i] == Answer(t, reply);
    } else {
      assert OwnAnswer(codec, st.table, e, t) == [Answer(t, Verdict(codec, initial, h', t).value)];
    }
  }

  lemma StepAnswersNoRepeats<K(!new), V(!new)>(
      codec: ValueCodec<V>, initial: map<K, V>, h: seq<Entry<K, V>>, st: ActorState<K, V>, e: Entry<K, V>)
    requires ActorInv(initial, st, h)
    ensures var answers := Step(codec, st, ToCommand(e.request, |h|), e.outcome).1;
            forall x, y :: 0 <= x < y < |answers| ==> answers[x].ticket != answers[y].ticket
  {
    StepMatchesSpec(codec, st, e, |h|);
    WaitersAreDisjoint(initial, h, st);
    DrainedNoRepeats(st.obligations, ReleaseKeys(e));
    var released := Drained(st.obligations, ReleaseKeys(e));
    forall i | 0 <= i < |released| ensures released[i] < |h| {
      assert released[i] in released;
      DrainedMembers(st.obligations, ReleaseKeys(e), released[i]);
      var k :| k in ReleaseKeys(e) && released[i] in QueueOf(st.obligations, k);
      WaitersAreUnsettled(initial, h, k);
    }
  }

  lemma OutboxStep<K(!new), V(!new)>(
      codec: ValueCodec<V>, initial: map<K, V>, h: seq<Entry<K, V>>, st: ActorState<K, V>, e: Entry<K, V>,
      outbox: seq<Answer<K, V>>)
    requires ActorInv(initial, st, h) && OutboxInv(codec, initial, h, outbox)
    ensures OutboxInv(codec, initial, h + [e], outbox + Step(codec, st, ToCommand(e.request, |h|), e.outcome).1)
  {
    hide Step, ActorInv, Verdict;
    var answers := Step(codec, st, ToCommand(e.request, |h|), e.outcome).1;
    var outbox', h' := outbox + answers, h + [e];
    StepAnswersNoRepeats(codec, initial, h, st, e);
    forall x | 0 <= x < |outbox'|
      ensures Verdict(codec, initial, h', outbox'[x].ticket) == Some(outbox'[x].reply)
      ensures x >= |outbox| ==> Verdict(codec, initial, h, outbox'[x].ticket).None?
    {
      if x < |outbox| {
        VerdictIsInHistory(codec, initial, h, outbox[x].ticket);
        VerdictExtends(codec, initial, h, e, outbox[x].ticket);
      } else {
        assert answers[x - |outbox|] in answers;
        NewAnswersAreVerdicts(codec, initial, h, st, e, answers[x - |outbox|]);
      }
    }
    forall t: nat | t < |h'| && Verdict(codec, initial, h', t).Some?
      ensures Answer(t, Verdict(codec, initial, h', t).value) in outbox'
    {
      if Verdict(codec, initial, h, t).Some? {
        VerdictIsInHistory(codec, initial, h, t);
        VerdictExtends(codec, initial, h, e, t);
      } else {
        NewVerdictsAreAnswered(codec, initial, h, st, e, t);
      }
    }
  }

  lemma VerdictIsInHistory<K, V(!new)>(codec: ValueCodec<V>, initial: map<K, V>, h: seq<Entry<K, V>>, t: nat)
    requires Verdict(codec, initial, h, t).Some?
    ensures t < |h| && h[t].request.WantsReply()
  {
  }

  // ----- Every action keeps the invariant -----

  lemma AnsweredIsSettled<K(!new), V(!new)>(s: System<K, V>, a: Answer<K, V>)
    requires OutboxInv(s.codec, s.initial, s.history, s.outbox) && a in s.outbox
    ensures a.ticket < |s.history| && s.history[a.ticket].request.WantsReply()
    ensures Settler(s.initial, s.history, a.ticket).Some?
  {
    var x :| 0 <= x < |s.outbox| && s.outbox[x] == a;
    VerdictIsInHistory(s.codec, s.initial, s.history, a.ticket);
  }

  // Calls that had ended have still ended once calls and returns have been added.
  lemma EndedStays<K, V(!new)>(s: System<K, V>, s': System<K, V>, t: nat, time: nat)
    requires t < |s.calls| && s.calls <= s'.calls && EndedBefore(s, t, time)
    requires t in s.received ==> t in s'.received && s'.received[t] == s.received[t]
    ensures EndedBefore(s', t, time)
  {
  }

  lemma ProcessKeepsInv<K(!new), V(!new)>(s: System<K, V>, out: Outcome)
    requires Inv(s) && Enabled(s, Process(out))
    ensures Inv(Next(s, Process(out)))
  {
    hide HandleInv, ActorInv, OutboxInv, ClientInv, ReturnsInv, Step, ToCommand;
    KeepsHandles(s, Process(out));
    var s' := Next(s, Process(out));
    var h, e := s.history, Entry(s.calls[|s.history|].request, out);
    ActorStep(s.codec, s.initial, h, s.actor, e);
    OutboxStep(s.codec, s.initial, h, s.actor, e, s.outbox);
    assert s.queue[0] == ToCommand(e.request, |h|);
    ProcessKeepsReturns(s, out);
    ProcessKeepsClients(s, out);
  }

  lemma ProcessKeepsReturns<K(!new), V(!new)>(s: System<K, V>, out: Outcome)
    requires OutboxInv(s.codec, s.initial, s.history, s.outbox) && ReturnsInv(s) && ClockInv(s)
    requires Enabled(s, Process(out))
    ensures ReturnsInv(Next(s, Process(out)))
  {
    hide Step, TableAfter, Settler, Verdict, OutboxInv;
    var s' := Next(s, Process(out));
    var h, e := s.history, Entry(s.calls[|s.history|].request, out);
    forall t | t in s.received
      ensures Settler(s.initial, s'.history, t) == Settler(s.initial, s.history, t) && Settler(s.initial, h, t).Some? {
      AnsweredIsSettled(s, Answer(t, s.received[t].reply));
      SettlerExtends(s.initial, h, e, t);
    }
  }

  lemma ProcessKeepsClients<K(!new), V(!new)>(s: System<K, V>, out: Outcome)
    requires ClientInv(s) && Enabled(s, Process(out))
    ensures ClientInv(Next(s, Process(out)))
  {
    hide Step;
    var s' := Next(s, Process(out));
    assert forall d :: ClientOf(s', d) == ClientOf(s, d);
    forall t | 0 <= t < |s.calls| ensures InProgressOrEnded(s', t) {
      assert InProgressOrEnded(s, t);
    }
    forall a, b | 0 <= a < b < |s.calls| && s.calls[a].client == s.calls[b].client
      ensures EndedBefore(s', a, s.calls[b].invokedAt) {
      EndedStays(s, s', a, s.calls[b].invokedAt);
    }
  }

  lemma InvokeKeepsInv<K(!new), V(!new)>(s: System<K, V>, c: ClientId, r: Request<K, V>)
    requires Inv(s) && Enabled(s, Invoke(c, r))
    ensures Inv(Next(s, Invoke(c, r)))
  {
    hide HandleInv, ActorInv, OutboxInv, ClientInv, Settler;
    KeepsHandles(s, Invoke(c, r));
    InvokeKeepsClients(s, c, r);
  }

  lemma InvokeKeepsClients<K(!new), V(!new)>(s: System<K, V>, c: ClientId, r: Request<K, V>)
    requires ClientInv(s) && Enabled(s, Invoke(c, r))
    ensures ClientInv(Next(s, Invoke(c, r)))
  {
    var s' := Next(s, Invoke(c, r));
    assert forall d :: ClientOf(s', d) == if d == c then Sending(r, s.now) else ClientOf(s, d);
    forall t | 0 <= t < |s.calls| ensures InProgressOrEnded(s', t) {
      assert InProgressOrEnded(s, t);
    }
    forall a, b | 0 <= a < b < |s.calls| && s.calls[a].client == s.calls[b].client
      ensures EndedBefore(s', a, s.calls[b].invokedAt) {
      EndedStays(s, s', a, s.calls[b].invokedAt);
    }
  }

  lemma EnqueueKeepsInv<K(!new), V(!new)>(s: System<K, V>, c: ClientId)
    requires Inv(s) && Enabled(s, Enqueue(c))
    ensures Inv(Next(s, Enqueue(c)))
  {
    hide HandleInv, ActorInv, OutboxInv, ClientInv, Settler, ToCommand;
    KeepsHandles(s, Enqueue(c));
    SendingSince(s, c);
    EnqueueKeepsClients(s, c);
    assert ReturnsInv(Next(s, Enqueue(c)));
  }

  lemma SendingSince<K, V(!new)>(s: System<K, V>, c: ClientId)
    requires ClientInv(s) && ClientOf(s, c).Sending?
    ensures ClientOf(s, c).since < s.now
  {
  }

  lemma EnqueueKeepsClients<K(!new), V(!new)>(s: System<K, V>, c: ClientId)
    requires ClientInv(s) && ReturnsInv(s) && ClockInv(s) && Enabled(s, Enqueue(c))
    ensures ClientInv(Next(s, Enqueue(c)))
  {
    hide Settler;
    var s' := Next(s, Enqueue(c));
    var n := |s.calls|;
    assert forall d :: d != c ==> ClientOf(s', d) == ClientOf(s, d);
    forall t | 0 <= t < n
      ensures InProgressOrEnded(s', t)
      ensures s.calls[t].client == c ==> EndedBefore(s', t, s'.calls[n].invokedAt)
    {
      assert InProgressOrEnded(s, t);
    }
    assert InProgressOrEnded(s', n);
    forall a, b | 0 <= a < b < |s'.calls| && s'.calls[a].client == s'.calls[b].client
      ensures EndedBefore(s', a, s'.calls[b].invokedAt)
    {
      if b < n {
        EndedStays(s, s', a, s.calls[b].invokedAt);
      }
    }
  }

  lemma ReceiveKeepsInv<K(!new), V(!new)>(s: System<K, V>, c: ClientId, reply: Reply<K, V>)
    requires Inv(s) && Enabled(s, Receive(c, reply))
    ensures Inv(Next(s, Receive(c, reply)))
  {
    hide HandleInv, ActorInv, OutboxInv, ClientInv, Settler;
    KeepsHandles(s, Receive(c, reply));
    ReceiveAwaits(s, c);
    ReceiveKeepsClients(s, c, reply);
    assert ReturnsInv(Next(s, Receive(c, reply)));
  }

  lemma ReceiveAwaits<K, V(!new)>(s: System<K, V>, c: ClientId)
    requires ClientInv(s) && ClientOf(s, c).Awaiting?
    ensures var t := ClientOf(s, c).ticket;
            t < |s.calls| && s.calls[t].request.WantsReply() && t !in s.received
  {
  }

  lemma ReceiveKeepsClients<K(!new), V(!new)>(s: System<K, V>, c: ClientId, reply: Reply<K, V>)
    requires ClientInv(s) && Enabled(s, Receive(c, reply))
    ensures ClientInv(Next(s, Receive(c, reply)))
  {
    var s' := Next(s, Receive(c, reply));
    assert forall d :: ClientOf(s', d) == if d == c then Idle else ClientOf(s, d);
    forall t | 0 <= t < |s.calls| ensures InProgressOrEnded(s', t) {
      assert InProgressOrEnded(s, t);
    }
    forall a, b | 0 <= a < b < |s.calls| && s.calls[a].client == s.calls[b].client
      ensures EndedBefore(s', a, s.calls[b].invokedAt) {
      EndedStays(s, s', a, s.calls[b].invokedAt);
    }
  }

  lemma KeepsHandles<K, V(!new)>(s: System<K, V>, a: Action<K, V>)
    requires HandleInv(s) && Enabled(s, a) && !a.Finish?
    ensures HandleInv(Next(s, a))
  {
    hide Step, ToCommand;
    var s' := Next(s, a);
    if a.Invoke? || a.Enqueue? || a.Receive? {
      assert forall d :: d != a.client ==> ClientOf(s', d) == ClientOf(s, d);
    } else {
      assert forall d :: ClientOf(s', d) == ClientOf(s, d);
    }
  }

  lemma HandingKeepsInv<K(!new), V(!new)>(s: System<K, V>, a: Action<K, V>)
    requires Inv(s) && Enabled(s, a) && (a.Clone? || a.Drop?)
    ensures Inv(Next(s, a))
  {
    hide Inv;
    OnlyHandlesChange(s, a);
    NewHandlesKeepInv(s, Next(s, a));
  }

  lemma OnlyHandlesChange<K(!new), V(!new)>(s: System<K, V>, a: Action<K, V>)
    requires Inv(s) && Enabled(s, a) && (a.Clone? || a.Drop?)
    ensures Next(s, a) == s.(handles := Next(s, a).handles) && HandleInv(Next(s, a))
  {
    hide HandleInv, ChannelInv, ActorInv, OutboxInv, ClockInv, ReturnsInv, ClientInv;
    KeepsHandles(s, a);
  }

  lemma NewHandlesKeepInv<K(!new), V(!new)>(s: System<K, V>, s': System<K, V>)
    requires Inv(s) && s' == s.(handles := s'.handles) && HandleInv(s')
    ensures Inv(s')
  {
    hide HandleInv, ActorInv, OutboxInv, ClientInv, Settler;
    KeepsClients(s, s');
    assert ReturnsInv(s');
  }

  lemma KeepsClients<K, V(!new)>(s: System<K, V>, s': System<K, V>)
    requires ClientInv(s) && s'.clients == s.clients && s'.calls == s.calls && s'.received == s.received
    requires s'.now == s.now
    ensures ClientInv(s')
  {
    assert forall d :: ClientOf(s', d) == ClientOf(s, d);
    forall t | 0 <= t < |s.calls| ensures InProgressOrEnded(s', t) {
      assert InProgressOrEnded(s, t);
    }
    forall a, b | 0 <= a < b < |s.calls| && s.calls[a].client == s.calls[b].client
      ensures EndedBefore(s', a, s.calls[b].invokedAt) {
      EndedStays(s, s', a, s.calls[b].invokedAt);
    }
  }

  // When no client has a call in progress, no replier is parked.
  lemma IdleClientsLeaveNoWaiter<K(!new), V(!new)>(s: System<K, V>)
    requires Inv(s) && forall c :: ClientOf(s, c).Idle?
    ensures s.actor.obligations == map[]
  {
    hide Settler, Verdict, Waiters;
    if k :| k in s.actor.obligations {
      var t := s.actor.obligations[k][0];
      assert t in QueueOf(s.actor.obligations, k);
      WaitersAreUnsettled(s.initial, s.history, k);
      assert InProgressOrEnded(s, t);
      AnsweredIsSettled(s, Answer(t, s.received[t].reply));
    }
  }

  lemma FinishKeepsInv<K(!new), V(!new)>(s: System<K, V>)
    requires Inv(s) && Enabled(s, Finish)
    ensures Inv(Next(s, Finish))
  {
    hide ActorInv, OutboxInv, ClientInv, Settler;
    assert HandleInv(s);
    IdleClientsLeaveNoWaiter(s);
    var s' := Next(s, Finish);
    assert s'.actor == s.actor;
    KeepsClients(s, s');
    assert ReturnsInv(s');
    assert forall d :: ClientOf(s', d) == ClientOf(s, d);
  }

  // Every reachable state satisfies the invariant.
  lemma {:induction false} ReachableStatesAreConsistent<K(!new), V(!new)>(
      codec: ValueCodec<V>, initial: map<K, V>, run: seq<Action<K, V>>, s: System<K, V>)
    requires Reachable(codec, initial, run, s)
    ensures Inv(s) && s.codec == codec && s.initial == initial
    decreases |run|
  {
    if run != [] {
      var mid := After(Start(codec, initial), run[..|run| - 1]).value;
      ReachableStatesAreConsistent(codec, initial, run[..|run| - 1], mid);
      hide Inv;
      match run[|run| - 1] {
        case Invoke(c, r) => InvokeKeepsInv(mid, c, r);
        case Enqueue(c) => EnqueueKeepsInv(mid, c);
        case Process(out) => ProcessKeepsInv(mid, out);
        case Receive(c, reply) => ReceiveKeepsInv(mid, c, reply);
        case Clone(_, _) => HandingKeepsInv(mid, run[|run| - 1]);
        case Drop(_) => HandingKeepsInv(mid, run[|run| - 1]);
        case Finish => FinishKeepsInv(mid);
      }
    }
  }
}
