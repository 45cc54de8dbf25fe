// What the clients of a Store can rely on, for every run: any number of clients, any interleaving,
// any choice of failing database calls.
module StoreTheorems {
  import opened Wrappers
  import opened Tables
  import opened StoreSpec
  import opened StoreActor
  import opened StoreSystem

  // ----- Linearizability -----

  // A reply that has come back is the reply of the sequential map at the call's position in channel
  // order, and the call took effect after it was made and before it came back. A notify_read comes
  // back with its verdict, after the request that settles it.
  lemma RepliesAreSequential<K(!new), V(!new)>(
      codec: ValueCodec<V>, initial: map<K, V>, run: seq<Action<K, V>>, s: System<K, V>, t: Ticket)
    requires Reachable(codec, initial, run, s) && t in s.received
    ensures t < |s.history| <= |s.calls| && |s.processedAt| == |s.history| && s.history[t].request == s.calls[t].request
    ensures s.calls[t].request.WantsReply()
    ensures s.calls[t].invokedAt < s.calls[t].enqueuedAt < s.processedAt[t] < s.received[t].at
    ensures !s.calls[t].request.NotifyRead? ==>
              s.received[t].reply == SequentialReply(codec, TableAfter(initial, s.history[..t]), s.history[t])
    ensures s.calls[t].request.NotifyRead? ==>
              && Settler(initial, s.history, t).Some?
              && Verdict(codec, initial, s.history, t) == Some(s.received[t].reply)
              && s.processedAt[t] <= s.processedAt[Settler(initial, s.history, t).value] < s.received[t].at
  {
    ReachableStatesAreConsistent(codec, initial, run, s);
    AnsweredIsSettled(s, Answer(t, s.received[t].reply));
    VerdictOfAnswer(s, Answer(t, s.received[t].reply));
  }

  lemma VerdictOfAnswer<K(!new), V(!new)>(s: System<K, V>, a: Answer<K, V>)
    requires OutboxInv(s.codec, s.initial, s.history, s.outbox) && a in s.outbox
    ensures Verdict(s.codec, s.initial, s.history, a.ticket) == Some(a.reply)
  {
    var x :| 0 <= x < |s.outbox| && s.outbox[x] == a;
  }

  // Channel order extends real-time order: a call that ended before another one was made comes first.
  lemma RealTimeOrder<K(!new), V(!new)>(
      codec: ValueCodec<V>, initial: map<K, V>, run: seq<Action<K, V>>, s: System<K, V>, a: Ticket, b: Ticket)
    requires Reachable(codec, initial, run, s) && a < |s.calls| && b < |s.calls|
    requires EndedBefore(s, a, s.calls[b].invokedAt)
    ensures a < b
  {
    ReachableStatesAreConsistent(codec, initial, run, s);
    if s.calls[a].request.WantsReply() {
      RepliesAreSequential(codec, initial, run, s, a);
    }
    assert s.calls[a].enqueuedAt < s.calls[b].enqueuedAt;
  }

  // The calls of one client take effect in the order in which it makes them.
  lemma ProgramOrder<K(!new), V(!new)>(
      codec: ValueCodec<V>, initial: map<K, V>, run: seq<Action<K, V>>, s: System<K, V>, a: Ticket, b: Ticket)
    requires Reachable(codec, initial, run, s) && a < |s.calls| && b < |s.calls|
    requires s.calls[a].client == s.calls[b].client && a != b
    ensures a < b <==> s.calls[a].invokedAt < s.calls[b].invokedAt
  {
    ReachableStatesAreConsistent(codec, initial, run, s);
    var first, second := if a < b then a else b, if a < b then b else a;
    assert EndedBefore(s, first, s.calls[second].invokedAt);
    if s.calls[first].request.WantsReply() {
      RepliesAreSequential(codec, initial, run, s, first);
    }
  }

  // ----- Reads see finished writes -----

  lemma {:induction false} LastActor<K, V>(h: seq<Entry<K, V>>, k: K, from: nat) returns (m: nat)
    requires from < |h| && ActsOn(h[from], k)
    ensures from <= m < |h| && ActsOn(h[m], k) && forall j :: m < j < |h| ==> !ActsOn(h[j], k)
    decreases |h|
  {
    var n := |h| - 1;
    if ActsOn(h[n], k) {
      m := n;
    } else {
      m := LastActor(h[..n], k, from);
    }
  }

  // Whether a request reads k.
  predicate Reads<K(==), V>(r: Request<K, V>, k: K) {
    match r
    case Read(k') => k' == k
    case ReadRawBytes(k') => k' == k
    case ReadAll(ks) => k in ks
    case Iterate(_) => true
    case _ => false
  }

  // Whether the reply to such a request shows that the map held the given value, or nothing, for k.
  ghost predicate Shows<K, V(!new)>(codec: ValueCodec<V>, r: Request<K, V>, reply: Reply<K, V>, k: K, held: Option<V>)
    requires Reads(r, k)
  {
    match r
    case Read(_) => reply == Found(Ok(held))
    case ReadRawBytes(_) => reply == FoundRaw(Ok(if held.Some? then Some(codec.Raw(held.value)) else None))
    case ReadAll(ks) =>
      reply.FoundAll? && reply.all.Ok? && |reply.all.value| == |ks| && forall i :: 0 <= i < |ks| && ks[i] == k ==>
          reply.all.value[i] == held
    case Iterate(filter) =>
      reply.Listing? && Lookup(reply.entries, k) == if held.Some? && Passes(filter, (k, held.value)) then held else None
  }

  lemma SequentialReplyShows<K, V(!new)>(codec: ValueCodec<V>, table: map<K, V>, e: Entry<K, V>, k: K)
    requires Reads(e.request, k) && (e.outcome.Success? || e.request.Iterate?)
    ensures Shows(codec, e.request, SequentialReply(codec, table, e), k, Lookup(table, k))
  {
  }

  // A read made after a write of the same key has ended, even a write that does not wait for its
  // reply, shows what that write or a later request left there. A listing of the table cannot fail.
  lemma ReadSeesFinishedWrite<K(!new), V(!new)>(
      codec: ValueCodec<V>, initial: map<K, V>, run: seq<Action<K, V>>, s: System<K, V>, a: Ticket, b: Ticket, k: K)
    returns (m: nat)
    requires Reachable(codec, initial, run, s) && a < |s.calls| && b in s.received
    requires b < |s.history| <= |s.calls| && Reads(s.calls[b].request, k)
    requires s.history[b].outcome.Success? || s.calls[b].request.Iterate?
    requires EndedBefore(s, a, s.calls[b].invokedAt)
    requires a < |s.history| ==> ActsOn(s.history[a], k)
    ensures a <= m < b && ActsOn(s.history[m], k)
    ensures Shows(codec, s.calls[b].request, s.received[b].reply, k, LookupAfter(initial, s.history, m, k))
  {
    hide Shows, SequentialReply, TableAfter, ActsOn;
    RealTimeOrder(codec, initial, run, s, a, b);
    RepliesAreSequential(codec, initial, run, s, b);
    m := LastActor(s.history[..b], k, a);
    LastActorDecides(initial, s.history[..b], m, k);
    assert s.history[..b][..m + 1] == s.history[..m + 1];
    SequentialReplyShows(codec, TableAfter(initial, s.history[..b]), s.history[b], k);
  }

  // ----- Conservation of repliers -----

  ghost predicate InChannel<K, V(!new)>(s: System<K, V>, t: Ticket) {
    exists i ::
      0 <= i < |s.queue| && t < |s.calls| && s.queue[i] == ToCommand(s.calls[t].request, t) && i == t - |s.history|
  }

  ghost predicate Parked<K, V(!new)>(s: System<K, V>, t: Ticket) {
    exists k :: k in s.actor.obligations && t in s.actor.obligations[k]
  }

  ghost predicate ParkedAt<K, V(!new)>(s: System<K, V>, t: Ticket, k: K, i: int) {
    k in s.actor.obligations && 0 <= i < |s.actor.obligations[k]| && s.actor.obligations[k][i] == t
  }

  ghost predicate Answered<K, V(!new)>(s: System<K, V>, t: Ticket) {
    exists x :: 0 <= x < |s.outbox| && s.outbox[x].ticket == t
  }

  // Every replier is in exactly one place: in the channel, parked once in one queue, or answered, and
  // then answered once. Only notify_reads are ever parked.
  lemma RepliersAreConserved<K(!new), V(!new)>(
      codec: ValueCodec<V>, initial: map<K, V>, run: seq<Action<K, V>>, s: System<K, V>, t: Ticket)
    requires Reachable(codec, initial, run, s) && t < |s.calls| && s.calls[t].request.WantsReply()
    ensures InChannel(s, t) || Parked(s, t) || Answered(s, t)
    ensures !(InChannel(s, t) && Parked(s, t)) && !(InChannel(s, t) && Answered(s, t))
    ensures !(Parked(s, t) && Answered(s, t))
    ensures forall x, y :: 0 <= x < |s.outbox| && 0 <= y < |s.outbox| && s.outbox[x].ticket == s.outbox[y].ticket ==>
              x == y
    ensures Parked(s, t) ==> s.calls[t].request.NotifyRead?
    ensures forall k, k', i, j :: ParkedAt(s, t, k, i) && ParkedAt(s, t, k', j) ==> k == k' && i == j
  {
    ReachableStatesAreConsistent(codec, initial, run, s);
    ParkedInOneQueue(s, t);
    ParkedIsUnsettled(s, t);
    AnsweredIsVerdict(s, t);
    if t >= |s.history| {
      assert s.queue[t - |s.history|] == ToCommand(s.calls[t].request, t);
    } else if Settler(initial, s.history, t).None? {
      ReleasedLater(initial, s.history, t);
      var k := s.history[t].request.key;
      WaitersAreUnsettled(initial, s.history, k);
      assert t in QueueOf(s.actor.obligations, k);
    }
  }

  lemma ParkedInOneQueue<K(!new), V(!new)>(s: System<K, V>, t: Ticket)
    requires ActorInv(s.initial, s.actor, s.history)
    ensures forall k, k', i, j :: ParkedAt(s, t, k, i) && ParkedAt(s, t, k', j) ==> k == k' && i == j
  {
    WaitersAreDisjoint(s.initial, s.history, s.actor);
    forall k, k', i, j | ParkedAt(s, t, k, i) && ParkedAt(s, t, k', j) ensures k == k' && i == j {
      assert t in s.actor.obligations[k] && t in s.actor.obligations[k'];
    }
  }

  lemma ReleasedLater<K, V>(initial: map<K, V>, h: seq<Entry<K, V>>, t: nat)
    requires t < |h| && h[t].request.WantsReply() && Settler(initial, h, t).None?
    ensures h[t].request.NotifyRead?
  {
  }

  lemma ParkedIsUnsettled<K(!new), V(!new)>(s: System<K, V>, t: Ticket)
    requires ActorInv(s.initial, s.actor, s.history)
    ensures Parked(s, t) <==>
              t < |s.history| && s.history[t].request.NotifyRead? && Settler(s.initial, s.history, t).None?
  {
    if Parked(s, t) {
      var k :| k in s.actor.obligations && t in s.actor.obligations[k];
      assert t in QueueOf(s.actor.obligations, k);
      WaitersAreUnsettled(s.initial, s.history, k);
    } else if t < |s.history| && s.history[t].request.NotifyRead? {
      var k := s.history[t].request.key;
      WaitersAreUnsettled(s.initial, s.history, k);
      assert t !in QueueOf(s.actor.obligations, k);
    }
  }

  lemma AnsweredIsVerdict<K(!new), V(!new)>(s: System<K, V>, t: Ticket)
    requires OutboxInv(s.codec, s.initial, s.history, s.outbox)
    ensures Answered(s, t) <==> Settler(s.initial, s.history, t).Some?
  {
    if Settler(s.initial, s.history, t).Some? {
      var a := Answer(t, Verdict(s.codec, s.initial, s.history, t).value);
      assert a in s.outbox;
      var x :| 0 <= x < |s.outbox| && s.outbox[x] == a;
    }
  }

  // No blocked caller is forgotten: its answer is on its way, or its command is still in the channel,
  // or it waits on a key that no request has released since.
  lemma BlockedCallersAreServed<K(!new), V(!new)>(
      codec: ValueCodec<V>, initial: map<K, V>, run: seq<Action<K, V>>, s: System<K, V>, c: ClientId)
    requires Reachable(codec, initial, run, s) && ClientOf(s, c).Awaiting?
    ensures var t := ClientOf(s, c).ticket;
            && t < |s.calls|
            && (s.queue == [] && !Answered(s, t) ==>
                  && s.calls[t].request.NotifyRead? && t < |s.history|
                  && forall j :: t < j < |s.history| ==> s.calls[t].request.key !in ReleaseKeys(s.history[j]))
  {
    ReachableStatesAreConsistent(codec, initial, run, s);
    var t := ClientOf(s, c).ticket;
    AnsweredIsVerdict(s, t);
    if s.queue == [] && !Answered(s, t) {
      ReleasedLater(initial, s.history, t);
    }
  }

  function Processes<K, V>(outs: seq<Outcome>): (actions: seq<Action<K, V>>)
    ensures |actions| == |outs| && forall i :: 0 <= i < |outs| ==> actions[i] == Process(outs[i])
  {
    seq(|outs|, i requires 0 <= i < |outs| => Process(outs[i]))
  }

  // The actor can always go on by itself, whatever the database does: from every reachable state it can
  // handle every command in the channel. Then every blocked caller whose call is not a notify_read can
  // receive its answer, and every suspended sender finds room.
  lemma {:induction false} ChannelDrains<K(!new), V(!new)>(
    codec: ValueCodec<V>, initial: map<K, V>, run: seq<Action<K, V>>, s: System<K, V>, outs: seq<Outcome>)
    returns (s': System<K, V>)
    requires Reachable(codec, initial, run, s) && |outs| == |s.queue|
    ensures Reachable(codec, initial, run + Processes(outs), s')
    ensures s'.queue == [] && s'.clients == s.clients && s'.calls == s.calls && s'.received == s.received
    ensures forall c :: ClientOf(s', c).Sending? ==> Enabled(s', Enqueue(c))
    ensures forall c :: ClientOf(s', c).Awaiting? ==> ClientOf(s', c).ticket < |s'.calls|
    ensures forall c :: ClientOf(s', c).Awaiting? && !s'.calls[ClientOf(s', c).ticket].request.NotifyRead? ==>
              exists reply :: Enabled(s', Receive(c, reply))
    decreases |outs|
  {
    hide After, Enabled, Next, Step;
    if outs == [] {
      s' := s;
      assert run + Processes(outs) == run;
      DrainedServesCallers(codec, initial, run, s);
    } else {
      ProcessIsEnabled(codec, initial, run, s, outs[0]);
      RunGrows(Start(codec, initial), run, s, Process(outs[0]));
      var next := Next(s, Process(outs[0]));
      s' := ChannelDrains(codec, initial, run + [Process(outs[0])], next, outs[1..]);
      assert run + [Process(outs[0])] + Processes(outs[1..]) == run + Processes(outs);
    }
  }

  lemma ProcessIsEnabled<K(!new), V(!new)>(
    codec: ValueCodec<V>, initial: map<K, V>, run: seq<Action<K, V>>, s: System<K, V>, out: Outcome)
    requires Reachable(codec, initial, run, s) && s.queue != []
    ensures Enabled(s, Process(out))
    ensures var next := Next(s, Process(out));
            && |next.queue| == |s.queue| - 1
            && next.clients == s.clients && next.calls == s.calls && next.received == s.received
  {
    hide Step, ActorInv, OutboxInv, ClockInv, ReturnsInv, ClientInv;
    ReachableStatesAreConsistent(codec, initial, run, s);
  }

  lemma DrainedServesCallers<K(!new), V(!new)>(
      codec: ValueCodec<V>, initial: map<K, V>, run: seq<Action<K, V>>, s: System<K, V>)
    requires Reachable(codec, initial, run, s) && s.queue == []
    ensures forall c :: ClientOf(s, c).Sending? ==> Enabled(s, Enqueue(c))
    ensures forall c :: ClientOf(s, c).Awaiting? ==> ClientOf(s, c).ticket < |s.calls|
    ensures forall c :: ClientOf(s, c).Awaiting? && !s.calls[ClientOf(s, c).ticket].request.NotifyRead? ==>
              exists reply :: Enabled(s, Receive(c, reply))
  {
    hide After, Reachable;
    forall c | ClientOf(s, c).Awaiting?
      ensures ClientOf(s, c).ticket < |s.calls|
      ensures !s.calls[ClientOf(s, c).ticket].request.NotifyRead? ==> exists reply :: Enabled(s, Receive(c, reply))
    {
      BlockedCallersAreServed(codec, initial, run, s, c);
      var t := ClientOf(s, c).ticket;
      if !s.calls[t].request.NotifyRead? {
        var x :| 0 <= x < |s.outbox| && s.outbox[x].ticket == t;
        assert Answer(t, s.outbox[x].reply) in s.outbox;
        assert Enabled(s, Receive(c, s.outbox[x].reply));
      }
    }
  }

  // No replier is ever dropped unanswered. The loop does not end while a client holds a Store, so not
  // while a call is in progress, and when it ends every call has been answered and has come back.
  lemma NoReplierIsDropped<K(!new), V(!new)>(
      codec: ValueCodec<V>, initial: map<K, V>, run: seq<Action<K, V>>, s: System<K, V>)
    requires Reachable(codec, initial, run, s)
    ensures s.lost == {}
    ensures (forall c :: ClientOf(s, c).Idle?) ==> s.actor.obligations == map[]
    ensures s.ended ==>
              && s.handles == {} && s.queue == [] && s.actor.obligations == map[]
              && (forall c :: ClientOf(s, c).Idle?)
              && (forall t :: 0 <= t < |s.calls| && s.calls[t].request.WantsReply() ==> t in s.received)
  {
    ReachableStatesAreConsistent(codec, initial, run, s);
    if forall c :: ClientOf(s, c).Idle? {
      IdleClientsLeaveNoWaiter(s);
      forall t | 0 <= t < |s.calls| && s.calls[t].request.WantsReply() ensures t in s.received {
        assert InProgressOrEnded(s, t);
      }
    }
  }

  // ----- The obligations map -----

  // While a replier is parked on k: no request that releases k has been handled since it was parked,
  // so no write, write-all or remove-all of k has succeeded and no remove of k has been handled; k is in
  // the table exactly if the replier's own lookup failed although k was there; and no queue is empty.
  lemma ObligationInvariant<K(!new), V(!new)>(
      codec: ValueCodec<V>, initial: map<K, V>, run: seq<Action<K, V>>, s: System<K, V>, k: K, i: nat)
    requires Reachable(codec, initial, run, s) && k in s.actor.obligations
    ensures s.actor.obligations[k] != []
    ensures i < |s.actor.obligations[k]| ==>
              var t := s.actor.obligations[k][i];
              && t < |s.history| && s.history[t].request == NotifyRead(k)
              && (forall j :: t < j < |s.history| ==> k !in ReleaseKeys(s.history[j]) && !ActsOn(s.history[j], k))
              && (k in s.actor.table <==> s.history[t].outcome.Failure? && k in TableAfter(initial, s.history[..t]))
    ensures i + 1 < |s.actor.obligations[k]| ==> s.actor.obligations[k][i] < s.actor.obligations[k][i + 1]
  {
    hide ReleaseKeys, ActsOn, TableAfter;
    ReachableStatesAreConsistent(codec, initial, run, s);
    var q := s.actor.obligations[k];
    assert q == QueueOf(s.actor.obligations, k);
    WaitersAreUnsettled(initial, s.history, k);
    if i < |q| {
      var t := q[i];
      assert t in q;
      forall j | t < j < |s.history| ensures !ActsOn(s.history[j], k) {
        ActingReleases(s.history[j], k);
      }
      ParkedOnPresentKey(initial, s.history, t);
    }
  }

  // A concrete run, for any table and any key in it: a notify_read whose lookup fails leaves its caller
  // parked on a present key, with nothing else under way.
  lemma FailedLookupParksOnPresentKey<K(!new), V(!new)>(
      codec: ValueCodec<V>, initial: map<K, V>, k: K, e: TypedStoreError)
    returns (run: seq<Action<K, V>>, s: System<K, V>)
    requires k in initial
    ensures run == [Invoke(0, NotifyRead(k)), Enqueue(0), Process(Failure(e))] && Reachable(codec, initial, run, s)
    ensures s.queue == [] && s.outbox == [] && ClientOf(s, 0) == Awaiting(0)
    ensures s.actor == ActorState(initial, map[k := [0]])
  {
    hide After;
    var s0 := StoreSystem.Start(codec, initial);
    var s1 := Next(s0, Invoke(0, NotifyRead(k)));
    var s2 := Next(s1, Enqueue(0));
    s := Next(s2, Process(Failure(e)));
    RunStarts(s0);
    RunGrows(s0, [], s0, Invoke(0, NotifyRead(k)));
    RunGrows(s0, [] + [Invoke(0, NotifyRead(k))], s1, Enqueue(0));
    RunGrows(s0, [] + [Invoke(0, NotifyRead(k))] + [Enqueue(0)], s2, Process(Failure(e)));
    run := [] + [Invoke(0, NotifyRead(k))] + [Enqueue(0)] + [Process(Failure(e))];
    assert [] + [0] == [0];
  }

  lemma RunStarts<K, V(!new)>(s: System<K, V>)
    ensures After(s, []) == Some(s)
  {
  }

  lemma RunGrows<K, V(!new)>(s: System<K, V>, run: seq<Action<K, V>>, mid: System<K, V>, a: Action<K, V>)
    requires After(s, run) == Some(mid) && Enabled(mid, a)
    ensures After(s, run + [a]) == Some(Next(mid, a))
  {
    assert (run + [a])[..|run|] == run;
  }

  lemma ActingReleases<K, V>(e: Entry<K, V>, k: K)
    ensures ActsOn(e, k) ==> k in ReleaseKeys(e)
  {
  }

  // ----- Release -----

  // A successful single write answers the waiters of its key in the order in which they were parked,
  // each with the value now in the table, then its own caller, and touches no other queue.
  lemma WriteReleasesInOrder<K(!new), V(!new)>(
      codec: ValueCodec<V>, initial: map<K, V>, run: seq<Action<K, V>>, s: System<K, V>)
    requires Reachable(codec, initial, run, s) && s.queue != [] && s.queue[0].WriteCmd? && Enabled(s, Process(Success))
    ensures var k, v := s.queue[0].key, s.queue[0].value;
            var s' := Next(s, Process(Success));
            && s'.actor.table == s.actor.table[k := v]
            && s'.outbox == s.outbox + AnswerEach(QueueOf(s.actor.obligations, k), Found(Ok(Lookup(s'.actor.table, k))))
                          + (if s.queue[0].sender.Some? then [Answer(s.queue[0].sender.value, Done(Ok(())))] else [])
            && (forall i, j :: 0 <= i < j < |QueueOf(s.actor.obligations, k)| ==>
                 QueueOf(s.actor.obligations, k)[i] < QueueOf(s.actor.obligations, k)[j])
            && s'.actor.obligations == s.actor.obligations - {k}
  {
    ReachableStatesAreConsistent(codec, initial, run, s);
    hide ChannelInv, ActorInv, ClientInv, ReturnsInv, ClockInv, OutboxInv, HandleInv, Waiters, Step;
    var k, v, sender := s.queue[0].key, s.queue[0].value, s.queue[0].sender;
    WriteStep(codec, s.actor, k, v, sender);
    QueueIsWaiters(s, k);
    WaitersAreUnsettled(initial, s.history, k);
    var answers := AnswerEach<K, V>(QueueOf(s.actor.obligations, k), Found(Ok(Some(v))));
    var own: seq<Answer<K, V>> := if sender.Some? then [Answer(sender.value, Done(Ok(())))] else [];
    assert s.outbox + (answers + own) == s.outbox + answers + own;
  }

  lemma WriteStep<K(!new), V(!new)>(codec: ValueCodec<V>, st: ActorState<K, V>, k: K, v: V, sender: Option<Ticket>)
    ensures var (st', answers) := Step(codec, st, WriteCmd(k, v, sender), Success);
            && st' == ActorState(st.table[k := v], st.obligations - {k})
            && answers == AnswerEach(QueueOf(st.obligations, k), Found(Ok(Some(v))))
                          + (if sender.Some? then [Answer(sender.value, Done(Ok(())))] else [])
  {
    SingleKey(st.obligations, k);
    var answers := AnswerEach<K, V>(QueueOf(st.obligations, k), Found(Ok(Some(v))));
    assert answers + [] == answers;
  }

  lemma QueueIsWaiters<K(!new), V(!new)>(s: System<K, V>, k: K)
    requires ActorInv(s.initial, s.actor, s.history)
    ensures QueueOf(s.actor.obligations, k) == Waiters(s.initial, s.history, k)
  {
  }

  // A remove answers the waiters of its key with nothing, in parking order, whether or not the database
  // call succeeds, and touches no other queue.
  lemma RemoveReleasesAlways<K(!new), V(!new)>(
      codec: ValueCodec<V>, initial: map<K, V>, run: seq<Action<K, V>>, s: System<K, V>, out: Outcome)
    requires Reachable(codec, initial, run, s) && s.queue != [] && s.queue[0].DeleteCmd? && Enabled(s, Process(out))
    ensures var k := s.queue[0].key;
            var s' := Next(s, Process(out));
            && s'.actor.table == (if out.Success? then s.actor.table - {k} else s.actor.table)
            && s'.outbox == s.outbox + AnswerEach(QueueOf(s.actor.obligations, k), Found(Ok(None)))
            && Increasing(QueueOf(s.actor.obligations, k))
            && s'.actor.obligations == s.actor.obligations - {k}
  {
    ReachableStatesAreConsistent(codec, initial, run, s);
    hide ChannelInv, ActorInv, ClientInv, ReturnsInv, ClockInv, OutboxInv, HandleInv, Waiters;
    SingleKey(s.actor.obligations, s.queue[0].key);
    QueueIsWaiters(s, s.queue[0].key);
    WaitersAreUnsettled(initial, s.history, s.queue[0].key);
  }

  // A request over many keys, duplicates included, answers every waiter of every listed key exactly
  // once, those of one key in the order in which they were parked, and its own caller after them. It
  // leaves no listed key with a waiter and touches no other queue.
  lemma ManyKeysReleaseOnce<K(!new), V(!new)>(
      codec: ValueCodec<V>, initial: map<K, V>, run: seq<Action<K, V>>, s: System<K, V>, k: K)
    returns (released: seq<Ticket>)
    requires Reachable(codec, initial, run, s) && s.queue != [] && Enabled(s, Process(Success))
    requires s.queue[0].WriteAllCmd? || s.queue[0].DeleteAllCmd?
    ensures var keys := if s.queue[0].WriteAllCmd? then KeysOf(s.queue[0].keyValues) else s.queue[0].keys;
            var s' := Next(s, Process(Success));
            && s'.outbox == s.outbox + AnswerEach(released, Found(Ok(None)))
                            + [Answer(s.queue[0].replier, Done(Ok(())))]
            && NoRepeats(released) && InParkingOrder(s.actor.obligations, released)
            && (forall t :: t in released <==> exists k' :: k' in keys && t in QueueOf(s.actor.obligations, k'))
            && QueueOf(s'.actor.obligations, k) == (if k in keys then [] else QueueOf(s.actor.obligations, k))
  {
    ReachableStatesAreConsistent(codec, initial, run, s);
    var keys := if s.queue[0].WriteAllCmd? then KeysOf(s.queue[0].keyValues) else s.queue[0].keys;
    released := Drained(s.actor.obligations, keys);
    WaitersAreDisjoint(initial, s.history, s.actor);
    DrainedNoRepeats(s.actor.obligations, keys);
    DrainedInOrder(s.actor.obligations, keys);
    QueueAfterDrop(s.actor.obligations, keys, k);
    forall t ensures t in released <==> exists k' :: k' in keys && t in QueueOf(s.actor.obligations, k') {
      DrainedMembers(s.actor.obligations, keys, t);
    }
    var answers := AnswerEach<K, V>(released, Found(Ok(None)));
    assert forall own: seq<Answer<K, V>> :: s.outbox + (answers + own) == s.outbox + answers + own;
  }

  // ----- The table, key by key -----

  // What a successful step stores. A write stores its value; a write-all stores for each of its keys the
  // value of the last pair with that key; removals leave their keys absent; every other key, and every
  // key under every other command, keeps what it held.
  lemma StepsStoreWhatIsAsked<K(!new), V(!new)>(
      codec: ValueCodec<V>, initial: map<K, V>, run: seq<Action<K, V>>, s: System<K, V>, k: K)
    requires Reachable(codec, initial, run, s) && s.queue != [] && Enabled(s, Process(Success))
    ensures var before := Lookup(s.actor.table, k);
            var after := Lookup(Next(s, Process(Success)).actor.table, k);
            match s.queue[0]
            case WriteCmd(key, v, _) => after == if k == key then Some(v) else before
            case WriteAllCmd(kvs, _) =>
              && ((forall i :: 0 <= i < |kvs| ==> kvs[i].0 != k) ==> after == before)
              && (forall i :: 0 <= i < |kvs| && IsLastPairOf(kvs, k, i) ==> after == Some(kvs[i].1))
            case DeleteCmd(key) => after == if k == key then None else before
            case DeleteAllCmd(keys, _) => after == if k in keys then None else before
            case _ => after == before
  {
    hide Reachable, AnswerEach, Drained;
    match s.queue[0] {
      case WriteAllCmd(kvs, _) =>
        PutAllKeys(s.actor.table, kvs);
        forall i | 0 <= i < |kvs| && IsLastPairOf(kvs, k, i)
          ensures Lookup(PutAll(s.actor.table, kvs), k) == Some(kvs[i].1) {
          PutAllLastWins(s.actor.table, kvs, i);
        }
      case DeleteAllCmd(keys, _) => DropAllKeys(s.actor.table, keys);
      case _ =>
    }
  }

  ghost predicate IsLastPairOf<K, V>(kvs: seq<(K, V)>, k: K, i: nat)
    requires i < |kvs|
  {
    kvs[i].0 == k && forall j :: i < j < |kvs| ==> kvs[j].0 != k
  }

  // What a reply says of the table at its call's place in channel order: a read that succeeds shows what
  // the table holds for each of its keys, in order; a failed call reports its error; a successful write
  // of any kind reports success.
  lemma RepliesShowTheTable<K(!new), V(!new)>(
      codec: ValueCodec<V>, initial: map<K, V>, run: seq<Action<K, V>>, s: System<K, V>, t: Ticket, k: K)
    requires Reachable(codec, initial, run, s) && t in s.received
    ensures t < |s.history| && t < |s.calls|
    ensures var r, out, reply := s.calls[t].request, s.history[t].outcome, s.received[t].reply;
            && (Reads(r, k) && (out.Success? || r.Iterate?) ==>
                  Shows(codec, r, reply, k, Lookup(TableAfter(initial, s.history[..t]), k)))
            && (r.SyncWrite? || r.SyncWriteAll? || r.RemoveAll? ==>
                  reply == Done(if out.Success? then Ok(()) else Err(out.error)))
            && (out.Failure? && r.Read? ==> reply == Found(Err(out.error)))
            && (out.Failure? && r.ReadRawBytes? ==> reply == FoundRaw(Err(out.error)))
            && (out.Failure? && r.ReadAll? ==> reply == FoundAll(Err(out.error)))
  {
    hide TableAfter, Shows, Reachable;
    RepliesAreSequential(codec, initial, run, s, t);
    if Reads(s.calls[t].request, k) && (s.history[t].outcome.Success? || s.calls[t].request.Iterate?) {
      SequentialReplyShows(codec, TableAfter(initial, s.history[..t]), s.history[t], k);
    }
  }

  // The channel holds at most a hundred commands, and takes one exactly while it holds fewer.
  lemma ChannelHoldsAHundred<K(!new), V(!new)>(
      codec: ValueCodec<V>, initial: map<K, V>, run: seq<Action<K, V>>, s: System<K, V>)
    requires Reachable(codec, initial, run, s)
    ensures |s.queue| <= 100
    ensures forall c :: ClientOf(s, c).Sending? ==> (Enabled(s, Enqueue(c)) <==> |s.queue| < 100)
  {
    ReachableStatesAreConsistent(codec, initial, run, s);
  }

  // A step whose database call failed leaves the table alone and answers a parked replier exactly if
  // it is a remove of its key, which is then told that there is nothing. It empties no other queue,
  // and only a notify_read joins one.
  lemma FailuresReleaseOnlyOnRemove<K(!new), V(!new)>(
      codec: ValueCodec<V>, initial: map<K, V>, run: seq<Action<K, V>>, s: System<K, V>, e: TypedStoreError, t: Ticket,
      k: K)
    requires Reachable(codec, initial, run, s) && Enabled(s, Process(Failure(e)))
    ensures var r := s.calls[|s.history|].request;
            var s' := Next(s, Process(Failure(e)));
            && s'.actor.table == s.actor.table
            && (Parked(s, t) ==> t < |s.calls| && s.calls[t].request.NotifyRead?)
            && (Parked(s, t) ==> (Answered(s', t) <==> r == Remove(s.calls[t].request.key)))
            && (Parked(s, t) && Answered(s', t) ==> Answer(t, Found(Ok(None))) in s'.outbox)
            && QueueOf(s'.actor.obligations, k) ==
               (if r == Remove(k) then []
                else QueueOf(s.actor.obligations, k) + if r == NotifyRead(k) then [|s.history|] else [])
  {
    hide Step, ToCommand, Waiters, TableAfter, Verdict, Settler, ClientInv, ReturnsInv, ClockInv;
    ReachableStatesAreConsistent(codec, initial, run, s);
    ProcessKeepsInv(s, Failure(e));
    var s' := Next(s, Process(Failure(e)));
    var entry := Entry(s.calls[|s.history|].request, Failure(e));
    assert s'.history == s.history + [entry];
    FailedReleaseKeys<K, V>(entry);
    WaitersNext(initial, s.history, entry, k);
    TableNext(initial, s.history, entry);
    FailedMisses(TableAfter(initial, s.history), entry, k);
    ParkedIsUnsettled(s, t);
    AnsweredIsVerdict(s', t);
    if Parked(s, t) {
      SettlerExtends(initial, s.history, entry, t);
      if Answered(s', t) {
        ReleasedVerdict(codec, initial, s.history, entry, t);
      }
    }
  }

  lemma FailedReleaseKeys<K, V>(e: Entry<K, V>)
    requires e.outcome.Failure?
    ensures ReleaseKeys(e) == if e.request.Remove? then [e.request.key] else []
    ensures forall table: map<K, V> :: Effect(table, e) == table
  {
  }

  lemma FailedMisses<K, V>(table: map<K, V>, e: Entry<K, V>, k: K)
    requires e.outcome.Failure?
    ensures Misses(table, e, k) <==> e.request == NotifyRead(k)
  {
  }

  lemma ReleasedVerdict<K, V(!new)>(
      codec: ValueCodec<V>, initial: map<K, V>, h: seq<Entry<K, V>>, e: Entry<K, V>, t: nat)
    requires t < |h| && h[t].request.NotifyRead? && Settler(initial, h, t).None? && e.request.Remove?
    requires h[t].request.key in ReleaseKeys(e)
    ensures Verdict(codec, initial, h + [e], t) == Some(Found(Ok(None)))
  {
    SettlerExtends(initial, h, e, t);
  }
}
