// The task that owns the table: it takes commands off the channel one at a time, applies them to the
// typed map, and keeps the queues of parked notify_read repliers.
module StoreActor {
  import opened Wrappers
  import opened Tables
  import opened Cursor
  import opened TypedMap
  import opened StoreSpec

  // The replier of one call: the sending half of its oneshot channel.
  type Ticket = nat

  datatype Command<!K, !V> =
    | WriteCmd(key: K, value: V, sender: Option<Ticket>)
    | WriteAllCmd(keyValues: seq<(K, V)>, replier: Ticket)
    | DeleteCmd(key: K)
    | DeleteAllCmd(keys: seq<K>, replier: Ticket)
    | ReadCmd(key: K, replier: Ticket)
    | ReadRawBytesCmd(key: K, replier: Ticket)
    | ReadAllCmd(keys: seq<K>, replier: Ticket)
    | NotifyReadCmd(key: K, replier: Ticket)
    | IterCmd(filter: Option<((K, V)) -> bool>, replier: Ticket)

  // The command a client method sends, with the replier it waits on.
  function ToCommand<K, V>(r: Request<K, V>, t: Ticket): Command<K, V> {
    match r
    case AsyncWrite(k, v) => WriteCmd(k, v, None)
    case SyncWrite(k, v) => WriteCmd(k, v, Some(t))
    case SyncWriteAll(kvs) => WriteAllCmd(kvs, t)
    case Remove(k) => DeleteCmd(k)
    case RemoveAll(ks) => DeleteAllCmd(ks, t)
    case ReadRawBytes(k) => ReadRawBytesCmd(k, t)
    case Read(k) => ReadCmd(k, t)
    case ReadAll(ks) => ReadAllCmd(ks, t)
    case NotifyRead(k) => NotifyReadCmd(k, t)
    case Iterate(p) => IterCmd(p, t)
  }

  // One message on a oneshot channel.
  datatype Answer<K, V> = Answer(ticket: Ticket, reply: Reply<K, V>)

  type Queues<K> = map<K, seq<Ticket>>

  datatype ActorState<K, V> = ActorState(table: map<K, V>, obligations: Queues<K>)

  // ----- Releasing waiters -----

  function QueueOf<K>(q: Queues<K>, k: K): seq<Ticket> {
    if k in q then q[k] else []
  }

  function AnswerEach<K, V>(tickets: seq<Ticket>, reply: Reply<K, V>): (a: seq<Answer<K, V>>)
    ensures |a| == |tickets| && forall i :: 0 <= i < |a| ==> a[i] == Answer(tickets[i], reply)
  {
    seq(|tickets|, i requires 0 <= i < |tickets| => Answer(tickets[i], reply))
  }

  // The queues of the listed keys, one after the other; a repeated key has none left.
  function Drained<K>(q: Queues<K>, keys: seq<K>): seq<Ticket>
    decreases |keys|
  {
    if keys == [] then [] else QueueOf(q, keys[0]) + Drained(q - {keys[0]}, keys[1..])
  }

  function Park<K>(q: Queues<K>, k: K, t: Ticket): Queues<K> {
    q[k := QueueOf(q, k) + [t]]
  }

  // ----- One command on values -----

  function Then<K, V>(answers: seq<Answer<K, V>>, sender: Option<Ticket>, reply: Reply<K, V>): seq<Answer<K, V>> {
    match sender
    case None => answers
    case Some(t) => answers + [Answer(t, reply)]
  }

  function Release<K, V>(
      st: ActorState<K, V>, table: map<K, V>, keys: seq<K>, reply: Reply<K, V>): (ActorState<K, V>, seq<Answer<K, V>>)
  {
    (ActorState(table, DropAll(st.obligations, keys)), AnswerEach(Drained(st.obligations, keys), reply))
  }

  // The new state and the answers sent, in order, for a command whose database call ended with out.
  function Step<K, V(!new)>(
      codec: ValueCodec<V>, st: ActorState<K, V>, cmd: Command<K, V>, out: Outcome)
    : (ActorState<K, V>, seq<Answer<K, V>>)
  {
    match cmd
    case WriteCmd(k, v, sender) =>
      if out.Success? then
        var (st', released) := Release(st, st.table[k := v], [k], Found(Ok(Some(v))));
        (st', Then(released, sender, Done(Ok(()))))
      else (st, Then([], sender, DoneWith(out)))
    case WriteAllCmd(kvs, t) =>
      if out.Success? then
        var (st', released) := Release(st, PutAll(st.table, kvs), KeysOf(kvs), Found(Ok(None)));
        (st', released + [Answer(t, Done(Ok(())))])
      else (st, [Answer(t, DoneWith(out))])
    case DeleteCmd(k) =>
      Release(st, if out.Success? then st.table - {k} else st.table, [k], Found(Ok(None)))
    case DeleteAllCmd(ks, t) =>
      if out.Success? then
        var (st', released) := Release(st, DropAll(st.table, ks), ks, Found(Ok(None)));
        (st', released + [Answer(t, Done(Ok(())))])
      else (st, [Answer(t, DoneWith(out))])
    case ReadCmd(k, t) =>
      (st, [Answer(t, Found(if out.Success? then Ok(Lookup(st.table, k)) else Err(out.error)))])
    case ReadRawBytesCmd(k, t) =>
      (st, [Answer(t, FoundRaw(if out.Success?
                               then Ok(if k in st.table then Some(codec.Raw(st.table[k])) else None)
                               else Err(out.error)))])
    case ReadAllCmd(ks, t) =>
      (st, [Answer(t, FoundAll(if out.Success? then Ok(LookupAll(st.table, ks)) else Err(out.error)))])
    case NotifyReadCmd(k, t) =>
      if out.Success? && k in st.table then (st, [Answer(t, Found(Ok(Some(st.table[k]))))])
      else (st.(obligations := Park(st.obligations, k, t)), [])
    case IterCmd(p, t) =>
      (st, [Answer(t, Listing(Filtered(st.table, p)))])
  }

  // Any number of commands, one after the other.
  function StepAll<K, V(!new)>(
      codec: ValueCodec<V>, st: ActorState<K, V>, cmds: seq<Command<K, V>>, outs: seq<Outcome>)
    : (ActorState<K, V>, seq<Answer<K, V>>)
    requires |outs| == |cmds|
  {
    if cmds == [] then (st, []) else
      var n := |cmds| - 1;
      var (before, sent) := StepAll(codec, st, cmds[..n], outs[..n]);
      var (after, answers) := Step(codec, before, cmds[n], outs[n]);
      (after, sent + answers)
  }

  // ----- The task -----

  // The environment's choices while one command is handled: how its n-th database call ends.
  type Environment = nat -> Outcome

  function ReadOutcomes(count: nat, io: Environment): (outs: seq<Outcome>)
    ensures |outs| == count && forall i :: 0 <= i < count ==> outs[i] == io(i)
  {
    seq(count, i requires 0 <= i < count => io(i))
  }

  class Actor<K(==,!new), V(!new)> {
    const db: DBMap<K, V>
    var obligations: Queues<K>
    var outbox: seq<Answer<K, V>>   // every message sent so far, in order

    ghost predicate Valid()
      reads this, db.rocksdb
    {
      db.Valid()
    }

    ghost function State(): ActorState<K, V>
      reads this, db.rocksdb
      requires Valid()
    {
      ActorState(db.View(), obligations)
    }

    constructor (db: DBMap<K, V>)
      requires db.Valid()
      ensures Valid() && this.db == db && outbox == [] && State() == ActorState(db.View(), map[])
    {
      this.db := db;
      obligations := map[];
      outbox := [];
    }

    method Send(t: Ticket, reply: Reply<K, V>)
      modifies this`outbox
      ensures outbox == old(outbox) + [Answer(t, reply)]
    {
      outbox := outbox + [Answer(t, reply)];
    }

    // Removes the queue of a key and answers it from the front until it is empty.
    method ReleaseKey(key: K, reply: Reply<K, V>)
      modifies this`obligations, this`outbox
      ensures obligations == old(obligations) - {key}
      ensures outbox == old(outbox) + AnswerEach(QueueOf(old(obligations), key), reply)
    {
      if key in obligations {
        var senders := obligations[key];
        ghost var all, before := senders, outbox;
        obligations := obligations - {key};
        while senders != []
          invariant obligations == old(obligations) - {key}
          invariant |senders| <= |all| && senders == all[|all| - |senders|..]
          invariant outbox == before + AnswerEach(all[..|all| - |senders|], reply)
          decreases |senders|
        {
          var s := senders[0];
          senders := senders[1..];
          Send(s, reply);
          AnswerEachLast(all, |all| - |senders| - 1, reply);
        }
        assert all[..|all|] == all;
      } else {
        assert AnswerEach(QueueOf(obligations, key), reply) == [];
      }
    }

    // Releases key after key; a repeated key has no waiters left the second time.
    method ReleaseKeys(keys: seq<K>, reply: Reply<K, V>)
      modifies this`obligations, this`outbox
      ensures obligations == DropAll(old(obligations), keys)
      ensures outbox == old(outbox) + AnswerEach(Drained(old(obligations), keys), reply)
    {
      assert keys[..0] == [];
      assert outbox + AnswerEach([], reply) == outbox;
      for i := 0 to |keys|
        invariant obligations == DropAll(old(obligations), keys[..i])
        invariant outbox == old(outbox) + AnswerEach(Drained(old(obligations), keys[..i]), reply)
      {
        DropAllLast(old(obligations), keys, i);
        DrainedLast(old(obligations), keys, i);
        AnswerEachAppends(Drained(old(obligations), keys[..i]), QueueOf(obligations, keys[i]), reply);
        ReleaseKey(keys[i], reply);
      }
      assert keys[..|keys|] == keys;
    }

    method HandleWrite(key: K, value: V, sender: Option<Ticket>, io: Environment)
      requires Valid()
      modifies this`obligations, this`outbox, db.rocksdb
      ensures Valid() && Follows(db, old(State()), old(outbox), WriteCmd(key, value, sender), io, State(), outbox)
    {
      hide DBMap.Valid, DBMap.View;
      SingleKey(obligations, key);
      var response := db.Insert(key, value, io(0));
      DoneReportsOutcome<K, V>(response);
      if response.Ok? {
        ReleaseKey(key, Found(Ok(Some(value))));
      }
      ghost var released := outbox[|old(outbox)|..];
      if sender.Some? {
        Send(sender.value, Done(response));
        assert outbox == old(outbox) + (released + [Answer(sender.value, Done(response))]);
      }
    }

    method HandleWriteAll(keyValues: seq<(K, V)>, replier: Ticket, io: Environment)
      requires Valid()
      modifies this`obligations, this`outbox, db.rocksdb
      ensures Valid() && Follows(db, old(State()), old(outbox), WriteAllCmd(keyValues, replier), io, State(), outbox)
    {
      hide DBMap.Valid, DBMap.View;
      var response := db.MultiInsert(keyValues, io(0));
      DoneReportsOutcome<K, V>(response);
      if response.Ok? {
        ReleaseKeys(KeysOf(keyValues), Found(Ok(None)));
      }
      ghost var released := outbox[|old(outbox)|..];
      Send(replier, Done(response));
      assert outbox == old(outbox) + (released + [Answer(replier, Done(response))]);
    }

    method HandleDelete(key: K, io: Environment)
      requires Valid()
      modifies this`obligations, this`outbox, db.rocksdb
      ensures Valid() && Follows(db, old(State()), old(outbox), DeleteCmd(key), io, State(), outbox)
    {
      hide DBMap.Valid, DBMap.View;
      SingleKey(obligations, key);
      var response := db.Remove(key, io(0));
      DoneReportsOutcome<K, V>(response);
      ReleaseKey(key, Found(Ok(None)));
    }

    method HandleDeleteAll(keys: seq<K>, replier: Ticket, io: Environment)
      requires Valid()
      modifies this`obligations, this`outbox, db.rocksdb
      ensures Valid() && Follows(db, old(State()), old(outbox), DeleteAllCmd(keys, replier), io, State(), outbox)
    {
      hide DBMap.Valid, DBMap.View;
      var response := db.MultiRemove(keys, io(0));
      DoneReportsOutcome<K, V>(response);
      // unlike HandleDelete, a failure keeps the waiters parked
      if response.Ok? {
        ReleaseKeys(keys, Found(Ok(None)));
      }
      ghost var released := outbox[|old(outbox)|..];
      Send(replier, Done(response));
      assert outbox == old(outbox) + (released + [Answer(replier, Done(response))]);
    }

    method HandleNotifyRead(key: K, replier: Ticket, io: Environment)
      requires Valid()
      modifies this`obligations, this`outbox
      ensures Valid() && Follows(db, old(State()), old(outbox), NotifyReadCmd(key, replier), io, State(), outbox)
    {
      hide DBMap.Valid, DBMap.View;
      var response := db.Get(key, io(0));
      if response.Ok? && response.value.Some? {
        Send(replier, Found(response));
      } else {
        obligations := obligations[key := QueueOf(obligations, key) + [replier]];
      }
    }

    method HandleIter(filter: Option<((K, V)) -> bool>, replier: Ticket, ghost io: Environment)
      requires Valid()
      modifies this`outbox
      ensures Valid() && Follows(db, old(State()), old(outbox), IterCmd(filter, replier), io, State(), outbox)
    {
      hide DBMap.Valid, DBMap.View, Iter.Valid, Iter.Pending;
      var it := db.Iterate();
      var response := CollectFiltered(it, filter, db.View());
      Send(replier, Listing(response));
    }

    // One command off the channel, under the environment's choices for its database calls.
    method Handle(cmd: Command<K, V>, io: Environment)
      requires Valid()
      modifies this`obligations, this`outbox, db.rocksdb
      ensures Valid() && Follows(db, old(State()), old(outbox), cmd, io, State(), outbox)
    {
      hide DBMap.Valid, DBMap.View;
      match cmd {
        case WriteCmd(key, value, sender) => HandleWrite(key, value, sender, io);
        case WriteAllCmd(keyValues, replier) => HandleWriteAll(keyValues, replier, io);
        case DeleteCmd(key) => HandleDelete(key, io);
        case DeleteAllCmd(keys, replier) => HandleDeleteAll(keys, replier, io);
        case ReadCmd(key, replier) =>
          var response := db.Get(key, io(0));
          Send(replier, Found(response));
        case ReadAllCmd(keys, replier) =>
          var response := db.MultiGet(keys, ReadOutcomes(|keys|, io));
          Send(replier, FoundAll(response));
        case NotifyReadCmd(key, replier) => HandleNotifyRead(key, replier, io);
        case IterCmd(filter, replier) => HandleIter(filter, replier, io);
        case ReadRawBytesCmd(key, replier) =>
          var response := db.GetRawBytes(key, io(0));
          Send(replier, FoundRaw(response));
      }
    }

    // The commands that arrive, in channel order, until there are no more.
    method Run(commands: seq<Command<K, V>>, ios: seq<Environment>)
      requires Valid() && |ios| == |commands|
      modifies this`obligations, this`outbox, db.rocksdb
      ensures Valid()
      ensures var (st, answers) := StepAll(db.schema.value, old(State()), commands, Outcomes(db, commands, ios));
              State() == st && outbox == old(outbox) + answers
    {
      hide DBMap.Valid, DBMap.View, Step, CallOutcome;
      ghost var outs := Outcomes(db, commands, ios);
      assert commands[..0] == [] && outbox + [] == outbox;
      for i := 0 to |commands|
        invariant Valid()
        invariant State() == StepAll(db.schema.value, old(State()), commands[..i], outs[..i]).0
        invariant outbox == old(outbox) + StepAll(db.schema.value, old(State()), commands[..i], outs[..i]).1
      {
        assert commands[..i + 1][..i] == commands[..i] && outs[..i + 1][..i] == outs[..i];
        Handle(commands[i], ios[i]);
      }
      assert commands[..|commands|] == commands && outs[..|commands|] == outs;
    }
  }

  function OutcomeOf<T>(response: StoreResult<T>): Outcome {
    match response
    case Ok(_) => Success
    case Err(e) => Failure(e)
  }

  lemma DoneReportsOutcome<K, V>(response: StoreResult<()>)
    ensures Reply<K, V>.Done(response) == DoneWith(OutcomeOf(response))
  {
    if response.Ok? {
      assert response.value == ();
    }
  }

  // How the database work of a command ends: with its first serialization error, or else as the
  // environment chooses. Reading many keys ends with its first failed read, if any; a listing cannot
  // fail.
  ghost function CallOutcome<K(!new), V(!new)>(db: DBMap<K, V>, cmd: Command<K, V>, io: Environment): Outcome {
    match cmd
    case WriteCmd(k, v, _) => OutcomeOf(Ended(PutOps(db.cf, db.schema, [(k, v)]), io(0)))
    case WriteAllCmd(kvs, _) => OutcomeOf(Ended(PutOps(db.cf, db.schema, kvs), io(0)))
    case DeleteCmd(k) => OutcomeOf(Ended(DeleteOps(db.cf, db.schema, [k]), io(0)))
    case DeleteAllCmd(ks, _) => OutcomeOf(Ended(DeleteOps(db.cf, db.schema, ks), io(0)))
    case ReadAllCmd(ks, _) =>
      var n, i := FirstBadKey(db.schema, ks), FirstFailure(ReadOutcomes(|ks|, io));
      if n < |ks| then Failure(db.schema.key.ser(ks[n]).error) else if i < |ks| then io(i) else Success
    case IterCmd(_, _) => Success
    case _ =>
      var k := db.schema.key.ser(cmd.key);
      if k.Err? then Failure(k.error) else io(0)
  }

  ghost function Outcomes<K(!new), V(!new)>(
      db: DBMap<K, V>, cmds: seq<Command<K, V>>, ios: seq<Environment>): (outs: seq<Outcome>)
    requires |ios| == |cmds|
    ensures |outs| == |cmds| && forall i :: 0 <= i < |outs| ==> outs[i] == CallOutcome(db, cmds[i], ios[i])
  {
    seq(|cmds|, i requires 0 <= i < |cmds| => CallOutcome(db, cmds[i], ios[i]))
  }

  // A state and an outbox follow from others by one step.
  ghost predicate Follows<K(!new), V(!new)>(
      db: DBMap<K, V>, st: ActorState<K, V>, outbox: seq<Answer<K, V>>, cmd: Command<K, V>, io: Environment,
      st': ActorState<K, V>, outbox': seq<Answer<K, V>>)
  {
    var (next, answers) := Step(db.schema.value, st, cmd, CallOutcome(db, cmd, io));
    st' == next && outbox' == outbox + answers
  }

  // ----- Facts about draining -----

  lemma AnswerEachLast<K, V>(tickets: seq<Ticket>, i: nat, reply: Reply<K, V>)
    requires i < |tickets|
    ensures AnswerEach(tickets[..i + 1], reply) == AnswerEach(tickets[..i], reply) + [Answer(tickets[i], reply)]
  {
  }

  lemma AnswerEachAppends<K, V>(a: seq<Ticket>, b: seq<Ticket>, reply: Reply<K, V>)
    ensures AnswerEach(a + b, reply) == AnswerEach(a, reply) + AnswerEach(b, reply)
  {
  }

  lemma {:induction false} DrainedLast<K>(q: Queues<K>, keys: seq<K>, i: nat)
    requires i < |keys|
    ensures Drained(q, keys[..i + 1]) == Drained(q, keys[..i]) + QueueOf(DropAll(q, keys[..i]), keys[i])
    decreases |keys|
  {
    if i == 0 {
      assert keys[..1][1..] == [] && keys[..0] == [];
    } else {
      assert keys[..i + 1][1..] == keys[1..][..i] && keys[..i][1..] == keys[1..][..i - 1];
      DrainedLast(q - {keys[0]}, keys[1..], i - 1);
    }
  }

  lemma SingleKey<K>(q: Queues<K>, k: K)
    ensures Drained(q, [k]) == QueueOf(q, k) && DropAll(q, [k]) == q - {k}
  {
    assert [k][1..] == [];
  }

  // ----- Facts about collecting a listing into a map -----

  predicate Passes<K, V>(filter: Option<((K, V)) -> bool>, kv: (K, V)) {
    filter.None? || filter.value(kv)
  }

  lemma ListedOnce<K(!new), V(!new)>(c: KeyCodec<K>, all: seq<(K, V)>, m: map<K, V>, kv: (K, V))
    requires IsListingOf(c, all, m) && kv in all
    ensures forall v :: (kv.0, v) in all ==> v == kv.1
  {
  }

  lemma CollectedIsFiltered<K(!new), V(!new)>(
      c: KeyCodec<K>, all: seq<(K, V)>, m: map<K, V>, filter: Option<((K, V)) -> bool>, response: map<K, V>)
    requires IsListingOf(c, all, m)
    requires forall k, v :: k in response && response[k] == v <==> (k, v) in all && Passes(filter, (k, v))
    ensures response == Filtered(m, filter)
  {
    forall k ensures k in response <==> k in Filtered(m, filter)
             ensures k in response ==> response[k] == Filtered(m, filter)[k] {
      if k in response {
        assert (k, response[k]) in all && Passes(filter, (k, response[k]));
      }
      if k in m {
        assert (k, m[k]) in all;
        assert Passes(filter, (k, m[k])) <==> k in Filtered(m, filter);
      }
    }
  }

  // Collects what an iterator yields and the filter accepts.
  method CollectFiltered<K(==,!new), V(!new)>(
      it: Iter<K, V>, filter: Option<((K, V)) -> bool>, ghost m: map<K, V>) returns (response: map<K, V>)
    requires it.Valid() && IsListingOf(it.schema.key, it.Pending(), m)
    modifies it.dbIter
    ensures response == Filtered(m, filter)
  {
    hide Iter.Valid, Iter.Pending;
    ghost var all := it.Pending();
    ghost var seen: seq<(K, V)> := [];
    response := map[];
    var item := it.Next();
    while item.Some?
      invariant it.Valid()
      invariant all == seen + (if item.Some? then [item.value] else []) + it.Pending()
      invariant item.None? ==> it.Pending() == []
      invariant forall k, v :: k in response && response[k] == v <==> (k, v) in seen && Passes(filter, (k, v))
      decreases |all| - |seen|
    {
      ListedOnce(it.schema.key, all, m, item.value);
      if filter.None? || filter.value(item.value) {
        response := response[item.value.0 := item.value.1];
      }
      seen := seen + [item.value];
      item := it.Next();
    }
    assert seen == all;
    CollectedIsFiltered(it.schema.key, all, m, filter, response);
  }
}
