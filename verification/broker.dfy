/** The in-memory WebSocket broker: sockets subscribe to `db:queue` keys, and
    every tick polls each subscribed queue once and hands the claimed job to
    one OPEN subscriber, or gives it back to the queue when there is none. */
module Broker {
  import opened Wrappers
  import opened Text
  import opened Table
  import opened Storage
  import Seqs
  import Service
  import opened MessageQueue

  /** Sockets are numbered in creation order. */
  type SocketId = nat

  const Connecting := 0
  const OpenState := 1
  const Closed := 3

  const DefaultDb := "postgres"

  /** An emulated socket: its `readyState` and the database it was opened on. */
  datatype Socket = Socket(readyState: int, db: string)

  /** What the emulator delivers to a socket. */
  datatype ServerFrame = JobFrame(job: Claim) | SubscribedFrame(queue: string)

  /** What a client sends, once parsed: a subscription to a queue, or any
      other event, which the emulator ignores. */
  datatype ClientFrame = Subscribe(queue: string) | OtherFrame

  /** The broker's subscriptions (an insertion-ordered map from scoped queue
      name to an insertion-ordered set of sockets), the sockets, and every
      frame delivered so far. */
  datatype World = World(subscriptions: Table<seq<SocketId>>, sockets: seq<Socket>,
                         delivered: seq<(SocketId, ServerFrame)>)

  const NoWorld := World([], [], [])

  /** No socket appears twice in a set. */
  predicate NoDuplicates(clients: seq<SocketId>) {
    forall i, j :: 0 <= i < j < |clients| ==> clients[i] != clients[j]
  }

  // ===========================================================================
  // Scoped queue names

  /** The subscription key `${db}:${queueName}`. */
  function ScopedKey(db: string, queue: string): string {
    db + ":" + queue
  }

  /** The tick's reading of a key: the database is the text before the first
      `:` and the queue name is everything after it. */
  function SplitKey(key: string): (r: (string, string))
    ensures ':' !in r.0
  {
    var parts := Split(key, ':');
    (parts[0], Join(parts[1..], ':'))
  }

  /** A key built from a database name without `:` reads back as that
      database and queue, whatever the queue name holds. */
  lemma SplitScopedKey(db: string, queue: string)
    requires ':' !in db
    ensures SplitKey(ScopedKey(db, queue)) == (db, queue)
  {
    assert ScopedKey(db, queue) == db + [':'] + queue;
    SplitCons(db, queue, ':');
    JoinSplit(queue, ':');
  }

  /** A database name holding `:` is read back as a shorter database name:
      the tick polls `a` for the queue `b:q` of database `a:b`. */
  lemma ColonInDatabaseName()
    ensures SplitKey(ScopedKey("a:b", "q")) == ("a", "b:q")
  {
    assert ScopedKey("a:b", "q") == "a" + [':'] + "b:q";
    SplitCons("a", "b:q", ':');
    JoinSplit("b:q", ':');
  }

  // ===========================================================================
  // Subscriptions

  /** `set.add(client)`: the set with the socket, which keeps its place when
      it was already there and goes last otherwise. */
  function AddClient(clients: seq<SocketId>, client: SocketId): (r: seq<SocketId>)
    ensures forall c :: c in r <==> c == client || c in clients
    ensures client in clients ==> r == clients
    ensures NoDuplicates(clients) ==> NoDuplicates(r)
  {
    if client in clients then clients else clients + [client]
  }

  /** `handleSubscribe`: adds the socket to the set of the key, creating the
      set (at the end of the map) on first use. */
  function HandleSubscribe(subs: Table<seq<SocketId>>, client: SocketId, db: string, queue: string)
    : (r: Table<seq<SocketId>>)
    ensures var key := ScopedKey(db, queue);
      && Get(r, key) == Some(AddClient(Get(subs, key).GetOr([]), client))
      && (forall k :: k != key ==> Get(r, k) == Get(subs, k))
      && Keys(r) == if Get(subs, key).Some? then Keys(subs) else Keys(subs) + [key]
  {
    var key := ScopedKey(db, queue);
    Set(subs, key, AddClient(Get(subs, key).GetOr([]), client))
  }

  /** Subscribing twice is subscribing once. */
  lemma SubscribeIdempotent(subs: Table<seq<SocketId>>, client: SocketId, db: string, queue: string)
    ensures var once := HandleSubscribe(subs, client, db, queue);
      HandleSubscribe(once, client, db, queue) == once
  {
    var key := ScopedKey(db, queue);
    var once := HandleSubscribe(subs, client, db, queue);
    var clients := Get(once, key).value;
    assert AddClient(clients, client) == clients;
    SetExisting(once, key, clients);
  }

  /** The test `c !== client`. */
  function Other(client: SocketId): SocketId -> bool {
    (c: SocketId) => c != client
  }

  /** `set.delete(client)`: the set without the socket, others in order. */
  function RemoveClient(clients: seq<SocketId>, client: SocketId): (r: seq<SocketId>)
    ensures forall c :: c in r <==> c in clients && c != client
    ensures NoDuplicates(clients) ==> NoDuplicates(r)
  {
    FilterMembership(clients, Other(client));
    FilterNoDuplicates(clients, Other(client));
    Seqs.Filter(clients, Other(client))
  }

  /** `handleDisconnect`: removes the socket from every set; the sets, now
      possibly empty, stay in the map. */
  function HandleDisconnect(subs: Table<seq<SocketId>>, client: SocketId): (r: Table<seq<SocketId>>)
    ensures |r| == |subs|
    ensures forall i :: 0 <= i < |r| ==> r[i] == Entry(subs[i].key, RemoveClient(subs[i].value, client))
  {
    seq(|subs|, i requires 0 <= i < |subs| => Entry(subs[i].key, RemoveClient(subs[i].value, client)))
  }

  /** After a disconnect the socket is in no set, every other socket is in
      the same sets as before, and the keys keep their order. */
  lemma DisconnectLeavesOthers(subs: Table<seq<SocketId>>, client: SocketId)
    ensures var r := HandleDisconnect(subs, client);
      && Keys(r) == Keys(subs)
      && (forall i :: 0 <= i < |r| ==> client !in r[i].value)
      && (forall i, c :: 0 <= i < |r| && c != client ==> (c in r[i].value <==> c in subs[i].value))
  {
    var r := HandleDisconnect(subs, client);
    assert forall i :: 0 <= i < |r| ==> Keys(r)[i] == Keys(subs)[i];
  }

  /** What `filter` keeps: exactly the elements satisfying `p`. */
  lemma FilterMembership(s: seq<SocketId>, p: SocketId -> bool)
    ensures forall c :: c in Seqs.Filter(s, p) <==> c in s && p(c)
  {
    var r := Seqs.Filter(s, p);
    forall c ensures c in r <==> c in s && p(c) {
      assert c in r <==> c in multiset(r);
      assert c in s <==> c in multiset(s);
    }
  }

  /** `filter` keeps no element twice when the input held none twice. */
  lemma {:induction false} FilterNoDuplicates(s: seq<SocketId>, p: SocketId -> bool)
    ensures NoDuplicates(s) ==> NoDuplicates(Seqs.Filter(s, p))
  {
    if |s| > 0 && NoDuplicates(s) {
      NoDuplicatesCons(s);
      FilterNoDuplicates(s[1..], p);
      var r := Seqs.Filter(s, p);
      var rest := Seqs.Filter(s[1..], p);
      if p(s[0]) {
        assert r == [s[0]] + rest;
        assert s[0] !in rest by {
          assert multiset(rest)[s[0]] == 0;
        }
        NoDuplicatesCons(r);
      }
    }
  }

  /** A sequence is duplicate-free exactly when its head does not recur and
      its tail is duplicate-free. */
  lemma NoDuplicatesCons(s: seq<SocketId>)
    requires |s| > 0
    ensures NoDuplicates(s) <==> s[0] !in s[1..] && NoDuplicates(s[1..])
  {
    assert forall i :: 0 <= i < |s| - 1 ==> s[1..][i] == s[i + 1];
  }


  // ===========================================================================
  // Choosing a worker

  /** The socket exists and is OPEN. */
  predicate OpenIn(sockets: seq<Socket>, c: SocketId) {
    c < |sockets| && sockets[c].readyState == OpenState
  }

  function IsOpen(sockets: seq<Socket>): SocketId -> bool {
    (c: SocketId) => OpenIn(sockets, c)
  }

  /** `selectWorker`: one of the set's OPEN sockets, `None` when there is no
      such socket. `Math.random()` becomes the parameter `pick`, taken modulo
      the number of OPEN sockets. */
  function SelectWorker(clients: seq<SocketId>, sockets: seq<Socket>, pick: nat): (r: Option<SocketId>)
    ensures r.None? <==> forall c :: c in clients ==> !OpenIn(sockets, c)
    ensures r.Some? ==> r.value in clients && OpenIn(sockets, r.value)
  {
    var open := Seqs.Filter(clients, IsOpen(sockets));
    FilterMembership(clients, IsOpen(sockets));
    if |open| == 0 then None
    else
      assert open[pick % |open|] in open;
      Some(open[pick % |open|])
  }

  lemma ModBelow(j: nat, n: nat)
    requires j < n
    ensures j % n == j
  {
  }

  /** Every OPEN subscriber is the choice of some draw of the random number. */
  lemma EveryOpenWorkerCanBeChosen(clients: seq<SocketId>, sockets: seq<Socket>, c: SocketId)
    requires c in clients && OpenIn(sockets, c)
    ensures exists pick: nat :: SelectWorker(clients, sockets, pick) == Some(c)
  {
    var open := Seqs.Filter(clients, IsOpen(sockets));
    Seqs.FilterKeeps(clients, IsOpen(sockets), c);
    var j :| 0 <= j < |open| && open[j] == c;
    ModBelow(j, |open|);
    assert SelectWorker(clients, sockets, j) == Some(c);
  }

  // ===========================================================================
  // One tick

  /** The tick's work for one subscription: nothing for an empty set;
      otherwise one poll of the queue on its database, and the claimed job
      goes to the chosen worker, or is nacked when no socket is OPEN. A poll
      that throws is logged and skipped. */
  function Serve(reg: Registry, key: string, clients: seq<SocketId>, sockets: seq<Socket>, now: int, pick: nat)
    : (r: (Registry, Option<(SocketId, Claim)>))
    ensures |clients| == 0 ==> r == (reg, None)
    ensures r.1.Some? ==> r.1.value.0 in clients && OpenIn(sockets, r.1.value.0)
    ensures r.1.Some? ==>
      var (db, queue) := SplitKey(key);
      Poll(GetStore(reg, db).1, queue, now).1 == Success(Some(r.1.value.1))
    ensures |clients| > 0 ==> r.0.instances.Keys == reg.instances.Keys + {SplitKey(key).0}
    ensures forall name :: name in reg.instances && name != SplitKey(key).0 ==>
              r.0.instances[name] == reg.instances[name]
  {
    if |clients| == 0 then (reg, None)
    else
      var (db, queue) := SplitKey(key);
      var (reg1, s) := GetStore(reg, db);
      var (s1, res) := Poll(s, queue, now);
      var reg2 := Update(reg1, db, s1);
      if res.Failure? || res.value.None? then (reg2, None)
      else
        var job := res.value.value;
        var worker := SelectWorker(clients, sockets, pick);
        if worker.Some? then (reg2, Some((worker.value, job)))
        else (Update(reg2, db, Nack(s1, Some(job.id), now)), None)
  }

  /** With an OPEN subscriber, the job a tick claims is delivered, and the
      key's database keeps the claim the poll made. */
  lemma OpenWorkerGetsJob(reg: Registry, key: string, clients: seq<SocketId>, sockets: seq<Socket>,
                          now: int, pick: nat, c: SocketId)
    requires c in clients && OpenIn(sockets, c)
    requires ClaimedId(Poll(GetStore(reg, SplitKey(key).0).1, SplitKey(key).1, now).1).Some?
    ensures Serve(reg, key, clients, sockets, now, pick).1.Some?
    ensures Serve(reg, key, clients, sockets, now, pick).1.value.0 == SelectWorker(clients, sockets, pick).value
    ensures Serve(reg, key, clients, sockets, now, pick).0.instances[SplitKey(key).0]
            == Poll(GetStore(reg, SplitKey(key).0).1, SplitKey(key).1, now).0
  {
    Seqs.FilterKeeps(clients, IsOpen(sockets), c);
  }

  /** With no OPEN subscriber, the job a tick claims goes straight back to
      pending, due again after the nack back-off, with the attempt counted. */
  lemma NoWorkerNacks(reg: Registry, key: string, clients: seq<SocketId>, sockets: seq<Socket>,
                      now: int, pick: nat)
    requires |clients| > 0 && forall c :: c in clients ==> !OpenIn(sockets, c)
    requires var (db, queue) := SplitKey(key);
      var s := GetStore(reg, db).1;
      UniqueIds(s.queue) && ClaimedId(Poll(s, queue, now).1).Some?
    ensures var (db, queue) := SplitKey(key);
      var s := GetStore(reg, db).1;
      var i := FirstEligible(s.queue, queue, now).value;
      var m := Serve(reg, key, clients, sockets, now, pick).0.instances[db].queue[i];
      && Serve(reg, key, clients, sockets, now, pick).1.None?
      && m.status == Pending && m.notBefore == now + NackBackoffMs
      && m.attempt == s.queue[i].attempt + 1 && m.messageId == s.queue[i].messageId
  {
    var (db, queue) := SplitKey(key);
    var s := GetStore(reg, db).1;
    var i := FirstEligible(s.queue, queue, now).value;
    var (s1, res) := Poll(s, queue, now);
    assert s1.queue[i].messageId == s.queue[i].messageId;
    assert res.value.value.id == s.queue[i].messageId;
    assert MessageIndex(s1.queue, Some(s.queue[i].messageId)) == Some(i) by {
      assert forall j :: 0 <= j < |s1.queue| && j != i ==> s1.queue[j] == s.queue[j];
    }
  }

  /** The sockets subscribed to any key. */
  function Subscribers(subs: Table<seq<SocketId>>): seq<SocketId> {
    if |subs| == 0 then [] else Subscribers(subs[..|subs| - 1]) + subs[|subs| - 1].value
  }

  /** The databases a tick polls: those of keys with a non-empty set. */
  function PolledDbs(subs: Table<seq<SocketId>>): set<string> {
    if |subs| == 0 then {}
    else
      var last := subs[|subs| - 1];
      PolledDbs(subs[..|subs| - 1]) + (if |last.value| > 0 then {SplitKey(last.key).0} else {})
  }

  /** The frame a served subscription delivers. */
  function Sent(d: Option<(SocketId, Claim)>): seq<(SocketId, ServerFrame)> {
    if d.Some? then [(d.value.0, JobFrame(d.value.1))] else []
  }

  /** The polling callback over the subscriptions in map order; the `k`-th
      subscription draws the random number `picks(k)`. It returns the
      registry after every poll, ack and nack, and the jobs sent. */
  function TickOver(reg: Registry, subs: Table<seq<SocketId>>, sockets: seq<Socket>, now: int,
                    picks: nat -> nat): (r: (Registry, seq<(SocketId, ServerFrame)>))
    ensures |r.1| <= |subs|
    ensures forall j :: 0 <= j < |r.1| ==>
      r.1[j].1.JobFrame? && r.1[j].0 in Subscribers(subs) && OpenIn(sockets, r.1[j].0)
  {
    if |subs| == 0 then (reg, [])
    else
      var n := |subs| - 1;
      var prev := TickOver(reg, subs[..n], sockets, now, picks);
      var served := Serve(prev.0, subs[n].key, subs[n].value, sockets, now, picks(n));
      assert Subscribers(subs) == Subscribers(subs[..n]) + subs[n].value;
      (served.0, prev.1 + Sent(served.1))
  }

  /** A pass creates exactly the databases of the keys it polls. */
  lemma {:induction false} TickOverCreates(reg: Registry, subs: Table<seq<SocketId>>, sockets: seq<Socket>,
                                           now: int, picks: nat -> nat)
    ensures forall name :: name in TickOver(reg, subs, sockets, now, picks).0.instances
                           <==> name in reg.instances || name in PolledDbs(subs)
  {
    if |subs| > 0 {
      var n := |subs| - 1;
      TickOverCreates(reg, subs[..n], sockets, now, picks);
      var reg1 := TickOver(reg, subs[..n], sockets, now, picks).0;
      var reg2 := Serve(reg1, subs[n].key, subs[n].value, sockets, now, picks(n)).0;
      assert TickOver(reg, subs, sockets, now, picks).0 == reg2;
      var polled := if |subs[n].value| > 0 then {SplitKey(subs[n].key).0} else {};
      assert forall name :: name in reg2.instances <==> name in reg1.instances || name in polled;
      assert forall name :: name in PolledDbs(subs) <==> name in PolledDbs(subs[..n]) || name in polled;
    }
  }

  /** A pass leaves every database it does not poll as it was. */
  lemma {:induction false} TickOverLeavesOthers(reg: Registry, subs: Table<seq<SocketId>>, sockets: seq<Socket>,
                                                now: int, picks: nat -> nat, name: string)
    requires name in reg.instances && name !in PolledDbs(subs)
    ensures name in TickOver(reg, subs, sockets, now, picks).0.instances
    ensures TickOver(reg, subs, sockets, now, picks).0.instances[name] == reg.instances[name]
  {
    TickOverCreates(reg, subs, sockets, now, picks);
    if |subs| > 0 {
      var n := |subs| - 1;
      TickOverLeavesOthers(reg, subs[..n], sockets, now, picks, name);
      TickOverCreates(reg, subs[..n], sockets, now, picks);
      var reg1 := TickOver(reg, subs[..n], sockets, now, picks).0;
      var reg2 := Serve(reg1, subs[n].key, subs[n].value, sockets, now, picks(n)).0;
      assert TickOver(reg, subs, sockets, now, picks).0 == reg2;
      assert name != SplitKey(subs[n].key).0 || |subs[n].value| == 0;
    }
  }

  /** What each subscription's turn of a pass yields, key by key: the
      `k`-th entry is the serve of the `k`-th key on the registry the first
      `k` keys left behind. */
  function Outcomes(reg: Registry, subs: Table<seq<SocketId>>, sockets: seq<Socket>, now: int,
                    picks: nat -> nat): (r: seq<Option<(SocketId, Claim)>>)
    ensures |r| == |subs|
  {
    seq(|subs|, k requires 0 <= k < |subs| =>
      Serve(TickOver(reg, subs[..k], sockets, now, picks).0, subs[k].key, subs[k].value, sockets, now, picks(k)).1)
  }

  /** The frames of a sequence of outcomes, in order. */
  function Frames(os: seq<Option<(SocketId, Claim)>>): seq<(SocketId, ServerFrame)> {
    if |os| == 0 then [] else Frames(os[..|os| - 1]) + Sent(os[|os| - 1])
  }

  /** The frames of a pass are the outcomes of its keys, in map order, one
      frame at most per key: the `k`-th key's job goes to an OPEN socket of
      that key's set, and is what polling that key's queue, on the key's
      database as the earlier keys left it, handed out. */
  lemma {:induction false} TickOverPerKey(reg: Registry, subs: Table<seq<SocketId>>, sockets: seq<Socket>,
                                          now: int, picks: nat -> nat)
    ensures TickOver(reg, subs, sockets, now, picks).1 == Frames(Outcomes(reg, subs, sockets, now, picks))
    ensures forall k :: 0 <= k < |subs| ==>
      Outcomes(reg, subs, sockets, now, picks)[k]
      == Serve(TickOver(reg, subs[..k], sockets, now, picks).0, subs[k].key, subs[k].value, sockets, now, picks(k)).1
    ensures forall k :: 0 <= k < |subs| && Outcomes(reg, subs, sockets, now, picks)[k].Some? ==>
      var (c, job) := Outcomes(reg, subs, sockets, now, picks)[k].value;
      var (db, queue) := SplitKey(subs[k].key);
      && c in subs[k].value && OpenIn(sockets, c)
      && Poll(GetStore(TickOver(reg, subs[..k], sockets, now, picks).0, db).1, queue, now).1 == Success(Some(job))
  {
    TickOverFrames(reg, subs, sockets, now, picks);
  }

  /** The frames of a pass are the frames of its outcomes. */
  lemma {:induction false} TickOverFrames(reg: Registry, subs: Table<seq<SocketId>>, sockets: seq<Socket>,
                                          now: int, picks: nat -> nat)
    ensures TickOver(reg, subs, sockets, now, picks).1 == Frames(Outcomes(reg, subs, sockets, now, picks))
  {
    if |subs| > 0 {
      var n := |subs| - 1;
      var os := Outcomes(reg, subs, sockets, now, picks);
      var pre := Outcomes(reg, subs[..n], sockets, now, picks);
      assert TickOver(reg, subs[..n], sockets, now, picks).1 == Frames(pre) by {
        TickOverFrames(reg, subs[..n], sockets, now, picks);
      }
      assert Frames(os) == Frames(pre) + Sent(os[n]) by {
        OutcomesSnoc(reg, subs, sockets, now, picks);
        FramesSnoc(os, pre);
      }
      assert TickOver(reg, subs, sockets, now, picks).1 == TickOver(reg, subs[..n], sockets, now, picks).1 + Sent(os[n]);
    }
  }

  /** The frames of one more outcome end with that outcome's frame. */
  lemma FramesSnoc(os: seq<Option<(SocketId, Claim)>>, pre: seq<Option<(SocketId, Claim)>>)
    requires |os| == |pre| + 1 && os[..|pre|] == pre
    ensures Frames(os) == Frames(pre) + Sent(os[|pre|])
  {
  }

  /** The outcomes of a table are those of all but its last key, followed by
      the serve of the last key. */
  lemma OutcomesSnoc(reg: Registry, subs: Table<seq<SocketId>>, sockets: seq<Socket>, now: int,
                     picks: nat -> nat)
    requires |subs| > 0
    ensures Outcomes(reg, subs, sockets, now, picks)[..|subs| - 1] == Outcomes(reg, subs[..|subs| - 1], sockets, now, picks)
    ensures Outcomes(reg, subs, sockets, now, picks)
            == Outcomes(reg, subs[..|subs| - 1], sockets, now, picks)
               + [Serve(TickOver(reg, subs[..|subs| - 1], sockets, now, picks).0, subs[|subs| - 1].key,
                        subs[|subs| - 1].value, sockets, now, picks(|subs| - 1)).1]
  {
    var n := |subs| - 1;
    var os := Outcomes(reg, subs, sockets, now, picks);
    var pre := Outcomes(reg, subs[..n], sockets, now, picks);
    forall k | 0 <= k < n ensures os[k] == pre[k] {
      assert subs[..n][..k] == subs[..k] && subs[..n][k] == subs[k];
    }
    Seqs.SnocOfPrefix(os, pre);
  }

  /** `setInterval`'s callback: one pass over the subscriptions; the jobs are
      delivered to their sockets in the order they were claimed. */
  function Tick(reg: Registry, w: World, now: int, picks: nat -> nat): (r: (Registry, World))
    ensures r.1 == w.(delivered := r.1.delivered)
    ensures r.1.delivered == w.delivered + Frames(Outcomes(reg, w.subscriptions, w.sockets, now, picks))
    ensures w.delivered <= r.1.delivered
    ensures |r.1.delivered| <= |w.delivered| + |w.subscriptions|
    ensures forall j :: |w.delivered| <= j < |r.1.delivered| ==>
      var (c, frame) := r.1.delivered[j];
      frame.JobFrame? && c in Subscribers(w.subscriptions) && OpenIn(w.sockets, c)
  {
    TickOverPerKey(reg, w.subscriptions, w.sockets, now, picks);
    var (reg1, sent) := TickOver(reg, w.subscriptions, w.sockets, now, picks);
    (reg1, w.(delivered := w.delivered + sent))
  }

  // ===========================================================================
  // Sockets

  /** `new EmulatorWebSocket(url)`: a CONNECTING socket on the `db` search
      parameter of the URL, or `postgres` when it is missing or empty. */
  function Connect(w: World, dbParam: Option<string>): (r: (World, SocketId))
    ensures r.1 == |w.sockets| && |r.0.sockets| == |w.sockets| + 1
    ensures r.0 == w.(sockets := w.sockets + [r.0.sockets[r.1]])
    ensures r.0.sockets[r.1].readyState == Connecting
    ensures r.0.sockets[r.1].db == if dbParam.Some? && dbParam.value != "" then dbParam.value else DefaultDb
  {
    var db := Service.OrString(dbParam, DefaultDb);
    (w.(sockets := w.sockets + [Socket(Connecting, db)]), |w.sockets|)
  }

  /** The open timer as written: it marks the socket OPEN whatever state it
      is in by then. */
  function OpenTimerAsWritten(w: World, id: SocketId): (r: World)
    requires id < |w.sockets|
    ensures |r.sockets| == |w.sockets| && r.sockets[id].readyState == OpenState
    ensures r.sockets[id].db == w.sockets[id].db
    ensures forall i :: 0 <= i < |w.sockets| && i != id ==> r.sockets[i] == w.sockets[i]
    ensures r.subscriptions == w.subscriptions && r.delivered == w.delivered
  {
    w.(sockets := w.sockets[id := w.sockets[id].(readyState := OpenState)])
  }

  /** The open timer as a WebSocket behaves: a CONNECTING socket becomes
      OPEN, a socket closed meanwhile stays closed. */
  function OpenTimer(w: World, id: SocketId): (r: World)
    requires id < |w.sockets|
    ensures w.sockets[id].readyState == Connecting ==> r == OpenTimerAsWritten(w, id)
    ensures w.sockets[id].readyState != Connecting ==> r == w
  {
    if w.sockets[id].readyState == Connecting then
      w.(sockets := w.sockets[id := w.sockets[id].(readyState := OpenState)])
    else w
  }

  /** `send(data)` on a socket: a `SUBSCRIBE` subscribes it to the queue on
      its database and is answered with `SUBSCRIBED`; anything else is
      ignored. The socket's state is not consulted. */
  function Send(w: World, id: SocketId, frame: ClientFrame): (r: World)
    requires id < |w.sockets|
    ensures frame.OtherFrame? ==> r == w
    ensures frame.Subscribe? ==>
      && r.sockets == w.sockets
      && r.subscriptions == HandleSubscribe(w.subscriptions, id, w.sockets[id].db, frame.queue)
      && r.delivered == w.delivered + [(id, SubscribedFrame(frame.queue))]
  {
    match frame
    case Subscribe(queue) =>
      World(HandleSubscribe(w.subscriptions, id, w.sockets[id].db, queue), w.sockets,
            w.delivered + [(id, SubscribedFrame(queue))])
    case OtherFrame => w
  }

  /** `close()`: the socket becomes CLOSED and leaves every subscription. */
  function Close(w: World, id: SocketId): (r: World)
    requires id < |w.sockets|
    ensures r.sockets == w.sockets[id := w.sockets[id].(readyState := Closed)]
    ensures r.subscriptions == HandleDisconnect(w.subscriptions, id)
    ensures r.delivered == w.delivered
  {
    World(HandleDisconnect(w.subscriptions, id), w.sockets[id := w.sockets[id].(readyState := Closed)],
          w.delivered)
  }

  /** As written, a socket closed before its open timer fires is OPEN
      afterwards, and a `SUBSCRIBE` sent from its `onopen` handler puts it
      back among the workers. */
  lemma ClosedSocketReopens(w: World, dbParam: Option<string>, queue: string)
    ensures var (w1, id) := Connect(w, dbParam);
      var w2 := OpenTimerAsWritten(Close(w1, id), id);
      var w3 := Send(w2, id, Subscribe(queue));
      && w2.sockets[id].readyState == OpenState
      && id in Get(w3.subscriptions, ScopedKey(w1.sockets[id].db, queue)).value
  {
  }

  /** A closed socket stays closed, and no tick hands it a job. */
  lemma ClosedSocketStaysClosed(reg: Registry, w: World, id: SocketId, now: int, picks: nat -> nat)
    requires id < |w.sockets|
    ensures var w1 := OpenTimer(Close(w, id), id);
      && w1.sockets[id].readyState == Closed
      && forall j :: |w1.delivered| <= j < |Tick(reg, w1, now, picks).1.delivered| ==>
           Tick(reg, w1, now, picks).1.delivered[j].0 != id
  {
  }

  /** A socket that subscribed is among the subscribers of its key until it
      closes. */
  lemma SubscribedUntilClose(w: World, id: SocketId, queue: string, other: SocketId)
    requires id < |w.sockets| && other < |w.sockets| && other != id
    ensures var w1 := Send(w, id, Subscribe(queue));
      var key := ScopedKey(w.sockets[id].db, queue);
      && id in Get(w1.subscriptions, key).value
      && id in Get(Close(w1, other).subscriptions, key).value
      && id !in Get(Close(w1, id).subscriptions, key).value
  {
    var w1 := Send(w, id, Subscribe(queue));
    var key := ScopedKey(w.sockets[id].db, queue);
    assert id in Get(w1.subscriptions, key).value;
    DisconnectGet(w1.subscriptions, other, key);
    DisconnectGet(w1.subscriptions, id, key);
  }

  /** `get` after a disconnect: the same key, without the socket. */
  lemma {:induction false} DisconnectGet(subs: Table<seq<SocketId>>, client: SocketId, key: string)
    ensures Get(HandleDisconnect(subs, client), key) ==
      if Get(subs, key).Some? then Some(RemoveClient(Get(subs, key).value, client)) else None
  {
    if |subs| > 0 && subs[0].key != key {
      DisconnectGet(subs[1..], client, key);
      assert HandleDisconnect(subs, client)[1..] == HandleDisconnect(subs[1..], client);
    }
  }

  /** The subscriptions a broker keeps: one entry per key, no socket twice
      in a set. */
  ghost predicate WellFormed(subs: Table<seq<SocketId>>) {
    && UniqueKeys(subs)
    && forall k :: Get(subs, k).Some? ==> NoDuplicates(Get(subs, k).value)
  }

  /** Subscribing keeps the subscriptions well formed. */
  lemma SubscribeKeepsWellFormed(subs: Table<seq<SocketId>>, client: SocketId, db: string, queue: string)
    requires WellFormed(subs)
    ensures WellFormed(HandleSubscribe(subs, client, db, queue))
  {
    var key := ScopedKey(db, queue);
    SetUnique(subs, key, AddClient(Get(subs, key).GetOr([]), client));
  }

  /** Disconnecting keeps the subscriptions well formed. */
  lemma DisconnectKeepsWellFormed(subs: Table<seq<SocketId>>, client: SocketId)
    requires WellFormed(subs)
    ensures WellFormed(HandleDisconnect(subs, client))
  {
    var r := HandleDisconnect(subs, client);
    forall k | Get(r, k).Some? ensures NoDuplicates(Get(r, k).value) {
      DisconnectGet(subs, client, k);
    }
  }
}
