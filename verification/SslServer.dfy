/** `SSLServer` as the object it is (src/stms/net/ssl_server.cpp:56-127, 210-229, 334-433, 606-622):
    its table, its dead queue and what it submits. Each method is proved to do what the
    transition system `ServerModel` says. */
module SslServer {
  import opened Basics
  import opened ServerModel

  /** The scans of one tick, in the order in which it meets the clients. */
  function ScanAll(s: Server, order: seq<Uuid>, see: Uuid -> Seen): (s': Server)
    requires forall u | u in order :: u in s.clients
    ensures s'.clients == s.clients && s'.disconnects == s.disconnects && s'.inserted == s.inserted
  {
    if order == [] then s
    else
      var n := |order| - 1;
      Next(ScanAll(s, order[..n], see), Scan(order[n], see(order[n])), 0)
  }

  /** From `s` to `s'` one read task has started for each client of `order` that had data and was not
      being read. */
  ghost predicate ReadsStarted(s: Server, s': Server, order: seq<Uuid>, see: Uuid -> Seen)
    requires forall u | u in order :: u in s.clients
  {
    var n := |s.readTasks|;
    && s'.clients == s.clients
    && n <= |s'.readTasks| && s'.readTasks[..n] == s.readTasks
    && (forall k :: n <= k < |s'.readTasks| ==>
          var t := s'.readTasks[k];
          && t.phase == Reading(0) && t.uuid in order && s.clients[t.uuid] == t.conn
          && see(t.uuid).DataReady? && t.conn !in s.reading && t.conn in s'.reading)
    && (forall j, k :: n <= j < k < |s'.readTasks| ==> s'.readTasks[j].conn != s'.readTasks[k].conn)
    && s.reading <= s'.reading
    && (forall c :: c in s'.reading - s.reading ==> exists k :: n <= k < |s'.readTasks| && s'.readTasks[k].conn == c)
    && forall u :: u in order && see(u).DataReady? ==> s.clients[u] in s'.reading
  }

  lemma OneMoreScan(s: Server, s1: Server, order: seq<Uuid>, uuid: Uuid, see: Uuid -> Seen)
    requires (forall u | u in order :: u in s.clients) && uuid in s.clients && ReadsStarted(s, s1, order, see)
    ensures ReadsStarted(s, Next(s1, Scan(uuid, see(uuid)), 0), order + [uuid], see)
  {
    var s', n, m := Next(s1, Scan(uuid, see(uuid)), 0), |s.readTasks|, |s1.readTasks|;
    assert s'.readTasks[..m] == s1.readTasks;
    assert s'.readTasks[..n] == s.readTasks;
    assert s'.reading != s1.reading ==> s'.readTasks[m].conn == s1.clients[uuid];
    forall c | c in s'.reading - s.reading
      ensures exists k :: n <= k < |s'.readTasks| && s'.readTasks[k].conn == c
    {
      if c in s1.reading {
        assert c in s1.reading - s.reading;
        var k :| n <= k < m && s1.readTasks[k].conn == c;
        assert s'.readTasks[k].conn == c;
      }
    }
  }

  /** The scan starts one read task for each client with data that is not being read. */
  lemma {:induction false} ScanStartsReads(s: Server, order: seq<Uuid>, see: Uuid -> Seen)
    requires forall u | u in order :: u in s.clients
    ensures ReadsStarted(s, ScanAll(s, order, see), order, see)
  {
    if order == [] {
      assert s.readTasks[..|s.readTasks|] == s.readTasks;
    } else {
      hide ReadsStarted, ScanAll, ScanClient;
      var n := |order| - 1;
      ScanStartsReads(s, order[..n], see);
      OneMoreScan(s, ScanAll(s, order[..n], see), order[..n], order[n], see);
      ScanLast(s, order, see);
      FrontAndLast(order);
    }
  }

  lemma ScanLast(s: Server, order: seq<Uuid>, see: Uuid -> Seen)
    requires order != [] && forall u | u in order :: u in s.clients
    ensures var n := |order| - 1;
            ScanAll(s, order, see) == Next(ScanAll(s, order[..n], see), Scan(order[n], see(order[n])), 0)
  {
  }

  lemma {:induction false} ScanMarksTheDying(s: Server, order: seq<Uuid>, see: Uuid -> Seen)
    requires forall u | u in order :: u in s.clients
    ensures Ids(ScanAll(s, order, see).dead) == Ids(s.dead) + Dying(order, see)
  {
    if order == [] {
      assert Dying(order, see) == {};
    } else {
      var n := |order| - 1;
      ScanMarksTheDying(s, order[..n], see);
      var before := ScanAll(s, order[..n], see);
      assert order == order[..n] + [order[n]];
      assert Dying(order, see) == Dying(order[..n], see) + if IsDying(see(order[n])) then {order[n]} else {};
      assert Ids(before.dead + [order[n]]) == Ids(before.dead) + {order[n]};
    }
  }

  predicate IsDying(seen: Seen) {
    seen.ReceivedShutdown? || seen.TimedOut?
  }

  function Dying(order: seq<Uuid>, see: Uuid -> Seen): set<Uuid> {
    set u | u in order && IsDying(see(u))
  }

  class SSLServer {
    var running: bool
    var clients: map<Uuid, Conn>
    var deadClients: seq<Uuid>

    // connections entered so far, what the pool was given, and the clients' read tasks and flags
    var inserted: nat
    var disconnects: seq<Disconnect>
    var reading: set<Conn>
    var readTasks: seq<ReadTask>

    constructor ()
      ensures Value() == EMPTY && !running
    {
      running, clients, deadClients := false, map[], [];
      inserted, disconnects, reading, readTasks := 0, [], {}, [];
    }

    function Value(): Server
      reads this
    {
      Server(clients, deadClients, inserted, disconnects, reading, readTasks)
    }

    /** The end of a successful `doHandshake`. */
    method AddClient(uuid: Uuid) returns (conn: Conn)
      modifies this`clients, this`inserted
      ensures Value() == Next(old(Value()), Insert(uuid), 0)
      ensures conn == old(inserted) && inserted == old(inserted) + 1
      ensures clients.Keys == old(clients).Keys + {uuid} && clients[uuid] == conn
      ensures forall u :: u in clients && u != uuid ==> clients[u] == old(clients)[u]
    {
      conn := inserted;
      inserted := inserted + 1;
      clients := clients[uuid := conn];
    }

    method KickClient(uuid: Uuid)
      modifies this`deadClients
      ensures Value() == Next(old(Value()), MarkDead(uuid), 0)
      ensures deadClients == old(deadClients) + [uuid]
    {
      deadClients := deadClients + [uuid];
    }

    method SetNewUuid(was: Uuid, next: Uuid) returns (found: bool)
      modifies this`clients
      ensures Value() == Next(old(Value()), Rename(was, next), 0) && found == (was in old(clients))
      ensures !found ==> clients == old(clients)
      ensures found ==> next in clients && clients[next] == old(clients)[was] && (was != next ==> was !in clients)
      ensures forall u :: u != was && u != next ==>
                (u in clients <==> u in old(clients)) && (u in clients ==> clients[u] == old(clients)[u])
    {
      if was !in clients {
        return false;
      }
      var clientValue := clients[was];
      clients := clients - {was};
      clients := clients[next := clientValue];
      return true;
    }

    method OnStop() returns (order: seq<Uuid>)
      modifies this`clients, this`disconnects
      ensures Lists(order, old(clients).Keys) && Value() == Next(old(Value()), Action.Stop(order), 0)
      ensures clients == map[] && |disconnects| == |old(disconnects)| + |order| == |old(disconnects)| + |old(clients)|
      ensures disconnects[..|old(disconnects)|] == old(disconnects)
      ensures forall k :: 0 <= k < |order| ==>
                disconnects[|old(disconnects)| + k] == Disconnect(order[k], old(clients)[order[k]])
    {
      order := [];
      var todo := clients.Keys;
      while todo != {}
        invariant clients == old(clients) && todo <= clients.Keys && Lists(order, clients.Keys - todo)
        invariant disconnects == old(disconnects) + DisconnectTasks(clients, order)
      {
        var uuid :| uuid in todo;
        TaskAppend(clients, order, uuid);
        disconnects := disconnects + [Disconnect(uuid, clients[uuid])];
        order := order + [uuid];
        todo := todo - {uuid};
      }
      assert clients.Keys - {} == clients.Keys;
      ListLength(order, clients.Keys);
      clients := map[];
    }

    method ScanOne(uuid: Uuid, seen: Seen)
      requires uuid in clients
      modifies this`deadClients, this`reading, this`readTasks
      ensures Value() == Next(old(Value()), Scan(uuid, seen), 0)
    {
      if seen.ReceivedShutdown? {
        deadClients := deadClients + [uuid];
      } else {
        if seen.TimedOut? {
          deadClients := deadClients + [uuid];
          return;
        }
        if seen.NoData? {
          return;
        }
        if clients[uuid] !in reading {
          reading := reading + {clients[uuid]};
          readTasks := readTasks + [ReadTask(clients[uuid], uuid, Reading(0))];
        }
      }
    }

    /** The read task `i`, if nothing else happens while it runs: it has the effect of its turns. */
    method RunReadTask(i: nat, answers: nat -> Answer, maxTimeouts: int)
      requires i < |readTasks| && readTasks[i].phase == Reading(0)
      modifies this`deadClients, this`reading, this`readTasks
      ensures Value() == FinishRead(old(Value()), i, answers, 0, maxTimeouts)
      ensures reading == old(reading) - {old(readTasks)[i].conn}
      ensures readTasks == old(readTasks)[..i] + old(readTasks)[i + 1..]
      ensures |old(deadClients)| <= |deadClients| && deadClients[..|old(deadClients)|] == old(deadClients)
      ensures forall k :: |old(deadClients)| <= k < |deadClients| ==> deadClients[k] == old(readTasks)[i].uuid
      ensures |deadClients| == |old(deadClients)| <==>
                exists n: nat :: n < maxTimeouts && answers(n).Got? && forall j: nat :: j < n ==> answers(j).Retry?
      ensures |deadClients| <= |old(deadClients)| + 2
      ensures |deadClients| == |old(deadClients)| + 2 <==>
                && 0 < maxTimeouts && answers(maxTimeouts - 1).Fatal?
                && forall j: nat :: j < maxTimeouts - 1 ==> answers(j).Retry?
    {
      hide FinishRead, EndOfRead;
      var uuid := readTasks[i].uuid;
      ghost var marks := Marks(answers, 0, maxTimeouts);
      var readTimeouts, tries := 0, 0;
      while readTimeouts < maxTimeouts
        invariant readTimeouts == tries
        invariant deadClients == old(deadClients) && readTasks == old(readTasks) && reading == old(reading)
        invariant marks == Marks(answers, tries, maxTimeouts)
      {
        var answer := answers(tries);
        readTimeouts, tries := readTimeouts + 1, tries + 1;
        if answer.Got? {
          readTimeouts := 0;
          break;
        }
        if answer.Fatal? {
          deadClients := deadClients + [uuid];
          break;
        }
      }
      if readTimeouts >= maxTimeouts {
        deadClients := deadClients + [uuid];
      }
      assert deadClients == old(deadClients) + seq(marks, _ => uuid);
      SparedIfRead(answers, 0, maxTimeouts);
      MarkedTwice(answers, 0, maxTimeouts);
      reading := reading - {readTasks[i].conn};
      readTasks := readTasks[..i] + readTasks[i + 1..];
      ReadOutcome(old(Value()), i, answers, 0, maxTimeouts);
      EndOfReadIs(old(Value()), i, marks);
    }

    method ReapDead()
      modifies this`clients, this`deadClients, this`disconnects
      ensures Value() == Next(old(Value()), Reap, 0)
    {
      while deadClients != []
        invariant ReapAll(Value()) == ReapAll(old(Value()))
        decreases |deadClients|
      {
        ghost var before := Value();
        var uuid := deadClients[0];
        deadClients := deadClients[1..];
        if uuid in clients {
          disconnects := disconnects + [Disconnect(uuid, clients[uuid])];
          clients := clients - {uuid};
        }
        assert Value() == ReapFront(before);
      }
    }

    /** The loop of `tick` over the clients; `see` is what it finds out about each. */
    method ScanClients(see: Uuid -> Seen) returns (order: seq<Uuid>)
      modifies this`deadClients, this`reading, this`readTasks
      ensures Lists(order, clients.Keys) && Value() == ScanAll(old(Value()), order, see)
    {
      hide ScanAll, ScanClient;
      order := [];
      var todo := clients.Keys;
      ghost var before := Value();
      ScanNone(before, see);
      while todo != {}
        invariant todo <= clients.Keys && Lists(order, clients.Keys - todo)
        invariant Value() == ScanAll(before, order, see)
      {
        var uuid :| uuid in todo;
        ScanAppend(before, order, uuid, see);
        ScanOne(uuid, see(uuid));
        order := order + [uuid];
        todo := todo - {uuid};
      }
      assert clients.Keys - {} == clients.Keys;
    }

    /** `tick` once new connections have been looked for. Afterwards exactly the clients that
        were marked dead, or are found dying, are gone. */
    method Tick(see: Uuid -> Seen) returns (alive: bool, order: seq<Uuid>)
      modifies this`clients, this`deadClients, this`disconnects, this`reading, this`readTasks
      ensures alive == running
      ensures !running ==> Value() == old(Value())
      ensures running ==>
                && Lists(order, old(clients).Keys)
                && Value() == Next(ScanAll(old(Value()), order, see), Reap, 0)
                && deadClients == []
                && clients == old(clients) - (Ids(old(deadClients)) + Dying(order, see))
      // who is gone, and their disconnect tasks
      ensures running ==> forall u ::
                u in clients <==>
                u in old(clients) && u !in old(deadClients) && !see(u).ReceivedShutdown? && !see(u).TimedOut?
      ensures |old(disconnects)| <= |disconnects| && disconnects[..|old(disconnects)|] == old(disconnects)
      ensures |disconnects| - |old(disconnects)| == |old(clients)| - |clients|
      ensures forall u :: u in old(clients) && u !in clients ==>
                Disconnect(u, old(clients)[u]) in disconnects[|old(disconnects)|..]
      // who is read from now on, and their read tasks
      ensures |old(readTasks)| <= |readTasks| && readTasks[..|old(readTasks)|] == old(readTasks)
      ensures forall k :: |old(readTasks)| <= k < |readTasks| ==>
                var t := readTasks[k];
                && t.phase == Reading(0) && t.uuid in old(clients) && old(clients)[t.uuid] == t.conn
                && see(t.uuid).DataReady? && t.conn !in old(reading)
      ensures forall j, k :: |old(readTasks)| <= j < k < |readTasks| ==> readTasks[j].conn != readTasks[k].conn
      ensures running ==> forall c ::
                c in reading <==>
                c in old(reading) || exists u :: u in old(clients) && see(u).DataReady? && old(clients)[u] == c
      ensures forall c :: c in reading && c !in old(reading) ==>
                exists k :: |old(readTasks)| <= k < |readTasks| && readTasks[k].conn == c
    {
      hide ScanAll, ReapAll, Ids, Dying;
      order := [];
      if !running {
        return false, order;
      }
      ghost var before := Value();
      order := ScanClients(see);
      TickEnds(before, order, see);
      TickTells(before, order, see);
      TickReads(before, order, see);
      hide Lists, Next;
      ReapDead();
      alive := running;
    }
  }

  lemma DyingAre(order: seq<Uuid>, clients: map<Uuid, Conn>, see: Uuid -> Seen)
    requires Lists(order, clients.Keys)
    ensures forall u :: u in Dying(order, see) <==> u in clients && (see(u).ReceivedShutdown? || see(u).TimedOut?)
  {
  }

  lemma IdsAre(dead: seq<Uuid>)
    ensures forall u :: u in Ids(dead) <==> u in dead
  {
  }

  /** Who is gone after a tick. */
  lemma TickEnds(s: Server, order: seq<Uuid>, see: Uuid -> Seen)
    requires Lists(order, s.clients.Keys)
    ensures var s' := Next(ScanAll(s, order, see), Reap, 0);
            && s'.dead == [] && s'.inserted == s.inserted
            && s'.clients == s.clients - (Ids(s.dead) + Dying(order, see))
            && forall u :: u in s'.clients <==>
                 u in s.clients && u !in s.dead && !see(u).ReceivedShutdown? && !see(u).TimedOut?
  {
    ScanMarksTheDying(s, order, see);
    ReapTakesTheDead(ScanAll(s, order, see));
    DyingAre(order, s.clients, see);
    IdsAre(s.dead);
    hide ScanAll, ReapAll, TasksOf, Ids, Dying, Lists;
  }

  /** Each client that a tick finds gone gets one disconnect task. */
  lemma TickTells(s: Server, order: seq<Uuid>, see: Uuid -> Seen)
    requires Lists(order, s.clients.Keys)
    ensures var s', n := Next(ScanAll(s, order, see), Reap, 0), |s.disconnects|;
            && n <= |s'.disconnects| && s'.disconnects[..n] == s.disconnects
            && |s'.disconnects| - n == |s.clients| - |s'.clients|
            && forall u :: u in s.clients && u !in s'.clients ==> Disconnect(u, s.clients[u]) in s'.disconnects[n..]
  {
    hide ScanAll, ReapAll;
    ReapTells(ScanAll(s, order, see));
  }

  /** Who is read from a tick on, and their read tasks. */
  lemma TickReads(s: Server, order: seq<Uuid>, see: Uuid -> Seen)
    requires Lists(order, s.clients.Keys)
    ensures var s', n := Next(ScanAll(s, order, see), Reap, 0), |s.readTasks|;
            && n <= |s'.readTasks| && s'.readTasks[..n] == s.readTasks
            && (forall k :: n <= k < |s'.readTasks| ==>
                  var t := s'.readTasks[k];
                  && t.phase == Reading(0) && t.uuid in s.clients && s.clients[t.uuid] == t.conn
                  && see(t.uuid).DataReady? && t.conn !in s.reading)
            && (forall j, k :: n <= j < k < |s'.readTasks| ==> s'.readTasks[j].conn != s'.readTasks[k].conn)
            && (forall c :: c in s'.reading <==>
                  c in s.reading || exists u :: u in s.clients && see(u).DataReady? && s.clients[u] == c)
            && forall c :: c in s'.reading && c !in s.reading ==>
                 exists k :: n <= k < |s'.readTasks| && s'.readTasks[k].conn == c
  {
    hide ScanAll, ReapAll;
    var scanned, n := ScanAll(s, order, see), |s.readTasks|;
    ScanStartsReads(s, order, see);
    ReapTakesTheDead(scanned);
    forall c | c in scanned.reading && c !in s.reading
      ensures exists k :: n <= k < |scanned.readTasks| && scanned.readTasks[k].conn == c
      ensures exists u :: u in s.clients && see(u).DataReady? && s.clients[u] == c
    {
      assert c in scanned.reading - s.reading;
      var k :| n <= k < |scanned.readTasks| && scanned.readTasks[k].conn == c;
      assert scanned.readTasks[k].uuid in s.clients;
    }
  }

  lemma EndOfReadIs(s: Server, i: nat, marks: nat)
    requires i < |s.readTasks|
    ensures EndOfRead(s, i, marks) ==
            Server(s.clients, s.dead + seq(marks, _ => s.readTasks[i].uuid), s.inserted, s.disconnects,
                   s.reading - {s.readTasks[i].conn}, s.readTasks[..i] + s.readTasks[i + 1..])
  {
  }

  lemma TaskAppend(clients: map<Uuid, Conn>, order: seq<Uuid>, uuid: Uuid)
    requires (forall u | u in order :: u in clients) && uuid in clients
    ensures DisconnectTasks(clients, order + [uuid]) ==
            DisconnectTasks(clients, order) + [Disconnect(uuid, clients[uuid])]
  {
  }

  lemma ScanAppend(s: Server, order: seq<Uuid>, uuid: Uuid, see: Uuid -> Seen)
    requires (forall u | u in order :: u in s.clients) && uuid in s.clients
    ensures ScanAll(s, order + [uuid], see) == ScanClient(ScanAll(s, order, see), uuid, see(uuid))
  {
    assert (order + [uuid])[..|order|] == order;
  }

  lemma ScanNone(s: Server, see: Uuid -> Seen)
    ensures ScanAll(s, [], see) == s
  {
  }
}
