/** The client table, the queue of dead clients and the read tasks of `SSLServer`
    (src/stms/net/ssl_server.cpp) as a transition system. Sockets and OpenSSL appear only as what
    they answer; the pool runs tasks on other threads. A region guarded by `clientsMtx` is a step. */
module ServerModel {
  import opened Basics

  type Uuid = nat
  type Conn = nat          // the n-th connection whose handshake succeeded

  /** A read task after it was submitted; `tries` is its `readTimeouts`. */
  datatype ReadPhase =
    | Reading(tries: nat)
    | LoopLeft(tries: nat)
    | Clearing

  datatype ReadTask = ReadTask(conn: Conn, uuid: Uuid, phase: ReadPhase)

  datatype Disconnect = Disconnect(uuid: Uuid, conn: Conn)

  datatype Server = Server(
    clients: map<Uuid, Conn>,
    dead: seq<Uuid>,
    inserted: nat,                    // connections ever entered into the table: 0 .. inserted - 1
    disconnects: seq<Disconnect>,     // disconnect tasks given to the pool
    reading: set<Conn>,               // connections whose `isReading` is set
    readTasks: seq<ReadTask>)             // read tasks queued or running

  const EMPTY := Server(map[], [], 0, [], {}, [])

  /** What a tick finds out about one client. */
  datatype Seen = ReceivedShutdown | TimedOut | NoData | DataReady

  /** What one `SSL_read` answers. */
  datatype Answer = Got | Fatal | Retry

  datatype Action =
    | Insert(uuid: Uuid)                  // end of `doHandshake`
    | MarkDead(uuid: Uuid)                // `kickClient`, or a failed `send`
    | Scan(uuid: Uuid, seen: Seen)
    | Reap
    | Rename(was: Uuid, next: Uuid)
    | Stop(order: seq<Uuid>)              // in the order in which `onStop` meets the clients
    | ReadTurn(i: nat, answer: Answer)

  /** `order` names each of `keys` once. */
  predicate Lists(order: seq<Uuid>, keys: set<Uuid>) {
    && (forall u | u in order :: u in keys)
    && (forall u | u in keys :: u in order)
    && (forall i, j :: 0 <= i < j < |order| ==> order[i] != order[j])
  }

  predicate Enabled(s: Server, a: Action) {
    match a
    case Scan(uuid, _) => uuid in s.clients
    case Stop(order) => Lists(order, s.clients.Keys)
    case ReadTurn(i, _) => i < |s.readTasks|
    case _ => true
  }

  function InsertClient(s: Server, uuid: Uuid): Server {
    s.(clients := s.clients[uuid := s.inserted], inserted := s.inserted + 1)
  }

  function ScanClient(s: Server, uuid: Uuid, seen: Seen): Server
    requires uuid in s.clients
  {
    match seen
    case ReceivedShutdown => s.(dead := s.dead + [uuid])
    case TimedOut => s.(dead := s.dead + [uuid])
    case NoData => s
    case DataReady =>
      var conn := s.clients[uuid];
      if conn in s.reading then s
      else s.(reading := s.reading + {conn}, readTasks := s.readTasks + [ReadTask(conn, uuid, Reading(0))])
  }

  /** The front of the dead queue: unknown ids are skipped. */
  function ReapFront(s: Server): Server
    requires s.dead != []
  {
    var uuid := s.dead[0];
    var s' := s.(dead := s.dead[1..]);
    if uuid !in s.clients then s'
    else s'.(disconnects := s.disconnects + [Disconnect(uuid, s.clients[uuid])], clients := s.clients - {uuid})
  }

  function ReapAll(s: Server): Server
    decreases |s.dead|
  {
    if s.dead == [] then s else ReapAll(ReapFront(s))
  }

  function RenameClient(s: Server, was: Uuid, next: Uuid): Server {
    if was !in s.clients then s
    else s.(clients := (s.clients - {was})[next := s.clients[was]])
  }

  /** `onStop`: one disconnect task per client, and an empty table. */
  function DisconnectTasks(clients: map<Uuid, Conn>, order: seq<Uuid>): seq<Disconnect>
    requires forall u | u in order :: u in clients
  {
    seq(|order|, k requires 0 <= k < |order| => Disconnect(order[k], clients[order[k]]))
  }

  function StopServer(s: Server, order: seq<Uuid>): Server
    requires Lists(order, s.clients.Keys)
  {
    s.(disconnects := s.disconnects + DisconnectTasks(s.clients, order), clients := map[])
  }

  function SetPhase(s: Server, i: nat, phase: ReadPhase): Server
    requires i < |s.readTasks|
  {
    s.(readTasks := s.readTasks[i := s.readTasks[i].(phase := phase)])
  }

  function ReadStep(s: Server, i: nat, answer: Answer, maxTimeouts: int): Server
    requires i < |s.readTasks|
  {
    var t := s.readTasks[i];
    match t.phase
    case Reading(tries) =>
      if tries >= maxTimeouts then SetPhase(s, i, LoopLeft(tries))
      else if answer.Got? then SetPhase(s, i, LoopLeft(0))
      else if answer.Fatal? then SetPhase(s, i, LoopLeft(tries + 1)).(dead := s.dead + [t.uuid])
      else SetPhase(s, i, Reading(tries + 1))
    case LoopLeft(tries) =>
      SetPhase(s, i, Clearing).(dead := if tries >= maxTimeouts then s.dead + [t.uuid] else s.dead)
    case Clearing =>
      s.(reading := s.reading - {t.conn}, readTasks := s.readTasks[..i] + s.readTasks[i + 1..])
  }

  function Next(s: Server, a: Action, maxTimeouts: int): Server
    requires Enabled(s, a)
  {
    match a
    case Insert(uuid) => InsertClient(s, uuid)
    case MarkDead(uuid) => s.(dead := s.dead + [uuid])
    case Scan(uuid, seen) => ScanClient(s, uuid, seen)
    case Reap => ReapAll(s)
    case Rename(was, next) => RenameClient(s, was, next)
    case Stop(order) => StopServer(s, order)
    case ReadTurn(i, answer) => ReadStep(s, i, answer, maxTimeouts)
  }

  /** All the turns of a read task that nothing else interrupts, from the answer `k` on. */
  function FinishRead(s: Server, i: nat, answers: nat -> Answer, k: nat, maxTimeouts: int): Server
    requires i < |s.readTasks|
    decreases match s.readTasks[i].phase
              case Reading(tries) => 2 + if tries < maxTimeouts then maxTimeouts - tries else 0
              case LoopLeft(_) => 1
              case Clearing => 0
  {
    var s' := Next(s, ReadTurn(i, answers(k)), maxTimeouts);
    if s.readTasks[i].phase.Clearing? then s' else FinishRead(s', i, answers, k + 1, maxTimeouts)
  }

  // ----- every connection is accounted for -----

  predicate Disconnected(s: Server, c: Conn) {
    exists k :: 0 <= k < |s.disconnects| && s.disconnects[k].conn == c
  }

  predicate Listed(s: Server, c: Conn) {
    exists u :: u in s.clients && s.clients[u] == c
  }

  predicate OneIdEach(clients: map<Uuid, Conn>) {
    forall u, v :: u in clients && v in clients && clients[u] == clients[v] ==> u == v
  }

  predicate OneTaskEach(disconnects: seq<Disconnect>) {
    forall i, j :: 0 <= i < j < |disconnects| ==> disconnects[i].conn != disconnects[j].conn
  }

  /** A connection is in the table, under one id, until its one disconnect task is submitted. */
  ghost predicate Accounted(s: Server) {
    && OneIdEach(s.clients)
    && OneTaskEach(s.disconnects)
    && (forall c: Conn :: c < s.inserted <==> Listed(s, c) || Disconnected(s, c))
    && (forall c: Conn :: Listed(s, c) ==> !Disconnected(s, c))
  }

  /** The step gives nobody an id that another client has. */
  predicate Proper(s: Server, a: Action) {
    match a
    case Insert(uuid) => uuid !in s.clients
    case Rename(was, next) => was in s.clients && next in s.clients ==> was == next
    case _ => true
  }

  lemma ListedAt(s: Server, u: Uuid)
    requires u in s.clients
    ensures Listed(s, s.clients[u])
  {
  }

  lemma InsertAccounted(s: Server, uuid: Uuid)
    requires Accounted(s)
    ensures Accounted(InsertClient(s, uuid)) <==> uuid !in s.clients
  {
    var s' := InsertClient(s, uuid);
    assert forall c: Conn :: Disconnected(s', c) <==> Disconnected(s, c);
    forall u | u in s.clients ensures Listed(s, s.clients[u]) { ListedAt(s, u); }
    if uuid in s.clients {
      var lost := s.clients[uuid];
      assert Listed(s, lost) && lost < s.inserted && !Disconnected(s', lost);
      assert !Listed(s', lost);
    } else {
      assert s'.clients[uuid] == s.inserted && Listed(s', s.inserted);
      forall c: Conn | Listed(s, c) ensures Listed(s', c) {
        var u :| u in s.clients && s.clients[u] == c;
        assert s'.clients[u] == c;
      }
      forall c: Conn | Listed(s', c) && c != s.inserted ensures Listed(s, c) {
        var u :| u in s'.clients && s'.clients[u] == c;
        assert s.clients[u] == c;
      }
    }
  }

  lemma RenameAccounted(s: Server, was: Uuid, next: Uuid)
    requires Accounted(s)
    ensures Accounted(RenameClient(s, was, next)) <==> Proper(s, Rename(was, next))
  {
    var s' := RenameClient(s, was, next);
    assert forall c: Conn :: Disconnected(s', c) <==> Disconnected(s, c);
    if was in s.clients && next in s.clients && was != next {
      var lost := s.clients[next];
      assert Listed(s, lost) && lost < s.inserted && !Disconnected(s', lost);
      assert !Listed(s', lost);
    } else if was in s.clients {
      forall c: Conn | Listed(s, c) ensures Listed(s', c) {
        var u :| u in s.clients && s.clients[u] == c;
        var v := if u == was then next else u;
        assert v in s'.clients && s'.clients[v] == c;
      }
      forall c: Conn | Listed(s', c) ensures Listed(s, c) {
        var u :| u in s'.clients && s'.clients[u] == c;
        var v := if u == next then was else u;
        assert v in s.clients && s.clients[v] == c;
      }
    }
  }

  lemma ReapFrontAccounted(s: Server)
    requires Accounted(s) && s.dead != []
    ensures Accounted(ReapFront(s)) && ReapFront(s).inserted == s.inserted
  {
    var s' := ReapFront(s);
    var uuid := s.dead[0];
    if uuid in s.clients {
      var left := s.clients[uuid];
      ListedAt(s, uuid);
      assert s'.disconnects[|s.disconnects|].conn == left && Disconnected(s', left);
      forall c: Conn | Disconnected(s, c) ensures Disconnected(s', c) {
        var k :| 0 <= k < |s.disconnects| && s.disconnects[k].conn == c;
        assert s'.disconnects[k].conn == c;
      }
      forall c: Conn | c != left ensures Disconnected(s', c) ==> Disconnected(s, c) {
        if Disconnected(s', c) {
          var k :| 0 <= k < |s'.disconnects| && s'.disconnects[k].conn == c;
          assert s.disconnects[k].conn == c;
        }
      }
      forall c: Conn ensures Listed(s', c) <==> Listed(s, c) && c != left {
        if Listed(s, c) && c != left {
          var u :| u in s.clients && s.clients[u] == c;
          assert s'.clients[u] == c;
        }
        if Listed(s', c) {
          var u :| u in s'.clients && s'.clients[u] == c;
          assert s.clients[u] == c;
        }
      }
      forall i | 0 <= i < |s.disconnects| ensures s.disconnects[i].conn != left {
        assert Disconnected(s, s.disconnects[i].conn);
      }
    } else {
      SameTable(s, s');
    }
  }

  lemma SameTable(s: Server, s': Server)
    requires s'.clients == s.clients && s'.disconnects == s.disconnects && s'.inserted == s.inserted
    ensures Accounted(s) <==> Accounted(s')
  {
    assert forall c: Conn :: Listed(s, c) <==> Listed(s', c);
    assert forall c: Conn :: Disconnected(s, c) <==> Disconnected(s', c);
  }

  lemma {:induction false} ReapAccounted(s: Server)
    requires Accounted(s)
    ensures Accounted(ReapAll(s))
    decreases |s.dead|
  {
    if s.dead != [] {
      ReapFrontAccounted(s);
      ReapAccounted(ReapFront(s));
    }
  }

  lemma StopAccounted(s: Server, order: seq<Uuid>)
    requires Accounted(s) && Lists(order, s.clients.Keys)
    ensures Accounted(StopServer(s, order))
  {
    var s' := StopServer(s, order);
    var n := |s.disconnects|;
    forall c: Conn | Listed(s, c) ensures Disconnected(s', c) {
      var u :| u in s.clients && s.clients[u] == c;
      var k :| 0 <= k < |order| && order[k] == u;
      assert s'.disconnects[n + k].conn == c;
    }
    forall c: Conn | Disconnected(s, c) ensures Disconnected(s', c) {
      var k :| 0 <= k < n && s.disconnects[k].conn == c;
      assert s'.disconnects[k].conn == c;
    }
    forall c: Conn | Disconnected(s', c) ensures Listed(s, c) || Disconnected(s, c) {
      var k :| 0 <= k < |s'.disconnects| && s'.disconnects[k].conn == c;
      if k < n {
        assert s.disconnects[k].conn == c;
      } else {
        assert s.clients[order[k - n]] == c;
      }
    }
    forall i, j | 0 <= i < j < |s'.disconnects| ensures s'.disconnects[i].conn != s'.disconnects[j].conn {
      if j >= n {
        assert Listed(s, s.clients[order[j - n]]);
        if i < n {
          assert Disconnected(s, s.disconnects[i].conn);
        } else {
          assert order[i - n] != order[j - n];
        }
      }
    }
  }

  /** Exactly the proper steps keep every connection accounted for. */
  lemma StepAccounted(s: Server, a: Action, maxTimeouts: int)
    requires Accounted(s) && Enabled(s, a)
    ensures Accounted(Next(s, a, maxTimeouts)) <==> Proper(s, a)
  {
    hide Accounted;
    match a
    case Insert(uuid) => InsertAccounted(s, uuid);
    case Rename(was, next) => RenameAccounted(s, was, next);
    case Reap => ReapAccounted(s);
    case Stop(order) => StopAccounted(s, order);
    case _ => SameTable(s, Next(s, a, maxTimeouts));
  }

  lemma {:induction false} ListLength(order: seq<Uuid>, keys: set<Uuid>)
    requires Lists(order, keys)
    ensures |order| == |keys|
  {
    if order == [] {
      assert keys == {};
    } else {
      assert order[0] in keys;
      forall u ensures u in order[1..] <==> u in keys - {order[0]} {
        if u in keys - {order[0]} {
          var k :| 0 <= k < |order| && order[k] == u;
          assert order[1..][k - 1] == u;
        }
      }
      ListLength(order[1..], keys - {order[0]});
    }
  }

  predicate Balanced(s: Server) {
    |s.clients| + |s.disconnects| == s.inserted
  }

  lemma {:induction false} ReapBalanced(s: Server)
    requires Balanced(s)
    ensures Balanced(ReapAll(s))
    decreases |s.dead|
  {
    if s.dead != [] {
      assert (s.clients - {s.dead[0]}).Keys == s.clients.Keys - {s.dead[0]};
      assert |ReapFront(s).clients| == |ReapFront(s).clients.Keys|;
      ReapBalanced(ReapFront(s));
    }
  }

  lemma RenameKeepsSize(clients: map<Uuid, Conn>, was: Uuid, next: Uuid)
    requires was in clients && (next in clients ==> was == next)
    ensures |(clients - {was})[next := clients[was]]| == |clients|
  {
    var renamed := (clients - {was})[next := clients[was]];
    assert renamed.Keys == clients.Keys - {was} + {next};
    assert |renamed| == |renamed.Keys| && |clients| == |clients.Keys|;
  }

  lemma StepBalanced(s: Server, a: Action, maxTimeouts: int)
    requires Balanced(s) && Enabled(s, a) && Proper(s, a)
    ensures Balanced(Next(s, a, maxTimeouts))
  {
    match a
    case Reap => ReapBalanced(s);
    case Stop(order) => ListLength(order, s.clients.Keys);
    case Rename(was, next) =>
      if was in s.clients {
        RenameKeepsSize(s.clients, was, next);
      }
    case _ =>
  }

  predicate ProperRun(s: Server, actions: seq<Action>, maxTimeouts: int)
    decreases |actions|
  {
    actions == [] ||
    (Enabled(s, actions[0]) && Proper(s, actions[0]) &&
     ProperRun(Next(s, actions[0], maxTimeouts), actions[1..], maxTimeouts))
  }

  predicate IsRun(s: Server, actions: seq<Action>, maxTimeouts: int)
    decreases |actions|
  {
    actions == [] ||
    (Enabled(s, actions[0]) && IsRun(Next(s, actions[0], maxTimeouts), actions[1..], maxTimeouts))
  }

  function After(s: Server, actions: seq<Action>, maxTimeouts: int): Server
    requires IsRun(s, actions, maxTimeouts)
    decreases |actions|
  {
    if actions == [] then s else After(Next(s, actions[0], maxTimeouts), actions[1..], maxTimeouts)
  }

  lemma {:induction false} ProperRunKeepsBooks(s: Server, actions: seq<Action>, maxTimeouts: int)
    requires Accounted(s) && Balanced(s) && ProperRun(s, actions, maxTimeouts)
    ensures IsRun(s, actions, maxTimeouts)
    ensures Accounted(After(s, actions, maxTimeouts)) && Balanced(After(s, actions, maxTimeouts))
    decreases |actions|
  {
    hide Accounted, Balanced, Next, Enabled, Proper;
    if actions != [] {
      StepAccounted(s, actions[0], maxTimeouts);
      StepBalanced(s, actions[0], maxTimeouts);
      ProperRunKeepsBooks(Next(s, actions[0], maxTimeouts), actions[1..], maxTimeouts);
    }
  }

  /** Over any run that hands out only unused ids, each connection ever inserted is either in the
      table or has had its one disconnect task, never both; and the numbers add up. */
  lemma {:induction false} EveryConnectionAccounted(actions: seq<Action>, maxTimeouts: int)
    requires ProperRun(EMPTY, actions, maxTimeouts)
    ensures IsRun(EMPTY, actions, maxTimeouts)
    ensures var s := After(EMPTY, actions, maxTimeouts);
            Accounted(s) && s.inserted == |s.disconnects| + |s.clients|
  {
    ProperRunKeepsBooks(EMPTY, actions, maxTimeouts);
  }

  // ----- one tick's worth of dead clients -----

  /** The disconnect tasks that `after` has in addition to `before` are for clients of `before`
      whose ids are in `ids`, no two of them for the same. */
  ghost predicate TasksOf(before: Server, after: Server, ids: seq<Uuid>) {
    && |before.disconnects| <= |after.disconnects|
    && after.disconnects[..|before.disconnects|] == before.disconnects
    && (forall k :: |before.disconnects| <= k < |after.disconnects| ==>
          var d := after.disconnects[k];
          d.uuid in ids && d.uuid in before.clients && before.clients[d.uuid] == d.conn)
    && (forall j, k :: |before.disconnects| <= j < k < |after.disconnects| ==>
          after.disconnects[j].uuid != after.disconnects[k].uuid)
  }

  lemma ReapFrontTakesOne(s: Server)
    requires s.dead != []
    ensures var s' := ReapFront(s);
            && s'.dead == s.dead[1..] && s'.clients == s.clients - {s.dead[0]}
            && |s'.disconnects| - |s.disconnects| == |s.clients| - |s'.clients|
            && TasksOf(s, s', [s.dead[0]]) && |s'.disconnects| <= |s.disconnects| + 1
            && s'.inserted == s.inserted && s'.reading == s.reading && s'.readTasks == s.readTasks
  {
    var s' := ReapFront(s);
    assert s'.clients == s.clients - {s.dead[0]};
    assert s'.clients.Keys == s.clients.Keys - {s.dead[0]} && |s'.clients| == |s'.clients.Keys|;
  }

  lemma TasksChain(s: Server, s1: Server, s2: Server, uuid: Uuid, rest: seq<Uuid>)
    requires TasksOf(s, s1, [uuid]) && TasksOf(s1, s2, rest) && s1.clients == s.clients - {uuid}
    requires |s1.disconnects| <= |s.disconnects| + 1
    ensures TasksOf(s, s2, [uuid] + rest)
  {
    var m, n := |s.disconnects|, |s1.disconnects|;
    assert s2.disconnects[..m] == s2.disconnects[..n][..m];
    forall k | m <= k < |s2.disconnects|
      ensures var d := s2.disconnects[k];
              d.uuid in [uuid] + rest && d.uuid in s.clients && s.clients[d.uuid] == d.conn
    {
      if k < n {
        assert s2.disconnects[k] == s2.disconnects[..n][k] == s1.disconnects[k];
      }
    }
    if m < n {
      assert s2.disconnects[m] == s2.disconnects[..n][m] == s1.disconnects[m];
    }
  }

  function Ids(dead: seq<Uuid>): set<Uuid> {
    set u | u in dead
  }

  lemma IdsOf(dead: seq<Uuid>, clients: map<Uuid, Conn>)
    ensures dead == [] ==> clients - Ids(dead) == clients
    ensures dead != [] ==> clients - {dead[0]} - Ids(dead[1..]) == clients - Ids(dead)
  {
    if dead != [] {
      assert Ids(dead) == {dead[0]} + Ids(dead[1..]);
    }
  }

  /** Whatever repeated or unknown ids the queue held: afterwards it is empty, exactly the clients
      it named are gone, and each of them got one disconnect task. */
  lemma {:induction false} ReapTakesTheDead(s: Server)
    ensures var s' := ReapAll(s);
            && s'.dead == []
            && s'.clients == s.clients - Ids(s.dead)
            && |s'.disconnects| - |s.disconnects| == |s.clients| - |s'.clients|
            && TasksOf(s, s', s.dead)
            && s'.inserted == s.inserted && s'.reading == s.reading && s'.readTasks == s.readTasks
    decreases |s.dead|
  {
    hide TasksOf, ReapFront, Ids;
    IdsOf(s.dead, s.clients);
    if s.dead == [] {
      NoTasks(s);
    } else {
      var s1 := ReapFront(s);
      ReapFrontTakesOne(s);
      ReapTakesTheDead(s1);
      TasksChain(s, s1, ReapAll(s), s.dead[0], s.dead[1..]);
      assert [s.dead[0]] + s.dead[1..] == s.dead;
    }
  }

  lemma NoTasks(s: Server)
    ensures TasksOf(s, s, [])
  {
    assert s.disconnects[..|s.disconnects|] == s.disconnects;
  }

  /** A kicked client is gone after the next reaping and has got its disconnect task. */
  lemma {:induction false} KickTakesEffect(s: Server, uuid: Uuid, maxTimeouts: int)
    requires Accounted(s) && uuid in s.clients
    ensures var ticked := Next(Next(s, MarkDead(uuid), maxTimeouts), Reap, maxTimeouts);
            uuid !in ticked.clients && Disconnected(ticked, s.clients[uuid]) && !Listed(ticked, s.clients[uuid])
  {
    var kicked := Next(s, MarkDead(uuid), maxTimeouts);
    var ticked := Next(kicked, Reap, maxTimeouts);
    ListedAt(s, uuid);
    StepAccounted(s, MarkDead(uuid), maxTimeouts);
    StepAccounted(kicked, Reap, maxTimeouts);
    ReapTakesTheDead(kicked);
    assert kicked.dead[|s.dead|] == uuid;
    assert uuid in Ids(kicked.dead);
    assert forall u :: u in ticked.clients ==> u in s.clients && ticked.clients[u] == s.clients[u];
  }

  /** A kick touches nobody else: the next reaping leaves every client in the table that was not in the
      dead queue already. */
  lemma {:induction false} KickSparesOthers(s: Server, uuid: Uuid, other: Uuid, maxTimeouts: int)
    requires other in s.clients && other != uuid && other !in s.dead
    ensures var ticked := Next(Next(s, MarkDead(uuid), maxTimeouts), Reap, maxTimeouts);
            && other in ticked.clients && ticked.clients[other] == s.clients[other]
            && forall k :: |s.disconnects| <= k < |ticked.disconnects| ==> ticked.disconnects[k].uuid != other
  {
    var kicked := Next(s, MarkDead(uuid), maxTimeouts);
    ReapTakesTheDead(kicked);
    assert other !in kicked.dead;
  }

  /** Each client that the dead queue names gets its disconnect task. */
  lemma {:induction false} ReapNames(s: Server, uuid: Uuid)
    requires uuid in s.dead && uuid in s.clients
    ensures |s.disconnects| <= |ReapAll(s).disconnects|
    ensures Disconnect(uuid, s.clients[uuid]) in ReapAll(s).disconnects[|s.disconnects|..]
    decreases |s.dead|
  {
    var s1, s' := ReapFront(s), ReapAll(s);
    assert s' == ReapAll(s1);
    ReapTakesTheDead(s1);
    if s.dead[0] == uuid {
      var n := |s.disconnects|;
      assert s1.disconnects[n] == Disconnect(uuid, s.clients[uuid]);
      assert s'.disconnects[n] == s'.disconnects[..|s1.disconnects|][n];
      assert s'.disconnects[n..][0] == s'.disconnects[n];
    } else {
      ReapNames(s1, uuid);
      var d := Disconnect(uuid, s.clients[uuid]);
      var k :| 0 <= k < |s'.disconnects[|s1.disconnects|..]| && s'.disconnects[|s1.disconnects|..][k] == d;
      assert s'.disconnects[|s.disconnects|..][k + |s1.disconnects| - |s.disconnects|] == d;
    }
  }

  lemma {:induction false} ReapTells(s: Server)
    ensures var s', n := ReapAll(s), |s.disconnects|;
            && n <= |s'.disconnects| && s'.disconnects[..n] == s.disconnects
            && |s'.disconnects| - n == |s.clients| - |s'.clients|
            && forall u :: u in s.clients && u !in s'.clients ==> Disconnect(u, s.clients[u]) in s'.disconnects[n..]
  {
    var s', n := ReapAll(s), |s.disconnects|;
    ReapTakesTheDead(s);
    forall u | u in s.clients && u !in s'.clients ensures Disconnect(u, s.clients[u]) in s'.disconnects[n..] {
      assert u in Ids(s.dead);
      ReapNames(s, u);
    }
  }

  /** The id of the client that had `id` before the run, if nothing took it out of the table. */
  function IdAfter(id: Uuid, actions: seq<Action>): Uuid
    decreases |actions|
  {
    if actions == [] then id
    else
      var a := actions[0];
      IdAfter(if a.Rename? && a.was == id then a.next else id, actions[1..])
  }

  predicate BetweenTicks(actions: seq<Action>) {
    forall a | a in actions :: !a.Reap? && !a.Stop?
  }

  lemma StepKeepsClient(s: Server, a: Action, id: Uuid, maxTimeouts: int)
    requires id in s.clients && Enabled(s, a) && Proper(s, a) && !a.Reap? && !a.Stop?
    ensures var s', id' := Next(s, a, maxTimeouts), if a.Rename? && a.was == id then a.next else id;
            && id' in s'.clients && s'.clients[id'] == s.clients[id]
            && s.dead <= s'.dead && (a.Rename? ==> s'.dead == s.dead)
  {
  }

  lemma {:induction false} RunKeepsClient(s: Server, actions: seq<Action>, id: Uuid, maxTimeouts: int)
    requires id in s.clients && ProperRun(s, actions, maxTimeouts) && BetweenTicks(actions)
    requires IsRun(s, actions, maxTimeouts)
    ensures var s', id' := After(s, actions, maxTimeouts), IdAfter(id, actions);
            id' in s'.clients && s'.clients[id'] == s.clients[id] && s.dead <= s'.dead
    ensures (forall a | a in actions :: a.Rename?) ==> After(s, actions, maxTimeouts).dead == s.dead
    decreases |actions|
  {
    hide Next, Enabled, Proper;
    if actions != [] {
      var a := actions[0];
      assert a in actions;
      StepKeepsClient(s, a, id, maxTimeouts);
      var id' := if a.Rename? && a.was == id then a.next else id;
      RunKeepsClient(Next(s, a, maxTimeouts), actions[1..], id', maxTimeouts);
    }
  }

  lemma ReapSpares(s: Server, id: Uuid)
    requires Accounted(s) && id in s.clients
    ensures Listed(ReapAll(s), s.clients[id]) <==> id !in s.dead
    ensures Disconnected(ReapAll(s), s.clients[id]) <==> id in s.dead
  {
    var s', c := ReapAll(s), s.clients[id];
    ReapTakesTheDead(s);
    assert id in Ids(s.dead) <==> id in s.dead;
    ReapAccounted(s);
    ListedAt(s, id);
    assert Listed(s', c) || Disconnected(s', c);
    if id !in s.dead {
      assert id in s'.clients && s'.clients[id] == c;
    }
  }

  /** A kick follows the id, not the client. After a kick and any proper steps before the next
      reaping, the client stays exactly if its id by then is not in the dead queue, where the id it
      was kicked under still is. */
  lemma {:induction false} KickFollowsId(s: Server, uuid: Uuid, steps: seq<Action>, maxTimeouts: int)
    requires Accounted(s) && uuid in s.clients && BetweenTicks(steps)
    requires ProperRun(Next(s, MarkDead(uuid), maxTimeouts), steps, maxTimeouts)
    ensures var kicked := Next(s, MarkDead(uuid), maxTimeouts);
            IsRun(kicked, steps, maxTimeouts) &&
            var s', id := After(kicked, steps, maxTimeouts), IdAfter(uuid, steps);
            var ticked := Next(s', Reap, maxTimeouts);
            && s.dead + [uuid] <= s'.dead
            && (Listed(ticked, s.clients[uuid]) <==> id !in s'.dead)
            && (Disconnected(ticked, s.clients[uuid]) <==> id in s'.dead)
  {
    hide Accounted, ProperRun, BetweenTicks;
    var kicked := Next(s, MarkDead(uuid), maxTimeouts);
    SameTable(s, kicked);
    ProperRunAccounted(kicked, steps, maxTimeouts);
    RunKeepsClient(kicked, steps, uuid, maxTimeouts);
    ReapSpares(After(kicked, steps, maxTimeouts), IdAfter(uuid, steps));
  }

  lemma {:induction false} ProperRunAccounted(s: Server, actions: seq<Action>, maxTimeouts: int)
    requires Accounted(s) && ProperRun(s, actions, maxTimeouts)
    ensures IsRun(s, actions, maxTimeouts) && Accounted(After(s, actions, maxTimeouts))
    decreases |actions|
  {
    hide Accounted, Next, Enabled, Proper;
    if actions != [] {
      StepAccounted(s, actions[0], maxTimeouts);
      ProperRunAccounted(Next(s, actions[0], maxTimeouts), actions[1..], maxTimeouts);
    }
  }

  /** A single rename between kick and reaping: the client stays exactly if it got a different id
      that is not in the dead queue itself. */
  lemma {:induction false} RenameEscapesKick(s: Server, uuid: Uuid, next: Uuid, maxTimeouts: int)
    requires Accounted(s) && uuid in s.clients && Proper(s, Rename(uuid, next))
    ensures var kicked := Next(s, MarkDead(uuid), maxTimeouts);
            var renamed := Next(kicked, Rename(uuid, next), maxTimeouts);
            var ticked := Next(renamed, Reap, maxTimeouts);
            Listed(ticked, s.clients[uuid]) <==> next != uuid && next !in s.dead
  {
    hide Accounted;
    var kicked := Next(s, MarkDead(uuid), maxTimeouts);
    var steps := [Rename(uuid, next)];
    assert steps[1..] == [];
    assert ProperRun(kicked, steps, maxTimeouts);
    KickFollowsId(s, uuid, steps, maxTimeouts);
    assert After(kicked, steps, maxTimeouts) == Next(kicked, steps[0], maxTimeouts);
    assert IdAfter(uuid, steps) == next;
  }

  /** Such a client exists: kicked, renamed and still there after the tick. */
  lemma {:induction false} SurvivesKick(maxTimeouts: int) returns (actions: seq<Action>)
    ensures ProperRun(EMPTY, actions, maxTimeouts) && IsRun(EMPTY, actions, maxTimeouts)
    ensures MarkDead(0) in actions && Reap in actions
    ensures After(EMPTY, actions, maxTimeouts) == Server(map[1 := 0], [], 1, [], {}, [])
  {
    var s1 := Server(map[0 := 0], [], 1, [], {}, []);
    var s2, s3 := s1.(dead := [0]), s1.(dead := [0], clients := map[1 := 0]);
    var s4 := s3.(dead := []);
    assert (map[0 := 0] - {0})[1 := 0] == map[1 := 0];
    assert ReapFront(s3) == s4 && ReapAll(s4) == s4;
    assert Next(EMPTY, Insert(0), maxTimeouts) == s1 && Next(s1, MarkDead(0), maxTimeouts) == s2;
    assert Next(s2, Rename(0, 1), maxTimeouts) == s3 && Next(s3, Reap, maxTimeouts) == s4;
    hide Next, Enabled, Proper;
    OneMoreStep(s3, Reap, [], maxTimeouts);
    assert [Reap] + [] == [Reap];
    OneMoreStep(s2, Rename(0, 1), [Reap], maxTimeouts);
    var kick := [MarkDead(0)] + ([Rename(0, 1)] + [Reap]);
    OneMoreStep(s1, MarkDead(0), [Rename(0, 1)] + [Reap], maxTimeouts);
    OneMoreStep(EMPTY, Insert(0), kick, maxTimeouts);
    actions := [Insert(0)] + kick;
    assert MarkDead(0) == actions[1] && Reap == actions[3];
  }

  lemma {:induction false} OneMoreStep(s: Server, a: Action, rest: seq<Action>, maxTimeouts: int)
    requires Enabled(s, a) && Proper(s, a)
    requires var s' := Next(s, a, maxTimeouts); ProperRun(s', rest, maxTimeouts) && IsRun(s', rest, maxTimeouts)
    ensures ProperRun(s, [a] + rest, maxTimeouts) && IsRun(s, [a] + rest, maxTimeouts)
    ensures After(s, [a] + rest, maxTimeouts) == After(Next(s, a, maxTimeouts), rest, maxTimeouts)
  {
    hide Enabled, Proper, Next;
    assert ([a] + rest)[1..] == rest;
  }

  // ----- read tasks -----

  predicate HasReadTask(s: Server, c: Conn) {
    exists i :: 0 <= i < |s.readTasks| && s.readTasks[i].conn == c
  }

  /** A connection has at most one read task, and one exactly while `isReading` is set; no task
      ever counts more than `maxTimeouts` tries. */
  ghost predicate ReadInv(s: Server, maxTimeouts: int) {
    && (forall i, j :: 0 <= i < j < |s.readTasks| ==> s.readTasks[i].conn != s.readTasks[j].conn)
    && (forall c: Conn :: c in s.reading <==> HasReadTask(s, c))
    && (forall i :: 0 <= i < |s.readTasks| && !s.readTasks[i].phase.Clearing? ==>
          s.readTasks[i].phase.tries <= Attempts(maxTimeouts))
  }

  lemma SameReads(s: Server, s': Server, maxTimeouts: int)
    requires ReadInv(s, maxTimeouts) && s'.readTasks == s.readTasks && s'.reading == s.reading
    ensures ReadInv(s', maxTimeouts)
  {
    assert forall c: Conn :: HasReadTask(s', c) <==> HasReadTask(s, c);
  }

  lemma ScanKeepsReads(s: Server, uuid: Uuid, seen: Seen, maxTimeouts: int)
    requires ReadInv(s, maxTimeouts) && uuid in s.clients
    ensures ReadInv(ScanClient(s, uuid, seen), maxTimeouts)
  {
    var s' := ScanClient(s, uuid, seen);
    var conn := s.clients[uuid];
    if seen.DataReady? && conn !in s.reading {
      forall i | 0 <= i < |s.readTasks| ensures s.readTasks[i].conn != conn {
        assert HasReadTask(s, s.readTasks[i].conn);
      }
      assert s'.readTasks[|s.readTasks|].conn == conn && HasReadTask(s', conn);
      forall c: Conn | HasReadTask(s, c) ensures HasReadTask(s', c) {
        var i :| 0 <= i < |s.readTasks| && s.readTasks[i].conn == c;
        assert s'.readTasks[i].conn == c;
      }
    } else {
      SameReads(s, s', maxTimeouts);
    }
  }

  lemma EndKeepsReads(s: Server, i: nat, answer: Answer, maxTimeouts: int)
    requires ReadInv(s, maxTimeouts) && i < |s.readTasks| && s.readTasks[i].phase.Clearing?
    ensures var s' := ReadStep(s, i, answer, maxTimeouts);
            ReadInv(s', maxTimeouts) && !HasReadTask(s', s.readTasks[i].conn)
  {
    var s' := ReadStep(s, i, answer, maxTimeouts);
    var conn := s.readTasks[i].conn;
    assert forall k :: 0 <= k < |s'.readTasks| ==> s'.readTasks[k] == s.readTasks[if k < i then k else k + 1];
    forall c: Conn | c != conn && HasReadTask(s, c) ensures HasReadTask(s', c) {
      var k :| 0 <= k < |s.readTasks| && s.readTasks[k].conn == c;
      assert s'.readTasks[if k < i then k else k - 1].conn == c;
    }
  }

  lemma TurnKeepsReads(s: Server, i: nat, answer: Answer, maxTimeouts: int)
    requires ReadInv(s, maxTimeouts) && i < |s.readTasks|
    ensures ReadInv(ReadStep(s, i, answer, maxTimeouts), maxTimeouts)
  {
    var s' := ReadStep(s, i, answer, maxTimeouts);
    if s.readTasks[i].phase.Clearing? {
      EndKeepsReads(s, i, answer, maxTimeouts);
    } else {
      assert forall k :: 0 <= k < |s.readTasks| ==> s'.readTasks[k].conn == s.readTasks[k].conn;
      forall c: Conn | HasReadTask(s, c) ensures HasReadTask(s', c) {
        var k :| 0 <= k < |s.readTasks| && s.readTasks[k].conn == c;
        assert s'.readTasks[k].conn == c;
      }
    }
  }

  lemma StepKeepsReads(s: Server, a: Action, maxTimeouts: int)
    requires ReadInv(s, maxTimeouts) && Enabled(s, a)
    ensures ReadInv(Next(s, a, maxTimeouts), maxTimeouts)
  {
    hide ReadInv;
    match a
    case Scan(uuid, seen) => ScanKeepsReads(s, uuid, seen, maxTimeouts);
    case ReadTurn(i, answer) => TurnKeepsReads(s, i, answer, maxTimeouts);
    case Reap =>
      ReapTakesTheDead(s);
      SameReads(s, ReapAll(s), maxTimeouts);
    case _ => SameReads(s, Next(s, a, maxTimeouts), maxTimeouts);
  }

  lemma {:induction false} RunKeepsReads(s: Server, actions: seq<Action>, maxTimeouts: int)
    requires ReadInv(s, maxTimeouts) && IsRun(s, actions, maxTimeouts)
    ensures ReadInv(After(s, actions, maxTimeouts), maxTimeouts)
    decreases |actions|
  {
    hide ReadInv, Next, Enabled;
    if actions != [] {
      StepKeepsReads(s, actions[0], maxTimeouts);
      RunKeepsReads(Next(s, actions[0], maxTimeouts), actions[1..], maxTimeouts);
    }
  }

  /** In every run, proper or not. */
  lemma {:induction false} OneReadAtATime(actions: seq<Action>, maxTimeouts: int)
    requires IsRun(EMPTY, actions, maxTimeouts)
    ensures ReadInv(After(EMPTY, actions, maxTimeouts), maxTimeouts)
  {
    RunKeepsReads(EMPTY, actions, maxTimeouts);
  }

  function TurnsLeft(phase: ReadPhase, maxTimeouts: int): int {
    match phase
    case Reading(tries) => Attempts(maxTimeouts) - tries + 3
    case LoopLeft(_) => 2
    case Clearing => 1
  }

  /** Every turn of a read task brings it closer to its end, where it clears `isReading`; from its
      start that takes at most `maxTimeouts` attempts and three more turns. */
  lemma ReadTaskEnds(s: Server, i: nat, answer: Answer, maxTimeouts: int)
    requires ReadInv(s, maxTimeouts) && i < |s.readTasks|
    ensures var s' := ReadStep(s, i, answer, maxTimeouts);
            var t := s.readTasks[i];
            1 <= TurnsLeft(t.phase, maxTimeouts) <= Attempts(maxTimeouts) + 3 &&
            if TurnsLeft(t.phase, maxTimeouts) == 1 then
              t.conn !in s'.reading && !HasReadTask(s', t.conn)
            else
              && i < |s'.readTasks| && s'.readTasks[i].conn == t.conn && t.conn in s'.reading
              && TurnsLeft(s'.readTasks[i].phase, maxTimeouts) < TurnsLeft(t.phase, maxTimeouts)
  {
    assert HasReadTask(s, s.readTasks[i].conn);
    if s.readTasks[i].phase.Clearing? {
      EndKeepsReads(s, i, answer, maxTimeouts);
    }
  }

  /** How often a read task that has made `k` tries will still mark its client dead. */
  function Marks(answers: nat -> Answer, k: nat, maxTimeouts: int): nat
    decreases maxTimeouts - k
  {
    if k >= maxTimeouts then 1
    else match answers(k)
         case Got => 0
         case Fatal => if k + 1 >= maxTimeouts then 2 else 1
         case Retry => Marks(answers, k + 1, maxTimeouts)
  }

  /** A read task spares its client exactly if some try within the limit reads data and none
      before it fails for good. */
  lemma {:induction false} SparedIfRead(answers: nat -> Answer, k: nat, maxTimeouts: int)
    ensures Marks(answers, k, maxTimeouts) == 0 <==>
            exists n: nat :: k <= n < maxTimeouts && answers(n).Got? &&
              forall j: nat :: k <= j < n ==> answers(j).Retry?
    decreases maxTimeouts - k
  {
    if k < maxTimeouts && answers(k).Retry? {
      SparedIfRead(answers, k + 1, maxTimeouts);
      if Marks(answers, k, maxTimeouts) == 0 {
        var n: nat :| k + 1 <= n < maxTimeouts && answers(n).Got? &&
          forall j: nat :: k + 1 <= j < n ==> answers(j).Retry?;
        assert forall j: nat :: k <= j < n ==> answers(j).Retry?;
      }
    } else if k < maxTimeouts && answers(k).Got? {
      assert forall j: nat :: k <= j < k ==> answers(j).Retry?;
    }
  }

  /** The two marks come from a fatal error on the last allowed try. */
  lemma {:induction false} MarkedTwice(answers: nat -> Answer, k: nat, maxTimeouts: int)
    ensures Marks(answers, k, maxTimeouts) <= 2
    ensures Marks(answers, k, maxTimeouts) == 2 <==>
            && k < maxTimeouts && answers(maxTimeouts - 1).Fatal?
            && forall j: nat :: k <= j < maxTimeouts - 1 ==> answers(j).Retry?
    decreases maxTimeouts - k
  {
    if k < maxTimeouts && answers(k).Retry? {
      MarkedTwice(answers, k + 1, maxTimeouts);
    }
  }

  function EndOfRead(s: Server, i: nat, marks: nat): Server
    requires i < |s.readTasks|
  {
    var t := s.readTasks[i];
    s.(dead := s.dead + seq(marks, _ => t.uuid), reading := s.reading - {t.conn},
       readTasks := s.readTasks[..i] + s.readTasks[i + 1..])
  }

  lemma EndAfterMark(s: Server, i: nat, phase: ReadPhase, m: nat, marks: nat)
    requires i < |s.readTasks|
    ensures var s' := SetPhase(s, i, phase).(dead := s.dead + seq(m, _ => s.readTasks[i].uuid));
            EndOfRead(s', i, marks) == EndOfRead(s, i, m + marks)
  {
    var uuid := s.readTasks[i].uuid;
    assert seq(m, _ => uuid) + seq(marks, _ => uuid) == seq(m + marks, _ => uuid);
  }

  /** What is left when a read task has ended. */
  lemma {:induction false} LeftLoop(s: Server, i: nat, answers: nat -> Answer, k: nat, maxTimeouts: int)
    requires i < |s.readTasks| && s.readTasks[i].phase.LoopLeft?
    ensures FinishRead(s, i, answers, k, maxTimeouts) ==
            EndOfRead(s, i, if s.readTasks[i].phase.tries >= maxTimeouts then 1 else 0)
  {
    var m := if s.readTasks[i].phase.tries >= maxTimeouts then 1 else 0;
    var s' := ReadStep(s, i, answers(k), maxTimeouts);
    assert s'.dead == s.dead + seq(m, _ => s.readTasks[i].uuid);
    EndAfterMark(s, i, Clearing, m, 0);
    assert FinishRead(s', i, answers, k + 1, maxTimeouts) == EndOfRead(s', i, 0);
  }

  lemma {:induction false} ReadOutcome(s: Server, i: nat, answers: nat -> Answer, k: nat, maxTimeouts: int)
    requires i < |s.readTasks| && s.readTasks[i].phase == Reading(k)
    ensures FinishRead(s, i, answers, k, maxTimeouts) == EndOfRead(s, i, Marks(answers, k, maxTimeouts))
    decreases maxTimeouts - k
  {
    var s' := ReadStep(s, i, answers(k), maxTimeouts);
    var m := if k < maxTimeouts && answers(k).Fatal? then 1 else 0;
    assert s'.dead == s.dead + seq(m, _ => s.readTasks[i].uuid);
    EndAfterMark(s, i, s'.readTasks[i].phase, m, Marks(answers, k, maxTimeouts) - m);
    if s'.readTasks[i].phase.LoopLeft? {
      LeftLoop(s', i, answers, k + 1, maxTimeouts);
    } else {
      ReadOutcome(s', i, answers, k + 1, maxTimeouts);
    }
  }
}
