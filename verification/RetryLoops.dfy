/** The jobs that keep a promise after up to `maxTimeouts` tries: `UDPPeer::sendTo`
    (src/stms/net/plain_udp.cpp:80-132), `SSLClient::send` and the client's read task
    (src/stms/net/ssl_client.cpp:121-162, 204-267), `SSLServer::send`
    (src/stms/net/ssl_server.cpp:435-512). What the n-th try would answer is an arbitrary
    function of n. A promise is the sequence of values it is set to: more than one is an error. */
module RetryLoops {

  import opened Basics

  /** What a promise was set to, how many buffers were copied and freed, and how many tries it took. */
  datatype Report = Report(sets: seq<int>, copies: nat, frees: nat, tries: nat)

  predicate KeptOnce(r: Report) {
    |r.sets| == 1
  }

  predicate NoLeak(r: Report) {
    r.frees == r.copies
  }

  // ----- plain UDP -----

  datatype UdpAnswer = Sent(size: nat) | WouldBlock | Failed

  /** The first try below `max`, from `k` on, that sends. */
  function FirstSent(answers: nat -> UdpAnswer, k: nat, max: int): (r: Option<nat>)
    ensures match r
            case Some(n) => k <= n < max && answers(n).Sent? && forall j: nat :: k <= j < n ==> !answers(j).Sent?
            case None => forall j: nat :: k <= j < max ==> !answers(j).Sent?
    decreases max - k
  {
    if k >= max then None
    else if answers(k).Sent? then Some(k)
    else FirstSent(answers, k + 1, max)
  }

  method UdpSendTo(running: bool, answers: nat -> UdpAnswer, maxTimeouts: int, copy: bool) returns (r: Report)
    ensures KeptOnce(r) && NoLeak(r)
    ensures r.copies == if running && copy then 1 else 0
    ensures !running ==> r.sets == [-1] && r.tries == 0
    ensures running ==> match FirstSent(answers, 0, maxTimeouts)
                        case Some(n) => r.sets == [answers(n).size] && r.tries == n + 1
                        case None => r.sets == [-3] && r.tries == Attempts(maxTimeouts)
  {
    var sets: seq<int>, copies, frees, tries := [], 0, 0, 0;
    if !running {
      return Report([-1], 0, 0, 0);
    }
    if copy {
      copies := 1;
    }
    var numTries := 0;
    while numTries < maxTimeouts
      invariant numTries == tries <= Attempts(maxTimeouts)
      invariant sets == [] && FirstSent(answers, 0, maxTimeouts) == FirstSent(answers, tries, maxTimeouts)
    {
      var answer := answers(tries);
      numTries, tries := numTries + 1, tries + 1;
      if answer.Sent? {
        sets := sets + [answer.size];
        numTries := 0;
        break;
      }
    }
    if copy {
      frees := 1;
    }
    if numTries >= maxTimeouts {
      sets := sets + [-3];
    }
    r := Report(sets, copies, frees, tries);
  }

  // ----- TLS -----

  /** What OpenSSL answers: a result without error, or one of the exceptions. */
  datatype TlsAnswer = Result(size: int) | WantRead | WantWrite | Fatal | OtherError

  /** The loops go on after anything else. */
  predicate Decides(a: TlsAnswer) {
    a.Fatal? || (a.Result? && a.size > 0)
  }

  /** The first try below `max`, from `k` on, that ends the loop. */
  function FirstDecision(answers: nat -> TlsAnswer, k: nat, max: int): (r: Option<nat>)
    ensures match r
            case Some(n) =>
              && k <= n < max && (answers(n).Fatal? || (answers(n).Result? && answers(n).size > 0))
              && forall j: nat :: k <= j < n ==> !answers(j).Fatal? && !(answers(j).Result? && answers(j).size > 0)
            case None =>
              forall j: nat :: k <= j < max ==> !answers(j).Fatal? && !(answers(j).Result? && answers(j).size > 0)
    decreases max - k
  {
    if k >= max then None
    else if Decides(answers(k)) then Some(k)
    else FirstDecision(answers, k + 1, max)
  }

  /** What a sending task sets its promise to. */
  function SendResult(answers: nat -> TlsAnswer, max: int): seq<int> {
    match FirstDecision(answers, 0, max)
    case None => [-3]
    case Some(n) =>
      if answers(n).Result? then [answers(n).size]
      else if n + 1 < max then [-2]
      else [-2, -3]
  }

  function TriesTaken(answers: nat -> TlsAnswer, max: int): nat {
    match FirstDecision(answers, 0, max)
    case None => Attempts(max)
    case Some(n) => n + 1
  }

  /** The promise is kept once unless the connection breaks on the very last try. */
  lemma SentOnceUnlessLastTryFatal(answers: nat -> TlsAnswer, max: int)
    ensures |SendResult(answers, max)| == 1 <==>
            !(max > 0 && answers(max - 1).Fatal? && forall j: nat :: j < max - 1 ==> !Decides(answers(j)))
  {
    var first := FirstDecision(answers, 0, max);
    if max > 0 && answers(max - 1).Fatal? && forall j: nat :: j < max - 1 ==> !Decides(answers(j)) {
      assert Decides(answers(max - 1));
      assert first == Some(max - 1);
    }
  }

  /** What a sending task sets its promise to and how many tries it takes, from the first answer that
      is a fatal error or a positive number of bytes. */
  lemma {:induction false} SendMeans(answers: nat -> TlsAnswer, max: int)
    ensures forall n: nat ::
              n < max && answers(n).Result? && answers(n).size > 0 &&
              (forall j: nat :: j < n ==> !answers(j).Fatal? && !(answers(j).Result? && answers(j).size > 0)) ==>
                SendResult(answers, max) == [answers(n).size] && TriesTaken(answers, max) == n + 1
    ensures forall n: nat ::
              n < max && answers(n).Fatal? &&
              (forall j: nat :: j < n ==> !answers(j).Fatal? && !(answers(j).Result? && answers(j).size > 0)) ==>
                SendResult(answers, max) == (if n + 1 < max then [-2] else [-2, -3]) &&
                TriesTaken(answers, max) == n + 1
    ensures (forall j: nat :: j < max ==> !answers(j).Fatal? && !(answers(j).Result? && answers(j).size > 0)) ==>
              SendResult(answers, max) == [-3] && TriesTaken(answers, max) == Attempts(max)
  {
    hide FirstDecision;
  }

  /** A connection that breaks on the only try. */
  lemma LastTryFatalSetsTwice()
    ensures SendResult(_ => Fatal, 1) == [-2, -3]
  {
    assert FirstDecision(_ => Fatal, 0, 1) == Some(0);
  }

  /** A connection's side of the loop; `stop` does nothing to a client that is already stopped. */
  class SSLClient {
    var running: bool
    var doShutdown: bool
    var isReading: bool

    constructor ()
      ensures running && doShutdown && !isReading
    {
      running, doShutdown, isReading := true, true, false;
    }

    method Stop()
      modifies this`running, this`doShutdown
      ensures !running && doShutdown == (old(doShutdown) && !old(running))
    {
      if !running {
        return;
      }
      running := false;
      doShutdown := false;
    }

    /** `send`, with the job it submits. */
    method Send(answers: nat -> TlsAnswer, maxTimeouts: int, copy: bool) returns (r: Report)
      modifies this`running, this`doShutdown
      ensures NoLeak(r)
      ensures !old(running) ==>
                r.sets == [-1] && r.tries == 0 && running == old(running) && doShutdown == old(doShutdown)
      ensures old(running) ==> match FirstDecision(answers, 0, maxTimeouts)
                                  case Some(n) =>
                                    && r.tries == n + 1
                                    && r.sets == if answers(n).Result? then [answers(n).size]
                                                 else if n + 1 < maxTimeouts then [-2] else [-2, -3]
                                  case None => r.sets == [-3] && r.tries == Attempts(maxTimeouts)
      ensures r.copies == if old(running) && copy then 1 else 0
      ensures old(running) ==>
                && r.sets == SendResult(answers, maxTimeouts)
                && (running <==> exists n: nat ::
                     n < maxTimeouts && FirstDecision(answers, 0, maxTimeouts) == Some(n) && answers(n).Result?)
                && doShutdown == (running && old(doShutdown))
                && r.tries == TriesTaken(answers, maxTimeouts)
    {
      var sets: seq<int>, copies, frees, tries := [], 0, 0, 0;
      if !running {
        return Report([-1], 0, 0, 0);
      }
      if copy {
        copies := 1;
      }
      ghost var first := FirstDecision(answers, 0, maxTimeouts);
      var sendTimeouts := 0;
      while sendTimeouts < maxTimeouts
        invariant sendTimeouts == tries <= Attempts(maxTimeouts)
        invariant sets == [] && first == FirstDecision(answers, tries, maxTimeouts)
        invariant running && doShutdown == old(doShutdown)
      {
        var answer := answers(tries);
        sendTimeouts, tries := sendTimeouts + 1, tries + 1;
        if answer.Result? && answer.size > 0 {
          sendTimeouts := 0;
          sets := sets + [answer.size];
          break;
        }
        if answer.Fatal? {
          doShutdown := false;
          Stop();
          sets := sets + [-2];
          break;
        }
      }
      if copy {
        frees := 1;
      }
      if sendTimeouts >= maxTimeouts {
        Stop();
        sets := sets + [-3];
      }
      r := Report(sets, copies, frees, tries);
    }

    /** The read task that `tick` submits when no other is under way. Another thread may have stopped
        the client before the task starts. */
    method ReadTask(answers: nat -> TlsAnswer, maxTimeouts: int) returns (received: Option<int>)
      requires isReading
      modifies this
      ensures !isReading
      ensures match FirstDecision(answers, 0, maxTimeouts)
              case Some(n) =>
                if answers(n).Result? then
                  received == Some(answers(n).size) && running == old(running) && doShutdown == old(doShutdown)
                else received == None && !running && !doShutdown
              case None => received == None && !running && doShutdown == (old(doShutdown) && !old(running))
    {
      received := None;
      ghost var first := FirstDecision(answers, 0, maxTimeouts);
      var readTimeouts, tries := 0, 0;
      while readTimeouts < maxTimeouts
        invariant readTimeouts == tries && received == None
        invariant first == FirstDecision(answers, tries, maxTimeouts)
        invariant running == old(running) && doShutdown == old(doShutdown)
      {
        var answer := answers(tries);
        readTimeouts, tries := readTimeouts + 1, tries + 1;
        if answer.Result? && answer.size > 0 {
          readTimeouts := 0;
          received := Some(answer.size);
          break;
        }
        if answer.Fatal? {
          doShutdown := false;
          Stop();
          break;
        }
      }
      if readTimeouts >= maxTimeouts {
        Stop();
      }
      isReading := false;
    }
  }

  /** `SSLServer::send`: `known` tells whether its job finds the client in the table. Also
      returned is how often the client is marked dead. */
  method ServerSend(running: bool, known: bool, answers: nat -> TlsAnswer, maxTimeouts: int, copy: bool)
      returns (r: Report, deadMarks: nat)
    ensures NoLeak(r) <==> !running || known || !copy
    ensures r.copies == if running && copy then 1 else 0
    ensures !running ==> r.sets == [-1] && r.tries == 0 && deadMarks == 0
    ensures running && !known ==> r.sets == [0] && r.tries == 0 && deadMarks == 0
    ensures running && known ==> match FirstDecision(answers, 0, maxTimeouts)
                                    case Some(n) =>
                                      && r.tries == n + 1
                                      && r.sets == if answers(n).Result? then [answers(n).size]
                                                   else if n + 1 < maxTimeouts then [-2] else [-2, -3]
                                    case None => r.sets == [-3] && r.tries == Attempts(maxTimeouts)
    ensures running && known ==>
              && r.sets == SendResult(answers, maxTimeouts)
              && (deadMarks == 0 <==> |r.sets| == 1 && r.sets[0] > 0)
              && (deadMarks > 0 ==> deadMarks == |r.sets|)
              && r.tries == TriesTaken(answers, maxTimeouts)
  {
    var sets: seq<int>, copies, frees, tries := [], 0, 0, 0;
    deadMarks := 0;
    if !running {
      return Report([-1], 0, 0, 0), 0;
    }
    if copy {
      copies := 1;
    }
    if !known {
      return Report([0], copies, 0, 0), 0;
    }
    ghost var first := FirstDecision(answers, 0, maxTimeouts);
    var sendTimeouts := 0;
    while sendTimeouts < maxTimeouts
      invariant sendTimeouts == tries <= Attempts(maxTimeouts)
      invariant sets == [] && deadMarks == 0 && first == FirstDecision(answers, tries, maxTimeouts)
    {
      var answer := answers(tries);
      sendTimeouts, tries := sendTimeouts + 1, tries + 1;
      if answer.Result? && answer.size > 0 {
        sendTimeouts := 0;
        sets := sets + [answer.size];
        break;
      }
      if answer.Fatal? {
        deadMarks := deadMarks + 1;
        sets := sets + [-2];
        break;
      }
    }
    if copy {
      frees := 1;
    }
    if sendTimeouts >= maxTimeouts {
      deadMarks := deadMarks + 1;
      sets := sets + [-3];
    }
    r := Report(sets, copies, frees, tries);
  }
}
