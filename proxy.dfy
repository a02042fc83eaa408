/**
 * A method call through a connection: the call message is sent with a reply callback that
 * fills a fresh reply cell, and the caller gets a future on that cell. Building the call
 * message and decoding the reply are left to the caller (`msg` and `readAll`).
 */
module Proxy {
  import opened Wrappers
  import opened Routing
  import opened Transport
  import opened Nonblock
  import opened ReplyFuture

  /**
   * `method_call` without the message construction. The reply callback registered for the
   * call is the cell itself: running it is `ReplyCell.Complete`. If the send fails, no
   * callback is registered and the cell already holds the send-failure error.
   */
  method MethodCall<M, R, F, W, T>(conn: Connection<M, R, ReplyCell<M, W>, F>, msg: M, readAll: M -> Result<T, Error>)
    returns (reply: MethodReply<M, W, T>)
    requires conn.Valid()
    modifies conn`replies, conn.channel`outbound, conn.channel`lastSerial
    ensures conn.Valid()
    ensures fresh(reply) && fresh(reply.cell)
    ensures reply.readfn == Some(readAll) && reply.cell.woken == []
    ensures old(conn.channel.accepting) ==>
      && reply.cell.inner == Neither
      && old(conn.channel.lastSerial) + 1 !in old(conn.replies)
      && conn.replies == old(conn.replies)[old(conn.channel.lastSerial) + 1 := reply.cell]
      && conn.channel.outbound == old(conn.channel.outbound) + [msg]
    ensures !old(conn.channel.accepting) ==>
      && reply.cell.inner == Ready(Err(SendFailed))
      && conn.replies == old(conn.replies)
      && conn.channel.outbound == old(conn.channel.outbound)
  {
    var cell := new ReplyCell();
    var sent := conn.SendWithReply(msg, cell);
    if sent.Err? {
      cell.FailSend();
    }
    reply := new MethodReply(cell, readAll);
  }

  /**
   * A call whose send fails resolves on its first poll, to the send-failure error, without
   * the read function ever running.
   */
  method FailedCallResolvesAtOnce<M, R, F, W, T>(conn: Connection<M, R, ReplyCell<M, W>, F>, msg: M,
                                                 readAll: M -> Result<T, Error>, w: W)
    returns (p: Poll<T>)
    requires conn.Valid() && !conn.channel.accepting
    modifies conn`replies, conn.channel`outbound, conn.channel`lastSerial
    ensures p == PollReady(Err(SendFailed))
    ensures conn.replies == old(conn.replies)
  {
    var reply := MethodCall(conn, msg, readAll);
    p := reply.Poll(w);
  }

  /**
   * The full round trip of a call: the future is polled before the answer exists and parks
   * its waker; the answer, carrying the call's serial, arrives and a dispatch pass runs the
   * reply callback registered for it and nothing else; running that callback wakes the parked
   * consumer, whose next poll yields the decoded answer.
   */
  method CallRoundTrip<M, R, F, W, T>(conn: Connection<M, R, ReplyCell<M, W>, F>, call: M, answer: M,
                                      readAll: M -> Result<T, Error>, w1: W, w2: W)
    returns (p: Poll<T>, woken: seq<W>)
    requires conn.Valid() && conn.channel.accepting && conn.channel.inbound == []
    requires conn.env.replySerial(answer) == Some(conn.channel.lastSerial + 1)
    modifies conn`replies, conn`filters, conn`trace
    modifies conn.channel`inbound, conn.channel`outbound, conn.channel`lastSerial
    ensures p == PollReady(readAll(answer))
    ensures woken == [w1]
    ensures conn.replies == old(conn.replies) && conn.filters == old(conn.filters)
    ensures |conn.trace| == |old(conn.trace)| + 1 && conn.trace[|old(conn.trace)|].ReplyInvoked?
  {
    var serial := conn.channel.lastSerial + 1;
    ghost var registered := conn.replies;
    var reply := MethodCall(conn, call, readAll);
    var before := reply.Poll(w1);
    assert before == PollPending;
    ghost var tables := conn.State();
    StepReply(tables, conn.env, answer, serial);
    RunOne(tables, conn.env, answer);
    assert tables.replies - {serial} == registered;
    conn.channel.Receive([answer]);
    conn.ProcessAll();
    var invoked := conn.trace[|conn.trace| - 1];
    assert invoked == ReplyInvoked(serial, reply.cell, answer);
    invoked.callback.Complete(invoked.msg);
    woken := reply.cell.woken;
    p := reply.Poll(w2);
  }

  /**
   * Two subscriptions that match the same message: the older one (the smaller id) gets it,
   * and the newer one is left untouched.
   */
  method OverlappingFiltersOlderWins<M, R, RC, F>(conn: Connection<M, R, RC, F>, r1: R, f1: F, r2: R, f2: F, msg: M)
    returns (first: nat, second: nat)
    requires conn.Valid() && conn.channel.inbound == [] && conn.filters == map[]
    requires conn.env.replySerial(msg).None?
    requires conn.env.matches(r1, msg) && conn.env.matches(r2, msg)
    modifies conn`replies, conn`filters, conn`filterNextId, conn`trace
    modifies conn.channel`inbound, conn.channel`outbound, conn.channel`lastSerial
    ensures first < second
    ensures conn.trace == old(conn.trace) + [FilterInvoked(first, msg, conn.env.invokeFilter(f1, msg).0)]
    ensures second in conn.filters && conn.filters[second] == Filter(r2, f2)
    ensures first in conn.filters <==> conn.env.invokeFilter(f1, msg).0
  {
    first := conn.StartReceive(r1, f1);
    second := conn.StartReceive(r2, f2);
    ghost var tables := conn.State();
    assert IsFirstMatch(tables.filters, conn.env.matches, msg, first);
    StepFilter(tables, conn.env, msg, first);
    RunOne(tables, conn.env, msg);
    conn.channel.Receive([msg]);
    conn.ProcessAll();
    assert second in tables.filters - {first};
  }
}
