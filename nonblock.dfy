/**
 * The non-blocking connection: a channel plus the reply table, the filter table and the
 * subscription counter, all updated in place. `trace` records, in order, the callbacks the
 * connection ran and the default replies it tried to send.
 */
module Nonblock {
  import opened Wrappers
  import opened Routing
  import opened Transport

  class Connection<M, R, RC, F> {
    const channel: Channel<M>
    const env: Env<M, R, F>
    var replies: map<nat, RC>
    var filters: map<nat, Filter<R, F>>
    var filterNextId: nat
    var trace: seq<Effect<M, RC>>

    ghost function State(): (t: Tables<RC, R, F>)
      reads this`replies, this`filters, this`filterNextId
    {
      Tables(replies, filters, filterNextId)
    }

    /**
     * Subscription ids are below the counter, and every pending serial is one the channel
     * has already handed out, so a new send can never collide with a pending one.
     */
    ghost predicate Valid()
      reads this`replies, this`filters, this`filterNextId, channel`lastSerial
    {
      IdsBelowCounter(State()) &&
      forall s :: s in replies ==> 0 < s <= channel.lastSerial
    }

    /** `From<Channel>`: empty tables, counter at zero. */
    constructor (channel: Channel<M>, env: Env<M, R, F>)
      ensures this.channel == channel && this.env == env
      ensures replies == map[] && filters == map[] && filterNextId == 0 && trace == []
      ensures Valid()
    {
      this.channel := channel;
      this.env := env;
      replies := map[];
      filters := map[];
      filterNextId := 0;
      trace := [];
    }

    /** Sends `msg`; only if the channel accepts it is `f` registered under the serial it got. */
    method SendWithReply(msg: M, f: RC) returns (r: Result<nat, ()>)
      requires Valid()
      modifies this`replies, channel`outbound, channel`lastSerial
      ensures Valid()
      ensures old(channel.accepting) ==> r == Ok(old(channel.lastSerial) + 1)
      ensures !old(channel.accepting) ==> r == Err(())
      ensures r.Ok? ==> r.value !in old(replies) && replies == old(replies)[r.value := f]
      ensures r.Err? ==> replies == old(replies)
      ensures channel.outbound == old(channel.outbound) + (if r.Ok? then [msg] else [])
    {
      r := channel.Send(msg);
      if r.Ok? {
        replies := replies[r.value := f];
      }
    }

    /** Takes back the callback registered under `id`; an unknown id changes nothing. */
    method CancelReply(id: nat) returns (f: Option<RC>)
      requires Valid()
      modifies this`replies
      ensures Valid()
      ensures id in old(replies) ==> f == Some(old(replies)[id]) && replies == old(replies) - {id}
      ensures id !in old(replies) ==> f == None && replies == old(replies)
    {
      if id in replies {
        f := Some(replies[id]);
        replies := replies - {id};
      } else {
        f := None;
      }
    }

    /** Registers a filter under the counter's value, which is a fresh id, and bumps the counter. */
    method StartReceive(m: R, f: F) returns (id: nat)
      requires Valid()
      modifies this`filters, this`filterNextId
      ensures Valid()
      ensures id == old(filterNextId) && filterNextId == id + 1
      ensures id !in old(filters)
      ensures filters == old(filters)[id := Filter(m, f)]
    {
      id := filterNextId;
      filterNextId := id + 1;
      filters := filters[id := Filter(m, f)];
    }

    /** Removes and returns the filter under `id`; other filters and the counter stay. */
    method StopReceive(id: nat) returns (v: Option<Filter<R, F>>)
      requires Valid()
      modifies this`filters
      ensures Valid()
      ensures id in old(filters) ==> v == Some(old(filters)[id]) && filters == old(filters) - {id}
      ensures id !in old(filters) ==> v == None && filters == old(filters)
    {
      if id in filters {
        v := Some(filters[id]);
        filters := filters - {id};
      } else {
        v := None;
      }
    }

    /** The scan in ascending id order for the first filter whose rule matches `msg`. */
    method FindFilter(msg: M) returns (k: Option<nat>)
      requires Valid()
      ensures k.Some? ==> IsFirstMatch(filters, env.matches, msg, k.value)
      ensures k.None? ==> forall j :: j in filters ==> !env.matches(filters[j].rule, msg)
      ensures k == FirstMatch(filters, env.matches, msg)
    {
      var i := 0;
      while i < filterNextId
        invariant i <= filterNextId
        invariant forall j :: 0 <= j < i ==> !Matches(filters, env.matches, msg, j)
      {
        if i in filters && env.matches(filters[i].rule, msg) {
          k := Some(i);
          FirstMatchIsLeast(filters, env.matches, msg, i);
          return;
        }
        i := i + 1;
      }
      k := None;
      forall j | j in filters
        ensures !env.matches(filters[j].rule, msg)
      {
        assert !Matches(filters, env.matches, msg, j);
      }
      NoMatchIsNone(filters, env.matches, msg);
    }

    /** One turn of the dispatch loop. */
    method Dispatch(msg: M)
      requires Valid()
      modifies this`replies, this`filters, this`trace, channel`outbound, channel`lastSerial
      ensures Valid()
      ensures var o := Step(old(State()), env, msg); State() == o.tables && trace == old(trace) + o.effects
      ensures channel.outbound ==
        old(channel.outbound) + (if channel.accepting then DefaultReplies(Step(old(State()), env, msg).effects) else [])
    {
      var serial := env.replySerial(msg);
      if serial.Some? && serial.value in replies {
        var f := replies[serial.value];
        replies := replies - {serial.value};
        trace := trace + [ReplyInvoked(serial.value, f, msg)];
        return;
      }
      var k := FindFilter(msg);
      if k.Some? {
        var v := filters[k.value];
        filters := filters - {k.value};
        var (keep, callback) := env.invokeFilter(v.callback, msg);
        trace := trace + [FilterInvoked(k.value, msg, keep)];
        if keep {
          filters := filters[k.value := Filter(v.rule, callback)];
        }
        return;
      }
      var reply := env.defaultReply(msg);
      if reply.Some? {
        var _ := channel.Send(reply.value);
        trace := trace + [DefaultReplySent(reply.value)];
      }
    }

    /** Dispatches every buffered inbound message, oldest first, until the queue is empty. */
    method ProcessAll()
      requires Valid()
      modifies this`replies, this`filters, this`trace, channel`inbound, channel`outbound, channel`lastSerial
      ensures Valid()
      ensures channel.inbound == []
      ensures var o := Run(old(State()), env, old(channel.inbound));
        State() == o.tables && trace == old(trace) + o.effects
      ensures channel.outbound == old(channel.outbound) +
        (if channel.accepting then DefaultReplies(Run(old(State()), env, old(channel.inbound)).effects) else [])
    {
      ghost var goal := Run(State(), env, channel.inbound);
      ghost var pending := channel.inbound;
      ghost var done: seq<Effect<M, RC>> := [];
      var next := channel.PopMessage();
      while next.Some?
        invariant Valid()
        invariant next.Some? ==> pending == [next.value] + channel.inbound
        invariant next.None? ==> pending == [] && channel.inbound == []
        invariant Run(State(), env, pending).tables == goal.tables
        invariant done + Run(State(), env, pending).effects == goal.effects
        invariant trace == old(trace) + done
        invariant channel.outbound == old(channel.outbound) + (if channel.accepting then DefaultReplies(done) else [])
        decreases |pending|
      {
        ghost var first := Step(State(), env, next.value);
        RunFront(State(), env, pending, done, goal);
        LogTurn(done, first.effects, old(trace), trace, old(channel.outbound), channel.outbound, channel.accepting);
        Dispatch(next.value);
        done := done + first.effects;
        pending := pending[1..];
        next := channel.PopMessage();
      }
      assert done == goal.effects by {
        assert Run(State(), env, pending).effects == [];
      }
    }
  }
}
