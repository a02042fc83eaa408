/**
 * What one pass of the dispatch loop does to a connection's tables, as functions of values.
 *
 * A connection keeps a reply table (request serial -> one-shot callback), a filter table
 * (subscription id -> match rule and re-invocable callback) and the next subscription id.
 * Each inbound message goes to exactly one place: the reply callback registered under its
 * reply serial, else the filter with the smallest id whose rule matches it, else a default
 * reply, if the message calls for one. Callbacks are values here; what running one does is
 * recorded as an Effect, and a filter callback's answer and its new captured state come from
 * the environment.
 */
module Routing {
  import opened Wrappers

  /** A registered subscription: the match rule and the callback's current state. */
  datatype Filter<R, F> = Filter(rule: R, callback: F)

  /** The connection state the dispatch loop reads and updates. */
  datatype Tables<RC, R, F> = Tables(
    replies: map<nat, RC>,
    filters: map<nat, Filter<R, F>>,
    filterNextId: nat)

  /**
   * The collaborators outside the core: the reply-serial accessor of a message, the match
   * rule's predicate, the default-reply builder, and a filter callback, which given its
   * captured state and a message answers "keep me" and leaves a new captured state.
   */
  datatype Env<!M, !R, !F> = Env(
    replySerial: M -> Option<nat>,
    matches: (R, M) -> bool,
    defaultReply: M -> Option<M>,
    invokeFilter: (F, M) -> (bool, F))

  /** An observable consequence of dispatching one message. */
  datatype Effect<M, RC> =
    | ReplyInvoked(serial: nat, callback: RC, msg: M)
    | FilterInvoked(id: nat, msg: M, keep: bool)
    | DefaultReplySent(reply: M)

  datatype Outcome<M, RC, R, F> = Outcome(tables: Tables<RC, R, F>, effects: seq<Effect<M, RC>>)

  /** Every subscription id in use is below the counter, so the counter is always a fresh id. */
  ghost predicate IdsBelowCounter<RC, R, F>(t: Tables<RC, R, F>)
  {
    forall k :: k in t.filters ==> k < t.filterNextId
  }

  ghost predicate Matches<M, R, F>(filters: map<nat, Filter<R, F>>, matches: (R, M) -> bool, msg: M, k: nat)
  {
    k in filters && matches(filters[k].rule, msg)
  }

  /** `k` is the smallest subscription id whose rule matches `msg`. */
  ghost predicate IsFirstMatch<M, R, F>(filters: map<nat, Filter<R, F>>, matches: (R, M) -> bool, msg: M, k: nat)
  {
    Matches(filters, matches, msg, k) &&
    forall j :: 0 <= j < k ==> !Matches(filters, matches, msg, j)
  }

  /** Some filter matches only if a smallest matching one exists. */
  lemma {:induction false} LeastMatchExists<M, R, F>(filters: map<nat, Filter<R, F>>, matches: (R, M) -> bool, msg: M, k: nat)
    requires Matches(filters, matches, msg, k)
    ensures exists j :: IsFirstMatch(filters, matches, msg, j)
    decreases k
  {
    if j :| 0 <= j < k && Matches(filters, matches, msg, j) {
      LeastMatchExists(filters, matches, msg, j);
    } else {
      assert IsFirstMatch(filters, matches, msg, k);
    }
  }

  /** The filter an ascending-id scan stops at, if any. */
  ghost function FirstMatch<M, R, F>(filters: map<nat, Filter<R, F>>, matches: (R, M) -> bool, msg: M): (r: Option<nat>)
    ensures r.Some? ==> IsFirstMatch(filters, matches, msg, r.value)
    ensures r.None? ==> forall k :: !Matches(filters, matches, msg, k)
  {
    if k :| Matches(filters, matches, msg, k) then
      LeastMatchExists(filters, matches, msg, k);
      var j :| IsFirstMatch(filters, matches, msg, j);
      Some(j)
    else
      None
  }

  /** The scan stops at the smallest matching id and nowhere else. */
  lemma FirstMatchIsLeast<M, R, F>(filters: map<nat, Filter<R, F>>, matches: (R, M) -> bool, msg: M, k: nat)
    requires IsFirstMatch(filters, matches, msg, k)
    ensures FirstMatch(filters, matches, msg) == Some(k)
  {
    assert Matches(filters, matches, msg, k);
  }

  /** The scan finds nothing when no rule matches. */
  lemma NoMatchIsNone<M, R, F>(filters: map<nat, Filter<R, F>>, matches: (R, M) -> bool, msg: M)
    requires forall k :: !Matches(filters, matches, msg, k)
    ensures FirstMatch(filters, matches, msg) == None
  {
    var r := FirstMatch(filters, matches, msg);
  }

  /** Dispatch of one message (one turn of the loop in process_all). */
  ghost function Step<M, RC, R, F>(t: Tables<RC, R, F>, env: Env<M, R, F>, msg: M): (o: Outcome<M, RC, R, F>)
    ensures o.tables.filterNextId == t.filterNextId
    ensures o.tables.replies.Keys <= t.replies.Keys && o.tables.filters.Keys <= t.filters.Keys
  {
    var serial := env.replySerial(msg);
    if serial.Some? && serial.value in t.replies then
      Outcome(t.(replies := t.replies - {serial.value}),
              [ReplyInvoked(serial.value, t.replies[serial.value], msg)])
    else
      match FirstMatch(t.filters, env.matches, msg)
      case Some(k) =>
        var entry := t.filters[k];
        var rest := t.filters - {k};
        var (keep, callback) := env.invokeFilter(entry.callback, msg);
        Outcome(t.(filters := if keep then rest[k := Filter(entry.rule, callback)] else rest),
                [FilterInvoked(k, msg, keep)])
      case None =>
        Outcome(t, match env.defaultReply(msg)
                   case Some(reply) => [DefaultReplySent(reply)]
                   case None => [])
  }

  /** Dispatch of a whole queue, front to back (process_all). */
  ghost function Run<M, RC, R, F>(t: Tables<RC, R, F>, env: Env<M, R, F>, queue: seq<M>): (o: Outcome<M, RC, R, F>)
    ensures o.tables.filterNextId == t.filterNextId
    ensures o.tables.replies.Keys <= t.replies.Keys && o.tables.filters.Keys <= t.filters.Keys
    decreases |queue|
  {
    if queue == [] then
      Outcome(t, [])
    else
      var first := Step(t, env, queue[0]);
      var rest := Run(first.tables, env, queue[1..]);
      Outcome(rest.tables, first.effects + rest.effects)
  }

  /** The default replies among `effects`, in order: what the loop hands to the channel. */
  function DefaultReplies<M, RC>(effects: seq<Effect<M, RC>>): (sent: seq<M>)
    ensures |sent| <= |effects|
    ensures forall m :: m in sent ==> DefaultReplySent(m) in effects
  {
    if effects == [] then []
    else
      (if effects[0].DefaultReplySent? then [effects[0].reply] else []) + DefaultReplies(effects[1..])
  }

  lemma {:induction false} DefaultRepliesAppend<M, RC>(a: seq<Effect<M, RC>>, b: seq<Effect<M, RC>>)
    ensures DefaultReplies(a + b) == DefaultReplies(a) + DefaultReplies(b)
    decreases |a|
  {
    if a != [] {
      assert (a + b)[0] == a[0];
      assert (a + b)[1..] == a[1..] + b;
      DefaultRepliesAppend(a[1..], b);
    } else {
      assert a + b == b;
    }
  }

  /** Handling the front message of a pass keeps the rest of the pass on course toward `goal`. */
  lemma RunFront<M, RC, R, F>(t: Tables<RC, R, F>, env: Env<M, R, F>, pending: seq<M>, done: seq<Effect<M, RC>>, goal: Outcome<M, RC, R, F>)
    requires pending != []
    requires Run(t, env, pending).tables == goal.tables
    requires done + Run(t, env, pending).effects == goal.effects
    ensures var first := Step(t, env, pending[0]);
      && Run(first.tables, env, pending[1..]).tables == goal.tables
      && (done + first.effects) + Run(first.tables, env, pending[1..]).effects == goal.effects
  {
  }

  /**
   * One turn of the loop on the logs: appending the turn's effects to the trace, and its
   * default replies to the sent log when the channel accepts them, keeps both equal to the
   * start plus everything done so far.
   */
  lemma LogTurn<M, RC>(done: seq<Effect<M, RC>>, more: seq<Effect<M, RC>>, trace0: seq<Effect<M, RC>>,
                       trace: seq<Effect<M, RC>>, sent0: seq<M>, sent: seq<M>, accepting: bool)
    requires trace == trace0 + done
    requires sent == sent0 + (if accepting then DefaultReplies(done) else [])
    ensures trace + more == trace0 + (done + more)
    ensures sent + (if accepting then DefaultReplies(more) else []) ==
            sent0 + (if accepting then DefaultReplies(done + more) else [])
  {
    if accepting {
      var a, b := DefaultReplies(done), DefaultReplies(more);
      DefaultRepliesAppend(done, more);
      assert (sent0 + a) + b == sent0 + (a + b);
    }
  }

  /** A message whose reply serial is registered goes to that callback and nowhere else. */
  lemma StepReply<M, RC, R, F>(t: Tables<RC, R, F>, env: Env<M, R, F>, msg: M, s: nat)
    requires env.replySerial(msg) == Some(s) && s in t.replies
    ensures Step(t, env, msg).tables == t.(replies := t.replies - {s})
    ensures Step(t, env, msg).effects == [ReplyInvoked(s, t.replies[s], msg)]
  {
  }

  /**
   * A message not taken as a reply goes to the smallest matching filter only; afterwards that
   * id holds the same rule exactly when the callback asked to be kept, and no other entry of
   * either table changes.
   */
  lemma StepFilter<M, RC, R, F>(t: Tables<RC, R, F>, env: Env<M, R, F>, msg: M, k: nat)
    requires env.replySerial(msg).None? || env.replySerial(msg).value !in t.replies
    requires IsFirstMatch(t.filters, env.matches, msg, k)
    ensures var o := Step(t, env, msg);
      var (keep, callback) := env.invokeFilter(t.filters[k].callback, msg);
      && (k in o.tables.filters <==> keep)
      && (keep ==> o.tables.filters[k] == Filter(t.filters[k].rule, callback))
      && o.tables.filters - {k} == t.filters - {k}
      && o.tables.replies == t.replies
      && o.tables.filterNextId == t.filterNextId
      && o.effects == [FilterInvoked(k, msg, keep)]
  {
    FirstMatchIsLeast(t.filters, env.matches, msg, k);
  }

  /** A message matching no reply and no filter changes no table and sends at most its default reply. */
  lemma StepUnhandled<M, RC, R, F>(t: Tables<RC, R, F>, env: Env<M, R, F>, msg: M)
    requires env.replySerial(msg).None? || env.replySerial(msg).value !in t.replies
    requires forall k :: k in t.filters ==> !env.matches(t.filters[k].rule, msg)
    ensures Step(t, env, msg).tables == t
    ensures env.defaultReply(msg).None? ==> Step(t, env, msg).effects == []
    ensures env.defaultReply(msg).Some? ==> Step(t, env, msg).effects == [DefaultReplySent(env.defaultReply(msg).value)]
  {
    var r := FirstMatch(t.filters, env.matches, msg);
  }

  /** Each message goes to exactly one place, so it has at most one effect. */
  lemma StepAtMostOneEffect<M, RC, R, F>(t: Tables<RC, R, F>, env: Env<M, R, F>, msg: M)
    ensures |Step(t, env, msg).effects| <= 1
  {
  }

  /** Dispatch keeps the subscription counter and keeps every subscription id below it. */
  lemma {:induction false} RunKeepsCounterFresh<M, RC, R, F>(t: Tables<RC, R, F>, env: Env<M, R, F>, queue: seq<M>)
    requires IdsBelowCounter(t)
    ensures IdsBelowCounter(Run(t, env, queue).tables)
    ensures Run(t, env, queue).tables.filterNextId == t.filterNextId
    decreases |queue|
  {
    if queue != [] {
      var first := Step(t, env, queue[0]);
      assert IdsBelowCounter(first.tables);
      RunKeepsCounterFresh(first.tables, env, queue[1..]);
    }
  }

  /** Dispatching two queues one after the other is dispatching their concatenation. */
  lemma {:induction false} RunAppend<M, RC, R, F>(t: Tables<RC, R, F>, env: Env<M, R, F>, q1: seq<M>, q2: seq<M>)
    ensures var a := Run(t, env, q1);
      var b := Run(a.tables, env, q2);
      Run(t, env, q1 + q2).tables == b.tables && Run(t, env, q1 + q2).effects == a.effects + b.effects
    decreases |q1|
  {
    if q1 != [] {
      var q := q1 + q2;
      assert q[0] == q1[0];
      assert q[1..] == q1[1..] + q2;
      var first := Step(t, env, q1[0]);
      RunAppend(first.tables, env, q1[1..], q2);
      var a := Run(first.tables, env, q1[1..]);
      var b := Run(a.tables, env, q2);
      assert Run(t, env, q).effects == first.effects + (a.effects + b.effects);
      assert Run(t, env, q1).effects == first.effects + a.effects;
    } else {
      assert q1 + q2 == q2;
    }
  }

  /** A pass over a single message is one dispatch turn. */
  lemma RunOne<M, RC, R, F>(t: Tables<RC, R, F>, env: Env<M, R, F>, msg: M)
    ensures Run(t, env, [msg]).tables == Step(t, env, msg).tables
    ensures Run(t, env, [msg]).effects == Step(t, env, msg).effects
  {
    assert [msg][1..] == [];
    assert Step(t, env, msg).effects + [] == Step(t, env, msg).effects;
  }

  /** Every message of the queue has at most one effect. */
  lemma {:induction false} RunAtMostOneEffectEach<M, RC, R, F>(t: Tables<RC, R, F>, env: Env<M, R, F>, queue: seq<M>)
    ensures |Run(t, env, queue).effects| <= |queue|
    decreases |queue|
  {
    if queue != [] {
      StepAtMostOneEffect(t, env, queue[0]);
      RunAtMostOneEffectEach(Step(t, env, queue[0]).tables, env, queue[1..]);
    }
  }

  /** The serials whose reply callbacks ran, according to `effects`. */
  ghost function InvokedSerials<M, RC>(effects: seq<Effect<M, RC>>): (serials: set<nat>)
  {
    set i | 0 <= i < |effects| && effects[i].ReplyInvoked? :: effects[i].serial
  }

  lemma InvokedSerialsAppend<M, RC>(a: seq<Effect<M, RC>>, b: seq<Effect<M, RC>>)
    ensures InvokedSerials(a + b) == InvokedSerials(a) + InvokedSerials(b)
  {
    var ab := a + b;
    forall s | s in InvokedSerials(ab)
      ensures s in InvokedSerials(a) + InvokedSerials(b)
    {
      var i :| 0 <= i < |ab| && ab[i].ReplyInvoked? && ab[i].serial == s;
      if i >= |a| {
        assert b[i - |a|] == ab[i];
      }
    }
    forall s | s in InvokedSerials(a)
      ensures s in InvokedSerials(ab)
    {
      var i :| 0 <= i < |a| && a[i].ReplyInvoked? && a[i].serial == s;
      assert ab[i] == a[i];
    }
    forall s | s in InvokedSerials(b)
      ensures s in InvokedSerials(ab)
    {
      var i :| 0 <= i < |b| && b[i].ReplyInvoked? && b[i].serial == s;
      assert ab[|a| + i] == b[i];
    }
  }

  /** One message removes from the reply table exactly the serial whose callback it ran. */
  lemma StepRemovesInvoked<M, RC, R, F>(t: Tables<RC, R, F>, env: Env<M, R, F>, msg: M)
    ensures var o := Step(t, env, msg);
      && o.tables.replies == t.replies - InvokedSerials(o.effects)
      && InvokedSerials(o.effects) <= t.replies.Keys
      && forall i :: 0 <= i < |o.effects| && o.effects[i].ReplyInvoked? ==>
           o.effects[i].callback == t.replies[o.effects[i].serial]
  {
    var o := Step(t, env, msg);
    var serial := env.replySerial(msg);
    if serial.Some? && serial.value in t.replies {
      assert o.effects[0].ReplyInvoked?;
      assert InvokedSerials(o.effects) == {serial.value};
    } else {
      assert forall i :: 0 <= i < |o.effects| ==> !o.effects[i].ReplyInvoked?;
      assert InvokedSerials(o.effects) == {};
      assert o.tables.replies == t.replies;
    }
  }

  /** Every reply callback recorded in `effects` is the one `replies` holds under its serial. */
  ghost predicate RegisteredCallbacks<M, RC>(replies: map<nat, RC>, effects: seq<Effect<M, RC>>)
  {
    forall i :: 0 <= i < |effects| && effects[i].ReplyInvoked? ==>
      effects[i].serial in replies && effects[i].callback == replies[effects[i].serial]
  }

  /** No serial's reply callback is recorded twice in `effects`. */
  ghost predicate SerialsDistinct<M, RC>(effects: seq<Effect<M, RC>>)
  {
    forall i, j :: 0 <= i < j < |effects| && effects[i].ReplyInvoked? && effects[j].ReplyInvoked? ==>
      effects[i].serial != effects[j].serial
  }

  /** A pass only removes reply entries: `b` is `a` with some keys dropped. */
  ghost predicate SubTable<RC>(b: map<nat, RC>, a: map<nat, RC>)
  {
    b.Keys <= a.Keys && forall s :: s in b ==> b[s] == a[s]
  }

  lemma {:induction false} RunRepliesShrink<M, RC, R, F>(t: Tables<RC, R, F>, env: Env<M, R, F>, queue: seq<M>)
    ensures SubTable(Run(t, env, queue).tables.replies, t.replies)
    decreases |queue|
  {
    if queue != [] {
      var first := Step(t, env, queue[0]);
      RunRepliesShrink(first.tables, env, queue[1..]);
    }
  }

  /** After a pass, the reply table has lost exactly the serials whose callbacks ran. */
  lemma {:induction false} RunRemovesInvoked<M, RC, R, F>(t: Tables<RC, R, F>, env: Env<M, R, F>, queue: seq<M>)
    ensures Run(t, env, queue).tables.replies == t.replies - InvokedSerials(Run(t, env, queue).effects)
    decreases |queue|
  {
    var o := Run(t, env, queue);
    if queue == [] {
      assert InvokedSerials(o.effects) == {};
    } else {
      var first := Step(t, env, queue[0]);
      var rest := Run(first.tables, env, queue[1..]);
      StepRemovesInvoked(t, env, queue[0]);
      RunRemovesInvoked(first.tables, env, queue[1..]);
      InvokedSerialsAppend(first.effects, rest.effects);
      assert o.tables.replies == (t.replies - InvokedSerials(first.effects)) - InvokedSerials(rest.effects);
    }
  }

  /** Every reply callback a pass runs was registered under the serial it runs for. */
  lemma {:induction false} RunRunsRegistered<M, RC, R, F>(t: Tables<RC, R, F>, env: Env<M, R, F>, queue: seq<M>)
    ensures RegisteredCallbacks(t.replies, Run(t, env, queue).effects)
    decreases |queue|
  {
    if queue != [] {
      var o := Run(t, env, queue);
      var first := Step(t, env, queue[0]);
      var rest := Run(first.tables, env, queue[1..]);
      StepRemovesInvoked(t, env, queue[0]);
      RunRunsRegistered(first.tables, env, queue[1..]);
      assert SubTable(first.tables.replies, t.replies);
      var n := |first.effects|;
      forall i | 0 <= i < |o.effects| && o.effects[i].ReplyInvoked?
        ensures o.effects[i].serial in t.replies && o.effects[i].callback == t.replies[o.effects[i].serial]
      {
        if i >= n {
          assert o.effects[i] == rest.effects[i - n];
        } else {
          assert o.effects[i] == first.effects[i];
        }
      }
    }
  }

  /** No reply callback runs twice in a pass. */
  lemma {:induction false} RunSerialsDistinct<M, RC, R, F>(t: Tables<RC, R, F>, env: Env<M, R, F>, queue: seq<M>)
    ensures SerialsDistinct(Run(t, env, queue).effects)
    decreases |queue|
  {
    if queue != [] {
      var o := Run(t, env, queue);
      var first := Step(t, env, queue[0]);
      var rest := Run(first.tables, env, queue[1..]);
      StepAtMostOneEffect(t, env, queue[0]);
      StepRemovesInvoked(t, env, queue[0]);
      RunSerialsDistinct(first.tables, env, queue[1..]);
      RunRunsRegistered(first.tables, env, queue[1..]);
      var n := |first.effects|;
      forall i, j | 0 <= i < j < |o.effects| && o.effects[i].ReplyInvoked? && o.effects[j].ReplyInvoked?
        ensures o.effects[i].serial != o.effects[j].serial
      {
        assert o.effects[j] == rest.effects[j - n];
        assert o.effects[j].serial in first.tables.replies;
        if i < n {
          assert o.effects[i] == first.effects[i];
          assert o.effects[i].serial in InvokedSerials(first.effects);
        } else {
          assert o.effects[i] == rest.effects[i - n];
        }
      }
    }
  }
}
