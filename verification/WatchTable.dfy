/** The watcher tasks of one gRPC connection: who owns them, which ones live, and what is answered. */
module WatchTable {
  import opened Wrappers

  datatype Action = Subscribe(resourceType: int, namespace: string) | Unsubscribe(unwatched: int) | Ping(timestamp: int)

  /** What the loop meets: a request, which may carry no action, a broken stream, or a task that ends by itself. */
  datatype Event = Message(action: Option<Action>) | StreamError | TaskEnds(task: nat)

  datatype Reply = Ack(resourceType: int, subscribed: bool) | Pong(timestamp: int)

  datatype Task = Task(id: nat, resourceType: int, namespace: string)

  // ── What a client may expect ─────────────────────────────────────────────

  /** The loop ends at the first stream error. */
  function Heard(events: seq<Event>): seq<Event> {
    if events == [] || events[0].StreamError? then [] else [events[0]] + Heard(events[1..])
  }

  lemma HeardStep(events: seq<Event>, i: nat, before: seq<Event>)
    requires i < |events| && Heard(events) == before + Heard(events[i..])
    ensures Heard(events) == if events[i].StreamError? then before else before + [events[i]] + Heard(events[i + 1..])
  {
    assert events[i..][1..] == events[i + 1..];
    assert before + ([events[i]] + Heard(events[i + 1..])) == before + [events[i]] + Heard(events[i + 1..]);
  }

  /** The requests up to the first stream error, or all of them. */
  ghost predicate UpToError(events: seq<Event>, n: int) {
    0 <= n <= |events| && (forall i :: 0 <= i < n ==> !events[i].StreamError?) &&
    (n == |events| || events[n].StreamError?)
  }

  lemma {:induction false} HeardUpToError(events: seq<Event>) returns (n: nat)
    ensures UpToError(events, n) && Heard(events) == events[..n]
  {
    if events == [] || events[0].StreamError? {
      n := 0;
    } else {
      var m := HeardUpToError(events[1..]);
      n := m + 1;
      assert forall i :: 0 < i < |events| ==> events[i] == events[1..][i - 1];
      assert events[..n] == [events[0]] + events[1..][..m];
    }
  }

  lemma HeardNothing()
    ensures Heard([]) == []
  {
  }

  function ReplyTo(e: Event): seq<Reply> {
    if e.Message? && e.action.Some? then
      match e.action.value
      case Subscribe(t, _) => [Ack(t, true)]
      case Unsubscribe(t) => [Ack(t, false)]
      case Ping(timestamp) => [Pong(timestamp)]
    else []
  }

  /** One reply for each action, in the order of the requests. */
  function Replies(events: seq<Event>): seq<Reply> {
    if events == [] then [] else Replies(events[..|events| - 1]) + ReplyTo(events[|events| - 1])
  }

  predicate IsAction(e: Event) {
    e.Message? && e.action.Some?
  }

  /** Subscribing and unsubscribing are acknowledged with their type, a ping gets its timestamp back. */
  predicate Answers(reply: Reply, e: Event) {
    IsAction(e) &&
    match e.action.value
    case Subscribe(t, _) => reply.Ack? && reply.resourceType == t && reply.subscribed
    case Unsubscribe(t) => reply.Ack? && reply.resourceType == t && !reply.subscribed
    case Ping(timestamp) => reply.Pong? && reply.timestamp == timestamp
  }

  /** The k-th reply answers the event at `at[k]`, and these are all actions in their order. */
  ghost predicate AnswersEach(events: seq<Event>, replies: seq<Reply>, at: seq<nat>) {
    && |at| == |replies| && (forall k, l :: 0 <= k < l < |at| ==> at[k] < at[l])
    && (forall k :: 0 <= k < |at| ==> at[k] < |events| && Answers(replies[k], events[at[k]]))
    && (forall i :: 0 <= i < |events| && IsAction(events[i]) ==> i in at)
  }

  lemma AnswerOne(events: seq<Event>, replies: seq<Reply>, at: seq<nat>, e: Event, reply: Reply)
    requires AnswersEach(events, replies, at) && Answers(reply, e)
    ensures AnswersEach(events + [e], replies + [reply], at + [|events|])
  {
    var more, later := events + [e], at + [|events|];
    hide Answers, IsAction;
    assert later[|at|] == |events|;
    forall i | 0 <= i < |more| && IsAction(more[i]) ensures i in later {
      assert i < |events| ==> more[i] == events[i] && i in at;
    }
  }

  lemma AnswerNone(events: seq<Event>, replies: seq<Reply>, at: seq<nat>, e: Event)
    requires AnswersEach(events, replies, at) && !IsAction(e)
    ensures AnswersEach(events + [e], replies, at)
  {
    hide Answers, IsAction;
  }

  lemma {:induction false} RepliesAnswer(events: seq<Event>) returns (at: seq<nat>)
    ensures AnswersEach(events, Replies(events), at)
  {
    if events == [] {
      at := [];
    } else {
      var init, e := events[..|events| - 1], events[|events| - 1];
      assert events == init + [e];
      at := RepliesAnswer(init);
      hide AnswersEach;
      if IsAction(e) {
        AnswerOne(init, Replies(init), at, e, ReplyTo(e)[0]);
        at := at + [|init|];
      } else {
        AnswerNone(init, Replies(init), at, e);
      }
    }
  }

  predicate Concerns(e: Event, t: int) {
    e.Message? && e.action.Some? &&
    ((e.action.value.Subscribe? && e.action.value.resourceType == t) ||
      (e.action.value.Unsubscribe? && e.action.value.unwatched == t))
  }

  /** The namespace of the standing subscription to a type. */
  function Wanted(events: seq<Event>, t: int): Option<string> {
    if events == [] then None
    else
      var last := events[|events| - 1];
      if !Concerns(last, t) then Wanted(events[..|events| - 1], t)
      else if last.action.value.Subscribe? then Some(last.action.value.namespace)
      else None
  }

  /** The subscription at `i` is the last action on its type. */
  ghost predicate StandsAt(events: seq<Event>, i: nat, t: int, namespace: string) {
    && i < |events| && events[i] == Message(Some(Subscribe(t, namespace)))
    && forall j :: i < j < |events| ==> !Concerns(events[j], t)
  }

  lemma {:induction false} WantedIsLastAction(events: seq<Event>, t: int, namespace: string)
    ensures Wanted(events, t) == Some(namespace) <==> exists i :: StandsAt(events, i, t, namespace)
  {
    if events == [] {
    } else {
      var init, last := events[..|events| - 1], events[|events| - 1];
      WantedIsLastAction(init, t, namespace);
      if !Concerns(last, t) {
        if i :| StandsAt(init, i, t, namespace) {
          assert StandsAt(events, i, t, namespace);
        }
        if i :| StandsAt(events, i, t, namespace) {
          assert StandsAt(init, i, t, namespace);
        }
      } else if last == Message(Some(Subscribe(t, namespace))) {
        assert StandsAt(events, |events| - 1, t, namespace);
      }
    }
  }

  // ── The connection ───────────────────────────────────────────────────────

  class Connection {
    var watchers: map<int, Task>
    var replies: seq<Reply>
    var spawned: nat
    /** The tasks that are running. */
    ghost var live: set<Task>
    ghost var ended: set<nat>

    constructor ()
      ensures watchers == map[] && replies == [] && live == {} && ended == {} && spawned == 0
    {
      watchers, replies, spawned, live, ended := map[], [], 0, {}, {};
    }

    /**
     * Every running task is the one the table holds for its type, and a task in the table runs unless it
     * ended by itself.
     */
    ghost predicate Owned()
      reads this
    {
      && (forall task :: task in live ==> task.resourceType in watchers && watchers[task.resourceType] == task)
      && (forall t :: t in watchers ==>
            watchers[t].resourceType == t && watchers[t].id < spawned &&
              (watchers[t] in live || watchers[t].id in ended))
    }

    /** The table after some events: one watcher for each standing subscription, in its namespace. */
    ghost predicate Serves(events: seq<Event>)
      reads this
    {
      && Owned()
      && replies == Replies(events)
      && (forall t :: t in watchers <==> Wanted(events, t).Some?)
      && (forall t :: t in watchers ==> watchers[t].namespace == Wanted(events, t).value)
    }

    /** `watchers.remove(..)` and `abort`. */
    method Drop(t: int)
      requires Owned()
      modifies this`watchers, this`live
      ensures Owned() && watchers == old(watchers) - {t} && live <= old(live)
      ensures forall task :: task in live ==> task.resourceType != t
    {
      if t in watchers {
        live := live - {watchers[t]};
        watchers := watchers - {t};
      }
    }

    method Watch(t: int, namespace: string)
      requires Owned()
      modifies this
      ensures Owned() && replies == old(replies) + [Ack(t, true)]
      ensures t in watchers && watchers == old(watchers)[t := watchers[t]]
      ensures watchers[t] == Task(old(spawned), t, namespace) && watchers[t] in live && ended == old(ended)
    {
      Drop(t);
      var task := Task(spawned, t, namespace);
      spawned := spawned + 1;
      live := live + {task};
      watchers := watchers[t := task];
      replies := replies + [Ack(t, true)];
    }

    method Unwatch(t: int)
      requires Owned()
      modifies this
      ensures Owned() && replies == old(replies) + [Ack(t, false)] && watchers == old(watchers) - {t} &&
        ended == old(ended)
    {
      Drop(t);
      replies := replies + [Ack(t, false)];
    }

    method HandleEvent(e: Event, ghost before: seq<Event>)
      requires Serves(before) && !e.StreamError?
      modifies this
      ensures Serves(before + [e])
      ensures ended == old(ended) + if e.TaskEnds? then {e.task} else {}
    {
      assert (before + [e])[..|before|] == before;
      match e
      case TaskEnds(id) =>
        live := set task | task in live && task.id != id;
        ended := ended + {id};
      case Message(None) =>
      case Message(Some(Subscribe(t, namespace))) =>
        Watch(t, namespace);
      case Message(Some(Unsubscribe(t))) =>
        Unwatch(t);
      case Message(Some(Ping(timestamp))) =>
        replies := replies + [Pong(timestamp)];
    }

    /** The request loop, up to the end of the stream or its first error. */
    method Listen(events: seq<Event>)
      requires watchers == map[] && replies == [] && live == {}
      modifies this
      ensures Serves(Heard(events))
    {
      var i := 0;
      ghost var before: seq<Event> := [];
      assert events[0..] == events;
      assert Serves(before);
      hide Serves, Heard;
      while i < |events|
        invariant 0 <= i <= |events| && Serves(before)
        invariant Heard(events) == before + Heard(events[i..])
      {
        HeardStep(events, i, before);
        if events[i].StreamError? {
          return;
        }
        HandleEvent(events[i], before);
        before := before + [events[i]];
        i := i + 1;
      }
      HeardNothing();
      assert events[i..] == [] && before + [] == before;
    }

    /** The cleanup at the end of the stream. */
    method Close()
      requires Owned()
      modifies this`live
      ensures live == {}
    {
      var table := watchers;
      var left := table.Keys;
      while left != {}
        invariant left <= table.Keys
        invariant forall task :: task in live ==> task.resourceType in left && task in table.Values
        invariant forall t :: t in table ==> table[t].resourceType == t
        decreases |left|
      {
        var t :| t in left;
        left := left - {t};
        live := live - {table[t]};
      }
    }

    /** Each action before the first stream error gets its reply, in order, and no task survives the stream. */
    method Serve(events: seq<Event>)
      requires watchers == map[] && replies == [] && live == {}
      modifies this
      ensures live == {} && replies == Replies(Heard(events))
      ensures exists n, at :: UpToError(events, n) && AnswersEach(events[..n], replies, at)
    {
      Listen(events);
      Close();
      var n := HeardUpToError(events);
      ghost var at := RepliesAnswer(events[..n]);
    }
  }
}
