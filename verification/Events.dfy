/**
 The event bus with listeners that themselves listen and publish while they run. The log records
 what happened; a publish is identified by the position in the log at which it began.
 */
module Events {

  datatype Phase = Building | Running   // builder_listeners or app_listeners

  /** One listener list: the phase, and the event type. */
  datatype Topic = Topic(phase: Phase, event: nat)

  type Listener = nat

  datatype Entry =
    | Registered(topic: Topic, listener: Listener)
    | Began(topic: Topic)
    | Invoked(pub: nat, listener: Listener)
    | Returned(pub: nat, listener: Listener, ok: bool)
    | Ended(pub: nat, ok: bool)

  /** The listeners of a topic, in registration order. */
  function ListenersOf(log: seq<Entry>, topic: Topic): seq<Listener> {
    if log == [] then []
    else
      var last := log[|log| - 1];
      ListenersOf(log[..|log| - 1], topic) + if last.Registered? && last.topic == topic then [last.listener] else []
  }

  predicate Concerns(e: Entry, p: nat) {
    (e.Invoked? || e.Returned? || e.Ended?) && e.pub == p
  }

  /** What the publish that began at `p` did, leaving out what its listeners did meanwhile. */
  function HistoryOf(log: seq<Entry>, p: nat): seq<Entry> {
    if log == [] then []
    else HistoryOf(log[..|log| - 1], p) + if Concerns(log[|log| - 1], p) then [log[|log| - 1]] else []
  }

  /** One listener after the other: each is invoked only after the one before has returned. */
  function Dispatch(p: nat, ls: seq<Listener>, oks: seq<bool>): seq<Entry>
    requires |oks| <= |ls|
  {
    if oks == [] then []
    else
      var n := |oks| - 1;
      Dispatch(p, ls, oks[..n]) + [Invoked(p, ls[n]), Returned(p, ls[n], oks[n])]
  }

  ghost predicate AllOk(oks: seq<bool>) {
    forall k :: 0 <= k < |oks| ==> oks[k]
  }

  lemma DispatchSnoc(p: nat, ls: seq<Listener>, oks: seq<bool>, ok: bool)
    requires |oks| < |ls|
    ensures Dispatch(p, ls, oks + [ok]) == Dispatch(p, ls, oks) + [Invoked(p, ls[|oks|]), Returned(p, ls[|oks|], ok)]
  {
    assert (oks + [ok])[..|oks|] == oks;
  }

  /** All listeners answered `Ok`, or the last one invoked, and only that one, answered `Err`. */
  ghost predicate Conclusive(ls: seq<Listener>, oks: seq<bool>, ok: bool) {
    && |oks| <= |ls|
    && (forall k :: 0 <= k < |oks| - 1 ==> oks[k])
    && if ok then |oks| == |ls| && (oks != [] ==> oks[|oks| - 1]) else oks != [] && !oks[|oks| - 1]
  }

  /** The publish at `p` ran the listeners registered when it began, in order, up to the first error. */
  ghost predicate Published(log: seq<Entry>, p: nat, ok: bool) {
    && p < |log| && log[p].Began?
    && var ls := ListenersOf(log[..p], log[p].topic);
       exists oks :: Conclusive(ls, oks, ok) && HistoryOf(log, p) == Dispatch(p, ls, oks) + [Ended(p, ok)]
  }

  /** `log` continues `before` without adding anything to the publishes under way. */
  ghost predicate Continues(before: seq<Entry>, log: seq<Entry>) {
    before <= log && forall p :: 0 <= p < |before| ==> HistoryOf(log, p) == HistoryOf(before, p)
  }

  /** Every publish begun since `before` is over and was correct. */
  ghost predicate NewOnesPublished(before: seq<Entry>, log: seq<Entry>) {
    forall p :: |before| <= p < |log| && log[p].Began? ==> Published(log, p, true) || Published(log, p, false)
  }

  lemma Snoc(log: seq<Entry>, e: Entry)
    ensures forall t ::
      ListenersOf(log + [e], t) == ListenersOf(log, t) + if e.Registered? && e.topic == t then [e.listener] else []
    ensures forall p :: HistoryOf(log + [e], p) == HistoryOf(log, p) + if Concerns(e, p) then [e] else []
  {
    assert (log + [e])[..|log|] == log;
  }

  lemma {:induction false} NoHistoryYet(log: seq<Entry>, p: nat)
    requires forall e :: e in log && (e.Invoked? || e.Returned? || e.Ended?) ==> e.pub < p
    ensures HistoryOf(log, p) == []
  {
    if log != [] {
      NoHistoryYet(log[..|log| - 1], p);
    }
  }

  /** Finished publishes stay correct while the log grows without adding to them. */
  lemma NewOnesStay(start: seq<Entry>, mid: seq<Entry>, log: seq<Entry>)
    requires NewOnesPublished(start, mid) && NewOnesPublished(mid, log) && mid <= log
    requires forall q :: |start| <= q < |mid| ==> HistoryOf(log, q) == HistoryOf(mid, q)
    ensures NewOnesPublished(start, log)
  {
    forall q | |start| <= q < |log| && log[q].Began?
      ensures Published(log, q, true) || Published(log, q, false)
    {
      if q < |mid| {
        assert log[..q] == mid[..q];
      }
    }
  }

  /** The publish of `topic` that began after `start` has had the answers `oks`, and is not over. */
  ghost predicate UnderWay(start: seq<Entry>, topic: Topic, log: seq<Entry>, ls: seq<Listener>, oks: seq<bool>) {
    && |oks| <= |ls| && start + [Began(topic)] <= log && NewOnesPublished(start + [Began(topic)], log)
    && (forall q :: 0 <= q < |start| ==> HistoryOf(log, q) == HistoryOf(start, q))
    && HistoryOf(log, |start|) == Dispatch(|start|, ls, oks)
  }

  lemma PublishIsOver(start: seq<Entry>, topic: Topic, before: seq<Entry>, log: seq<Entry>,
                      ls: seq<Listener>, oks: seq<bool>, ok: bool)
    requires UnderWay(start, topic, before, ls, oks) && log == before + [Ended(|start|, ok)]
    requires ls == ListenersOf(start, topic) && Conclusive(ls, oks, ok)
    ensures Published(log, |start|, ok) && NewOnesPublished(start, log) && Continues(start, log)
  {
    Snoc(before, Ended(|start|, ok));
    assert log[..|start|] == start;
    NewOnesStay(start + [Began(topic)], before, log);
  }

  class EventBus {
    var listeners: map<Topic, seq<Listener>>
    const answers: (nat, nat) -> bool  // of a publish, by where it began, and of a listener, by its place in the list
    var log: seq<Entry>

    constructor (answers: (nat, nat) -> bool)
      ensures Valid() && log == [] && this.answers == answers
    {
      listeners, log, this.answers := map[], [], answers;
    }

    function Current(topic: Topic): seq<Listener>
      reads this
    {
      if topic in listeners then listeners[topic] else []
    }

    ghost predicate Valid()
      reads this
    {
      && (forall t :: Current(t) == ListenersOf(log, t))
      && forall i :: 0 <= i < |log| && (log[i].Invoked? || log[i].Returned? || log[i].Ended?) ==> log[i].pub < i
    }

    /** `listen`, `listen_dyn`, `listen_app`, `listen_app_dyn`: append to the list of the topic. */
    method Listen(topic: Topic, listener: Listener)
      requires Valid()
      modifies this
      ensures Valid()
      ensures log == old(log) + [Registered(topic, listener)]
      ensures listeners == old(listeners)[topic := old(Current(topic)) + [listener]]
    {
      listeners := listeners[topic := Current(topic) + [listener]];
      Snoc(log, Registered(topic, listener));
      log := log + [Registered(topic, listener)];
    }

    method Note(e: Entry)
      requires Valid() && !e.Registered? && (e.Began? || e.pub < |log|)
      modifies this`log
      ensures Valid() && log == old(log) + [e]
      ensures forall p :: HistoryOf(log, p) == HistoryOf(old(log), p) + if Concerns(e, p) then [e] else []
    {
      Snoc(log, e);
      log := log + [e];
    }

    /**
     A listener may do anything finite: register listeners, publish events (nested at most `depth`
     deep), in any number and order, and then it answers.
     */
    method RunListener(depth: nat, answer: bool) returns (ok: bool)
      requires Valid()
      modifies this
      ensures ok == answer && Valid() && Continues(old(log), log) && NewOnesPublished(old(log), log)
      decreases depth, 1
    {
      var steps: nat := *;
      while steps > 0
        invariant Valid() && Continues(old(log), log) && NewOnesPublished(old(log), log)
      {
        ghost var before := log;
        ActOnce(depth);
        NewOnesStay(old(log), before, log);
        steps := steps - 1;
      }
      ok := answer;
    }

    method ActOnce(depth: nat)
      requires Valid()
      modifies this
      ensures Valid() && Continues(old(log), log) && NewOnesPublished(old(log), log)
      decreases depth, 0
    {
      var topic: Topic := *;
      var listener: Listener := *;
      if * {
        Snoc(log, Registered(topic, listener));
        Listen(topic, listener);
      } else if depth > 0 {
        var r := Publish(topic, depth - 1);
      }
    }

    /** `listener.on_event(..).await` inside the publish that began at `p`. */
    method CallListener(p: nat, listener: Listener, depth: nat, answer: bool) returns (ok: bool)
      requires Valid() && p < |log|
      modifies this
      ensures ok == answer && Valid() && old(log) <= log && NewOnesPublished(old(log), log)
      ensures forall q :: 0 <= q < |old(log)| ==>
        HistoryOf(log, q) == HistoryOf(old(log), q) +
          if q == p then [Invoked(p, listener), Returned(p, listener, ok)] else []
      decreases depth, 2
    {
      Note(Invoked(p, listener));
      ghost var before := log;
      ok := RunListener(depth, answer);
      ghost var after := log;
      Note(Returned(p, listener, ok));
      NewOnesStay(before, after, log);
    }

    /** The next listener of the publish that began after `start`. */
    method CallNext(ghost start: seq<Entry>, ghost topic: Topic, p: nat, listener: Listener, ghost ls: seq<Listener>,
                    ghost oks: seq<bool>, k: nat, depth: nat) returns (ok: bool)
      requires Valid() && UnderWay(start, topic, log, ls, oks) && p == |start|
      requires k == |oks| < |ls| && listener == ls[k]
      modifies this
      ensures Valid() && ok == answers(p, k) && UnderWay(start, topic, log, ls, oks + [ok])
      decreases depth, 3
    {
      ghost var before := log;
      ok := CallListener(p, listener, depth, answers(p, k));
      NewOnesStay(start + [Began(topic)], before, log);
      DispatchSnoc(p, ls, oks, ok);
    }

    method EndPublish(ghost start: seq<Entry>, ghost topic: Topic, p: nat, ghost ls: seq<Listener>,
                      ghost oks: seq<bool>, ok: bool)
      requires Valid() && UnderWay(start, topic, log, ls, oks) && p == |start|
      requires ls == ListenersOf(start, topic) && Conclusive(ls, oks, ok)
      modifies this
      ensures Valid() && Continues(start, log) && NewOnesPublished(start, log) && Published(log, |start|, ok)
      ensures |log| > |start| && log[|start|] == Began(topic)
    {
      ghost var before := log;
      Note(Ended(p, ok));
      PublishIsOver(start, topic, before, log, ls, oks, ok);
    }

    /** `publish_builder` and `publish_app`. */
    method Publish(topic: Topic, depth: nat) returns (ok: bool)
      requires Valid()
      modifies this
      ensures Valid() && Continues(old(log), log) && NewOnesPublished(old(log), log)
      ensures |log| > |old(log)| && log[|old(log)|] == Began(topic) && Published(log, |old(log)|, ok)
      ensures ok <==> forall k :: 0 <= k < |old(Current(topic))| ==> answers(|old(log)|, k)
      decreases depth, 4
    {
      ghost var start, ls := log, ListenersOf(log, topic);
      var p := |log|;
      NoHistoryYet(log, p);
      Note(Began(topic));
      var snapshot := Current(topic);
      ghost var oks := [];
      for k := 0 to |snapshot|
        invariant Valid() && UnderWay(start, topic, log, ls, oks)
        invariant AllOk(oks) && |oks| == k && forall i :: 0 <= i < k ==> answers(p, i)
      {
        ok := CallNext(start, topic, p, snapshot[k], ls, oks, k, depth);
        oks := oks + [ok];
        if !ok {
          EndPublish(start, topic, p, ls, oks, false);
          return;
        }
      }
      EndPublish(start, topic, p, ls, oks, true);
      ok := true;
    }
  }

  // ---- Listeners added while a publish is under way ----

  lemma {:induction false} ListenersGrow(log: seq<Entry>, i: nat, j: nat, topic: Topic)
    requires i <= j <= |log|
    ensures ListenersOf(log[..i], topic) <= ListenersOf(log[..j], topic)
  {
    if i < j {
      ListenersGrow(log, i, j - 1, topic);
      Snoc(log[..j - 1], log[j - 1]);
      assert log[..j] == log[..j - 1] + [log[j - 1]];
    }
  }

  lemma {:induction false} InvokedAreListed(p: nat, ls: seq<Listener>, oks: seq<bool>)
    requires |oks| <= |ls|
    ensures forall l :: Invoked(p, l) in Dispatch(p, ls, oks) <==> l in ls[..|oks|]
  {
    if oks != [] {
      var n := |oks| - 1;
      InvokedAreListed(p, ls, oks[..n]);
      assert ls[..n + 1] == ls[..n] + [ls[n]];
      assert Dispatch(p, ls, oks) == Dispatch(p, ls, oks[..n]) + [Invoked(p, ls[n]), Returned(p, ls[n], oks[n])];
    }
  }

  lemma {:induction false} ListedIff(log: seq<Entry>, topic: Topic, listener: Listener)
    ensures listener in ListenersOf(log, topic) <==> Registered(topic, listener) in log
  {
    if log != [] {
      var rest, last := log[..|log| - 1], log[|log| - 1];
      ListedIff(rest, topic, listener);
      assert log == rest + [last];
      Snoc(rest, last);
    }
  }

  /** Who a finished publish ran: only listeners registered for its topic before it, and all of them if it
      succeeded. */
  lemma RunsOnlyListeners(log: seq<Entry>, p: nat, ok: bool, listener: Listener)
    requires Published(log, p, ok)
    ensures Invoked(p, listener) in HistoryOf(log, p) ==> Registered(log[p].topic, listener) in log[..p]
    ensures ok && Registered(log[p].topic, listener) in log[..p] ==> Invoked(p, listener) in HistoryOf(log, p)
  {
    var ls := ListenersOf(log[..p], log[p].topic);
    var oks :| Conclusive(ls, oks, ok) && HistoryOf(log, p) == Dispatch(p, ls, oks) + [Ended(p, ok)];
    InvokedAreListed(p, ls, oks);
    ListedIff(log[..p], log[p].topic, listener);
    assert |oks| == |ls| ==> ls[..|oks|] == ls;
    assert Invoked(p, listener) in HistoryOf(log, p) <==> Invoked(p, listener) in Dispatch(p, ls, oks);
  }

  /** A listener registered at `r`, while the publish at `p` is under way, is not run by it, but is run
      by every later publish of the topic that succeeds. */
  lemma AddedListenerRunsFromNextPublish(log: seq<Entry>, p: nat, ok: bool, r: nat, next: nat, listener: Listener)
    requires p < r < next && Published(log, p, ok) && Published(log, next, true)
    requires log[r] == Registered(log[p].topic, listener) && log[next].topic == log[p].topic
    requires Registered(log[p].topic, listener) !in log[..p]
    ensures Invoked(p, listener) !in HistoryOf(log, p)
    ensures Invoked(next, listener) in HistoryOf(log, next)
  {
    RunsOnlyListeners(log, p, ok, listener);
    assert log[..next][r] == log[r];
    RunsOnlyListeners(log, next, true, listener);
  }
  /** The place of the listener registered at `r` in its list. */
  lemma PlaceOf(log: seq<Entry>, r: nat, next: nat) returns (i: nat)
    requires r < next <= |log| && log[r].Registered?
    ensures i < |ListenersOf(log[..next], log[r].topic)| && ListenersOf(log[..next], log[r].topic)[i] == log[r].listener
    ensures i == |ListenersOf(log[..r], log[r].topic)|
  {
    var t := log[r].topic;
    Snoc(log[..r], log[r]);
    assert log[..r + 1] == log[..r] + [log[r]];
    ListenersGrow(log, r + 1, next, t);
    i := |ListenersOf(log[..r], t)|;
    assert ListenersOf(log[..r + 1], t)[i] == log[r].listener;
  }

  lemma {:induction false} InvokedAt(p: nat, ls: seq<Listener>, oks: seq<bool>, k: nat)
    requires k < |oks| <= |ls|
    ensures |Dispatch(p, ls, oks)| == 2 * |oks| && Dispatch(p, ls, oks)[2 * k] == Invoked(p, ls[k])
  {
    var n := |oks| - 1;
    if k < n {
      InvokedAt(p, ls, oks[..n], k);
    } else if n > 0 {
      InvokedAt(p, ls, oks[..n], 0);
    }
  }

  /** Of two listeners of its topic a successful publish invokes the one registered first before the other. */
  lemma InvokedInRegistrationOrder(log: seq<Entry>, p: nat, r1: nat, r2: nat) returns (i: nat, j: nat)
    requires r1 < r2 < p && Published(log, p, true) && log[r1].Registered? && log[r2].Registered?
    requires log[r1].topic == log[r2].topic == log[p].topic
    ensures i < j < |HistoryOf(log, p)|
    ensures HistoryOf(log, p)[i] == Invoked(p, log[r1].listener) && HistoryOf(log, p)[j] == Invoked(p, log[r2].listener)
  {
    var ls := ListenersOf(log[..p], log[p].topic);
    var oks :| Conclusive(ls, oks, true) && HistoryOf(log, p) == Dispatch(p, ls, oks) + [Ended(p, true)];
    var k1 := PlaceOf(log, r1, p);
    var k2 := PlaceOf(log, r2, p);
    PlacesAscend(log, r1, r2);
    InvokedAt(p, ls, oks, k1);
    InvokedAt(p, ls, oks, k2);
    i, j := 2 * k1, 2 * k2;
  }

  lemma PlacesAscend(log: seq<Entry>, r1: nat, r2: nat)
    requires r1 < r2 < |log| && log[r1].Registered? && log[r2].Registered? && log[r1].topic == log[r2].topic
    ensures |ListenersOf(log[..r1], log[r1].topic)| < |ListenersOf(log[..r2], log[r1].topic)|
  {
    var i := PlaceOf(log, r1, r2);
  }
}
