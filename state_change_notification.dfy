/**
 * StateChangeNotificationConcern: a concern on the entity store that wraps the
 * committer returned by the next store in the chain, so that committing first
 * notifies every state change listener and then commits.
 */
module StateChangeNotification {
  import opened Wrappers
  import opened JavaLang

  /** The observable calls, in the order they happen. */
  datatype Event =
    | NextApplied(state: seq<ObjectRef>, identity: string)   // next.apply(state, identity)
    | Notified(listener: ObjectRef, state: seq<ObjectRef>)   // listener.notifyChanges(state)
    | Committed(committer: ObjectRef)                        // committer.commit()
    | Cancelled(committer: ObjectRef)                        // committer.cancel()

  /** How a call returns: normally, or by throwing an exception. */
  datatype Outcome = Normal | Threw(exception: ObjectRef)

  /** The record of the calls made so far. */
  class EventLog {
    var events: seq<Event>

    constructor ()
      ensures events == []
    {
      events := [];
    }
  }

  /** The notifications of the listeners, in iteration order. */
  function Notifications(listeners: seq<ObjectRef>, state: seq<ObjectRef>): (es: seq<Event>)
    ensures |es| == |listeners|
    ensures forall k :: 0 <= k < |listeners| ==> es[k] == Notified(listeners[k], state)
  {
    seq(|listeners|, k requires 0 <= k < |listeners| => Notified(listeners[k], state))
  }

  /** The position of the first listener whose notifyChanges throws, if any. */
  function FirstFailure(listeners: seq<ObjectRef>, notify: ObjectRef -> Outcome): (r: Option<nat>)
    ensures r.Some? ==> r.value < |listeners| && notify(listeners[r.value]).Threw?
    ensures r.Some? ==> forall k :: 0 <= k < r.value ==> notify(listeners[k]) == Normal
    ensures r.None? <==> forall k :: 0 <= k < |listeners| ==> notify(listeners[k]) == Normal
    decreases |listeners|
  {
    if listeners == [] then None
    else if notify(listeners[0]).Threw? then Some(0)
    else match FirstFailure(listeners[1..], notify)
      case None => None
      case Some(k) => Some(k + 1)
  }

  /**
   * The calls commit makes: listeners are notified in order until one throws;
   * the underlying commit follows only when none did.
   */
  function CommitEvents(listeners: seq<ObjectRef>, state: seq<ObjectRef>, committer: ObjectRef,
                        notify: ObjectRef -> Outcome): (events: seq<Event>)
  {
    match FirstFailure(listeners, notify)
    case Some(k) => Notifications(listeners[..k + 1], state)
    case None => Notifications(listeners, state) + [Committed(committer)]
  }

  /** How commit returns: with the first listener exception, or as the underlying commit does. */
  function CommitOutcome(listeners: seq<ObjectRef>, notify: ObjectRef -> Outcome, commitOutcome: Outcome): (outcome: Outcome)
  {
    match FirstFailure(listeners, notify)
    case Some(k) => notify(listeners[k])
    case None => commitOutcome
  }

  class StateChangeNotificationConcern {
    /** The injected listeners, read when a commit happens. */
    var listeners: seq<ObjectRef>
    const log: EventLog

    constructor (listeners: seq<ObjectRef>, log: EventLog)
      ensures this.listeners == listeners && this.log == log
    {
      this.listeners := listeners;
      this.log := log;
    }

    /**
     * apply: ask the next store for its committer (`nextApply` stands for
     * next.apply) and wrap it.
     */
    method Apply(state: seq<ObjectRef>, identity: string, nextApply: (seq<ObjectRef>, string) -> ObjectRef)
      returns (c: NotifyingCommitter)
      modifies log
      ensures fresh(c)
      ensures c.concern == this && c.state == state && c.committer == nextApply(state, identity)
      ensures log.events == old(log.events) + [NextApplied(state, identity)]
    {
      var committer := nextApply(state, identity);
      log.events := log.events + [NextApplied(state, identity)];
      c := new NotifyingCommitter(this, state, committer);
    }
  }

  /** The StateCommitter apply returns. */
  class NotifyingCommitter {
    const concern: StateChangeNotificationConcern
    const state: seq<ObjectRef>
    const committer: ObjectRef

    constructor (concern: StateChangeNotificationConcern, state: seq<ObjectRef>, committer: ObjectRef)
      ensures this.concern == concern && this.state == state && this.committer == committer
    {
      this.concern := concern;
      this.state := state;
      this.committer := committer;
    }

    /**
     * commit: notify each listener with the applied state, then commit. A
     * listener's exception, or the underlying commit's, propagates as is;
     * `notify` and `commitOutcome` say how those calls return.
     */
    method Commit(notify: ObjectRef -> Outcome, commitOutcome: Outcome) returns (out: Outcome)
      modifies concern.log
      ensures concern.log.events == old(concern.log.events) + CommitEvents(concern.listeners, state, committer, notify)
      ensures out == CommitOutcome(concern.listeners, notify, commitOutcome)
    {
      var listeners := concern.listeners;
      var log := concern.log;
      var i := 0;
      while i < |listeners|
        invariant 0 <= i <= |listeners|
        invariant log.events == old(log.events) + Notifications(listeners[..i], state)
        invariant forall k :: 0 <= k < i ==> notify(listeners[k]) == Normal
      {
        log.events := log.events + [Notified(listeners[i], state)];
        assert Notifications(listeners[..i + 1], state) == Notifications(listeners[..i], state) + [Notified(listeners[i], state)];
        var o := notify(listeners[i]);
        if o.Threw? {
          FirstFailureAt(listeners, notify, i);
          return o;
        }
        i := i + 1;
      }
      assert listeners[..i] == listeners;
      log.events := log.events + [Committed(committer)];
      out := commitOutcome;
    }

    /** cancel: cancel the underlying committer; no listener is notified. */
    method Cancel(cancelOutcome: Outcome) returns (out: Outcome)
      modifies concern.log
      ensures concern.log.events == old(concern.log.events) + [Cancelled(committer)]
      ensures out == cancelOutcome
    {
      concern.log.events := concern.log.events + [Cancelled(committer)];
      out := cancelOutcome;
    }
  }

  /** The first throwing listener is the one after a run of quiet ones. */
  lemma {:induction false} FirstFailureAt(listeners: seq<ObjectRef>, notify: ObjectRef -> Outcome, i: nat)
    requires i < |listeners| && notify(listeners[i]).Threw?
    requires forall k :: 0 <= k < i ==> notify(listeners[k]) == Normal
    ensures FirstFailure(listeners, notify) == Some(i)
    decreases i
  {
    if i > 0 {
      var rest := listeners[1..];
      assert notify(listeners[0]) == Normal;
      forall k | 0 <= k < i - 1
        ensures notify(rest[k]) == Normal
      {
        assert rest[k] == listeners[k + 1];
      }
      FirstFailureAt(rest, notify, i - 1);
    }
  }

  /**
   * When no listener throws, commit notifies every listener in order with the
   * applied state and then makes the underlying commit, which comes last; its
   * outcome, failure included, is commit's outcome unchanged.
   */
  lemma QuietListenersThenCommit(listeners: seq<ObjectRef>, state: seq<ObjectRef>, committer: ObjectRef,
                                 notify: ObjectRef -> Outcome, commitOutcome: Outcome)
    requires forall k :: 0 <= k < |listeners| ==> notify(listeners[k]) == Normal
    ensures var es := CommitEvents(listeners, state, committer, notify);
            && |es| == |listeners| + 1
            && (forall k :: 0 <= k < |listeners| ==> es[k] == Notified(listeners[k], state))
            && es[|listeners|] == Committed(committer)
    ensures CommitOutcome(listeners, notify, commitOutcome) == commitOutcome
  {
  }

  /**
   * The underlying commit happens only after every listener has been notified:
   * whenever it is among commit's calls, it is the last one and each listener
   * was notified before it.
   */
  lemma CommitComesLast(listeners: seq<ObjectRef>, state: seq<ObjectRef>, committer: ObjectRef, notify: ObjectRef -> Outcome)
    ensures var es := CommitEvents(listeners, state, committer, notify);
            Committed(committer) in es ==>
              && es == Notifications(listeners, state) + [Committed(committer)]
              && forall k :: 0 <= k < |listeners| ==> notify(listeners[k]) == Normal
  {
    var es := CommitEvents(listeners, state, committer, notify);
    match FirstFailure(listeners, notify)
    case None =>
    case Some(k) =>
      assert forall j :: 0 <= j < |es| ==> es[j].Notified?;
  }

  /**
   * When a listener throws, the listeners after it are not notified, the
   * underlying commit is not made, and commit throws that listener's exception.
   */
  lemma ListenerFailureStopsCommit(listeners: seq<ObjectRef>, state: seq<ObjectRef>, committer: ObjectRef,
                                   notify: ObjectRef -> Outcome, commitOutcome: Outcome, i: nat)
    requires i < |listeners| && notify(listeners[i]).Threw?
    requires forall k :: 0 <= k < i ==> notify(listeners[k]) == Normal
    ensures CommitEvents(listeners, state, committer, notify) == Notifications(listeners[..i + 1], state)
    ensures Committed(committer) !in CommitEvents(listeners, state, committer, notify)
    ensures CommitOutcome(listeners, notify, commitOutcome) == notify(listeners[i])
  {
    FirstFailureAt(listeners, notify, i);
    var es := Notifications(listeners[..i + 1], state);
    assert forall j :: 0 <= j < |es| ==> es[j].Notified?;
  }

  /**
   * A scenario of apply followed by commit: next.apply is called once with the
   * applied state and identity, before any listener; then every quiet listener
   * is notified and the underlying commit follows.
   */
  method ApplyThenCommit(listeners: seq<ObjectRef>, state: seq<ObjectRef>, identity: string,
                         nextApply: (seq<ObjectRef>, string) -> ObjectRef, commitOutcome: Outcome)
    returns (events: seq<Event>, out: Outcome)
    ensures events == [NextApplied(state, identity)] + Notifications(listeners, state) + [Committed(nextApply(state, identity))]
    ensures out == commitOutcome
  {
    var log := new EventLog();
    var concern := new StateChangeNotificationConcern(listeners, log);
    var c := concern.Apply(state, identity, nextApply);
    out := c.Commit((l: ObjectRef) => Normal, commitOutcome);
    QuietListenersThenCommit(listeners, state, c.committer, (l: ObjectRef) => Normal, commitOutcome);
    events := log.events;
  }
}
