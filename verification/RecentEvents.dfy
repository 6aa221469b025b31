/** The controller pipeline's window of recent reconcile events, fed from the reconciler's growing log. */
module RecentEvents {
  import opened Basics

  const MAX_RECENT_EVENTS: nat := 64

  datatype Window<E> = Window(recent: seq<E>, synced: nat)

  function Synced<E>(w: Window<E>, events: seq<E>): Window<E>
    decreases |events| - w.synced
  {
    if w.synced >= |events| then w
    else Synced(Window(PushBounded(w.recent, events[w.synced], MAX_RECENT_EVENTS), w.synced + 1), events)
  }

  class EventWindow<E> {
    var recent: seq<E>
    var synced: nat

    ghost function Model(): Window<E>
      reads this
    {
      Window(recent, synced)
    }

    constructor ()
      ensures Model() == Window([], 0)
    {
      recent, synced := [], 0;
    }

    method SyncRecentEvents(events: seq<E>)
      modifies this
      ensures Model() == Synced(old(Model()), events)
    {
      while synced < |events|
        invariant Synced(old(Model()), events) == Synced(Model(), events)
        decreases |events| - synced
      {
        if |recent| == MAX_RECENT_EVENTS {
          recent := recent[1..];
        }
        recent := recent + [events[synced]];
        synced := synced + 1;
      }
    }
  }

  /** The window is the end of the log. */
  ghost predicate Follows<E>(w: Window<E>, events: seq<E>) {
    w.synced == |events| && w.recent == LastN(events, MAX_RECENT_EVENTS)
  }

  lemma {:induction false} SyncFollows<E>(w: Window<E>, before: seq<E>, events: seq<E>)
    requires Follows(w, before) && before <= events
    ensures Follows(Synced(w, events), events)
    decreases |events| - |before|
  {
    if |before| < |events| {
      var x := events[|before|];
      PushKeepsLast(before, x, MAX_RECENT_EVENTS);
      SyncFollows(Window(PushBounded(w.recent, x, MAX_RECENT_EVENTS), w.synced + 1), before + [x], events);
    }
  }

  /** Syncing with a log at several moments of its growth. */
  function SyncedAll<E>(w: Window<E>, logs: seq<seq<E>>): Window<E> {
    if logs == [] then w else Synced(SyncedAll(w, logs[..|logs| - 1]), logs[|logs| - 1])
  }

  ghost predicate Growing<E>(logs: seq<seq<E>>) {
    forall i :: 0 < i < |logs| ==> logs[i - 1] <= logs[i]
  }

  /** However often it is synced, the window shows the last 64 events of the log, each once and in order. */
  lemma {:induction false} WindowFollowsLog<E>(logs: seq<seq<E>>)
    requires Growing(logs)
    ensures Follows(SyncedAll(Window([], 0), logs), if logs == [] then [] else logs[|logs| - 1])
    decreases |logs|
  {
    if logs != [] {
      var front := logs[..|logs| - 1];
      WindowFollowsLog(front);
      SyncFollows(SyncedAll(Window([], 0), front), if front == [] then [] else front[|front| - 1], logs[|logs| - 1]);
    }
  }
}
