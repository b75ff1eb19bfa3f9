/**
 * The session singleton (concurrency/session_manager.go): callers create the session under a
 * mutex, and one goroutine per session clears it once it is dead, without checking which session
 * it clears.
 */
module Sessions {
  import opened Base

  /** The manager's field, the clearing goroutines that have not run yet, and all sessions ever made. */
  datatype State = State(session: Option<nat>, clearers: multiset<nat>, created: set<nat>)

  /** What goroutines do to the manager, in any order. */
  datatype Event = Get(newSession: Result<nat>) | Dies(id: nat)

  ghost predicate Possible(s: State, e: Event) {
    match e
    case Get(newSession) => newSession.Ok? ==> newSession.value !in s.created
    case Dies(id) => id in s.clearers
  }

  ghost function Step(s: State, e: Event): State {
    match e
    case Get(newSession) =>
      if s.session.None? && newSession.Ok?
      then State(Some(newSession.value), s.clearers + multiset{newSession.value}, s.created + {newSession.value})
      else s
    case Dies(id) => State(None, s.clearers - multiset{id}, s.created)
  }

  /** Exactly one clearer, for the current session, or none at all. */
  ghost predicate SoleClearer(s: State) {
    && s.clearers == (if s.session.Some? then multiset{s.session.value} else multiset{})
    && (s.session.Some? ==> s.session.value in s.created)
  }

  class SessionManager {
    var session: Option<nat>
    ghost var clearers: multiset<nat>
    ghost var created: set<nat>

    ghost function View(): State
      reads this
    {
      State(session, clearers, created)
    }

    constructor ()
      ensures View() == State(None, multiset{}, {})
    {
      session, clearers, created := None, multiset{}, {};
    }

    /** `GetSession`; newSession is what the client returns if a session has to be created. */
    method GetSession(newSession: Result<nat>) returns (res: Result<nat>)
      requires SoleClearer(View()) && Possible(View(), Get(newSession))
      modifies this
      ensures View() == Step(old(View()), Get(newSession)) && SoleClearer(View())
      ensures old(session).Some? ==> res == Ok(old(session).value) && View() == old(View())
      ensures old(session).None? && newSession.Ok? ==>
        && res == newSession && session == Some(newSession.value) && clearers == multiset{newSession.value}
        && created == old(created) + {newSession.value}
      ensures old(session).None? && newSession.Err? ==> res.Err? && View() == old(View())
    {
      if session.None? {
        session := if newSession.Ok? then Some(newSession.value) else None;
        if newSession.Err? { return Err; }
        clearers := clearers + multiset{newSession.value};
        created := created + {newSession.value};
      }
      return Ok(session.value);
    }

    /**
     * The goroutine of session id, run at any later time. It clears the manager unconditionally,
     * yet it can only ever clear its own session.
     */
    method Clear(ghost id: nat)
      requires SoleClearer(View()) && Possible(View(), Dies(id))
      modifies this
      ensures View() == Step(old(View()), Dies(id)) && SoleClearer(View())
      ensures old(session) == Some(id) && session == None && clearers == multiset{} && created == old(created)
    {
      session := None;
      clearers := clearers - multiset{id};
    }
  }

  ghost function After(events: seq<Event>): State {
    if events == [] then State(None, multiset{}, {}) else Step(After(events[..|events| - 1]), events[|events| - 1])
  }

  ghost predicate Legal(events: seq<Event>) {
    events == [] || (Legal(events[..|events| - 1]) && Possible(After(events[..|events| - 1]), events[|events| - 1]))
  }

  /** Over every interleaving: one clearer for a session, none otherwise, and no late clear. */
  lemma {:induction false} SingletonProtocol(events: seq<Event>)
    requires Legal(events)
    ensures SoleClearer(After(events))
    ensures forall id: nat :: Possible(After(events), Dies(id)) ==> After(events).session == Some(id)
  {
    if events != [] {
      SingletonProtocol(events[..|events| - 1]);
    }
  }

  /**
   * The manager recovers: whatever has happened, once the current session is dead and cleared, the next
   * caller can get a new one, and from then on every caller gets that one.
   */
  lemma SessionIsRenewed(events: seq<Event>, id: nat, newSession: nat, offer: Result<nat>)
    requires Legal(events) && Possible(After(events), Dies(id)) && newSession !in After(events).created
    requires offer.Ok? ==> offer.value !in After(events).created + {newSession}
    ensures var cleared := events + [Dies(id)];
      var renewed := cleared + [Get(Ok(newSession))];
      var again := renewed + [Get(offer)];
      && Legal(again) && After(cleared).session == None
      && After(renewed).session == Some(newSession) && After(renewed).clearers == multiset{newSession}
      && After(again) == After(renewed)
  {
    SingletonProtocol(events);
    var cleared := events + [Dies(id)];
    var renewed := cleared + [Get(Ok(newSession))];
    var again := renewed + [Get(offer)];
    assert cleared[..|cleared| - 1] == events;
    assert renewed[..|renewed| - 1] == cleared;
    assert again[..|again| - 1] == renewed;
    assert Legal(cleared) && Legal(renewed);
  }
}
