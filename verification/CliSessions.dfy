/**
 * The pool of CLI sessions and its temporary and real ids (cli/manager.py).
 * Sessions are numbered in order of creation; stopping one is recorded.
 */
module CliSessions {
  import opened Text

  type SessionId = string
  type Session = nat

  /** Where a created session is. */
  datatype Place = Pending(id: SessionId) | Active(id: SessionId) | Stopped

  type Ids = map<SessionId, SessionId>
  type Pool = map<SessionId, Session>

  /** The id maps are inverse to each other, and the real side is the active sessions. */
  ghost predicate MapsInverse(sessions: Pool, tempToReal: Ids, realToTemp: Ids) {
    && realToTemp.Keys == sessions.Keys
    && (forall t :: t in tempToReal ==> tempToReal[t] in realToTemp && realToTemp[tempToReal[t]] == t)
    && (forall r :: r in realToTemp ==> realToTemp[r] in tempToReal && tempToReal[realToTemp[r]] == r)
  }

  /** No id means two sessions. */
  ghost predicate IdsUnambiguous(sessions: Pool, pending: Pool, tempToReal: Ids) {
    && sessions.Keys !! pending.Keys && tempToReal.Keys !! pending.Keys
    && forall r :: r in sessions && r in tempToReal ==> tempToReal[r] == r
  }

  /** Every session ever created is in exactly one of the two pools, or was asked to stop. */
  ghost predicate AllTracked(sessions: Pool, pending: Pool, created: nat, stopped: set<Session>, place: map<Session, Place>) {
    && (forall i :: i in place <==> 0 <= i < created)
    && (forall i :: i in place ==>
          match place[i]
          case Pending(id) => id in pending && pending[id] == i
          case Active(id) => id in sessions && sessions[id] == i
          case Stopped => i in stopped)
    && (forall id :: id in pending ==> pending[id] in place && place[pending[id]] == Pending(id))
    && (forall id :: id in sessions ==> sessions[id] in place && place[sessions[id]] == Active(id))
  }

  /** The real id is not in use, except possibly as this very temporary id. */
  predicate RealIsFresh(sessions: Pool, pending: Pool, tempToReal: Ids, temp: SessionId, realId: SessionId) {
    realId !in sessions && realId !in tempToReal && (realId in pending ==> realId == temp)
  }

  lemma MoveInverse(sessions: Pool, pending: Pool, tempToReal: Ids, realToTemp: Ids,
                    temp: SessionId, realId: SessionId, session: Session)
    requires MapsInverse(sessions, tempToReal, realToTemp) && IdsUnambiguous(sessions, pending, tempToReal) && temp in pending
    requires realId !in sessions
    ensures MapsInverse(sessions[realId := session], tempToReal[temp := realId], realToTemp[realId := temp])
  {
  }

  lemma MoveUnambiguousExactly(sessions: Pool, pending: Pool, tempToReal: Ids, realToTemp: Ids,
                               temp: SessionId, realId: SessionId, session: Session)
    requires MapsInverse(sessions, tempToReal, realToTemp)
    requires IdsUnambiguous(sessions, pending, tempToReal) && temp in pending && realId !in sessions
    ensures IdsUnambiguous(sessions[realId := session], pending - {temp}, tempToReal[temp := realId])
       <==> RealIsFresh(sessions, pending, tempToReal, temp, realId)
  {
    var (s, p, t) := (sessions[realId := session], pending - {temp}, tempToReal[temp := realId]);
    assert temp !in tempToReal;
    assert realId in s && temp in t;
    assert realId in tempToReal ==> realId in t && t[realId] == tempToReal[realId] && t[realId] in sessions;
    assert realId in pending && realId != temp ==> realId in p;
  }

  /** Moving a session keeps track of all of them exactly when the real id had none: else that one is lost. */
  lemma MoveTrackedExactly(sessions: Pool, pending: Pool, created: nat, stopped: set<Session>, place: map<Session, Place>,
                           temp: SessionId, realId: SessionId)
    requires AllTracked(sessions, pending, created, stopped, place) && temp in pending
    ensures AllTracked(sessions[realId := pending[temp]], pending - {temp}, created, stopped,
                       place[pending[temp] := Active(realId)])
       <==> realId !in sessions
  {
    if realId in sessions {
      var lost := sessions[realId];
      assert place[lost] == Active(realId) && lost != pending[temp];
      var (s, p) := (sessions[realId := pending[temp]], place[pending[temp] := Active(realId)]);
      assert lost in p && p[lost] == Active(realId) && s[realId] != lost;
    }
  }

  lemma InverseWithout(sessions: Pool, pending: Pool, tempToReal: Ids, realToTemp: Ids, id: SessionId)
    requires MapsInverse(sessions, tempToReal, realToTemp) && IdsUnambiguous(sessions, pending, tempToReal) && id in sessions
    ensures MapsInverse(sessions - {id}, tempToReal - {realToTemp[id]}, realToTemp - {id})
    ensures IdsUnambiguous(sessions - {id}, pending, tempToReal - {realToTemp[id]})
  {
  }

  lemma TrackedWithout(sessions: Pool, pending: Pool, created: nat, stopped: set<Session>, place: map<Session, Place>,
                       id: SessionId)
    requires AllTracked(sessions, pending, created, stopped, place) && id in sessions
    ensures AllTracked(sessions - {id}, pending, created, stopped + {sessions[id]}, place[sessions[id] := Stopped])
  {
  }

  /** An empty id counts as none. */
  predicate Given(id: Option<SessionId>) {
    id.Some? && id.value != ""
  }

  class CLISessionManager {
    var sessions: map<SessionId, Session>
    var pendingSessions: map<SessionId, Session>
    var tempToReal: map<SessionId, SessionId>
    var realToTemp: map<SessionId, SessionId>
    var created: nat
    var stopped: set<Session>
    ghost var place: map<Session, Place>

    ghost predicate Valid()
      reads this
    {
      && MapsInverse(sessions, tempToReal, realToTemp)
      && IdsUnambiguous(sessions, pendingSessions, tempToReal)
      && AllTracked(sessions, pendingSessions, created, stopped, place)
    }

    /** The session that an id stands for: by its real id if it has one, else by itself. */
    ghost function Lookup(id: SessionId): Option<Session>
      reads this
    {
      var key := if id in tempToReal then tempToReal[id] else id;
      if key in sessions then Some(sessions[key])
      else if key in pendingSessions then Some(pendingSessions[key])
      else None
    }

    constructor ()
      ensures Valid() && created == 0 && stopped == {}
    {
      sessions, pendingSessions, tempToReal, realToTemp := map[], map[], map[], map[];
      created, stopped := 0, {};
      place := map[];
    }

    /** A temporary id and its real id always give the same session. */
    lemma EitherIdWorks(temp: SessionId)
      requires Valid() && temp in tempToReal
      ensures Lookup(temp) == Lookup(tempToReal[temp]) == Some(sessions[tempToReal[temp]])
    {
    }

    /** The session known by this id, or a new pending one; without an id, or with an empty one, a fresh id is taken. */
    method GetOrCreateSession(sessionId: Option<SessionId>, freshId: SessionId)
      returns (session: Session, id: SessionId, isNew: bool)
      requires Valid() && freshId !in sessions && freshId !in pendingSessions && freshId !in tempToReal
      modifies this`pendingSessions, this`created, this`place
      ensures Valid()
      ensures isNew <==>
                || sessionId.None? || sessionId.value == ""
                || (sessionId.value !in old(sessions) && sessionId.value !in old(pendingSessions) && sessionId.value !in tempToReal)
      ensures !isNew ==>
                && created == old(created) && pendingSessions == old(pendingSessions)
                && id == (if sessionId.value in tempToReal then tempToReal[sessionId.value] else sessionId.value)
                && (if id in sessions then session == sessions[id] else id in pendingSessions && session == pendingSessions[id])
      ensures isNew ==>
                && session == old(created) && created == session + 1
                && id == (if sessionId.Some? && sessionId.value != "" then sessionId.value else freshId)
                && pendingSessions == old(pendingSessions)[id := session] && Lookup(id) == Some(session)
    {
      if Given(sessionId) {
        var lookupId := if sessionId.value in tempToReal then tempToReal[sessionId.value] else sessionId.value;
        if lookupId in sessions {
          return sessions[lookupId], lookupId, false;
        }
        if lookupId in pendingSessions {
          return pendingSessions[lookupId], lookupId, false;
        }
      }
      id := if Given(sessionId) then sessionId.value else freshId;
      session := created;
      created := created + 1;
      pendingSessions := pendingSessions[id := session];
      place := place[session := Pending(id)];
      isNew := true;
    }

    /**
     * Moves a pending session to its real id. This keeps the manager's
     * invariant exactly when the real id is fresh: an id in use would lose a
     * session without stopping it, or come to mean two sessions.
     */
    method RegisterRealSessionId(temp: SessionId, realId: SessionId) returns (ok: bool)
      requires Valid()
      modifies this
      ensures ok <==> temp in old(pendingSessions)
      ensures !ok ==> unchanged(this)
      ensures ok ==>
                && pendingSessions == old(pendingSessions) - {temp}
                && sessions == old(sessions)[realId := old(pendingSessions)[temp]]
                && tempToReal == old(tempToReal)[temp := realId] && realToTemp == old(realToTemp)[realId := temp]
      ensures Valid() <==> !ok || RealIsFresh(old(sessions), old(pendingSessions), old(tempToReal), temp, realId)
      ensures ok && realId in old(sessions) ==> !AllTracked(sessions, pendingSessions, created, stopped, place)
    {
      ok := temp in pendingSessions;
      if ok {
        MoveToReal(temp, realId);
      }
    }

    method MoveToReal(temp: SessionId, realId: SessionId)
      requires Valid() && temp in pendingSessions
      modifies this`sessions, this`pendingSessions, this`tempToReal, this`realToTemp, this`place
      ensures pendingSessions == old(pendingSessions) - {temp}
      ensures sessions == old(sessions)[realId := old(pendingSessions)[temp]]
      ensures tempToReal == old(tempToReal)[temp := realId] && realToTemp == old(realToTemp)[realId := temp]
      ensures Valid() <==> RealIsFresh(old(sessions), old(pendingSessions), old(tempToReal), temp, realId)
      ensures realId in old(sessions) ==> !AllTracked(sessions, pendingSessions, created, stopped, place)
    {
      hide MapsInverse, IdsUnambiguous, AllTracked;
      var session := pendingSessions[temp];
      MoveTrackedExactly(sessions, pendingSessions, created, stopped, place, temp, realId);
      if realId !in sessions {
        MoveInverse(sessions, pendingSessions, tempToReal, realToTemp, temp, realId, session);
        MoveUnambiguousExactly(sessions, pendingSessions, tempToReal, realToTemp, temp, realId, session);
      }
      pendingSessions := pendingSessions - {temp};
      sessions := sessions[realId := session];
      tempToReal := tempToReal[temp := realId];
      realToTemp := realToTemp[realId := temp];
      place := place[session := Active(realId)];
    }

    method StopSession(session: Session)
      modifies this`stopped
      ensures stopped == old(stopped) + {session}
    {
      stopped := stopped + {session};
    }

    /** Stops and forgets a session, by the id under which it is pooled. */
    method RemoveSession(id: SessionId) returns (removed: bool)
      requires Valid()
      modifies this
      ensures Valid() && created == old(created)
      ensures removed <==> id in old(pendingSessions) || id in old(sessions)
      ensures pendingSessions == old(pendingSessions) - {id}
      ensures sessions == old(sessions) - {id}
      ensures stopped == old(stopped) + (if id in old(pendingSessions) then {old(pendingSessions)[id]}
                                         else if id in old(sessions) then {old(sessions)[id]} else {})
      ensures id in old(sessions) ==> tempToReal == old(tempToReal) - {old(realToTemp)[id]} && realToTemp == old(realToTemp) - {id}
      ensures id !in old(sessions) ==> tempToReal == old(tempToReal) && realToTemp == old(realToTemp)
    {
      if id in pendingSessions {
        assert sessions - {id} == sessions;
        RemovePending(id);
        removed := true;
      } else if id in sessions {
        assert pendingSessions - {id} == pendingSessions;
        RemoveActive(id);
        removed := true;
      } else {
        assert sessions - {id} == sessions && pendingSessions - {id} == pendingSessions;
        removed := false;
      }
    }

    method RemovePending(id: SessionId)
      requires Valid() && id in pendingSessions
      modifies this`pendingSessions, this`stopped, this`place
      ensures Valid() && pendingSessions == old(pendingSessions) - {id}
      ensures stopped == old(stopped) + {old(pendingSessions)[id]}
    {
      var session := pendingSessions[id];
      pendingSessions := pendingSessions - {id};
      StopSession(session);
      place := place[session := Stopped];
    }

    method RemoveActive(id: SessionId)
      requires Valid() && id in sessions
      modifies this`sessions, this`tempToReal, this`realToTemp, this`stopped, this`place
      ensures Valid() && sessions == old(sessions) - {id}
      ensures stopped == old(stopped) + {old(sessions)[id]}
      ensures tempToReal == old(tempToReal) - {old(realToTemp)[id]} && realToTemp == old(realToTemp) - {id}
    {
      InverseWithout(sessions, pendingSessions, tempToReal, realToTemp, id);
      TrackedWithout(sessions, pendingSessions, created, stopped, place, id);
      var temp := realToTemp[id];
      hide MapsInverse, IdsUnambiguous, AllTracked;
      var session := sessions[id];
      sessions := sessions - {id};
      StopSession(session);
      place := place[session := Stopped];
      realToTemp := realToTemp - {id};
      tempToReal := tempToReal - {temp};
    }

    /** Stops everything; whatever was ever created has then been asked to stop. */
    method StopAll()
      requires Valid()
      modifies this
      ensures Valid() && created == old(created) && sessions == map[] && pendingSessions == map[]
      ensures stopped == old(stopped) + old(sessions).Values + old(pendingSessions).Values
      ensures forall i :: 0 <= i < created ==> i in stopped
    {
      stopped := stopped + sessions.Values + pendingSessions.Values;
      place := map i | i in place :: Stopped;
      sessions, pendingSessions, tempToReal, realToTemp := map[], map[], map[], map[];
    }
  }
}
