/** The session store as the object the handlers share: its loops over the two maps. */
module SignalStore {
  import opened Outcomes
  import Text
  import opened SignalSessions

  /** A lapsed session of `room` has been visited. */
  predicate LapsedAmong(st: Store, now: int, room: string, todo: set<string>) {
    exists id | id in st.sessions :: id !in todo && st.sessions[id].expiresAt <= now && st.sessions[id].room == room
  }

  /** The store while its sessions are being pruned; those in `todo` are still to be visited. */
  ghost function PruneSome(st: Store, now: int, todo: set<string>): Store {
    Store(
      map id | id in st.sessions && (id in todo || st.sessions[id].expiresAt > now) :: st.sessions[id],
      map r | r in st.rooms && (r == "" || !LapsedAmong(st, now, r, todo)) :: st.rooms[r])
  }

  lemma PruneEnds(st: Store, now: int)
    ensures PruneSome(st, now, st.sessions.Keys) == st
    ensures PruneSome(st, now, {}) == Prune(st, now)
  {
    forall r ensures LapsedAmong(st, now, r, {}) <==> Lapsed(st, now, r) {
    }
    forall r ensures !LapsedAmong(st, now, r, st.sessions.Keys) {
    }
  }

  lemma PruneStep(st: Store, now: int, todo: set<string>, id: string)
    requires id in todo && todo <= st.sessions.Keys
    ensures var (p, session) := (PruneSome(st, now, todo), st.sessions[id]);
            && id in p.sessions && p.sessions[id] == session
            && PruneSome(st, now, todo - {id})
            == if session.expiresAt > now then p
               else Store(p.sessions - {id}, if session.room != "" then p.rooms - {session.room} else p.rooms)
  {
    var session := st.sessions[id];
    forall r ensures LapsedAmong(st, now, r, todo - {id}) <==>
              LapsedAmong(st, now, r, todo) || (session.expiresAt <= now && session.room == r) {
      if session.expiresAt <= now && session.room == r {
        assert id in st.sessions && id !in todo - {id};
      }
    }
  }

  /** The participant loop of create: `valid` is whether no trimmed id is blank. */
  method TrimAll(owner: string, participants: seq<string>) returns (members: set<string>, valid: bool)
    ensures valid <==> "" !in Trimmed(participants)
    ensures valid ==> members == {owner} + Trimmed(participants)
  {
    members := {owner};
    var i := 0;
    while i < |participants|
      invariant 0 <= i <= |participants|
      invariant members == {owner} + set k | 0 <= k < i :: Text.Trim(participants[k])
      invariant forall k :: 0 <= k < i ==> Text.Trim(participants[k]) != ""
    {
      var p := Text.Trim(participants[i]);
      if p == "" {
        assert participants[i] in participants;
        return members, false;
      }
      members := members + {p};
      i := i + 1;
    }
    assert Trimmed(participants) == set k | 0 <= k < i :: Text.Trim(participants[k]);
    return members, true;
  }

  /** The counting loop of create. */
  method CountOwned(sessions: map<string, Session>, owner: string) returns (count: nat)
    ensures count == |OwnedBy(Store(sessions, map[]), owner)|
  {
    count := 0;
    ghost var counted: set<string> := {};
    var todo := sessions.Keys;
    while todo != {}
      invariant todo <= sessions.Keys
      invariant counted == set id | id in sessions && id !in todo && sessions[id].owner == owner
      invariant count == |counted|
      decreases |todo|
    {
      var id :| id in todo;
      if sessions[id].owner == owner {
        counted := counted + {id};
        count := count + 1;
      }
      todo := todo - {id};
    }
    assert counted == OwnedBy(Store(sessions, map[]), owner);
  }

  class SessionStore {
    var sessions: map<string, Session>
    var rooms: map<string, string>

    function Value(): Store
      reads this
    {
      Store(sessions, rooms)
    }

    constructor ()
      ensures Value() == EMPTY
    {
      sessions, rooms := map[], map[];
    }

    /** pruneExpiredLocked. */
    method PruneExpired(now: int)
      modifies this
      ensures Value() == Prune(old(Value()), now)
    {
      ghost var start := Value();
      PruneEnds(start, now);
      var todo := sessions.Keys;
      while todo != {}
        invariant todo <= start.sessions.Keys
        invariant Value() == PruneSome(start, now, todo)
        decreases |todo|
      {
        var id :| id in todo;
        PruneStep(start, now, todo, id);
        var session := sessions[id];
        if session.expiresAt <= now {
          sessions := sessions - {id};
          if session.room != "" {
            rooms := rooms - {session.room};
          }
        }
        todo := todo - {id};
      }
    }

    method ForVoiceRoom(owner: string, room: string, callId: string, participants: seq<string>, id: string, now: int, at: int)
      returns (r: Result<Session, SessionError>)
      requires Sound(Value())
      modifies this
      ensures (Value(), r) == SignalSessions.ForVoiceRoom(old(Value()), owner, room, callId, participants, id, now, at)
    {
      PruneSound(Value(), now);
      PruneExpired(now);
      var found := if room in rooms then rooms[room] else "";
      if found != "" {
        var session := sessions[found].(participants := Members(participants));
        sessions := sessions[found := session];
        return if owner in session.participants then Ok(session) else Err(Denied);
      }
      var members := Members(participants);
      if owner !in members {
        return Err(Denied);
      }
      var session := Session(id, callId, owner, at + SESSION_TTL, members, room);
      sessions := sessions[id := session];
      rooms := rooms[room := id];
      return Ok(session);
    }

    method SyncVoiceRoomParticipants(room: string, participants: seq<string>)
      modifies this
      ensures Value() == SyncVoiceRoom(old(Value()), room, participants)
    {
      var id := if room in rooms then rooms[room] else "";
      if id == "" {
        return;
      }
      if id !in sessions {
        rooms := rooms - {room};
        return;
      }
      if |participants| == 0 {
        sessions := sessions - {id};
        rooms := rooms - {room};
        return;
      }
      sessions := sessions[id := sessions[id].(participants := Members(participants))];
    }

    method Create(owner: string, callId: string, participants: seq<string>, id: string, at: int, now: int)
      returns (r: Result<Session, SessionError>)
      modifies this
      ensures (Value(), r) == SignalSessions.Create(old(Value()), owner, callId, participants, id, at, now)
      ensures r == Err(Invalid) <==> Malformed(owner, callId, participants)
      ensures r == Err(LimitReached) <==> !Malformed(owner, callId, participants) && |LiveOf(old(Value()), owner, now)| >= 5
      ensures r.Err? ==> r.error in {Invalid, LimitReached}
    {
      CreateAnswers(Value(), owner, callId, participants, id, at, now);
      var call := Text.Trim(callId);
      if owner == "" || call == "" || |call| > MAX_CALL_ID || |participants| > MAX_PARTICIPANTS {
        return Err(Invalid);
      }
      var members, valid := TrimAll(owner, participants);
      if !valid || |members| > MAX_PARTICIPANTS {
        return Err(Invalid);
      }
      var session := Session(id, call, owner, at + SESSION_TTL, members, "");
      PruneExpired(now);
      var owned := CountOwned(sessions, owner);
      if owned >= MAX_PER_OWNER {
        return Err(LimitReached);
      }
      sessions := sessions[id := session];
      return Ok(session);
    }

    method Authorize(id: string, callId: string, user: string, now: int) returns (ok: bool)
      modifies this
      ensures (Value(), ok) == SignalSessions.Authorize(old(Value()), id, callId, user, now)
    {
      PruneExpired(now);
      if id !in sessions || (callId != "" && sessions[id].callId != callId) {
        return false;
      }
      return user in sessions[id].participants;
    }

    method Close(id: string, owner: string) returns (ok: bool)
      modifies this
      ensures (Value(), ok) == SignalSessions.Close(old(Value()), id, owner)
    {
      if id !in sessions || sessions[id].owner != owner {
        return false;
      }
      var room := sessions[id].room;
      sessions := sessions - {id};
      if room != "" {
        rooms := rooms - {room};
      }
      return true;
    }
  }
}
