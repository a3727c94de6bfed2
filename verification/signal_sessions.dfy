/** Private signalling sessions: two maps that index each other, pruned by a time to live. Times are in nanoseconds. */
module SignalSessions {
  import opened Outcomes
  import Text
  import opened Finite

  const SECOND := 1_000_000_000
  const SESSION_TTL := 30 * 60 * SECOND
  const MAX_CALL_ID := 128
  const MAX_PARTICIPANTS := 16
  const MAX_PER_OWNER := 5

  datatype SessionError = Invalid | Denied | LimitReached

  datatype Session = Session(
    id: string, callId: string, owner: string, expiresAt: int, participants: set<string>, room: string)

  datatype Store = Store(sessions: map<string, Session>, rooms: map<string, string>)

  const EMPTY := Store(map[], map[])

  // ---------- what each operation does ----------

  function Lapsed(st: Store, now: int, room: string): bool {
    exists id | id in st.sessions :: st.sessions[id].expiresAt <= now && st.sessions[id].room == room
  }

  function Prune(st: Store, now: int): Store {
    Store(
      map id | id in st.sessions && st.sessions[id].expiresAt > now :: st.sessions[id],
      map r | r in st.rooms && (r == "" || !Lapsed(st, now, r)) :: st.rooms[r])
  }

  /** `rooms[room]`, blank when there is none. */
  function RoomSession(st: Store, room: string): string {
    if room in st.rooms then st.rooms[room] else ""
  }

  function Members(participants: seq<string>): set<string> {
    set p | p in participants
  }

  function ForVoiceRoom(st: Store, owner: string, room: string, callId: string, participants: seq<string>, id: string, now: int, at: int)
    : (Store, Result<Session, SessionError>)
  {
    var p := Prune(st, now);
    var found := RoomSession(p, room);
    var members := Members(participants);
    if found != "" && found in p.sessions then
      var session := p.sessions[found].(participants := members);
      (p.(sessions := p.sessions[found := session]), if owner in members then Ok(session) else Err(Denied))
    else if owner !in members then
      (p, Err(Denied))
    else
      var session := Session(id, callId, owner, at + SESSION_TTL, members, room);
      (Store(p.sessions[id := session], p.rooms[room := id]), Ok(session))
  }

  function SyncVoiceRoom(st: Store, room: string, participants: seq<string>): Store {
    var id := RoomSession(st, room);
    if id == "" then st
    else if id !in st.sessions then st.(rooms := st.rooms - {room})
    else if participants == [] then Store(st.sessions - {id}, st.rooms - {room})
    else st.(sessions := st.sessions[id := st.sessions[id].(participants := Members(participants))])
  }

  function Trimmed(participants: seq<string>): set<string> {
    set p | p in participants :: Text.Trim(p)
  }

  predicate ValidDirect(owner: string, callId: string, participants: seq<string>) {
    && owner != "" && Text.Trim(callId) != "" && |Text.Trim(callId)| <= MAX_CALL_ID
    && |participants| <= MAX_PARTICIPANTS
    && "" !in Trimmed(participants)
    && |{owner} + Trimmed(participants)| <= MAX_PARTICIPANTS
  }

  function OwnedBy(st: Store, owner: string): set<string> {
    set id | id in st.sessions && st.sessions[id].owner == owner
  }

  function Create(st: Store, owner: string, callId: string, participants: seq<string>, id: string, at: int, now: int)
    : (Store, Result<Session, SessionError>)
  {
    if !ValidDirect(owner, callId, participants) then (st, Err(Invalid)) else
    var p := Prune(st, now);
    if |OwnedBy(p, owner)| >= MAX_PER_OWNER then (p, Err(LimitReached)) else
    var session := Session(id, Text.Trim(callId), owner, at + SESSION_TTL, {owner} + Trimmed(participants), "");
    (p.(sessions := p.sessions[id := session]), Ok(session))
  }

  predicate Authorized(st: Store, id: string, callId: string, user: string) {
    && id in st.sessions
    && (callId == "" || st.sessions[id].callId == callId)
    && user in st.sessions[id].participants
  }

  function Authorize(st: Store, id: string, callId: string, user: string, now: int): (Store, bool) {
    (Prune(st, now), Authorized(Prune(st, now), id, callId, user))
  }

  function Close(st: Store, id: string, owner: string): (Store, bool) {
    if id !in st.sessions || st.sessions[id].owner != owner then (st, false) else
    var room := st.sessions[id].room;
    (Store(st.sessions - {id}, if room != "" then st.rooms - {room} else st.rooms), true)
  }

  // ---------- the two maps agree ----------

  /** The room index and the sessions point at each other in both directions. */
  ghost predicate Indexed(st: Store) {
    && (forall id :: id in st.sessions ==> id != "" && st.sessions[id].id == id)
    && (forall r :: r in st.rooms ==> r != "" && st.rooms[r] in st.sessions && st.sessions[st.rooms[r]].room == r)
    && (forall id :: id in st.sessions && st.sessions[id].room != "" ==>
          st.sessions[id].room in st.rooms && st.rooms[st.sessions[id].room] == id)
  }

  function DirectOf(st: Store, owner: string): set<string> {
    set id | id in st.sessions && st.sessions[id].owner == owner && st.sessions[id].room == ""
  }

  /** Direct-call sessions are few for each owner, and each holds its owner among at most sixteen users. */
  ghost predicate DirectCallsBounded(st: Store) {
    && (forall owner :: |DirectOf(st, owner)| <= MAX_PER_OWNER)
    && (forall id :: id in st.sessions && st.sessions[id].room == "" ==>
          st.sessions[id].owner in st.sessions[id].participants && |st.sessions[id].participants| <= MAX_PARTICIPANTS)
  }

  ghost predicate Sound(st: Store) {
    Indexed(st) && DirectCallsBounded(st)
  }

  /** Fewer sessions, with their participants unchanged, keep the bounds. */
  lemma FewerBounded(st: Store, next: Store)
    requires DirectCallsBounded(st)
    requires forall id :: id in next.sessions && next.sessions[id].room == "" ==> id in st.sessions && next.sessions[id] == st.sessions[id]
    ensures DirectCallsBounded(next)
  {
    forall owner ensures |DirectOf(next, owner)| <= MAX_PER_OWNER {
      SubsetSize(DirectOf(next, owner), DirectOf(st, owner));
    }
  }

  lemma PruneSound(st: Store, now: int)
    requires Sound(st)
    ensures Sound(Prune(st, now))
  {
    FewerBounded(st, Prune(st, now));
  }

  lemma ForVoiceRoomSound(st: Store, owner: string, room: string, callId: string, participants: seq<string>, id: string, now: int, at: int)
    requires Sound(st) && room != "" && id != "" && id !in st.sessions
    ensures Sound(ForVoiceRoom(st, owner, room, callId, participants, id, now, at).0)
  {
    PruneSound(st, now);
    FewerBounded(Prune(st, now), ForVoiceRoom(st, owner, room, callId, participants, id, now, at).0);
  }

  lemma SyncSound(st: Store, room: string, participants: seq<string>)
    requires Sound(st)
    ensures Sound(SyncVoiceRoom(st, room, participants))
  {
    FewerBounded(st, SyncVoiceRoom(st, room, participants));
  }

  lemma AddDirectOwned(p: Store, id: string, session: Session, owner: string)
    requires id !in p.sessions && session.room == ""
    ensures DirectOf(p.(sessions := p.sessions[id := session]), owner)
         == DirectOf(p, owner) + (if owner == session.owner then {id} else {})
  {
  }

  lemma AddDirectCount(p: Store, id: string, session: Session, owner: string)
    requires |DirectOf(p, owner)| <= MAX_PER_OWNER && id !in p.sessions && session.room == ""
    requires |OwnedBy(p, session.owner)| < MAX_PER_OWNER
    ensures |DirectOf(p.(sessions := p.sessions[id := session]), owner)| <= MAX_PER_OWNER
  {
    AddDirectOwned(p, id, session, owner);
    SubsetSize(DirectOf(p, session.owner), OwnedBy(p, session.owner));
  }

  /** Adding a direct session for an owner with a place to spare. */
  lemma AddDirectBounded(p: Store, id: string, session: Session)
    requires DirectCallsBounded(p) && id !in p.sessions && session.room == ""
    requires |OwnedBy(p, session.owner)| < MAX_PER_OWNER
    requires session.owner in session.participants && |session.participants| <= MAX_PARTICIPANTS
    ensures DirectCallsBounded(p.(sessions := p.sessions[id := session]))
  {
    var next := p.(sessions := p.sessions[id := session]);
    forall owner ensures |DirectOf(next, owner)| <= MAX_PER_OWNER {
      AddDirectCount(p, id, session, owner);
    }
  }

  lemma AddDirectSound(p: Store, id: string, session: Session)
    requires Sound(p) && id != "" && id !in p.sessions && session.id == id && session.room == ""
    requires |OwnedBy(p, session.owner)| < MAX_PER_OWNER
    requires session.owner in session.participants && |session.participants| <= MAX_PARTICIPANTS
    ensures Sound(p.(sessions := p.sessions[id := session]))
  {
    AddDirectBounded(p, id, session);
  }

  lemma CreateSound(st: Store, owner: string, callId: string, participants: seq<string>, id: string, at: int, now: int)
    requires Sound(st) && id != "" && id !in st.sessions
    ensures Sound(Create(st, owner, callId, participants, id, at, now).0)
  {
    PruneSound(st, now);
    var made := Create(st, owner, callId, participants, id, at, now);
    if made.1.Ok? {
      AddDirectSound(Prune(st, now), id, made.1.value);
    }
  }

  lemma CloseSound(st: Store, id: string, owner: string)
    requires Sound(st)
    ensures Sound(Close(st, id, owner).0)
    ensures Close(st, id, owner).1 <==> id in st.sessions && st.sessions[id].owner == owner
    ensures Close(st, id, owner).1 <==> id in st.sessions && id !in Close(st, id, owner).0.sessions
  {
    FewerBounded(st, Close(st, id, owner).0);
  }

  /** A room in the index always has its session, so a lookup never revives a missing one. */
  lemma RoomSessionExists(st: Store, room: string, now: int)
    requires Sound(st) && RoomSession(Prune(st, now), room) != ""
    ensures RoomSession(Prune(st, now), room) in Prune(st, now).sessions
    ensures Prune(st, now).sessions[RoomSession(Prune(st, now), room)].expiresAt > now
  {
    PruneSound(st, now);
  }

  // ---------- what the creating calls answer ----------

  /** What makes a direct call malformed, whatever is stored. */
  predicate Malformed(owner: string, callId: string, participants: seq<string>) {
    || owner == "" || Text.Trim(callId) == "" || |Text.Trim(callId)| > 128
    || |participants| > 16 || (exists p :: p in participants && Text.Trim(p) == "")
    || |{owner} + Trimmed(participants)| > 16
  }

  /** The sessions of `owner`, rooms' among them, that have not expired. */
  function LiveOf(st: Store, owner: string, now: int): set<string> {
    set id | id in st.sessions && st.sessions[id].owner == owner && st.sessions[id].expiresAt > now
  }

  /** A direct call is refused as malformed, or for five unexpired sessions of its owner, and otherwise gets its session for thirty minutes. */
  lemma CreateAnswers(st: Store, owner: string, callId: string, participants: seq<string>, id: string, at: int, now: int)
    ensures Create(st, owner, callId, participants, id, at, now).1 ==
            if Malformed(owner, callId, participants) then Err(Invalid)
            else if |LiveOf(st, owner, now)| >= 5 then Err(LimitReached)
            else Ok(Session(id, Text.Trim(callId), owner, at + 30 * 60 * 1_000_000_000, {owner} + Trimmed(participants), ""))
  {
    assert LiveOf(st, owner, now) == OwnedBy(Prune(st, now), owner);
    if exists p :: p in participants && Text.Trim(p) == "" {
      assert "" in Trimmed(participants);
    }
  }

  /** The unexpired session of a room, if there is one. */
  ghost predicate IsSessionOf(st: Store, room: string, now: int, id: string) {
    id in st.sessions && st.sessions[id].room == room && st.sessions[id].expiresAt > now
  }

  /**
   A room's session is given to exactly the users on the participant list: the unexpired one there is, with that list, or
   else a new one for thirty minutes.
   */
  lemma ForVoiceRoomAnswers(st: Store, owner: string, room: string, callId: string, participants: seq<string>, id: string, now: int, at: int)
    requires Sound(st) && room != ""
    ensures var r := ForVoiceRoom(st, owner, room, callId, participants, id, now, at).1;
            && (owner !in participants ==> r == Err(Denied))
            && (owner in participants && (forall x :: !IsSessionOf(st, room, now, x)) ==>
                  r == Ok(Session(id, callId, owner, at + 30 * 60 * 1_000_000_000, Members(participants), room)))
            && (forall x :: owner in participants && IsSessionOf(st, room, now, x) ==>
                  r == Ok(st.sessions[x].(participants := Members(participants))))
  {
    PruneSound(st, now);
    var (p, found) := (Prune(st, now), RoomSession(Prune(st, now), room));
    forall x | IsSessionOf(st, room, now, x) ensures found == x && x != "" {
      assert x in p.sessions && p.sessions[x].room == room;
    }
    if found != "" {
      assert IsSessionOf(st, room, now, found);
    }
  }
}
