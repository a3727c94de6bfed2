/** Voice invitations: the record kept in a post, the rules for sending and answering, and their history. */
module VoiceInvites {
  import opened Outcomes
  import opened VoiceDomain
  import VoiceDraft

  const INVITE_TTL := 300_000
  const POST_TYPE := "custom_webrtc_voice_invite"
  const PROPS_KEY := "voice_invite"
  const PENDING := "pending"
  const ACCEPTED := "accepted"
  const DECLINED := "declined"

  datatype InviteError =
    | SelfInvite
    | UserNotFound
    | InviterNotFound
    | InviteRoomNotFound
    | SenderNotInRoom
    | TargetUnavailable
    | NoDirectChannel
    | CreateFailed
    | UpdateFailed
    | PostNotFound
    | PostInvalid
    | WrongTarget
    | Expired
    | AlreadyAnswered
    | Store(failure: Failure)

  // ---------- the record in the post ----------

  /** The JSON names of the record's fields. */
  datatype Key =
    | InviteId | RoomId | RoomName | RoomCreateAt | RoomGeneration
    | InviterId | InviterUsername | InviterFirstName | InviterLastName
    | TargetUserId | TargetUsername | ExpiresAt | Status

  datatype Value = Str(text: string) | Num(number: int)

  datatype Prop = Fields(fields: map<Key, Value>) | Opaque(text: string)

  datatype Post = Post(kind: string, message: string, props: map<string, Prop>)

  datatype Invite = Invite(
    inviteId: string, roomId: string, roomName: string, roomCreateAt: int, roomGeneration: string,
    inviterId: string, inviterUsername: string, inviterFirstName: string, inviterLastName: string,
    targetId: string, targetUsername: string, expiresAt: int, status: string)

  function FieldOf(i: Invite, key: Key): Value {
    match key
    case InviteId => Str(i.inviteId)
    case RoomId => Str(i.roomId)
    case RoomName => Str(i.roomName)
    case RoomCreateAt => Num(i.roomCreateAt)
    case RoomGeneration => Str(i.roomGeneration)
    case InviterId => Str(i.inviterId)
    case InviterUsername => Str(i.inviterUsername)
    case InviterFirstName => Str(i.inviterFirstName)
    case InviterLastName => Str(i.inviterLastName)
    case TargetUserId => Str(i.targetId)
    case TargetUsername => Str(i.targetUsername)
    case ExpiresAt => Num(i.expiresAt)
    case Status => Str(i.status)
  }

  function AsMap(i: Invite): map<Key, Value> {
    map key: Key | true :: FieldOf(i, key)
  }

  /** Every field present holds the kind of value the record wants. */
  predicate WellTyped(m: map<Key, Value>) {
    forall key | key in m :: m[key].Num? <==> key == RoomCreateAt || key == ExpiresAt
  }

  function StrField(m: map<Key, Value>, key: Key): string {
    if key in m && m[key].Str? then m[key].text else ""
  }

  function NumField(m: map<Key, Value>, key: Key): int {
    if key in m && m[key].Num? then m[key].number else 0
  }

  /** Decoding: a missing field is blank or zero, a field of the wrong kind is no record at all. */
  function FromFields(m: map<Key, Value>): Option<Invite> {
    if !WellTyped(m) then None else
    Some(Invite(
      StrField(m, InviteId), StrField(m, RoomId), StrField(m, RoomName), NumField(m, RoomCreateAt), StrField(m, RoomGeneration),
      StrField(m, InviterId), StrField(m, InviterUsername), StrField(m, InviterFirstName), StrField(m, InviterLastName),
      StrField(m, TargetUserId), StrField(m, TargetUsername), NumField(m, ExpiresAt), StrField(m, Status)))
  }

  function FromPost(post: Post): Option<Invite> {
    if post.kind != POST_TYPE || PROPS_KEY !in post.props || !post.props[PROPS_KEY].Fields? then
      None
    else
      match FromFields(post.props[PROPS_KEY].fields)
      case None => None
      case Some(i) => if i.inviteId == "" || i.targetId == "" then None else Some(i)
  }

  function WithInvite(post: Post, i: Invite): Post {
    post.(props := post.props[PROPS_KEY := Fields(AsMap(i))])
  }

  /** Reading back what was written gives the same record, and leaves the other properties alone. */
  lemma InviteRoundTrip(post: Post, i: Invite)
    ensures FromFields(AsMap(i)) == Some(i)
    ensures FromPost(WithInvite(post, i)) == if post.kind == POST_TYPE && i.inviteId != "" && i.targetId != "" then Some(i) else None
    ensures WithInvite(post, i).kind == post.kind && WithInvite(post, i).message == post.message
    ensures WithInvite(post, i).props - {PROPS_KEY} == post.props - {PROPS_KEY}
  {
    assert WellTyped(AsMap(i));
  }

  /** The property-copying loop of respond and expireInvitePost. */
  method Rewrite(post: Post, i: Invite) returns (updated: Post)
    ensures updated == WithInvite(post, i)
  {
    var props: map<string, Prop> := map[];
    var todo := post.props.Keys;
    while todo != {}
      invariant todo <= post.props.Keys
      invariant props == map key | key in post.props && key !in todo :: post.props[key]
      decreases |todo|
    {
      var key :| key in todo;
      props := props[key := post.props[key]];
      todo := todo - {key};
    }
    assert props == post.props;
    updated := post.(props := props[PROPS_KEY := Fields(AsMap(i))]);
  }

  // ---------- the checks ----------

  /** What one read of the canonical value gave. */
  type Reading = Result<Snapshot, Failure>

  function First(rooms: seq<Room>, id: string): Option<Room> {
    if rooms == [] then None else if rooms[0].id == id then Some(rooms[0]) else First(rooms[1..], id)
  }

  lemma {:induction false} FirstFound(rooms: seq<Room>, id: string)
    ensures First(rooms, id).None? <==> id !in Ids(rooms)
    ensures First(rooms, id).Some? ==> First(rooms, id).value in rooms && First(rooms, id).value.id == id
  {
    if rooms != [] {
      FirstFound(rooms[1..], id);
      assert rooms == [rooms[0]] + rooms[1..];
    }
  }

  function SameRoom(room: Option<Room>, i: Invite): bool {
    room.Some? && room.value.createAt == i.roomCreateAt && room.value.generation == i.roomGeneration
  }

  /** `userVoiceRoom(...) == room`; a blank room stands for being in none. */
  predicate RoomIs(p: Presence, user: string, room: string) {
    if room != "" then IsIn(p, user, room) else forall r | r in p :: r == "" || user !in p[r]
  }

  function CheckRoom(i: Invite, reading: Reading): Option<InviteError> {
    match reading
    case Err(e) => Some(Store(e))
    case Ok(s) => if SameRoom(First(s.rooms, i.roomId), i) then None else Some(Expired)
  }

  function CheckResponse(i: Invite, reading: Reading, now: int): Option<InviteError> {
    if CheckRoom(i, reading).Some? then CheckRoom(i, reading) else
    var p := Pruned(reading.value.presence, now);
    if RoomIs(p, i.inviterId, i.roomId) && !RoomIs(p, i.targetId, i.roomId) then None else Some(Expired)
  }

  function InviteRoom(inviter: string, target: string, room: string, reading: Reading, now: int): Result<Room, InviteError> {
    match reading
    case Err(e) => Err(Store(e))
    case Ok(s) =>
      var p := Pruned(s.presence, now);
      var found := First(s.rooms, room);
      if found.None? then Err(InviteRoomNotFound)
      else if !RoomIs(p, inviter, room) then Err(SenderNotInRoom)
      else if RoomIs(p, target, room) then Err(TargetUnavailable)
      else Ok(found.value)
  }

  // ---------- answering ----------

  /** What the world gave one call of respond: clock readings, reads of the stored value, and whether each post update worked. */
  datatype RespondWorld = RespondWorld(
    now: int, room: Reading, before: Reading, beforeAt: int, saved: bool,
    after: Reading, afterAt: int, undoAt: int, undone: bool)

  datatype Answer = Answer(writes: seq<Post>, error: Option<InviteError>)

  function Withdrawn(post: Post, i: Invite, now: int): Post {
    WithInvite(post, i.(status := PENDING, expiresAt := now - 1))
  }

  function Respond(post: Option<Post>, user: string, inviteId: string, decision: string, w: RespondWorld): Answer {
    if post.None? then Answer([], Some(PostNotFound)) else
    var found := FromPost(post.value);
    if found.None? || found.value.inviteId != inviteId then Answer([], Some(PostInvalid)) else
    var i := found.value;
    if i.targetId != user then Answer([], Some(WrongTarget))
    else if i.expiresAt <= w.now then Answer([], Some(Expired))
    else if CheckRoom(i, w.room).Some? then Answer([], CheckRoom(i, w.room))
    else if i.status != PENDING then
      Answer([], if i.status == decision then None else Some(AlreadyAnswered))
    else if CheckResponse(i, w.before, w.beforeAt).Some? then
      Answer([], CheckResponse(i, w.before, w.beforeAt))
    else
      Record(post.value, i.(status := decision), w)
  }

  /** Write the answer, check again, and take it back if the check says the invitation has expired. */
  function Record(post: Post, answered: Invite, w: RespondWorld): Answer {
    var updated := WithInvite(post, answered);
    if !w.saved then Answer([], Some(UpdateFailed)) else
    var again := CheckResponse(answered, w.after, w.afterAt);
    if again != Some(Expired) then Answer([updated], again)
    else if !w.undone then Answer([updated], Some(UpdateFailed))
    else Answer([updated, Withdrawn(updated, answered, w.undoAt)], Some(Expired))
  }

  // ---------- sending ----------

  datatype Person = Person(username: string, firstName: string, lastName: string)

  /** What the world gave one call of send. */
  datatype SendWorld = SendWorld(
    target: Option<Person>, reading: Reading, readAt: int, inviter: Option<Person>, inviteId: string, now: int,
    channel: bool, created: bool, check: Reading, checkAt: int, undoAt: int, undone: bool)

  datatype Sent = Sent(writes: seq<Post>, published: seq<Invite>, error: Option<InviteError>)

  function NewInvite(inviter: string, target: string, room: Room, w: SendWorld): Invite
    requires w.target.Some? && w.inviter.Some?
  {
    Invite(w.inviteId, room.id, room.name, room.createAt, room.generation,
           inviter, w.inviter.value.username, w.inviter.value.firstName, w.inviter.value.lastName,
           target, w.target.value.username, w.now + INVITE_TTL, PENDING)
  }

  function NewPost(i: Invite): Post {
    Post(POST_TYPE,
         "**Voice channel invitation** \U{2014} @" + i.targetUsername + ", @" + i.inviterUsername + " invited you to join **"
         + i.roomName + "**. This invitation expires in five minutes.",
         map[PROPS_KEY := Fields(AsMap(i))])
  }

  function Send(inviter: string, target: string, room: string, w: SendWorld): Sent {
    if inviter == target then Sent([], [], Some(SelfInvite))
    else if w.target.None? then Sent([], [], Some(UserNotFound))
    else
      var found := InviteRoom(inviter, target, room, w.reading, w.readAt);
      if found.Err? then Sent([], [], Some(found.error))
      else if w.inviter.None? then Sent([], [], Some(InviterNotFound))
      else
        var i := NewInvite(inviter, target, found.value, w);
        if !w.channel then Sent([], [], Some(NoDirectChannel))
        else if !w.created then Sent([], [], Some(CreateFailed))
        else
          var post := NewPost(i);
          var check := CheckResponse(i, w.check, w.checkAt);
          if check.None? then Sent([post], [i], None)
          else if check != Some(Expired) then Sent([post], [], check)
          else if !w.undone then Sent([post], [], Some(UpdateFailed))
          else Sent([post, Withdrawn(post, i, w.undoAt)], [], Some(Expired))
  }

  // ---------- the service ----------

  ghost predicate GoodReading(reading: Reading) {
    reading.Ok? ==> Exclusive(reading.value.presence) && DistinctIds(reading.value.rooms)
  }

  lemma {:induction false} FirstIsThe(rooms: seq<Room>, id: string, found: Room)
    requires DistinctIds(rooms) && found in rooms && found.id == id
    ensures First(rooms, id) == Some(found)
  {
    if rooms[0].id != id {
      assert rooms == [rooms[0]] + rooms[1..];
      FirstIsThe(rooms[1..], id, found);
    } else {
      var k :| 0 <= k < |rooms| && rooms[k] == found;
    }
  }

  /** The posts as the service writes them: every revision of each post, the last one current, and the events it publishes. */
  class InviteDesk {
    var revisions: map<string, seq<Post>>
    var published: seq<Invite>

    constructor ()
      ensures revisions == map[] && published == []
    {
      revisions, published := map[], [];
    }

    function Current(postId: string): Option<Post>
      reads this
    {
      if postId in revisions && revisions[postId] != [] then Some(revisions[postId][|revisions[postId]| - 1]) else None
    }

    method UpdatePost(postId: string, post: Post, works: bool) returns (ok: bool)
      requires postId in revisions
      modifies this`revisions
      ensures ok == works
      ensures revisions == if works then old(revisions)[postId := old(revisions)[postId] + [post]] else old(revisions)
    {
      if works {
        revisions := revisions[postId := revisions[postId] + [post]];
      }
      return works;
    }

    method ValidateRoom(i: Invite, reading: Reading) returns (err: Option<InviteError>)
      requires GoodReading(reading)
      ensures err == CheckRoom(i, reading)
    {
      if reading.Err? {
        return Some(Store(reading.error));
      }
      var room := VoiceDraft.FindRoom(reading.value.rooms, i.roomId);
      FirstFound(reading.value.rooms, i.roomId);
      if room.Some? {
        FirstIsThe(reading.value.rooms, i.roomId, room.value);
      }
      if room.None? || room.value.createAt != i.roomCreateAt || room.value.generation != i.roomGeneration {
        return Some(Expired);
      }
      return None;
    }

    method ValidateResponse(i: Invite, reading: Reading, now: int) returns (err: Option<InviteError>)
      requires GoodReading(reading)
      ensures err == CheckResponse(i, reading, now)
    {
      err := ValidateRoom(i, reading);
      if err.Some? {
        return;
      }
      var p, _ := VoiceDraft.PruneRooms(reading.value.presence, now);
      PrunedExclusive(reading.value.presence, now);
      var inviterRoom := VoiceDraft.UserRoom(p, i.inviterId);
      var targetRoom := VoiceDraft.UserRoom(p, i.targetId);
      RoomIsFound(p, i.inviterId, i.roomId, inviterRoom);
      RoomIsFound(p, i.targetId, i.roomId, targetRoom);
      if inviterRoom != i.roomId || targetRoom == i.roomId {
        return Some(Expired);
      }
      return None;
    }

    method ExpirePost(postId: string, post: Post, i: Invite, now: int, works: bool) returns (ok: bool)
      requires postId in revisions
      modifies this`revisions
      ensures ok == works
      ensures revisions == if works then old(revisions)[postId := old(revisions)[postId] + [Withdrawn(post, i, now)]] else old(revisions)
    {
      var updated := Rewrite(post, i.(status := PENDING, expiresAt := now - 1));
      ok := UpdatePost(postId, updated, works);
    }

    /** respond: the revisions written and the error are those of the function of the same name. */
    method RespondTo(user: string, postId: string, inviteId: string, decision: string, w: RespondWorld)
      returns (err: Option<InviteError>)
      requires GoodReading(w.room) && GoodReading(w.before) && GoodReading(w.after)
      modifies this`revisions
      ensures var answer := Respond(old(Current(postId)), user, inviteId, decision, w);
              && err == answer.error
              && revisions == if postId in old(revisions) then old(revisions)[postId := old(revisions)[postId] + answer.writes] else old(revisions)
    {
      var post := Current(postId);
      if postId in revisions {
        assert revisions[postId] + [] == revisions[postId];
      }
      if post.None? {
        return Some(PostNotFound);
      }
      var found := FromPost(post.value);
      if found.None? || found.value.inviteId != inviteId {
        return Some(PostInvalid);
      }
      var i := found.value;
      if i.targetId != user {
        return Some(WrongTarget);
      }
      if i.expiresAt <= w.now {
        return Some(Expired);
      }
      err := ValidateRoom(i, w.room);
      if err.Some? {
        return;
      }
      if i.status != PENDING {
        return if i.status == decision then None else Some(AlreadyAnswered);
      }
      err := ValidateResponse(i, w.before, w.beforeAt);
      if err.Some? {
        return;
      }
      err := RecordAnswer(postId, post.value, i.(status := decision), w);
    }

    method RecordAnswer(postId: string, post: Post, answered: Invite, w: RespondWorld) returns (err: Option<InviteError>)
      requires postId in revisions && GoodReading(w.after)
      modifies this`revisions
      ensures err == Record(post, answered, w).error
      ensures revisions == old(revisions)[postId := old(revisions)[postId] + Record(post, answered, w).writes]
    {
      var updated := Rewrite(post, answered);
      assert revisions[postId] + [] == revisions[postId];
      var saved := UpdatePost(postId, updated, w.saved);
      if !saved {
        return Some(UpdateFailed);
      }
      err := ValidateResponse(answered, w.after, w.afterAt);
      if err == Some(Expired) {
        var undone := ExpirePost(postId, updated, answered, w.undoAt, w.undone);
        assert (old(revisions)[postId] + [updated]) + [Withdrawn(updated, answered, w.undoAt)]
            == old(revisions)[postId] + [updated, Withdrawn(updated, answered, w.undoAt)];
        if !undone {
          return Some(UpdateFailed);
        }
      }
    }

    /** send: the new post's revisions, the published events and the error are those of the function Send. */
    method SendTo(inviter: string, target: string, room: string, postId: string, w: SendWorld)
      returns (err: Option<InviteError>)
      requires postId !in revisions && GoodReading(w.reading) && GoodReading(w.check)
      modifies this
      ensures var sent := Send(inviter, target, room, w);
              && err == sent.error
              && published == old(published) + sent.published
              && revisions == if sent.writes == [] then old(revisions) else old(revisions)[postId := sent.writes]
    {
      if inviter == target {
        return Some(SelfInvite);
      }
      if w.target.None? {
        return Some(UserNotFound);
      }
      var found := FindInviteRoom(inviter, target, room, w.reading, w.readAt);
      if found.Err? {
        return Some(found.error);
      }
      if w.inviter.None? {
        return Some(InviterNotFound);
      }
      var i := NewInvite(inviter, target, found.value, w);
      if !w.channel {
        return Some(NoDirectChannel);
      }
      if !w.created {
        return Some(CreateFailed);
      }
      var post := NewPost(i);
      revisions := revisions[postId := [post]];
      err := ValidateResponse(i, w.check, w.checkAt);
      if err.Some? {
        if err == Some(Expired) {
          var undone := ExpirePost(postId, post, i, w.undoAt, w.undone);
          assert [post] + [Withdrawn(post, i, w.undoAt)] == [post, Withdrawn(post, i, w.undoAt)];
          if !undone {
            return Some(UpdateFailed);
          }
        }
        return;
      }
      published := published + [i];
    }

    method FindInviteRoom(inviter: string, target: string, room: string, reading: Reading, now: int) returns (r: Result<Room, InviteError>)
      requires GoodReading(reading)
      ensures r == InviteRoom(inviter, target, room, reading, now)
    {
      if reading.Err? {
        return Err(Store(reading.error));
      }
      var found := VoiceDraft.FindRoom(reading.value.rooms, room);
      FirstFound(reading.value.rooms, room);
      if found.None? {
        return Err(InviteRoomNotFound);
      }
      FirstIsThe(reading.value.rooms, room, found.value);
      var p, _ := VoiceDraft.PruneRooms(reading.value.presence, now);
      PrunedExclusive(reading.value.presence, now);
      var inviterRoom := VoiceDraft.UserRoom(p, inviter);
      RoomIsFound(p, inviter, room, inviterRoom);
      if inviterRoom != room {
        return Err(SenderNotInRoom);
      }
      var targetRoom := VoiceDraft.UserRoom(p, target);
      RoomIsFound(p, target, room, targetRoom);
      if targetRoom == room {
        return Err(TargetUnavailable);
      }
      return Ok(found.value);
    }
  }

  lemma PrunedExclusive(p: Presence, now: int)
    requires Exclusive(p)
    ensures Exclusive(Pruned(p, now))
  {
    var q := Pruned(p, now);
    forall r1, r2, u | IsIn(q, u, r1) && IsIn(q, u, r2) ensures r1 == r2 {
      assert IsIn(p, u, r1) && IsIn(p, u, r2);
    }
  }

  lemma RoomIsFound(p: Presence, user: string, room: string, found: string)
    requires forall r :: r != "" ==> (found == r <==> IsIn(p, user, r))
    ensures RoomIs(p, user, room) <==> found == room
  {
    if room == "" {
      if found != "" {
        assert IsIn(p, user, found);
      }
      assert forall r :: r in p && r != "" && user in p[r] ==> IsIn(p, user, r);
    }
  }
}
