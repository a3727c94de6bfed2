/** The life of an invitation post under any sequence of sends and answers inside one plugin process. */
module InviteHistory {
  import opened Outcomes
  import VoiceDomain
  import opened VoiceInvites

  /** One request; the process lock runs them one at a time. */
  datatype Call =
    | SendCall(inviter: string, target: string, room: string, postId: string, sendWorld: SendWorld)
    | RespondCall(user: string, postId: string, inviteId: string, decision: string, world: RespondWorld)

  /** What the process has done: every revision of each post, the published events, and a clock no call has gone beyond. */
  datatype Book = Book(revisions: map<string, seq<Post>>, published: seq<Invite>, clock: int)

  const EMPTY := Book(map[], [], 0)

  predicate Decision(status: string) {
    status == ACCEPTED || status == DECLINED
  }

  function Current(b: Book, postId: string): Option<Post> {
    if postId in b.revisions && b.revisions[postId] != [] then Some(b.revisions[postId][|b.revisions[postId]| - 1]) else None
  }

  /** The call can be made: its clock readings come after the book's and before `end`, and new ids are new. */
  predicate Possible(b: Book, c: Call, end: int) {
    match c
    case SendCall(_, target, _, postId, w) =>
      && postId !in b.revisions && w.inviteId != "" && target != ""
      && b.clock <= w.now <= w.undoAt <= end
    case RespondCall(_, _, _, decision, w) =>
      && Decision(decision)
      && b.clock <= w.now <= w.undoAt <= end
  }

  function Reply(b: Book, c: Call): Option<InviteError> {
    match c
    case SendCall(inviter, target, room, _, w) => Send(inviter, target, room, w).error
    case RespondCall(user, postId, inviteId, decision, w) => Respond(Current(b, postId), user, inviteId, decision, w).error
  }

  function Next(b: Book, c: Call, end: int): Book {
    match c
    case SendCall(inviter, target, room, postId, w) =>
      var sent := Send(inviter, target, room, w);
      Book(if sent.writes == [] then b.revisions else b.revisions[postId := sent.writes], b.published + sent.published, end)
    case RespondCall(user, postId, inviteId, decision, w) =>
      var answer := Respond(Current(b, postId), user, inviteId, decision, w);
      Book(if postId in b.revisions then b.revisions[postId := b.revisions[postId] + answer.writes] else b.revisions, b.published, end)
  }

  // ---------- the shape of a post's revisions ----------

  /** `post` differs from the first revision only by an answer. */
  predicate AnsweredIn(post: Post, first: Post, i: Invite) {
    post == WithInvite(first, i.(status := ACCEPTED)) || post == WithInvite(first, i.(status := DECLINED))
  }

  /** `post` is pending again, with an expiry that lies in the past of `clock`. */
  predicate WithdrawnIn(post: Post, i: Invite, clock: int) {
    match FromPost(post)
    case None => false
    case Some(w) => w == i.(status := PENDING, expiresAt := w.expiresAt) && w.expiresAt < clock
  }

  /** A first revision: pending, with the ids that send gives it. */
  predicate Begins(post: Post) {
    && FromPost(post).Some? && post.kind == POST_TYPE
    && FromPost(post).value.status == PENDING && FromPost(post).value.inviteId != "" && FromPost(post).value.targetId != ""
  }

  /** Answered or withdrawn; then, only after an answer, withdrawn; and nothing more. */
  predicate Goes(revs: seq<Post>, i: Invite, clock: int)
    requires 1 <= |revs| <= 3
  {
    && (|revs| == 2 ==> AnsweredIn(revs[1], revs[0], i) || WithdrawnIn(revs[1], i, clock))
    && (|revs| == 3 ==> AnsweredIn(revs[1], revs[0], i) && WithdrawnIn(revs[2], i, clock))
  }

  /** What becomes of a post. */
  predicate WellShaped(revs: seq<Post>, clock: int) {
    1 <= |revs| <= 3 && Begins(revs[0]) && Goes(revs, FromPost(revs[0]).value, clock)
  }

  predicate WellKept(b: Book) {
    forall postId | postId in b.revisions :: WellShaped(b.revisions[postId], b.clock)
  }

  lemma ShapeStays(revs: seq<Post>, clock: int, later: int)
    requires WellShaped(revs, clock) && clock <= later
    ensures WellShaped(revs, later)
  {
  }

  lemma WithdrawnReads(post: Post, i: Invite, now: int, clock: int)
    requires post.kind == POST_TYPE && i.inviteId != "" && i.targetId != "" && now <= clock
    ensures WithdrawnIn(Withdrawn(post, i, now), i, clock)
  {
    InviteRoundTrip(post, i.(status := PENDING, expiresAt := now - 1));
  }

  lemma AnsweredReads(first: Post, i: Invite, decision: string)
    requires first.kind == POST_TYPE && i.inviteId != "" && i.targetId != ""
    ensures FromPost(WithInvite(first, i.(status := decision))) == Some(i.(status := decision))
  {
    InviteRoundTrip(first, i.(status := decision));
  }

  lemma AnsweredHolds(post: Post, first: Post, i: Invite)
    requires AnsweredIn(post, first, i) && first.kind == POST_TYPE && i.inviteId != "" && i.targetId != ""
    ensures FromPost(post).Some? && Decision(FromPost(post).value.status)
  {
    AnsweredReads(first, i, ACCEPTED);
    AnsweredReads(first, i, DECLINED);
  }

  /** An answered post holds an answer, a withdrawn one a past expiry. */
  lemma LaterReads(post: Post, first: Post, i: Invite, clock: int)
    requires Begins(first) && i == FromPost(first).value && (AnsweredIn(post, first, i) || WithdrawnIn(post, i, clock))
    ensures FromPost(post).Some? && (Decision(FromPost(post).value.status) || FromPost(post).value.expiresAt < clock)
  {
    if !WithdrawnIn(post, i, clock) {
      AnsweredHolds(post, first, i);
    }
  }

  /** The last of several revisions holds an answer, or a past expiry. */
  lemma LaterRevision(revs: seq<Post>, clock: int)
    requires WellShaped(revs, clock) && |revs| > 1
    ensures var last := FromPost(revs[|revs| - 1]);
            last.Some? && (Decision(last.value.status) || last.value.expiresAt < clock)
  {
    var (first, last) := (revs[0], revs[|revs| - 1]);
    assert Begins(first) && Goes(revs, FromPost(first).value, clock);
    assert |revs| == 2 || |revs| == 3;
    LaterReads(last, first, FromPost(first).value, clock);
  }

  lemma RespondToLater(post: Post, user: string, inviteId: string, decision: string, w: RespondWorld)
    requires FromPost(post).Some? && (Decision(FromPost(post).value.status) || FromPost(post).value.expiresAt <= w.now)
    ensures Respond(Some(post), user, inviteId, decision, w).writes == []
  {
  }

  lemma RecordShape(post: Post, i: Invite, decision: string, w: RespondWorld, end: int)
    requires FromPost(post) == Some(i) && i.status == PENDING && w.undoAt <= end
    ensures var answer := Record(post, i.(status := decision), w);
            && |answer.writes| <= 2
            && (|answer.writes| >= 1 ==> answer.writes[0] == WithInvite(post, i.(status := decision)))
            && (|answer.writes| == 2 ==> WithdrawnIn(answer.writes[1], i, end))
            && (answer.error == Some(Expired) ==> |answer.writes| != 1)
  {
    var answered := i.(status := decision);
    WithdrawnReads(WithInvite(post, answered), answered, w.undoAt, end);
    assert answered.(status := PENDING) == i;
  }

  lemma RespondToFirst(post: Post, user: string, inviteId: string, decision: string, w: RespondWorld, end: int)
    requires FromPost(post).Some? && FromPost(post).value.status == PENDING && w.undoAt <= end
    ensures var (i, answer) := (FromPost(post).value, Respond(Some(post), user, inviteId, decision, w));
            && |answer.writes| <= 2
            && (|answer.writes| >= 1 ==> answer.writes[0] == WithInvite(post, i.(status := decision)))
            && (|answer.writes| == 2 ==> WithdrawnIn(answer.writes[1], i, end))
            && (answer.error == Some(Expired) ==> |answer.writes| != 1)
  {
    var (i, answer) := (FromPost(post).value, Respond(Some(post), user, inviteId, decision, w));
    RecordShape(post, i, decision, w, end);
    assert answer.writes == [] || answer == Record(post, i.(status := decision), w);
  }

  /** Only a post with one revision, pending and not yet expired, is ever written by respond. */
  lemma RespondShape(revs: seq<Post>, clock: int, user: string, inviteId: string, decision: string, w: RespondWorld, end: int)
    requires WellShaped(revs, clock) && Decision(decision) && clock <= w.now <= w.undoAt <= end
    ensures var answer := Respond(Some(revs[|revs| - 1]), user, inviteId, decision, w);
            && WellShaped(revs + answer.writes, end)
            && (answer.writes != [] ==> |revs| == 1)
            && (answer.error == Some(Expired) && answer.writes != [] ==>
                  WithdrawnIn((revs + answer.writes)[|revs + answer.writes| - 1], FromPost(revs[0]).value, end))
  {
    var answer := Respond(Some(revs[|revs| - 1]), user, inviteId, decision, w);
    ShapeStays(revs, clock, end);
    if |revs| > 1 {
      LaterRevision(revs, clock);
      RespondToLater(revs[|revs| - 1], user, inviteId, decision, w);
    } else {
      RespondToFirst(revs[0], user, inviteId, decision, w, end);
    }
    if answer.writes == [] {
      assert revs + answer.writes == revs;
    } else {
      var next := revs + answer.writes;
      assert next[0] == revs[0] && next[1] == answer.writes[0];
      assert AnsweredIn(next[1], next[0], FromPost(revs[0]).value);
    }
  }

  lemma SendShape(inviter: string, target: string, room: string, w: SendWorld, end: int)
    requires w.inviteId != "" && target != "" && w.now <= w.undoAt <= end
    ensures var sent := Send(inviter, target, room, w);
            && (sent.writes != [] ==> WellShaped(sent.writes, end))
            && (sent.error == None <==> |sent.published| == 1)
            && (sent.error != None ==> sent.published == [])
            && (sent.error == None ==> sent.writes != [] && FromPost(sent.writes[0]) == Some(sent.published[0]) && sent.published[0].targetId == target)
  {
    var sent := Send(inviter, target, room, w);
    if sent.writes != [] {
      var i := NewInvite(inviter, target, InviteRoom(inviter, target, room, w.reading, w.readAt).value, w);
      var post := NewPost(i);
      InviteRoundTrip(Post(POST_TYPE, post.message, map[]), i);
      assert post == WithInvite(Post(POST_TYPE, post.message, map[]), i);
      WithdrawnReads(post, i, w.undoAt, end);
    }
  }

  lemma CallKeepsShape(b: Book, c: Call, end: int)
    requires WellKept(b) && Possible(b, c, end)
    ensures WellKept(Next(b, c, end)) && b.clock <= end
  {
    var n := Next(b, c, end);
    forall postId | postId in n.revisions ensures WellShaped(n.revisions[postId], end) {
      if c.SendCall? && postId == c.postId {
        SendShape(c.inviter, c.target, c.room, c.sendWorld, end);
      } else if c.RespondCall? && postId == c.postId {
        RespondShape(b.revisions[postId], b.clock, c.user, c.inviteId, c.decision, c.world, end);
      } else {
        ShapeStays(b.revisions[postId], b.clock, end);
      }
    }
  }

  // ---------- any number of calls ----------

  /** A run: each call with the time by which it had returned. */
  predicate Run(b: Book, calls: seq<(Call, int)>)
    decreases |calls|
  {
    calls == [] || (Possible(b, calls[0].0, calls[0].1) && Run(Next(b, calls[0].0, calls[0].1), calls[1..]))
  }

  function After(b: Book, calls: seq<(Call, int)>): Book
    decreases |calls|
  {
    if calls == [] then b else After(Next(b, calls[0].0, calls[0].1), calls[1..])
  }

  lemma {:induction false} RunKeepsShape(b: Book, calls: seq<(Call, int)>)
    requires WellKept(b) && Run(b, calls)
    ensures WellKept(After(b, calls))
    decreases |calls|
  {
    if calls != [] {
      CallKeepsShape(b, calls[0].0, calls[0].1);
      RunKeepsShape(Next(b, calls[0].0, calls[0].1), calls[1..]);
    }
  }

  ghost predicate HasAnswer(post: Post, decision: string) {
    Decision(decision) && FromPost(post).Some? && FromPost(post).value.status == decision
  }

  lemma AnswerRead(post: Post, first: Post, i: Invite)
    requires AnsweredIn(post, first, i) && first.kind == POST_TYPE && i.inviteId != "" && i.targetId != ""
    ensures FromPost(post).Some? && Decision(FromPost(post).value.status)
  {
    AnsweredReads(first, i, ACCEPTED);
    AnsweredReads(first, i, DECLINED);
  }

  lemma WithdrawalRead(post: Post, i: Invite, clock: int)
    requires WithdrawnIn(post, i, clock)
    ensures FromPost(post).Some? && FromPost(post).value.status == PENDING && FromPost(post).value.expiresAt < clock
  {
  }

  /** The status of each revision, by its place. */
  lemma StatusAt(revs: seq<Post>, clock: int, k: nat)
    requires WellShaped(revs, clock) && k < |revs|
    ensures FromPost(revs[k]).Some?
    ensures k == 0 ==> FromPost(revs[k]).value.status == PENDING
    ensures k == 1 ==> || Decision(FromPost(revs[k]).value.status)
                       || (|revs| == 2 && FromPost(revs[k]).value.status == PENDING && FromPost(revs[k]).value.expiresAt < clock)
    ensures k == 2 ==> FromPost(revs[k]).value.status == PENDING && FromPost(revs[k]).value.expiresAt < clock
  {
    var i := FromPost(revs[0]).value;
    if k == 1 && AnsweredIn(revs[1], revs[0], i) {
      AnswerRead(revs[1], revs[0], i);
    } else if k > 0 {
      WithdrawalRead(revs[k], i, clock);
    }
  }

  lemma ShapeAnswers(revs: seq<Post>, clock: int, j: nat, k: nat, d1: string, d2: string)
    requires WellShaped(revs, clock) && j <= k < |revs|
    ensures HasAnswer(revs[j], d1) && HasAnswer(revs[k], d2) ==> j == k && d1 == d2
    ensures 0 < k && FromPost(revs[k]).Some? && FromPost(revs[k]).value.status == PENDING ==>
              k == |revs| - 1 && FromPost(revs[k]).value.expiresAt < clock
  {
    StatusAt(revs, clock, j);
    StatusAt(revs, clock, k);
  }

  /**
   In every run, whatever the rooms and the failures: two answers ever written to one post are the same
   answer, and a post that is pending again is so for good, with an expiry in the past.
   */
  lemma AnswersNeverFlip(calls: seq<(Call, int)>, postId: string, j: nat, k: nat, d1: string, d2: string)
    requires Run(EMPTY, calls) && postId in After(EMPTY, calls).revisions
    requires j <= k < |After(EMPTY, calls).revisions[postId]|
    ensures var revs := After(EMPTY, calls).revisions[postId];
            && (HasAnswer(revs[j], d1) && HasAnswer(revs[k], d2) ==> j == k && d1 == d2)
            && (0 < k && FromPost(revs[k]).Some? && FromPost(revs[k]).value.status == PENDING ==>
                  k == |revs| - 1 && FromPost(revs[k]).value.expiresAt < After(EMPTY, calls).clock)
  {
    RunKeepsShape(EMPTY, calls);
    ShapeAnswers(After(EMPTY, calls).revisions[postId], After(EMPTY, calls).clock, j, k, d1, d2);
  }

  /** An answered post is never written again: the same answer succeeds while the room lives, the other is refused. */
  lemma AnsweredStays(post: Post, user: string, inviteId: string, decision: string, w: RespondWorld, recorded: string)
    requires HasAnswer(post, recorded) && Decision(decision)
    ensures var (i, answer) := (FromPost(post).value, Respond(Some(post), user, inviteId, decision, w));
            && answer.writes == []
            && (answer.error == None <==>
                  && inviteId == i.inviteId && user == i.targetId && w.now < i.expiresAt
                  && CheckRoom(i, w.room) == None && decision == recorded)
  {
  }

  /** Once withdrawn, an invitation is answered "expired" for ever to the right caller, and is never written again. */
  lemma WithdrawnIsFinal(post: Post, i: Invite, clock: int, user: string, inviteId: string, decision: string, w: RespondWorld)
    requires WithdrawnIn(post, i, clock) && clock <= w.now
    ensures var answer := Respond(Some(post), user, inviteId, decision, w);
            && answer.writes == []
            && answer.error.Some?
            && (user == i.targetId && inviteId == i.inviteId ==> answer.error == Some(Expired))
  {
  }

  /** An answer of "expired" leaves the post as it was, or withdrawn. */
  lemma ExpiredLeavesUnanswerable(b: Book, c: Call, end: int)
    requires WellKept(b) && Possible(b, c, end) && c.RespondCall? && Reply(b, c) == Some(Expired)
    ensures || Next(b, c, end).revisions == b.revisions
            || (&& c.postId in b.revisions && Current(Next(b, c, end), c.postId).Some?
                && WithdrawnIn(Current(Next(b, c, end), c.postId).value, FromPost(b.revisions[c.postId][0]).value, end))
  {
    if c.postId in b.revisions {
      RespondShape(b.revisions[c.postId], b.clock, c.user, c.inviteId, c.decision, c.world, end);
      assert b.revisions[c.postId] + [] == b.revisions[c.postId];
    }
  }

  /** A send publishes its event exactly once when it succeeds and never when it fails; an answer publishes nothing. */
  lemma PublishedOncePerSend(b: Book, c: Call, end: int)
    requires Possible(b, c, end)
    ensures var n := Next(b, c, end);
            && b.published <= n.published
            && |n.published| == |b.published| + (if c.SendCall? && Reply(b, c) == None then 1 else 0)
  {
    if c.SendCall? {
      SendShape(c.inviter, c.target, c.room, c.sendWorld, end);
    }
  }

  // ---------- what an acknowledged answer and a sent invitation mean ----------

  /** The very incarnation of the room that the invitation names is listed. */
  predicate Holds(i: Invite, reading: Reading) {
    && reading.Ok?
    && exists x | x in reading.value.rooms :: x.id == i.roomId && x.createAt == i.roomCreateAt && x.generation == i.roomGeneration
  }

  /** And the inviter is live in it while the target is not. */
  predicate Open(i: Invite, reading: Reading, now: int) {
    && Holds(i, reading)
    && RoomIs(VoiceDomain.Pruned(reading.value.presence, now), i.inviterId, i.roomId)
    && !RoomIs(VoiceDomain.Pruned(reading.value.presence, now), i.targetId, i.roomId)
  }

  lemma ChecksMean(i: Invite, reading: Reading, now: int)
    requires GoodReading(reading)
    ensures CheckRoom(i, reading) == None <==> Holds(i, reading)
    ensures CheckResponse(i, reading, now) == None <==> Open(i, reading, now)
  {
    if reading.Ok? {
      var rooms := reading.value.rooms;
      FirstFound(rooms, i.roomId);
      if x :| x in rooms && x.id == i.roomId && x.createAt == i.roomCreateAt && x.generation == i.roomGeneration {
        FirstIsThe(rooms, i.roomId, x);
      }
    }
  }

  /** An answer is recorded and acknowledged exactly when the right user answers a pending, unexpired invitation that is open before and after the write. */
  lemma AcknowledgedExactly(post: Post, user: string, inviteId: string, decision: string, w: RespondWorld)
    requires FromPost(post).Some? && GoodReading(w.room) && GoodReading(w.before) && GoodReading(w.after)
    ensures var (i, answer) := (FromPost(post).value, Respond(Some(post), user, inviteId, decision, w));
            answer.error == None && answer.writes != [] <==>
            && i.inviteId == inviteId && i.targetId == user && w.now < i.expiresAt && i.status == PENDING
            && Holds(i, w.room) && Open(i, w.before, w.beforeAt) && w.saved && Open(i, w.after, w.afterAt)
  {
    var i := FromPost(post).value;
    ChecksMean(i, w.room, w.now);
    ChecksMean(i, w.before, w.beforeAt);
    ChecksMean(i.(status := decision), w.after, w.afterAt);
  }

  /**
   What respond answers instead, by what is in the post and in the rooms it read: the wrong post, the wrong user, another
   answer than the one that is recorded, or an invitation that has expired, whether by its time, with its room, or while
   it was being answered.
   */
  lemma RespondRefusals(post: Post, user: string, inviteId: string, decision: string, w: RespondWorld)
    requires FromPost(post).Some? && w.room.Ok? && w.before.Ok? && w.after.Ok?
    requires GoodReading(w.room) && GoodReading(w.before) && GoodReading(w.after)
    ensures var (i, error) := (FromPost(post).value, Respond(Some(post), user, inviteId, decision, w).error);
            var mine := i.inviteId == inviteId && i.targetId == user;
            && (error == Some(PostInvalid) <==> i.inviteId != inviteId)
            && (error == Some(WrongTarget) <==> i.inviteId == inviteId && i.targetId != user)
            && (error == Some(AlreadyAnswered) <==>
                  mine && w.now < i.expiresAt && Holds(i, w.room) && i.status != PENDING && i.status != decision)
            && (error == Some(Expired) <==>
                  mine && (|| i.expiresAt <= w.now || !Holds(i, w.room)
                           || (i.status == PENDING && !Open(i, w.before, w.beforeAt))
                           || (i.status == PENDING && w.saved && !Open(i, w.after, w.afterAt) && w.undone)))
  {
    var i := FromPost(post).value;
    ChecksMean(i, w.room, w.now);
    ChecksMean(i, w.before, w.beforeAt);
    ChecksMean(i.(status := decision), w.after, w.afterAt);
  }

  /** One user is live in the room and the other is not. */
  predicate Between(inviter: string, target: string, room: string, s: VoiceDomain.Snapshot, now: int) {
    var p := VoiceDomain.Pruned(s.presence, now);
    RoomIs(p, inviter, room) && !RoomIs(p, target, room)
  }

  /** The room is listed as the incarnation `x`. */
  predicate Lists(s: VoiceDomain.Snapshot, x: VoiceDomain.Room) {
    exists y :: y in s.rooms && y.id == x.id && y.createAt == x.createAt && y.generation == x.generation
  }

  /** What the check after the post was written comes to. */
  lemma SentCheck(inviter: string, target: string, x: VoiceDomain.Room, w: SendWorld)
    requires GoodReading(w.check) && w.target.Some? && w.inviter.Some?
    ensures CheckResponse(NewInvite(inviter, target, x, w), w.check, w.checkAt) == None <==>
              w.check.Ok? && Lists(w.check.value, x) && Between(inviter, target, x.id, w.check.value, w.checkAt)
  {
    var i := NewInvite(inviter, target, x, w);
    ChecksMean(i, w.check, w.checkAt);
    assert Holds(i, w.check) <==> w.check.Ok? && Lists(w.check.value, x);
  }

  /**
   An invitation to a listed room is sent exactly when the two users differ and are found, the room is open between them
   when it is looked up, the post can be written, and the same incarnation of the room is open between them after that.
   */
  lemma SendsExactly(inviter: string, target: string, room: string, w: SendWorld, x: VoiceDomain.Room)
    requires GoodReading(w.reading) && GoodReading(w.check)
    requires w.reading.Ok? && x in w.reading.value.rooms && x.id == room
    ensures Send(inviter, target, room, w).error == None <==>
              && inviter != target && w.target.Some? && w.inviter.Some? && w.channel && w.created
              && Between(inviter, target, room, w.reading.value, w.readAt)
              && w.check.Ok? && Lists(w.check.value, x) && Between(inviter, target, room, w.check.value, w.checkAt)
  {
    FirstIsThe(w.reading.value.rooms, room, x);
    if w.target.Some? && w.inviter.Some? {
      SentCheck(inviter, target, x, w);
    }
  }

  /** What is sent names both users, the incarnation of the room that was looked up and an expiry five minutes off, and is published once. */
  lemma SentInvite(inviter: string, target: string, room: string, w: SendWorld, x: VoiceDomain.Room)
    requires GoodReading(w.reading) && Send(inviter, target, room, w).error == None
    requires w.reading.Ok? && x in w.reading.value.rooms && x.id == room
    ensures w.inviter.Some? && w.target.Some?
    ensures Send(inviter, target, room, w).published == [
              Invite(w.inviteId, room, x.name, x.createAt, x.generation,
                     inviter, w.inviter.value.username, w.inviter.value.firstName, w.inviter.value.lastName,
                     target, w.target.value.username, w.now + 5 * 60 * 1000, "pending")]
    ensures Send(inviter, target, room, w).writes == [NewPost(Send(inviter, target, room, w).published[0])]
  {
    FirstIsThe(w.reading.value.rooms, room, x);
  }

  /** The post of an invitation reads back as the invitation. */
  lemma PostReadsBack(i: Invite)
    requires i.inviteId != "" && i.targetId != ""
    ensures FromPost(NewPost(i)) == Some(i)
  {
    var bare := NewPost(i).(props := map[]);
    InviteRoundTrip(bare, i);
    assert NewPost(i) == WithInvite(bare, i);
  }

  /** Why send writes no post at all: in this order, the same user twice, a target who is not found, a room that cannot be read, is not listed, or is not open between the two. */
  lemma SendRefusals(inviter: string, target: string, room: string, w: SendWorld)
    ensures var error := Send(inviter, target, room, w).error;
            var found := inviter != target && w.target.Some?;
            && (error == Some(SelfInvite) <==> inviter == target)
            && (error == Some(UserNotFound) <==> inviter != target && w.target.None?)
            && (error == Some(InviteRoomNotFound) <==> found && w.reading.Ok? && forall x :: x in w.reading.value.rooms ==> x.id != room)
            && (found && w.reading.Err? ==> error == Some(Store(w.reading.error)))
            && (found && w.reading.Ok? && (exists x :: x in w.reading.value.rooms && x.id == room) ==>
                  var p := VoiceDomain.Pruned(w.reading.value.presence, w.readAt);
                  && (error == Some(SenderNotInRoom) <==> !RoomIs(p, inviter, room))
                  && (error == Some(TargetUnavailable) <==> RoomIs(p, inviter, room) && RoomIs(p, target, room)))
  {
    if w.reading.Ok? {
      FirstFound(w.reading.value.rooms, room);
    }
  }
}
