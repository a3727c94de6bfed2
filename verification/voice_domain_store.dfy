/**
 The two retry loops over the stored value, as the program runs them. Before each call to the key-value store the
 other nodes may have written anything that is legal; a call may fail; each has its own reading of the clock.
 */
module DomainStore {
  import opened Outcomes
  import opened VoiceDomain
  import opened LegacyImport
  import opened DomainProtocol
  import DomainAnswers
  import opened VoiceDraft

  /** What one call meets: the other nodes' events since the last one, whether it fails, and the time. */
  datatype Turn = Turn(others: seq<Event>, fails: bool, at: int, generation: string)

  /** From `before` to `after` the log has only grown, and request `id` has committed nothing. */
  ghost predicate NoCommit(before: seq<Event>, after: seq<Event>, id: nat) {
    before <= after && forall k :: |before| <= k < |after| ==> !Committed(after, id, k)
  }

  /** `s`, read as `raw`, was the stored snapshot at some moment since `before`. */
  ghost predicate ReadSince(base: Option<Raw>, before: seq<Event>, log: seq<Event>, raw: Raw, s: Snapshot) {
    && Decode(raw) == Ok(s)
    && exists k :: |before| <= k <= |log| && Replay(base, log[..k]) == Some(raw)
  }

  /** Event `k` is the only commit of `id`: it applied `op` to the stored snapshot and left `next`. */
  ghost predicate AppliedOnce(base: Option<Raw>, before: seq<Event>, log: seq<Event>, id: nat, op: Op, next: Snapshot, stamp: Stamp) {
    exists k ::
      && |before| <= k < |log| && Committed(log, id, k) && log[k].op == op && log[k].stamp == stamp
      && Readable(base, log[..k]) && Apply(SnapshotAfter(base, log[..k]), op, log[k].stamp) == Ok(next)
      && forall j :: |before| <= j < |log| && Committed(log, id, j) ==> j == k
  }

  /** The two clock readings and the generated id of a mutation, one at each of two turns in a row. */
  function StampAt(turns: nat -> Turn, n: nat): Stamp {
    Stamp(turns(n).at, turns(n + 1).at, turns(n + 1).generation)
  }

  /**
   The snapshot stored at some moment since `before` refuses the operation with `e`, by the clock readings of two of the
   first `used` turns.
   */
  ghost predicate RefusedSince(base: Option<Raw>, before: seq<Event>, log: seq<Event>, op: Op, e: Failure, turns: nat -> Turn, used: nat) {
    exists k: nat, n: nat :: n + 1 < used && RefusedAt(base, before, log, op, e, k, StampAt(turns, n))
  }

  ghost predicate RefusedAt(base: Option<Raw>, before: seq<Event>, log: seq<Event>, op: Op, e: Failure, k: nat, stamp: Stamp) {
    |before| <= k && DomainAnswers.RefusedBy(base, log, k, op, stamp, e)
  }

  /** Some moment since `before` found an unreadable value. */
  ghost predicate UnreadableSince(base: Option<Raw>, before: seq<Event>, log: seq<Event>) {
    exists k :: |before| <= k <= |log| && DomainAnswers.UnreadableAt(base, log, k)
  }

  /** One of the turns from `first` up to `used` was a failing call. */
  ghost predicate SomeFailed(turns: nat -> Turn, first: nat, used: nat) {
    exists m: nat :: first <= m < used && turns(m).fails
  }

  /** No call fails and nobody else writes in the turns from `first` up to `used`. */
  ghost predicate Undisturbed(turns: nat -> Turn, first: nat, used: nat) {
    forall m: nat :: first <= m < used ==> !turns(m).fails && turns(m).others == []
  }

  lemma UnreadableEarlier(base: Option<Raw>, before: seq<Event>, start: seq<Event>, log: seq<Event>)
    requires before <= start && UnreadableSince(base, start, log)
    ensures UnreadableSince(base, before, log)
  {
    var k :| |start| <= k <= |log| && DomainAnswers.UnreadableAt(base, log, k);
  }

  lemma JustUnreadable(base: Option<Raw>, before: seq<Event>, log: seq<Event>, raw: Raw)
    requires before <= log && Replay(base, log) == Some(raw) && Decode(raw).Err?
    ensures UnreadableSince(base, before, log)
  {
    assert log[..|log|] == log;
    assert DomainAnswers.UnreadableAt(base, log, |log|);
  }

  /** A stored key stays stored. */
  lemma {:induction false} StaysStored(base: Option<Raw>, log: seq<Event>, more: seq<Event>)
    requires Replay(base, log).Some?
    ensures Replay(base, log + more).Some?
    decreases |more|
  {
    if more == [] {
      assert log + more == log;
    } else {
      var front := more[..|more| - 1];
      StaysStored(base, log, front);
      assert (log + more)[..|log + more| - 1] == log + front;
    }
  }

  lemma ReadEarlier(base: Option<Raw>, before: seq<Event>, start: seq<Event>, log: seq<Event>, raw: Raw, s: Snapshot)
    requires before <= start && ReadSince(base, start, log, raw, s)
    ensures ReadSince(base, before, log, raw, s)
  {
    var k :| |start| <= k <= |log| && Replay(base, log[..k]) == Some(raw);
  }

  lemma NoCommitTwice(a: seq<Event>, b: seq<Event>, c: seq<Event>, id: nat)
    requires NoCommit(a, b, id) && NoCommit(b, c, id)
    ensures NoCommit(a, c, id)
  {
    forall k | |a| <= k < |c| ensures !Committed(c, id, k) {
      if k < |b| {
        assert !Committed(b, id, k);
      }
    }
  }

  lemma JustRead(base: Option<Raw>, before: seq<Event>, log: seq<Event>, raw: Raw, s: Snapshot)
    requires before <= log && Replay(base, log) == Some(raw) && Decode(raw) == Ok(s)
    ensures ReadSince(base, before, log, raw, s)
  {
    assert log[..|log|] == log;
  }

  lemma RefusedFromRead(base: Option<Raw>, before: seq<Event>, log: seq<Event>, raw: Raw, s: Snapshot, op: Op, stamp: Stamp, e: Failure)
    requires ReadSince(base, before, log, raw, s) && Apply(s, op, stamp) == Err(e)
    ensures exists k: nat :: RefusedAt(base, before, log, op, e, k, stamp)
  {
    var k :| |before| <= k <= |log| && Replay(base, log[..k]) == Some(raw);
    assert Readable(base, log[..k]) && SnapshotAfter(base, log[..k]) == s;
    assert RefusedAt(base, before, log, op, e, k, stamp);
  }

  /** The decoded snapshot, pruned, mutated and sorted in place. */
  method Edited(s: Snapshot, op: Op, stamp: Stamp) returns (r: Result<Snapshot, Failure>)
    ensures r == Apply(s, op, stamp)
  {
    var draft := new Draft(s);
    var err, _, _ := draft.Attempt(op, stamp);
    return if err.Some? then Err(err.value) else Ok(draft.Value());
  }

  class Node {
    const base: Option<Raw>
    const rooms: Legacy<seq<Room>>
    const presence: Legacy<Presence>
    var domain: Option<Raw>
    var log: seq<Event>

    ghost predicate Valid()
      reads this
    {
      WithinLimits(rooms, presence) && Legal(base, log) && domain == Replay(base, log)
    }

    constructor (stored: Option<Raw>, r: Legacy<seq<Room>>, p: Legacy<Presence>)
      requires WithinLimits(r, p)
      ensures Valid() && base == domain == stored && log == [] && rooms == r && presence == p
    {
      base, domain, log := stored, stored, [];
      rooms, presence := r, p;
    }

    /** The other nodes' writes. */
    method Interfere(others: seq<Event>)
      requires Valid()
      modifies this
      ensures Valid() && (log == old(log) || log == old(log) + others)
      ensures old(domain).Some? ==> domain.Some?
      ensures |log| == |old(log)| ==> domain == old(domain)
    {
      if Legal(base, log + others) {
        if domain.Some? {
          StaysStored(base, log, others);
        }
        assert others == [] ==> log + others == log;
        log := log + others;
        domain := Replay(base, log);
      }
    }

    method Get(t: Turn, ghost id: nat) returns (r: Result<Option<Raw>, Failure>)
      requires Valid() && forall e :: e in t.others ==> e.id != id
      modifies this
      ensures Valid() && NoCommit(old(log), log, id)
      ensures r == if t.fails then Err(StoreFailure) else Ok(domain)
      ensures old(domain).Some? ==> domain.Some?
      ensures t.others == [] ==> log == old(log)
    {
      Interfere(t.others);
      return if t.fails then Err(StoreFailure) else Ok(domain);
    }

    /** The atomic write: it happens only if the key still holds `expected`; the caller then logs what it was. */
    method CompareAndSet(t: Turn, ghost id: nat, expected: Option<Raw>, next: Raw) returns (r: Result<bool, Failure>)
      requires Valid() && forall x :: x in t.others ==> x.id != id
      modifies this
      ensures NoCommit(old(log), log, id)
      ensures r != Ok(true) ==> Valid()
      ensures r.Err? <==> t.fails
      ensures r.Err? ==> r.error == StoreFailure
      ensures r == Ok(false) ==> domain != expected && (old(domain) == expected ==> |log| > |old(log)|)
      ensures t.others == [] ==> log == old(log) && (!t.fails ==> r == Ok(old(domain) == expected))
      ensures old(domain).Some? ==> domain.Some?
      ensures r == Ok(true) ==>
                WithinLimits(rooms, presence) && Legal(base, log) && Replay(base, log) == expected && domain == Some(next)
    {
      Interfere(t.others);
      if t.fails {
        return Err(StoreFailure);
      }
      if domain != expected {
        return Ok(false);
      }
      domain := Some(next);
      return Ok(true);
    }

    method Note(e: Event, ghost next: Raw)
      requires WithinLimits(rooms, presence) && Legal(base, log) && Makes(log, e, next) && domain == Some(next)
      modifies this`log
      ensures Valid() && log == old(log) + [e]
    {
      LegalAppend(base, log, e);
      log := log + [e];
    }

    /** Appending `e` to `l` is legal and leaves `next`. */
    ghost predicate Makes(l: seq<Event>, e: Event, next: Raw) {
      LegalEvent(base, l + [e], |l|) && Replay(base, l + [e]) == Some(next)
    }

    lemma ImportMakes(l: seq<Event>, id: nat, at: int)
      requires WithinLimits(rooms, presence) && Replay(base, l) == None
      ensures Makes(l, Import(id, rooms, presence, at), Encode(ImportedSnapshot(rooms, presence, at)))
    {
      assert (l + [Import(id, rooms, presence, at)])[..|l|] == l;
      ImportReadable(rooms, presence, at);
    }

    lemma CommitMakes(l: seq<Event>, id: nat, op: Op, stamp: Stamp, raw: Raw, s: Snapshot, next: Snapshot)
      requires Replay(base, l) == Some(raw) && Decode(raw) == Ok(s) && Apply(s, op, stamp) == Ok(next)
      ensures Makes(l, Commit(id, op, stamp), Encode(next))
    {
      assert (l + [Commit(id, op, stamp)])[..|l|] == l;
    }

    ghost predicate ForeignTurns(turns: nat -> Turn, id: nat) {
      forall k: nat, e :: e in turns(k).others ==> e.id != id
    }

    /** What the import stores when the clock shows `clock`. */
    function Seeded(clock: int): (Snapshot, Raw) {
      (ImportedSnapshot(rooms, presence, clock), Encode(ImportedSnapshot(rooms, presence, clock)))
    }

    /** The import, once both older keys have been read: the write that seeds the key, if it is still empty. */
    method Seed(id: nat, clock: int, t: Turn) returns (r: Result<Option<(Snapshot, Raw)>, Failure>)
      requires Valid() && forall e :: e in t.others ==> e.id != id
      modifies this
      ensures Valid() && NoCommit(old(log), log, id)
      ensures r.Err? <==> t.fails
      ensures r.Err? ==> r.error == StoreFailure
      ensures r.Ok? ==> domain.Some?
      ensures r.Ok? && r.value.Some? ==> ReadSince(base, old(log), log, r.value.value.1, r.value.value.0) && domain == Some(r.value.value.1)
      ensures r.Ok? && t.others == [] ==> r.value == if old(domain).None? then Some(Seeded(clock)) else None
    {
      var kept := NormalizeLegacyPresence(OldRooms(rooms), OldPresence(presence), clock);
      var state := Snapshot(OldRooms(rooms), kept);
      ghost var before := log;
      var ok := CompareAndSet(t, id, None, Encode(state));
      if ok.Err? {
        return Err(ok.error);
      }
      if !ok.value {
        return Ok(None);
      }
      ImportMakes(log, id, clock);
      ImportCommitsNothing(before, log, Import(id, rooms, presence, clock), id);
      Note(Import(id, rooms, presence, clock), Encode(state));
      JustRead(base, before, log, Encode(state), state);
      return Ok(Some((state, Encode(state))));
    }

    /** One pass of the read loop: None if another node seeded the empty key first. */
    method ReadOnce(id: nat, turns: nat -> Turn, first: nat) returns (r: Result<Option<(Snapshot, Raw)>, Failure>, n: nat)
      requires Valid() && ForeignTurns(turns, id)
      modifies this
      ensures Valid() && NoCommit(old(log), log, id) && first < n
      ensures r.Ok? && r.value.Some? ==> ReadSince(base, old(log), log, r.value.value.1, r.value.value.0) && domain == Some(r.value.value.1)
      ensures r == Ok(None) ==> old(domain).None? && domain.Some? && !Undisturbed(turns, first, n)
      ensures r.Err? ==> r.error in {StoreFailure, Corrupt}
      ensures r == Err(StoreFailure) ==> SomeFailed(turns, first, n)
      ensures r == Err(Corrupt) ==> UnreadableSince(base, old(log), log)
      ensures Undisturbed(turns, first, n) ==> ReadsAlone(old(domain), turns, first, Plain(r), n)
    {
      n := first + 1;
      var got := Get(turns(first), id);
      if got.Err? {
        return Err(got.error), n;
      }
      if got.value.Some? {
        r := Parsed(got.value.value, old(log));
        return;
      }
      if turns(n).fails {
        return Err(StoreFailure), n + 1;
      }
      if turns(n + 1).fails {
        return Err(StoreFailure), n + 2;
      }
      ghost var start := log;
      r := Seed(id, turns(n + 1).at, turns(n + 2));
      NoCommitTwice(old(log), start, log, id);
      n := n + 3;
      assert turns(n - 1) == turns(first + 3);
      if r.Ok? && r.value.Some? {
        ReadEarlier(base, old(log), start, log, r.value.value.1, r.value.value.0);
      }
    }

    /** The stored value, decoded. */
    method Parsed(raw: Raw, ghost before: seq<Event>) returns (r: Result<Option<(Snapshot, Raw)>, Failure>)
      requires Valid() && before <= log && domain == Some(raw)
      ensures r == if Decode(raw).Ok? then Ok(Some((Decode(raw).value, raw))) else Err(Corrupt)
      ensures if r.Ok? then ReadSince(base, before, log, raw, r.value.value.0) else UnreadableSince(base, before, log)
    {
      var decoded := Decode(raw);
      if decoded.Err? {
        JustUnreadable(base, before, log, raw);
        return Err(decoded.error);
      }
      JustRead(base, before, log, raw, decoded.value);
      return Ok(Some((decoded.value, raw)));
    }

    /** A pass's answer as the loop's: a pass that must be repeated has none. */
    function Plain(r: Result<Option<(Snapshot, Raw)>, Failure>): Result<(Snapshot, Raw), Failure> {
      match r
      case Err(e) => Err(e)
      case Ok(None) => Err(Contended)
      case Ok(Some(v)) => Ok(v)
    }

    /** What a read that is not disturbed answers, and the turns it takes. */
    ghost predicate ReadsAlone(was: Option<Raw>, turns: nat -> Turn, first: nat, r: Result<(Snapshot, Raw), Failure>, n: nat) {
      match was
      case Some(raw) => n == first + 1 && r == if Decode(raw).Ok? then Ok((Decode(raw).value, raw)) else Err(Corrupt)
      case None => n == first + 4 && r == Ok(Seeded(turns(first + 2).at))
    }

    /** readVoiceDomain; its calls take the turns from `first` on, and it returns the first one it left. It never gives up. */
    method ReadVoiceDomain(id: nat, turns: nat -> Turn, first: nat) returns (r: Result<(Snapshot, Raw), Failure>, n: nat)
      requires Valid() && ForeignTurns(turns, id)
      modifies this
      ensures Valid() && NoCommit(old(log), log, id) && first <= n
      ensures r.Ok? ==> ReadSince(base, old(log), log, r.value.1, r.value.0) && domain == Some(r.value.1)
      ensures r.Err? ==> r.error in {StoreFailure, Corrupt}
      ensures r == Err(StoreFailure) ==> SomeFailed(turns, first, n)
      ensures r == Err(Corrupt) ==> UnreadableSince(base, old(log), log)
      ensures Undisturbed(turns, first, n) ==> ReadsAlone(old(domain), turns, first, r, n)
    {
      n := first;
      var attempt := 0;
      while attempt < WRITE_ATTEMPTS
        invariant Valid() && NoCommit(old(log), log, id) && first <= n && attempt <= 1
        invariant attempt == 0 ==> n == first && log == old(log) && domain == old(domain)
        invariant attempt == 1 ==> domain.Some? && !Undisturbed(turns, first, n)
      {
        ghost var start := log;
        var once;
        once, n := ReadOnce(id, turns, n);
        NoCommitTwice(old(log), start, log, id);
        if once.Err? {
          if once.error.Corrupt? {
            UnreadableEarlier(base, old(log), start, log);
          }
          return Err(once.error), n;
        }
        if once.value.Some? {
          ReadEarlier(base, old(log), start, log, once.value.value.1, once.value.value.0);
          return Ok(once.value.value), n;
        }
        attempt := attempt + 1;
      }
      return Err(Contended), n;
    }

    /** The write that ends a pass: false if another node wrote first. */
    method Offer(id: nat, op: Op, stamp: Stamp, s: Snapshot, raw: Raw, next: Snapshot, t: Turn, ghost start: seq<Event>)
      returns (r: Result<bool, Failure>)
      requires Valid() && (forall e :: e in t.others ==> e.id != id)
      requires NoCommit(start, log, id) && Decode(raw) == Ok(s) && Apply(s, op, stamp) == Ok(next) && domain == Some(raw)
      modifies this
      ensures Valid() && start <= log
      ensures r == Ok(true) ==> AppliedOnce(base, start, log, id, op, next, stamp)
      ensures r != Ok(true) ==> NoCommit(start, log, id)
      ensures r == Ok(false) ==> |log| > |old(log)|
      ensures r.Err? <==> t.fails
      ensures r.Err? ==> r.error == StoreFailure
      ensures t.others == [] && !t.fails ==> r == Ok(true)
    {
      ghost var before := log;
      r := CompareAndSet(t, id, Some(raw), Encode(next));
      NoCommitTwice(start, before, log, id);
      if r == Ok(true) {
        CommitMakes(log, id, op, stamp, raw, s, next);
        OnlyCommit(start, log, id, op, stamp, raw, s, next);
        Note(Commit(id, op, stamp), Encode(next));
      }
    }

    /** What applying the operation gives, as an answer of one pass. */
    function Outcome(s: Snapshot, op: Op, stamp: Stamp): Result<Option<Snapshot>, Failure> {
      match Apply(s, op, stamp)
      case Ok(next) => Ok(Some(next))
      case Err(e) => Err(e)
    }

    /** The body of the mutation loop, once a snapshot has been read: None if another node wrote first. */
    method MutateOnce(id: nat, op: Op, s: Snapshot, raw: Raw, stamp: Stamp, t: Turn, ghost start: seq<Event>)
      returns (r: Result<Option<Snapshot>, Failure>)
      requires Valid() && (forall e :: e in t.others ==> e.id != id)
      requires NoCommit(start, log, id) && ReadSince(base, start, log, raw, s) && domain == Some(raw)
      modifies this
      ensures Valid() && start <= log
      ensures r.Ok? && r.value.Some? ==> AppliedOnce(base, start, log, id, op, r.value.value, stamp)
      ensures !(r.Ok? && r.value.Some?) ==> NoCommit(start, log, id)
      ensures r == Ok(None) ==> |log| > |old(log)|
      ensures r.Err? ==> if r.error == StoreFailure then t.fails else exists k: nat :: RefusedAt(base, start, log, op, r.error, k, stamp)
      ensures r.Err? ==> r.error in {StoreFailure, RoomsFull, Forbidden, RoomNotFound}
      ensures (t.others == [] && !t.fails) || (r.Err? && r.error != StoreFailure) ==> r == Outcome(s, op, stamp)
    {
      var edited := Edited(s, op, stamp);
      if edited.Err? {
        DomainAnswers.RefusalKinds(PrunedSnapshot(s, stamp.pruneAt), op, stamp);
        RefusedFromRead(base, start, log, raw, s, op, stamp, edited.error);
        return Err(edited.error);
      }
      var ok := Offer(id, op, stamp, s, raw, edited.value, t, start);
      if ok.Err? {
        return Err(ok.error);
      }
      return Ok(if ok.value then Some(edited.value) else None);
    }

    /**
     What a mutation that is not disturbed answers: the outcome on the value stored when it began, or on the value it
     imports, by its own readings of the clock.
     */
    ghost predicate MutatesAlone(was: Option<Raw>, op: Op, turns: nat -> Turn, r: Result<Snapshot, Failure>) {
      match was
      case Some(raw) => r == if Decode(raw).Ok? then Apply(Decode(raw).value, op, StampAt(turns, 1)) else Err(Corrupt)
      case None => r == Apply(ImportedSnapshot(rooms, presence, turns(2).at), op, StampAt(turns, 4))
    }

    /** The rest of a pass whose read left turn `readBy`: two readings of the clock and the write. */
    method EditPass(id: nat, op: Op, turns: nat -> Turn, readBy: nat, s: Snapshot, raw: Raw, ghost start: seq<Event>)
      returns (r: Result<Option<Snapshot>, Failure>, n: nat)
      requires Valid() && ForeignTurns(turns, id)
      requires NoCommit(start, log, id) && ReadSince(base, start, log, raw, s) && domain == Some(raw)
      modifies this
      ensures Valid() && start <= log && readBy + 1 < n
      ensures r.Ok? && r.value.Some? ==> AppliedOnce(base, start, log, id, op, r.value.value, StampAt(turns, readBy))
      ensures !(r.Ok? && r.value.Some?) ==> NoCommit(start, log, id)
      ensures r == Ok(None) ==> |log| > |old(log)| && !Undisturbed(turns, readBy, n)
      ensures r == Err(StoreFailure) ==> SomeFailed(turns, readBy, n)
      ensures r.Err? ==> r.error in {StoreFailure, RoomsFull, Forbidden, RoomNotFound}
      ensures r.Err? && r.error != StoreFailure ==> exists k: nat :: RefusedAt(base, start, log, op, r.error, k, StampAt(turns, readBy))
      ensures Undisturbed(turns, readBy, n) ==> r == Outcome(s, op, StampAt(turns, readBy))
    {
      r := MutateOnce(id, op, s, raw, StampAt(turns, readBy), turns(readBy + 2), start);
      n := if r.Err? && r.error != StoreFailure then readBy + 2 else readBy + 3;
      assert turns(n - 1) == turns(if r.Err? && r.error != StoreFailure then readBy + 1 else readBy + 2);
    }

    /** One pass of the mutation loop from turn `first` on: None if another node wrote first. */
    method MutatePass(id: nat, op: Op, turns: nat -> Turn, first: nat, ghost start: seq<Event>)
      returns (r: Result<Option<Snapshot>, Failure>, n: nat, ghost readBy: nat)
      requires Valid() && ForeignTurns(turns, id) && NoCommit(start, log, id)
      modifies this
      ensures Valid() && start <= log && first <= n
      ensures r.Ok? && r.value.Some? ==> readBy + 1 < n && AppliedOnce(base, start, log, id, op, r.value.value, StampAt(turns, readBy))
      ensures !(r.Ok? && r.value.Some?) ==> NoCommit(start, log, id)
      ensures r == Ok(None) ==> |log| > |old(log)| && !Undisturbed(turns, first, n)
      ensures r == Err(StoreFailure) ==> SomeFailed(turns, first, n)
      ensures r == Err(Corrupt) ==> UnreadableSince(base, start, log)
      ensures r.Err? ==> r.error in {StoreFailure, Corrupt, RoomsFull, Forbidden, RoomNotFound}
      ensures r.Err? && r.error != StoreFailure && r.error != Corrupt ==>
                readBy + 1 < n && exists k: nat :: RefusedAt(base, start, log, op, r.error, k, StampAt(turns, readBy))
      ensures Undisturbed(turns, first, n) ==> PassAlone(old(domain), op, turns, first, r)
    {
      ghost var (before, was) := (log, domain);
      var read;
      read, n := ReadVoiceDomain(id, turns, first);
      readBy := n;
      NoCommitTwice(start, before, log, id);
      if read.Err? {
        if read.error.Corrupt? {
          UnreadableEarlier(base, start, before, log);
        }
        return Err(read.error), n, readBy;
      }
      ReadEarlier(base, start, before, log, read.value.1, read.value.0);
      r, n := EditPass(id, op, turns, n, read.value.0, read.value.1, start);
      PassIsAlone(was, op, turns, first, read.value, readBy, r, n);
    }

    /** After an undisturbed read, the outcome of the operation is what an undisturbed pass should answer. */
    lemma PassIsAlone(was: Option<Raw>, op: Op, turns: nat -> Turn, first: nat, read: (Snapshot, Raw), readBy: nat,
                      r: Result<Option<Snapshot>, Failure>, n: nat)
      requires first <= readBy <= n
      requires Undisturbed(turns, first, readBy) ==> ReadsAlone(was, turns, first, Ok(read), readBy)
      requires Undisturbed(turns, readBy, n) ==> r == Outcome(read.0, op, StampAt(turns, readBy))
      ensures Undisturbed(turns, first, n) ==> PassAlone(was, op, turns, first, r)
    {
      if Undisturbed(turns, first, n) {
        UndisturbedParts(turns, first, readBy, n);
        match was {
          case None =>
            assert read == Seeded(turns(first + 2).at);
            assert StampAt(turns, readBy) == StampAt(turns, first + 4);
          case Some(raw) =>
            assert read.0 == Decode(raw).value;
            assert StampAt(turns, readBy) == StampAt(turns, first + 1);
        }
      }
    }

    lemma UndisturbedParts(turns: nat -> Turn, first: nat, mid: nat, n: nat)
      requires first <= mid <= n && Undisturbed(turns, first, n)
      ensures Undisturbed(turns, first, mid) && Undisturbed(turns, mid, n)
    {
    }

    ghost predicate PassAlone(was: Option<Raw>, op: Op, turns: nat -> Turn, first: nat, r: Result<Option<Snapshot>, Failure>) {
      match was
      case Some(raw) =>
        if Decode(raw).Err? then r == Err(Corrupt) else r == Outcome(Decode(raw).value, op, StampAt(turns, first + 1))
      case None => r == Outcome(Seeded(turns(first + 2).at).0, op, StampAt(turns, first + 4))
    }

    /**
     mutateVoiceDomain, which takes the first `n` turns. If it answers with a snapshot, its operation was applied exactly
     once, to the snapshot stored at that moment and by clock readings of two of its turns. If it fails, it was not
     applied: one of its calls failed, or an unreadable value was stored, or the others wrote twenty times while it ran,
     or a refusal was due, by such readings, on a snapshot stored while it ran. When nobody disturbs it, its answer is
     the outcome of its operation.
     */
    method MutateVoiceDomain(id: nat, op: Op, turns: nat -> Turn) returns (r: Result<Snapshot, Failure>, n: nat)
      requires Valid() && ForeignTurns(turns, id)
      modifies this
      ensures Valid() && old(log) <= log
      ensures r.Ok? ==> exists m: nat :: m + 1 < n && AppliedOnce(base, old(log), log, id, op, r.value, StampAt(turns, m))
      ensures r.Err? ==> NoCommit(old(log), log, id)
      ensures r == Err(StoreFailure) ==> SomeFailed(turns, 0, n)
      ensures r == Err(Corrupt) ==> UnreadableSince(base, old(log), log)
      ensures r == Err(Contended) ==> |log| >= |old(log)| + 20
      ensures r.Err? && r.error in {RoomsFull, Forbidden, RoomNotFound} ==> RefusedSince(base, old(log), log, op, r.error, turns, n)
      ensures Undisturbed(turns, 0, n) ==> MutatesAlone(old(domain), op, turns, r)
    {
      var attempt := 0;
      n := 0;
      while attempt < WRITE_ATTEMPTS
        invariant 0 <= attempt <= WRITE_ATTEMPTS && Valid() && NoCommit(old(log), log, id)
        invariant |log| >= |old(log)| + attempt
        invariant attempt == 0 ==> n == 0 && log == old(log) && domain == old(domain)
        invariant attempt > 0 ==> !Undisturbed(turns, 0, n)
      {
        ghost var start := log;
        ghost var readBy: nat;
        var done;
        done, n, readBy := MutatePass(id, op, turns, n, old(log));
        if done.Err? {
          return Err(done.error), n;
        }
        if done.value.Some? {
          return Ok(done.value.value), n;
        }
        attempt := attempt + 1;
      }
      return Err(Contended), n;
    }

    lemma OnlyCommit(start: seq<Event>, before: seq<Event>, id: nat, op: Op, stamp: Stamp, raw: Raw, s: Snapshot, next: Snapshot)
      requires NoCommit(start, before, id)
      requires Replay(base, before) == Some(raw) && Decode(raw) == Ok(s) && Apply(s, op, stamp) == Ok(next)
      ensures AppliedOnce(base, start, before + [Commit(id, op, stamp)], id, op, next, stamp)
    {
      var (k, after) := (|before|, before + [Commit(id, op, stamp)]);
      assert after[..k] == before;
      forall j | |start| <= j < k ensures !Committed(after, id, j) {
        assert !Committed(before, id, j);
      }
      assert Committed(after, id, k);
    }
  }

  lemma ImportCommitsNothing(before: seq<Event>, log: seq<Event>, e: Event, id: nat)
    requires NoCommit(before, log, id) && e.Import?
    ensures NoCommit(before, log + [e], id)
  {
    forall k | |before| <= k < |log + [e]| ensures !Committed(log + [e], id, k) {
      if k < |log| {
        assert !Committed(log, id, k);
      }
    }
  }
}
