/**
 The one-time import of the two older values: what it keeps, stated without any order of visiting,
 and the program's loops, which visit sorted room ids and users in map order.
 */
module LegacyImport {
  import opened Outcomes
  import opened VoiceDomain
  import Text
  import Sorting
  import VoiceDraft

  /** Room `r` wins user `u` over room `q`: a later expiry, or the same expiry and the smaller id. */
  predicate Beats(p: Presence, u: string, r: string, q: string)
    requires IsIn(p, u, r) && IsIn(p, u, q)
  {
    || p[r][u].expiresAt > p[q][u].expiresAt
    || (p[r][u].expiresAt == p[q][u].expiresAt && Text.Le(r, q))
  }

  /** `r` is the known room in which the import keeps `u`. */
  predicate Best(p: Presence, known: set<string>, now: int, u: string, r: string) {
    && r in known
    && IsIn(p, u, r)
    && p[r][u].expiresAt > now
    && forall q | q in p :: q in known && u in p[q] ==> Beats(p, u, r, q)
  }

  function Winners(p: Presence, known: set<string>, now: int, r: string): Users
    requires r in p
  {
    map u | u in p[r] && Best(p, known, now, u, r) :: p[r][u]
  }

  function Imported(rooms: seq<Room>, p: Presence, now: int): Presence {
    map r | r in p && Winners(p, Ids(rooms), now, r) != map[] :: Winners(p, Ids(rooms), now, r)
  }

  // ---------- what the import keeps ----------

  lemma ImportedMembers(rooms: seq<Room>, p: Presence, now: int, u: string, r: string)
    ensures IsIn(Imported(rooms, p, now), u, r) <==> Best(p, Ids(rooms), now, u, r)
    ensures IsIn(Imported(rooms, p, now), u, r) ==> Imported(rooms, p, now)[r][u] == p[r][u]
  {
    if r in p && u in Winners(p, Ids(rooms), now, r) {
      assert Winners(p, Ids(rooms), now, r) != map[];
    }
  }

  lemma BestIsUnique(p: Presence, known: set<string>, now: int, u: string, r1: string, r2: string)
    requires Best(p, known, now, u, r1) && Best(p, known, now, u, r2)
    ensures r1 == r2
  {
    assert Beats(p, u, r1, r2) && Beats(p, u, r2, r1);
    Text.LeAntisymmetric(r1, r2);
  }

  /** Among finitely many rooms holding `u`, one beats them all. */
  lemma {:induction false} SomeBeatsAll(p: Presence, u: string, candidates: set<string>) returns (best: string)
    requires candidates != {} && forall r :: r in candidates ==> IsIn(p, u, r)
    ensures best in candidates && forall q :: q in candidates ==> Beats(p, u, best, q)
    decreases |candidates|
  {
    var r :| r in candidates;
    Text.LeTotal(r, r);
    if candidates == {r} {
      return r;
    }
    var rest := candidates - {r};
    assert candidates == rest + {r};
    var b := SomeBeatsAll(p, u, rest);
    Text.LeTotal(r, b);
    if Beats(p, u, b, r) {
      return b;
    }
    forall q | q in rest ensures Beats(p, u, r, q) {
      if p[b][u].expiresAt == p[q][u].expiresAt && p[r][u].expiresAt == p[b][u].expiresAt {
        Text.LeTransitive(r, b, q);
      }
    }
    return r;
  }

  /** The import keeps a user exactly when some known room holds a live entry of theirs, in one room only. */
  lemma ImportKeepsTheLive(rooms: seq<Room>, p: Presence, now: int, u: string)
    ensures (exists r :: IsIn(Imported(rooms, p, now), u, r))
       <==> (exists r :: r in Ids(rooms) && IsIn(p, u, r) && p[r][u].expiresAt > now)
    ensures Exclusive(Imported(rooms, p, now))
  {
    var known := Ids(rooms);
    var q := Imported(rooms, p, now);
    if r :| IsIn(q, u, r) {
      ImportedMembers(rooms, p, now, u, r);
    }
    if r0 :| r0 in known && IsIn(p, u, r0) && p[r0][u].expiresAt > now {
      var candidates := set r | r in p && r in known && u in p[r];
      assert r0 in candidates;
      var r := SomeBeatsAll(p, u, candidates);
      assert Beats(p, u, r, r0);
      assert Best(p, known, now, u, r);
      ImportedMembers(rooms, p, now, u, r);
    }
    forall r1, r2, v | IsIn(q, v, r1) && IsIn(q, v, r2) ensures r1 == r2 {
      ImportedMembers(rooms, p, now, v, r1);
      ImportedMembers(rooms, p, now, v, r2);
      BestIsUnique(p, known, now, v, r1, r2);
    }
  }

  /** Importing the result again at the same time changes nothing. */
  lemma ImportIsIdempotent(rooms: seq<Room>, p: Presence, now: int)
    ensures Imported(rooms, Imported(rooms, p, now), now) == Imported(rooms, p, now)
  {
    var known := Ids(rooms);
    var q := Imported(rooms, p, now);
    ImportKeepsTheLive(rooms, p, now, "");
    forall r, u | IsIn(q, u, r) ensures Best(q, known, now, u, r) {
      ImportedMembers(rooms, p, now, u, r);
      forall s | s in q && s in known && u in q[s] ensures Beats(q, u, r, s) {
        assert IsIn(q, u, s) && IsIn(q, u, r);
        assert s == r;
        Text.LeTotal(r, r);
      }
    }
    forall r | r in q ensures Winners(q, known, now, r) == q[r] && q[r] != map[] {
      forall u | u in q[r] ensures Best(q, known, now, u, r) {
        assert IsIn(q, u, r);
      }
    }
  }

  /** Old values within the limits import to a consistent snapshot. */
  lemma ImportIsConsistent(rooms: seq<Room>, p: Presence, now: int)
    requires DistinctIds(rooms) && |rooms| <= MAX_ROOMS
    requires forall r :: r in p ==> |p[r]| <= MAX_PER_ROOM
    ensures Consistent(Snapshot(rooms, Imported(rooms, p, now)))
  {
    var q := Imported(rooms, p, now);
    ImportKeepsTheLive(rooms, p, now, "");
    forall r | r in q ensures |q[r]| <= MAX_PER_ROOM && r in Ids(rooms) {
      SubmapSize(q[r], p[r]);
      var u :| u in q[r];
      assert Best(p, Ids(rooms), now, u, r);
    }
  }

  // ---------- the loops ----------

  /** What the first loop knows of user `u` once it has visited the rooms in `done`. */
  ghost predicate OwnerFound(p: Presence, known: set<string>, done: set<string>, latest: Users, owner: map<string, string>, u: string)
  {
    if u in owner then
      && owner[u] in done && owner[u] in known && IsIn(p, u, owner[u])
      && u in latest && latest[u] == p[owner[u]][u]
      && forall q :: q in done && q in known && IsIn(p, u, q) ==> Beats(p, u, owner[u], q)
    else
      forall q :: q in done && q in known ==> !IsIn(p, u, q)
  }

  ghost predicate Tracks(p: Presence, known: set<string>, done: set<string>, latest: Users, owner: map<string, string>) {
    && latest.Keys == owner.Keys
    && forall u :: OwnerFound(p, known, done, latest, owner, u)
  }

  /** `u` takes over from whoever owned it before: only a strictly later expiry wins. */
  predicate TakesOver(users: Users, latest0: Users, u: string) {
    u in users && (u !in latest0 || users[u].expiresAt > latest0[u].expiresAt)
  }

  function NextLatest(users: Users, latest0: Users, seen: set<string>): Users {
    map u | u in latest0.Keys + (users.Keys * seen) ::
      if u in seen && TakesOver(users, latest0, u) then users[u] else latest0[u]
  }

  function NextOwner(users: Users, room: string, latest0: Users, owner0: map<string, string>, seen: set<string>): map<string, string>
    requires latest0.Keys == owner0.Keys
  {
    map u | u in latest0.Keys + (users.Keys * seen) ::
      if u in seen && TakesOver(users, latest0, u) then room else owner0[u]
  }

  /** One room's users contend with the owners found so far. */
  method Contend(users: Users, room: string, latest0: Users, owner0: map<string, string>)
    returns (latest: Users, owner: map<string, string>)
    requires latest0.Keys == owner0.Keys
    ensures latest == NextLatest(users, latest0, users.Keys)
    ensures owner == NextOwner(users, room, latest0, owner0, users.Keys)
  {
    latest, owner := latest0, owner0;
    var todo := users.Keys;
    while todo != {}
      invariant todo <= users.Keys
      invariant latest == NextLatest(users, latest0, users.Keys - todo)
      invariant owner == NextOwner(users, room, latest0, owner0, users.Keys - todo)
      decreases |todo|
    {
      var u :| u in todo;
      ContendStep(users, room, latest0, owner0, users.Keys - todo, u);
      assert users.Keys - (todo - {u}) == (users.Keys - todo) + {u};
      if u !in latest || users[u].expiresAt > latest[u].expiresAt {
        latest := latest[u := users[u]];
        owner := owner[u := room];
      }
      todo := todo - {u};
    }
    assert users.Keys - todo == users.Keys;
  }

  lemma ContendStep(users: Users, room: string, latest0: Users, owner0: map<string, string>, seen: set<string>, u: string)
    requires latest0.Keys == owner0.Keys && u in users && u !in seen
    ensures var latest, owner := NextLatest(users, latest0, seen), NextOwner(users, room, latest0, owner0, seen);
            var wins := u !in latest || users[u].expiresAt > latest[u].expiresAt;
            && NextLatest(users, latest0, seen + {u}) == (if wins then latest[u := users[u]] else latest)
            && NextOwner(users, room, latest0, owner0, seen + {u}) == (if wins then owner[u := room] else owner)
  {
  }

  lemma OwnerNext(p: Presence, known: set<string>, done: set<string>, r: string,
                  latest0: Users, owner0: map<string, string>, u: string)
    requires latest0.Keys == owner0.Keys && OwnerFound(p, known, done, latest0, owner0, u)
    requires r in p && r in known && forall q :: q in done ==> Text.Le(q, r)
    ensures OwnerFound(p, known, done + {r}, NextLatest(p[r], latest0, p[r].Keys), NextOwner(p[r], r, latest0, owner0, p[r].Keys), u)
  {
    Text.LeTotal(r, r);
  }

  lemma TracksNext(p: Presence, known: set<string>, done: set<string>, r: string,
                   latest0: Users, owner0: map<string, string>)
    requires Tracks(p, known, done, latest0, owner0)
    requires r in p && r in known && forall q :: q in done ==> Text.Le(q, r)
    ensures Tracks(p, known, done + {r}, NextLatest(p[r], latest0, p[r].Keys), NextOwner(p[r], r, latest0, owner0, p[r].Keys))
  {
    forall u ensures OwnerFound(p, known, done + {r}, NextLatest(p[r], latest0, p[r].Keys), NextOwner(p[r], r, latest0, owner0, p[r].Keys), u) {
      OwnerNext(p, known, done, r, latest0, owner0, u);
    }
  }

  lemma TracksSkip(p: Presence, known: set<string>, done: set<string>, r: string, latest: Users, owner: map<string, string>)
    requires Tracks(p, known, done, latest, owner) && r !in known
    ensures Tracks(p, known, done + {r}, latest, owner)
  {
    forall u ensures OwnerFound(p, known, done + {r}, latest, owner, u) {
      assert OwnerFound(p, known, done, latest, owner, u);
    }
  }

  method SortedRoomIds(p: Presence) returns (ids: seq<string>)
    ensures multiset(ids) == multiset(p.Keys)
    ensures Sorting.Sorted(Text.Le, ids)
  {
    ids := [];
    var todo := p.Keys;
    while todo != {}
      invariant todo <= p.Keys
      invariant multiset(ids) == multiset(p.Keys - todo)
      decreases |todo|
    {
      var r :| r in todo;
      ids := ids + [r];
      todo := todo - {r};
    }
    StringOrder();
    Sorting.SortSorted(Text.Le, ids);
    ids := Sorting.Sort(Text.Le, ids);
  }

  lemma StringOrder()
    ensures Sorting.TotalPreorder(Text.Le)
  {
    forall x, y ensures Text.Le(x, y) || Text.Le(y, x) {
      Text.LeTotal(x, y);
    }
    forall x, y, z | Text.Le(x, y) && Text.Le(y, z) ensures Text.Le(x, z) {
      Text.LeTransitive(x, y, z);
    }
  }

  function SetOf(ids: seq<string>): set<string> {
    set id | id in ids
  }

  lemma KeysOnce(ids: seq<string>, keys: set<string>, i: nat)
    requires multiset(ids) == multiset(keys) && i < |ids|
    ensures ids[i] in keys
    ensures SetOf(ids[i..]) - {ids[i]} == SetOf(ids[i + 1..])
    ensures ids[i] in SetOf(ids[i..])
    ensures SetOf(ids[..i + 1]) == SetOf(ids[..i]) + {ids[i]}
  {
    assert ids[i] in multiset(ids);
    assert ids == ids[..i] + ([ids[i]] + ids[i + 1..]);
    assert ids[i..] == [ids[i]] + ids[i + 1..];
    assert multiset(ids)[ids[i]] == 1;
  }

  lemma AllKeys(ids: seq<string>, keys: set<string>)
    requires multiset(ids) == multiset(keys)
    ensures SetOf(ids) == keys
  {
    forall id ensures id in ids <==> id in keys {
      assert id in ids <==> id in multiset(ids);
    }
  }

  /** The rooms left once the unknown ones among `done` are dropped. */
  function Recognised(start: Presence, known: set<string>, done: set<string>): Presence {
    map r | r in start && (r in done ==> r in known) :: start[r]
  }

  lemma RecogniseStep(start: Presence, known: set<string>, done: set<string>, r: string)
    requires r in start
    ensures Recognised(start, known, done + {r})
         == if r in known then Recognised(start, known, done) else Recognised(start, known, done) - {r}
    ensures r in known ==> r in Recognised(start, known, done) && Recognised(start, known, done)[r] == start[r]
  {
  }

  /** The first loop of normalizeLegacyPresence: drop unknown rooms and find every user's owner. */
  method FindOwners(start: Presence, known: set<string>, ids: seq<string>)
    returns (presence: Presence, owner: map<string, string>, ghost latest: Users)
    requires multiset(ids) == multiset(start.Keys) && Sorting.Sorted(Text.Le, ids)
    ensures presence == Recognised(start, known, start.Keys)
    ensures Tracks(start, known, start.Keys, latest, owner)
  {
    presence, owner := start, map[];
    var best: Users := map[];
    ghost var done: set<string> := {};
    assert presence == Recognised(start, known, done);
    var i := 0;
    while i < |ids|
      invariant 0 <= i <= |ids|
      invariant done == SetOf(ids[..i])
      invariant presence == Recognised(start, known, done)
      invariant Tracks(start, known, done, best, owner)
    {
      var r := ids[i];
      KeysOnce(ids, start.Keys, i);
      RecogniseStep(start, known, done, r);
      if r !in known {
        TracksSkip(start, known, done, r, best, owner);
        presence := presence - {r};
      } else {
        TracksNext(start, known, done, r, best, owner);
        best, owner := Contend(presence[r], r, best, owner);
      }
      done := done + {r};
      i := i + 1;
    }
    AllKeys(ids, start.Keys);
    assert ids[..i] == ids;
    latest := best;
  }

  function OwnedIn(users: Users, room: string, owner: map<string, string>): Users {
    map u | u in users && u in owner && owner[u] == room :: users[u]
  }

  /** The inner loop of the second pass: keep the users this room owns. */
  method KeepOwned(users: Users, room: string, owner: map<string, string>) returns (kept: Users)
    ensures kept == OwnedIn(users, room, owner)
  {
    kept := users;
    var todo := users.Keys;
    while todo != {}
      invariant todo <= users.Keys
      invariant kept == map u | u in users && (u in todo || (u in owner && owner[u] == room)) :: users[u]
      decreases |todo|
    {
      var u :| u in todo;
      if !(u in owner && owner[u] == room) {
        kept := kept - {u};
      }
      todo := todo - {u};
    }
  }

  lemma TodoStep(keys: set<string>, ids: seq<string>, i: nat, r: string)
    requires i < |ids| && r == ids[i] && SetOf(ids[i..]) - {r} == SetOf(ids[i + 1..])
    ensures keys * SetOf(ids[i + 1..]) == keys * SetOf(ids[i..]) - {r}
    ensures r in keys ==> r in keys * SetOf(ids[i..])
    ensures r !in keys ==> keys * SetOf(ids[i..]) - {r} == keys * SetOf(ids[i..])
  {
    assert r in ids[i..];
  }

  /** The second loop of normalizeLegacyPresence: every room keeps the users it owns, and empty rooms go. */
  method DropOthers(base: Presence, ids: seq<string>, keys: set<string>, owner: map<string, string>, ghost target: Presence)
    returns (presence: Presence)
    requires multiset(ids) == multiset(keys) && base.Keys <= keys
    requires target.Keys <= base.Keys
    requires forall r :: r in base ==> OwnedIn(base[r], r, owner) == if r in target then target[r] else map[]
    requires forall r :: r in target ==> target[r] != map[]
    ensures presence == target
  {
    presence := base;
    ghost var todo := base.Keys;
    VoiceDraft.ProgressEnds(base, target);
    AllKeys(ids, keys);
    assert ids[0..] == ids;
    var i := 0;
    while i < |ids|
      invariant 0 <= i <= |ids|
      invariant presence == VoiceDraft.Progress(base, todo, target)
      invariant todo == base.Keys * SetOf(ids[i..])
    {
      var r := ids[i];
      KeysOnce(ids, keys, i);
      TodoStep(base.Keys, ids, i, r);
      if r in presence {
        assert r in todo;
        VoiceDraft.ProgressAt(base, todo, target, r);
        var users := KeepOwned(presence[r], r, owner);
        VoiceDraft.ProgressStep(base, todo, target, r, users);
        presence := presence[r := users];
        if |users| == 0 {
          presence := presence - {r};
        }
        todo := todo - {r};
      }
      i := i + 1;
    }
  }

  lemma OwnerIsBest(p: Presence, known: set<string>, now: int, latest: Users, owner: map<string, string>, u: string, r: string)
    requires Tracks(p, known, p.Keys, latest, owner)
    requires forall q, v :: IsIn(p, v, q) ==> p[q][v].expiresAt > now
    requires r in known && IsIn(p, u, r)
    ensures u in owner && (Best(p, known, now, u, r) <==> owner[u] == r)
  {
    assert OwnerFound(p, known, p.Keys, latest, owner, u);
    var w := owner[u];
    assert Beats(p, u, w, r);
    forall q | q in p && q in known && u in p[q] ensures Beats(p, u, w, q) {
      assert IsIn(p, u, q);
    }
    assert Best(p, known, now, u, w);
    if Best(p, known, now, u, r) {
      BestIsUnique(p, known, now, u, w, r);
    }
  }

  /** Pruning first does not change which room is best. */
  lemma PruneThenImport(rooms: seq<Room>, p: Presence, now: int)
    ensures Imported(rooms, Pruned(p, now), now) == Imported(rooms, p, now)
  {
    var q := Pruned(p, now);
    var known := Ids(rooms);
    forall u, r ensures IsIn(q, u, r) <==> IsIn(p, u, r) && p[r][u].expiresAt > now {
      if r in p && u in Live(p[r], now) {
        assert Live(p[r], now) != map[];
      }
    }
    forall u, r ensures Best(q, known, now, u, r) <==> Best(p, known, now, u, r) {
      if Best(q, known, now, u, r) {
        assert IsIn(p, u, r);
        forall s | s in p && s in known && u in p[s] ensures Beats(p, u, r, s) {
          if p[s][u].expiresAt > now {
            assert IsIn(q, u, s);
          }
        }
      }
      if Best(p, known, now, u, r) {
        assert IsIn(q, u, r);
        forall s | s in q && s in known && u in q[s] ensures Beats(q, u, r, s) {
          assert IsIn(q, u, s);
        }
      }
    }
    forall u, r ensures IsIn(Imported(rooms, q, now), u, r) <==> IsIn(Imported(rooms, p, now), u, r) {
      ImportedMembers(rooms, q, now, u, r);
      ImportedMembers(rooms, p, now, u, r);
    }
    forall u, r | IsIn(Imported(rooms, q, now), u, r)
      ensures Imported(rooms, q, now)[r][u] == Imported(rooms, p, now)[r][u]
    {
      ImportedMembers(rooms, q, now, u, r);
      ImportedMembers(rooms, p, now, u, r);
    }
    SamePresence(Imported(rooms, q, now), Imported(rooms, p, now));
  }

  lemma SamePresence(a: Presence, b: Presence)
    requires forall r :: r in a ==> a[r] != map[]
    requires forall r :: r in b ==> b[r] != map[]
    requires forall u, r :: IsIn(a, u, r) <==> IsIn(b, u, r)
    requires forall u, r :: IsIn(a, u, r) && IsIn(b, u, r) ==> a[r][u] == b[r][u]
    ensures a == b
  {
    forall r ensures r in a <==> r in b {
      if r in a {
        var u :| u in a[r];
        assert IsIn(a, u, r);
      }
      if r in b {
        var u :| u in b[r];
        assert IsIn(b, u, r);
      }
    }
    forall r | r in a ensures a[r] == b[r] {
      forall u ensures u in a[r] <==> u in b[r] {
        assert IsIn(a, u, r) <==> IsIn(b, u, r);
      }
      forall u | u in a[r] ensures a[r][u] == b[r][u] {
        assert IsIn(a, u, r) && IsIn(b, u, r);
      }
    }
  }

  /** normalizeLegacyPresence: whatever order the maps are visited in, the result is the same function of its input. */
  method NormalizeLegacyPresence(rooms: seq<Room>, legacy: Presence, now: int) returns (presence: Presence)
    ensures presence == Imported(rooms, legacy, now)
  {
    var start, _ := VoiceDraft.PruneRooms(legacy, now);
    PruneThenImport(rooms, legacy, now);
    var known := Ids(rooms);
    var ids := SortedRoomIds(start);
    var base, owner, latest := FindOwners(start, known, ids);
    ghost var target := Imported(rooms, start, now);
    AllLive(legacy, now);
    forall r | r in base ensures OwnedIn(base[r], r, owner) == if r in target then target[r] else map[] {
      OwnedAreWinners(start, known, now, latest, owner, r);
    }
    presence := DropOthers(base, ids, start.Keys, owner, target);
  }

  lemma AllLive(legacy: Presence, now: int)
    ensures forall q, v :: IsIn(Pruned(legacy, now), v, q) ==> Pruned(legacy, now)[q][v].expiresAt > now
  {
  }

  lemma OwnedAreWinners(p: Presence, known: set<string>, now: int, latest: Users, owner: map<string, string>, r: string)
    requires Tracks(p, known, p.Keys, latest, owner)
    requires forall q, v :: IsIn(p, v, q) ==> p[q][v].expiresAt > now
    requires r in p && r in known
    ensures OwnedIn(p[r], r, owner) == Winners(p, known, now, r)
  {
    forall u | u in p[r] ensures u in owner && (Best(p, known, now, u, r) <==> owner[u] == r) {
      assert IsIn(p, u, r);
      OwnerIsBest(p, known, now, latest, owner, u, r);
    }
  }
}
