/** Per-user limits: a sliding window of admitted requests, filtered in place, and a count of open streams. Times are in nanoseconds. */
module SignalLimits {

  const MINUTE := 60_000_000_000
  const MAX_REQUESTS := 60
  const MAX_SUBSCRIPTIONS := 10

  // ---------- the window ----------

  /** The times later than a minute before `now`. */
  function Recent(times: seq<int>, now: int): (r: seq<int>)
    ensures |r| <= |times|
  {
    if times == [] then [] else
    var front := Recent(times[..|times| - 1], now);
    if times[|times| - 1] > now - MINUTE then front + [times[|times| - 1]] else front
  }

  /** One request against a user's list: the list afterwards, and whether it was admitted. */
  function Allowed(times: seq<int>, now: int): (seq<int>, bool) {
    var kept := Recent(times, now);
    if |kept| >= MAX_REQUESTS then (kept, false) else (kept + [now], true)
  }

  lemma {:induction false} RecentTwice(times: seq<int>, before: int, now: int)
    requires before <= now
    ensures Recent(Recent(times, before), now) == Recent(times, now)
  {
    if times != [] {
      var front, last := times[..|times| - 1], times[|times| - 1];
      RecentTwice(front, before, now);
      if last > before - MINUTE {
        var r := Recent(front, before);
        assert (r + [last])[..|r|] == r;
      }
    }
  }

  lemma RecentAppend(times: seq<int>, at: int, now: int)
    ensures Recent(times + [at], now) == if at > now - MINUTE then Recent(times, now) + [at] else Recent(times, now)
  {
    assert (times + [at])[..|times|] == times;
  }

  /** A user's slice of request times: a backing array and a length. */
  class RequestWindow {
    var buffer: array<int>
    var length: nat

    ghost predicate Valid()
      reads this
    {
      length <= buffer.Length
    }

    function Times(): seq<int>
      requires Valid()
      reads this, buffer
    {
      buffer[..length]
    }

    constructor ()
      ensures Valid() && Times() == [] && fresh(buffer)
    {
      buffer := new int[0];
      length := 0;
    }

    /** The loop over `requests[:0]`: the kept times move to the front of the same array. */
    method FilterInPlace(now: int)
      requires Valid()
      modifies this`length, buffer
      ensures Valid() && buffer == old(buffer)
      ensures Times() == Recent(old(Times()), now)
    {
      ghost var start := Times();
      var kept, i := 0, 0;
      while i < length
        invariant 0 <= kept <= i <= length == |start|
        invariant buffer[..kept] == Recent(start[..i], now)
        invariant forall k :: i <= k < length ==> buffer[k] == start[k]
        modifies buffer
      {
        var at := buffer[i];
        assert start[..i + 1][..i] == start[..i];
        if at > now - MINUTE {
          ghost var front := buffer[..kept];
          buffer[kept] := at;
          assert buffer[..kept + 1] == front + [at];
          kept := kept + 1;
        }
        i := i + 1;
      }
      assert start[..i] == start;
      length := kept;
    }

    /** append(kept, now): into spare capacity when there is some, else into a larger copy. */
    method Append(at: int)
      requires Valid()
      modifies this, buffer
      ensures Valid() && (buffer == old(buffer) || fresh(buffer))
      ensures Times() == old(Times()) + [at]
    {
      if length == buffer.Length {
        var larger := new int[2 * length + 1];
        var i := 0;
        while i < length
          invariant 0 <= i <= length < larger.Length
          invariant larger[..i] == buffer[..i]
          modifies larger
        {
          larger[i] := buffer[i];
          i := i + 1;
        }
        buffer := larger;
      }
      buffer[length] := at;
      length := length + 1;
    }

    method Allow(now: int) returns (ok: bool)
      requires Valid()
      modifies this, buffer
      ensures Valid() && (buffer == old(buffer) || fresh(buffer))
      ensures (Times(), ok) == Allowed(old(Times()), now)
    {
      FilterInPlace(now);
      if length >= MAX_REQUESTS {
        return false;
      }
      Append(now);
      return true;
    }
  }

  // ---------- the limiter against an unbounded log ----------

  datatype Request = Request(user: string, at: int)

  type Lists = map<string, seq<int>>

  function ListOf(lists: Lists, user: string): seq<int> {
    if user in lists then lists[user] else []
  }

  function NextLists(lists: Lists, r: Request): Lists {
    lists[r.user := Allowed(ListOf(lists, r.user), r.at).0]
  }

  /** The limiter's lists after a history of requests. */
  function ListsAfter(history: seq<Request>): Lists
    decreases |history|
  {
    if history == [] then map[] else NextLists(ListsAfter(history[..|history| - 1]), history[|history| - 1])
  }

  function Admits(history: seq<Request>, r: Request): bool {
    Allowed(ListOf(ListsAfter(history), r.user), r.at).1
  }

  /** Every time at which `user` was ever admitted, with nothing forgotten. */
  function Admitted(history: seq<Request>, user: string): seq<int>
    decreases |history|
  {
    if history == [] then [] else
    var front, last := history[..|history| - 1], history[|history| - 1];
    if last.user == user && Admits(front, last) then Admitted(front, user) + [last.at] else Admitted(front, user)
  }

  /** The clock does not run backwards, and has not gone beyond `now`. */
  ghost predicate Ordered(history: seq<Request>, now: int) {
    && (forall i, j :: 0 <= i < j < |history| ==> history[i].at <= history[j].at)
    && (forall i :: 0 <= i < |history| ==> history[i].at <= now)
  }

  lemma {:induction false} ListIsRecentLog(history: seq<Request>, user: string, now: int)
    requires Ordered(history, now)
    ensures Recent(ListOf(ListsAfter(history), user), now) == Recent(Admitted(history, user), now)
    decreases |history|
  {
    if history != [] {
      var front, r := history[..|history| - 1], history[|history| - 1];
      ListIsRecentLog(front, user, now);
      ListIsRecentLog(front, user, r.at);
      if r.user == user {
        var list := ListOf(ListsAfter(front), user);
        RecentTwice(list, r.at, now);
        RecentAppend(Recent(list, r.at), r.at, now);
        RecentAppend(Admitted(front, user), r.at, now);
      }
    }
  }

  /** No list ever holds more than sixty times. */
  lemma {:induction false} ListsBounded(history: seq<Request>, user: string)
    ensures |ListOf(ListsAfter(history), user)| <= 60
    decreases |history|
  {
    if history != [] {
      ListsBounded(history[..|history| - 1], user);
    }
  }

  /** The times in the window that ends at `t`. */
  function InWindow(times: seq<int>, t: int): seq<int> {
    if times == [] then [] else
    var front, last := InWindow(times[..|times| - 1], t), times[|times| - 1];
    if t - 60 * 1_000_000_000 < last <= t then front + [last] else front
  }

  lemma {:induction false} WindowInRecent(times: seq<int>, at: int, t: int)
    requires at <= t && forall k :: 0 <= k < |times| ==> times[k] <= at
    ensures |InWindow(times, t)| <= |Recent(times, at)|
  {
    if times != [] {
      WindowInRecent(times[..|times| - 1], at, t);
    }
  }

  lemma {:induction false} AdmittedBy(history: seq<Request>, user: string, now: int)
    requires Ordered(history, now)
    ensures forall k :: 0 <= k < |Admitted(history, user)| ==> Admitted(history, user)[k] <= now
    decreases |history|
  {
    if history != [] {
      AdmittedBy(history[..|history| - 1], user, now);
    }
  }

  lemma {:induction false} WindowIsRecent(times: seq<int>, now: int)
    requires forall k :: 0 <= k < |times| ==> times[k] <= now
    ensures InWindow(times, now) == Recent(times, now)
  {
    if times != [] {
      WindowIsRecent(times[..|times| - 1], now);
    }
  }

  /** The pruned list gives the answer an unbounded log would: refused exactly when sixty were admitted in the last minute. */
  lemma LimiterMatchesLog(history: seq<Request>, r: Request)
    requires Ordered(history, r.at)
    ensures Admits(history, r) <==> |InWindow(Admitted(history, r.user), r.at)| < 60
    ensures !Admits(history, r) ==> |InWindow(Admitted(history, r.user), r.at)| == 60
  {
    ListIsRecentLog(history, r.user, r.at);
    ListsBounded(history, r.user);
    AdmittedBy(history, r.user, r.at);
    WindowIsRecent(Admitted(history, r.user), r.at);
  }

  /** At most sixty requests of a user are admitted in any window of a minute, wherever it ends. */
  lemma {:induction false} AtMostSixtyAMinute(history: seq<Request>, user: string, now: int, t: int)
    requires Ordered(history, now)
    ensures |InWindow(Admitted(history, user), t)| <= 60
    decreases |history|
  {
    if history != [] {
      var front, r := history[..|history| - 1], history[|history| - 1];
      AtMostSixtyAMinute(front, user, now, t);
      if r.user == user && Admits(front, r) {
        var before := Admitted(front, user);
        assert (before + [r.at])[..|before|] == before;
        if r.at <= t {
          LimiterMatchesLog(front, r);
          AdmittedBy(front, user, r.at);
          WindowIsRecent(before, r.at);
          WindowInRecent(before, r.at, t);
        }
      }
    }
  }

  // ---------- open streams ----------

  type Counts = map<string, int>

  function CountOf(counts: Counts, user: string): int {
    if user in counts then counts[user] else 0
  }

  function Acquire(counts: Counts, user: string): (Counts, bool) {
    if CountOf(counts, user) >= MAX_SUBSCRIPTIONS then (counts, false)
    else (counts[user := CountOf(counts, user) + 1], true)
  }

  function Release(counts: Counts, user: string): Counts {
    if CountOf(counts, user) <= 1 then counts - {user} else counts[user := CountOf(counts, user) - 1]
  }

  /** A stream handler acquires on entry and, only if that worked, releases on the way out. */
  datatype StreamEvent = Opens(id: nat, user: string) | Ends(id: nat)

  datatype Streams = Streams(counts: Counts, open: map<nat, string>)

  function NextStreams(s: Streams, e: StreamEvent): Streams {
    match e
    case Opens(id, user) =>
      if id in s.open || !Acquire(s.counts, user).1 then s
      else Streams(Acquire(s.counts, user).0, s.open[id := user])
    case Ends(id) =>
      if id !in s.open then s else Streams(Release(s.counts, s.open[id]), s.open - {id})
  }

  function StreamsAfter(events: seq<StreamEvent>): Streams
    decreases |events|
  {
    if events == [] then Streams(map[], map[]) else NextStreams(StreamsAfter(events[..|events| - 1]), events[|events| - 1])
  }

  function OpenOf(s: Streams, user: string): set<nat> {
    set id | id in s.open && s.open[id] == user
  }

  /** Whatever opens and ends, each user's count is the number of their open streams, and that is at most ten. */
  lemma {:induction false} CountIsOpenStreams(events: seq<StreamEvent>, user: string)
    ensures CountOf(StreamsAfter(events).counts, user) == |OpenOf(StreamsAfter(events), user)| <= 10
    decreases |events|
  {
    if events != [] {
      var front, e := events[..|events| - 1], events[|events| - 1];
      var before, after := StreamsAfter(front), StreamsAfter(events);
      CountIsOpenStreams(front, user);
      if e.Opens? && after != before {
        assert OpenOf(after, user) == if e.user == user then OpenOf(before, user) + {e.id} else OpenOf(before, user);
      } else if e.Ends? && after != before {
        assert OpenOf(after, user) == if before.open[e.id] == user then OpenOf(before, user) - {e.id} else OpenOf(before, user);
        assert before.open[e.id] == user ==> e.id in OpenOf(before, user);
      }
    }
  }

  /** A stream is opened exactly when its user has fewer than ten open, an ending one is closed, and no other stream changes. */
  lemma OpensUnderTen(events: seq<StreamEvent>, e: StreamEvent)
    ensures e.Opens? ==>
              StreamsAfter(events + [e]).open ==
              if e.id in StreamsAfter(events).open || |OpenOf(StreamsAfter(events), e.user)| >= 10 then StreamsAfter(events).open
              else StreamsAfter(events).open[e.id := e.user]
    ensures e.Ends? ==> StreamsAfter(events + [e]).open == StreamsAfter(events).open - {e.id}
  {
    assert (events + [e])[..|events|] == events;
    if e.Opens? {
      CountIsOpenStreams(events, e.user);
    }
  }

  // ---------- the limiter as an object ----------

  class Limiter {
    var subscriptions: Counts
    var requests: map<string, RequestWindow>

    ghost predicate Valid()
      reads this, requests.Values
    {
      && (forall u :: u in requests ==> requests[u].Valid())
      && (forall u, v :: u in requests && v in requests && u != v ==>
            requests[u] != requests[v] && requests[u].buffer != requests[v].buffer)
    }

    ghost function Footprint(): set<object>
      reads this, requests.Values
    {
      (set u | u in requests :: requests[u] as object) + (set u | u in requests :: requests[u].buffer as object)
    }

    ghost function Value(): Lists
      requires Valid()
      reads this, requests.Values, Footprint()
    {
      map u | u in requests :: requests[u].Times()
    }

    constructor ()
      ensures Valid() && Value() == map[] && subscriptions == map[]
    {
      subscriptions, requests := map[], map[];
    }

    method AcquireSubscription(user: string) returns (ok: bool)
      modifies this`subscriptions
      ensures (subscriptions, ok) == Acquire(old(subscriptions), user)
    {
      var open := if user in subscriptions then subscriptions[user] else 0;
      if open >= MAX_SUBSCRIPTIONS {
        return false;
      }
      subscriptions := subscriptions[user := open + 1];
      return true;
    }

    method ReleaseSubscription(user: string)
      modifies this`subscriptions
      ensures subscriptions == Release(old(subscriptions), user)
    {
      var open := if user in subscriptions then subscriptions[user] else 0;
      if open <= 1 {
        subscriptions := subscriptions - {user};
        return;
      }
      subscriptions := subscriptions[user := open - 1];
    }

    /** An empty slice for a user who has none. */
    method AddWindow(user: string) returns (w: RequestWindow)
      requires Valid() && user !in requests
      modifies this`requests
      ensures Valid() && requests == old(requests)[user := w]
      ensures fresh(w) && fresh(w.buffer) && w.Valid() && w.Times() == []
      ensures Value() == old(Value())[user := []]
    {
      w := new RequestWindow();
      requests := requests[user := w];
    }

    /** Filter and append touch one user's slice only. */
    method AllowIn(user: string, w: RequestWindow, now: int) returns (ok: bool)
      requires Valid() && user in requests && requests[user] == w
      modifies w, w.buffer
      ensures Valid() && (w.buffer == old(w.buffer) || fresh(w.buffer))
      ensures (w.Times(), ok) == Allowed(old(w.Times()), now)
      ensures forall u :: u in requests && u != user ==> requests[u].Times() == old(requests[u].Times())
    {
      ok := w.Allow(now);
    }

    /** The lists once one user's slice has changed and the others have not. */
    lemma ValueIs(lists: Lists)
      requires Valid() && lists.Keys == requests.Keys && forall u :: u in requests ==> requests[u].Times() == lists[u]
      ensures Value() == lists
    {
    }

    /** The same, said of all the lists. */
    method AllowKnown(user: string, now: int) returns (ok: bool)
      requires Valid() && user in requests
      modifies requests[user], requests[user].buffer
      ensures Valid() && (requests[user].buffer == old(requests[user].buffer) || fresh(requests[user].buffer))
      ensures Value() == old(Value())[user := Allowed(old(Value())[user], now).0] && ok == Allowed(old(Value())[user], now).1
    {
      ghost var before := Value();
      ok := AllowIn(user, requests[user], now);
      ValueIs(before[user := Allowed(before[user], now).0]);
    }

    method AllowRequest(user: string, now: int) returns (ok: bool)
      requires Valid()
      modifies this`requests, Footprint()
      ensures Valid()
      ensures Value() == NextLists(old(Value()), Request(user, now))
      ensures ok == Allowed(ListOf(old(Value()), user), now).1
    {
      Footprints(user);
      if user !in requests {
        var _ := AddWindow(user);
      }
      ok := AllowKnown(user, now);
    }

    lemma Footprints(user: string)
      ensures user in requests ==> requests[user] in Footprint() && requests[user].buffer in Footprint()
    {
    }
  }
}
