/** The broker and its subscribers as objects: each method is one pass under the program's locks. */
module SignalBroker {
  import opened SignalMessages

  const BUFFER_SIZE := 64

  /** A subscriber's channel: what is waiting in it, the flag its lock guards, and whether the channel itself is closed. */
  datatype Channel = Channel(queue: seq<Envelope>, closed: bool, shut: bool)

  /** A non-blocking send: dropped when the subscriber is closed or its buffer is full. */
  function Delivered(c: Channel, payload: Envelope): Channel {
    if c.closed || |c.queue| >= BUFFER_SIZE then c else c.(queue := c.queue + [payload])
  }

  class Subscriber {
    var queue: seq<Envelope>
    var closed: bool
    var shut: bool

    function Value(): Channel
      reads this
    {
      Channel(queue, closed, shut)
    }

    /** Outside its lock, a subscriber's flag tells the truth about its channel. */
    predicate Valid()
      reads this
    {
      closed == shut && |queue| <= BUFFER_SIZE
    }

    constructor ()
      ensures Valid() && Value() == Channel([], false, false)
    {
      queue, closed, shut := [], false, false;
    }

    method Deliver(payload: Envelope)
      requires Valid()
      modifies this
      ensures Valid() && Value() == Delivered(old(Value()), payload)
    {
      if closed {
        return;
      }
      assert !shut;  // the send below cannot hit a closed channel
      if |queue| < BUFFER_SIZE {
        queue := queue + [payload];
      }
    }

    method Close()
      requires Valid()
      modifies this
      ensures Valid() && Value() == old(Value()).(closed := true, shut := true)
    {
      if closed {
        return;
      }
      closed := true;
      assert !shut;  // closed once only
      shut := true;
    }
  }

  type Lists = map<string, seq<Subscriber>>

  function ListOf(subs: Lists, topic: string): seq<Subscriber> {
    if topic in subs then subs[topic] else []
  }

  /** The lists without the first occurrence of `s`; an emptied topic goes. */
  function Removed(subs: Lists, topic: string, s: Subscriber): Lists {
    var list := ListOf(subs, topic);
    if s !in list then subs else
    var rest := WithoutFirst(list, s);
    if rest == [] then subs - {topic} else subs[topic := rest]
  }

  function WithoutFirst(list: seq<Subscriber>, s: Subscriber): seq<Subscriber> {
    if list == [] then [] else if list[0] == s then list[1..] else [list[0]] + WithoutFirst(list[1..], s)
  }

  lemma {:induction false} WithoutFirstAt(list: seq<Subscriber>, s: Subscriber, i: nat)
    requires i < |list| && list[i] == s && s !in list[..i]
    ensures WithoutFirst(list, s) == list[..i] + list[i + 1..]
  {
    if i > 0 {
      assert list[0] in list[..i];
      assert list[1..][..i - 1] == list[..i][1..];
      WithoutFirstAt(list[1..], s, i - 1);
    }
  }

  lemma {:induction false} WithoutFirstMembers(list: seq<Subscriber>, s: Subscriber)
    requires forall i, j :: 0 <= i < j < |list| ==> list[i] != list[j]
    ensures forall x :: x in WithoutFirst(list, s) <==> x in list && x != s
    ensures s in list ==> |WithoutFirst(list, s)| == |list| - 1
  {
    if list != [] {
      assert list == [list[0]] + list[1..];
      WithoutFirstMembers(list[1..], s);
    }
  }

  /** Removing a subscriber takes exactly that one off its topic's list, and the topic with its last one; other topics stay. */
  lemma RemovedExactly(subs: Lists, topic: string, s: Subscriber, t: string, x: Subscriber)
    requires forall i, j :: 0 <= i < j < |ListOf(subs, topic)| ==> ListOf(subs, topic)[i] != ListOf(subs, topic)[j]
    requires forall u :: u in subs ==> subs[u] != []
    ensures x in ListOf(Removed(subs, topic, s), t) <==> x in ListOf(subs, t) && !(t == topic && x == s)
    ensures t in Removed(subs, topic, s) ==> t in subs && Removed(subs, topic, s)[t] != []
    ensures t != topic ==> ListOf(Removed(subs, topic, s), t) == ListOf(subs, t)
  {
    WithoutFirstMembers(ListOf(subs, topic), s);
  }

  class Broker {
    var subs: Lists

    ghost predicate Valid()
      reads this, Members()
    {
      && (forall t :: t in subs ==> subs[t] != [])
      && (forall t, i, j :: t in subs && 0 <= i < j < |subs[t]| ==> subs[t][i] != subs[t][j])
      && forall s :: s in Members() ==> s.Valid()
    }

    ghost function Members(): set<Subscriber>
      reads this
    {
      set t, s | t in subs && s in subs[t] :: s
    }

    constructor ()
      ensures Valid() && subs == map[]
    {
      subs := map[];
    }

    method Subscribe(topic: string) returns (s: Subscriber)
      requires Valid()
      modifies this
      ensures Valid() && fresh(s) && s.Value() == Channel([], false, false)
      ensures subs == old(subs)[topic := ListOf(old(subs), topic) + [s]]
    {
      s := new Subscriber();
      subs := subs[topic := ListOf(subs, topic) + [s]];
    }

    /** The search for a subscriber in its topic's list, and its removal. */
    method Leave(topic: string, s: Subscriber)
      requires Valid()
      modifies this
      ensures Valid()
      ensures subs == Removed(old(subs), topic, s)
    {
      var list := ListOf(subs, topic);
      var i := 0;
      while i < |list|
        invariant 0 <= i <= |list|
        invariant s !in list[..i]
        invariant subs == old(subs)
      {
        if list[i] == s {
          WithoutFirstAt(list, s, i);
          var rest := list[..i] + list[i + 1..];
          subs := subs[topic := rest];
          if |rest| == 0 {
            subs := subs - {topic};
          }
          break;
        }
        i := i + 1;
      }
      forall x | x in Members() ensures x.Valid() {
        var t :| t in subs && x in subs[t];
        assert t in old(subs) && x in old(subs)[t];
        assert x in old(Members());
      }
    }

    /** The first call of the returned function: leave the list, then close. */
    method Unsubscribe(topic: string, s: Subscriber)
      requires Valid() && s.Valid()
      modifies this, s
      ensures Valid()
      ensures subs == Removed(old(subs), topic, s)
      ensures s.Value() == old(s.Value()).(closed := true, shut := true)
    {
      Leave(topic, s);
      s.Close();
    }

    /** Copy the list, then offer the payload to each subscriber in it, once. */
    method Publish(topic: string, payload: Envelope)
      requires Valid()
      modifies ListOf(subs, topic)
      ensures Valid()
      ensures forall s :: s in ListOf(subs, topic) ==> s.Value() == Delivered(old(s.Value()), payload)
    {
      var list := ListOf(subs, topic);
      var i := 0;
      while i < |list|
        invariant 0 <= i <= |list|
        invariant forall k :: 0 <= k < i ==> list[k].Value() == Delivered(old(list[k].Value()), payload)
        invariant forall k :: i <= k < |list| ==> list[k].Value() == old(list[k].Value())
        invariant forall s :: s in Members() ==> s.Valid()
      {
        assert topic in subs && list[i] in subs[topic];
        assert list[i] in Members();
        list[i].Deliver(payload);
        i := i + 1;
      }
    }
  }
}
