/**
 * DataSync.cs: replication of a node's registered properties from the peer that has authority
 * over it, and the readiness notification peers wait for. Engine calls become data: RPCs sent are
 * appended to `outbox`, `CallDeferred` appends to `deferred`, which `Tick` (the engine's idle
 * flush of deferred calls) drains in order, and subscribed actions are ids recorded in `invoked`
 * when they run.
 */
module DataSync {
  /** A replicated property value (a Godot Variant); an absent property reads as Nil. */
  datatype Variant = Nil | Bool(b: bool) | Int(i: int) | Text(s: string)

  /** A Synchronized subscriber: the self-removing wrapper OnReady installs, or an OnSync action. */
  datatype Subscription = OneShot(action: nat) | Persistent(action: nat)

  /** A pending deferred call: the readiness flush, or an action OnReady deferred. */
  datatype Deferred = Flush | Run(action: nat)

  datatype Target = ToAll | ToPeer(peer: int)
  datatype Rpc = Receive(property: string, value: Variant) | Ping
  datatype Message = Message(target: Target, rpc: Rpc)

  /** The actions of the subscribers, in subscription order. */
  function Actions(subs: seq<Subscription>): (r: seq<nat>)
    ensures |r| == |subs|
    ensures forall k :: 0 <= k < |r| ==> r[k] == subs[k].action
  {
    if subs == [] then [] else [subs[0].action] + Actions(subs[1..])
  }

  /** The subscribers still subscribed after an invocation: the one-shot ones removed themselves. */
  function Persistents(subs: seq<Subscription>): (r: seq<Subscription>)
    ensures forall s :: s in r <==> s in subs && s.Persistent?
  {
    if subs == [] then []
    else if subs[0].Persistent? then [subs[0]] + Persistents(subs[1..])
    else Persistents(subs[1..])
  }

  datatype Drained = Drained(invoked: seq<nat>, subs: seq<Subscription>, flushed: bool)

  /**
   * Running the deferred calls `q` in order against the subscribers `subs`: a deferred action
   * runs; a flush invokes every current subscriber (a snapshot) and leaves the persistent ones.
   */
  function Drain(q: seq<Deferred>, subs: seq<Subscription>): (d: Drained)
    ensures d.flushed <==> Flush in q
    ensures Flush !in q ==> d.subs == subs && |d.invoked| == |q|
  {
    if q == [] then Drained([], subs, false)
    else match q[0]
      case Run(a) =>
        var r := Drain(q[1..], subs);
        Drained([a] + r.invoked, r.subs, r.flushed)
      case Flush =>
        var r := Drain(q[1..], Persistents(subs));
        Drained(Actions(subs) + r.invoked, r.subs, true)
  }

  /** Without a flush, draining runs the deferred actions exactly in queue order. */
  lemma {:induction false} DrainRunsInOrder(q: seq<Deferred>, subs: seq<Subscription>)
    requires Flush !in q
    ensures forall k :: 0 <= k < |q| ==> q[k] == Run(Drain(q, subs).invoked[k])
  {
    if q != [] {
      assert Flush !in q[1..];
      DrainRunsInOrder(q[1..], subs);
      var r := Drain(q[1..], subs);
      assert Drain(q, subs).invoked == [q[0].action] + r.invoked;
      forall k | 0 <= k < |q| ensures q[k] == Run(Drain(q, subs).invoked[k]) {
        if k > 0 {
          assert q[k] == q[1..][k - 1];
        }
      }
    }
  }

  /** Draining two queues one after the other runs the first queue's calls before the second's. */
  lemma {:induction false} DrainSplit(q1: seq<Deferred>, q2: seq<Deferred>, subs: seq<Subscription>)
    ensures Drain(q1 + q2, subs).invoked == Drain(q1, subs).invoked + Drain(q2, Drain(q1, subs).subs).invoked
    ensures Drain(q1 + q2, subs).subs == Drain(q2, Drain(q1, subs).subs).subs
  {
    if q1 == [] {
      assert q1 + q2 == q2;
    } else {
      var q := q1 + q2;
      assert q[0] == q1[0] && q[1..] == q1[1..] + q2;
      match q1[0]
      case Run(a) =>
        DrainSplit(q1[1..], q2, subs);
        var r1 := Drain(q1[1..], subs);
        assert Drain(q1, subs) == Drained([a] + r1.invoked, r1.subs, r1.flushed);
        var r := Drain(q[1..], subs);
        assert Drain(q, subs) == Drained([a] + r.invoked, r.subs, r.flushed);
        assert r.invoked == r1.invoked + Drain(q2, r1.subs).invoked;
        assert [a] + r.invoked == ([a] + r1.invoked) + Drain(q2, r1.subs).invoked;
      case Flush =>
        var p := Persistents(subs);
        DrainSplit(q1[1..], q2, p);
        var r1 := Drain(q1[1..], p);
        assert Drain(q1, subs) == Drained(Actions(subs) + r1.invoked, r1.subs, true);
        var r := Drain(q[1..], p);
        assert Drain(q, subs) == Drained(Actions(subs) + r.invoked, r.subs, true);
        assert r.invoked == r1.invoked + Drain(q2, r1.subs).invoked;
        assert Actions(subs) + r.invoked == (Actions(subs) + r1.invoked) + Drain(q2, r1.subs).invoked;
    }
  }

  /**
   * At the first flush of the queue: the actions deferred before it run first, in queue order;
   * then every subscriber of that moment, in subscription order; then the rest of the queue
   * against the subscribers that remain.
   */
  lemma DrainAtFirstFlush(pre: seq<Deferred>, post: seq<Deferred>, subs: seq<Subscription>)
    requires Flush !in pre
    ensures Drain(pre + [Flush] + post, subs).invoked
      == Drain(pre, subs).invoked + Actions(subs) + Drain(post, Persistents(subs)).invoked
  {
    DrainSplit(pre, [Flush] + post, subs);
    assert pre + [Flush] + post == pre + ([Flush] + post);
    assert ([Flush] + post)[1..] == post;
  }

  /** Number of occurrences of `x` in `s`. */
  function Count(s: seq<nat>, x: nat): nat {
    if s == [] then 0 else (if s[0] == x then 1 else 0) + Count(s[1..], x)
  }

  function CountFlushes(q: seq<Deferred>): nat {
    if q == [] then 0 else (if q[0] == Flush then 1 else 0) + CountFlushes(q[1..])
  }

  lemma {:induction false} CountConcat(a: seq<nat>, b: seq<nat>, x: nat)
    ensures Count(a + b, x) == Count(a, x) + Count(b, x)
  {
    if a == [] {
      assert a + b == b;
    } else {
      assert (a + b)[1..] == a[1..] + b;
      CountConcat(a[1..], b, x);
    }
  }

  /** Appending a new name keeps the names pairwise distinct. */
  lemma DistinctSnoc(order: seq<string>, x: string)
    requires forall i, j :: 0 <= i < j < |order| ==> order[i] != order[j]
    requires x !in order
    ensures forall i, j :: 0 <= i < j < |order + [x]| ==> (order + [x])[i] != (order + [x])[j]
  {
  }

  /** Whether `a` is the action of exactly one subscriber, of the given kind. */
  predicate OnlyOnce(subs: seq<Subscription>, s: Subscription) {
    exists k :: 0 <= k < |subs| && subs[k] == s && forall j :: 0 <= j < |subs| && j != k ==> subs[j].action != s.action
  }

  predicate NoneWith(subs: seq<Subscription>, a: nat) {
    forall j :: 0 <= j < |subs| ==> subs[j].action != a
  }

  lemma {:induction false} ActionsCountNone(subs: seq<Subscription>, a: nat)
    requires NoneWith(subs, a)
    ensures Count(Actions(subs), a) == 0
    ensures NoneWith(Persistents(subs), a)
  {
    if subs != [] {
      ActionsCountNone(subs[1..], a);
      assert Actions(subs) == [subs[0].action] + Actions(subs[1..]);
    }
  }

  /** The single holder of an action stands first. */
  lemma OnceAtHead(subs: seq<Subscription>, s: Subscription)
    requires subs != [] && subs[0] == s && NoneWith(subs[1..], s.action)
    ensures Count(Actions(subs), s.action) == 1
    ensures s.OneShot? ==> NoneWith(Persistents(subs), s.action)
    ensures s.Persistent? ==> OnlyOnce(Persistents(subs), s)
  {
    assert Actions(subs) == [subs[0].action] + Actions(subs[1..]);
    ActionsCountNone(subs[1..], s.action);
    if s.Persistent? {
      assert Persistents(subs) == [s] + Persistents(subs[1..]);
      var p := Persistents(subs);
      forall j | 0 <= j < |p| && j != 0 ensures p[j].action != s.action {
        assert p[j] == Persistents(subs[1..])[j - 1];
      }
    }
  }

  lemma OncePrepend(p: seq<Subscription>, x: Subscription, s: Subscription)
    requires OnlyOnce(p, s) && x.action != s.action
    ensures OnlyOnce([x] + p, s)
  {
    var q := [x] + p;
    var k :| 0 <= k < |p| && p[k] == s && forall j :: 0 <= j < |p| && j != k ==> p[j].action != s.action;
    assert q[k + 1] == s;
    forall j | 0 <= j < |q| && j != k + 1 ensures q[j].action != s.action {
      if j > 0 {
        assert q[j] == p[j - 1];
      }
    }
  }

  lemma NonePrepend(p: seq<Subscription>, x: Subscription, a: nat)
    requires NoneWith(p, a) && x.action != a
    ensures NoneWith([x] + p, a)
  {
    var q := [x] + p;
    forall j | 0 <= j < |q| ensures q[j].action != a {
      if j > 0 {
        assert q[j] == p[j - 1];
      }
    }
  }

  /** A first subscriber with another action changes neither count nor uniqueness. */
  lemma OnceInTail(subs: seq<Subscription>, s: Subscription)
    requires subs != [] && subs[0].action != s.action
    requires Count(Actions(subs[1..]), s.action) == 1
    requires s.OneShot? ==> NoneWith(Persistents(subs[1..]), s.action)
    requires s.Persistent? ==> OnlyOnce(Persistents(subs[1..]), s)
    ensures Count(Actions(subs), s.action) == 1
    ensures s.OneShot? ==> NoneWith(Persistents(subs), s.action)
    ensures s.Persistent? ==> OnlyOnce(Persistents(subs), s)
  {
    assert Actions(subs) == [subs[0].action] + Actions(subs[1..]);
    if subs[0].Persistent? {
      assert Persistents(subs) == [subs[0]] + Persistents(subs[1..]);
      if s.Persistent? {
        OncePrepend(Persistents(subs[1..]), subs[0], s);
      } else {
        NonePrepend(Persistents(subs[1..]), subs[0], s.action);
      }
    } else {
      assert Persistents(subs) == Persistents(subs[1..]);
    }
  }

  lemma {:induction false} ActionsCountOnce(subs: seq<Subscription>, s: Subscription)
    requires OnlyOnce(subs, s)
    ensures Count(Actions(subs), s.action) == 1
    ensures s.OneShot? ==> NoneWith(Persistents(subs), s.action)
    ensures s.Persistent? ==> OnlyOnce(Persistents(subs), s)
  {
    var k :| 0 <= k < |subs| && subs[k] == s && forall j :: 0 <= j < |subs| && j != k ==> subs[j].action != s.action;
    if k == 0 {
      assert NoneWith(subs[1..], s.action) by {
        forall j | 0 <= j < |subs[1..]| ensures subs[1..][j].action != s.action {
          assert subs[1..][j] == subs[j + 1];
        }
      }
      OnceAtHead(subs, s);
    } else {
      assert OnlyOnce(subs[1..], s) by {
        forall j | 0 <= j < |subs[1..]| && j != k - 1 ensures subs[1..][j].action != s.action {
          assert subs[1..][j] == subs[j + 1];
        }
        assert subs[1..][k - 1] == s;
      }
      ActionsCountOnce(subs[1..], s);
      OnceInTail(subs, s);
    }
  }

  /** Nothing runs an action no subscriber and no deferred call holds. */
  lemma {:induction false} DrainWithout(q: seq<Deferred>, subs: seq<Subscription>, a: nat)
    requires NoneWith(subs, a) && Run(a) !in q
    ensures Count(Drain(q, subs).invoked, a) == 0
    ensures NoneWith(Drain(q, subs).subs, a)
  {
    if q != [] {
      assert Run(a) !in q[1..];
      match q[0]
      case Run(b) =>
        DrainWithout(q[1..], subs, a);
        CountConcat([b], Drain(q[1..], subs).invoked, a);
      case Flush =>
        ActionsCountNone(subs, a);
        DrainWithout(q[1..], Persistents(subs), a);
        CountConcat(Actions(subs), Drain(q[1..], Persistents(subs)).invoked, a);
    }
  }

  /**
   * An OnReady action waiting for the flush runs exactly once when the queue holds a flush, and
   * is no longer subscribed afterwards.
   */
  lemma {:induction false} OneShotRunsOnce(q: seq<Deferred>, subs: seq<Subscription>, a: nat)
    requires OnlyOnce(subs, OneShot(a)) && Run(a) !in q && Flush in q
    ensures Count(Drain(q, subs).invoked, a) == 1
    ensures NoneWith(Drain(q, subs).subs, a)
  {
    assert Run(a) !in q[1..];
    match q[0]
    case Run(b) =>
      OneShotRunsOnce(q[1..], subs, a);
      CountConcat([b], Drain(q[1..], subs).invoked, a);
    case Flush =>
      ActionsCountOnce(subs, OneShot(a));
      DrainWithout(q[1..], Persistents(subs), a);
      CountConcat(Actions(subs), Drain(q[1..], Persistents(subs)).invoked, a);
  }

  /** An OnSync action runs once per flush and stays subscribed. */
  lemma {:induction false} PersistentRunsPerFlush(q: seq<Deferred>, subs: seq<Subscription>, a: nat)
    requires OnlyOnce(subs, Persistent(a)) && Run(a) !in q
    ensures Count(Drain(q, subs).invoked, a) == CountFlushes(q)
    ensures OnlyOnce(Drain(q, subs).subs, Persistent(a))
  {
    if q != [] {
      assert Run(a) !in q[1..];
      match q[0]
      case Run(b) =>
        PersistentRunsPerFlush(q[1..], subs, a);
        CountConcat([b], Drain(q[1..], subs).invoked, a);
      case Flush =>
        ActionsCountOnce(subs, Persistent(a));
        PersistentRunsPerFlush(q[1..], Persistents(subs), a);
        CountConcat(Actions(subs), Drain(q[1..], Persistents(subs)).invoked, a);
    }
  }

  /** The replies to a ping: each registered property with its current value, to the pinging peer. */
  function PingReplies(order: seq<string>, values: map<string, Variant>, sender: int): (r: seq<Message>)
    ensures |r| == |order|
    ensures forall k :: 0 <= k < |r| ==> r[k] == Message(ToPeer(sender), Receive(order[k], Get(values, order[k])))
  {
    if order == [] then []
    else
      var last := order[|order| - 1];
      PingReplies(order[..|order| - 1], values, sender) + [Message(ToPeer(sender), Receive(last, Get(values, last)))]
  }

  lemma PingRepliesSnoc(order: seq<string>, p: string, values: map<string, Variant>, sender: int)
    ensures PingReplies(order + [p], values, sender)
      == PingReplies(order, values, sender) + [Message(ToPeer(sender), Receive(p, Get(values, p)))]
  {
    assert (order + [p])[..|order|] == order;
  }

  /** `Source.Get(property)`: Nil for a property the source does not have. */
  function Get(values: map<string, Variant>, property: string): Variant {
    if property in values then values[property] else Nil
  }

  class DataSync {
    /** GetMultiplayerAuthority(): the peer whose values are replicated. */
    const authority: int
    /** Multiplayer.GetUniqueId(): this peer. */
    const localId: int

    /** The source node's properties. */
    var values: map<string, Variant>
    var pingProps: set<string>
    var ready: bool
    var dataReceived: bool
    var subscribers: seq<Subscription>
    var deferred: seq<Deferred>
    var outbox: seq<Message>
    var invoked: seq<nat>

    /** A flush is pending exactly while data received is unflushed, and never twice. */
    ghost predicate Valid()
      reads this
    {
      && (dataReceived <==> Flush in deferred)
      && CountFlushes(deferred) <= 1
    }

    constructor (authority: int, localId: int, values: map<string, Variant>)
      ensures Valid()
      ensures this.authority == authority && this.localId == localId && this.values == values
      ensures pingProps == {} && !ready && !dataReceived
      ensures subscribers == [] && deferred == [] && outbox == [] && invoked == []
    {
      this.authority := authority;
      this.localId := localId;
      this.values := values;
      pingProps := {};
      ready := false;
      dataReceived := false;
      subscribers := [];
      deferred := [];
      outbox := [];
      invoked := [];
    }

    predicate IsMultiplayerAuthority()
      reads this
    {
      authority == localId
    }

    /**
     * _Ready: the authority is ready at once and sends nothing; any other peer sends one ping,
     * to the authority, and waits for its data.
     */
    method OnReadyNode()
      requires Valid()
      modifies this`ready, this`outbox
      ensures Valid()
      ensures IsMultiplayerAuthority() ==> ready && outbox == old(outbox)
      ensures !IsMultiplayerAuthority() ==> ready == old(ready) && outbox == old(outbox) + [Message(ToPeer(authority), Ping)]
    {
      if IsMultiplayerAuthority() {
        ready := true;
        return;
      }
      outbox := outbox + [Message(ToPeer(authority), Ping)];
    }

    /** OnReady: runs the action deferred when already ready, else once on the next flush. */
    method OnReady(action: nat)
      requires Valid()
      modifies this`deferred, this`subscribers
      ensures Valid()
      ensures old(ready) ==> deferred == old(deferred) + [Run(action)] && subscribers == old(subscribers)
      ensures !old(ready) ==> deferred == old(deferred) && subscribers == old(subscribers) + [OneShot(action)]
    {
      if ready {
        deferred := deferred + [Run(action)];
        CountFlushesSnoc(old(deferred), Run(action));
      } else {
        subscribers := subscribers + [OneShot(action)];
      }
    }

    /** OnSync: the action runs on every flush from now on. */
    method OnSync(action: nat)
      modifies this`subscribers
      ensures subscribers == old(subscribers) + [Persistent(action)]
    {
      subscribers := subscribers + [Persistent(action)];
    }

    /** Add: registers the property for ping replies; registering it again changes nothing. */
    method Add(property: string)
      modifies this`pingProps
      ensures pingProps == old(pingProps) + {property}
    {
      pingProps := pingProps + {property};
    }

    /**
     * The change handler Add returns: on the authority, broadcasts the property's current value
     * to the other peers and marks data received locally; elsewhere it does nothing.
     */
    method OnDataChanged(property: string)
      requires Valid()
      modifies this`outbox, this`dataReceived, this`deferred
      ensures Valid()
      ensures !IsMultiplayerAuthority() ==> outbox == old(outbox) && dataReceived == old(dataReceived) && deferred == old(deferred)
      ensures IsMultiplayerAuthority() ==>
        && outbox == old(outbox) + [Message(ToAll, Receive(property, Get(values, property)))]
        && dataReceived
        && deferred == (if old(dataReceived) then old(deferred) else old(deferred) + [Flush])
    {
      if IsMultiplayerAuthority() {
        var value := Get(values, property);
        outbox := outbox + [Message(ToAll, Receive(property, value))];
        OnDataReceived();
      }
    }

    /** RpcReceive from the authority: sets the property, then marks data received. */
    method RpcReceive(sender: int, property: string, value: Variant)
      requires Valid() && sender == authority
      modifies this`values, this`dataReceived, this`deferred
      ensures Valid()
      ensures values == old(values)[property := value]
      ensures dataReceived && deferred == if old(dataReceived) then old(deferred) else old(deferred) + [Flush]
    {
      values := values[property := value];
      OnDataReceived();
    }

    /**
     * RpcPing on the authority: sends each registered property with its current value to the
     * pinging peer only, once each, in the order the set yields them (`order`).
     */
    method RpcPing(sender: int) returns (ghost order: seq<string>)
      requires IsMultiplayerAuthority()
      modifies this`outbox
      ensures forall p :: p in order <==> p in pingProps
      ensures forall i, j :: 0 <= i < j < |order| ==> order[i] != order[j]
      ensures outbox == old(outbox) + PingReplies(order, values, sender)
    {
      var rest := pingProps;
      order := [];
      while rest != {}
        invariant forall p :: p in pingProps <==> p in rest || p in order
        invariant forall p :: p in order ==> p !in rest
        invariant forall i, j :: 0 <= i < j < |order| ==> order[i] != order[j]
        invariant outbox == old(outbox) + PingReplies(order, values, sender)
        decreases rest
      {
        var property := Pick(rest);
        var reply := Message(ToPeer(sender), Receive(property, Get(values, property)));
        PingRepliesSnoc(order, property, values, sender);
        assert old(outbox) + PingReplies(order + [property], values, sender) == outbox + [reply];
        outbox := outbox + [reply];
        DistinctSnoc(order, property);
        order := order + [property];
        rest := rest - {property};
      }
    }

    /** OnDataReceived: schedules one flush; further receipts before it runs are coalesced into it. */
    method OnDataReceived()
      requires Valid()
      modifies this`dataReceived, this`deferred
      ensures Valid()
      ensures dataReceived
      ensures deferred == if old(dataReceived) then old(deferred) else old(deferred) + [Flush]
    {
      if dataReceived {
        return;
      }
      dataReceived := true;
      CountFlushesNone(deferred);
      CountFlushesSnoc(deferred, Flush);
      deferred := deferred + [Flush];
    }

    /** One deferred call of Tick; `rest` is what the queue still holds after it. */
    method RunDeferred(d: Deferred, ghost rest: seq<Deferred>)
      modifies this`ready, this`dataReceived, this`subscribers, this`invoked
      ensures old(invoked) + Drain([d] + rest, old(subscribers)).invoked == invoked + Drain(rest, subscribers).invoked
      ensures Drain([d] + rest, old(subscribers)).subs == Drain(rest, subscribers).subs
      ensures ready == (old(ready) || d == Flush)
      ensures dataReceived == (old(dataReceived) && d != Flush)
    {
      assert ([d] + rest)[1..] == rest;
      match d {
        case Run(a) =>
          invoked := invoked + [a];
        case Flush =>
          ready := true;
          dataReceived := false;
          invoked := invoked + Actions(subscribers);
          subscribers := Persistents(subscribers);
      }
    }

    /**
     * The engine's flush of deferred calls, in order: a deferred action runs; the flush sets
     * ready, clears dataReceived and invokes the Synchronized subscribers once.
     */
    method Tick()
      requires Valid()
      modifies this`deferred, this`ready, this`dataReceived, this`subscribers, this`invoked
      ensures Valid()
      ensures deferred == [] && !dataReceived
      ensures ready == (old(ready) || Flush in old(deferred))
      ensures invoked == old(invoked) + Drain(old(deferred), old(subscribers)).invoked
      ensures subscribers == Drain(old(deferred), old(subscribers)).subs
    {
      var q := deferred;
      var i := 0;
      while i < |q|
        invariant 0 <= i <= |q|
        invariant old(invoked) + Drain(q, old(subscribers)).invoked == invoked + Drain(q[i..], subscribers).invoked
        invariant Drain(q, old(subscribers)).subs == Drain(q[i..], subscribers).subs
        invariant ready == (old(ready) || Flush in q[..i])
        invariant dataReceived == (old(dataReceived) && Flush !in q[..i])
      {
        assert q[i..] == [q[i]] + q[i + 1..];
        assert q[..i + 1] == q[..i] + [q[i]];
        RunDeferred(q[i], q[i + 1..]);
        i := i + 1;
      }
      assert q[..i] == q;
      deferred := [];
    }
  }

  lemma {:induction false} CountFlushesSnoc(q: seq<Deferred>, d: Deferred)
    ensures CountFlushes(q + [d]) == CountFlushes(q) + (if d == Flush then 1 else 0)
  {
    if q == [] {
      assert [d][1..] == [];
    } else {
      assert (q + [d])[1..] == q[1..] + [d];
      CountFlushesSnoc(q[1..], d);
    }
  }

  lemma {:induction false} CountFlushesNone(q: seq<Deferred>)
    requires Flush !in q
    ensures CountFlushes(q) == 0
  {
    if q != [] {
      assert Flush !in q[1..];
      CountFlushesNone(q[1..]);
    }
  }

  /** Some element of a non-empty set (the set's enumeration order is not modelled). */
  method Pick(s: set<string>) returns (x: string)
    requires s != {}
    ensures x in s
  {
    assert exists y :: y in s by {
      if forall y :: y !in s {
        assert false;
      }
    }
    x :| x in s;
  }
}
