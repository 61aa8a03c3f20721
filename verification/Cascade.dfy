/** Message cascades end: without new spontaneous sends and without repeated datagrams, every sequence of deliveries and
    losses is finite, under a weight on the datagrams in flight. */
module Cascade {
  import opened Wire
  import opened Relay
  import opened UdpRelay
  import opened CallClient
  import opened Sequences
  import opened UdpNetwork

  /** The steps that only use up datagrams in flight and what they set off. */
  predicate IsDelivery(step: Step) {
    step.LoseUp? || step.LoseDown? || step.ServerReceives? || step.ClientReceives?
  }

  /** n endpoints contain the room, the senders in flight and the clients. */
  ghost predicate Within(s: State, endpoints: set<Endpoint>) {
    s.room <= endpoints && s.clients.Keys <= endpoints && forall d :: d in s.up ==> d.peer in endpoints
  }

  predicate AsksForHeartbeat(d: Datagram) {
    Receive(d.data).Some? && KindOf(Receive(d.data).value) == HEARTBEAT_REQUEST
  }

  // A datagram weighs more than everything its delivery can put in flight.

  function UpWeight(n: nat): nat {
    n + 1
  }

  function DownWeight(n: nat, d: Datagram): nat {
    if AsksForHeartbeat(d) then n + 2 else 1
  }

  function DownWeights(n: nat, ds: seq<Datagram>): nat {
    if ds == [] then 0 else DownWeights(n, ds[..|ds| - 1]) + DownWeight(n, ds[|ds| - 1])
  }

  function Weight(n: nat, s: State): nat {
    UpWeight(n) * |s.up| + DownWeights(n, s.down)
  }

  lemma {:induction false} DownWeightsConcat(n: nat, xs: seq<Datagram>, ys: seq<Datagram>)
    ensures DownWeights(n, xs + ys) == DownWeights(n, xs) + DownWeights(n, ys)
    decreases |ys|
  {
    if ys == [] {
      assert xs + ys == xs;
    } else {
      var last := |ys| - 1;
      assert xs + ys == (xs + ys[..last]) + [ys[last]];
      DownWeightsConcat(n, xs, ys[..last]);
    }
  }

  lemma DownWeightsRemove(n: nat, xs: seq<Datagram>, i: nat)
    requires i < |xs|
    ensures DownWeights(n, Remove(xs, i)) == DownWeights(n, xs) - DownWeight(n, xs[i])
  {
    assert xs == xs[..i] + [xs[i]] + xs[i + 1..];
    assert DownWeights(n, [xs[i]]) == DownWeight(n, xs[i]) by { assert [xs[i]][..0] == []; }
    DownWeightsConcat(n, xs[..i], xs[i + 1..]);
    DownWeightsConcat(n, xs[..i], [xs[i]]);
    DownWeightsConcat(n, xs[..i] + [xs[i]], xs[i + 1..]);
  }

  lemma {:induction false} LightWeights(n: nat, xs: seq<Datagram>)
    requires forall d :: d in xs ==> !AsksForHeartbeat(d)
    ensures DownWeights(n, xs) == |xs|
  {
    if xs != [] {
      assert xs[|xs| - 1] in xs;
      LightWeights(n, xs[..|xs| - 1]);
    }
  }

  /** One datagram sets off at most as many replies as there are endpoints, and no reply asks for a heartbeat. */
  lemma {:induction false} RepliesAreLight(mode: Mode, s: State, i: nat, stamp: Stamp, replies: seq<Datagram>,
                                           endpoints: set<Endpoint>)
    requires Enabled(mode, s, ServerReceives(i, stamp, replies)) && Within(s, endpoints)
    ensures |replies| <= |endpoints|
    ensures forall d :: d in replies ==> !AsksForHeartbeat(d)
  {
    var u := s.up[i];
    assert u in s.up;
    assert |replies| == |multiset(replies)|;
    Subset({u.peer}, endpoints);
    Subset(s.room - {u.peer}, endpoints);
    ReplyCount(mode, s.room, u, stamp);
    forall d | d in replies ensures !AsksForHeartbeat(d) {
      assert d in multiset(replies);
      OnlyMediaIsForwarded(mode, s.room, u, stamp, d);
      TruncatedWellFormed(d.data);
    }
  }

  lemma {:induction false} Subset<T>(a: set<T>, b: set<T>)
    requires a <= b
    ensures |a| <= |b|
  {
    if a != {} {
      var x :| x in a;
      Subset(a - {x}, b - {x});
    }
  }

  lemma HearLightens(s: State, i: nat, stamp: Stamp, endpoints: set<Endpoint>)
    requires i < |s.down| && Within(s, endpoints)
    ensures var t := Hear(s.(down := Remove(s.down, i)), s.down[i], stamp);
      Within(t, endpoints) && Weight(|endpoints|, t) < Weight(|endpoints|, s)
  {
    var n, d := |endpoints|, s.down[i];
    DownWeightsRemove(n, s.down, i);
    var s1 := s.(down := Remove(s.down, i));
    var t := Hear(s1, d, stamp);
    if t != s1 {
      var more := FromClient(d.peer, Answers(Receive(d.data).value, stamp));
      assert t.up == s.up + more && |more| <= 1 && (more != [] ==> AsksForHeartbeat(d));
      WeightOfMore(n, |s.up|, |more|);
    }
  }

  lemma WeightOfMore(n: nat, k: nat, more: nat)
    ensures UpWeight(n) * (k + more) == UpWeight(n) * k + UpWeight(n) * more
  {
  }

  lemma LoseLightens(s: State, i: nat, endpoints: set<Endpoint>)
    requires i < |s.up| && Within(s, endpoints)
    ensures var t := s.(up := Remove(s.up, i));
      Within(t, endpoints) && Weight(|endpoints|, t) == Weight(|endpoints|, s) - UpWeight(|endpoints|)
  {
    var n, t := |endpoints|, s.(up := Remove(s.up, i));
    assert UpWeight(n) * |t.up| == UpWeight(n) * |s.up| - UpWeight(n);
    forall x | x in t.up ensures x in s.up { RemoveKeeps(s.up, i, x); }
  }

  lemma {:induction false} DeliveryLightens(mode: Mode, s: State, step: Step, endpoints: set<Endpoint>)
    requires Enabled(mode, s, step) && IsDelivery(step) && Within(s, endpoints)
    ensures Within(Apply(mode, s, step), endpoints)
    ensures Weight(|endpoints|, Apply(mode, s, step)) < Weight(|endpoints|, s)
  {
    hide DownWeights, ServeReplies, Hear;
    match step
    case LoseUp(i) => LoseLightens(s, i, endpoints);
    case LoseDown(i) => DownWeightsRemove(|endpoints|, s.down, i);
    case ServerReceives(i, stamp, replies) =>
      LoseLightens(s, i, endpoints);
      RepliesAreLight(mode, s, i, stamp, replies, endpoints);
      DownWeightsConcat(|endpoints|, s.down, replies);
      LightWeights(|endpoints|, replies);
      assert s.up[i] in s.up;
    case ClientReceives(i, stamp) => HearLightens(s, i, stamp, endpoints);
  }

  /** From any state whatever, in both modes: a sequence of deliveries and losses is no longer than the weight it uses
      up. */
  lemma {:induction false} CascadesEnd(mode: Mode, s: State, steps: seq<Step>, t: State, endpoints: set<Endpoint>)
    requires Reaches(mode, s, steps, t) && Within(s, endpoints)
    requires forall step :: step in steps ==> IsDelivery(step)
    ensures |steps| <= Weight(|endpoints|, s) - Weight(|endpoints|, t)
    decreases |steps|
  {
    if steps != [] {
      DeliveryLightens(mode, s, steps[0], endpoints);
      CascadesEnd(mode, Apply(mode, s, steps[0]), steps[1..], t, endpoints);
    }
  }

  /** From a state of a run: a cascade takes at most n + 1 steps per datagram on its way to the server and one step per
      datagram on its way back. */
  lemma CascadesOfRunsEnd(mode: Mode, s0: State, run: seq<Step>, s: State, steps: seq<Step>, t: State,
                          endpoints: set<Endpoint>)
    requires Initial(s0) && Reaches(mode, s0, run, s) && Reaches(mode, s, steps, t)
    requires s.room <= endpoints && s.clients.Keys <= endpoints && forall d :: d in s.up ==> d.peer in endpoints
    requires forall step :: step in steps ==>
               step.LoseUp? || step.LoseDown? || step.ServerReceives? || step.ClientReceives?
    ensures |steps| <= (|endpoints| + 1) * |s.up| + |s.down|
  {
    RunKeepsInv(mode, s0, run, s);
    forall d | d in s.down ensures !AsksForHeartbeat(d) { TruncatedWellFormed(d.data); }
    LightWeights(|endpoints|, s.down);
    CascadesEnd(mode, s, steps, t, endpoints);
  }

  /** Deliveries do not get stuck: as long as something is in flight towards the server, the server can receive it. */
  lemma ServerCanReceive(mode: Mode, s: State, i: nat, stamp: Stamp) returns (replies: seq<Datagram>)
    requires i < |s.up|
    ensures Enabled(mode, s, ServerReceives(i, stamp, replies))
  {
    replies := Listing(ServeReplies(mode, s.room, s.up[i], stamp));
  }

  lemma Listing(ds: multiset<Datagram>) returns (xs: seq<Datagram>)
    ensures multiset(xs) == ds
  {
    if ds == multiset{} {
      xs := [];
    } else {
      var d :| d in ds;
      xs := Listing(ds - multiset{d});
      xs := xs + [d];
    }
  }
}
