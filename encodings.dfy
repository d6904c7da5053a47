/**
 The bridge's registry of SSRC associations (primary SSRC, secondary SSRC,
 association type) per endpoint, which publishes each new association to
 every subscribed listener and replays the existing ones to a new
 subscriber. Listener callbacks are recorded as entries of a notification
 log.
 */
module Encodings {

  /** Java `long` range. */
  type Long = x: int | -0x8000_0000_0000_0000 <= x <= 0x7fff_ffff_ffff_ffff

  /** The kinds of association between a primary and a secondary SSRC. */
  datatype SsrcAssociationType = Rtx | Fec

  datatype SsrcAssociation = SsrcAssociation(primarySsrc: Long, secondarySsrc: Long, assocType: SsrcAssociationType)

  /** The identity of a subscribed listener object. */
  type ListenerId = nat

  /** One call of a listener's `onNewSsrcAssociation` callback. */
  datatype Notification = Notification(
    listener: ListenerId,
    epId: string,
    primarySsrc: Long,
    secondarySsrc: Long,
    assocType: SsrcAssociationType)

  type Associations = map<string, seq<SsrcAssociation>>

  /** The callback telling `l` about association `a` of endpoint `ep`. */
  function Notify(l: ListenerId, ep: string, a: SsrcAssociation): Notification
  {
    Notification(l, ep, a.primarySsrc, a.secondarySsrc, a.assocType)
  }

  /** The association a notification carries. */
  function AssociationOf(n: Notification): SsrcAssociation
  {
    SsrcAssociation(n.primarySsrc, n.secondarySsrc, n.assocType)
  }

  /** `ep`'s list, or the empty list when `ep` has none yet. */
  function ListOf(m: Associations, ep: string): seq<SsrcAssociation>
  {
    if ep in m then m[ep] else []
  }

  /** `order` visits every element of `s` exactly once. */
  ghost predicate Enumerates<T(!new)>(order: seq<T>, s: set<T>)
  {
    && (forall i, j :: 0 <= i < j < |order| ==> order[i] != order[j])
    && (forall x :: x in order <==> x in s)
  }

  /** `a` is a final segment of `b`. */
  predicate IsSuffix<T(==)>(a: seq<T>, b: seq<T>)
  {
    |a| <= |b| && b[|b| - |a|..] == a
  }

  // ---------------------------------------------------------------------------
  // Specification of the stored state

  /** The association map after `a` is appended to `ep`'s list. */
  function Appended(m: Associations, ep: string, a: SsrcAssociation): (r: Associations)
    ensures r.Keys == m.Keys + {ep}
    ensures Extends(m, r)
    ensures |r[ep]| == |ListOf(m, ep)| + 1 && r[ep][|r[ep]| - 1] == a
  {
    m[ep := ListOf(m, ep) + [a]]
  }

  /** The slots (endpoint, index) of all stored associations. */
  function Positions(m: Associations): set<(string, int)>
  {
    set ep, i | ep in m && 0 <= i < |m[ep]| :: (ep, i)
  }

  /** `m'` keeps every endpoint of `m` and every list of `m` as a prefix of its own. */
  predicate Extends(m: Associations, m': Associations)
  {
    forall ep :: ep in m ==> ep in m' && m[ep] <= m'[ep]
  }

  /**
   Appending an association removes nothing: the old map is extended, the
   new list for `ep` ends in `a`, no other endpoint's list changes, and
   exactly one slot is added to the stored associations.
   */
  lemma AppendedGrowsByOne(m: Associations, ep: string, a: SsrcAssociation)
    ensures Extends(m, Appended(m, ep, a))
    ensures ep in Appended(m, ep, a) && Appended(m, ep, a)[ep] == ListOf(m, ep) + [a]
    ensures forall e :: e != ep ==> ListOf(Appended(m, ep, a), e) == ListOf(m, e)
    ensures Positions(Appended(m, ep, a)) == Positions(m) + {(ep, |ListOf(m, ep)|)}
    ensures |Positions(Appended(m, ep, a))| == |Positions(m)| + 1
  {
    var m' := Appended(m, ep, a);
    var slot := (ep, |ListOf(m, ep)|);
    forall p | p in Positions(m')
      ensures p in Positions(m) + {slot}
    {
      if p != slot {
        assert p.0 in m && 0 <= p.1 < |m[p.0]|;
      }
    }
    assert slot !in Positions(m);
  }

  /** `Extends` is a preorder: a chain of additions still removes nothing. */
  lemma ExtendsTransitive(m1: Associations, m2: Associations, m3: Associations)
    requires Extends(m1, m2) && Extends(m2, m3)
    ensures Extends(m1, m3)
    ensures Positions(m1) <= Positions(m3)
  {
    forall p | p in Positions(m1)
      ensures p in Positions(m3)
    {
      assert p.0 in m2 && p.0 in m3;
    }
  }

  // ---------------------------------------------------------------------------
  // Specification of the notifications

  /** The notifications for a new association, one per listener in the order `order` visits them. */
  function Announce(order: seq<ListenerId>, ep: string, a: SsrcAssociation): (r: seq<Notification>)
    ensures |r| == |order|
  {
    seq(|order|, i requires 0 <= i < |order| => Notify(order[i], ep, a))
  }

  /** The notifications telling `l` about each association of `assocs`, in list order. */
  function Notes(l: ListenerId, ep: string, assocs: seq<SsrcAssociation>): (r: seq<Notification>)
    ensures |r| == |assocs|
  {
    seq(|assocs|, i requires 0 <= i < |assocs| => Notify(l, ep, assocs[i]))
  }

  /**
   The replay to a new subscriber `l`: the endpoints in the order `order`
   visits them and, for each, its associations in list order.
   */
  function Replay(l: ListenerId, m: Associations, order: seq<string>): (r: seq<Notification>)
    requires forall ep :: ep in order ==> ep in m
    ensures forall n :: n in r ==> n.listener == l && n.epId in order
  {
    if order == [] then []
    else
      var ep := order[|order| - 1];
      Replay(l, m, order[..|order| - 1]) + Notes(l, ep, m[ep])
  }

  lemma NotesStep(l: ListenerId, ep: string, assocs: seq<SsrcAssociation>, j: int)
    requires 0 <= j < |assocs|
    ensures Notes(l, ep, assocs[..j + 1]) == Notes(l, ep, assocs[..j]) + [Notify(l, ep, assocs[j])]
  {
  }

  lemma ReplayStep(l: ListenerId, m: Associations, order: seq<string>, ep: string)
    requires forall e :: e in order ==> e in m
    requires ep in m
    ensures Replay(l, m, order + [ep]) == Replay(l, m, order) + Notes(l, ep, m[ep])
  {
    assert (order + [ep])[..|order|] == order;
  }

  /** The notifications of `log` addressed to `l`, in log order. */
  function To(log: seq<Notification>, l: ListenerId): seq<Notification>
  {
    if log == [] then []
    else
      var n := log[|log| - 1];
      To(log[..|log| - 1], l) + (if n.listener == l then [n] else [])
  }

  /** The associations of endpoint `ep` that `log` delivered to `l`, in log order. */
  function About(log: seq<Notification>, l: ListenerId, ep: string): seq<SsrcAssociation>
  {
    if log == [] then []
    else
      var n := log[|log| - 1];
      About(log[..|log| - 1], l, ep) + (if n.listener == l && n.epId == ep then [AssociationOf(n)] else [])
  }

  lemma {:induction false} ToAppend(a: seq<Notification>, b: seq<Notification>, l: ListenerId)
    ensures To(a + b, l) == To(a, l) + To(b, l)
  {
    if b != [] {
      var b0 := b[..|b| - 1];
      assert (a + b)[..|a + b| - 1] == a + b0;
      ToAppend(a, b0, l);
    } else {
      assert a + b == a;
    }
  }

  lemma {:induction false} AboutAppend(a: seq<Notification>, b: seq<Notification>, l: ListenerId, ep: string)
    ensures About(a + b, l, ep) == About(a, l, ep) + About(b, l, ep)
  {
    if b != [] {
      var b0 := b[..|b| - 1];
      assert (a + b)[..|a + b| - 1] == a + b0;
      AboutAppend(a, b0, l, ep);
    } else {
      assert a + b == a;
    }
  }

  /** Every association `log` delivered to `l` about `ep` is a notification of `log`. */
  lemma {:induction false} AboutIsDelivered(log: seq<Notification>, l: ListenerId, ep: string, a: SsrcAssociation)
    requires a in About(log, l, ep)
    ensures Notify(l, ep, a) in log
  {
    var log0 := log[..|log| - 1];
    var n := log[|log| - 1];
    if a in About(log0, l, ep) {
      AboutIsDelivered(log0, l, ep, a);
      assert log0 <= log;
    } else {
      assert n == Notify(l, ep, a);
    }
  }

  /**
   Announcing to an enumeration of the listeners reaches each of them
   exactly once, with exactly the new association, and nobody else.
   */
  lemma {:induction false} AnnounceReachesEachOnce(order: seq<ListenerId>, ep: string, a: SsrcAssociation, l: ListenerId)
    requires forall i, j :: 0 <= i < j < |order| ==> order[i] != order[j]
    ensures To(Announce(order, ep, a), l) == if l in order then [Notify(l, ep, a)] else []
  {
    if order != [] {
      var order0 := order[..|order| - 1];
      assert Announce(order, ep, a)[..|order| - 1] == Announce(order0, ep, a);
      AnnounceReachesEachOnce(order0, ep, a, l);
      assert l in order <==> l in order0 || l == order[|order| - 1];
      if l in order0 {
        var k :| 0 <= k < |order0| && order0[k] == l;
        assert order[k] == l;
      }
    }
  }

  /** What an announcement tells `l` about endpoint `e`. */
  lemma {:induction false} AboutAnnounce(order: seq<ListenerId>, ep: string, a: SsrcAssociation, l: ListenerId, e: string)
    requires forall i, j :: 0 <= i < j < |order| ==> order[i] != order[j]
    ensures About(Announce(order, ep, a), l, e) == if l in order && e == ep then [a] else []
  {
    if order != [] {
      var order0 := order[..|order| - 1];
      assert Announce(order, ep, a)[..|order| - 1] == Announce(order0, ep, a);
      AboutAnnounce(order0, ep, a, l, e);
      assert l in order <==> l in order0 || l == order[|order| - 1];
      if l in order0 {
        var k :| 0 <= k < |order0| && order0[k] == l;
        assert order[k] == l;
      }
    }
  }

  /** The notes for one endpoint tell `l` exactly that endpoint's list, in order. */
  lemma {:induction false} AboutNotes(l: ListenerId, ep: string, assocs: seq<SsrcAssociation>, l': ListenerId, e: string)
    ensures About(Notes(l, ep, assocs), l', e) == if l' == l && e == ep then assocs else []
  {
    if assocs != [] {
      var assocs0 := assocs[..|assocs| - 1];
      assert Notes(l, ep, assocs)[..|assocs| - 1] == Notes(l, ep, assocs0);
      AboutNotes(l, ep, assocs0, l', e);
    }
  }

  /**
   Whatever order the endpoints are replayed in, the subscriber is told
   every stored list, each in its own order, and nothing else.
   */
  lemma {:induction false} ReplayTellsEachList(l: ListenerId, m: Associations, order: seq<string>, l': ListenerId, e: string)
    requires forall i, j :: 0 <= i < j < |order| ==> order[i] != order[j]
    requires forall ep :: ep in order ==> ep in m
    ensures About(Replay(l, m, order), l', e) == if l' == l && e in order then m[e] else []
  {
    if order != [] {
      var order0 := order[..|order| - 1];
      var ep := order[|order| - 1];
      ReplayTellsEachList(l, m, order0, l', e);
      AboutAppend(Replay(l, m, order0), Notes(l, ep, m[ep]), l', e);
      AboutNotes(l, ep, m[ep], l', e);
      assert e in order <==> e in order0 || e == ep;
      if e in order0 {
        var k :| 0 <= k < |order0| && order0[k] == e;
        assert order[k] == e;
      }
    }
  }

  /** A replay is addressed to the subscriber alone. */
  lemma {:induction false} ReplayOnlyToSubscriber(l: ListenerId, m: Associations, order: seq<string>, l': ListenerId)
    requires forall ep :: ep in order ==> ep in m
    requires l' != l
    ensures To(Replay(l, m, order), l') == []
  {
    var r := Replay(l, m, order);
    if r != [] {
      ToNone(r, l');
    }
  }

  lemma {:induction false} ToNone(log: seq<Notification>, l: ListenerId)
    requires forall n :: n in log ==> n.listener != l
    ensures To(log, l) == []
  {
    if log != [] {
      var log0 := log[..|log| - 1];
      assert forall n :: n in log0 ==> n in log;
      ToNone(log0, l);
    }
  }

  /** The replay holds one notification per stored association. */
  lemma {:induction false} ReplayCountsEveryAssociation(l: ListenerId, m: Associations, order: seq<string>)
    requires Enumerates(order, m.Keys)
    ensures |Replay(l, m, order)| == |Positions(m)|
  {
    ReplayCountsPrefix(l, m, order);
    assert PositionsIn(m, set ep | ep in order) == Positions(m);
  }

  /** The slots of the stored associations of the endpoints in `keys`. */
  function PositionsIn(m: Associations, keys: set<string>): set<(string, int)>
  {
    set ep, i | ep in keys && ep in m && 0 <= i < |m[ep]| :: (ep, i)
  }

  lemma {:induction false} ReplayCountsPrefix(l: ListenerId, m: Associations, order: seq<string>)
    requires forall i, j :: 0 <= i < j < |order| ==> order[i] != order[j]
    requires forall ep :: ep in order ==> ep in m
    ensures |Replay(l, m, order)| == |PositionsIn(m, set ep | ep in order)|
  {
    if order == [] {
      assert PositionsIn(m, set ep | ep in order) == {};
    } else {
      var order0 := order[..|order| - 1];
      var ep := order[|order| - 1];
      ReplayCountsPrefix(l, m, order0);
      var keys0 := set e | e in order0;
      var row := set i | 0 <= i < |m[ep]| :: (ep, i);
      assert ep !in keys0;
      assert (set e | e in order) == keys0 + {ep};
      assert PositionsIn(m, keys0 + {ep}) == PositionsIn(m, keys0) + row;
      assert PositionsIn(m, keys0) !! row;
      RowSize(ep, |m[ep]|);
    }
  }

  lemma {:induction false} RowSize(ep: string, n: nat)
    ensures |set i | 0 <= i < n :: (ep, i)| == n
  {
    if n > 0 {
      RowSize(ep, n - 1);
      assert (set i | 0 <= i < n :: (ep, i)) == (set i | 0 <= i < n - 1 :: (ep, i)) + {(ep, n - 1)};
    } else {
      assert (set i | 0 <= i < n :: (ep, i)) == {};
    }
  }

  // ---------------------------------------------------------------------------
  // The invariant the manager keeps

  /**
   Every subscribed listener has been told every stored list: the last
   notifications it received about each endpoint are exactly that
   endpoint's associations, in order.
   */
  ghost predicate Informed(m: Associations, listeners: set<ListenerId>, log: seq<Notification>)
  {
    forall l, ep :: l in listeners && ep in m ==> IsSuffix(m[ep], About(log, l, ep))
  }

  /** An informed listener has received a notification for every stored association. */
  lemma InformedOfEachAssociation(m: Associations, listeners: set<ListenerId>, log: seq<Notification>,
                                  l: ListenerId, ep: string, i: int)
    requires Informed(m, listeners, log)
    requires l in listeners && ep in m && 0 <= i < |m[ep]|
    ensures Notify(l, ep, m[ep][i]) in log
  {
    var about := About(log, l, ep);
    assert about[|about| - |m[ep]| + i] == m[ep][i];
    AboutIsDelivered(log, l, ep, m[ep][i]);
  }

  /** Appending the same element to both sides keeps a suffix a suffix. */
  lemma SuffixExtend<T>(a: seq<T>, b: seq<T>, x: T)
    requires IsSuffix(a, b)
    ensures IsSuffix(a + [x], b + [x])
  {
    assert (b + [x])[|b + [x]| - |a + [x]|..] == b[|b| - |a|..] + [x];
  }

  /** One listener and one endpoint of `AddKeepsInformed`. */
  lemma AddKeepsListenerInformed(m: Associations, log: seq<Notification>, order: seq<ListenerId>,
                                 ep: string, a: SsrcAssociation, l: ListenerId, e: string)
    requires forall i, j :: 0 <= i < j < |order| ==> order[i] != order[j]
    requires l in order && e in Appended(m, ep, a)
    requires e in m ==> IsSuffix(m[e], About(log, l, e))
    ensures IsSuffix(Appended(m, ep, a)[e], About(log + Announce(order, ep, a), l, e))
  {
    var about := About(log, l, e);
    AboutAppend(log, Announce(order, ep, a), l, e);
    AboutAnnounce(order, ep, a, l, e);
    if e == ep {
      if ep in m {
        SuffixExtend(m[e], about, a);
      } else {
        assert (about + [a])[|about + [a]| - 1..] == [a];
      }
    } else {
      assert about + [] == about;
    }
  }

  /** Adding an association and announcing it to all listeners keeps them informed. */
  lemma AddKeepsInformed(m: Associations, listeners: set<ListenerId>, log: seq<Notification>,
                         order: seq<ListenerId>, ep: string, a: SsrcAssociation)
    requires Informed(m, listeners, log)
    requires Enumerates(order, listeners)
    ensures Informed(Appended(m, ep, a), listeners, log + Announce(order, ep, a))
  {
    forall l, e | l in listeners && e in Appended(m, ep, a)
      ensures IsSuffix(Appended(m, ep, a)[e], About(log + Announce(order, ep, a), l, e))
    {
      AddKeepsListenerInformed(m, log, order, ep, a, l, e);
    }
  }

  /** Subscribing `l` and replaying the stored lists to it keeps every listener informed. */
  lemma SubscribeKeepsInformed(m: Associations, listeners: set<ListenerId>, log: seq<Notification>,
                               l: ListenerId, order: seq<string>)
    requires Informed(m, listeners, log)
    requires Enumerates(order, m.Keys)
    ensures Informed(m, listeners + {l}, log + Replay(l, m, order))
  {
    var log' := log + Replay(l, m, order);
    forall l', e | l' in listeners + {l} && e in m
      ensures IsSuffix(m[e], About(log', l', e))
    {
      AboutAppend(log, Replay(l, m, order), l', e);
      ReplayTellsEachList(l, m, order, l', e);
      if l' != l {
        assert About(log', l', e) == About(log, l', e);
      }
    }
  }

  // ---------------------------------------------------------------------------
  // The manager

  class EncodingsManager {
    var ssrcAssociations: Associations
    var listeners: set<ListenerId>
    /** Every listener callback made so far, in call order. */
    ghost var log: seq<Notification>

    ghost predicate Valid()
      reads this
    {
      Informed(ssrcAssociations, listeners, log)
    }

    constructor ()
      ensures Valid()
      ensures ssrcAssociations == map[] && listeners == {} && log == []
    {
      ssrcAssociations := map[];
      listeners := {};
      log := [];
    }

    /**
     Appends the association to `epId`'s list and notifies every listener
     once, in the order `order` (the set's iteration order) visits them.
     */
    method AddSsrcAssociation(epId: string, primarySsrc: Long, secondarySsrc: Long, assocType: SsrcAssociationType)
      returns (ghost order: seq<ListenerId>)
      requires Valid()
      modifies this
      ensures Valid()
      ensures ssrcAssociations ==
        Appended(old(ssrcAssociations), epId, SsrcAssociation(primarySsrc, secondarySsrc, assocType))
      ensures listeners == old(listeners)
      ensures Enumerates(order, listeners)
      ensures log == old(log) + Announce(order, epId, SsrcAssociation(primarySsrc, secondarySsrc, assocType))
    {
      var a := SsrcAssociation(primarySsrc, secondarySsrc, assocType);
      var epSsrcAssociations := if epId in ssrcAssociations then ssrcAssociations[epId] else [];
      ssrcAssociations := ssrcAssociations[epId := epSsrcAssociations + [a]];

      order := [];
      var remaining := listeners;
      while remaining != {}
        modifies this`log
        invariant remaining <= listeners
        invariant forall i, j :: 0 <= i < j < |order| ==> order[i] != order[j]
        invariant forall x :: x in order <==> x in listeners && x !in remaining
        invariant log == old(log) + Announce(order, epId, a)
        decreases remaining
      {
        var listener :| listener in remaining;
        log := log + [Notify(listener, epId, a)];
        order := order + [listener];
        remaining := remaining - {listener};
      }
      AddKeepsInformed(old(ssrcAssociations), listeners, old(log), order, epId, a);
    }

    /**
     Registers `listener` and replays every stored association to it: the
     endpoints in the order `order` (the map's iteration order) visits them,
     each endpoint's list in its own order.
     */
    method Subscribe(listener: ListenerId) returns (ghost order: seq<string>)
      requires Valid()
      modifies this
      ensures Valid()
      ensures listeners == old(listeners) + {listener}
      ensures ssrcAssociations == old(ssrcAssociations)
      ensures Enumerates(order, ssrcAssociations.Keys)
      ensures log == old(log) + Replay(listener, ssrcAssociations, order)
    {
      listeners := listeners + {listener};

      order := [];
      var remaining := ssrcAssociations.Keys;
      while remaining != {}
        modifies this`log
        invariant remaining <= ssrcAssociations.Keys
        invariant forall i, j :: 0 <= i < j < |order| ==> order[i] != order[j]
        invariant forall x :: x in order <==> x in ssrcAssociations && x !in remaining
        invariant log == old(log) + Replay(listener, ssrcAssociations, order)
        decreases remaining
      {
        var epId :| epId in remaining;
        var epSsrcAssociations := ssrcAssociations[epId];
        ghost var before := log;
        var j := 0;
        while j < |epSsrcAssociations|
          modifies this`log
          invariant 0 <= j <= |epSsrcAssociations|
          invariant log == before + Notes(listener, epId, epSsrcAssociations[..j])
        {
          NotesStep(listener, epId, epSsrcAssociations, j);
          log := log + [Notify(listener, epId, epSsrcAssociations[j])];
          j := j + 1;
        }
        assert epSsrcAssociations[..j] == epSsrcAssociations;
        ReplayStep(listener, ssrcAssociations, order, epId);
        order := order + [epId];
        remaining := remaining - {epId};
      }
      SubscribeKeepsInformed(ssrcAssociations, old(listeners), old(log), listener, order);
    }
  }

  /**
   A later association reaches each listener of the set once, whatever
   notifications it had before. Since subscribing adds to a set, a listener
   subscribed twice is in the set once and still hears each addition once.
   */
  lemma ListenerHearsEachAddOnce(log: seq<Notification>, order: seq<ListenerId>, listeners: set<ListenerId>,
                                 ep: string, a: SsrcAssociation, l: ListenerId)
    requires Enumerates(order, listeners)
    ensures To(log + Announce(order, ep, a), l) ==
      To(log, l) + (if l in listeners then [Notify(l, ep, a)] else [])
    ensures l in listeners ==> listeners + {l} == listeners
  {
    AnnounceReachesEachOnce(order, ep, a, l);
    ToAppend(log, Announce(order, ep, a), l);
  }
}
