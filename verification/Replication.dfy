/**
 A replica fed by full-state messages over a first-in, first-out wire, independent of what the
 states and messages are: the replica is always an earlier state of the origin, behind by
 exactly the messages still on the wire.
 */
module Replication {

  /** How the origin changes, how it announces itself and how the replica reads an announcement. */
  datatype Protocol<!V, !E, !M> = Protocol(change: (V, E) -> V, encode: V -> string, decode: (string, M) -> M)

  /** All states the origin went through, the announcements on their way, and the replica. */
  datatype Replica<V, M> = Replica(history: seq<V>, wire: seq<string>, mirror: M)

  datatype Event<E> = Change(change: E) | Deliver

  function Next<V, E, M>(p: Protocol<V, E, M>, r: Replica<V, M>, e: Event<E>): Replica<V, M>
    requires r.history != []
  {
    match e
    case Change(c) =>
      var v := p.change(r.history[|r.history| - 1], c);
      r.(history := r.history + [v], wire := r.wire + [p.encode(v)])
    case Deliver =>
      if r.wire == [] then r else r.(wire := r.wire[1..], mirror := p.decode(r.wire[0], r.mirror))
  }

  function After<V, E, M>(p: Protocol<V, E, M>, r: Replica<V, M>, events: seq<Event<E>>): (t: Replica<V, M>)
    requires r.history != []
    ensures t.history != []
    decreases |events|
  {
    if events == [] then r else After(p, Next(p, r, events[0]), events[1..])
  }

  ghost predicate OnWire<V, E, M>(p: Protocol<V, E, M>, pending: seq<V>, wire: seq<string>) {
    |pending| == |wire| && forall k :: 0 <= k < |wire| ==> wire[k] == p.encode(pending[k])
  }

  /** The replica agrees with the state the origin had before the changes still on the wire. */
  ghost predicate Lags<V, E, M>(p: Protocol<V, E, M>, legal: V -> bool, agree: (V, M) -> bool, r: Replica<V, M>) {
    && |r.wire| < |r.history|
    && (forall k :: 0 <= k < |r.history| ==> legal(r.history[k]))
    && OnWire(p, r.history[|r.history| - |r.wire|..], r.wire)
    && agree(r.history[|r.history| - |r.wire| - 1], r.mirror)
  }

  lemma ChangeKeepsLag<V, E, M>(
    p: Protocol<V, E, M>, legal: V -> bool, agree: (V, M) -> bool, r: Replica<V, M>, c: E)
    requires Lags(p, legal, agree, r) && legal(p.change(r.history[|r.history| - 1], c))
    ensures Lags(p, legal, agree, Next(p, r, Change(c)))
  {
    var v := p.change(r.history[|r.history| - 1], c);
    var pending := r.history[|r.history| - |r.wire|..];
    assert (r.history + [v])[|r.history| - |r.wire|..] == pending + [v];
  }

  lemma DeliverKeepsLag<V, E, M>(p: Protocol<V, E, M>, legal: V -> bool, agree: (V, M) -> bool, r: Replica<V, M>)
    requires Lags(p, legal, agree, r)
    requires forall v :: v in r.history && legal(v) ==> agree(v, p.decode(p.encode(v), r.mirror))
    ensures Lags(p, legal, agree, Next(p, r, Deliver))
  {
    if r.wire != [] {
      var pending := r.history[|r.history| - |r.wire|..];
      assert r.wire[0] == p.encode(pending[0]) && pending[0] == r.history[|r.history| - |r.wire|];
      assert r.history[|r.history| - |r.wire[1..]|..] == pending[1..];
    }
  }

  /**
   When legal changes keep states legal and reading a legal state's announcement always agrees
   with it, every run keeps the lag.
  */
  lemma {:induction false} RunKeepsLag<V(!new), E(!new), M(!new)>(
    p: Protocol<V, E, M>, legal: V -> bool, step: E -> bool, agree: (V, M) -> bool,
    r: Replica<V, M>, events: seq<Event<E>>)
    requires forall v, c :: legal(v) && step(c) ==> legal(p.change(v, c))
    requires forall v, m :: legal(v) ==> agree(v, p.decode(p.encode(v), m))
    requires Lags(p, legal, agree, r)
    requires forall e :: e in events && e.Change? ==> step(e.change)
    ensures Lags(p, legal, agree, After(p, r, events))
    decreases |events|
  {
    if events == [] {
    } else {
      match events[0] {
        case Change(c) => assert events[0] in events; ChangeKeepsLag(p, legal, agree, r, c);
        case Deliver => DeliverKeepsLag(p, legal, agree, r);
      }
      RunKeepsLag(p, legal, step, agree, Next(p, r, events[0]), events[1..]);
    }
  }

  /** From a replica that agrees with the origin, every run ends behind by exactly the undelivered changes. */
  lemma RunAgrees<V(!new), E(!new), M(!new)>(
    p: Protocol<V, E, M>, legal: V -> bool, step: E -> bool, agree: (V, M) -> bool,
    start: V, r: Replica<V, M>, events: seq<Event<E>>)
    requires forall v, c :: legal(v) && step(c) ==> legal(p.change(v, c))
    requires forall v, m :: legal(v) ==> agree(v, p.decode(p.encode(v), m))
    requires legal(start) && r.history == [start] && r.wire == [] && agree(start, r.mirror)
    requires forall e :: e in events && e.Change? ==> step(e.change)
    ensures var t := After(p, r, events);
      && |t.wire| < |t.history|
      && agree(t.history[|t.history| - |t.wire| - 1], t.mirror)
      && (t.wire == [] ==> agree(t.history[|t.history| - 1], t.mirror))
  {
    assert r.history[1..] == [];
    RunKeepsLag(p, legal, step, agree, r, events);
  }
}
