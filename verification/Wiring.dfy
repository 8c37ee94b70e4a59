/**
 Where a cascade's links come from: an attribute change of a published object runs the
 attribute listeners registered on that object, and the core registers one for each link.
 */
module Wiring {
  import opened Configuration
  import opened Core
  import opened Sequences
  import Cascade

  /** Ids of the links whose listener sits on the object for the attribute, in registration order. */
  function ListeningLinks(listeners: seq<Listener>, handle: nat, attribute: string): seq<string> {
    if listeners == [] then []
    else
      (if listeners[0].handle == handle && listeners[0].attribute == attribute then [listeners[0].link] else [])
      + ListeningLinks(listeners[1..], handle, attribute)
  }

  /** The links an attribute change of a component runs, in order. */
  function RunLinks(s: State, p: Cascade.Port): seq<string> {
    if p.component in s.repository then ListeningLinks(s.listeners, s.repository[p.component], p.attribute) else []
  }

  /** The running links that start at the attribute. */
  ghost predicate StartsAt(s: State, id: string, p: Cascade.Port) {
    id in s.links && s.links[id].config.sourceComponent == p.component &&
      s.links[id].config.sourceAttribute == p.attribute
  }

  lemma {:induction false} ListeningLinksMembers(listeners: seq<Listener>, handle: nat, attribute: string)
    requires NoRepeat(listeners)
    requires forall a, b :: a in listeners && b in listeners && a.link == b.link ==> a == b
    ensures forall id :: id in ListeningLinks(listeners, handle, attribute) <==>
      Listener(handle, attribute, id) in listeners
    ensures NoRepeat(ListeningLinks(listeners, handle, attribute))
  {
    if listeners == [] {
    } else {
      var (first, rest) := (listeners[0], listeners[1..]);
      ListeningLinksMembers(rest, handle, attribute);
      var ids := ListeningLinks(rest, handle, attribute);
      assert forall l :: l in listeners <==> l == first || l in rest;
      assert first !in rest by { assert forall k :: 0 <= k < |rest| ==> rest[k] == listeners[k + 1]; }
      forall k | 0 <= k < |ids| ensures first.handle == handle && first.attribute == attribute ==>
        ids[k] != first.link {
        assert ids[k] in ids;
        assert Listener(handle, attribute, ids[k]) in rest;
      }
    }
  }

  /** Each listener contributes at its place, or nothing. */
  lemma {:induction false} ListeningLinksConcat(before: seq<Listener>, behind: seq<Listener>, h: nat, attribute: string)
    ensures ListeningLinks(before + behind, h, attribute) ==
      ListeningLinks(before, h, attribute) + ListeningLinks(behind, h, attribute)
  {
    if before == [] {
      assert before + behind == behind;
    } else {
      assert (before + behind)[1..] == before[1..] + behind;
      ListeningLinksConcat(before[1..], behind, h, attribute);
    }
  }

  /** A change runs the links of its listeners in the order in which these were registered. */
  lemma LinksRunInOrder(s: State, p: Cascade.Port, i: nat, j: nat)
    requires i < j < |s.listeners| && p.component in s.repository
    requires s.listeners[i].handle == s.listeners[j].handle == s.repository[p.component]
    requires s.listeners[i].attribute == s.listeners[j].attribute == p.attribute
    ensures Precedes(RunLinks(s, p), s.listeners[i].link, s.listeners[j].link)
  {
    var (h, all) := (s.repository[p.component], s.listeners);
    assert all == all[..j] + all[j..] && all[..j] == all[..i] + all[i..j];
    ListeningLinksConcat(all[..j], all[j..], h, p.attribute);
    ListeningLinksConcat(all[..i], all[i..j], h, p.attribute);
    assert ListeningLinks(all[i..j], h, p.attribute)[0] == all[i].link;
    assert ListeningLinks(all[j..], h, p.attribute)[0] == all[j].link;
    var a := |ListeningLinks(all[..i], h, p.attribute)|;
    var b := |ListeningLinks(all[..j], h, p.attribute)|;
    var ids := RunLinks(s, p);
    assert ids[a] == all[i].link && ids[b] == all[j].link;
  }

  /** In every state that keeps the invariant, a change runs each link that starts there exactly once, and no other. */
  lemma ChangeRunsItsLinks(s: State, p: Cascade.Port)
    requires Inv(s)
    ensures forall id :: id in RunLinks(s, p) <==> StartsAt(s, id, p)
    ensures NoRepeat(RunLinks(s, p))
  {
    if p.component in s.repository {
      var handle := s.repository[p.component];
      ListeningLinksMembers(s.listeners, handle, p.attribute);
      forall id ensures Listener(handle, p.attribute, id) in s.listeners <==> StartsAt(s, id, p) {
        ListenerMeansLink(s, p, id);
      }
    }
  }

  lemma HandlesTellApart(s: State, a: string, b: string)
    requires Inv(s) && a in s.repository && b in s.repository
    ensures s.repository[a] == s.repository[b] <==> a == b
  {
  }

  /** The link that a listener at this place runs for an attribute of the object, if it does. */
  lemma OneListener(l: Listener, h: nat, attribute: string)
    ensures ListeningLinks([l], h, attribute) == if l.handle == h && l.attribute == attribute then [l.link] else []
  {
    assert ListeningLinks([l][1..], h, attribute) == [];
  }

  lemma NewListener(s: State, b: LinkBody)
    requires CreateLink(s, b).1.Done?
    ensures CreateLink(s, b).0 == s.(links := CreateLink(s, b).0.links, listeners :=
      s.listeners + [Listener(s.repository[b.sourceComponent], b.sourceAttribute, MakeId(b))])
  {
  }

  /** A new link runs after all links that already start at the attribute; it runs nowhere else. */
  lemma NewLinkRunsLast(s: State, b: LinkBody, p: Cascade.Port)
    requires Inv(s) && CreateLink(s, b).1.Done?
    ensures RunLinks(CreateLink(s, b).0, p) ==
      RunLinks(s, p) +
        if p == Cascade.Port(b.sourceComponent, b.sourceAttribute) then [MakeId(b)] else []
  {
    NewListener(s, b);
    if p.component in s.repository {
      HandlesTellApart(s, p.component, b.sourceComponent);
      var h := s.repository[p.component];
      var l := Listener(s.repository[b.sourceComponent], b.sourceAttribute, MakeId(b));
      ListeningLinksConcat(s.listeners, [l], h, p.attribute);
      OneListener(l, h, p.attribute);
    }
  }

  lemma ListenerMeansLink(s: State, p: Cascade.Port, id: string)
    requires Inv(s) && p.component in s.repository
    ensures Listener(s.repository[p.component], p.attribute, id) in s.listeners <==> StartsAt(s, id, p)
  {
    var l := Listener(s.repository[p.component], p.attribute, id);
    if l in s.listeners {
      assert l.link in s.links && l == ListenerOf(s.links[id], id);
      assert s.repository[s.links[id].config.sourceComponent] == s.repository[p.component];
    }
    if StartsAt(s, id, p) {
      assert ListenerOf(s.links[id], id) in s.listeners;
    }
  }

  /** The cascade net of a core state: the handlers of an attribute are its links' actions, in order. */
  function NetOf(s: State, kinds: map<string, Cascade.Kind>): Cascade.Net {
    Cascade.Net(kinds,
      map p | p in (set id | id in s.links ::
        Cascade.Port(s.links[id].config.sourceComponent, s.links[id].config.sourceAttribute))
        :: Targets(s, RunLinks(s, p)))
  }

  function Targets(s: State, ids: seq<string>): seq<Cascade.Target> {
    if ids == [] then []
    else if ids[0] !in s.links then Targets(s, ids[1..])
    else
      var l := s.links[ids[0]].config;
      [Cascade.Target(l.destinationComponent, l.destinationAction)] + Targets(s, ids[1..])
  }

  lemma {:induction false} TargetsAt(s: State, ids: seq<string>, i: nat)
    requires i < |ids| && forall id :: id in ids ==> id in s.links
    ensures |Targets(s, ids)| == |ids|
    ensures var b := s.links[ids[i]].config;
      Targets(s, ids)[i] == Cascade.Target(b.destinationComponent, b.destinationAction)
  {
    if |ids| == 1 {
    } else {
      TargetsAt(s, ids[1..], if i > 0 then i - 1 else 0);
    }
  }

  /** One handler for each link that starts at the attribute, leading to that link's action. */
  lemma HandlersAreLinks(s: State, kinds: map<string, Cascade.Kind>, p: Cascade.Port, i: nat)
    requires Inv(s) && i < |RunLinks(s, p)|
    ensures var handlers := Cascade.Handlers(NetOf(s, kinds), p);
      && |handlers| == |RunLinks(s, p)| && RunLinks(s, p)[i] in s.links
      && var b := s.links[RunLinks(s, p)[i]].config;
         handlers[i] == Cascade.Target(b.destinationComponent, b.destinationAction)
  {
    ChangeRunsItsLinks(s, p);
    var ids := RunLinks(s, p);
    assert ids[i] in ids;
    assert StartsAt(s, ids[i], p);
    assert p in NetOf(s, kinds).links;
    TargetsAt(s, ids, i);
  }
}
