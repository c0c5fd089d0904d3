/** The records of a promotion pipeline that the graph construction reads and writes. */
module PipelineModel {
  datatype Node = Node(name: string, kind: string, env: string, publish: seq<string>, subscribe: seq<string>)

  datatype Edge = Edge(channel: string, from: string, to: string)

  datatype Stage = Stage(name: string, nodes: seq<string>)

  function Names(nodes: seq<Node>): (names: seq<string>)
    ensures |names| == |nodes| && forall i :: 0 <= i < |nodes| ==> names[i] == nodes[i].name
  {
    seq(|nodes|, i requires 0 <= i < |nodes| => nodes[i].name)
  }

  /** Every edge joins two nodes of the pipeline. */
  ghost predicate Closed(names: seq<string>, edges: seq<Edge>) {
    forall e :: e in edges ==> e.from in names && e.to in names
  }
}

/** Joining publish channels to subscribe channels. */
module PipelineEdges {
  import opened PipelineModel
  import opened Sequences
  import Text

  // ---------- specification ----------

  /** Node i is the last one that publishes the channel. */
  ghost predicate LastPublisher(nodes: seq<Node>, channel: string, i: nat) {
    i < |nodes| && channel in nodes[i].publish
    && forall j :: i < j < |nodes| ==> channel !in nodes[j].publish
  }

  /** The edge leads from the last publisher of its channel to one of the channel's subscribers. */
  ghost predicate Joined(nodes: seq<Node>, e: Edge) {
    exists i: nat, j: nat :: LastPublisher(nodes, e.channel, i) && nodes[i].name == e.from && Subscribes(nodes, e, j)
  }

  ghost predicate Subscribes(nodes: seq<Node>, e: Edge, j: nat) {
    j < |nodes| && nodes[j].name == e.to && e.channel in nodes[j].subscribe
  }

  /** The text under which an edge is remembered as already emitted. */
  function Key(e: Edge): string {
    e.from + "\U{2192}" + e.to + ":" + e.channel
  }

  /** Two different joins share one key, so that only the first is emitted. */
  ghost predicate KeyClash(nodes: seq<Node>) {
    exists d, e :: Joined(nodes, d) && Joined(nodes, e) && d != e && Key(d) == Key(e)
  }

  function Register(publishers: map<string, string>, channels: seq<string>, name: string): map<string, string> {
    if channels == [] then publishers
    else Register(publishers, channels[..|channels| - 1], name)[channels[|channels| - 1] := name]
  }

  function Publishers(nodes: seq<Node>): map<string, string> {
    if nodes == [] then map[]
    else
      var last := nodes[|nodes| - 1];
      Register(Publishers(nodes[..|nodes| - 1]), last.publish, last.name)
  }

  function JoinsOf(name: string, channels: seq<string>, publishers: map<string, string>): seq<Edge> {
    if channels == [] then []
    else
      var ch := channels[|channels| - 1];
      JoinsOf(name, channels[..|channels| - 1], publishers)
      + if ch in publishers then [Edge(ch, publishers[ch], name)] else []
  }

  /** All joins in subscriber order, repetitions included. */
  function Joins(nodes: seq<Node>, publishers: map<string, string>): seq<Edge> {
    if nodes == [] then []
    else
      var last := nodes[|nodes| - 1];
      Joins(nodes[..|nodes| - 1], publishers) + JoinsOf(last.name, last.subscribe, publishers)
  }

  function Keys(es: seq<Edge>): set<string> {
    set e | e in es :: Key(e)
  }

  /** Keeps the first edge of every key. */
  function FirstPerKey(es: seq<Edge>): seq<Edge> {
    if es == [] then []
    else
      var kept, last := FirstPerKey(es[..|es| - 1]), es[|es| - 1];
      if Key(last) in Keys(kept) then kept else kept + [last]
  }

  function EdgesOf(nodes: seq<Node>): seq<Edge> {
    FirstPerKey(Joins(nodes, Publishers(nodes)))
  }

  // ---------- the algorithm ----------

  lemma JoinsOfNext(before: seq<Edge>, name: string, chs: seq<string>, c: nat, pubs: map<string, string>)
    requires c < |chs|
    ensures var sofar := before + JoinsOf(name, chs[..c], pubs);
            before + JoinsOf(name, chs[..c + 1], pubs)
            == if chs[c] in pubs then sofar + [Edge(chs[c], pubs[chs[c]], name)] else sofar
  {
    assert chs[..c + 1][..c] == chs[..c];
  }

  lemma FirstPerKeySnoc(es: seq<Edge>, e: Edge)
    ensures FirstPerKey(es + [e])
         == if Key(e) in Keys(FirstPerKey(es)) then FirstPerKey(es) else FirstPerKey(es) + [e]
    ensures Keys(FirstPerKey(es + [e])) == Keys(FirstPerKey(es)) + {Key(e)}
  {
    assert (es + [e])[..|es|] == es;
    KeysSnoc(FirstPerKey(es), e);
  }

  method IndexPublishers(nodes: seq<Node>) returns (publishers: map<string, string>)
    ensures publishers == Publishers(nodes)
  {
    publishers := map[];
    for i := 0 to |nodes|
      invariant publishers == Publishers(nodes[..i])
    {
      var n := nodes[i];
      for c := 0 to |n.publish|
        invariant publishers == Register(Publishers(nodes[..i]), n.publish[..c], n.name)
      {
        publishers := publishers[n.publish[c] := n.name];
        assert n.publish[..c + 1][..c] == n.publish[..c];
      }
      assert n.publish[..|n.publish|] == n.publish;
      assert nodes[..i + 1][..i] == nodes[..i];
    }
    assert nodes[..|nodes|] == nodes;
  }

  /** The inner loop: one node's subscriptions. */
  method EmitEdges(n: Node, publishers: map<string, string>, ghost before: seq<Edge>,
                   edges0: seq<Edge>, seen0: set<string>)
    returns (edges: seq<Edge>, seen: set<string>)
    requires edges0 == FirstPerKey(before) && seen0 == Keys(edges0)
    ensures edges == FirstPerKey(before + JoinsOf(n.name, n.subscribe, publishers)) && seen == Keys(edges)
  {
    edges, seen := edges0, seen0;
    assert before + [] == before;
    for c := 0 to |n.subscribe|
      invariant edges == FirstPerKey(before + JoinsOf(n.name, n.subscribe[..c], publishers))
      invariant seen == Keys(edges)
    {
      var ch := n.subscribe[c];
      JoinsOfNext(before, n.name, n.subscribe, c, publishers);
      if ch in publishers {
        var e := Edge(ch, publishers[ch], n.name);
        FirstPerKeySnoc(before + JoinsOf(n.name, n.subscribe[..c], publishers), e);
        var key := Key(e);
        if key !in seen {
          seen := seen + {key};
          edges := edges + [e];
        }
      }
    }
    assert n.subscribe[..|n.subscribe|] == n.subscribe;
  }

  method BuildEdges(nodes: seq<Node>) returns (edges: seq<Edge>)
    ensures edges == EdgesOf(nodes)
    ensures Closed(Names(nodes), edges)
  {
    var publishers := IndexPublishers(nodes);
    edges := [];
    var seen: set<string> := {};
    for i := 0 to |nodes|
      invariant edges == FirstPerKey(Joins(nodes[..i], publishers)) && seen == Keys(edges)
    {
      edges, seen := EmitEdges(nodes[i], publishers, Joins(nodes[..i], publishers), edges, seen);
      assert nodes[..i + 1][..i] == nodes[..i];
    }
    assert nodes[..|nodes|] == nodes;
    EdgesAreClosed(nodes);
  }

  // ---------- what the edges are ----------

  lemma {:induction false} RegisterWrites(m: map<string, string>, chs: seq<string>, name: string, ch: string)
    ensures ch in Register(m, chs, name) <==> ch in chs || ch in m
    ensures ch in chs ==> Register(m, chs, name)[ch] == name
    ensures ch !in chs && ch in m ==> Register(m, chs, name)[ch] == m[ch]
  {
    if chs != [] {
      RegisterWrites(m, chs[..|chs| - 1], name, ch);
      assert chs == chs[..|chs| - 1] + [chs[|chs| - 1]];
    }
  }

  /** The index holds, for each published channel and no other, the name of its last publisher. */
  lemma {:induction false} PublisherIsLast(nodes: seq<Node>, ch: string)
    ensures ch in Publishers(nodes) <==> exists i: nat :: LastPublisher(nodes, ch, i)
    ensures forall i: nat :: LastPublisher(nodes, ch, i) ==>
              ch in Publishers(nodes) && Publishers(nodes)[ch] == nodes[i].name
  {
    if nodes != [] {
      hide Register;
      var k := |nodes| - 1;
      var init, last := nodes[..k], nodes[k];
      PublisherIsLast(init, ch);
      RegisterWrites(Publishers(init), last.publish, last.name, ch);
      if ch in last.publish {
        assert LastPublisher(nodes, ch, k);
      } else {
        forall i: nat ensures LastPublisher(nodes, ch, i) <==> LastPublisher(init, ch, i) {}
      }
    }
  }

  lemma {:induction false} JoinsOfMember(name: string, chs: seq<string>, pubs: map<string, string>, e: Edge)
    ensures e in JoinsOf(name, chs, pubs) <==>
            e.to == name && e.channel in chs && e.channel in pubs && e.from == pubs[e.channel]
  {
    if chs != [] {
      JoinsOfMember(name, chs[..|chs| - 1], pubs, e);
      assert chs == chs[..|chs| - 1] + [chs[|chs| - 1]];
    }
  }

  lemma {:induction false} JoinsMember(nodes: seq<Node>, pubs: map<string, string>, e: Edge)
    ensures e in Joins(nodes, pubs) <==>
            e.channel in pubs && e.from == pubs[e.channel] && exists j: nat :: Subscribes(nodes, e, j)
  {
    if nodes != [] {
      var k := |nodes| - 1;
      var init, last := nodes[..k], nodes[k];
      JoinsMember(init, pubs, e);
      JoinsOfMember(last.name, last.subscribe, pubs, e);
      forall j: nat | j < k ensures Subscribes(nodes, e, j) <==> Subscribes(init, e, j) {}
      if last.name == e.to && e.channel in last.subscribe {
        assert Subscribes(nodes, e, k);
      }
    }
  }

  /** The candidate list holds exactly the (channel, last publisher, subscriber) triples. */
  lemma JoinsAreJoined(nodes: seq<Node>, e: Edge)
    ensures e in Joins(nodes, Publishers(nodes)) <==> Joined(nodes, e)
  {
    PublisherIsLast(nodes, e.channel);
    JoinsMember(nodes, Publishers(nodes), e);
  }

  lemma {:induction false} FirstPerKeyKeeps(es: seq<Edge>)
    ensures forall e :: e in FirstPerKey(es) ==> e in es
    ensures Keys(FirstPerKey(es)) == Keys(es)
  {
    if es != [] {
      var init, last := es[..|es| - 1], es[|es| - 1];
      FirstPerKeyKeeps(init);
      KeysSnoc(init, last);
      KeysSnoc(FirstPerKey(init), last);
      assert es == init + [last];
    }
  }

  lemma KeysSnoc(es: seq<Edge>, last: Edge)
    ensures Keys(es + [last]) == Keys(es) + {Key(last)}
  {
    assert forall e :: e in es + [last] <==> e in es || e == last;
  }

  ghost predicate KeysDiffer(es: seq<Edge>) {
    forall i, j :: 0 <= i < j < |es| ==> Key(es[i]) != Key(es[j])
  }

  lemma {:induction false} FirstPerKeyDiffer(es: seq<Edge>)
    ensures KeysDiffer(FirstPerKey(es))
  {
    if es != [] {
      var kept, last := FirstPerKey(es[..|es| - 1]), es[|es| - 1];
      FirstPerKeyDiffer(es[..|es| - 1]);
      if Key(last) !in Keys(kept) {
        forall i | 0 <= i < |kept| ensures Key(kept[i]) != Key(last) {
          assert kept[i] in kept;
        }
      }
    }
  }

  /** Every edge is a join, and no two edges are equal: they do not even share a key. */
  lemma EdgesAreSound(nodes: seq<Node>)
    ensures forall e :: e in EdgesOf(nodes) ==> Joined(nodes, e)
    ensures forall i, j :: 0 <= i < j < |EdgesOf(nodes)| ==> EdgesOf(nodes)[i] != EdgesOf(nodes)[j]
  {
    var joins := Joins(nodes, Publishers(nodes));
    FirstPerKeyKeeps(joins);
    FirstPerKeyDiffer(joins);
    forall e | e in EdgesOf(nodes) ensures Joined(nodes, e) {
      JoinsAreJoined(nodes, e);
    }
  }

  lemma EdgesAreClosed(nodes: seq<Node>)
    ensures Closed(Names(nodes), EdgesOf(nodes))
  {
    EdgesAreSound(nodes);
    forall e | e in EdgesOf(nodes) ensures e.from in Names(nodes) && e.to in Names(nodes) {
      var i: nat, j: nat :| LastPublisher(nodes, e.channel, i) && nodes[i].name == e.from && Subscribes(nodes, e, j);
      assert Names(nodes)[i] == e.from && Names(nodes)[j] == e.to;
    }
  }

  /** Two edges of the result with one key are one edge. */
  lemma OneEdgePerKey(nodes: seq<Node>, d: Edge, e: Edge)
    requires d in EdgesOf(nodes) && e in EdgesOf(nodes) && Key(d) == Key(e)
    ensures d == e
  {
    var edges := EdgesOf(nodes);
    FirstPerKeyDiffer(Joins(nodes, Publishers(nodes)));
    var i :| 0 <= i < |edges| && edges[i] == d;
    var j :| 0 <= j < |edges| && edges[j] == e;
    assert i == j;
  }

  /** Each join's key is represented by an edge. */
  lemma KeyIsRepresented(nodes: seq<Node>, e: Edge) returns (d: Edge)
    requires Joined(nodes, e)
    ensures d in EdgesOf(nodes) && Key(d) == Key(e)
  {
    JoinsAreJoined(nodes, e);
    FirstPerKeyKeeps(Joins(nodes, Publishers(nodes)));
    assert Key(e) in Keys(EdgesOf(nodes));
    d :| d in EdgesOf(nodes) && Key(d) == Key(e);
  }

  /** Every join becomes an edge exactly when no two joins share a key. */
  lemma EdgesAreCompleteIff(nodes: seq<Node>)
    ensures (forall e :: Joined(nodes, e) ==> e in EdgesOf(nodes)) <==> !KeyClash(nodes)
  {
    EdgesAreSound(nodes);
    if KeyClash(nodes) {
      var d, e :| Joined(nodes, d) && Joined(nodes, e) && d != e && Key(d) == Key(e);
      if d in EdgesOf(nodes) && e in EdgesOf(nodes) {
        OneEdgePerKey(nodes, d, e);
      }
    } else {
      forall e | Joined(nodes, e) ensures e in EdgesOf(nodes) {
        var d := KeyIsRepresented(nodes, e);
        assert d == e;
      }
    }
  }

  /** Joins over one channel never share a key: the source end is fixed, so the other end is too. */
  lemma SameChannelNoClash(nodes: seq<Node>, d: Edge, e: Edge)
    requires Joined(nodes, d) && Joined(nodes, e)
    requires d.channel == e.channel && Key(d) == Key(e)
    ensures d == e
  {
    PublisherIsLast(nodes, d.channel);
    assert d.from == e.from;
    var head := d.from + "\U{2192}";
    var tail := ":" + d.channel;
    assert Key(d) == head + d.to + tail && Key(e) == head + e.to + tail;
    assert |d.to| == |e.to|;
    assert d.to == Key(d)[|head|..|head| + |d.to|];
    assert e.to == Key(e)[|head|..|head| + |e.to|];
  }

  /** No clash is possible when no node name holds a colon, or when no channel does. */
  lemma ColonFreeNoClash(nodes: seq<Node>)
    requires (forall n :: n in nodes ==> ':' !in n.name)
             || (forall n, ch :: n in nodes && ch in n.subscribe ==> ':' !in ch)
    ensures !KeyClash(nodes)
  {
    forall d, e | Joined(nodes, d) && Joined(nodes, e) && Key(d) == Key(e) ensures d == e {
      var i: nat, j: nat :| LastPublisher(nodes, d.channel, i) && nodes[i].name == d.from && Subscribes(nodes, d, j);
      var k: nat, l: nat :| LastPublisher(nodes, e.channel, k) && nodes[k].name == e.from && Subscribes(nodes, e, l);
      assert nodes[i] in nodes && nodes[j] in nodes && nodes[k] in nodes && nodes[l] in nodes;
      var dh, eh := d.from + "\U{2192}" + d.to, e.from + "\U{2192}" + e.to;
      assert Key(d) == dh + [':'] + d.channel && Key(e) == eh + [':'] + e.channel;
      if forall n :: n in nodes ==> ':' !in n.name {
        Text.SplitAtFirst(dh, d.channel, eh, e.channel, ':');
      } else {
        Text.SplitAtLast(dh, d.channel, eh, e.channel, ':');
      }
      SameChannelNoClash(nodes, d, e);
    }
  }

  // ---------- in which order edges are listed ----------

  /** Edge i comes from subscription subs[i] of node at[i]; these positions grow along the list. */
  ghost predicate InOrder(nodes: seq<Node>, es: seq<Edge>, at: seq<nat>, subs: seq<nat>) {
    && |at| == |es| && |subs| == |es|
    && (forall i :: 0 <= i < |es| ==>
          && at[i] < |nodes| && subs[i] < |nodes[at[i]].subscribe|
          && es[i].to == nodes[at[i]].name && es[i].channel == nodes[at[i]].subscribe[subs[i]])
    && (forall i, j :: 0 <= i < j < |es| ==> at[i] < at[j] || (at[i] == at[j] && subs[i] < subs[j]))
  }

  lemma {:induction false} JoinsOfInOrder(name: string, chs: seq<string>, pubs: map<string, string>)
    returns (subs: seq<nat>)
    ensures var es := JoinsOf(name, chs, pubs);
            |subs| == |es| && forall i :: 0 <= i < |subs| ==>
              subs[i] < |chs| && es[i].to == name && es[i].channel == chs[subs[i]]
    ensures forall i, j :: 0 <= i < j < |subs| ==> subs[i] < subs[j]
  {
    if chs == [] {
      subs := [];
    } else {
      var n := |chs| - 1;
      subs := JoinsOfInOrder(name, chs[..n], pubs);
      if chs[n] in pubs {
        subs := subs + [n];
      }
    }
  }

  lemma InOrderAppend(nodes: seq<Node>, es: seq<Edge>, at: seq<nat>, subs: seq<nat>,
                      last: Node, more: seq<Edge>, moreSubs: seq<nat>)
    requires InOrder(nodes, es, at, subs) && |moreSubs| == |more|
    requires forall i :: 0 <= i < |more| ==>
               moreSubs[i] < |last.subscribe|
               && more[i].to == last.name && more[i].channel == last.subscribe[moreSubs[i]]
    requires forall i, j :: 0 <= i < j < |more| ==> moreSubs[i] < moreSubs[j]
    ensures InOrder(nodes + [last], es + more, at + seq(|more|, _ => |nodes|), subs + moreSubs)
  {
  }

  lemma {:induction false} JoinsInOrder(nodes: seq<Node>, pubs: map<string, string>)
    returns (at: seq<nat>, subs: seq<nat>)
    ensures InOrder(nodes, Joins(nodes, pubs), at, subs)
  {
    if nodes == [] {
      at, subs := [], [];
    } else {
      hide InOrder, JoinsOf;
      var init, last := nodes[..|nodes| - 1], nodes[|nodes| - 1];
      at, subs := JoinsInOrder(init, pubs);
      var more := JoinsOfInOrder(last.name, last.subscribe, pubs);
      InOrderAppend(init, Joins(init, pubs), at, subs, last, JoinsOf(last.name, last.subscribe, pubs), more);
      assert nodes == init + [last];
      at, subs := at + seq(|more|, _ => |init|), subs + more;
    }
  }

  lemma {:induction false} FirstPerKeyInOrder(es: seq<Edge>)
    ensures Subsequence(FirstPerKey(es), es)
  {
    if es == [] {
      assert Picks(FirstPerKey(es), es, []);
    } else {
      hide Subsequence, Key;
      var init, last := es[..|es| - 1], es[|es| - 1];
      FirstPerKeyInOrder(init);
      SubsequenceGrows(FirstPerKey(init), init, last);
      assert es == init + [last];
    }
  }

  lemma InOrderPicked(nodes: seq<Node>, es: seq<Edge>, at: seq<nat>, subs: seq<nat>, picked: seq<Edge>)
    returns (pickedAt: seq<nat>, pickedSubs: seq<nat>)
    requires InOrder(nodes, es, at, subs) && Subsequence(picked, es)
    ensures InOrder(nodes, picked, pickedAt, pickedSubs)
  {
    var p: seq<nat> :| Picks(picked, es, p);
    pickedAt := seq(|p|, i requires 0 <= i < |p| => at[p[i]]);
    pickedSubs := seq(|p|, i requires 0 <= i < |p| => subs[p[i]]);
  }

  /** Edges are listed by subscriber, in input order, and for one subscriber in the order of its subscriptions. */
  lemma EdgesInOrder(nodes: seq<Node>) returns (at: seq<nat>, subs: seq<nat>)
    ensures InOrder(nodes, EdgesOf(nodes), at, subs)
  {
    hide InOrder, Subsequence, FirstPerKey, Joins, Publishers;
    at, subs := JoinsInOrder(nodes, Publishers(nodes));
    FirstPerKeyInOrder(Joins(nodes, Publishers(nodes)));
    at, subs := InOrderPicked(nodes, Joins(nodes, Publishers(nodes)), at, subs, EdgesOf(nodes));
  }

  /** A publisher of two channels, and a subscriber of each. */
  function WithColons(): seq<Node> {
    [Node("a", "deploy", "stage", ["x", "y:x"], []), Node("t:y", "deploy", "stage", [], ["x"]),
     Node("t", "deploy", "stage", [], ["y:x"])]
  }

  lemma ColonsClash()
    ensures KeyClash(WithColons())
  {
    var nodes := WithColons();
    var d, e := Edge("x", "a", "t:y"), Edge("y:x", "a", "t");
    assert LastPublisher(nodes, "x", 0) && LastPublisher(nodes, "y:x", 0);
    assert Subscribes(nodes, d, 1) && Subscribes(nodes, e, 2);
    assert Joined(nodes, d) && Joined(nodes, e) && |d.to| != |e.to|;
    hide LastPublisher, Subscribes, Joined;
    OneKey(d, e);
  }

  /** With colons in both, one subscriber's edge can be lost. */
  lemma ColonsCanLoseAnEdge() returns (nodes: seq<Node>, lost: Edge)
    ensures Joined(nodes, lost) && lost !in EdgesOf(nodes)
  {
    hide WithColons, EdgesOf, Joined, KeyClash;
    nodes := WithColons();
    ColonsClash();
    EdgesAreCompleteIff(nodes);
    lost :| Joined(nodes, lost) && lost !in EdgesOf(nodes);
  }

  lemma OneKey(d: Edge, e: Edge)
    requires d == Edge("x", "a", "t:y") && e == Edge("y:x", "a", "t")
    ensures Key(d) == Key(e)
  {
    assert "t:y" + ":" + "x" == "t" + ":" + "y:x";
    Associative("a\U{2192}", "t:y", ":x");
    Associative("a\U{2192}", "t", ":y:x");
  }
}
