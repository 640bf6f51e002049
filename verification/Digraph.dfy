/** The mutable directed multigraph and its incidence indexes. */
module Digraphs {
  import opened Base

  /** A node or edge id. Gen(n) is the generated id "_n", Dummy(n) the id "_Dn" that normalization
      uses, and Named stands for every other string. */
  datatype Id = Named(name: string) | Gen(n: nat) | Dummy(k: nat)

  datatype Edge<V> = Edge(u: Id, v: Id, value: V)

  /** The ids of the edges from u to v. */
  ghost function Between<V>(edges: map<Id, Edge<V>>, u: Id, v: Id): set<Id> {
    set e | e in edges && edges[e].u == u && edges[e].v == v
  }

  /** index maps (v, u) to the edges from u to v, without empty entries. */
  ghost predicate InIndex<V>(edges: map<Id, Edge<V>>, index: map<(Id, Id), set<Id>>) {
    forall u, v :: (if (v, u) in index then index[(v, u)] != {} && index[(v, u)] == Between(edges, u, v)
                    else Between(edges, u, v) == {})
  }

  /** index maps (u, v) to the edges from u to v, without empty entries. */
  ghost predicate OutIndex<V>(edges: map<Id, Edge<V>>, index: map<(Id, Id), set<Id>>) {
    forall u, v :: (if (u, v) in index then index[(u, v)] != {} && index[(u, v)] == Between(edges, u, v)
                    else Between(edges, u, v) == {})
  }

  ghost predicate EndsIn<V>(edges: map<Id, Edge<V>>, nodes: set<Id>) {
    forall e :: e in edges ==> edges[e].u in nodes && edges[e].v in nodes
  }

  /** The ids "_n" that are taken and come after n. */
  function Taken(ids: set<Id>, n: nat): set<Id> {
    set i | i in ids && i.Gen? && i.n > n
  }

  /** Counts on until the id is free. */
  method Generate(ids: set<Id>, nextId: nat) returns (n: nat)
    ensures n > nextId && Gen(n) !in ids
    ensures forall k :: nextId < k < n ==> Gen(k) in ids
  {
    n := nextId + 1;
    while Gen(n) in ids
      invariant n > nextId && forall k :: nextId < k < n ==> Gen(k) in ids
      decreases Taken(ids, n - 1)
    {
      assert Gen(n) in Taken(ids, n - 1) && Gen(n) !in Taken(ids, n);
      n := n + 1;
    }
  }

  function Insert(index: map<(Id, Id), set<Id>>, a: Id, b: Id, e: Id): map<(Id, Id), set<Id>> {
    index[(a, b) := (if (a, b) in index then index[(a, b)] else {}) + {e}]
  }

  function Remove(index: map<(Id, Id), set<Id>>, a: Id, b: Id, e: Id): map<(Id, Id), set<Id>>
    requires (a, b) in index
  {
    if index[(a, b)] - {e} == {} then index - {(a, b)} else index[(a, b) := index[(a, b)] - {e}]
  }

  lemma BetweenGains<V>(edges: map<Id, Edge<V>>, e: Id, u: Id, v: Id, value: V)
    requires e !in edges
    ensures forall a, b :: Between(edges[e := Edge(u, v, value)], a, b)
                           == Between(edges, a, b) + (if a == u && b == v then {e} else {})
  {
  }

  lemma IndexesGain<V>(edges: map<Id, Edge<V>>, ins: map<(Id, Id), set<Id>>, outs: map<(Id, Id), set<Id>>, e: Id, u: Id, v: Id, value: V)
    requires e !in edges && InIndex(edges, ins) && OutIndex(edges, outs)
    ensures InIndex(edges[e := Edge(u, v, value)], Insert(ins, v, u, e))
    ensures OutIndex(edges[e := Edge(u, v, value)], Insert(outs, u, v, e))
  {
    hide Between;
    BetweenGains(edges, e, u, v, value);
  }

  lemma IndexesLose<V>(edges: map<Id, Edge<V>>, ins: map<(Id, Id), set<Id>>, outs: map<(Id, Id), set<Id>>, e: Id)
    requires e in edges && InIndex(edges, ins) && OutIndex(edges, outs)
    ensures (edges[e].v, edges[e].u) in ins && (edges[e].u, edges[e].v) in outs
    ensures InIndex(edges - {e}, Remove(ins, edges[e].v, edges[e].u, e))
    ensures OutIndex(edges - {e}, Remove(outs, edges[e].u, edges[e].v, e))
  {
    assert e in Between(edges, edges[e].u, edges[e].v);
    assert forall a, b :: Between(edges - {e}, a, b)
                          == Between(edges, a, b) - (if a == edges[e].u && b == edges[e].v then {e} else {});
  }

  class Digraph<NV, EV> {
    var nodes: map<Id, NV>
    var edges: map<Id, Edge<EV>>
    var inIndex: map<(Id, Id), set<Id>>
    var outIndex: map<(Id, Id), set<Id>>
    var nextId: nat

    ghost predicate Valid()
      reads this
    {
      EndsIn(edges, nodes.Keys) && InIndex(edges, inIndex) && OutIndex(edges, outIndex)
    }

    lemma Ends()
      requires Valid()
      ensures EndsIn(edges, nodes.Keys)
    {
    }

    constructor ()
      ensures Valid() && nodes == map[] && edges == map[] && nextId == 0
    {
      nodes, edges, inIndex, outIndex, nextId := map[], map[], map[], map[], 0;
    }

    // ---------- queries, each against the plain edge map ----------

    /** inEdges(target): in-edges from anywhere. */
    method InEdges(target: Id) returns (r: Result<set<Id>, string>)
      requires Valid()
      ensures r.Err? <==> target !in nodes
      ensures r.Ok? ==> r.value == set e | e in edges && edges[e].v == target
    {
      if target !in nodes {
        return Err("Node is not in graph");
      }
      var results := set p, e | p in inIndex && p.0 == target && e in inIndex[p] :: e;
      forall e | e in edges && edges[e].v == target ensures e in results {
        assert e in Between(edges, edges[e].u, target);
      }
      r := Ok(results);
    }

    /** inEdges(target, source): only those from source. */
    method InEdgesFrom(target: Id, source: Id) returns (r: Result<set<Id>, string>)
      requires Valid()
      ensures r.Err? <==> target !in nodes || source !in nodes
      ensures r.Ok? ==> r.value == Between(edges, source, target)
    {
      r := InEdges(target);
      if r.Ok? && source !in nodes {
        return Err("Node is not in graph");
      }
      if r.Ok? {
        r := Ok(set e | e in r.value && edges[e].u == source);
      }
    }

    method OutEdges(source: Id) returns (r: Result<set<Id>, string>)
      requires Valid()
      ensures r.Err? <==> source !in nodes
      ensures r.Ok? ==> r.value == set e | e in edges && edges[e].u == source
    {
      if source !in nodes {
        return Err("Node is not in graph");
      }
      var results := set p, e | p in outIndex && p.0 == source && e in outIndex[p] :: e;
      forall e | e in edges && edges[e].u == source ensures e in results {
        assert e in Between(edges, source, edges[e].v);
      }
      r := Ok(results);
    }

    method OutEdgesTo(source: Id, target: Id) returns (r: Result<set<Id>, string>)
      requires Valid()
      ensures r.Err? <==> source !in nodes || target !in nodes
      ensures r.Ok? ==> r.value == Between(edges, source, target)
    {
      r := OutEdges(source);
      if r.Ok? && target !in nodes {
        return Err("Node is not in graph");
      }
      if r.Ok? {
        r := Ok(set e | e in r.value && edges[e].v == target);
      }
    }

    method Successors(u: Id) returns (r: Result<set<Id>, string>)
      requires Valid()
      ensures r.Err? <==> u !in nodes
      ensures r.Ok? ==> r.value == set e | e in edges && edges[e].u == u :: edges[e].v
    {
      if u !in nodes {
        return Err("Node is not in graph");
      }
      var results := set p | p in outIndex && p.0 == u :: p.1;
      forall e | e in edges && edges[e].u == u ensures edges[e].v in results {
        assert e in Between(edges, u, edges[e].v);
        assert (u, edges[e].v) in outIndex;
      }
      forall v | v in results ensures exists e :: e in edges && edges[e].u == u && edges[e].v == v {
        var e :| e in Between(edges, u, v);
      }
      r := Ok(results);
    }

    method Predecessors(u: Id) returns (r: Result<set<Id>, string>)
      requires Valid()
      ensures r.Err? <==> u !in nodes
      ensures r.Ok? ==> r.value == set e | e in edges && edges[e].v == u :: edges[e].u
    {
      if u !in nodes {
        return Err("Node is not in graph");
      }
      var results := set p | p in inIndex && p.0 == u :: p.1;
      forall e | e in edges && edges[e].v == u ensures edges[e].u in results {
        assert e in Between(edges, edges[e].u, u);
        assert (u, edges[e].u) in inIndex;
      }
      forall v | v in results ensures exists e :: e in edges && edges[e].v == u && edges[e].u == v {
        var e :| e in Between(edges, v, u);
      }
      r := Ok(results);
    }

    method IncidentEdges(u: Id) returns (r: Result<set<Id>, string>)
      requires Valid()
      ensures r.Err? <==> u !in nodes
      ensures r.Ok? ==> r.value == set e | e in edges && (edges[e].u == u || edges[e].v == u)
    {
      var ins := InEdges(u);
      var outs := OutEdges(u);
      if ins.Err? || outs.Err? {
        return Err("Node is not in graph");
      }
      r := Ok(ins.value + outs.value);
    }

    // ---------- mutators ----------

    method AddNode(id: Option<Id>, value: NV) returns (r: Result<Id, string>)
      requires Valid()
      modifies this
      ensures Valid() && edges == old(edges)
      ensures r.Err? <==> id.Some? && id.value in old(nodes)
      ensures r.Err? ==> nodes == old(nodes) && nextId == old(nextId)
      ensures r.Ok? ==> r.value !in old(nodes) && nodes == old(nodes)[r.value := value]
      ensures r.Ok? && id.Some? ==> r.value == id.value && nextId == old(nextId)
      ensures r.Ok? && id.None? ==> r.value == Gen(nextId) && nextId > old(nextId)
    {
      var u;
      if id.None? {
        nextId := Generate(nodes.Keys, nextId);
        u := Gen(nextId);
      } else if id.value in nodes {
        return Err("Graph already has node");
      } else {
        u := id.value;
      }
      nodes := nodes[u := value];
      r := Ok(u);
    }

    method SetNode(u: Id, value: NV)
      requires Valid() && u in nodes
      modifies this`nodes
      ensures Valid() && nodes == old(nodes)[u := value]
    {
      nodes := nodes[u := value];
      assert nodes.Keys == old(nodes).Keys;
    }

    method AddEdge(id: Option<Id>, source: Id, target: Id, value: EV) returns (r: Result<Id, string>)
      requires Valid()
      modifies this
      ensures Valid() && nodes == old(nodes)
      ensures r.Err? <==> source !in nodes || target !in nodes || (id.Some? && id.value in old(edges))
      ensures r.Err? ==> edges == old(edges) && nextId == old(nextId)
      ensures r.Ok? ==> r.value !in old(edges) && edges == old(edges)[r.value := Edge(source, target, value)]
      ensures r.Ok? && id.Some? ==> r.value == id.value && nextId == old(nextId)
      ensures r.Ok? && id.None? ==> r.value == Gen(nextId) && nextId > old(nextId)
    {
      if source !in nodes || target !in nodes {
        return Err("Node is not in graph");
      }
      var e;
      if id.None? {
        nextId := Generate(edges.Keys, nextId);
        e := Gen(nextId);
      } else if id.value in edges {
        return Err("Graph already has edge");
      } else {
        e := id.value;
      }
      IndexesGain(edges, inIndex, outIndex, e, source, target, value);
      hide InIndex, OutIndex;
      edges := edges[e := Edge(source, target, value)];
      inIndex := Insert(inIndex, target, source, e);
      outIndex := Insert(outIndex, source, target, e);
      r := Ok(e);
    }

    method SetEdge(e: Id, value: EV)
      requires Valid() && e in edges
      modifies this`edges
      ensures Valid() && edges == old(edges)[e := Edge(old(edges)[e].u, old(edges)[e].v, value)]
    {
      edges := edges[e := Edge(edges[e].u, edges[e].v, value)];
      assert forall a, b :: Between(edges, a, b) == Between(old(edges), a, b);
    }

    method DelEdge(e: Id) returns (r: Result<(), string>)
      requires Valid()
      modifies this`edges, this`inIndex, this`outIndex
      ensures Valid()
      ensures r.Err? <==> e !in old(edges)
      ensures edges == old(edges) - {e}
    {
      if e !in edges {
        return Err("Edge is not in graph");
      }
      var u, v := edges[e].u, edges[e].v;
      IndexesLose(edges, inIndex, outIndex, e);
      hide InIndex, OutIndex;
      inIndex := Remove(inIndex, v, u, e);
      outIndex := Remove(outIndex, u, v, e);
      edges := edges - {e};
      r := Ok(());
    }

    /** Deletes a node and every edge incident on it. */
    method DelNode(u: Id) returns (r: Result<(), string>)
      requires Valid()
      modifies this`nodes, this`edges, this`inIndex, this`outIndex
      ensures Valid()
      ensures r.Err? <==> u !in old(nodes)
      ensures nodes == old(nodes) - {u}
      ensures r.Err? ==> edges == old(edges)
      ensures r.Ok? ==> edges == map e | e in old(edges) && old(edges)[e].u != u && old(edges)[e].v != u :: old(edges)[e]
    {
      var incident := IncidentEdges(u);
      if incident.Err? {
        return Err("Node is not in graph");
      }
      var es := Listing(incident.value);
      UptoEnds(es, incident.value);
      for i := 0 to |es|
        invariant Valid() && nodes == old(nodes) && edges == old(edges) - Upto(es, i)
      {
        UptoStep(es, incident.value, i);
        var _ := DelEdge(es[i]);
      }
      nodes := nodes - {u};
      r := Ok(());
    }
  }
}
