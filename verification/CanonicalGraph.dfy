/** The recursive serializer over object graphs: its text, the cycles it rejects, and the set it keeps while it runs. */
module CanonicalGraph {
  import opened CanonicalJson
  import opened JsonReader
  import opened JsonText
  import opened Wrappers

  type Leaf = j: Json | !j.Arr? && !j.Obj? witness Null

  /** Refused stands for what has no JSON form: a non-finite number, a function, `undefined`. */
  datatype Value = Scalar(json: Leaf) | Refused | Ref(address: nat)

  /** An array's elements, or an object's property values beside their keys in insertion order. */
  datatype Node = ArrayNode(values: seq<Value>) | ObjectNode(values: seq<Value>, keys: seq<Text>)

  type Graph = map<nat, Node>

  predicate Present(g: Graph, v: Value) {
    v.Ref? ==> v.address in g
  }

  predicate Sound(node: Node) {
    node.ObjectNode? ==> |node.keys| == |node.values| && Distinct(node.keys)
  }

  /** No dangling references, and no object with a key twice. */
  predicate WellFormedGraph(g: Graph) {
    forall n | n in g :: Sound(g[n]) && forall i :: 0 <= i < |g[n].values| ==> Present(g, g[n].values[i])
  }

  // ---------------------------------------------------------------------------------------------
  // The tree a value stands for
  // ---------------------------------------------------------------------------------------------

  /** Whether the value unfolds to a finite tree without entering a node of `path` or one twice. */
  predicate Resolves(g: Graph, v: Value, path: set<nat>)
    decreases g.Keys - path
  {
    match v
    case Scalar(_) => true
    case Refused => false
    case Ref(n) =>
      && n in g && n !in path
      && forall i :: 0 <= i < |g[n].values| ==> Resolves(g, g[n].values[i], path + {n})
  }

  function Tree(g: Graph, v: Value, path: set<nat>): Json
    requires WellFormedGraph(g) && Resolves(g, v, path)
    decreases g.Keys - path, 1
  {
    match v
    case Scalar(j) => j
    case Ref(n) =>
      var trees := Trees(g, n, path + {n});
      if g[n].ArrayNode? then Arr(trees) else Obj(Entries(g[n].keys, trees))
  }

  predicate AllResolve(g: Graph, n: nat, path: set<nat>)
    requires n in g
  {
    forall i :: 0 <= i < |g[n].values| ==> Resolves(g, g[n].values[i], path)
  }

  function Trees(g: Graph, n: nat, path: set<nat>): (r: seq<Json>)
    requires WellFormedGraph(g) && n in g && AllResolve(g, n, path)
    ensures |r| == |g[n].values|
    decreases g.Keys - path, 2
  {
    seq(|g[n].values|, i requires 0 <= i < |g[n].values| => Tree(g, g[n].values[i], path))
  }

  function Entries(keys: seq<Text>, values: seq<Json>): (r: seq<Entry>)
    requires |keys| == |values|
    ensures |r| == |keys| && Keys(r) == keys
  {
    seq(|keys|, i requires 0 <= i < |keys| => Entry(keys[i], values[i]))
  }

  /** What the serializer answers: the canonical text of the value's tree, or nothing when it has none. */
  function CanonicalText(g: Graph, v: Value, path: set<nat>): Option<Text>
    requires WellFormedGraph(g)
  {
    if Resolves(g, v, path) then Some(Canonical(Tree(g, v, path))) else None
  }

  // ---------------------------------------------------------------------------------------------
  // Which graphs have a tree
  // ---------------------------------------------------------------------------------------------

  /** Entering the nodes `p` one inside the other, starting at `v`, one meets `end`. */
  ghost predicate Walk(g: Graph, v: Value, p: seq<nat>, end: Value)
    decreases |p|
  {
    if p == [] then v == end
    else v == Ref(p[0]) && p[0] in g && exists c :: c in g[p[0]].values && Walk(g, c, p[1..], end)
  }

  /** A walk meets a value it cannot write, or a node it is still inside of. */
  predicate Stuck(p: seq<nat>, path: set<nat>, end: Value) {
    end == Refused || (end.Ref? && (end.address in path || end.address in p))
  }

  lemma {:induction false} WalkAvoids(g: Graph, v: Value, path: set<nat>, p: seq<nat>, end: Value)
    requires Resolves(g, v, path) && Walk(g, v, p, end)
    ensures !Stuck(p, path, end)
    decreases |p|
  {
    if p != [] {
      var c :| c in g[p[0]].values && Walk(g, c, p[1..], end);
      WalkAvoids(g, c, path + {p[0]}, p[1..], end);
      assert p == [p[0]] + p[1..];
    }
  }

  lemma {:induction false} FailureWalk(g: Graph, v: Value, path: set<nat>) returns (p: seq<nat>, end: Value)
    requires WellFormedGraph(g) && Present(g, v) && !Resolves(g, v, path)
    ensures Walk(g, v, p, end) && Stuck(p, path, end)
    decreases g.Keys - path
  {
    p, end := [], v;
    if v.Ref? && v.address !in path {
      var n := v.address;
      var i :| 0 <= i < |g[n].values| && !Resolves(g, g[n].values[i], path + {n});
      var tail;
      tail, end := FailureWalk(g, g[n].values[i], path + {n});
      p := [n] + tail;
      assert p[1..] == tail && g[n].values[i] in g[p[0]].values;
    }
  }

  /**
   Serialization succeeds exactly when nothing unwritable and no cycle is reachable; a node reachable in several
   ways is allowed.
   */
  lemma SucceedsExactly(g: Graph, v: Value)
    requires WellFormedGraph(g) && Present(g, v)
    ensures CanonicalText(g, v, {}).Some? <==>
            (forall p, end :: Walk(g, v, p, end) ==> end != Refused && !(end.Ref? && end.address in p))
  {
    if Resolves(g, v, {}) {
      forall p, end | Walk(g, v, p, end) ensures end != Refused && !(end.Ref? && end.address in p) {
        WalkAvoids(g, v, {}, p, end);
      }
    } else {
      var p, end := FailureWalk(g, v, {});
      assert Walk(g, v, p, end) && (end == Refused || (end.Ref? && end.address in p));
    }
  }

  lemma {:induction false} TreeIsWellFormed(g: Graph, v: Value, path: set<nat>)
    requires WellFormedGraph(g) && Resolves(g, v, path)
    ensures WellFormed(Tree(g, v, path))
    decreases g.Keys - path
  {
    if v.Ref? {
      var n := v.address;
      forall i | 0 <= i < |g[n].values| ensures WellFormed(Trees(g, n, path + {n})[i]) {
        TreeIsWellFormed(g, g[n].values[i], path + {n});
      }
      assert Sound(g[n]);
    }
  }

  /** Two object graphs have one text exactly when their trees differ only in the insertion order of keys. */
  lemma TextsAgree(g: Graph, v: Value, h: Graph, w: Value)
    requires WellFormedGraph(g) && WellFormedGraph(h)
    requires Resolves(g, v, {}) && Resolves(h, w, {})
    ensures CanonicalText(g, v, {}) == CanonicalText(h, w, {}) <==> Same(Tree(g, v, {}), Tree(h, w, {}))
  {
    hide Tree, Resolves, Same, WellFormed, Canonical;
    TreeIsWellFormed(g, v, {});
    TreeIsWellFormed(h, w, {});
    CanonicalDetermines(Tree(g, v, {}), Tree(h, w, {}));
  }

  /** The value is the graph's, written out: elements and properties in the order the graph lists them. */
  ghost predicate Denotes(g: Graph, v: Value, j: Json)
    decreases j
  {
    match v
    case Scalar(leaf) => j == leaf
    case Refused => false
    case Ref(n) =>
      n in g &&
      match j
      case Arr(items) =>
        g[n].ArrayNode? && |items| == |g[n].values| && forall i :: 0 <= i < |items| ==> Denotes(g, g[n].values[i], items[i])
      case Obj(entries) =>
        && g[n].ObjectNode? && |entries| == |g[n].values| == |g[n].keys|
        && forall i :: 0 <= i < |entries| ==> entries[i].key == g[n].keys[i] && Denotes(g, g[n].values[i], entries[i].value)
      case _ => false
  }

  lemma {:induction false} TreeDenotes(g: Graph, v: Value, path: set<nat>)
    requires WellFormedGraph(g) && Resolves(g, v, path)
    ensures Denotes(g, v, Tree(g, v, path))
    decreases g.Keys - path
  {
    if v.Ref? {
      var n := v.address;
      forall i | 0 <= i < |g[n].values| ensures Denotes(g, g[n].values[i], Trees(g, n, path + {n})[i]) {
        TreeDenotes(g, g[n].values[i], path + {n});
      }
      assert Sound(g[n]);
    }
  }

  /** Read by the grammar of JSON, the text is the graph's value, up to the order of object keys. */
  lemma TextDenotes(g: Graph, v: Value)
    requires WellFormedGraph(g)
    ensures CanonicalText(g, v, {}).Some? ==>
      var read := ReadAll(CanonicalText(g, v, {}).value);
      read.Some? && exists j :: Denotes(g, v, j) && Same(read.value, j)
  {
    hide Tree, Resolves, Denotes, Same, WellFormed, Canonical, ReadAll, IsCanonicalText;
    if CanonicalText(g, v, {}).Some? {
      TreeIsWellFormed(g, v, {});
      TreeDenotes(g, v, {});
      CanonicalIsAccepted(Tree(g, v, {}));
    }
  }

  // ---------------------------------------------------------------------------------------------
  // Joining the texts of the parts
  // ---------------------------------------------------------------------------------------------

  /** `join(',')`; `first` is false in the middle of the list. */
  function Join(texts: seq<Text>, first: bool): Text {
    if texts == [] then [] else Separator(first) + texts[0] + Join(texts[1..], false)
  }

  lemma {:induction false} JoinItems(texts: seq<Text>, items: seq<Json>, first: bool)
    requires |texts| == |items| && forall i :: 0 <= i < |items| ==> texts[i] == Write(items[i])
    ensures Join(texts, first) + [CLOSE_ARRAY] == WriteItems(items, first)
  {
    hide Write;
    if items != [] {
      JoinItems(texts[1..], items[1..], false);
      JoinStep(Separator(first), texts[0], Join(texts[1..], false), [CLOSE_ARRAY]);
    }
  }

  lemma JoinStep(a: Text, b: Text, c: Text, d: Text)
    ensures a + b + c + d == a + (b + (c + d))
  {
  }

  function Property(e: Entry): Text {
    Quoted(e.key) + [COLON] + Write(e.value)
  }

  lemma {:induction false} JoinEntries(texts: seq<Text>, entries: seq<Entry>, first: bool)
    requires |texts| == |entries| && forall i :: 0 <= i < |entries| ==> texts[i] == Property(entries[i])
    ensures Join(texts, first) + [CLOSE_OBJECT] == WriteEntries(entries, first)
  {
    hide Write, Quoted, Property;
    if entries != [] {
      JoinEntries(texts[1..], entries[1..], false);
      PropertyStep(first, entries[0], Join(texts[1..], false));
    }
  }

  lemma PropertyStep(first: bool, e: Entry, rest: Text)
    ensures Separator(first) + Property(e) + rest + [CLOSE_OBJECT] ==
            Separator(first) + (Quoted(e.key) + ([COLON] + (Write(e.value) + (rest + [CLOSE_OBJECT]))))
  {
    hide Write, Quoted, Separator;
  }

  lemma ArrayText(g: Graph, n: nat, path: set<nat>, texts: seq<Text>)
    requires WellFormedGraph(g) && n in g && g[n].ArrayNode? && n !in path && AllResolve(g, n, path + {n})
    requires |texts| == |g[n].values|
    requires forall i :: 0 <= i < |texts| ==> texts[i] == Canonical(Tree(g, g[n].values[i], path + {n}))
    ensures CanonicalText(g, Ref(n), path) == Some([OPEN_ARRAY] + (Join(texts, true) + [CLOSE_ARRAY]))
  {
    hide Write, Join;
    var items := NormalItems(Trees(g, n, path + {n}));
    JoinItems(texts, items, true);
    assert Write(Arr(items)) == [OPEN_ARRAY] + WriteItems(items, true) by {
      WriteArray(items);
    }
  }

  lemma WriteArray(items: seq<Json>)
    ensures Write(Arr(items)) == [OPEN_ARRAY] + WriteItems(items, true)
  {
  }

  lemma WriteObject(entries: seq<Entry>)
    ensures Write(Obj(entries)) == [OPEN_OBJECT] + WriteEntries(entries, true)
  {
  }

  lemma ObjectText(g: Graph, n: nat, path: set<nat>, order: seq<nat>, texts: seq<Text>)
    requires WellFormedGraph(g) && n in g && g[n].ObjectNode? && n !in path && AllResolve(g, n, path + {n})
    requires |texts| == |g[n].values| && Sound(g[n]) && order == Order(g[n].keys)
    requires forall k :: 0 <= k < |texts| ==>
               texts[k] == Quoted(g[n].keys[order[k]]) + [COLON]
                           + Canonical(Tree(g, g[n].values[order[k]], path + {n}))
    ensures CanonicalText(g, Ref(n), path) == Some([OPEN_OBJECT] + (Join(texts, true) + [CLOSE_OBJECT]))
  {
    hide Write, Quoted, Join, Order, Less, Distinct;
    var entries := Entries(g[n].keys, Trees(g, n, path + {n}));
    forall k | 0 <= k < |texts| ensures texts[k] == Property(SortedEntries(entries)[k]) {
      assert SortedEntries(entries)[k] == NormalEntries(entries)[order[k]];
    }
    JoinEntries(texts, SortedEntries(entries), true);
    WriteObject(SortedEntries(entries));
  }

  /** The sorted keys leave no property out. */
  lemma AllListed(g: Graph, n: nat, path: set<nat>, order: seq<nat>)
    requires n in g && g[n].ObjectNode? && Sound(g[n]) && order == Order(g[n].keys)
    requires forall k :: 0 <= k < |order| ==> Resolves(g, g[n].values[order[k]], path)
    ensures AllResolve(g, n, path)
  {
    hide Order, Resolves;
    OrderAscends(g[n].keys);
    forall i: nat | i < |g[n].values| ensures Resolves(g, g[n].values[i], path) {
      assert i in order;
    }
  }

  /** A part that cannot be written makes the whole unwritable. */
  lemma PartFails(g: Graph, n: nat, i: nat, path: set<nat>)
    requires WellFormedGraph(g) && n in g && i < |g[n].values| && n in path
    requires CanonicalText(g, g[n].values[i], path) == None
    ensures CanonicalText(g, Ref(n), path - {n}) == None
  {
    assert path == path - {n} + {n};
  }

  // ---------------------------------------------------------------------------------------------
  // The serializer
  // ---------------------------------------------------------------------------------------------

  /** One run over an object graph, with the set of objects being written. */
  class CanonicalSerializer {
    const graph: Graph

    /** The launch decision takes an object off the set in a `finally`; the evidence bundle only after success. */
    const restoresOnFailure: bool

    var seen: set<nat>

    constructor (graph: Graph, restoresOnFailure: bool)
      ensures this.graph == graph && this.restoresOnFailure == restoresOnFailure && seen == {}
    {
      this.graph, this.restoresOnFailure, seen := graph, restoresOnFailure, {};
    }

    method Serialize(value: Value) returns (r: Option<Text>)
      requires WellFormedGraph(graph) && Present(graph, value)
      modifies this`seen
      ensures r == CanonicalText(graph, value, old(seen))
      ensures r.Some? || restoresOnFailure ==> seen == old(seen)
      ensures old(seen) <= seen
      decreases graph.Keys - seen, 1
    {
      match value
      case Scalar(j) => return Some(Write(j));
      case Refused => return None;
      case Ref(n) =>
        if n in seen {
          return None;
        }
        seen := seen + {n};
        if graph[n].ArrayNode? {
          r := SerializeArray(n);
        } else {
          r := SerializeObject(n);
        }
        if r.Some? || restoresOnFailure {
          seen := seen - {n};
        }
    }

    method SerializeArray(n: nat) returns (r: Option<Text>)
      requires WellFormedGraph(graph) && n in graph && graph[n].ArrayNode? && n in seen
      modifies this`seen
      ensures r == CanonicalText(graph, Ref(n), old(seen) - {n})
      ensures r.Some? || restoresOnFailure ==> seen == old(seen)
      ensures old(seen) <= seen
      decreases graph.Keys - seen, 2
    {
      hide Resolves, Tree, Canonical, Write, WriteItems, Join;
      var values := graph[n].values;
      assert seen == seen - {n} + {n};
      var texts: seq<Text> := [];
      while |texts| < |values|
        invariant |texts| <= |values| && seen == old(seen)
        invariant forall i :: 0 <= i < |texts| ==> CanonicalText(graph, values[i], seen) == Some(texts[i])
      {
        var t := Serialize(values[|texts|]);
        match t
        case None =>
          PartFails(graph, n, |texts|, old(seen));
          return None;
        case Some(text) => texts := texts + [text];
      }
      ArrayText(graph, n, seen - {n}, texts);
      return Some([OPEN_ARRAY] + (Join(texts, true) + [CLOSE_ARRAY]));
    }

    method SerializeObject(n: nat) returns (r: Option<Text>)
      requires WellFormedGraph(graph) && n in graph && graph[n].ObjectNode? && n in seen
      modifies this`seen
      ensures r == CanonicalText(graph, Ref(n), old(seen) - {n})
      ensures r.Some? || restoresOnFailure ==> seen == old(seen)
      ensures old(seen) <= seen
      decreases graph.Keys - seen, 2
    {
      hide Resolves, Tree, Canonical, Write, WriteEntries, Join, Order, Quoted, Distinct;
      var keys, values := graph[n].keys, graph[n].values;
      var order := Order(keys);
      assert seen == seen - {n} + {n};
      var texts: seq<Text> := [];
      while |texts| < |keys|
        invariant |texts| <= |keys| && seen == old(seen)
        invariant forall k :: 0 <= k < |texts| ==> CanonicalText(graph, values[order[k]], seen).Some?
        invariant forall k :: 0 <= k < |texts| ==>
                    texts[k] == Quoted(keys[order[k]]) + [COLON] + CanonicalText(graph, values[order[k]], seen).value
      {
        var k := order[|texts|];
        var t := Serialize(values[k]);
        match t
        case None =>
          PartFails(graph, n, k, old(seen));
          return None;
        case Some(text) => texts := texts + [Quoted(keys[k]) + [COLON] + text];
      }
      AllListed(graph, n, seen, order);
      ObjectText(graph, n, seen - {n}, order, texts);
      return Some([OPEN_OBJECT] + (Join(texts, true) + [CLOSE_OBJECT]));
    }
  }
}
