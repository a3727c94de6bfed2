/**
 The sanitizer of debug output. Objects live in a heap that may be cyclic; the result is a finite tree. A list or
 record of the tree remembers the object it was made from, so that expansions can be counted.
 */
module DebugSanitizer {
  import opened Outcomes
  import Text

  datatype Prim = Null | Undefined | Chars(text: string) | Number(n: int) | Flag(b: bool)

  datatype Value = Prim(prim: Prim) | Ref(ref: nat)

  /** A plain object has its own enumerable keys in order, with their values; any other object only a name. */
  datatype Node =
    | ErrorNode(name: string, message: string)
    | ArrayNode(items: seq<Value>)
    | PlainNode(keys: seq<string>, values: seq<Value>)
    | OpaqueNode(constructorName: string)

  type Heap = map<nat, Node>

  datatype Tree =
    | Leaf(prim: Prim)
    | List(origin: nat, items: seq<Tree>)
    | Record(source: Option<nat>, keys: seq<string>, values: seq<Tree>, proto: Option<Tree>)

  const REDACTED := Leaf(Chars("[REDACTED]"))
  const CIRCULAR := Leaf(Chars("[Circular]"))
  const PROTO := "__proto__"

  const WORDS: seq<string> :=
    ["authorization", "candidate", "cookie", "credential", "ice", "password", "sdp", "secret", "token", "turn"]

  /** The key pattern. Without the unicode flag it folds no other letter onto an ASCII one. */
  predicate Sensitive(key: string) {
    exists word | word in WORDS :: Text.Contains(Text.Lower(key), word)
  }

  predicate InHeap(h: Heap, v: Value) {
    v.Ref? ==> v.ref in h
  }

  predicate AllInHeap(h: Heap, vs: seq<Value>) {
    forall i :: 0 <= i < |vs| ==> InHeap(h, vs[i])
  }

  predicate DistinctKeys(keys: seq<string>) {
    forall i, j :: 0 <= i < j < |keys| ==> keys[i] != keys[j]
  }

  /** Every reference leads to an object, and an object has each key once. */
  predicate Closed(h: Heap) {
    forall r :: r in h ==>
      match h[r]
      case ArrayNode(items) => AllInHeap(h, items)
      case PlainNode(keys, values) => |keys| == |values| && DistinctKeys(keys) && AllInHeap(h, values)
      case _ => true
  }

  predicate IsContainer(h: Heap, r: nat) {
    r in h && (h[r].ArrayNode? || h[r].PlainNode?)
  }

  predicate Containers(h: Heap, seen: set<nat>) {
    forall r :: r in seen ==> IsContainer(h, r)
  }

  // ---------- the sanitizer, on values ----------

  /** An object being built by assigning its keys one after another. */
  datatype Shape = Shape(keys: seq<string>, values: seq<Tree>, proto: Option<Tree>)

  predicate IsObject(t: Tree) {
    !t.Leaf? || t.prim.Null?
  }

  /** Assigning one more key: the key `__proto__` sets the prototype instead, and only to an object or null. */
  function Put(shape: Shape, key: string, t: Tree): Shape {
    if key == PROTO then
      (if IsObject(t) then shape.(proto := Some(t)) else shape)
    else
      shape.(keys := shape.keys + [key], values := shape.values + [t])
  }

  function OpaqueName(constructorName: string): string {
    "[" + (if constructorName == "" then "Object" else constructorName) + "]"
  }

  function SanitizeValue(h: Heap, v: Value, seen: set<nat>): (r: (Tree, set<nat>))
    requires Closed(h) && InHeap(h, v) && Containers(h, seen)
    ensures seen <= r.1 && Containers(h, r.1)
    decreases h.Keys - seen, 0
  {
    if v.Prim? then
      (Leaf(v.prim), seen)
    else if v.ref in seen then
      (CIRCULAR, seen)
    else
      match h[v.ref]
      case ErrorNode(name, message) =>
        (Record(None, ["name", "message"], [Leaf(Chars(name)), Leaf(Chars(message))], None), seen)
      case ArrayNode(items) =>
        var (trees, after) := SanitizeAll(h, items, seen + {v.ref});
        (List(v.ref, trees), after)
      case OpaqueNode(name) =>
        (Leaf(Chars(OpaqueName(name))), seen)
      case PlainNode(keys, values) =>
        var (shape, after) := SanitizeFields(h, keys, values, seen + {v.ref});
        (Record(Some(v.ref), shape.keys, shape.values, shape.proto), after)
  }

  /** The elements of an array, or the arguments of a call, from first to last. */
  function SanitizeAll(h: Heap, vs: seq<Value>, seen: set<nat>): (r: (seq<Tree>, set<nat>))
    requires Closed(h) && AllInHeap(h, vs) && Containers(h, seen)
    ensures seen <= r.1 && Containers(h, r.1)
    decreases h.Keys - seen, |vs|
  {
    if vs == [] then ([], seen) else
    var (t, mid) := SanitizeValue(h, vs[0], seen);
    var (ts, after) := SanitizeAll(h, vs[1..], mid);
    ([t] + ts, after)
  }

  /** One key: redacted without looking at its value, or sanitized. */
  function SanitizeField(h: Heap, key: string, v: Value, seen: set<nat>): (r: (Tree, set<nat>))
    requires Closed(h) && InHeap(h, v) && Containers(h, seen)
    ensures seen <= r.1 && Containers(h, r.1)
    decreases h.Keys - seen, 1
  {
    if Sensitive(key) then (REDACTED, seen) else SanitizeValue(h, v, seen)
  }

  /** The keys of an object, from first to last; what the last one adds is put on what the others built. */
  function SanitizeFields(h: Heap, keys: seq<string>, values: seq<Value>, seen: set<nat>): (r: (Shape, set<nat>))
    requires Closed(h) && |keys| == |values| && AllInHeap(h, values) && Containers(h, seen)
    ensures seen <= r.1 && Containers(h, r.1)
    decreases h.Keys - seen, |keys| + 2
  {
    if keys == [] then (Shape([], [], None), seen) else
    var n := |keys| - 1;
    var (shape, mid) := SanitizeFields(h, keys[..n], values[..n], seen);
    var (t, after) := SanitizeField(h, keys[n], values[n], mid);
    (Put(shape, keys[n], t), after)
  }

  /** sanitizeDebugArgs. */
  function SanitizeArgs(h: Heap, args: seq<Value>): seq<Tree>
    requires Closed(h) && AllInHeap(h, args)
  {
    SanitizeAll(h, args, {}).0
  }

  // ---------- the object that the recursion shares ----------

  class Sanitizer {
    var seen: set<nat>

    constructor ()
      ensures seen == {}
    {
      seen := {};
    }

    method Sanitize(h: Heap, v: Value) returns (t: Tree)
      requires Closed(h) && InHeap(h, v) && Containers(h, seen)
      modifies this
      ensures (t, seen) == SanitizeValue(h, v, old(seen))
      decreases h.Keys - seen, 0
    {
      if v.Prim? {
        return Leaf(v.prim);
      }
      if v.ref in seen {
        return CIRCULAR;
      }
      match h[v.ref] {
        case ErrorNode(name, message) =>
          t := Record(None, ["name", "message"], [Leaf(Chars(name)), Leaf(Chars(message))], None);
        case ArrayNode(items) =>
          seen := seen + {v.ref};
          var trees := MapAll(h, items);
          t := List(v.ref, trees);
        case OpaqueNode(name) =>
          t := Leaf(Chars(OpaqueName(name)));
        case PlainNode(keys, values) =>
          seen := seen + {v.ref};
          var shape := ReduceKeys(h, keys, values);
          t := Record(Some(v.ref), shape.keys, shape.values, shape.proto);
      }
    }

    /** The map over an array's elements, or over the arguments. */
    method MapAll(h: Heap, vs: seq<Value>) returns (trees: seq<Tree>)
      requires Closed(h) && AllInHeap(h, vs) && Containers(h, seen)
      modifies this
      ensures (trees, seen) == SanitizeAll(h, vs, old(seen))
      decreases h.Keys - seen, 1
    {
      trees := [];
      var i := 0;
      assert vs[0..] == vs;
      while i < |vs|
        invariant 0 <= i <= |vs| && old(seen) <= seen && Containers(h, seen)
        invariant SanitizeAll(h, vs, old(seen)).1 == SanitizeAll(h, vs[i..], seen).1
        invariant SanitizeAll(h, vs, old(seen)).0 == trees + SanitizeAll(h, vs[i..], seen).0
      {
        assert vs[i..][1..] == vs[i + 1..];
        ghost var rest := SanitizeAll(h, vs[i + 1..], SanitizeValue(h, vs[i], seen).1).0;
        var t := Sanitize(h, vs[i]);
        assert trees + ([t] + rest) == trees + [t] + rest;
        trees := trees + [t];
        i := i + 1;
      }
      assert vs[i..] == [];
      assert trees + [] == trees;
    }

    /** The reduction over an object's keys. */
    method ReduceKeys(h: Heap, keys: seq<string>, values: seq<Value>) returns (shape: Shape)
      requires Closed(h) && |keys| == |values| && AllInHeap(h, values) && Containers(h, seen)
      modifies this
      ensures (shape, seen) == SanitizeFields(h, keys, values, old(seen))
      decreases h.Keys - seen, 1
    {
      shape := Shape([], [], None);
      var i := 0;
      while i < |keys|
        invariant 0 <= i <= |keys| && old(seen) <= seen && Containers(h, seen)
        invariant (shape, seen) == SanitizeFields(h, keys[..i], values[..i], old(seen))
      {
        assert keys[..i + 1][..i] == keys[..i] && values[..i + 1][..i] == values[..i];
        var t := REDACTED;
        if !Sensitive(keys[i]) {
          t := Sanitize(h, values[i]);
        }
        shape := Put(shape, keys[i], t);
        i := i + 1;
      }
      assert keys[..i] == keys && values[..i] == values;
    }
  }

  // ---------- what a tree shows, stated without the visited set ----------

  function OwnKeys(keys: seq<string>): seq<string> {
    if keys == [] then [] else
    var n := |keys| - 1;
    OwnKeys(keys[..n]) + if keys[n] == PROTO then [] else [keys[n]]
  }

  /**
   `t` is a sanitized view of `v`: a primitive is itself, an array keeps its length, an object keeps its keys but
   `__proto__`, a sensitive key shows the marker and nothing else, and a container may be cut off as circular.
   */
  ghost predicate Shows(h: Heap, v: Value, t: Tree)
    decreases t
  {
    if v.Prim? then
      t == Leaf(v.prim)
    else
      v.ref in h && match h[v.ref]
      case ErrorNode(name, message) => t == Record(None, ["name", "message"], [Leaf(Chars(name)), Leaf(Chars(message))], None)
      case OpaqueNode(name) => t == Leaf(Chars(OpaqueName(name)))
      case ArrayNode(items) =>
        || t == CIRCULAR
        || (&& t.List? && t.origin == v.ref && |t.items| == |items|
            && forall i :: 0 <= i < |items| ==> Shows(h, items[i], t.items[i]))
      case PlainNode(keys, values) =>
        || t == CIRCULAR
        || (&& t.Record? && t.source == Some(v.ref) && t.keys == OwnKeys(keys) && |t.values| == |t.keys| && |values| == |keys|
            && (forall i, j :: 0 <= i < |t.values| && 0 <= j < |keys| && keys[j] == t.keys[i] ==>
                  if Sensitive(keys[j]) then t.values[i] == REDACTED else Shows(h, values[j], t.values[i]))
            && (t.proto.Some? ==> PROTO in keys && forall j :: 0 <= j < |keys| && keys[j] == PROTO ==> Shows(h, values[j], t.proto.value)))
  }

  /** The same of an object half built. */
  ghost predicate ShapeShows(h: Heap, keys: seq<string>, values: seq<Value>, shape: Shape)
    requires |keys| == |values|
  {
    && shape.keys == OwnKeys(keys) && |shape.values| == |shape.keys|
    && (forall i, j :: 0 <= i < |shape.values| && 0 <= j < |keys| && keys[j] == shape.keys[i] ==>
          if Sensitive(keys[j]) then shape.values[i] == REDACTED else Shows(h, values[j], shape.values[i]))
    && (shape.proto.Some? ==> PROTO in keys && forall j :: 0 <= j < |keys| && keys[j] == PROTO ==> Shows(h, values[j], shape.proto.value))
  }

  lemma {:induction false} OwnKeysMembers(keys: seq<string>, key: string)
    ensures key in OwnKeys(keys) <==> key in keys && key != PROTO
  {
    if keys != [] {
      var n := |keys| - 1;
      OwnKeysMembers(keys[..n], key);
      assert keys == keys[..n] + [keys[n]];
    }
  }

  /** The values of the keys put so far. */
  ghost predicate ValuesShow(h: Heap, keys: seq<string>, values: seq<Value>, shape: Shape, i: nat, j: nat)
    requires |keys| == |values| && |shape.values| == |shape.keys|
  {
    i < |shape.values| && j < |keys| && keys[j] == shape.keys[i] ==>
      if Sensitive(keys[j]) then shape.values[i] == REDACTED else Shows(h, values[j], shape.values[i])
  }

  lemma PutKeyShows(h: Heap, keys: seq<string>, values: seq<Value>, shape: Shape, t: Tree, i: nat, j: nat)
    requires keys != [] && |keys| == |values| && DistinctKeys(keys) && keys[|keys| - 1] != PROTO
    requires ShapeShows(h, keys[..|keys| - 1], values[..|keys| - 1], shape)
    requires if Sensitive(keys[|keys| - 1]) then t == REDACTED else Shows(h, values[|keys| - 1], t)
    ensures ValuesShow(h, keys, values, Put(shape, keys[|keys| - 1], t), i, j)
  {
    var n := |keys| - 1;
    if i < |shape.keys| && j < |keys| && keys[j] == shape.keys[i] {
      OwnKeysMembers(keys[..n], shape.keys[i]);
      assert shape.keys[i] in keys[..n];
      assert keys[..n][j] == shape.keys[i];
    }
  }

  lemma PutShows(h: Heap, keys: seq<string>, values: seq<Value>, shape: Shape, t: Tree)
    requires keys != [] && |keys| == |values| && DistinctKeys(keys)
    requires ShapeShows(h, keys[..|keys| - 1], values[..|keys| - 1], shape)
    requires if Sensitive(keys[|keys| - 1]) then t == REDACTED else Shows(h, values[|keys| - 1], t)
    ensures ShapeShows(h, keys, values, Put(shape, keys[|keys| - 1], t))
  {
    var n := |keys| - 1;
    if keys[n] == PROTO {
      PutProtoShows(h, keys, values, shape, t);
    } else {
      var next := Put(shape, keys[n], t);
      forall i: nat, j: nat ensures ValuesShow(h, keys, values, next, i, j) {
        PutKeyShows(h, keys, values, shape, t, i, j);
      }
      if shape.proto.Some? {
        PutKeepsProto(h, keys, values, shape, t);
      }
      ShapeFromParts(h, keys, values, next);
    }
  }

  lemma ShapeFromParts(h: Heap, keys: seq<string>, values: seq<Value>, shape: Shape)
    requires |keys| == |values| && shape.keys == OwnKeys(keys) && |shape.values| == |shape.keys|
    requires forall i: nat, j: nat :: ValuesShow(h, keys, values, shape, i, j)
    requires shape.proto.Some? ==> PROTO in keys && forall j :: 0 <= j < |keys| && keys[j] == PROTO ==> Shows(h, values[j], shape.proto.value)
    ensures ShapeShows(h, keys, values, shape)
  {
    forall i, j | 0 <= i < |shape.values| && 0 <= j < |keys| && keys[j] == shape.keys[i]
      ensures if Sensitive(keys[j]) then shape.values[i] == REDACTED else Shows(h, values[j], shape.values[i])
    {
      assert ValuesShow(h, keys, values, shape, i, j);
    }
  }

  lemma PutKeepsProto(h: Heap, keys: seq<string>, values: seq<Value>, shape: Shape, t: Tree)
    requires keys != [] && |keys| == |values| && keys[|keys| - 1] != PROTO
    requires ShapeShows(h, keys[..|keys| - 1], values[..|keys| - 1], shape) && shape.proto.Some?
    ensures PROTO in keys && forall j :: 0 <= j < |keys| && keys[j] == PROTO ==> Shows(h, values[j], shape.proto.value)
  {
    var n := |keys| - 1;
    assert keys == keys[..n] + [keys[n]];
    forall j | 0 <= j < |keys| && keys[j] == PROTO ensures Shows(h, values[j], shape.proto.value) {
      assert keys[..n][j] == PROTO && values[..n][j] == values[j];
    }
  }

  lemma PutProtoShows(h: Heap, keys: seq<string>, values: seq<Value>, shape: Shape, t: Tree)
    requires keys != [] && |keys| == |values| && DistinctKeys(keys) && keys[|keys| - 1] == PROTO
    requires ShapeShows(h, keys[..|keys| - 1], values[..|keys| - 1], shape)
    requires if Sensitive(PROTO) then t == REDACTED else Shows(h, values[|keys| - 1], t)
    ensures ShapeShows(h, keys, values, Put(shape, PROTO, t))
  {
    var n := |keys| - 1;
    var next := Put(shape, PROTO, t);
    assert shape.proto.None?;
    forall i, j | 0 <= i < |next.values| && 0 <= j < |keys| && keys[j] == next.keys[i]
      ensures if Sensitive(keys[j]) then next.values[i] == REDACTED else Shows(h, values[j], next.values[i])
    {
      OwnKeysMembers(keys[..n], next.keys[i]);
      assert keys[..n][j] == next.keys[i] && values[..n][j] == values[j];
    }
  }

  /** The sanitizer shows its argument, whatever it has visited before, also in a cyclic heap. */
  lemma {:induction false} ValueShows(h: Heap, v: Value, seen: set<nat>)
    requires Closed(h) && InHeap(h, v) && Containers(h, seen)
    ensures Shows(h, v, SanitizeValue(h, v, seen).0)
    decreases h.Keys - seen, 0
  {
    if v.Ref? && v.ref !in seen {
      match h[v.ref] {
        case ArrayNode(items) => AllShows(h, items, seen + {v.ref});
        case PlainNode(keys, values) => FieldsShow(h, keys, values, seen + {v.ref});
        case ErrorNode(_, _) =>
        case OpaqueNode(_) =>
      }
    }
  }

  lemma {:induction false} AllShows(h: Heap, vs: seq<Value>, seen: set<nat>)
    requires Closed(h) && AllInHeap(h, vs) && Containers(h, seen)
    ensures var ts := SanitizeAll(h, vs, seen).0;
            |ts| == |vs| && forall i :: 0 <= i < |vs| ==> Shows(h, vs[i], ts[i])
    decreases h.Keys - seen, |vs|
  {
    if vs != [] {
      ValueShows(h, vs[0], seen);
      AllShows(h, vs[1..], SanitizeValue(h, vs[0], seen).1);
      var ts := SanitizeAll(h, vs, seen).0;
      forall i | 0 <= i < |vs| ensures Shows(h, vs[i], ts[i]) {
        assert i > 0 ==> vs[i] == vs[1..][i - 1] && ts[i] == ts[1..][i - 1];
      }
    }
  }

  lemma {:induction false} FieldsShow(h: Heap, keys: seq<string>, values: seq<Value>, seen: set<nat>)
    requires Closed(h) && |keys| == |values| && DistinctKeys(keys) && AllInHeap(h, values) && Containers(h, seen)
    ensures ShapeShows(h, keys, values, SanitizeFields(h, keys, values, seen).0)
    decreases h.Keys - seen, |keys| + 2
  {
    if keys != [] {
      var n := |keys| - 1;
      FieldsShow(h, keys[..n], values[..n], seen);
      var (shape, mid) := SanitizeFields(h, keys[..n], values[..n], seen);
      if !Sensitive(keys[n]) {
        ValueShows(h, values[n], mid);
      }
      PutShows(h, keys, values, shape, SanitizeField(h, keys[n], values[n], mid).0);
    }
  }

  /** Every argument is shown by the tree in its place. */
  lemma ArgsShown(h: Heap, args: seq<Value>)
    requires Closed(h) && AllInHeap(h, args)
    ensures |SanitizeArgs(h, args)| == |args|
    ensures forall i :: 0 <= i < |args| ==> Shows(h, args[i], SanitizeArgs(h, args)[i])
  {
    AllShows(h, args, {});
  }

  // ---------- redaction ----------

  /** Below `t`, every sensitive key of an object shows the marker. */
  ghost predicate Redacts(t: Tree)
    decreases t
  {
    match t
    case Leaf(_) => true
    case List(_, items) => forall i :: 0 <= i < |items| ==> Redacts(items[i])
    case Record(source, keys, values, proto) =>
      && |values| == |keys|
      && (forall i :: 0 <= i < |values| ==> Redacts(values[i]) && (source.Some? && Sensitive(keys[i]) ==> values[i] == REDACTED))
      && (proto.Some? ==> Redacts(proto.value))
  }

  lemma {:induction false} ShownRedacts(h: Heap, v: Value, t: Tree)
    requires Closed(h) && Shows(h, v, t)
    ensures Redacts(t)
    decreases t
  {
    if t.List? {
      var items := h[v.ref].items;
      forall i | 0 <= i < |t.items| ensures Redacts(t.items[i]) {
        ShownRedacts(h, items[i], t.items[i]);
      }
    } else if t.Record? && t.source.Some? {
      var (keys, values) := (h[v.ref].keys, h[v.ref].values);
      forall i | 0 <= i < |t.values| ensures Redacts(t.values[i]) && (Sensitive(t.keys[i]) ==> t.values[i] == REDACTED) {
        OwnKeysMembers(keys, t.keys[i]);
        var j :| 0 <= j < |keys| && keys[j] == t.keys[i];
        if !Sensitive(keys[j]) {
          ShownRedacts(h, values[j], t.values[i]);
        }
      }
      if t.proto.Some? {
        var j :| 0 <= j < |keys| && keys[j] == PROTO;
        ShownRedacts(h, values[j], t.proto.value);
      }
    }
  }

  /** Wherever it is nested, every sensitive key of the output shows the marker. */
  lemma ArgsRedacted(h: Heap, args: seq<Value>, i: nat)
    requires Closed(h) && AllInHeap(h, args) && i < |args|
    ensures |SanitizeArgs(h, args)| == |args| && Redacts(SanitizeArgs(h, args)[i])
  {
    ArgsShown(h, args);
    ShownRedacts(h, args[i], SanitizeArgs(h, args)[i]);
  }

  /** Two objects that differ only in what their sensitive keys hold. */
  ghost predicate SameNode(a: Node, b: Node) {
    if a.PlainNode? && b.PlainNode? then
      && a.keys == b.keys && |a.values| == |b.values| == |a.keys|
      && forall i :: 0 <= i < |a.keys| && !Sensitive(a.keys[i]) ==> a.values[i] == b.values[i]
    else
      a == b
  }

  ghost predicate SameOutsideSecrets(h1: Heap, h2: Heap) {
    h1.Keys == h2.Keys && forall r :: r in h1 ==> SameNode(h1[r], h2[r])
  }

  lemma SameContainers(h1: Heap, h2: Heap, seen: set<nat>)
    requires SameOutsideSecrets(h1, h2) && Containers(h1, seen)
    ensures Containers(h2, seen)
  {
    forall r | r in seen ensures IsContainer(h2, r) {
      assert SameNode(h1[r], h2[r]);
    }
  }

  lemma {:induction false} ValueIgnoresSecrets(h1: Heap, h2: Heap, v: Value, seen: set<nat>)
    requires Closed(h1) && Closed(h2) && SameOutsideSecrets(h1, h2) && InHeap(h1, v) && Containers(h1, seen)
    ensures Containers(h2, seen) && SanitizeValue(h1, v, seen) == SanitizeValue(h2, v, seen)
    decreases h1.Keys - seen, 0
  {
    SameContainers(h1, h2, seen);
    if v.Ref? && v.ref !in seen {
      assert SameNode(h1[v.ref], h2[v.ref]);
      match h1[v.ref] {
        case ArrayNode(items) => AllIgnoreSecrets(h1, h2, items, seen + {v.ref});
        case PlainNode(keys, values) => FieldsIgnoreSecrets(h1, h2, keys, values, h2[v.ref].values, seen + {v.ref});
        case ErrorNode(_, _) =>
        case OpaqueNode(_) =>
      }
    }
  }

  lemma {:induction false} AllIgnoreSecrets(h1: Heap, h2: Heap, vs: seq<Value>, seen: set<nat>)
    requires Closed(h1) && Closed(h2) && SameOutsideSecrets(h1, h2) && AllInHeap(h1, vs) && Containers(h1, seen)
    ensures Containers(h2, seen) && SanitizeAll(h1, vs, seen) == SanitizeAll(h2, vs, seen)
    decreases h1.Keys - seen, |vs|
  {
    SameContainers(h1, h2, seen);
    if vs != [] {
      ValueIgnoresSecrets(h1, h2, vs[0], seen);
      AllIgnoreSecrets(h1, h2, vs[1..], SanitizeValue(h1, vs[0], seen).1);
    }
  }

  lemma {:induction false} FieldsIgnoreSecrets(h1: Heap, h2: Heap, keys: seq<string>, values1: seq<Value>, values2: seq<Value>, seen: set<nat>)
    requires Closed(h1) && Closed(h2) && SameOutsideSecrets(h1, h2) && Containers(h1, seen)
    requires |keys| == |values1| == |values2| && AllInHeap(h1, values1) && AllInHeap(h2, values2)
    requires forall i :: 0 <= i < |keys| && !Sensitive(keys[i]) ==> values1[i] == values2[i]
    ensures Containers(h2, seen) && SanitizeFields(h1, keys, values1, seen) == SanitizeFields(h2, keys, values2, seen)
    decreases h1.Keys - seen, |keys| + 2
  {
    SameContainers(h1, h2, seen);
    if keys != [] {
      var n := |keys| - 1;
      FieldsIgnoreSecrets(h1, h2, keys[..n], values1[..n], values2[..n], seen);
      if !Sensitive(keys[n]) {
        ValueIgnoresSecrets(h1, h2, values1[n], SanitizeFields(h1, keys[..n], values1[..n], seen).1);
      }
    }
  }

  /** What sensitive keys hold has no influence on the output, not even on what is cut off as circular. */
  lemma SecretsDoNotLeak(h1: Heap, h2: Heap, args: seq<Value>)
    requires Closed(h1) && Closed(h2) && SameOutsideSecrets(h1, h2) && AllInHeap(h1, args)
    ensures SanitizeArgs(h1, args) == SanitizeArgs(h2, args)
  {
    AllIgnoreSecrets(h1, h2, args, {});
  }

  // ---------- each container is expanded once ----------

  /** The objects that lists and records of `t` were made from, as often as they were. */
  function Origins(t: Tree): multiset<nat>
    decreases t
  {
    match t
    case Leaf(_) => multiset{}
    case List(origin, items) => multiset{origin} + AllOrigins(items)
    case Record(source, _, values, proto) =>
      (if source.Some? then multiset{source.value} else multiset{}) + AllOrigins(values) + (if proto.Some? then Origins(proto.value) else multiset{})
  }

  function AllOrigins(ts: seq<Tree>): multiset<nat>
    decreases ts
  {
    if ts == [] then multiset{} else Origins(ts[0]) + AllOrigins(ts[1..])
  }

  lemma {:induction false} AllOriginsAppend(ts: seq<Tree>, t: Tree)
    ensures AllOrigins(ts + [t]) == AllOrigins(ts) + Origins(t)
  {
    if ts == [] {
      assert [] + [t] == [t];
    } else {
      AllOriginsAppend(ts[1..], t);
      assert (ts + [t])[1..] == ts[1..] + [t];
    }
  }

  lemma PairOrigins(a: Tree, b: Tree)
    ensures AllOrigins([a, b]) == Origins(a) + Origins(b)
  {
    AllOriginsAppend([], a);
    AllOriginsAppend([a], b);
    assert [] + [a] == [a] && [a] + [b] == [a, b];
  }

  /** The visited sets grow by disjoint steps. */
  lemma StepsAddUp(a: set<nat>, b: set<nat>, c: set<nat>)
    requires a <= b <= c
    ensures multiset(b - a) + multiset(c - b) == multiset(c - a)
  {
  }

  function ShapeOrigins(shape: Shape): multiset<nat> {
    AllOrigins(shape.values) + if shape.proto.Some? then Origins(shape.proto.value) else multiset{}
  }

  lemma PutOrigins(shape: Shape, key: string, t: Tree)
    requires key == PROTO ==> shape.proto.None?
    ensures ShapeOrigins(Put(shape, key, t)) == ShapeOrigins(shape) + Origins(t)
  {
    if key != PROTO {
      AllOriginsAppend(shape.values, t);
    }
  }

  /** A sanitized value expands exactly the containers that it adds to the visited set, each once. */
  lemma {:induction false} ValueExpands(h: Heap, v: Value, seen: set<nat>)
    requires Closed(h) && InHeap(h, v) && Containers(h, seen)
    ensures var (t, after) := SanitizeValue(h, v, seen); Origins(t) == multiset(after - seen)
    decreases h.Keys - seen, 0
  {
    if v.Ref? && v.ref !in seen {
      var next := seen + {v.ref};
      match h[v.ref] {
        case ArrayNode(items) =>
          AllExpand(h, items, next);
          StepsAddUp(seen, next, SanitizeAll(h, items, next).1);
          assert next - seen == {v.ref};
        case PlainNode(keys, values) =>
          FieldsExpand(h, keys, values, next);
          StepsAddUp(seen, next, SanitizeFields(h, keys, values, next).1);
          assert next - seen == {v.ref};
        case ErrorNode(name, message) =>
          PairOrigins(Leaf(Chars(name)), Leaf(Chars(message)));
        case OpaqueNode(_) =>
      }
    }
  }

  lemma {:induction false} AllExpand(h: Heap, vs: seq<Value>, seen: set<nat>)
    requires Closed(h) && AllInHeap(h, vs) && Containers(h, seen)
    ensures var (ts, after) := SanitizeAll(h, vs, seen); AllOrigins(ts) == multiset(after - seen)
    decreases h.Keys - seen, |vs|
  {
    if vs != [] {
      var (t, mid) := SanitizeValue(h, vs[0], seen);
      var (ts, after) := SanitizeAll(h, vs[1..], mid);
      ValueExpands(h, vs[0], seen);
      AllExpand(h, vs[1..], mid);
      StepsAddUp(seen, mid, after);
      assert ([t] + ts)[1..] == ts;
    }
  }

  lemma {:induction false} FieldsExpand(h: Heap, keys: seq<string>, values: seq<Value>, seen: set<nat>)
    requires Closed(h) && |keys| == |values| && DistinctKeys(keys) && AllInHeap(h, values) && Containers(h, seen)
    ensures var (shape, after) := SanitizeFields(h, keys, values, seen); ShapeOrigins(shape) == multiset(after - seen)
    decreases h.Keys - seen, |keys| + 2
  {
    if keys != [] {
      var n := |keys| - 1;
      var (shape, mid) := SanitizeFields(h, keys[..n], values[..n], seen);
      var (t, after) := SanitizeField(h, keys[n], values[n], mid);
      FieldsExpand(h, keys[..n], values[..n], seen);
      FieldsShow(h, keys[..n], values[..n], seen);
      if !Sensitive(keys[n]) {
        ValueExpands(h, values[n], mid);
      }
      StepsAddUp(seen, mid, after);
      assert keys[n] == PROTO ==> PROTO !in keys[..n];
      PutOrigins(shape, keys[n], t);
    }
  }

  // ---------- and they are the reachable ones ----------

  /** `c` is an element of the array `r`, or is held by the object `r` under a key that is not redacted. */
  ghost predicate Child(h: Heap, r: nat, c: nat) {
    && r in h && IsContainer(h, c)
    && match h[r]
       case ArrayNode(items) => Ref(c) in items
       case PlainNode(keys, values) => exists j :: 0 <= j < |keys| && j < |values| && values[j] == Ref(c) && !Sensitive(keys[j])
       case _ => false
  }

  /** A path from one of `vs` to `r` through containers, none of them under a redacted key. */
  ghost predicate Path(h: Heap, vs: seq<Value>, path: seq<nat>, r: nat) {
    && path != [] && path[|path| - 1] == r
    && Ref(path[0]) in vs && IsContainer(h, path[0])
    && forall i :: 0 <= i < |path| - 1 ==> Child(h, path[i], path[i + 1])
  }

  ghost predicate Reachable(h: Heap, vs: seq<Value>, r: nat) {
    exists path :: Path(h, vs, path, r)
  }

  lemma ReachableWider(h: Heap, vs: seq<Value>, ws: seq<Value>, r: nat)
    requires Reachable(h, vs, r) && forall v :: v in vs ==> v in ws
    ensures Reachable(h, ws, r)
  {
    var path :| Path(h, vs, path, r);
    assert Path(h, ws, path, r);
  }

  lemma ReachableThrough(h: Heap, parent: nat, vs: seq<Value>, r: nat)
    requires IsContainer(h, parent) && Reachable(h, vs, r)
    requires forall c :: Ref(c) in vs && IsContainer(h, c) ==> Child(h, parent, c)
    ensures Reachable(h, [Ref(parent)], r)
  {
    var path :| Path(h, vs, path, r);
    var longer := [parent] + path;
    forall i | 0 <= i < |longer| - 1 ensures Child(h, longer[i], longer[i + 1]) {
      if i > 0 {
        assert longer[i] == path[i - 1] && longer[i + 1] == path[i];
      }
    }
    assert Path(h, [Ref(parent)], longer, r);
  }

  /** The values of an object that are looked at. */
  function Open(keys: seq<string>, values: seq<Value>): seq<Value>
    requires |keys| == |values|
  {
    if keys == [] then [] else
    var n := |keys| - 1;
    Open(keys[..n], values[..n]) + if Sensitive(keys[n]) then [] else [values[n]]
  }

  lemma {:induction false} OpenMembers(keys: seq<string>, values: seq<Value>, v: Value)
    requires |keys| == |values|
    ensures v in Open(keys, values) <==> exists j :: 0 <= j < |keys| && values[j] == v && !Sensitive(keys[j])
  {
    if keys != [] {
      var n := |keys| - 1;
      OpenMembers(keys[..n], values[..n], v);
      if v in Open(keys[..n], values[..n]) {
        var j :| 0 <= j < n && values[..n][j] == v && !Sensitive(keys[..n][j]);
        assert values[j] == v && !Sensitive(keys[j]);
      }
      if j :| 0 <= j < n && values[j] == v && !Sensitive(keys[j]) {
        assert values[..n][j] == v && !Sensitive(keys[..n][j]);
      }
    }
  }

  /** Whatever `vs` adds to the visited set is reachable from it; its containers and all their children are visited. */
  ghost predicate Explores(h: Heap, vs: seq<Value>, seen: set<nat>, after: set<nat>) {
    && (forall r :: r in after && r !in seen ==> Reachable(h, vs, r))
    && (forall c :: Ref(c) in vs && IsContainer(h, c) ==> c in after)
    && (forall r, c :: r in after && r !in seen && Child(h, r, c) ==> c in after)
  }

  lemma ExploresInTurn(h: Heap, vs: seq<Value>, ws: seq<Value>, seen: set<nat>, mid: set<nat>, after: set<nat>)
    requires Explores(h, vs, seen, mid) && Explores(h, ws, mid, after) && seen <= mid <= after
    ensures Explores(h, vs + ws, seen, after)
  {
    forall r | r in after && r !in seen ensures Reachable(h, vs + ws, r) {
      if r in mid {
        ReachableWider(h, vs, vs + ws, r);
      } else {
        ReachableWider(h, ws, vs + ws, r);
      }
    }
  }

  lemma ExploresInside(h: Heap, parent: nat, vs: seq<Value>, seen: set<nat>, after: set<nat>)
    requires IsContainer(h, parent) && Explores(h, vs, seen + {parent}, after) && seen + {parent} <= after
    requires forall c :: Child(h, parent, c) <==> Ref(c) in vs && IsContainer(h, c)
    ensures Explores(h, [Ref(parent)], seen, after)
  {
    forall r | r in after && r !in seen ensures Reachable(h, [Ref(parent)], r) {
      if r == parent {
        assert Path(h, [Ref(parent)], [parent], parent);
      } else {
        ReachableThrough(h, parent, vs, r);
      }
    }
  }

  lemma {:induction false} ValueExplores(h: Heap, v: Value, seen: set<nat>)
    requires Closed(h) && InHeap(h, v) && Containers(h, seen)
    ensures Explores(h, [v], seen, SanitizeValue(h, v, seen).1)
    decreases h.Keys - seen, 0
  {
    if v.Ref? && v.ref !in seen {
      var next := seen + {v.ref};
      match h[v.ref] {
        case ArrayNode(items) =>
          AllExplores(h, items, next);
          ExploresInside(h, v.ref, items, seen, SanitizeAll(h, items, next).1);
        case PlainNode(keys, values) =>
          FieldsExplore(h, keys, values, next);
          forall c ensures Child(h, v.ref, c) <==> Ref(c) in Open(keys, values) && IsContainer(h, c) {
            OpenMembers(keys, values, Ref(c));
          }
          ExploresInside(h, v.ref, Open(keys, values), seen, SanitizeFields(h, keys, values, next).1);
        case ErrorNode(_, _) =>
        case OpaqueNode(_) =>
      }
    }
  }

  lemma {:induction false} AllExplores(h: Heap, vs: seq<Value>, seen: set<nat>)
    requires Closed(h) && AllInHeap(h, vs) && Containers(h, seen)
    ensures Explores(h, vs, seen, SanitizeAll(h, vs, seen).1)
    decreases h.Keys - seen, |vs|
  {
    if vs != [] {
      var mid := SanitizeValue(h, vs[0], seen).1;
      ValueExplores(h, vs[0], seen);
      AllExplores(h, vs[1..], mid);
      ExploresInTurn(h, [vs[0]], vs[1..], seen, mid, SanitizeAll(h, vs[1..], mid).1);
      assert vs == [vs[0]] + vs[1..];
    }
  }

  lemma {:induction false} FieldsExplore(h: Heap, keys: seq<string>, values: seq<Value>, seen: set<nat>)
    requires Closed(h) && |keys| == |values| && AllInHeap(h, values) && Containers(h, seen)
    ensures Explores(h, Open(keys, values), seen, SanitizeFields(h, keys, values, seen).1)
    decreases h.Keys - seen, |keys| + 2
  {
    if keys != [] {
      var n := |keys| - 1;
      FieldsExplore(h, keys[..n], values[..n], seen);
      var mid := SanitizeFields(h, keys[..n], values[..n], seen).1;
      if !Sensitive(keys[n]) {
        ValueExplores(h, values[n], mid);
        ExploresInTurn(h, Open(keys[..n], values[..n]), [values[n]], seen, mid, SanitizeValue(h, values[n], mid).1);
      } else {
        assert Open(keys, values) == Open(keys[..n], values[..n]);
      }
    }
  }

  lemma {:induction false} PathVisited(h: Heap, vs: seq<Value>, after: set<nat>, path: seq<nat>, r: nat)
    requires Explores(h, vs, {}, after) && Path(h, vs, path, r)
    ensures r in after
    decreases |path|
  {
    if |path| > 1 {
      var n := |path| - 1;
      PathVisited(h, vs, after, path[..n], path[n - 1]);
      assert Child(h, path[n - 1], path[n]);
    }
  }

  /**
   Over all the arguments together, a container that can be reached without going through a redacted key is
   expanded exactly once, and nothing else is expanded at all: also when the objects form cycles.
   */
  lemma ExpandedExactlyOnce(h: Heap, args: seq<Value>, r: nat)
    requires Closed(h) && AllInHeap(h, args)
    ensures AllOrigins(SanitizeArgs(h, args))[r] == if Reachable(h, args, r) then 1 else 0
  {
    AllExpand(h, args, {});
    AllExplores(h, args, {});
    var after := SanitizeAll(h, args, {}).1;
    assert after - {} == after;
    if Reachable(h, args, r) {
      var path :| Path(h, args, path, r);
      PathVisited(h, args, after, path, r);
    }
  }

  // ---------- the one key that is lost ----------

  lemma {:induction false} OwnKeysAll(keys: seq<string>)
    ensures OwnKeys(keys) == keys <==> PROTO !in keys
  {
    OwnKeysMembers(keys, PROTO);
    if PROTO !in keys && keys != [] {
      var n := |keys| - 1;
      assert keys == keys[..n] + [keys[n]];
      OwnKeysAll(keys[..n]);
    }
  }

  /** An object that is expanded shows all its keys, in order, exactly when none of them is `__proto__`. */
  lemma KeysKept(h: Heap, r: nat, seen: set<nat>)
    requires Closed(h) && r in h && h[r].PlainNode? && Containers(h, seen) && r !in seen
    ensures SanitizeValue(h, Ref(r), seen).0.Record?
    ensures SanitizeValue(h, Ref(r), seen).0.keys == h[r].keys <==> PROTO !in h[r].keys
  {
    ValueShows(h, Ref(r), seen);
    OwnKeysAll(h[r].keys);
  }

  lemma {:induction false} ContainsItsLetters(s: string, word: string, c: char)
    requires Text.Contains(s, word) && c in word
    ensures c in s
  {
    if word <= s {
      assert s == word + s[|word|..];
    } else {
      ContainsItsLetters(s[1..], word, c);
    }
  }

  lemma HasForeignLetter(word: string, k: nat)
    requires k < |word| && word[k] !in PROTO
    ensures !Text.Contains(Text.Lower(PROTO), word)
  {
    assert Text.Lower(PROTO) == PROTO;
    if Text.Contains(PROTO, word) {
      ContainsItsLetters(PROTO, word, word[k]);
    }
  }

  lemma NoWordFits(i: nat)
    requires i < |WORDS|
    ensures !Text.Contains(Text.Lower(PROTO), WORDS[i])
  {
    var k := if i == 5 || i == 9 then 1 else if i == 8 then 2 else 0;
    assert WORDS[i][k] in {'a', 'c', 'i', 's', 'k', 'u'};
    HasForeignLetter(WORDS[i], k);
  }

  /** No word of the pattern can be spelt with the letters of `__proto__`. */
  lemma ProtoIsNotSensitive()
    ensures !Sensitive(PROTO)
  {
    forall word | word in WORDS ensures !Text.Contains(Text.Lower(PROTO), word) {
      var i :| 0 <= i < |WORDS| && WORDS[i] == word;
      NoWordFits(i);
    }
  }

  /** An object whose only key is `__proto__`, holding a primitive other than null, is shown as an empty record. */
  lemma ProtoIsLost(n: int)
    ensures var h := map[0 := PlainNode([PROTO], [Prim(Number(n))])];
            Closed(h) && SanitizeArgs(h, [Ref(0)]) == [Record(Some(0), [], [], None)]
  {
    var (keys, values) := ([PROTO], [Prim(Number(n))]);
    var h := map[0 := PlainNode(keys, values)];
    ProtoIsNotSensitive();
    assert keys[..0] == [] && values[..0] == [];
    assert SanitizeFields(h, keys[..0], values[..0], {0}) == (Shape([], [], None), {0});
    assert SanitizeField(h, keys[0], values[0], {0}) == (Leaf(Number(n)), {0});
    assert SanitizeFields(h, keys, values, {0}) == (Shape([], [], None), {0});
    assert {} + {0} == {0};
    assert SanitizeValue(h, Ref(0), {}) == (Record(Some(0), [], [], None), {0});
    assert SanitizeAll(h, [Ref(0)][1..], {0}).0 == [];
  }
}
