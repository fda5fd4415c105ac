/**
 Refusing provider content that supplies gateway-owned fields.  The Go walks keep
 an explicit stack and meet the members of an object in any order; the TypeScript
 form recurses.  All of them mean: some object at some depth has a reserved key,
 not counting the keys allowed at the root.
 */
module AuthorityWalk {
  import opened Base
  import opened StrictJson

  const CANONICAL: set<string> := {
    "tenant_id", "project_id", "initiative_id", "work_item_id", "gateway_id", "session_id", "canonical_session_id",
    "correlation_id", "causation_id", "sensitivity", "authority", "verification_tier", "tier", "verified"}

  const REVIEW: set<string> := {
    "artifact_id", "creator_type", "creator_id", "review_state", "classification", "approval_id", "approved",
    "decision_revision"}

  /** The one list the extension check and the TypeScript SDK use. */
  const RESERVED: set<string> := {
    "tenant_id", "project_id", "initiative_id", "work_item_id", "gateway_id", "session_id", "canonical_session_id",
    "correlation_id", "causation_id", "sensitivity", "authority", "verification_tier", "tier", "verified",
    "artifact_id",
    "creator_type", "creator_id", "review_state", "classification", "approval_id", "approved", "decision_revision"}

  lemma ListsAgree(key: string)
    ensures key in RESERVED <==> key in CANONICAL || key in REVIEW
  {
  }

  // ---- Meaning ---------------------------------------------------------------------------

  datatype Edge = Key(key: string) | Index(index: nat)

  function Follow(v: Json, path: seq<Edge>): Option<Json>
    decreases |path|
  {
    if path == [] then Some(v)
    else match (v, path[0])
      case (Obj(members), Key(k)) => if k in members then Follow(members[k], path[1..]) else None
      case (Arr(items), Index(i)) => if i < |items| then Follow(items[i], path[1..]) else None
      case _ => None
  }

  /** The object at a path has a reserved key that the root allowance does not cover. */
  predicate Supplies(v: Json, allowed: set<string>, path: seq<Edge>, key: string) {
    && Follow(v, path).Some? && Follow(v, path).value.Obj? && key in Follow(v, path).value.members
    && key in RESERVED && (path == [] ==> key !in allowed)
  }

  predicate Refused(key: string, allowed: set<string>, root: bool) {
    key in RESERVED && !(root && key in allowed)
  }

  /** The recursive form; entries of an array start over with an empty allowance. */
  predicate ContainsReserved(v: Json, allowed: set<string>, root: bool)
    decreases v
  {
    match v
    case Arr(items) => exists i :: 0 <= i < |items| && ContainsReserved(items[i], {}, true)
    case Obj(members) =>
      exists k :: k in members && (Refused(k, allowed, root) || ContainsReserved(members[k], {}, false))
    case _ => false
  }

  /** Without an allowance it does not matter whether a value stands at the root. */
  lemma RootIrrelevant(v: Json)
    ensures ContainsReserved(v, {}, true) == ContainsReserved(v, {}, false)
  {
  }

  lemma NotRoot(v: Json, allowed: set<string>)
    ensures ContainsReserved(v, allowed, false) == ContainsReserved(v, {}, false)
  {
  }

  lemma {:induction false} FoundMeansPath(
      v: Json, allowed: set<string>, root: bool) returns (path: seq<Edge>, key: string)
    requires ContainsReserved(v, allowed, root)
    ensures Supplies(v, if root then allowed else {}, path, key)
    decreases v
  {
    match v
    case Arr(items) =>
      var i :| 0 <= i < |items| && ContainsReserved(items[i], {}, true);
      var rest;
      rest, key := FoundMeansPath(items[i], {}, true);
      path := [Index(i)] + rest;
      assert path[1..] == rest;
    case Obj(members) =>
      var k :| k in members && (Refused(k, allowed, root) || ContainsReserved(members[k], {}, false));
      if Refused(k, allowed, root) {
        path, key := [], k;
      } else {
        var rest;
        rest, key := FoundMeansPath(members[k], {}, false);
        path := [Key(k)] + rest;
        assert path[1..] == rest;
      }
  }

  lemma {:induction false} PathMeansFound(v: Json, allowed: set<string>, root: bool, path: seq<Edge>, key: string)
    requires Supplies(v, if root then allowed else {}, path, key)
    ensures ContainsReserved(v, allowed, root)
    decreases |path|
  {
    if path == [] {
      assert v.Obj? && Refused(key, allowed, root);
    } else {
      match v
      case Arr(items) =>
        PathMeansFound(items[path[0].index], {}, true, path[1..], key);
      case Obj(members) =>
        PathMeansFound(members[path[0].key], {}, false, path[1..], key);
      case _ =>
    }
  }

  /** The recursive search finds exactly the trees that supply a reserved key somewhere. */
  lemma SearchIsExact(v: Json, allowed: set<string>)
    ensures ContainsReserved(v, allowed, true) <==> exists path, key :: Supplies(v, allowed, path, key)
  {
    if ContainsReserved(v, allowed, true) {
      var path, key := FoundMeansPath(v, allowed, true);
    }
    if exists path, key :: Supplies(v, allowed, path, key) {
      var path, key :| Supplies(v, allowed, path, key);
      PathMeansFound(v, allowed, true, path, key);
    }
  }

  // ---- A measure for the walk ------------------------------------------------------------

  ghost function Size(v: Json): nat
    decreases v, 1, 0
  {
    match v
    case Arr(items) => 1 + SizeItems(v, |items|)
    case Obj(members) => 1 + SizeKeys(v, members.Keys)
    case _ => 1
  }

  ghost function SizeItems(v: Json, n: nat): nat
    requires v.Arr? && n <= |v.items|
    decreases v, 0, n
  {
    if n == 0 then 0 else SizeItems(v, n - 1) + Size(v.items[n - 1])
  }

  ghost function SizeKeys(v: Json, keys: set<string>): nat
    requires v.Obj? && keys <= v.members.Keys
    decreases v, 0, |keys|
  {
    if keys == {} then 0
    else
      var k :| k in keys;
      Size(v.members[k]) + SizeKeys(v, keys - {k})
  }

  lemma {:induction false} SizeKeysAny(v: Json, keys: set<string>, k: string)
    requires v.Obj? && keys <= v.members.Keys && k in keys
    ensures SizeKeys(v, keys) == Size(v.members[k]) + SizeKeys(v, keys - {k})
    decreases |keys|
  {
    var first :| first in keys && SizeKeys(v, keys) == Size(v.members[first]) + SizeKeys(v, keys - {first});
    if first != k {
      SizeKeysAny(v, keys - {first}, k);
      SizeKeysAny(v, keys - {k}, first);
      assert keys - {first} - {k} == keys - {k} - {first};
    }
  }

  // ---- The walks -------------------------------------------------------------------------

  datatype Node = Node(value: Json, root: bool)

  ghost function StackSize(stack: seq<Node>): nat {
    if stack == [] then 0 else StackSize(stack[..|stack| - 1]) + Size(stack[|stack| - 1].value)
  }

  ghost predicate Pending(stack: seq<Node>, allowed: set<string>) {
    exists i :: 0 <= i < |stack| && ContainsReserved(stack[i].value, allowed, stack[i].root)
  }

  ghost predicate PendingKeys(v: Json, keys: set<string>, allowed: set<string>, root: bool)
    requires v.Obj? && keys <= v.members.Keys
  {
    exists k :: k in keys && (Refused(k, allowed, root) || ContainsReserved(v.members[k], {}, false))
  }

  ghost predicate PendingItems(v: Json, n: nat)
    requires v.Arr? && n <= |v.items|
  {
    exists i :: n <= i < |v.items| && ContainsReserved(v.items[i], {}, false)
  }

  lemma PushMeans(stack: seq<Node>, node: Node, allowed: set<string>)
    ensures Pending(stack + [node], allowed) <==>
        Pending(stack, allowed) || ContainsReserved(node.value, allowed, node.root)
    ensures StackSize(stack + [node]) == StackSize(stack) + Size(node.value)
  {
    var longer := stack + [node];
    assert longer[..|stack|] == stack && longer[|stack|] == node;
    if Pending(stack, allowed) {
      var i :| 0 <= i < |stack| && ContainsReserved(stack[i].value, allowed, stack[i].root);
      assert longer[i] == stack[i];
    }
  }

  lemma PopMeans(stack: seq<Node>, allowed: set<string>)
    requires stack != []
    ensures var rest, top := stack[..|stack| - 1], stack[|stack| - 1];
      && (Pending(stack, allowed) <==> Pending(rest, allowed) || ContainsReserved(top.value, allowed, top.root))
      && StackSize(stack) == StackSize(rest) + Size(top.value)
  {
    PushMeans(stack[..|stack| - 1], stack[|stack| - 1], allowed);
    assert stack == stack[..|stack| - 1] + [stack[|stack| - 1]];
  }

  lemma OpenArray(v: Json, allowed: set<string>, root: bool)
    requires v.Arr?
    ensures ContainsReserved(v, allowed, root) <==> PendingItems(v, 0)
  {
    forall i | 0 <= i < |v.items|
      ensures ContainsReserved(v.items[i], {}, true) == ContainsReserved(v.items[i], {}, false)
    {
      RootIrrelevant(v.items[i]);
    }
  }

  lemma OpenObject(v: Json, allowed: set<string>, root: bool)
    requires v.Obj?
    ensures ContainsReserved(v, allowed, root) <==> PendingKeys(v, v.members.Keys, allowed, root)
  {
  }

  /** Pushes the entries of an array. */
  method PushItems(base: seq<Node>, v: Json, ghost allowed: set<string>) returns (stack: seq<Node>)
    requires v.Arr?
    ensures Pending(stack, allowed) <==> Pending(base, allowed) || PendingItems(v, 0)
    ensures StackSize(stack) == StackSize(base) + SizeItems(v, |v.items|)
  {
    hide ContainsReserved, StackSize, Pending;
    stack := base;
    for n := 0 to |v.items|
      invariant Pending(stack, allowed) || PendingItems(v, n) <==> Pending(base, allowed) || PendingItems(v, 0)
      invariant StackSize(stack) == StackSize(base) + SizeItems(v, n)
    {
      PushMeans(stack, Node(v.items[n], false), allowed);
      NotRoot(v.items[n], allowed);
      assert PendingItems(v, n) <==> ContainsReserved(v.items[n], {}, false) || PendingItems(v, n + 1);
      stack := stack + [Node(v.items[n], false)];
    }
  }

  lemma TakeKey(v: Json, keys: set<string>, allowed: set<string>, root: bool, k: string)
    requires v.Obj? && keys <= v.members.Keys && k in keys
    ensures PendingKeys(v, keys, allowed, root) <==>
              Refused(k, allowed, root) || ContainsReserved(v.members[k], {}, false)
                  || PendingKeys(v, keys - {k}, allowed, root)
  {
  }

  /** Looks at the members of an object in whatever order they come; stops at a refused key. */
  method PushMembers(base: seq<Node>, v: Json, allowed: set<string>, root: bool) returns (stack: seq<Node>, found: bool)
    requires v.Obj?
    ensures found ==> PendingKeys(v, v.members.Keys, allowed, root)
    ensures !found ==>
        (Pending(stack, allowed) <==> Pending(base, allowed) || PendingKeys(v, v.members.Keys, allowed, root))
    ensures !found ==> StackSize(stack) == StackSize(base) + SizeKeys(v, v.members.Keys)
  {
    hide ContainsReserved, StackSize, Pending, PendingKeys, SizeKeys;
    stack, found := base, false;
    var rest := v.members.Keys;
    while rest != {}
      invariant rest <= v.members.Keys
      invariant PendingKeys(v, rest, allowed, root) ==> PendingKeys(v, v.members.Keys, allowed, root)
      invariant Pending(stack, allowed) || PendingKeys(v, rest, allowed, root) <==>
                Pending(base, allowed) || PendingKeys(v, v.members.Keys, allowed, root)
      invariant StackSize(stack) + SizeKeys(v, rest) == StackSize(base) + SizeKeys(v, v.members.Keys)
      decreases |rest|
    {
      var k :| k in rest;
      TakeKey(v, rest, allowed, root, k);
      if !root || k !in allowed {
        ListsAgree(k);
        if k in CANONICAL || k in REVIEW { return stack, true; }
      }
      SizeKeysAny(v, rest, k);
      PushMeans(stack, Node(v.members[k], false), allowed);
      NotRoot(v.members[k], allowed);
      stack := stack + [Node(v.members[k], false)];
      rest := rest - {k};
    }
    NoKeys(v, allowed, root);
  }

  lemma NoKeys(v: Json, allowed: set<string>, root: bool)
    requires v.Obj?
    ensures !PendingKeys(v, {}, allowed, root) && SizeKeys(v, {}) == 0
  {
  }

  /** The walk over decoded provider content; extension values use it with no allowance. */
  method RejectReservedContent(value: Json, allowedRoot: set<string>) returns (r: Option<ErrorCode>)
    ensures r == if ContainsReserved(value, allowedRoot, true) then Some(PermissionDenied) else None
  {
    hide ContainsReserved, StackSize, Pending, PendingKeys, PendingItems, SizeKeys, SizeItems;
    var stack := [Node(value, true)];
    PushMeans([], Node(value, true), allowedRoot);
    assert [] + [Node(value, true)] == stack;
    NothingPending(allowedRoot);
    while stack != []
      invariant Pending(stack, allowedRoot) <==> ContainsReserved(value, allowedRoot, true)
      decreases StackSize(stack)
    {
      PopMeans(stack, allowedRoot);
      var current := stack[|stack| - 1];
      stack := stack[..|stack| - 1];
      match current.value
      case Obj(_) =>
        OpenObject(current.value, allowedRoot, current.root);
        var found;
        stack, found := PushMembers(stack, current.value, allowedRoot, current.root);
        if found { return Some(PermissionDenied); }
      case Arr(_) =>
        OpenArray(current.value, allowedRoot, current.root);
        stack := PushItems(stack, current.value, allowedRoot);
      case Leaf(_) => NotContainer(current.value, allowedRoot, current.root);
      case Str(_) => NotContainer(current.value, allowedRoot, current.root);
    }
    return None;
  }

  /** Extension values may supply no reserved key anywhere. */
  method ValidateExtensionAuthority(value: Json) returns (r: Option<ErrorCode>)
    ensures r.None? || r == Some(PermissionDenied)
    ensures r.Some? <==> exists path, key :: Supplies(value, {}, path, key)
  {
    r := RejectReservedContent(value, {});
    SearchIsExact(value, {});
  }

  lemma NothingPending(allowed: set<string>)
    ensures !Pending([], allowed)
  {
  }

  lemma NotContainer(v: Json, allowed: set<string>, root: bool)
    requires v.Leaf? || v.Str?
    ensures !ContainsReserved(v, allowed, root)
  {
  }
}
