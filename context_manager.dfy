/**
 The process-wide registry of importer contexts (`aiContextManager` in
 Source/abci/Importer/aiContext.cpp): a table from a game object's uid to
 the context that uid owns. The source keeps one static instance; here
 the registry is an object whose methods update its table.
 */
module ContextManagers {
  import opened Wrappers
  import opened Paths
  import opened Archives
  import opened Contexts

  /** `k` is the smallest of `keys`. */
  predicate IsLeast(keys: set<int>, k: int) {
    k in keys && forall j :: j in keys ==> k <= j
  }

  /** A non-empty set of keys has a smallest one: the next key a `std::map` iterator visits. */
  lemma {:induction false} SmallestKeyExists(keys: set<int>)
    requires keys != {}
    ensures exists k :: IsLeast(keys, k)
    decreases keys
  {
    if forall y :: y !in keys {
      assert false;
    }
    var x :| x in keys;
    if keys == {x} {
      assert IsLeast(keys, x);
    } else {
      var rest := keys - {x};
      SmallestKeyExists(rest);
      var m :| IsLeast(rest, m);
      assert forall j :: j in keys ==> j == x || j in rest;
      if x < m {
        assert IsLeast(keys, x);
      } else {
        assert IsLeast(keys, m);
      }
    }
  }

  class ContextManager {
    var contexts: map<int, Context>

    /** Each context is registered under its own uid and keeps its own invariant. */
    ghost predicate Valid()
      reads this, contexts.Values
    {
      forall k :: k in contexts ==> contexts[k].uid == k && contexts[k].Valid()
    }

    constructor ()
      ensures Valid() && contexts == map[]
    {
      contexts := map[];
    }

    /**
     `getContext`: the context registered for `uid`, created and
     registered first when there is none.
     */
    method GetContext(uid: int) returns (ctx: Context)
      requires Valid()
      modifies this
      ensures Valid()
      ensures ctx.uid == uid && ctx.Valid()
      ensures uid in old(contexts) ==> ctx == old(contexts)[uid] && contexts == old(contexts)
      ensures uid !in old(contexts) ==>
        && fresh(ctx) && ctx.archive.None? && ctx.config == DefaultConfig
        && contexts == old(contexts)[uid := ctx]
    {
      if uid in contexts {
        return contexts[uid];
      }
      ctx := new Context(uid);
      contexts := contexts[uid := ctx];
    }

    /** `destroyContext`: unregisters `uid`, if it is registered; no other entry changes. */
    method DestroyContext(uid: int)
      requires Valid()
      modifies this
      ensures Valid()
      ensures contexts == old(contexts) - {uid}
    {
      if uid in contexts {
        contexts := contexts - {uid};
      }
    }

    /**
     `destroyContextsWithPath`: unregisters every context whose path is
     the normalised `assetPath`, visiting the keys in ascending order and
     erasing as it goes. Every other entry stays, under the same uid.
     */
    method DestroyContextsWithPath(assetPath: Option<string>)
      requires Valid()
      modifies this
      ensures Valid()
      ensures forall k :: k in contexts ==> k in old(contexts) && contexts[k] == old(contexts)[k]
      ensures forall k :: k in contexts ==> contexts[k].path != NormalizedPath(assetPath)
      ensures forall k :: k in old(contexts) && old(contexts)[k].path != NormalizedPath(assetPath) ==> k in contexts
    {
      var path := NormalizePath(assetPath);
      var todo := contexts.Keys;
      while todo != {}
        invariant todo <= old(contexts).Keys
        invariant forall k :: k in contexts ==> k in old(contexts) && contexts[k] == old(contexts)[k]
        invariant forall k :: k in old(contexts) && (k in todo || old(contexts)[k].path != path) ==> k in contexts
        invariant forall k :: k in contexts && k !in todo ==> contexts[k].path != path
        decreases todo
      {
        SmallestKeyExists(todo);
        var k :| IsLeast(todo, k);
        if contexts[k].path == path {
          contexts := contexts - {k};
        }
        todo := todo - {k};
      }
    }
  }
}
