/**
  The cache decorator and the invalidation as they run against one key-value store, keys being the strings the store
  sees.
 */
module UserScopedCache {
  import opened Common
  import opened UserCache

  /** What Redis holds under a key: a generation token, or a cached result (a null result is stored but never served). */
  datatype Stored = Token(token: string) | Result(value: Option<Value>)

  class Store {
    const prefix: string
    var held: map<string, Stored>

    constructor (prefix: string)
      ensures this.prefix == prefix && held == map[] && Valid()
    {
      this.prefix := prefix;
      held := map[];
    }

    /** Generation keys hold tokens without a colon. */
    ghost predicate Valid()
      reads this
    {
      forall ns: Text :: GenerationKey(prefix, ns) in held ==>
        held[GenerationKey(prefix, ns)].Token? && Plain(held[GenerationKey(prefix, ns)].token)
        && held[GenerationKey(prefix, ns)].token != ""
    }

    /** The generation a namespace is in. */
    function GenerationOf(ns: Text): string
      reads this
    {
      var key := GenerationKey(prefix, ns);
      if key in held && held[key].Token? && held[key].token != "" then held[key].token else "0"
    }

    /** The token the store holds for a namespace, or the fallback. */
    ghost predicate InGeneration(ns: Text, generation: string)
      reads this
    {
      var key := GenerationKey(prefix, ns);
      if key in held && held[key].Token? then generation == held[key].token else generation == "0"
    }

    /** The result held under a cache key, if it can be served. */
    function Served(k: Key): Option<Value>
      reads this
    {
      var key := UserCacheKey(prefix, k);
      if key in held && held[key].Result? then held[key].value else None
    }

    /**
      A decorated call. `computed` is what the function would return; `readable` and `writable` say whether the store
      answers; `scoped` whether the request has a user and the cache is configured.
     */
    method Call(ns: Text, user: Text, digest: string, computed: Option<Value>, scoped: bool, readable: bool, writable: bool)
      returns (value: Option<Value>, called: bool)
      requires Valid() && Plain(digest)
      modifies this`held
      ensures Valid()
      ensures forall other: Text :: GenerationOf(other) == old(GenerationOf(other))
      ensures old(InGeneration(ns, GenerationOf(ns)))
      ensures !scoped || !readable ==> called && held == old(held)
      ensures scoped && readable ==> called == old(Served(Key(ns, user, GenerationOf(ns), digest))).None?
      ensures value == if called then computed else old(Served(Key(ns, user, GenerationOf(ns), digest)))
      ensures scoped && readable && called && writable ==> Served(Key(ns, user, old(GenerationOf(ns)), digest)) == computed
      ensures !called || !writable ==> held == old(held)
      ensures forall k: Key :: Plain(k.generation) && Plain(k.digest) && k != Key(ns, user, old(GenerationOf(ns)), digest)
                               ==> Served(k) == old(Served(k))
    {
      if !scoped || !readable { return computed, true; }
      var k := Key(ns, user, GenerationOf(ns), digest);
      var key := UserCacheKey(prefix, k);
      value := Served(k);
      if value.Some? { return value, false; }
      value, called := computed, true;
      if writable {
        held := held[key := Result(computed)];
        forall other: Text ensures GenerationKey(prefix, other) != key {
          GenerationKeyIsApart(prefix, other, k);
        }
        forall l: Key | Plain(l.generation) && Plain(l.digest) && l != k ensures UserCacheKey(prefix, l) != key {
          if UserCacheKey(prefix, l) == key { KeysNeverCollide(prefix, l, k); }
        }
      }
    }

    /**
      Move a namespace to a new generation. With a token never used before, no result of that namespace is served any
      more, to any user; other namespaces and the stored results are left alone.
     */
    method Invalidate(ns: Text, token: string, enabled: bool, writable: bool) returns (done: bool)
      requires Valid() && Plain(token) && token != ""
      modifies this`held
      ensures Valid()
      ensures done == (enabled && writable)
      ensures !done ==> held == old(held)
      ensures done ==> GenerationOf(ns) == token
      ensures forall other: Text :: other != ns ==> GenerationOf(other) == old(GenerationOf(other))
      ensures forall k: Key :: Plain(k.generation) && Plain(k.digest) ==> Served(k) == old(Served(k))
      ensures done && (forall k: Key :: k.ns == ns && k.generation == token && Plain(k.digest) ==> old(Served(k)).None?)
        ==> forall user: Text, digest: string :: Plain(digest) ==> Served(Key(ns, user, token, digest)).None?
    {
      if !enabled || !writable { return false; }
      var key := GenerationKey(prefix, ns);
      held := held[key := Token(token)];
      done := true;
      forall other: Text | other != ns ensures GenerationKey(prefix, other) != key {
        if GenerationKey(prefix, other) == key { GenerationKeysNeverCollide(prefix, ns, other); }
      }
      forall k: Key | Plain(k.generation) && Plain(k.digest) ensures UserCacheKey(prefix, k) != key {
        GenerationKeyIsApart(prefix, ns, k);
      }
    }
  }

  /** Different namespaces have different generation keys. */
  lemma GenerationKeysNeverCollide(prefix: string, a: Text, b: Text)
    requires GenerationKey(prefix, a) == GenerationKey(prefix, b)
    ensures a == b
  {
    var x, y := ["generation", Quote(a)], ["generation", Quote(b)];
    UnquoteQuote(a);
    UnquoteQuote(b);
    DropPrefix(prefix, Join(x), Join(y));
    JoinIsInjective(x, y);
    assert x[1] == y[1];
  }

  /** Call, invalidate, call: the second call computes afresh, whatever the first one cached. */
  method CallAfterInvalidation(s: Store, ns: Text, user: Text, digest: string, token: string, first: Option<Value>,
      second: Option<Value>)
    returns (value: Option<Value>)
    requires s.Valid() && Plain(digest) && Plain(token) && token != "" && token != s.GenerationOf(ns)
    requires forall k: Key :: k.ns == ns && k.generation == token && Plain(k.digest) ==> s.Served(k).None?
    modifies s`held
    ensures value == second
  {
    var before, _ := s.Call(ns, user, digest, first, true, true, true);
    var done := s.Invalidate(ns, token, true, true);
    var called: bool;
    value, called := s.Call(ns, user, digest, second, true, true, true);
  }

  /**
    Two calls in a row that differ in user, namespace or arguments: the second, if nothing was cached for it, returns what
    its own function computes, and never what the first one cached.
   */
  method CallsAreApart(s: Store, ns: Text, user: Text, digest: string, otherNs: Text, otherUser: Text, otherDigest: string,
      first: Option<Value>, second: Option<Value>)
    returns (value: Option<Value>, called: bool)
    requires s.Valid() && Plain(digest) && Plain(otherDigest)
    requires ns != otherNs || user != otherUser || digest != otherDigest
    requires s.Served(Key(otherNs, otherUser, s.GenerationOf(otherNs), otherDigest)).None?
    modifies s`held
    ensures called && value == second
  {
    var before, _ := s.Call(ns, user, digest, first, true, true, true);
    value, called := s.Call(otherNs, otherUser, otherDigest, second, true, true, true);
  }

  /** Two equal calls in a row: the second is served what the first one returned, if that can be cached. */
  method SameCallIsServed(s: Store, ns: Text, user: Text, digest: string, first: Option<Value>, second: Option<Value>)
    returns (value: Option<Value>, called: bool)
    requires s.Valid() && Plain(digest) && first.Some?
    modifies s`held
    ensures !called && value == old(if s.Served(Key(ns, user, s.GenerationOf(ns), digest)).Some?
                                    then s.Served(Key(ns, user, s.GenerationOf(ns), digest)) else first)
  {
    var before, _ := s.Call(ns, user, digest, first, true, true, true);
    value, called := s.Call(ns, user, digest, second, true, true, true);
  }
}
