/**
  The generation-invalidated cache of query results: how keys are built, the steps readers and
  invalidators take one cache operation at a time, and what a hit may return.
 */
module UserCache {
  import opened Common

  // ---------------------------------------------------------------- keys

  /** Text as the bytes of its UTF-8 encoding. */
  type Byte = b: int | 0 <= b < 256
  type Text = seq<Byte>

  /** Letters, digits, and `_.-~`. */
  predicate Unreserved(b: Byte) {
    48 <= b < 58 || 65 <= b < 91 || 97 <= b < 123 || b == 95 || b == 46 || b == 45 || b == 126
  }

  const HEX := "0123456789ABCDEF"

  function HexValue(c: char): int {
    if '0' <= c <= '9' then c as int - '0' as int else c as int - 'A' as int + 10
  }

  /** Percent-encoding: unreserved bytes stand for themselves, the others become `%XX`. */
  function Quote(text: Text): string {
    if text == [] then ""
    else (if Unreserved(text[0]) then [text[0] as char] else ['%', HEX[text[0] / 16], HEX[text[0] % 16]]) + Quote(text[1..])
  }

  function Unquote(s: string): seq<int> {
    if s == "" then []
    else if s[0] == '%' && |s| >= 3 then [16 * HexValue(s[1]) + HexValue(s[2])] + Unquote(s[3..])
    else [s[0] as int] + Unquote(s[1..])
  }

  lemma HexDigits(n: int)
    requires 0 <= n < 16
    ensures HexValue(HEX[n]) == n && HEX[n] != ':'
  {
  }

  lemma {:induction false} UnquoteQuote(text: Text)
    ensures Unquote(Quote(text)) == text
    ensures ':' !in Quote(text)
  {
    if text != [] {
      UnquoteQuote(text[1..]);
      var b := text[0];
      if Unreserved(b) {
        assert Quote(text)[1..] == Quote(text[1..]);
      } else {
        HexDigits(b / 16);
        HexDigits(b % 16);
        assert Quote(text)[3..] == Quote(text[1..]);
      }
    }
  }

  /** The identity of a cached value: namespace, user, generation token and digest of the arguments. */
  datatype Key = Key(ns: Text, user: Text, generation: string, digest: string)

  predicate Plain(s: string) {
    ':' !in s
  }

  /** `:first:second:...` */
  function Join(fields: seq<string>): string {
    if fields == [] then "" else ":" + fields[0] + Join(fields[1..])
  }

  /** `prefix:generation:ns` */
  function GenerationKey(prefix: string, ns: Text): string {
    prefix + Join(["generation", Quote(ns)])
  }

  function KeyFields(k: Key): seq<string> {
    [Quote(k.ns), "user", Quote(k.user), "generation", k.generation, k.digest]
  }

  /** `prefix:ns:user:id:generation:token:digest` */
  function UserCacheKey(prefix: string, k: Key): string {
    prefix + Join(KeyFields(k))
  }

  lemma FirstField(a: string, b: string, x: string, y: string)
    requires Plain(a) && Plain(b)
    requires x == "" || x[0] == ':'
    requires y == "" || y[0] == ':'
    requires a + x == b + y
    ensures a == b && x == y
  {
    var s := a + x;
    assert forall k :: 0 <= k < |a| ==> s[k] == a[k] && s[k] != ':';
    assert s == b + y && forall k :: 0 <= k < |b| ==> s[k] == b[k] && s[k] != ':';
    assert x == "" || s[|a|] == ':';
    assert y == "" || s[|b|] == ':';
    assert |a| == |b|;
    assert a == s[..|a|] && b == s[..|b|];
    assert x == s[|a|..] && y == s[|b|..];
  }

  lemma {:induction false} JoinIsInjective(a: seq<string>, b: seq<string>)
    requires forall f :: f in a ==> Plain(f)
    requires forall f :: f in b ==> Plain(f)
    requires Join(a) == Join(b)
    ensures a == b
  {
    if a != [] && b != [] {
      var x, y := a[0] + Join(a[1..]), b[0] + Join(b[1..]);
      assert Join(a) == ":" + x && Join(b) == ":" + y;
      assert x == Join(a)[1..] && y == Join(b)[1..];
      FirstField(a[0], b[0], Join(a[1..]), Join(b[1..]));
      JoinIsInjective(a[1..], b[1..]);
    }
  }

  lemma PlainFields(k: Key)
    requires Plain(k.generation) && Plain(k.digest)
    ensures forall f :: f in KeyFields(k) ==> Plain(f)
  {
    UnquoteQuote(k.ns);
    UnquoteQuote(k.user);
  }

  lemma DropPrefix(p: string, x: string, y: string)
    requires p + x == p + y
    ensures x == y
  {
    assert x == (p + x)[|p|..] && y == (p + y)[|p|..];
  }

  /** Different namespaces, users, generations or argument digests never share a cache key. */
  lemma KeysNeverCollide(prefix: string, k: Key, l: Key)
    requires Plain(k.generation) && Plain(l.generation) && Plain(k.digest) && Plain(l.digest)
    requires UserCacheKey(prefix, k) == UserCacheKey(prefix, l)
    ensures k == l
  {
    PlainFields(k);
    PlainFields(l);
    DropPrefix(prefix, Join(KeyFields(k)), Join(KeyFields(l)));
    JoinIsInjective(KeyFields(k), KeyFields(l));
    assert KeyFields(k)[0] == KeyFields(l)[0] && KeyFields(k)[2] == KeyFields(l)[2];
    assert KeyFields(k)[4] == KeyFields(l)[4] && KeyFields(k)[5] == KeyFields(l)[5];
    UnquoteQuote(k.ns);
    UnquoteQuote(l.ns);
    UnquoteQuote(k.user);
    UnquoteQuote(l.user);
  }

  /** No cached value can overwrite the generation of any namespace. */
  lemma GenerationKeyIsApart(prefix: string, ns: Text, k: Key)
    requires Plain(k.generation) && Plain(k.digest)
    ensures GenerationKey(prefix, ns) != UserCacheKey(prefix, k)
  {
    PlainFields(k);
    UnquoteQuote(ns);
    var fields := ["generation", Quote(ns)];
    if GenerationKey(prefix, ns) == UserCacheKey(prefix, k) {
      DropPrefix(prefix, Join(fields), Join(KeyFields(k)));
      JoinIsInjective(fields, KeyFields(k));
      assert false;
    }
  }

  // ---------------------------------------------------------------- how keys are written

  lemma {:induction false} JoinOneMore(fields: seq<string>, last: string)
    ensures Join(fields + [last]) == Join(fields) + ":" + last
  {
    if fields != [] {
      assert (fields + [last])[1..] == fields[1..] + [last];
      JoinOneMore(fields[1..], last);
    } else {
      assert [last][1..] == [];
    }
  }

  lemma OneMore(prefix: string, fields: seq<string>, last: string, all: seq<string>, written: string)
    requires all == fields + [last] && prefix + Join(fields) == written
    ensures prefix + Join(all) == written + ":" + last
  {
    JoinOneMore(fields, last);
  }

  lemma Between(front: string, word: string, back: string)
    ensures front + ":" + word + ":" + back == front + (":" + word + ":") + back
  {
  }

  /** The fields of a generation key, separated by colons. */
  lemma GenerationKeyIsWritten(prefix: string, ns: Text)
    ensures GenerationKey(prefix, ns) == prefix + ":generation:" + Quote(ns)
  {
    OneMore(prefix, [], "generation", ["generation"], prefix);
    OneMore(prefix, ["generation"], Quote(ns), ["generation", Quote(ns)], prefix + ":" + "generation");
    Between(prefix, "generation", Quote(ns));
  }

  /** The fields of a cache key, separated by colons. */
  lemma CacheKeyIsWritten(prefix: string, k: Key)
    ensures UserCacheKey(prefix, k)
         == prefix + ":" + Quote(k.ns) + ":user:" + Quote(k.user) + ":generation:" + k.generation + ":" + k.digest
  {
    var ns, user := Quote(k.ns), Quote(k.user);
    var named := prefix + ":" + ns;
    OneMore(prefix, [], ns, [ns], prefix);
    OneMore(prefix, [ns], "user", [ns, "user"], named);
    OneMore(prefix, [ns, "user"], user, [ns, "user", user], named + ":" + "user");
    Between(named, "user", user);
    var owned := named + ":user:" + user;
    OneMore(prefix, [ns, "user", user], "generation", [ns, "user", user, "generation"], owned);
    OneMore(prefix, [ns, "user", user, "generation"], k.generation, [ns, "user", user, "generation", k.generation],
            owned + ":" + "generation");
    Between(owned, "generation", k.generation);
    OneMore(prefix, [ns, "user", user, "generation", k.generation], k.digest, KeyFields(k),
            owned + ":generation:" + k.generation);
  }

  /** Text is encoded byte by byte. */
  lemma {:induction false} QuoteOfConcat(a: Text, b: Text)
    ensures Quote(a + b) == Quote(a) + Quote(b)
  {
    if a == [] {
      assert a + b == b;
    } else {
      assert (a + b)[1..] == a[1..] + b;
      QuoteOfConcat(a[1..], b);
    }
  }

  predicate IsHexDigit(c: char, value: int) {
    if value < 10 then '0' <= c <= '9' && c as int - '0' as int == value else 'A' <= c <= 'F' && c as int - 'A' as int + 10 == value
  }

  /** Letters, digits and the four marks are written as they are, any other byte as a percent sign and two capital hex digits. */
  lemma ByteIsWritten(b: Byte)
    ensures var c := b as char;
            if 'a' <= c <= 'z' || 'A' <= c <= 'Z' || '0' <= c <= '9' || c == '_' || c == '.' || c == '-' || c == '~' then
              Quote([b]) == [c]
            else
              && |Quote([b])| == 3 && Quote([b])[0] == '%'
              && IsHexDigit(Quote([b])[1], b / 16) && IsHexDigit(Quote([b])[2], b % 16)
  {
    assert [b][1..] == [];
    HexDigits(b / 16);
    HexDigits(b % 16);
    assert Quote([]) == "";
  }

  // ---------------------------------------------------------------- the protocol

  type Value = string

  /** A cached call: who asks what, in which namespace; SHA-256 of the arguments is taken as injective. */
  datatype Query = Query(ns: Text, user: Text, args: string)

  /** The decorated function on each version of the data; None is a result that is never served from the cache. */
  type Source = (Query, nat) -> Option<Value>

  /** Where one reader is in its call. */
  datatype Reader =
    | Idle
    | GotGeneration(q: Query, generation: string)
    | Missed(q: Query, generation: string)
    | Calling(q: Query, generation: string, since: nat)
    | Computed(q: Query, generation: string, value: Option<Value>)

  /**
    Generations and entries held by Redis, the version of the data, and the readers. `born` records, for
    every generation a namespace has had, the version of the data when it was installed.
   */
  datatype Cache = Cache(generations: map<Text, string>, entries: map<(Query, string), Option<Value>>,
                         version: nat, born: map<(Text, string), nat>, readers: map<nat, Reader>)

  datatype Step =
    | Change                                  // the data changes
    | Invalidate(ns: Text, token: string)     // one SET of the generation key
    | ReadGeneration(r: nat, q: Query)        // one GET of the generation key
    | LookUp(r: nat)                          // one GET of the entry
    | StartCall(r: nat)
    | EndCall(r: nat, at: nat)                // the function saw the data of version `at`
    | Publish(r: nat)                         // one SET of the entry
    | GiveUp(r: nat)                          // the backend failed, or the caller is gone
    | Expire(q: Query, token: string)
    | EvictGeneration(ns: Text)

  function Generation(c: Cache, ns: Text): string {
    if ns in c.generations then c.generations[ns] else "0"
  }

  function Entry(c: Cache, q: Query, generation: string): Option<Value> {
    if (q, generation) in c.entries then c.entries[(q, generation)] else None
  }

  predicate IsHit(c: Cache, r: nat) {
    r in c.readers && c.readers[r].GotGeneration? && Entry(c, c.readers[r].q, c.readers[r].generation).Some?
  }

  function SetReader(c: Cache, r: nat, reader: Reader): Cache {
    c.(readers := c.readers[r := reader])
  }

  ghost predicate Next(f: Source, c: Cache, step: Step, d: Cache) {
    match step
    case Change => d == c.(version := c.version + 1)
    case Invalidate(ns, token) =>
      && token != "0" && (ns, token) !in c.born
      && d == c.(generations := c.generations[ns := token], born := c.born[(ns, token) := c.version])
    case ReadGeneration(r, q) =>
      && r in c.readers && c.readers[r].Idle?
      && d == SetReader(c, r, GotGeneration(q, Generation(c, q.ns)))
    case LookUp(r) =>
      && r in c.readers && c.readers[r].GotGeneration?
      && d == SetReader(c, r, if IsHit(c, r) then Idle else Missed(c.readers[r].q, c.readers[r].generation))
    case StartCall(r) =>
      && r in c.readers && c.readers[r].Missed?
      && d == SetReader(c, r, Calling(c.readers[r].q, c.readers[r].generation, c.version))
    case EndCall(r, at) =>
      && r in c.readers && c.readers[r].Calling? && c.readers[r].since <= at <= c.version
      && d == SetReader(c, r, Computed(c.readers[r].q, c.readers[r].generation, f(c.readers[r].q, at)))
    case Publish(r) =>
      && r in c.readers && c.readers[r].Computed?
      && d == SetReader(c.(entries := c.entries[(c.readers[r].q, c.readers[r].generation) := c.readers[r].value]), r, Idle)
    case GiveUp(r) => r in c.readers && d == SetReader(c, r, Idle)
    case Expire(q, token) => d == c.(entries := c.entries - {(q, token)})
    case EvictGeneration(ns) => d == c.(generations := c.generations - {ns})
  }

  /** Nothing cached, nobody reading; every namespace is in its initial generation. */
  ghost predicate Init(c: Cache) {
    && c.generations == map[] && c.entries == map[] && c.born == map[]
    && forall r :: r in c.readers ==> c.readers[r].Idle?
  }

  /** The version at which a generation of a namespace began; the initial one began with the data. */
  function Birth(c: Cache, ns: Text, generation: string): nat {
    if (ns, generation) in c.born then c.born[(ns, generation)] else 0
  }

  /** `value` is what the function returns on data no older than the generation. */
  ghost predicate Justified(f: Source, c: Cache, q: Query, generation: string, value: Option<Value>) {
    exists v :: Birth(c, q.ns, generation) <= v <= c.version && value == f(q, v)
  }

  predicate Known(c: Cache, ns: Text, generation: string) {
    generation == "0" || (ns, generation) in c.born
  }

  ghost predicate ReaderOk(f: Source, c: Cache, reader: Reader) {
    match reader
    case Idle => true
    case GotGeneration(q, g) => Known(c, q.ns, g)
    case Missed(q, g) => Known(c, q.ns, g)
    case Calling(q, g, since) => Known(c, q.ns, g) && Birth(c, q.ns, g) <= since <= c.version
    case Computed(q, g, value) => Known(c, q.ns, g) && Justified(f, c, q, g, value)
  }

  /** The generation a namespace holds is the youngest it has had; one whose key was evicted holds none. */
  ghost predicate GenerationsOk(c: Cache) {
    && (forall ns, g :: (ns, g) in c.born ==>
          && g != "0" && c.born[(ns, g)] <= c.version
          && (ns in c.generations ==> c.born[(ns, g)] <= Birth(c, ns, Generation(c, ns))))
    && (forall ns :: ns in c.generations ==> (ns, c.generations[ns]) in c.born)
  }

  ghost predicate EntryOk(f: Source, c: Cache, q: Query, g: string) {
    (q, g) in c.entries ==> Known(c, q.ns, g) && Justified(f, c, q, g, c.entries[(q, g)])
  }

  ghost predicate Inv(f: Source, c: Cache) {
    && GenerationsOk(c)
    && (forall q, g :: EntryOk(f, c, q, g))
    && (forall r :: r in c.readers ==> ReaderOk(f, c, c.readers[r]))
  }

  /** Time passed and generations were only added, with names never used before. */
  ghost predicate Later(c: Cache, d: Cache) {
    && c.version <= d.version
    && (forall ns, g :: (ns, g) in c.born ==> (ns, g) in d.born && d.born[(ns, g)] == c.born[(ns, g)])
    && (forall ns :: (ns, "0") !in d.born)
  }

  lemma StillJustified(f: Source, c: Cache, d: Cache, q: Query, g: string, value: Option<Value>)
    requires Known(c, q.ns, g) && Justified(f, c, q, g, value) && Later(c, d)
    requires GenerationsOk(c)
    ensures Known(d, q.ns, g) && Justified(f, d, q, g, value)
  {
    var v :| Birth(c, q.ns, g) <= v <= c.version && value == f(q, v);
    assert Birth(d, q.ns, g) <= v <= d.version;
  }

  lemma StillOk(f: Source, c: Cache, d: Cache, reader: Reader)
    requires ReaderOk(f, c, reader) && Later(c, d) && GenerationsOk(c)
    ensures ReaderOk(f, d, reader)
  {
    if reader.Computed? {
      StillJustified(f, c, d, reader.q, reader.generation, reader.value);
    }
  }

  /** What one step does to the generations. */
  lemma StepKeepsGenerations(f: Source, c: Cache, step: Step, d: Cache)
    requires GenerationsOk(c) && Next(f, c, step, d)
    ensures GenerationsOk(d) && Later(c, d)
  {
  }

  lemma StepKeepsYoungest(f: Source, c: Cache, step: Step, d: Cache, ns: Text)
    requires GenerationsOk(c) && Next(f, c, step, d) && step != EvictGeneration(ns)
    ensures Birth(c, ns, Generation(c, ns)) <= Birth(d, ns, Generation(d, ns))
  {
  }

  lemma StepKeepsEntry(f: Source, c: Cache, step: Step, d: Cache, q: Query, g: string)
    requires Inv(f, c) && Next(f, c, step, d) && Later(c, d)
    ensures EntryOk(f, d, q, g)
  {
    assert EntryOk(f, c, q, g);
    if (q, g) in d.entries {
      if step.Publish? && c.readers[step.r].q == q && c.readers[step.r].generation == g {
        assert ReaderOk(f, c, c.readers[step.r]);
        StillJustified(f, c, d, q, g, c.readers[step.r].value);
      } else {
        StillJustified(f, c, d, q, g, c.entries[(q, g)]);
      }
    }
  }

  lemma StepKeepsReader(f: Source, c: Cache, step: Step, d: Cache, r: nat)
    requires Inv(f, c) && Next(f, c, step, d) && Later(c, d) && r in d.readers
    ensures ReaderOk(f, d, d.readers[r])
  {
    assert r in c.readers && ReaderOk(f, c, c.readers[r]);
    StillOk(f, c, d, c.readers[r]);
    if step.EndCall? && step.r == r {
      assert Justified(f, d, c.readers[r].q, c.readers[r].generation, f(c.readers[r].q, step.at));
    }
  }

  /** Every step keeps the invariant, and only the eviction of its key makes the generation of a namespace older. */
  lemma StepKeepsInv(f: Source, c: Cache, step: Step, d: Cache)
    requires Inv(f, c) && Next(f, c, step, d)
    ensures Inv(f, d) && Later(c, d)
    ensures forall ns :: step != EvictGeneration(ns) ==> Birth(c, ns, Generation(c, ns)) <= Birth(d, ns, Generation(d, ns))
  {
    StepKeepsGenerations(f, c, step, d);
    forall ns | step != EvictGeneration(ns)
      ensures Birth(c, ns, Generation(c, ns)) <= Birth(d, ns, Generation(d, ns))
    {
      StepKeepsYoungest(f, c, step, d, ns);
    }
    forall q, g
      ensures EntryOk(f, d, q, g)
    {
      StepKeepsEntry(f, c, step, d, q, g);
    }
    forall r | r in d.readers
      ensures ReaderOk(f, d, d.readers[r])
    {
      StepKeepsReader(f, c, step, d, r);
    }
  }

  // ---------------------------------------------------------------- whole runs

  ghost predicate Run(f: Source, states: seq<Cache>, steps: seq<Step>) {
    && |states| == |steps| + 1 && Init(states[0])
    && forall i :: 0 <= i < |steps| ==> StepAt(f, states, steps, i)
  }

  ghost predicate StepAt(f: Source, states: seq<Cache>, steps: seq<Step>, i: nat)
    requires i < |steps| && |states| == |steps| + 1
  {
    Next(f, states[i], steps[i], states[i + 1])
  }

  lemma {:induction false} RunKeepsInv(f: Source, states: seq<Cache>, steps: seq<Step>, i: nat)
    requires Run(f, states, steps) && i < |states|
    ensures Inv(f, states[i])
  {
    if i > 0 {
      RunKeepsInv(f, states, steps, i - 1);
      assert StepAt(f, states, steps, i - 1);
      StepKeepsInv(f, states[i - 1], steps[i - 1], states[i]);
    }
  }

  /** While its key is not evicted, a namespace never returns to an older generation. */
  lemma {:induction false} GenerationsGetYounger(f: Source, states: seq<Cache>, steps: seq<Step>, i: nat, j: nat, ns: Text)
    requires Run(f, states, steps) && i <= j < |states|
    requires forall m :: i <= m < j ==> steps[m] != EvictGeneration(ns)
    ensures Birth(states[i], ns, Generation(states[i], ns)) <= Birth(states[j], ns, Generation(states[j], ns))
    decreases j - i
  {
    if i < j {
      GenerationsGetYounger(f, states, steps, i, j - 1, ns);
      RunKeepsInv(f, states, steps, j - 1);
      assert StepAt(f, states, steps, j - 1);
      StepKeepsYoungest(f, states[j - 1], steps[j - 1], states[j], ns);
    }
  }

  /** Generations are remembered for ever. */
  lemma {:induction false} BirthsAreKept(f: Source, states: seq<Cache>, steps: seq<Step>, i: nat, j: nat)
    requires Run(f, states, steps) && i <= j < |states|
    ensures Later(states[i], states[j])
    decreases j - i
  {
    if i < j {
      BirthsAreKept(f, states, steps, i, j - 1);
      RunKeepsInv(f, states, steps, j - 1);
      assert StepAt(f, states, steps, j - 1);
      StepKeepsGenerations(f, states[j - 1], steps[j - 1], states[j]);
      LaterAgain(states[i], states[j - 1], states[j]);
    } else {
      RunKeepsInv(f, states, steps, i);
      LaterSelf(states[i]);
    }
  }

  lemma LaterSelf(c: Cache)
    requires GenerationsOk(c)
    ensures Later(c, c)
  {
  }

  lemma LaterAgain(a: Cache, b: Cache, c: Cache)
    requires Later(a, b) && Later(b, c)
    ensures Later(a, c)
  {
  }

  predicate InvalidatesNamespace(step: Step, ns: Text) {
    step.Invalidate? && step.ns == ns
  }

  /** Step m evicts the generation key of the namespace, and no step from there to j installs another. */
  predicate LostAt(steps: seq<Step>, m: nat, j: nat, ns: Text)
    requires j <= |steps|
  {
    m < j && steps[m] == EvictGeneration(ns) && forall n :: m < n < j ==> !InvalidatesNamespace(steps[n], ns)
  }

  /** After an invalidation the namespace falls back to its initial generation exactly when the key was evicted since. */
  lemma {:induction false} FallbackIff(f: Source, states: seq<Cache>, steps: seq<Step>, i: nat, j: nat, ns: Text)
    requires Run(f, states, steps) && i < j < |states| && InvalidatesNamespace(steps[i], ns)
    ensures Generation(states[j], ns) == "0" <==> exists m :: i < m < j && LostAt(steps, m, j, ns)
    ensures Generation(states[j], ns) == "0" <==> ns !in states[j].generations
    decreases j - i
  {
    RunKeepsInv(f, states, steps, j);
    assert StepAt(f, states, steps, j - 1);
    if j > i + 1 {
      FallbackIff(f, states, steps, i, j - 1, ns);
      var step := steps[j - 1];
      if step == EvictGeneration(ns) {
        assert LostAt(steps, j - 1, j, ns);
      } else if !InvalidatesNamespace(step, ns) {
        assert Generation(states[j], ns) == Generation(states[j - 1], ns);
        if m: nat :| i < m < j && LostAt(steps, m, j, ns) {
          assert LostAt(steps, m, j - 1, ns);
        } else if Generation(states[j - 1], ns) == "0" {
          var last := j - 1;
          var m: nat :| i < m < last && LostAt(steps, m, last, ns);
          assert LostAt(steps, m, j, ns);
        }
      }
    }
  }

  /** The reader that takes this step. */
  predicate MovesReader(step: Step, r: nat) {
    (step.ReadGeneration? || step.LookUp? || step.StartCall? || step.EndCall? || step.Publish? || step.GiveUp?) && step.r == r
  }

  lemma OthersLeaveReader(f: Source, c: Cache, step: Step, d: Cache, r: nat)
    requires Next(f, c, step, d) && r in c.readers && !MovesReader(step, r)
    ensures r in d.readers && d.readers[r] == c.readers[r]
  {
  }

  lemma {:induction false} ReaderWaits(f: Source, states: seq<Cache>, steps: seq<Step>, i: nat, j: nat, r: nat)
    requires Run(f, states, steps) && i <= j < |states| && r in states[i].readers
    requires forall m :: i <= m < j ==> !MovesReader(steps[m], r)
    ensures r in states[j].readers && states[j].readers[r] == states[i].readers[r]
    decreases j - i
  {
    if i < j {
      ReaderWaits(f, states, steps, i, j - 1, r);
      assert StepAt(f, states, steps, j - 1);
      OthersLeaveReader(f, states[j - 1], steps[j - 1], states[j], r);
    }
  }

  /** What a reader is about to look up: it fetched the generation at j and does nothing else before step k. */
  lemma FetchedGeneration(f: Source, states: seq<Cache>, steps: seq<Step>, j: nat, k: nat)
    requires Run(f, states, steps) && j < k < |steps| && steps[j].ReadGeneration?
    requires forall m :: j < m < k ==> !MovesReader(steps[m], steps[j].r)
    ensures steps[j].r in states[k].readers
    ensures states[k].readers[steps[j].r] == GotGeneration(steps[j].q, Generation(states[j], steps[j].q.ns))
  {
    assert StepAt(f, states, steps, j);
    ReaderWaits(f, states, steps, j + 1, k, steps[j].r);
  }

  /**
    Invalidation is immediate for later readers: when a reader fetches a generation after an invalidation of its
    namespace has completed, any but the fallback, and then hits, the value is what the function returns for that same
    user and arguments on data no older than the invalidation.
   */
  lemma HitIsNoOlderThanInvalidation(f: Source, states: seq<Cache>, steps: seq<Step>, i: nat, j: nat, k: nat)
    requires Run(f, states, steps) && i < j < k < |steps|
    requires steps[i].Invalidate? && steps[j].ReadGeneration? && steps[k] == LookUp(steps[j].r)
    requires steps[j].q.ns == steps[i].ns && Generation(states[j], steps[i].ns) != "0"
    requires forall m :: j < m < k ==> !MovesReader(steps[m], steps[j].r)
    requires IsHit(states[k], steps[j].r)
    ensures var hit := Entry(states[k], steps[j].q, states[k].readers[steps[j].r].generation);
            exists v :: states[i].version <= v <= states[k].version && hit == f(steps[j].q, v)
  {
    var q, ns := steps[j].q, steps[i].ns;
    var g := Generation(states[j], ns);
    RunKeepsInv(f, states, steps, j);
    RunKeepsInv(f, states, steps, k);
    assert StepAt(f, states, steps, i);
    assert (ns, steps[i].token) in states[i + 1].born && states[i + 1].born[(ns, steps[i].token)] == states[i].version;
    BirthsAreKept(f, states, steps, i + 1, j);
    BirthsAreKept(f, states, steps, j, k);
    FetchedGeneration(f, states, steps, j, k);
    assert Birth(states[j], ns, g) >= states[i].version;
    assert EntryOk(f, states[k], q, g);
  }

  /** So it is whenever the generation key was not evicted between the invalidation and the reading. */
  lemma HitIsFreshWithoutEviction(f: Source, states: seq<Cache>, steps: seq<Step>, i: nat, j: nat, k: nat)
    requires Run(f, states, steps) && i < j < k < |steps|
    requires steps[i].Invalidate? && steps[j].ReadGeneration? && steps[k] == LookUp(steps[j].r)
    requires steps[j].q.ns == steps[i].ns && forall m :: i < m < j ==> steps[m] != EvictGeneration(steps[i].ns)
    requires forall m :: j < m < k ==> !MovesReader(steps[m], steps[j].r)
    requires IsHit(states[k], steps[j].r)
    ensures var hit := Entry(states[k], steps[j].q, states[k].readers[steps[j].r].generation);
            exists v :: states[i].version <= v <= states[k].version && hit == f(steps[j].q, v)
  {
    FallbackIff(f, states, steps, i, j, steps[i].ns);
    HitIsNoOlderThanInvalidation(f, states, steps, i, j, k);
  }

  // ---------------------------------------------------------------- what an evicted generation key brings back

  /** Step s writes or removes the entry of a query in a generation. */
  predicate TouchesEntry(c: Cache, step: Step, q: Query, g: string) {
    || step == Expire(q, g)
    || (step.Publish? && step.r in c.readers && c.readers[step.r].Computed?
        && c.readers[step.r].q == q && c.readers[step.r].generation == g)
  }

  lemma {:induction false} EntryStays(f: Source, states: seq<Cache>, steps: seq<Step>, p: nat, k: nat, q: Query, g: string)
    requires Run(f, states, steps) && p <= k < |states|
    requires forall m :: p <= m < k ==> !TouchesEntry(states[m], steps[m], q, g)
    ensures Entry(states[k], q, g) == Entry(states[p], q, g)
    decreases k - p
  {
    if p < k {
      EntryStays(f, states, steps, p, k - 1, q, g);
      assert StepAt(f, states, steps, k - 1);
    }
  }

  /** A namespace whose generation key is lost is in its initial generation. */
  lemma {:induction false} LostMeansInitial(f: Source, states: seq<Cache>, steps: seq<Step>, m: nat, j: nat, ns: Text)
    requires Run(f, states, steps) && j < |states| && LostAt(steps, m, j, ns)
    ensures Generation(states[j], ns) == "0"
    decreases j - m
  {
    assert StepAt(f, states, steps, j - 1);
    if m + 1 < j {
      LostMeansInitial(f, states, steps, m, j - 1, ns);
      assert !InvalidatesNamespace(steps[j - 1], ns);
      assert ns !in states[j - 1].generations || states[j - 1].generations[ns] == "0";
    }
  }

  /**
    After an eviction with no later invalidation, every reader of the namespace gets the initial generation, and is
    served the last value published under it, whatever invalidations there were since that value was published.
   */
  lemma EvictionServesInitialEntry(f: Source, states: seq<Cache>, steps: seq<Step>, p: nat, m: nat, j: nat, k: nat)
    requires Run(f, states, steps) && j < k < |steps| && p < k
    requires steps[p].Publish? && steps[p].r in states[p].readers && states[p].readers[steps[p].r].Computed?
    requires steps[j].ReadGeneration? && steps[k] == LookUp(steps[j].r) && LostAt(steps, m, j, steps[j].q.ns)
    requires states[p].readers[steps[p].r].q == steps[j].q && states[p].readers[steps[p].r].generation == "0"
    requires forall n :: p < n < k ==> !TouchesEntry(states[n], steps[n], steps[j].q, "0")
    requires forall n :: j < n < k ==> !MovesReader(steps[n], steps[j].r)
    ensures steps[j].r in states[k].readers && states[k].readers[steps[j].r] == GotGeneration(steps[j].q, "0")
    ensures Entry(states[k], steps[j].q, "0") == states[p].readers[steps[p].r].value
    ensures IsHit(states[k], steps[j].r) <==> states[p].readers[steps[p].r].value.Some?
  {
    LostMeansInitial(f, states, steps, m, j, steps[j].q.ns);
    FetchedGeneration(f, states, steps, j, k);
    assert StepAt(f, states, steps, p);
    EntryStays(f, states, steps, p + 1, k, steps[j].q, "0");
  }

  // ---------------------------------------------------------------- a run that serves a stale value

  const NS: Text := []
  const ASK := Query(NS, [], "")

  function OneReader(generations: map<Text, string>, entries: map<(Query, string), Option<Value>>, version: nat,
                     born: map<(Text, string), nat>, reader: Reader): Cache {
    Cache(generations, entries, version, born, map[0 := reader])
  }

  function EvictionStates(x: Value): (states: seq<Cache>)
    ensures |states| == 10
  {
    var stale := map[(ASK, "0") := Some(x)];
    var born := map[(NS, "t") := 1];
    [ OneReader(map[], map[], 0, map[], Idle),
      OneReader(map[], map[], 0, map[], GotGeneration(ASK, "0")),
      OneReader(map[], map[], 0, map[], Missed(ASK, "0")),
      OneReader(map[], map[], 0, map[], Calling(ASK, "0", 0)),
      OneReader(map[], map[], 0, map[], Computed(ASK, "0", Some(x))),
      OneReader(map[], stale, 0, map[], Idle),
      OneReader(map[], stale, 1, map[], Idle),
      OneReader(map[NS := "t"], stale, 1, born, Idle),
      OneReader(map[], stale, 1, born, Idle),
      OneReader(map[], stale, 1, born, GotGeneration(ASK, "0"))]
  }

  const EVICTION_STEPS := [ReadGeneration(0, ASK), LookUp(0), StartCall(0), EndCall(0, 0), Publish(0), Change,
                          Invalidate(NS, "t"), EvictGeneration(NS), ReadGeneration(0, ASK)]

  lemma EvictionRunFills(f: Source, x: Value)
    requires f(ASK, 0) == Some(x)
    ensures forall i :: 3 <= i < 5 ==> Next(f, EvictionStates(x)[i], EVICTION_STEPS[i], EvictionStates(x)[i + 1])
  {
    var s := EvictionStates(x);
    assert Next(f, s[3], EVICTION_STEPS[3], s[4]);
    assert Next(f, s[4], EVICTION_STEPS[4], s[5]);
  }

  lemma EvictionRunMisses(f: Source, x: Value)
    ensures forall i :: 0 <= i < 3 ==> Next(f, EvictionStates(x)[i], EVICTION_STEPS[i], EvictionStates(x)[i + 1])
  {
    var s := EvictionStates(x);
    assert Next(f, s[0], EVICTION_STEPS[0], s[1]);
    assert Next(f, s[1], EVICTION_STEPS[1], s[2]);
    assert Next(f, s[2], EVICTION_STEPS[2], s[3]);
  }

  lemma EvictionRunForgets(f: Source, x: Value)
    ensures forall i :: 5 <= i < 9 ==> Next(f, EvictionStates(x)[i], EVICTION_STEPS[i], EvictionStates(x)[i + 1])
  {
    var s := EvictionStates(x);
    assert Next(f, s[5], EVICTION_STEPS[5], s[6]);
    assert Next(f, s[6], EVICTION_STEPS[6], s[7]);
    assert Next(f, s[7], EVICTION_STEPS[7], s[8]);
    assert Next(f, s[8], EVICTION_STEPS[8], s[9]);
  }

  /**
    With eviction the promise fails: an invalidation completed at version 1 and its key was then evicted, so
    a later reader falls back to the initial generation and is served the value of version 0.
   */
  lemma EvictionCounterexample(f: Source, x: Value)
    requires f(ASK, 0) == Some(x)
    ensures var s := EvictionStates(x);
            && Run(f, s, EVICTION_STEPS)
            && EVICTION_STEPS[6].Invalidate? && s[6].version == 1 && EVICTION_STEPS[8] == ReadGeneration(0, ASK)
            && IsHit(s[9], 0) && Entry(s[9], ASK, s[9].readers[0].generation) == f(ASK, 0)
  {
    EvictionRunMisses(f, x);
    EvictionRunFills(f, x);
    EvictionRunForgets(f, x);
  }

  // ---------------------------------------------------------------- what may happen at any time

  /** A reader may give up, an entry may expire and a generation may be evicted at any time, and nothing else is lost by it. */
  lemma AnythingMayBeLost(f: Source, c: Cache, r: nat, q: Query, token: string, ns: Text)
    ensures r in c.readers ==>
      exists d :: && Next(f, c, GiveUp(r), d) && r in d.readers && d.readers[r].Idle? && d.entries == c.entries
                  && d.generations == c.generations && d.version == c.version
    ensures exists d ::
      && Next(f, c, Expire(q, token), d) && Entry(d, q, token).None? && d.readers == c.readers && d.generations == c.generations
      && forall p, t :: p != q || t != token ==> Entry(d, p, t) == Entry(c, p, t)
    ensures exists d ::
      && Next(f, c, EvictGeneration(ns), d) && Generation(d, ns) == "0" && d.readers == c.readers && d.entries == c.entries
      && forall o :: o != ns ==> Generation(d, o) == Generation(c, o)
  {
    if r in c.readers { assert Next(f, c, GiveUp(r), SetReader(c, r, Idle)); }
    var expired := c.(entries := c.entries - {(q, token)});
    assert Next(f, c, Expire(q, token), expired);
    assert forall p, t :: p != q || t != token ==> Entry(expired, p, t) == Entry(c, p, t);
    var evicted := c.(generations := c.generations - {ns});
    assert Next(f, c, EvictGeneration(ns), evicted);
    assert forall o :: o != ns ==> Generation(evicted, o) == Generation(c, o);
  }
}
