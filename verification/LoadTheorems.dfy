// What every schedule of the load phase keeps, and what it ends with.

module LoadTheorems {
  import opened Words
  import opened Fnv
  import opened FirstRepeat
  import opened KeyName
  import opened Discrete
  import opened Store
  import opened LoadRun

  // The records the load phase asks for.
  function Loads(cfg: Config): nat
    requires cfg.threads > 0
  {
    cfg.threads * LoadShare(cfg)
  }

  // The counter does not wrap.
  predicate NoWrap(cfg: Config) {
    cfg.threads > 0 && cfg.start + Loads(cfg) < TWO_64
  }

  // And the key numbers stay where names are distinct.
  predicate Fits(cfg: Config) {
    NoWrap(cfg) && cfg.start + Loads(cfg) <= Distinguished(cfg.naming)
  }

  predicate Between(low: int, k: Word, high: int) {
    low <= k < high
  }

  // The key numbers from low up to, not including, high.
  function Range(low: int, high: int): set<Word> {
    set k: Word | Between(low, k, high)
  }

  function Union(clients: seq<Client>, f: Client -> set<Word>): set<Word> {
    if clients == [] then {} else f(clients[0]) + Union(clients[1..], f)
  }

  function Got(c: Client): set<Word> {
    c.got
  }

  function Stored(c: Client): set<Word> {
    c.stored
  }

  lemma {:induction false} InUnion(clients: seq<Client>, f: Client -> set<Word>, k: Word)
    ensures k in Union(clients, f) <==> exists t :: 0 <= t < |clients| && k in f(clients[t])
  {
    if clients != [] {
      InUnion(clients[1..], f, k);
      if k in Union(clients[1..], f) {
        var t :| 0 <= t < |clients| - 1 && k in f(clients[1..][t]);
        assert k in f(clients[t + 1]);
      }
      assert forall t | 0 < t < |clients| :: clients[t] == clients[1..][t - 1];
    }
  }

  lemma {:induction false} UnionUpdate(clients: seq<Client>, f: Client -> set<Word>, t: nat, c: Client)
    requires t < |clients| && f(clients[t]) <= f(c)
    ensures Union(clients[t := c], f) == Union(clients, f) + f(c)
  {
    if t > 0 {
      UnionUpdate(clients[1..], f, t - 1, c);
      assert clients[t := c][1..] == clients[1..][t - 1 := c];
    } else {
      assert clients[t := c][1..] == clients[1..];
    }
  }

  lemma {:induction false} UnionFresh(n: nat, share: nat, f: Client -> set<Word>)
    requires f(Client(share, Idle, 0, {}, {})) == {}
    ensures Union(Fresh(n, share), f) == {}
  {
    if n > 0 {
      UnionFresh(n - 1, share, f);
      assert Fresh(n, share)[1..] == Fresh(n - 1, share);
    }
  }

  // ---- The load invariant ----------------------------------------------------------

  // A loading client holds at most one number it has not put; every number it took is
  // counted against its share, every number it stored against its oks.
  predicate Loader(cfg: Config, c: Client)
    requires cfg.threads > 0
  {
    && |c.got| + c.remaining == LoadShare(cfg)
    && |c.stored| == c.oks && c.stored <= c.got
    && match c.pending
       case Idle => true
       case Put(num, insert) => insert && num in c.got && num !in c.stored
       case _ => false
  }

  ghost predicate LoadInv(cfg: Config, s: Sys)
    requires cfg.threads > 0
  {
    && s.phase == Loading && |s.clients| == cfg.threads && cfg.start <= s.counter
    && s.counter - cfg.start + Sum(s.clients, Remaining) == Loads(cfg)
    && Union(s.clients, Got) == Range(cfg.start, s.counter)
    && (forall t | 0 <= t < |s.clients| :: Loader(cfg, s.clients[t]))
    && (forall t, u | 0 <= t < u < |s.clients| :: s.clients[t].got !! s.clients[u].got)
  }

  lemma InitLoadInv(cfg: Config, store: map<string, string>)
    requires NoWrap(cfg)
    ensures LoadInv(cfg, Init(cfg, store))
  {
    SumFresh(cfg.threads, LoadShare(cfg), Remaining, LoadShare(cfg));
    UnionFresh(cfg.threads, LoadShare(cfg), Got);
  }

  lemma FetchKeepsLoadInv(cfg: Config, s: Sys, t: nat)
    requires NoWrap(cfg) && LoadInv(cfg, s) && Enabled(cfg, s, Begin(t, INSERT))
    ensures LoadInv(cfg, Apply(cfg, s, Begin(t, INSERT)))
    ensures Apply(cfg, s, Begin(t, INSERT)).counter == s.counter + 1
  {
    hide Loads, LoadShare, Distinguished, Union, Sum, Range;
    CounterDoesNotWrap(cfg, s, t);
    NextIsFresh(cfg, s);
    RangeGrows(cfg.start, s.counter);
    var c := s.clients[t];
    var c' := c.(remaining := c.remaining - 1, pending := Put(s.counter, true), got := c.got + {s.counter});
    SumUpdate(s.clients, Remaining, t, c');
    UnionUpdate(s.clients, Got, t, c');
    InUnionOfAll(s.clients, t);
    assert Loader(cfg, c);
    assert Loader(cfg, c');
    assert Apply(cfg, s, Begin(t, INSERT)).clients == s.clients[t := c'];
  }

  lemma NextIsFresh(cfg: Config, s: Sys)
    requires cfg.threads > 0 && LoadInv(cfg, s)
    ensures forall u | 0 <= u < |s.clients| :: s.counter !in s.clients[u].got && s.counter !in s.clients[u].stored
  {
    hide Loads, LoadShare;
    forall u | 0 <= u < |s.clients|
      ensures s.counter !in s.clients[u].got && s.counter !in s.clients[u].stored
    {
      assert Loader(cfg, s.clients[u]);
      InUnionOfAll(s.clients, u);
    }
  }

  lemma RangeGrows(low: int, high: Word)
    requires low <= high
    ensures Range(low, high + 1) == Range(low, high) + {high}
  {
  }

  lemma CounterDoesNotWrap(cfg: Config, s: Sys, t: nat)
    requires NoWrap(cfg) && LoadInv(cfg, s) && t < |s.clients| && s.clients[t].remaining > 0
    ensures s.counter + 1 < TWO_64
  {
    hide Loads, LoadShare;
    SumIsZero(s.clients, Remaining);
    assert Remaining(s.clients[t]) > 0;
  }

  lemma PutKeepsLoadInv(cfg: Config, s: Sys, t: nat, fails: bool, value: string)
    requires NoWrap(cfg) && LoadInv(cfg, s) && Enabled(cfg, s, Call(t, fails, value))
    ensures LoadInv(cfg, Apply(cfg, s, Call(t, fails, value)))
  {
    hide Loads, LoadShare, BuildKeyName;
    var s' := Apply(cfg, s, Call(t, fails, value));
    var c, c' := s.clients[t], s'.clients[t];
    SumUpdate(s.clients, Remaining, t, c');
    UnionUpdate(s.clients, Got, t, c');
    assert Loader(cfg, c);
    InUnionOfAll(s.clients, t);
  }

  lemma InUnionOfAll(clients: seq<Client>, t: nat)
    requires t < |clients|
    ensures clients[t].got <= Union(clients, Got)
  {
    forall k | k in clients[t].got
      ensures k in Union(clients, Got)
    {
      InUnion(clients, Got, k);
      assert k in Got(clients[t]);
    }
  }

  // ---- The store during the load ---------------------------------------------------

  function NamesOf(cfg: Config, nums: set<Word>): set<string> {
    set k | k in nums :: Name(cfg, k)
  }

  lemma NameIn(cfg: Config, nums: set<Word>, k: Word)
    requires forall n | n in nums :: n < Distinguished(cfg.naming)
    requires k < Distinguished(cfg.naming)
    ensures Name(cfg, k) in NamesOf(cfg, nums) <==> k in nums
  {
    forall n | n in nums
      ensures Name(cfg, n) == Name(cfg, k) <==> n == k
    {
      NamesAreDistinct(cfg.naming, n, k);
    }
  }

  // The keys of the store are the names of the numbers the clients stored, and where names
  // are distinct there are as many of them as the clients will report.
  ghost predicate StoreInv(cfg: Config, s: Sys)
    requires cfg.threads > 0
  {
    && s.store.Keys == NamesOf(cfg, Union(s.clients, Stored))
    && (Fits(cfg) ==> |s.store| == Sum(s.clients, Oks))
  }

  lemma InitStoreInv(cfg: Config)
    requires cfg.threads > 0
    ensures StoreInv(cfg, Init(cfg, map[]))
  {
    SumFresh(cfg.threads, LoadShare(cfg), Oks, 0);
    UnionFresh(cfg.threads, LoadShare(cfg), Stored);
  }

  lemma FetchKeepsStoreInv(cfg: Config, s: Sys, t: nat)
    requires NoWrap(cfg) && LoadInv(cfg, s) && StoreInv(cfg, s) && Enabled(cfg, s, Begin(t, INSERT))
    ensures StoreInv(cfg, Apply(cfg, s, Begin(t, INSERT)))
  {
    var c' := Apply(cfg, s, Begin(t, INSERT)).clients[t];
    SumUpdate(s.clients, Oks, t, c');
    UnionUpdate(s.clients, Stored, t, c');
    StoredIsInUnion(s.clients, t);
  }

  lemma StoredIsInUnion(clients: seq<Client>, t: nat)
    requires t < |clients|
    ensures clients[t].stored <= Union(clients, Stored)
  {
    forall k | k in clients[t].stored
      ensures k in Union(clients, Stored)
    {
      InUnion(clients, Stored, k);
      assert k in Stored(clients[t]);
    }
  }

  lemma StoredWasGot(cfg: Config, s: Sys)
    requires NoWrap(cfg) && LoadInv(cfg, s)
    ensures Union(s.clients, Stored) <= Union(s.clients, Got)
  {
    forall k | k in Union(s.clients, Stored)
      ensures k in Union(s.clients, Got)
    {
      InUnion(s.clients, Stored, k);
      var u :| 0 <= u < |s.clients| && k in Stored(s.clients[u]);
      assert Loader(cfg, s.clients[u]);
      InUnionOfAll(s.clients, u);
    }
  }

  // A number that is still to be put is not stored by any client.
  lemma PendingIsNotStored(cfg: Config, s: Sys, t: nat)
    requires NoWrap(cfg) && LoadInv(cfg, s) && t < |s.clients| && s.clients[t].pending.Put?
    ensures s.clients[t].pending.num !in Union(s.clients, Stored)
    ensures Union(s.clients, Stored) <= Union(s.clients, Got) == Range(cfg.start, s.counter)
    ensures s.clients[t].pending.num in Range(cfg.start, s.counter)
  {
    var num := s.clients[t].pending.num;
    assert Loader(cfg, s.clients[t]);
    InUnionOfAll(s.clients, t);
    InUnion(s.clients, Stored, num);
    forall u | 0 <= u < |s.clients|
      ensures num !in Stored(s.clients[u])
    {
      assert Loader(cfg, s.clients[u]);
    }
    StoredWasGot(cfg, s);
  }

  lemma PutKeepsStoreInv(cfg: Config, s: Sys, t: nat, fails: bool, value: string)
    requires NoWrap(cfg) && LoadInv(cfg, s) && StoreInv(cfg, s) && Enabled(cfg, s, Call(t, fails, value))
    ensures StoreInv(cfg, Apply(cfg, s, Call(t, fails, value)))
  {
    hide BuildKeyName, Loads, LoadShare;
    var c := s.clients[t];
    assert Loader(cfg, c);
    PendingIsNotStored(cfg, s, t);
    if Fits(cfg) {
      RangeFits(cfg, s);
    }
    if fails {
      PutFails(cfg, s, t, value);
    } else {
      PutStores(cfg, s, t, value);
    }
  }

  lemma PutFails(cfg: Config, s: Sys, t: nat, value: string)
    requires cfg.threads > 0 && StoreInv(cfg, s) && t < |s.clients| && s.clients[t].pending.Put?
    ensures StoreInv(cfg, Apply(cfg, s, Call(t, true, value)))
  {
    FailedPut(s.clients, t);
    hide BuildKeyName, Union, Sum;
    assert Apply(cfg, s, Call(t, true, value)).clients == s.clients[t := s.clients[t].(pending := Idle)];
  }

  lemma PutStores(cfg: Config, s: Sys, t: nat, value: string)
    requires cfg.threads > 0 && StoreInv(cfg, s) && t < |s.clients|
    requires var p := s.clients[t].pending;
             p.Put? && p.insert && p.num !in Union(s.clients, Stored)
             && (Fits(cfg) ==> AllDistinguished(cfg, Union(s.clients, Stored) + {p.num}))
    ensures StoreInv(cfg, Apply(cfg, s, Call(t, false, value)))
  {
    hide Name, Union, Sum, Distinguished, NamesOf, Fits;
    var s' := Apply(cfg, s, Call(t, false, value));
    var c := s.clients[t];
    NewName(cfg, s.store, Union(s.clients, Stored), c.pending.num, value);
    DonePut(s.clients, t);
    assert s'.clients == s.clients[t := c.(pending := Idle, oks := c.oks + 1, stored := c.stored + {c.pending.num})];
    assert s'.store == s.store[Name(cfg, c.pending.num) := value];
  }

  lemma FailedPut(clients: seq<Client>, t: nat)
    requires t < |clients|
    ensures var after := clients[t := clients[t].(pending := Idle)];
            Union(after, Stored) == Union(clients, Stored) && Sum(after, Oks) == Sum(clients, Oks)
  {
    var c' := clients[t].(pending := Idle);
    SumUpdate(clients, Oks, t, c');
    UnionUpdate(clients, Stored, t, c');
    StoredIsInUnion(clients, t);
  }

  lemma DonePut(clients: seq<Client>, t: nat)
    requires t < |clients| && clients[t].pending.Put?
    ensures var c := clients[t];
            var after := clients[t := c.(pending := Idle, oks := c.oks + 1, stored := c.stored + {c.pending.num})];
            && Union(after, Stored) == Union(clients, Stored) + {c.pending.num}
            && Sum(after, Oks) == Sum(clients, Oks) + 1
  {
    var c := clients[t];
    var c' := c.(pending := Idle, oks := c.oks + 1, stored := c.stored + {c.pending.num});
    SumUpdate(clients, Oks, t, c');
    UnionUpdate(clients, Stored, t, c');
    StoredIsInUnion(clients, t);
  }

  // Putting a number that is not stored adds its name, where names are distinct a new one.
  lemma NewName(cfg: Config, store: map<string, string>, before: set<Word>, num: Word, value: string)
    requires store.Keys == NamesOf(cfg, before) && num !in before
    ensures store[Name(cfg, num) := value].Keys == NamesOf(cfg, before + {num})
    ensures AllDistinguished(cfg, before + {num}) ==> |store[Name(cfg, num) := value]| == |store| + 1
  {
    hide Name;
    if AllDistinguished(cfg, before + {num}) {
      assert forall k | k in before :: k in before + {num};
      NameIn(cfg, before, num);
    }
    assert NamesOf(cfg, before + {num}) == NamesOf(cfg, before) + {Name(cfg, num)};
    assert store[Name(cfg, num) := value].Keys == store.Keys + {Name(cfg, num)};
  }

  predicate AllDistinguished(cfg: Config, nums: set<Word>) {
    forall k | k in nums :: k < Distinguished(cfg.naming)
  }

  lemma RangeFits(cfg: Config, s: Sys)
    requires Fits(cfg) && LoadInv(cfg, s)
    ensures forall k | k in Range(cfg.start, s.counter) :: k < Distinguished(cfg.naming)
  {
  }

  // ---- Schedules of the load phase -------------------------------------------------

  predicate LoadOnly(acts: seq<Action>) {
    forall i | 0 <= i < |acts| :: acts[i] != StartRun
  }

  predicate NoFailures(acts: seq<Action>) {
    forall i | 0 <= i < |acts| :: acts[i].Call? ==> !acts[i].fails
  }

  // Every number a client took is stored or about to be.
  predicate NothingLost(s: Sys) {
    forall t | 0 <= t < |s.clients| :: forall k | k in s.clients[t].got ::
      k in s.clients[t].stored || (s.clients[t].pending.Put? && k == s.clients[t].pending.num)
  }

  lemma StepLosesNothing(cfg: Config, s: Sys, a: Action)
    requires NoWrap(cfg) && LoadInv(cfg, s) && NothingLost(s)
    requires Enabled(cfg, s, a) && a != StartRun && (a.Call? ==> !a.fails)
    ensures NothingLost(Apply(cfg, s, a))
  {
    hide BuildKeyName;
    if a.Call? {
      assert Loader(cfg, s.clients[a.t]);
    }
  }

  lemma LoadStep(cfg: Config, s: Sys, a: Action)
    requires NoWrap(cfg) && LoadInv(cfg, s) && StoreInv(cfg, s)
    requires Enabled(cfg, s, a) && a != StartRun
    ensures LoadInv(cfg, Apply(cfg, s, a)) && StoreInv(cfg, Apply(cfg, s, a))
  {
    assert s.phase == Loading;
    hide Apply, LoadInv, StoreInv, Fits;
    match a
    case Begin(t, op) =>
      FetchKeepsLoadInv(cfg, s, t);
      FetchKeepsStoreInv(cfg, s, t);
    case Call(t, fails, value) =>
      PutKeepsLoadInv(cfg, s, t, fails, value);
      PutKeepsStoreInv(cfg, s, t, fails, value);
  }

  lemma {:induction false} LoadRuns(cfg: Config, s: Sys, acts: seq<Action>)
    requires NoWrap(cfg) && LoadInv(cfg, s) && StoreInv(cfg, s)
    requires Schedule(cfg, s, acts) && LoadOnly(acts)
    ensures LoadInv(cfg, After(cfg, s, acts)) && StoreInv(cfg, After(cfg, s, acts))
    ensures NothingLost(s) && NoFailures(acts) ==> NothingLost(After(cfg, s, acts))
    decreases |acts|
  {
    hide Apply, Enabled, LoadInv, StoreInv, NothingLost;
    if acts != [] {
      LoadStep(cfg, s, acts[0]);
      if NothingLost(s) && NoFailures(acts) {
        StepLosesNothing(cfg, s, acts[0]);
      }
      assert forall i | 0 <= i < |acts| - 1 :: acts[1..][i] == acts[i + 1];
      LoadRuns(cfg, Apply(cfg, s, acts[0]), acts[1..]);
    }
  }

  // The state a load from the empty store has reached.
  function Loaded(cfg: Config, acts: seq<Action>): Sys
    requires cfg.threads > 0 && Schedule(cfg, Init(cfg, map[]), acts)
  {
    After(cfg, Init(cfg, map[]), acts)
  }

  lemma LoadReaches(cfg: Config, acts: seq<Action>)
    requires NoWrap(cfg) && Schedule(cfg, Init(cfg, map[]), acts) && LoadOnly(acts)
    ensures LoadInv(cfg, Loaded(cfg, acts)) && StoreInv(cfg, Loaded(cfg, acts))
    ensures NoFailures(acts) ==> NothingLost(Loaded(cfg, acts))
  {
    InitLoadInv(cfg, map[]);
    InitStoreInv(cfg);
    assert NothingLost(Init(cfg, map[]));
    hide Schedule, After, LoadInv, StoreInv, NothingLost, Init;
    LoadRuns(cfg, Init(cfg, map[]), acts);
  }

  // In every state of every load: the numbers handed out are exactly those from start up
  // to the counter, each taken by one client; handed out and remaining add up to the
  // loads; and the sum to be reported is the number of distinct keys in the store, even if
  // some puts failed.
  lemma LoadState(cfg: Config, acts: seq<Action>)
    requires NoWrap(cfg) && Schedule(cfg, Init(cfg, map[]), acts) && LoadOnly(acts)
    ensures var s := Loaded(cfg, acts);
            && Union(s.clients, Got) == Range(cfg.start, s.counter)
            && (forall t, u | 0 <= t < u < |s.clients| :: s.clients[t].got !! s.clients[u].got)
            && (forall t | 0 <= t < |s.clients| :: Loader(cfg, s.clients[t]))
            && (s.counter - cfg.start) + Sum(s.clients, Remaining) == Loads(cfg)
            && (Fits(cfg) ==> |s.store| == Sum(s.clients, Oks))
            && s.store.Keys <= NamesOf(cfg, Range(cfg.start, s.counter))
  {
    LoadReaches(cfg, acts);
    hide Schedule, After, Name;
    StoredWasGot(cfg, Loaded(cfg, acts));
  }

  // A finished load whose puts all succeeded leaves the same keys whatever the schedule:
  // those of the first Loads key numbers. The rest of the division is not loaded.
  lemma FinishedLoad(cfg: Config, acts: seq<Action>)
    requires NoWrap(cfg) && Schedule(cfg, Init(cfg, map[]), acts) && LoadOnly(acts)
    requires AllDone(Loaded(cfg, acts).clients)
    ensures var s := Loaded(cfg, acts);
            && s.counter == cfg.start + Loads(cfg) == cfg.start + cfg.threads * (cfg.recordCount / cfg.threads)
            && (forall t | 0 <= t < |s.clients| :: |s.clients[t].got| == cfg.recordCount / cfg.threads)
            && cfg.recordCount - (s.counter - cfg.start) == cfg.recordCount % cfg.threads
            && (NoFailures(acts) ==> s.store.Keys == NamesOf(cfg, Range(cfg.start, cfg.start + Loads(cfg))))
            && (NoFailures(acts) ==> Sum(s.clients, Oks) == Loads(cfg))
  {
    LoadReaches(cfg, acts);
    hide Schedule, After, Name;
    FinishedState(cfg, Loaded(cfg, acts));
    FullShares(cfg, Loaded(cfg, acts));
  }

  lemma FullShares(cfg: Config, s: Sys)
    requires cfg.threads > 0 && LoadInv(cfg, s) && AllDone(s.clients)
    ensures Loads(cfg) == cfg.threads * (cfg.recordCount / cfg.threads)
    ensures forall t | 0 <= t < |s.clients| :: |s.clients[t].got| == cfg.recordCount / cfg.threads
  {
    forall t | 0 <= t < |s.clients|
      ensures |s.clients[t].got| == cfg.recordCount / cfg.threads
    {
      assert Loader(cfg, s.clients[t]);
    }
  }

  // A finished load without failures reports T * (N / T) records. Where it starts no later than
  // at the smaller of the first two numbers of one name, so many keys are in the store exactly
  // when the load does not reach the larger.
  lemma ReportedRecordsExist(cfg: Config, acts: seq<Action>)
    requires NoWrap(cfg) && Schedule(cfg, Init(cfg, map[]), acts) && LoadOnly(acts) && NoFailures(acts)
    requires AllDone(Loaded(cfg, acts).clients) && cfg.start <= SMALLER_TWIN
    ensures var s := Loaded(cfg, acts);
            |s.store| == Sum(s.clients, Oks) <==> cfg.start + Loads(cfg) <= Distinguished(cfg.naming)
  {
    FinishedLoad(cfg, acts);
    LoadReaches(cfg, acts);
    hide Schedule, After, Loads, Distinguished, Name, NamesOf, NoFailures, LoadOnly, AllDone;
    if !Fits(cfg) {
      FewerNames(cfg);
      assert |Loaded(cfg, acts).store| == |Loaded(cfg, acts).store.Keys|;
    }
  }

  lemma FewerNames(cfg: Config)
    requires NoWrap(cfg) && !Fits(cfg) && cfg.start <= SMALLER_TWIN
    ensures |NamesOf(cfg, Range(cfg.start, cfg.start + Loads(cfg)))| < Loads(cfg)
  {
    hide Loads, Name;
    var high := cfg.start + Loads(cfg);
    var nums := Range(cfg.start, high);
    TwinsAreIn(cfg, high);
    var rest := nums - {FIRST_REPEAT};
    assert NamesOf(cfg, nums) == NamesOf(cfg, rest) by {
      assert SMALLER_TWIN in rest && Name(cfg, SMALLER_TWIN) == Name(cfg, FIRST_REPEAT);
    }
    NamesAreFewer(cfg, rest);
    RangeSize(cfg.start, high);
  }

  lemma TwinsAreIn(cfg: Config, high: int)
    requires Distinguished(cfg.naming) < high < TWO_64 && cfg.start <= SMALLER_TWIN
    ensures FIRST_REPEAT in Range(cfg.start, high) && SMALLER_TWIN in Range(cfg.start, high)
    ensures SMALLER_TWIN != FIRST_REPEAT && Name(cfg, SMALLER_TWIN) == Name(cfg, FIRST_REPEAT)
  {
    hide BuildKeyName, Hash;
    HashRepeats();
    assert cfg.naming == Naming(false, cfg.naming.zeroPadding);
    HashedNamesCollide(cfg.naming.zeroPadding);
    assert Between(cfg.start, FIRST_REPEAT, high) && Between(cfg.start, SMALLER_TWIN, high);
  }

  lemma {:induction false} NamesAreFewer(cfg: Config, nums: set<Word>)
    ensures |NamesOf(cfg, nums)| <= |nums|
  {
    hide Name;
    if nums != {} {
      var k :| k in nums;
      NamesAreFewer(cfg, nums - {k});
      assert NamesOf(cfg, nums) == NamesOf(cfg, nums - {k}) + {Name(cfg, k)};
    }
  }

  lemma {:induction false} RangeSize(low: nat, high: nat)
    requires low <= high <= TWO_64
    ensures |Range(low, high)| == high - low
    decreases high
  {
    if low < high {
      RangeSize(low, high - 1);
      RangeGrows(low, high - 1);
    } else {
      assert Range(low, high) == {};
    }
  }

  lemma SchedulesAgree(cfg: Config, acts: seq<Action>, others: seq<Action>)
    requires NoWrap(cfg)
    requires Schedule(cfg, Init(cfg, map[]), acts) && LoadOnly(acts) && NoFailures(acts)
    requires Schedule(cfg, Init(cfg, map[]), others) && LoadOnly(others) && NoFailures(others)
    requires AllDone(Loaded(cfg, acts).clients) && AllDone(Loaded(cfg, others).clients)
    ensures Loaded(cfg, acts).store.Keys == Loaded(cfg, others).store.Keys
  {
    FinishedLoad(cfg, acts);
    FinishedLoad(cfg, others);
  }

  lemma FinishedState(cfg: Config, s: Sys)
    requires NoWrap(cfg) && LoadInv(cfg, s) && StoreInv(cfg, s) && AllDone(s.clients)
    ensures s.counter == cfg.start + Loads(cfg)
    ensures cfg.recordCount - Loads(cfg) == cfg.recordCount % cfg.threads
    ensures NothingLost(s) ==> s.store.Keys == NamesOf(cfg, Range(cfg.start, cfg.start + Loads(cfg)))
    ensures NothingLost(s) ==> Sum(s.clients, Oks) == Loads(cfg)
  {
    Unloaded(cfg);
    hide Name, Loads, LoadShare;
    SumIsZero(s.clients, Remaining);
    if NothingLost(s) {
      EverythingStored(cfg, s);
    }
  }

  lemma Unloaded(cfg: Config)
    requires cfg.threads > 0
    ensures cfg.recordCount - Loads(cfg) == cfg.recordCount % cfg.threads
  {
  }

  lemma EverythingStored(cfg: Config, s: Sys)
    requires NoWrap(cfg) && LoadInv(cfg, s) && NothingLost(s) && AllDone(s.clients)
    ensures Union(s.clients, Stored) == Union(s.clients, Got)
    ensures Sum(s.clients, Oks) == Loads(cfg)
  {
    AllStored(cfg, s);
    AllOks(cfg, s.clients);
    StoredWasGot(cfg, s);
    forall k | k in Union(s.clients, Got)
      ensures k in Union(s.clients, Stored)
    {
      InUnion(s.clients, Got, k);
      var t :| 0 <= t < |s.clients| && k in Got(s.clients[t]);
      StoredIsInUnion(s.clients, t);
    }
  }

  lemma AllStored(cfg: Config, s: Sys)
    requires NoWrap(cfg) && LoadInv(cfg, s) && NothingLost(s) && AllDone(s.clients)
    ensures forall t | 0 <= t < |s.clients| :: s.clients[t].stored == s.clients[t].got
    ensures forall t | 0 <= t < |s.clients| :: s.clients[t].oks == LoadShare(cfg)
  {
    forall t | 0 <= t < |s.clients|
      ensures s.clients[t].stored == s.clients[t].got && s.clients[t].oks == LoadShare(cfg)
    {
      assert Loader(cfg, s.clients[t]);
      assert s.clients[t].stored == s.clients[t].got;
    }
  }

  lemma {:induction false} AllOks(cfg: Config, clients: seq<Client>)
    requires cfg.threads > 0 && forall t | 0 <= t < |clients| :: clients[t].oks == LoadShare(cfg)
    ensures Sum(clients, Oks) == |clients| * LoadShare(cfg)
  {
    if clients != [] {
      AllOks(cfg, clients[1..]);
      assert |clients| * LoadShare(cfg) == LoadShare(cfg) + (|clients| - 1) * LoadShare(cfg);
    }
  }

  // The transaction keys, numbers 0 up to the record count, are all loaded exactly when
  // loading starts at 0 and the clients divide the record count.
  lemma AllRecordsLoaded(cfg: Config, acts: seq<Action>)
    requires Fits(cfg) && Schedule(cfg, Init(cfg, map[]), acts) && LoadOnly(acts) && NoFailures(acts)
    requires AllDone(Loaded(cfg, acts).clients)
    requires 0 < cfg.recordCount <= Distinguished(cfg.naming)
    ensures NamesOf(cfg, Range(0, cfg.recordCount)) <= Loaded(cfg, acts).store.Keys
            <==> cfg.start == 0 && cfg.recordCount % cfg.threads == 0
  {
    FinishedLoad(cfg, acts);
    hide Schedule, After;
    RangesAgree(cfg);
  }

  lemma RangesAgree(cfg: Config)
    requires Fits(cfg) && 0 < cfg.recordCount <= Distinguished(cfg.naming)
    ensures NamesOf(cfg, Range(0, cfg.recordCount)) <= NamesOf(cfg, Range(cfg.start, cfg.start + Loads(cfg)))
            <==> cfg.start == 0 && cfg.recordCount % cfg.threads == 0
  {
    hide Name;
    var loaded := Range(cfg.start, cfg.start + Loads(cfg));
    Unloaded(cfg);
    if cfg.start != 0 || cfg.recordCount % cfg.threads != 0 {
      var k: Word := if cfg.start > 0 then 0 else Loads(cfg);
      assert Between(0, k, cfg.recordCount);
      NameIn(cfg, loaded, k);
      assert Name(cfg, k) in NamesOf(cfg, Range(0, cfg.recordCount));
    }
  }
}
