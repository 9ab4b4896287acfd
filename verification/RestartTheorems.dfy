// A run phase in a process of its own, over a store that was loaded before.

module RestartTheorems {
  import opened Words
  import opened KeyName
  import opened Discrete
  import opened Store
  import opened LoadRun
  import opened LoadTheorems

  // The key counter of a new process restarts at the insert start.
  function Restarted(cfg: Config, store: map<string, string>): Sys
    requires cfg.threads > 0
  {
    Sys(Running, cfg.start, store, Fresh(cfg.threads, RunShare(cfg)), [])
  }

  // All calls under way name existing keys, and inserts cannot pass the records.
  ghost predicate RestartInv(cfg: Config, s: Sys, keys: set<string>) {
    && s.phase == Running && s.store.Keys <= keys
    && (INSERT !in cfg.ops || s.counter + Sum(s.clients, Remaining) <= cfg.recordCount)
    && forall t | 0 <= t < |s.clients| :: CallsNameKeys(cfg, s.clients[t].pending, keys)
  }

  predicate CallsNameKeys(cfg: Config, p: Pending, keys: set<string>) {
    match p
    case Idle => true
    case Choosing(_) => cfg.recordCount > 0
    case Put(num, _) => Name(cfg, num) in keys
    case Get(num, _) => Name(cfg, num) in keys
    case Delete(num) => Name(cfg, num) in keys
    case Scan(num) => Name(cfg, num) in keys
  }

  lemma RecordIsKey(cfg: Config, keys: set<string>, k: Word)
    requires NamesOf(cfg, Range(0, cfg.recordCount)) <= keys && k < cfg.recordCount
    ensures Name(cfg, k) in keys
  {
    hide Name;
    assert Between(0, k, cfg.recordCount);
    assert Name(cfg, k) in NamesOf(cfg, Range(0, cfg.recordCount));
  }

  lemma BeginKeepsRestart(cfg: Config, s: Sys, t: nat, op: Operation, keys: set<string>)
    requires NamesOf(cfg, Range(0, cfg.recordCount)) <= keys && RestartInv(cfg, s, keys)
    requires cfg.recordCount > 0 || INSERT in cfg.ops
    requires Enabled(cfg, s, Begin(t, op))
    ensures RestartInv(cfg, Apply(cfg, s, Begin(t, op)), keys)
  {
    hide Name, NamesOf, Sum;
    SumUpdate(s.clients, Remaining, t, Apply(cfg, s, Begin(t, op)).clients[t]);
    SumIsZero(s.clients, Remaining);
    assert Remaining(s.clients[t]) > 0;
    if op == INSERT {
      RecordIsKey(cfg, keys, s.counter);
    }
  }

  lemma RestartStep(cfg: Config, s: Sys, a: Action, keys: set<string>)
    requires NamesOf(cfg, Range(0, cfg.recordCount)) <= keys && RestartInv(cfg, s, keys)
    requires cfg.recordCount > 0 || INSERT in cfg.ops
    requires Enabled(cfg, s, a)
    ensures RestartInv(cfg, Apply(cfg, s, a), keys)
  {
    hide Name, NamesOf, Sum, ReadStatus;
    match a
    case Begin(t, op) =>
      BeginKeepsRestart(cfg, s, t, op, keys);
    case Draw(t, num) =>
      SumUpdate(s.clients, Remaining, t, Apply(cfg, s, a).clients[t]);
      assert CallsNameKeys(cfg, s.clients[t].pending, keys);
      if num <= Newest(cfg) {
        RecordIsKey(cfg, keys, num);
      }
    case Call(t, fails, value) =>
      SumUpdate(s.clients, Remaining, t, Apply(cfg, s, a).clients[t]);
      assert CallsNameKeys(cfg, s.clients[t].pending, keys);
    case StartRun =>
  }

  lemma {:induction false} RestartRuns(cfg: Config, s: Sys, acts: seq<Action>, keys: set<string>)
    requires NamesOf(cfg, Range(0, cfg.recordCount)) <= keys && RestartInv(cfg, s, keys)
    requires cfg.recordCount > 0 || INSERT in cfg.ops
    requires Schedule(cfg, s, acts)
    ensures RestartInv(cfg, After(cfg, s, acts), keys)
    decreases |acts|
  {
    hide Apply, Enabled, RestartInv, NamesOf;
    if acts != [] {
      RestartStep(cfg, s, acts[0], keys);
      RestartRuns(cfg, Apply(cfg, s, acts[0]), acts[1..], keys);
    }
  }

  // ---- Inserting past the records ----------------------------------------------------

  // Between operations, with more inserts left than it takes to reach the record count.
  predicate CanPass(cfg: Config, s: Sys) {
    && s.phase == Running && INSERT in cfg.ops
    && s.counter <= cfg.recordCount < s.counter + Sum(s.clients, Remaining)
    && forall t | 0 <= t < |s.clients| :: s.clients[t].pending == Idle
  }

  // One insert, put at once.
  lemma OneInsert(cfg: Config, s: Sys) returns (t: nat)
    requires CanPass(cfg, s)
    ensures Enabled(cfg, s, Begin(t, INSERT))
    ensures var s' := Apply(cfg, s, Begin(t, INSERT));
            && Enabled(cfg, s', Call(t, false, "x"))
            && var s'' := Apply(cfg, s', Call(t, false, "x"));
               && Name(cfg, s.counter) in s''.store
               && (s.counter < cfg.recordCount ==> CanPass(cfg, s'') && s''.counter == s.counter + 1)
  {
    hide Name, Sum;
    SumIsZero(s.clients, Remaining);
    t :| 0 <= t < |s.clients| && Remaining(s.clients[t]) > 0;
    var s' := Apply(cfg, s, Begin(t, INSERT));
    var s'' := Apply(cfg, s', Call(t, false, "x"));
    SumUpdate(s.clients, Remaining, t, s'.clients[t]);
    SumUpdate(s'.clients, Remaining, t, s''.clients[t]);
  }

  lemma {:induction false} InsertPastRecords(cfg: Config, s: Sys) returns (acts: seq<Action>)
    requires CanPass(cfg, s)
    ensures Schedule(cfg, s, acts) && Name(cfg, cfg.recordCount) in After(cfg, s, acts).store
    decreases cfg.recordCount - s.counter
  {
    hide CanPass, Apply, Enabled, Name;
    var t := OneInsert(cfg, s);
    CounterIsBelow(cfg, s);
    var a, b := Begin(t, INSERT), Call(t, false, "x");
    var s'' := Apply(cfg, Apply(cfg, s, a), b);
    var rest: seq<Action> := [];
    if s.counter < cfg.recordCount {
      rest := InsertPastRecords(cfg, s'');
    }
    acts := [a] + ([b] + rest);
    Ahead(cfg, Apply(cfg, s, a), b, rest);
    Ahead(cfg, s, a, [b] + rest);
  }

  lemma Ahead(cfg: Config, s: Sys, a: Action, acts: seq<Action>)
    requires Enabled(cfg, s, a) && Schedule(cfg, Apply(cfg, s, a), acts)
    ensures Schedule(cfg, s, [a] + acts)
    ensures After(cfg, s, [a] + acts) == After(cfg, Apply(cfg, s, a), acts)
  {
    hide Apply, Enabled;
    assert ([a] + acts)[1..] == acts;
  }

  lemma CounterIsBelow(cfg: Config, s: Sys)
    requires CanPass(cfg, s)
    ensures s.counter <= cfg.recordCount
  {
  }

  // ---- Result --------------------------------------------------------------------------

  // The inserts of a separate run repeat the numbers of the load: over a store loaded from
  // number 0, no schedule adds a key exactly if the mix has no inserts or the operations of all
  // clients, counted from the insert start, do not pass the records.
  lemma SeparateRunAddsNoKey(cfg: Config, store: map<string, string>)
    requires cfg.threads > 0 && cfg.start <= cfg.recordCount < Distinguished(cfg.naming)
    requires cfg.recordCount > 0 || INSERT in cfg.ops
    requires store.Keys == NamesOf(cfg, Range(0, cfg.recordCount))
    ensures (forall acts | Schedule(cfg, Restarted(cfg, store), acts) ::
               After(cfg, Restarted(cfg, store), acts).store.Keys <= store.Keys)
            <==> INSERT !in cfg.ops || cfg.start + cfg.threads * (cfg.operationCount / cfg.threads) <= cfg.recordCount
  {
    assert RunShare(cfg) == cfg.operationCount / cfg.threads;
    hide Schedule, After, NamesOf, Name, Sum, RunShare, Distinguished;
    var s := Restarted(cfg, store);
    SumFresh(cfg.threads, RunShare(cfg), Remaining, RunShare(cfg));
    if INSERT !in cfg.ops || cfg.start + cfg.threads * RunShare(cfg) <= cfg.recordCount {
      forall acts | Schedule(cfg, s, acts)
        ensures After(cfg, s, acts).store.Keys <= store.Keys
      {
        RestartRuns(cfg, s, acts, store.Keys);
      }
    } else {
      var acts := InsertPastRecords(cfg, s);
      NotARecord(cfg);
      assert Name(cfg, cfg.recordCount) !in store.Keys;
    }
  }

  lemma NotARecord(cfg: Config)
    requires cfg.recordCount < Distinguished(cfg.naming)
    ensures Name(cfg, cfg.recordCount) !in NamesOf(cfg, Range(0, cfg.recordCount))
  {
    NameIn(cfg, Range(0, cfg.recordCount), cfg.recordCount);
  }
}
