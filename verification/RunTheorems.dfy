// What every schedule of the run phase keeps after a complete load.

module RunTheorems {
  import opened Words
  import opened Wrappers
  import opened KeyName
  import opened Discrete
  import opened Store
  import opened LoadRun
  import opened LoadTheorems

  // ---- The log of the store --------------------------------------------------------

  // The last write to a key: its value, or nothing for a delete.
  datatype Write = Value(value: string) | Tombstone

  function LastWrite(log: seq<Event>, key: string): Option<Write> {
    if log == [] then None
    else
      var n := |log| - 1;
      match log[n]
      case Written(k, v) => if k == key then Some(Value(v)) else LastWrite(log[..n], key)
      case Removed(k) => if k == key then Some(Tombstone) else LastWrite(log[..n], key)
      case Looked(_, _, _) => LastWrite(log[..n], key)
  }

  lemma LastWriteOfAppend(log: seq<Event>, e: Event, key: string)
    ensures LastWrite(log + [e], key)
            == match e
               case Written(k, v) => (if k == key then Some(Value(v)) else LastWrite(log, key))
               case Removed(k) => (if k == key then Some(Tombstone) else LastWrite(log, key))
               case Looked(_, _, _) => LastWrite(log, key)
  {
    assert (log + [e])[..|log|] == log;
  }

  // The store holds for each key what its last write left there.
  ghost predicate Reflects(log: seq<Event>, store: map<string, string>) {
    forall key: string ::
      && (key in store <==> LastWrite(log, key).Some? && LastWrite(log, key).value.Value?)
      && (key in store ==> store[key] == LastWrite(log, key).value.value)
  }

  function StoreAfter(store: map<string, string>, e: Event): map<string, string> {
    match e
    case Written(k, v) => store[k := v]
    case Removed(k) => store - {k}
    case Looked(_, _, _) => store
  }

  lemma ReflectsAfter(log: seq<Event>, store: map<string, string>, e: Event)
    requires Reflects(log, store)
    ensures Reflects(log + [e], StoreAfter(store, e))
  {
    forall key: string
      ensures LastWrite(log + [e], key)
              == match e
                 case Written(k, v) => (if k == key then Some(Value(v)) else LastWrite(log, key))
                 case Removed(k) => (if k == key then Some(Tombstone) else LastWrite(log, key))
                 case Looked(_, _, _) => LastWrite(log, key)
    {
      LastWriteOfAppend(log, e, key);
    }
  }

  // ---- Lookups -----------------------------------------------------------------------

  // Nothing was written, or what was written last reads as no data.
  predicate Absent(w: Option<Write>) {
    w == None || w == Some(Tombstone) || w == Some(Value(""))
  }

  // A lookup sees the last write of its key.
  lemma LookupSeesLastWrite(log: seq<Event>, store: map<string, string>, key: string)
    requires Reflects(log, store)
    ensures ReadStatus(store, key) == NO_DATA <==> Absent(LastWrite(log, key))
  {
    hide LastWrite;
  }

  // A lookup that the engine answered finds no data exactly if the last write to its key
  // before it left none.
  predicate LookupOk(log: seq<Event>, i: nat)
    requires i < |log|
  {
    log[i].Looked? && log[i].answered ==> (log[i].status == NO_DATA <==> Absent(LastWrite(log[..i], log[i].key)))
  }

  // The log tells what the store holds, and from a position on what each lookup found.
  ghost predicate LogInv(s: Sys, from: nat) {
    && Reflects(s.log, s.store)
    && forall i | from <= i < |s.log| :: LookupOk(s.log, i)
  }

  // A store call appends at most one event, which tells its effect or what it found.
  lemma CallEvent(cfg: Config, s: Sys, t: nat, fails: bool, value: string)
    requires Enabled(cfg, s, Call(t, fails, value))
    ensures var r := Called(cfg, s.clients[t], s.store, fails, value);
            && |r.2| <= 1 && r.1 == (if r.2 == [] then s.store else StoreAfter(s.store, r.2[0]))
            && (r.2 != [] && r.2[0].Looked? && r.2[0].answered ==> r.2[0].status == ReadStatus(s.store, r.2[0].key))
  {
    hide Name, ReadStatus;
  }

  lemma LogStep(cfg: Config, s: Sys, a: Action, from: nat)
    requires LogInv(s, from) && Enabled(cfg, s, a)
    ensures LogInv(Apply(cfg, s, a), from)
  {
    hide LastWrite, Reflects, ReadStatus, Name;
    if a.Call? {
      CallEvent(cfg, s, a.t, a.fails, a.value);
      hide Called;
      var r := Called(cfg, s.clients[a.t], s.store, a.fails, a.value);
      if r.2 == [] {
        assert s.log + r.2 == s.log;
      } else {
        assert s.log + r.2 == s.log + [r.2[0]];
        ReflectsAfter(s.log, s.store, r.2[0]);
        LookupAppended(s.log, s.store, r.2[0], from);
      }
    }
  }

  lemma LookupAppended(log: seq<Event>, store: map<string, string>, e: Event, from: nat)
    requires Reflects(log, store) && forall i | from <= i < |log| :: LookupOk(log, i)
    requires e.Looked? && e.answered ==> e.status == ReadStatus(store, e.key)
    ensures forall i | from <= i < |log + [e]| :: LookupOk(log + [e], i)
  {
    hide LastWrite, Reflects, ReadStatus;
    forall i | from <= i < |log + [e]|
      ensures LookupOk(log + [e], i)
    {
      if i < |log| {
        assert (log + [e])[..i] == log[..i] && LookupOk(log, i);
      } else {
        assert (log + [e])[..i] == log;
        if e.Looked? {
          LookupSeesLastWrite(log, store, e.key);
        }
      }
    }
  }

  // In every interleaving from any state whose log tells what its store holds, whatever
  // calls fail and whatever values are written: an answered lookup reports no data exactly
  // if the last write to its key was a delete or an empty value, or there was none.
  lemma {:induction false} LookupsAreExact(cfg: Config, s: Sys, acts: seq<Action>, from: nat)
    requires LogInv(s, from) && Schedule(cfg, s, acts)
    ensures LogInv(After(cfg, s, acts), from)
    decreases |acts|
  {
    hide Apply, Enabled, LogInv;
    if acts != [] {
      LogStep(cfg, s, acts[0], from);
      LookupsAreExact(cfg, Apply(cfg, s, acts[0]), acts[1..], from);
    }
  }

  // ---- The run invariant -----------------------------------------------------------

  // The key numbers of the records, and of all keys there can be.
  predicate IsRecord(cfg: Config, key: string, limit: int) {
    exists k: Word :: Between(0, k, limit) && key == Name(cfg, k)
  }

  // There are records, all are loaded, and a run can hand out this many numbers more.
  predicate RunFits(cfg: Config) {
    && cfg.threads > 0 && cfg.start == 0 && cfg.recordCount > 0 && cfg.recordCount % cfg.threads == 0
    && cfg.recordCount + cfg.threads * RunShare(cfg) < TWO_64
    && cfg.recordCount + cfg.threads * RunShare(cfg) <= Distinguished(cfg.naming)
  }

  predicate Runner(cfg: Config, counter: Word, c: Client) {
    match c.pending
    case Idle => true
    case Choosing(_) => true
    case Put(num, insert) => if insert then cfg.recordCount <= num < counter else num < cfg.recordCount
    case Get(num, _) => num < cfg.recordCount
    case Delete(num) => num < cfg.recordCount
    case Scan(num) => num < cfg.recordCount
  }

  // Lookups and deletes name records; writes name keys the counter has passed.
  predicate EventOk(cfg: Config, counter: Word, e: Event) {
    match e
    case Written(key, _) => IsRecord(cfg, key, counter)
    case Removed(key) => IsRecord(cfg, key, cfg.recordCount)
    case Looked(key, _, _) => IsRecord(cfg, key, cfg.recordCount)
  }

  // What a lookup looks for has been written.
  predicate WasWritten(log: seq<Event>, i: nat)
    requires i < |log|
  {
    log[i].Looked? ==> LastWrite(log[..i], log[i].key).Some?
  }

  ghost predicate RunInv(cfg: Config, s: Sys)
    requires cfg.threads > 0
  {
    && s.phase == Running && cfg.recordCount <= s.counter
    && s.counter + Sum(s.clients, Remaining) <= cfg.recordCount + cfg.threads * RunShare(cfg)
    && (forall t | 0 <= t < |s.clients| :: Runner(cfg, s.counter, s.clients[t]))
    && (forall key: string | IsRecord(cfg, key, cfg.recordCount) :: LastWrite(s.log, key).Some?)
    && (forall i | 0 <= i < |s.log| :: EventOk(cfg, s.counter, s.log[i]) && WasWritten(s.log, i))
  }

  lemma BeginKeepsRunInv(cfg: Config, s: Sys, t: nat, op: Operation)
    requires RunFits(cfg) && RunInv(cfg, s) && Enabled(cfg, s, Begin(t, op))
    ensures RunInv(cfg, Apply(cfg, s, Begin(t, op)))
  {
    hide Name, LastWrite, Distinguished, RunShare;
    var s' := Apply(cfg, s, Begin(t, op));
    SumUpdate(s.clients, Remaining, t, s'.clients[t]);
    SumIsZero(s.clients, Remaining);
    assert Remaining(s.clients[t]) > 0;
    assert s.counter <= s'.counter;
    forall i | 0 <= i < |s.log|
      ensures EventOk(cfg, s'.counter, s.log[i])
    {
      EventStaysOk(cfg, s.counter, s'.counter, s.log[i]);
    }
    forall u | 0 <= u < |s.clients|
      ensures Runner(cfg, s'.counter, s'.clients[u])
    {
      assert Runner(cfg, s.counter, s.clients[u]);
    }
  }

  lemma DrawKeepsRunInv(cfg: Config, s: Sys, t: nat, num: Word)
    requires RunFits(cfg) && RunInv(cfg, s) && Enabled(cfg, s, Draw(t, num))
    ensures RunInv(cfg, Apply(cfg, s, Draw(t, num)))
  {
    hide Name, LastWrite, Distinguished, RunShare, Sum, EventOk, IsRecord;
    SumUpdate(s.clients, Remaining, t, Apply(cfg, s, Draw(t, num)).clients[t]);
  }

  lemma EventStaysOk(cfg: Config, counter: Word, counter': Word, e: Event)
    requires EventOk(cfg, counter, e) && counter <= counter'
    ensures EventOk(cfg, counter', e)
  {
    hide Name;
    if e.Written? {
      var k: Word :| Between(0, k, counter) && e.key == Name(cfg, k);
      assert Between(0, k, counter');
    }
  }

  // What the event of a store call names.
  lemma CallNames(cfg: Config, s: Sys, t: nat, fails: bool, value: string)
    requires RunFits(cfg) && RunInv(cfg, s) && Enabled(cfg, s, Call(t, fails, value))
    ensures var r := Called(cfg, s.clients[t], s.store, fails, value);
            && |r.2| <= 1 && (r.2 != [] ==> EventOk(cfg, s.counter, r.2[0]))
            && Runner(cfg, s.counter, r.0) && r.0.remaining == s.clients[t].remaining
  {
    hide Name, LastWrite, Distinguished, RunShare, ReadStatus, Sum;
    var c := s.clients[t];
    assert Runner(cfg, s.counter, c);
    match c.pending
    case Put(num, insert) =>
      assert Between(0, num, if insert then s.counter else cfg.recordCount);
      assert IsRecord(cfg, Name(cfg, num), s.counter);
    case Get(num, thenPut) =>
      assert Between(0, num, cfg.recordCount);
    case Delete(num) =>
      assert Between(0, num, cfg.recordCount);
    case _ =>
  }

  lemma CallKeepsRunInv(cfg: Config, s: Sys, t: nat, fails: bool, value: string)
    requires RunFits(cfg) && RunInv(cfg, s) && Enabled(cfg, s, Call(t, fails, value))
    ensures RunInv(cfg, Apply(cfg, s, Call(t, fails, value)))
  {
    CallNames(cfg, s, t, fails, value);
    hide Called, LastWrite, Distinguished, RunShare, ReadStatus, IsRecord, EventOk, Runner;
    var r := Called(cfg, s.clients[t], s.store, fails, value);
    SumUpdate(s.clients, Remaining, t, r.0);
    if r.2 == [] {
      assert s.log + r.2 == s.log;
    } else {
      assert s.log + r.2 == s.log + [r.2[0]];
      AppendKeepsLog(cfg, s, r.2[0]);
    }
  }

  lemma AppendKeepsLog(cfg: Config, s: Sys, e: Event)
    requires cfg.threads > 0 && RunInv(cfg, s) && EventOk(cfg, s.counter, e)
    ensures var log' := s.log + [e];
            && (forall key: string | IsRecord(cfg, key, cfg.recordCount) :: LastWrite(log', key).Some?)
            && (forall i | 0 <= i < |log'| :: EventOk(cfg, s.counter, log'[i]) && WasWritten(log', i))
  {
    var log' := s.log + [e];
    forall key: string | IsRecord(cfg, key, cfg.recordCount)
      ensures LastWrite(log', key).Some?
    {
      LastWriteOfAppend(s.log, e, key);
    }
    forall i | 0 <= i < |log'|
      ensures EventOk(cfg, s.counter, log'[i]) && WasWritten(log', i)
    {
      hide IsRecord, LastWrite;
      if i < |s.log| {
        assert log'[..i] == s.log[..i];
        assert EventOk(cfg, s.counter, s.log[i]) && WasWritten(s.log, i);
      } else {
        assert log'[..i] == s.log;
      }
    }
  }

  // ---- From the load to the run ----------------------------------------------------

  // During the load the log has only writes of loaded keys.
  ghost predicate LoadLog(cfg: Config, s: Sys) {
    && Reflects(s.log, s.store)
    && forall i | 0 <= i < |s.log| :: s.log[i].Written? && EventOk(cfg, s.counter, s.log[i])
  }

  lemma LoadLogStep(cfg: Config, s: Sys, a: Action)
    requires Fits(cfg) && cfg.start == 0 && LoadInv(cfg, s) && LoadLog(cfg, s)
    requires Enabled(cfg, s, a) && a != StartRun
    ensures LoadLog(cfg, Apply(cfg, s, a))
  {
    hide Name, Loads, LastWrite, Reflects, Distinguished;
    match a
    case Begin(t, op) =>
      FetchKeepsLoadInv(cfg, s, t);
      forall i | 0 <= i < |s.log|
        ensures EventOk(cfg, s.counter + 1, s.log[i])
      {
        EventStaysOk(cfg, s.counter, s.counter + 1, s.log[i]);
      }
    case Call(t, fails, value) =>
      var c := s.clients[t];
      assert Loader(cfg, c);
      if fails {
        assert Apply(cfg, s, a).log == s.log;
      } else {
        var e := Written(Name(cfg, c.pending.num), value);
        InUnionOfAll(s.clients, t);
        assert c.pending.num in Range(0, s.counter);
        assert Between(0, c.pending.num, s.counter);
        ReflectsAfter(s.log, s.store, e);
      }
  }

  lemma {:induction false} LoadLogRuns(cfg: Config, s: Sys, acts: seq<Action>)
    requires Fits(cfg) && cfg.start == 0 && LoadInv(cfg, s) && StoreInv(cfg, s) && LoadLog(cfg, s)
    requires Schedule(cfg, s, acts) && LoadOnly(acts)
    ensures LoadLog(cfg, After(cfg, s, acts))
    decreases |acts|
  {
    hide Apply, Enabled, LoadInv, StoreInv, LoadLog, Loads;
    if acts != [] {
      LoadStep(cfg, s, acts[0]);
      LoadLogStep(cfg, s, acts[0]);
      assert forall i | 0 <= i < |acts| - 1 :: acts[1..][i] == acts[i + 1];
      LoadLogRuns(cfg, Apply(cfg, s, acts[0]), acts[1..]);
    }
  }

  // A complete load: every record was put, none of the puts failed.
  ghost predicate CompleteLoad(cfg: Config, load: seq<Action>) {
    && Fits(cfg) && Schedule(cfg, Init(cfg, map[]), load) && LoadOnly(load)
    && NoFailures(load)
    && AllDone(Loaded(cfg, load).clients)
  }

  // The state in which the run phase starts.
  function Started(cfg: Config, load: seq<Action>): Sys
    requires CompleteLoad(cfg, load)
  {
    LoadReaches(cfg, load);
    Apply(cfg, Loaded(cfg, load), StartRun)
  }

  lemma RunStarts(cfg: Config, load: seq<Action>)
    requires RunFits(cfg) && CompleteLoad(cfg, load)
    ensures RunInv(cfg, Started(cfg, load))
  {
    LoadReaches(cfg, load);
    FinishedLoad(cfg, load);
    InitLoadInv(cfg, map[]);
    InitStoreInv(cfg);
    InitialLog(cfg);
    hide Schedule, After, LoadInv, StoreInv, Init;
    LoadLogRuns(cfg, Init(cfg, map[]), load);
    StartKeepsInv(cfg, Loaded(cfg, load));
  }

  lemma InitialLog(cfg: Config)
    requires cfg.threads > 0
    ensures LoadLog(cfg, Init(cfg, map[]))
  {
  }

  lemma StartKeepsInv(cfg: Config, s: Sys)
    requires RunFits(cfg) && s.phase == Loading && AllDone(s.clients) && LoadLog(cfg, s)
    requires s.counter == cfg.start + Loads(cfg)
    requires s.store.Keys == NamesOf(cfg, Range(cfg.start, cfg.start + Loads(cfg)))
    ensures RunInv(cfg, Apply(cfg, s, StartRun))
  {
    hide Name, LastWrite, Distinguished;
    SumFresh(cfg.threads, RunShare(cfg), Remaining, RunShare(cfg));
    Unloaded(cfg);
    assert s.counter == cfg.recordCount;
    forall key: string | IsRecord(cfg, key, cfg.recordCount)
      ensures LastWrite(s.log, key).Some?
    {
      var k: Word :| Between(0, k, cfg.recordCount) && key == Name(cfg, k);
      assert k in Range(0, cfg.recordCount);
      assert key in s.store;
    }
    assert forall i | 0 <= i < |s.log| :: WasWritten(s.log, i);
  }

  lemma {:induction false} RunRuns(cfg: Config, s: Sys, acts: seq<Action>)
    requires RunFits(cfg) && RunInv(cfg, s)
    requires Schedule(cfg, s, acts)
    ensures RunInv(cfg, After(cfg, s, acts))
    decreases |acts|
  {
    hide Apply, RunInv, RunFits;
    if acts != [] {
      RunStep(cfg, s, acts[0]);
      assert forall i | 0 <= i < |acts| - 1 :: acts[1..][i] == acts[i + 1];
      RunRuns(cfg, Apply(cfg, s, acts[0]), acts[1..]);
    }
  }

  lemma RunStep(cfg: Config, s: Sys, a: Action)
    requires RunFits(cfg) && RunInv(cfg, s) && Enabled(cfg, s, a)
    ensures RunInv(cfg, Apply(cfg, s, a))
  {
    assert s.phase == Running;
    hide Apply, RunInv, RunFits;
    match a
    case Begin(t, op) => BeginKeepsRunInv(cfg, s, t, op);
    case Draw(t, num) => DrawKeepsRunInv(cfg, s, t, num);
    case Call(t, fails, value) => CallKeepsRunInv(cfg, s, t, fails, value);
    case StartRun =>
  }

  // ---- Whole benchmarks ------------------------------------------------------------

  // From the empty store, in every schedule of load and run.
  lemma LookupsOfBenchmark(cfg: Config, acts: seq<Action>, i: nat)
    requires cfg.threads > 0 && Schedule(cfg, Init(cfg, map[]), acts)
    requires i < |After(cfg, Init(cfg, map[]), acts).log|
    ensures LookupOk(After(cfg, Init(cfg, map[]), acts).log, i)
  {
    EmptyLog(cfg);
    hide Schedule, After, Init, LookupOk;
    LookupsAreExact(cfg, Init(cfg, map[]), acts, 0);
  }

  lemma EmptyLog(cfg: Config)
    requires cfg.threads > 0
    ensures LogInv(Init(cfg, map[]), 0)
  {
  }

  lemma StartedLog(cfg: Config, load: seq<Action>)
    requires CompleteLoad(cfg, load)
    ensures LogInv(Started(cfg, load), 0)
  {
    EmptyLog(cfg);
    hide Schedule, After, Init, LookupOk, Reflects;
    LookupsAreExact(cfg, Init(cfg, map[]), load, 0);
  }

  predicate NonEmptyValues(acts: seq<Action>) {
    forall i | 0 <= i < |acts| :: acts[i].Call? ==> acts[i].value != ""
  }

  predicate NoEmptyWrite(log: seq<Event>) {
    forall i | 0 <= i < |log| :: log[i].Written? ==> log[i].value != ""
  }

  lemma {:induction false} ValuesRuns(cfg: Config, s: Sys, acts: seq<Action>)
    requires NoEmptyWrite(s.log) && NonEmptyValues(acts) && Schedule(cfg, s, acts)
    ensures NoEmptyWrite(After(cfg, s, acts).log)
    decreases |acts|
  {
    if acts != [] {
      ValuesStep(cfg, s, acts[0]);
      assert forall i | 0 <= i < |acts| - 1 :: acts[1..][i] == acts[i + 1];
      hide Apply, Enabled, NoEmptyWrite;
      ValuesRuns(cfg, Apply(cfg, s, acts[0]), acts[1..]);
    }
  }

  lemma ValuesStep(cfg: Config, s: Sys, a: Action)
    requires NoEmptyWrite(s.log) && Enabled(cfg, s, a) && (a.Call? ==> a.value != "")
    ensures NoEmptyWrite(Apply(cfg, s, a).log)
  {
    hide Name, ReadStatus;
  }

  lemma {:induction false} LastWriteIsNotEmpty(log: seq<Event>, key: string)
    requires NoEmptyWrite(log)
    ensures LastWrite(log, key) != Some(Value(""))
  {
    if log != [] {
      LastWriteIsNotEmpty(log[..|log| - 1], key);
    }
  }

  lemma StartedValues(cfg: Config, load: seq<Action>)
    requires CompleteLoad(cfg, load) && NonEmptyValues(load)
    ensures NoEmptyWrite(Started(cfg, load).log)
  {
    assert NoEmptyWrite(Init(cfg, map[]).log);
    hide Schedule, After, Init, NoEmptyWrite;
    ValuesRuns(cfg, Init(cfg, map[]), load);
  }

  // In every interleaving of the clients after a complete load, whatever store calls fail
  // in the run, as long as no empty value is written: an answered lookup reports no data
  // exactly if the last write to its key was a delete.
  lemma NoDataMeansDeleted(cfg: Config, load: seq<Action>, run: seq<Action>, i: nat)
    requires RunFits(cfg) && CompleteLoad(cfg, load)
    requires Schedule(cfg, Started(cfg, load), run) && NonEmptyValues(load) && NonEmptyValues(run)
    requires var log := After(cfg, Started(cfg, load), run).log;
             i < |log| && log[i].Looked? && log[i].answered
    ensures var log := After(cfg, Started(cfg, load), run).log;
            log[i].status == NO_DATA <==> LastWrite(log[..i], log[i].key) == Some(Tombstone)
  {
    RunStarts(cfg, load);
    StartedLog(cfg, load);
    hide CompleteLoad, Started, Schedule, After, RunFits, LastWrite, EventOk, Reflects;
    RunRuns(cfg, Started(cfg, load), run);
    LookupsAreExact(cfg, Started(cfg, load), run, 0);
    var s := After(cfg, Started(cfg, load), run);
    assert LookupOk(s.log, i) && WasWritten(s.log, i);
    StartedValues(cfg, load);
    ValuesRuns(cfg, Started(cfg, load), run);
    LastWriteIsNotEmpty(s.log[..i], s.log[i].key);
  }

  // ---- What is reported ----------------------------------------------------------------

  predicate NoDelete(c: Client) {
    !c.pending.Delete? && c.pending != Choosing(DELETE)
  }

  // Every record is in the store, with a value that reads as one, and no delete is under way.
  ghost predicate Present(cfg: Config, s: Sys) {
    && (forall key: string | IsRecord(cfg, key, cfg.recordCount) :: key in s.store && s.store[key] != "")
    && forall t | 0 <= t < |s.clients| :: NoDelete(s.clients[t])
  }

  lemma StepMissesNothing(cfg: Config, s: Sys, a: Action)
    requires RunFits(cfg) && RunInv(cfg, s) && Present(cfg, s) && DELETE !in cfg.ops
    requires Enabled(cfg, s, a) && (a.Call? ==> !a.fails && a.value != "")
    ensures Present(cfg, Apply(cfg, s, a)) && !Misses(cfg, s, a)
  {
    hide Name, LastWrite, Distinguished, RunShare, Sum, EventOk, WasWritten, ReadStatus;
    if a.Call? {
      assert Runner(cfg, s.counter, s.clients[a.t]) && NoDelete(s.clients[a.t]);
      if s.clients[a.t].pending.Get? {
        var num := s.clients[a.t].pending.num;
        assert Between(0, num, cfg.recordCount);
        assert IsRecord(cfg, Name(cfg, num), cfg.recordCount);
      }
    }
  }

  lemma {:induction false} RunMissesNothing(cfg: Config, s: Sys, acts: seq<Action>)
    requires RunFits(cfg) && RunInv(cfg, s) && Present(cfg, s) && DELETE !in cfg.ops
    requires Schedule(cfg, s, acts) && NoFailures(acts) && NonEmptyValues(acts)
    ensures Missed(cfg, s, acts) == 0
    decreases |acts|
  {
    if acts != [] {
      assert forall i | 0 <= i < |acts| - 1 :: acts[1..][i] == acts[i + 1];
      hide Apply, Enabled, RunInv, RunFits, Present, Misses;
      StepMissesNothing(cfg, s, acts[0]);
      RunStep(cfg, s, acts[0]);
      RunMissesNothing(cfg, Apply(cfg, s, acts[0]), acts[1..]);
    }
  }

  lemma RecordsPresent(cfg: Config, s: Sys)
    requires Reflects(s.log, s.store) && NoEmptyWrite(s.log)
    requires s.store.Keys == NamesOf(cfg, Range(0, cfg.recordCount))
    requires forall t | 0 <= t < |s.clients| :: s.clients[t].pending == Idle
    ensures Present(cfg, s)
  {
    hide Name, LastWrite, NoEmptyWrite;
    forall key: string | IsRecord(cfg, key, cfg.recordCount)
      ensures key in s.store && s.store[key] != ""
    {
      var k: Word :| Between(0, k, cfg.recordCount) && key == Name(cfg, k);
      assert k in Range(0, cfg.recordCount);
      LastWriteIsNotEmpty(s.log, key);
    }
  }

  lemma StartedPresent(cfg: Config, load: seq<Action>)
    requires RunFits(cfg) && CompleteLoad(cfg, load) && NonEmptyValues(load)
    ensures Present(cfg, Started(cfg, load))
  {
    hide Schedule, After, Name, NamesOf, Range, Loads, LoadInv, StoreInv, Reflects, NoEmptyWrite, Present, LoadOnly;
    StartedLog(cfg, load);
    StartedValues(cfg, load);
    FinishedLoad(cfg, load);
    Unloaded(cfg);
    RecordsPresent(cfg, Started(cfg, load));
  }

  // After a complete load, a finished run phase without deletes, failures and empty values
  // reports every operation: operationcount less the rest of its division by the clients.
  lemma EverythingReported(cfg: Config, load: seq<Action>, run: seq<Action>)
    requires RunFits(cfg) && CompleteLoad(cfg, load) && DELETE !in cfg.ops
    requires Schedule(cfg, Started(cfg, load), run) && NoFailures(run)
    requires NonEmptyValues(load) && NonEmptyValues(run)
    requires AllDone(After(cfg, Started(cfg, load), run).clients)
    ensures Sum(After(cfg, Started(cfg, load), run).clients, Oks)
            == cfg.operationCount - cfg.operationCount % cfg.threads
  {
    RunStarts(cfg, load);
    StartedPresent(cfg, load);
    LoadReaches(cfg, load);
    FinishedRun(cfg, Loaded(cfg, load), run);
    hide Schedule, After, RunInv, Present, Missed, AllBegun, Sum, AllDone, NoFailures, NonEmptyValues;
    RunMissesNothing(cfg, Started(cfg, load), run);
  }

  // A number the rejection loop accepts, which is a record's, or one the counter has passed.
  predicate Known(cfg: Config, k: Word, counter: Word) {
    k <= Newest(cfg) || Between(cfg.start, k, counter)
  }

  ghost predicate IsKnown(cfg: Config, key: string, counter: Word) {
    exists k: Word :: Known(cfg, k, counter) && key == Name(cfg, k)
  }

  predicate PendingKnown(cfg: Config, c: Client, counter: Word) {
    c.pending == Idle || c.pending.Choosing? || Known(cfg, c.pending.num, counter)
  }

  ghost predicate KeysInv(cfg: Config, s: Sys)
    requires cfg.threads > 0
  {
    && cfg.start <= s.counter
    && s.counter + Sum(s.clients, Remaining) + (if s.phase == Loading then cfg.threads * RunShare(cfg) else 0) < TWO_64
    && (forall t | 0 <= t < |s.clients| :: PendingKnown(cfg, s.clients[t], s.counter))
    && (forall key | key in s.store :: IsKnown(cfg, key, s.counter))
  }

  lemma KnownStays(cfg: Config, key: string, counter: Word, later: Word)
    requires IsKnown(cfg, key, counter) && counter <= later
    ensures IsKnown(cfg, key, later)
  {
    hide Name;
    var k: Word :| Known(cfg, k, counter) && key == Name(cfg, k);
    assert Known(cfg, k, later);
  }

  lemma KnownName(cfg: Config, c: Client, counter: Word)
    requires PendingKnown(cfg, c, counter)
    ensures c.pending != Idle && !c.pending.Choosing? ==> IsKnown(cfg, Name(cfg, c.pending.num), counter)
  {
    hide Name;
  }

  lemma BeginKeepsKeys(cfg: Config, s: Sys, t: nat, op: Operation)
    requires cfg.threads > 0 && KeysInv(cfg, s) && Enabled(cfg, s, Begin(t, op))
    ensures KeysInv(cfg, Apply(cfg, s, Begin(t, op)))
  {
    hide Name, RunShare, IsKnown, Sum;
    var s' := Apply(cfg, s, Begin(t, op));
    SumUpdate(s.clients, Remaining, t, s'.clients[t]);
    forall key | key in s.store
      ensures IsKnown(cfg, key, s'.counter)
    {
      KnownStays(cfg, key, s.counter, s'.counter);
    }
    forall u | 0 <= u < |s.clients|
      ensures PendingKnown(cfg, s'.clients[u], s'.counter)
    {
      assert PendingKnown(cfg, s.clients[u], s.counter);
    }
  }

  lemma DrawKeepsKeys(cfg: Config, s: Sys, t: nat, num: Word)
    requires cfg.threads > 0 && KeysInv(cfg, s) && Enabled(cfg, s, Draw(t, num))
    ensures KeysInv(cfg, Apply(cfg, s, Draw(t, num)))
  {
    hide Name, RunShare, IsKnown, Sum;
    SumUpdate(s.clients, Remaining, t, Apply(cfg, s, Draw(t, num)).clients[t]);
  }

  lemma CallKeepsKeys(cfg: Config, s: Sys, t: nat, fails: bool, value: string)
    requires cfg.threads > 0 && KeysInv(cfg, s) && Enabled(cfg, s, Call(t, fails, value))
    ensures KeysInv(cfg, Apply(cfg, s, Call(t, fails, value)))
  {
    hide Name, RunShare, IsKnown, Sum, Known, ReadStatus;
    SumUpdate(s.clients, Remaining, t, Apply(cfg, s, Call(t, fails, value)).clients[t]);
    assert PendingKnown(cfg, s.clients[t], s.counter);
    KnownName(cfg, s.clients[t], s.counter);
  }

  lemma KeysStep(cfg: Config, s: Sys, a: Action)
    requires cfg.threads > 0 && KeysInv(cfg, s) && Enabled(cfg, s, a)
    ensures KeysInv(cfg, Apply(cfg, s, a))
  {
    hide Name, RunShare, IsKnown, Sum, Known, PendingKnown;
    match a
    case Begin(t, op) =>
      BeginKeepsKeys(cfg, s, t, op);
    case Draw(t, num) =>
      DrawKeepsKeys(cfg, s, t, num);
    case Call(t, fails, value) =>
      CallKeepsKeys(cfg, s, t, fails, value);
    case StartRun =>
      SumFresh(cfg.threads, RunShare(cfg), Remaining, RunShare(cfg));
      FreshIsKnown(cfg, s.counter);
  }

  lemma FreshIsKnown(cfg: Config, counter: Word)
    requires cfg.threads > 0
    ensures forall t | 0 <= t < cfg.threads :: PendingKnown(cfg, Fresh(cfg.threads, RunShare(cfg))[t], counter)
  {
  }

  lemma {:induction false} KeysRuns(cfg: Config, s: Sys, acts: seq<Action>)
    requires cfg.threads > 0 && KeysInv(cfg, s) && Schedule(cfg, s, acts)
    ensures KeysInv(cfg, After(cfg, s, acts))
    decreases |acts|
  {
    hide Apply, Enabled, KeysInv;
    if acts != [] {
      KeysStep(cfg, s, acts[0]);
      KeysRuns(cfg, Apply(cfg, s, acts[0]), acts[1..]);
    }
  }

  // In every schedule of load and run from the empty store, whatever calls fail, all keys in
  // the store are names of records or of numbers the counter has passed.
  lemma KeysStayInRange(cfg: Config, acts: seq<Action>)
    requires cfg.threads > 0 && cfg.start + Loads(cfg) + cfg.threads * RunShare(cfg) < TWO_64
    requires Schedule(cfg, Init(cfg, map[]), acts)
    ensures var s := After(cfg, Init(cfg, map[]), acts);
            forall key | key in s.store :: IsKnown(cfg, key, s.counter)
  {
    SumFresh(cfg.threads, LoadShare(cfg), Remaining, LoadShare(cfg));
    hide Schedule, After, Name, IsKnown, RunShare, LoadShare;
    KeysRuns(cfg, Init(cfg, map[]), acts);
  }

  // Keys inserted during the run are never read or deleted: the range the transactions
  // choose from stays at the record count.
  lemma InsertedKeysAreNotRequested(cfg: Config, load: seq<Action>, run: seq<Action>, i: nat, k: Word)
    requires RunFits(cfg) && CompleteLoad(cfg, load)
    requires Schedule(cfg, Started(cfg, load), run)
    requires i < |After(cfg, Started(cfg, load), run).log|
    requires cfg.recordCount <= k < After(cfg, Started(cfg, load), run).counter
    ensures var e := After(cfg, Started(cfg, load), run).log[i];
            e.Looked? || e.Removed? ==> e.key != Name(cfg, k)
  {
    RunStarts(cfg, load);
    hide CompleteLoad, Started, Schedule, After, LastWrite, Reflects, Name, Distinguished;
    RunRuns(cfg, Started(cfg, load), run);
    var s := After(cfg, Started(cfg, load), run);
    var e := s.log[i];
    assert EventOk(cfg, s.counter, e);
    if e.Looked? || e.Removed? {
      var n: Word :| Between(0, n, cfg.recordCount) && e.key == Name(cfg, n);
      NamesDiffer(cfg, n, k);
    }
  }

  lemma NamesDiffer(cfg: Config, a: Word, b: Word)
    requires a < Distinguished(cfg.naming) && b < Distinguished(cfg.naming) && a != b
    ensures Name(cfg, a) != Name(cfg, b)
  {
    NamesAreDistinct(cfg.naming, a, b);
  }

  // Every load can be completed, so the theorems above speak of something.
  lemma LoadCanComplete(cfg: Config, s: Sys) returns (acts: seq<Action>)
    requires cfg.threads > 0 && s.phase == Loading
    requires forall t | 0 <= t < |s.clients| :: !s.clients[t].pending.Choosing?
    ensures Schedule(cfg, s, acts) && LoadOnly(acts) && NoFailures(acts) && NonEmptyValues(acts)
    ensures AllDone(After(cfg, s, acts).clients)
    decreases Measure(cfg, s)
  {
    if AllDone(s.clients) {
      acts := [];
    } else {
      var t :| 0 <= t < |s.clients| && !(s.clients[t].remaining == 0 && s.clients[t].pending == Idle);
      var a := if s.clients[t].pending == Idle then Begin(t, INSERT) else Call(t, false, "x");
      StepDecreases(cfg, s, a);
      hide Measure, AllDone, Name;
      var rest := LoadCanComplete(cfg, Apply(cfg, s, a));
      acts := [a] + rest;
      assert acts[1..] == rest;
    }
  }
}
