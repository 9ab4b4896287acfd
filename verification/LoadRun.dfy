// The load and run phases of the benchmark as a state machine (ycsbc.cc, core/client.h,
// core/counter_generator.h, db/splitlsm_db.cc). T clients share the key counter and the
// store. A step is one atomic action of one client: choosing an operation (for an insert,
// with the fetch_add on the counter), drawing a key number, which the rejection loop may
// throw away, or one call to the store; or it is the main thread starting the run phase
// after all loaders have finished.

module LoadRun {
  import opened Words
  import opened Wrappers
  import opened KeyName
  import opened Discrete
  import opened Store
  import W = Workload
  import Z = Zipfian

  // ops are the operations the mix can choose, keys the numbers the key chooser can draw.
  datatype Config = Config(
    naming: Naming,
    threads: nat,
    recordCount: Word,
    operationCount: nat,
    start: Word,
    ops: set<Operation>,
    keys: set<Word>)

  // The last number the rejection loop accepts.
  function Newest(cfg: Config): Word {
    W.Newest(cfg.recordCount)
  }

  function Name(cfg: Config, num: Word): string {
    BuildKeyName(cfg.naming, num)
  }

  // The operations one client performs in each phase: integer division drops the rest.
  function LoadShare(cfg: Config): nat
    requires cfg.threads > 0
  {
    cfg.recordCount / cfg.threads
  }

  function RunShare(cfg: Config): nat
    requires cfg.threads > 0
  {
    cfg.operationCount / cfg.threads
  }

  // An operation on a key of the key chooser.
  type Request = op: Operation | op != INSERT witness READ

  // What a client is about to do; choosing, it is in the rejection loop.
  datatype Pending =
    | Idle
    | Choosing(op: Request)
    | Put(num: Word, insert: bool)
    | Get(num: Word, thenPut: bool)
    | Delete(num: Word)
    | Scan(num: Word)

  // got and stored record the key numbers a client took from the counter and those of them
  // it stored; oks is the sum it will report.
  datatype Client = Client(remaining: nat, pending: Pending, oks: nat, got: set<Word>, stored: set<Word>)

  // What happened in the store.
  datatype Event =
    | Written(key: string, value: string)
    | Removed(key: string)
    | Looked(key: string, answered: bool, status: Status)

  datatype Phase = Loading | Running

  datatype Sys = Sys(phase: Phase, counter: Word, store: map<string, string>, clients: seq<Client>, log: seq<Event>)

  datatype Action =
    | Begin(t: nat, op: Operation)
    | Draw(t: nat, num: Word)
    | Call(t: nat, fails: bool, value: string)
    | StartRun

  function Fresh(n: nat, share: nat): (r: seq<Client>)
    ensures |r| == n && forall t | 0 <= t < n :: r[t] == Client(share, Idle, 0, {}, {})
  {
    seq(n, _ => Client(share, Idle, 0, {}, {}))
  }

  function Init(cfg: Config, store: map<string, string>): Sys
    requires cfg.threads > 0
  {
    Sys(Loading, cfg.start, store, Fresh(cfg.threads, LoadShare(cfg)), [])
  }

  predicate AllDone(clients: seq<Client>) {
    forall t | 0 <= t < |clients| :: clients[t].remaining == 0 && clients[t].pending == Idle
  }

  predicate Enabled(cfg: Config, s: Sys, a: Action) {
    match a
    case Begin(t, op) =>
      && t < |s.clients| && s.clients[t].remaining > 0 && s.clients[t].pending == Idle
      && if s.phase == Loading then op == INSERT else op in cfg.ops
    case Draw(t, num) =>
      t < |s.clients| && s.clients[t].pending.Choosing? && num in cfg.keys
    case Call(t, fails, value) =>
      t < |s.clients| && s.clients[t].pending != Idle && !s.clients[t].pending.Choosing?
    case StartRun =>
      cfg.threads > 0 && s.phase == Loading && AllDone(s.clients)
  }

  // The first store call of an operation on a key number.
  function Chosen(op: Request, num: Word): Pending {
    match op
    case READ => Get(num, false)
    case UPDATE => Put(num, false)
    case DELETE => Delete(num)
    case SCAN => Scan(num)
    case READMODIFYWRITE => Get(num, true)
  }

  function Count(status: Status): nat {
    if status == OK then 1 else 0
  }

  // The client, the store and the event of a store call.
  function Called(cfg: Config, c: Client, store: map<string, string>, fails: bool, value: string)
    : (r: (Client, map<string, string>, seq<Event>))
    requires c.pending != Idle && !c.pending.Choosing?
  {
    match c.pending
    case Put(num, insert) =>
      if fails then (c.(pending := Idle), store, [])
      else
        var stored := if insert then c.stored + {num} else c.stored;
        (c.(pending := Idle, oks := c.oks + 1, stored := stored),
         store[Name(cfg, num) := value], [Written(Name(cfg, num), value)])
    case Get(num, thenPut) =>
      var status := if fails then NO_DATA else ReadStatus(store, Name(cfg, num));
      var c' := if thenPut then c.(pending := Put(num, false)) else c.(pending := Idle, oks := c.oks + Count(status));
      (c', store, [Looked(Name(cfg, num), !fails, status)])
    case Delete(num) =>
      if fails then (c.(pending := Idle), store, [])
      else (c.(pending := Idle, oks := c.oks + 1), store - {Name(cfg, num)}, [Removed(Name(cfg, num))])
    case Scan(num) =>
      (c.(pending := Idle, oks := c.oks + if fails then 0 else 1), store, [])
  }

  function Apply(cfg: Config, s: Sys, a: Action): Sys
    requires Enabled(cfg, s, a)
  {
    match a
    case Begin(t, op) =>
      var c := s.clients[t];
      if op == INSERT then
        var c' := c.(remaining := c.remaining - 1, pending := Put(s.counter, true), got := c.got + {s.counter});
        s.(clients := s.clients[t := c'], counter := (s.counter + 1) % TWO_64)
      else
        s.(clients := s.clients[t := c.(remaining := c.remaining - 1, pending := Choosing(op))])
    case Draw(t, num) =>
      var c := s.clients[t];
      if num <= Newest(cfg) then s.(clients := s.clients[t := c.(pending := Chosen(c.pending.op, num))]) else s
    case Call(t, fails, value) =>
      var r := Called(cfg, s.clients[t], s.store, fails, value);
      s.(clients := s.clients[t := r.0], store := r.1, log := s.log + r.2)
    case StartRun =>
      s.(phase := Running, clients := Fresh(cfg.threads, RunShare(cfg)))
  }

  // A schedule: every action is enabled when its turn comes.
  predicate Schedule(cfg: Config, s: Sys, acts: seq<Action>)
    decreases |acts|
  {
    acts == [] || (Enabled(cfg, s, acts[0]) && Schedule(cfg, Apply(cfg, s, acts[0]), acts[1..]))
  }

  function After(cfg: Config, s: Sys, acts: seq<Action>): Sys
    requires Schedule(cfg, s, acts)
    decreases |acts|
  {
    if acts == [] then s else After(cfg, Apply(cfg, s, acts[0]), acts[1..])
  }

  // ---- Sums over clients -----------------------------------------------------------

  function Sum(clients: seq<Client>, f: Client -> nat): nat {
    if clients == [] then 0 else f(clients[0]) + Sum(clients[1..], f)
  }

  lemma {:induction false} SumUpdate(clients: seq<Client>, f: Client -> nat, t: nat, c: Client)
    requires t < |clients|
    ensures Sum(clients[t := c], f) + f(clients[t]) == Sum(clients, f) + f(c)
  {
    if t > 0 {
      SumUpdate(clients[1..], f, t - 1, c);
      assert clients[t := c][1..] == clients[1..][t - 1 := c];
    } else {
      assert clients[t := c][1..] == clients[1..];
    }
  }

  lemma {:induction false} SumFresh(n: nat, share: nat, f: Client -> nat, v: nat)
    requires f(Client(share, Idle, 0, {}, {})) == v
    ensures Sum(Fresh(n, share), f) == n * v
  {
    if n > 0 {
      SumFresh(n - 1, share, f, v);
      assert Fresh(n, share)[1..] == Fresh(n - 1, share);
      assert n * v == v + (n - 1) * v;
    }
  }

  lemma {:induction false} SumIsZero(clients: seq<Client>, f: Client -> nat)
    ensures Sum(clients, f) == 0 <==> forall t | 0 <= t < |clients| :: f(clients[t]) == 0
  {
    if clients != [] {
      SumIsZero(clients[1..], f);
      assert forall t | 0 < t < |clients| :: clients[t] == clients[1..][t - 1];
    }
  }

  function Remaining(c: Client): nat {
    c.remaining
  }

  function Oks(c: Client): nat {
    c.oks
  }

  // The steps a client has still to make, thrown away draws not counted.
  function Work(c: Client): nat {
    4 * c.remaining + match c.pending case Idle => 0 case Choosing(_) => 3 case Get(_, true) => 2 case _ => 1
  }

  // ---- Termination -----------------------------------------------------------------

  function Measure(cfg: Config, s: Sys): nat
    requires cfg.threads > 0
  {
    Sum(s.clients, Work) + if s.phase == Loading then cfg.threads * (4 * RunShare(cfg)) + 1 else 0
  }

  // A draw the rejection loop throws away.
  predicate Rejected(cfg: Config, a: Action) {
    a.Draw? && a.num > Newest(cfg)
  }

  // Every step makes the measure smaller, except a thrown away draw, which changes nothing.
  lemma StepDecreases(cfg: Config, s: Sys, a: Action)
    requires cfg.threads > 0 && Enabled(cfg, s, a)
    ensures if Rejected(cfg, a) then Apply(cfg, s, a) == s
            else Measure(cfg, Apply(cfg, s, a)) < Measure(cfg, s)
  {
    hide Name, ReadStatus, Newest, RunShare, Sum;
    match a
    case Begin(t, op) =>
      SumUpdate(s.clients, Work, t, Apply(cfg, s, a).clients[t]);
    case Draw(t, num) =>
      SumUpdate(s.clients, Work, t, Apply(cfg, s, a).clients[t]);
    case Call(t, fails, value) =>
      SumUpdate(s.clients, Work, t, Apply(cfg, s, a).clients[t]);
    case StartRun =>
      SumFresh(cfg.threads, RunShare(cfg), Work, 4 * RunShare(cfg));
  }

  function Kept(cfg: Config, acts: seq<Action>): nat {
    if acts == [] then 0 else (if Rejected(cfg, acts[0]) then 0 else 1) + Kept(cfg, acts[1..])
  }

  // The measure bounds the steps of every schedule other than thrown away draws, of which
  // there may be any number.
  lemma {:induction false} ScheduleIsBounded(cfg: Config, s: Sys, acts: seq<Action>)
    requires cfg.threads > 0 && Schedule(cfg, s, acts)
    ensures Kept(cfg, acts) + Measure(cfg, After(cfg, s, acts)) <= Measure(cfg, s)
    decreases |acts|
  {
    hide Apply, Enabled, Measure;
    if acts != [] {
      StepDecreases(cfg, s, acts[0]);
      ScheduleIsBounded(cfg, Apply(cfg, s, acts[0]), acts[1..]);
    }
  }

  // The key chooser can draw a number the loop accepts.
  predicate Acceptable(cfg: Config) {
    exists k | k in cfg.keys :: k <= Newest(cfg)
  }

  predicate Over(s: Sys) {
    s.phase == Running && AllDone(s.clients)
  }

  // All clients that are not done are in the rejection loop, and no draw ends it.
  predicate Hangs(cfg: Config, s: Sys) {
    && !Acceptable(cfg) && !AllDone(s.clients)
    && forall t | 0 <= t < |s.clients| ::
         s.clients[t].pending.Choosing? || (s.clients[t].remaining == 0 && s.clients[t].pending == Idle)
  }

  // A step that is not a thrown away draw.
  predicate Moves(cfg: Config, s: Sys, a: Action) {
    Enabled(cfg, s, a) && !Rejected(cfg, a)
  }

  // Nothing else stops the clients: no step but thrown away draws is possible exactly when
  // the run phase is over or the clients hang in the rejection loop.
  lemma NeverStuck(cfg: Config, s: Sys)
    requires cfg.threads > 0 && cfg.ops != {}
    ensures (forall a: Action :: !Moves(cfg, s, a)) <==> Over(s) || Hangs(cfg, s)
  {
    if !Over(s) && !Hangs(cfg, s) {
      var a := SomeMove(cfg, s);
    }
  }

  lemma SomeMove(cfg: Config, s: Sys) returns (a: Action)
    requires cfg.threads > 0 && cfg.ops != {} && !Over(s) && !Hangs(cfg, s)
    ensures Moves(cfg, s, a)
    ensures a.Call? ==> !a.fails && a.value != ""
    ensures s.phase == Loading && a.Begin? ==> a.op == INSERT
  {
    if AllDone(s.clients) {
      a := StartRun;
    } else if t :| 0 <= t < |s.clients| && s.clients[t].pending != Idle && !s.clients[t].pending.Choosing? {
      a := Call(t, false, "x");
    } else if t :| 0 <= t < |s.clients| && s.clients[t].remaining > 0 && s.clients[t].pending == Idle {
      var op :| op in cfg.ops;
      a := Begin(t, if s.phase == Loading then INSERT else op);
    } else {
      var t :| 0 <= t < |s.clients| && !(s.clients[t].remaining == 0 && s.clients[t].pending == Idle);
      var k :| k in cfg.keys && k <= Newest(cfg);
      a := Draw(t, k);
    }
  }

  // ---- Whether the run phase ends ----------------------------------------------------

  ghost predicate CanEnd(cfg: Config, s: Sys) {
    exists acts :: Schedule(cfg, s, acts) && Over(After(cfg, s, acts))
  }

  // Unless the key chooser can draw a number the loop accepts, no client is in the loop and
  // none can get there.
  predicate NoHang(cfg: Config, s: Sys) {
    && s.phase == Running
    && (Acceptable(cfg) || forall t | 0 <= t < |s.clients| ::
          !s.clients[t].pending.Choosing? && (s.clients[t].remaining == 0 || cfg.ops == {INSERT}))
  }

  lemma NoHangStays(cfg: Config, s: Sys, a: Action)
    requires NoHang(cfg, s) && Enabled(cfg, s, a)
    ensures NoHang(cfg, Apply(cfg, s, a))
  {
    hide ReadStatus, Name;
  }

  lemma {:induction false} NoHangRuns(cfg: Config, s: Sys, acts: seq<Action>)
    requires NoHang(cfg, s) && Schedule(cfg, s, acts)
    ensures NoHang(cfg, After(cfg, s, acts))
    decreases |acts|
  {
    hide Apply, Enabled, NoHang;
    if acts != [] {
      NoHangStays(cfg, s, acts[0]);
      NoHangRuns(cfg, Apply(cfg, s, acts[0]), acts[1..]);
    }
  }

  lemma {:induction false} NoHangEnds(cfg: Config, s: Sys) returns (acts: seq<Action>)
    requires cfg.threads > 0 && cfg.ops != {} && NoHang(cfg, s)
    ensures Schedule(cfg, s, acts) && Over(After(cfg, s, acts))
    decreases Measure(cfg, s)
  {
    if Over(s) {
      acts := [];
    } else {
      assert !Hangs(cfg, s);
      hide Apply, Enabled, NoHang, Measure, Over, Hangs;
      var a := SomeMove(cfg, s);
      StepDecreases(cfg, s, a);
      NoHangStays(cfg, s, a);
      var rest := NoHangEnds(cfg, Apply(cfg, s, a));
      acts := [a] + rest;
      assert acts[1..] == rest;
    }
  }

  // A client in the loop stays there if no draw ends it.
  lemma {:induction false} HangsForEver(cfg: Config, s: Sys, acts: seq<Action>, t: nat)
    requires !Acceptable(cfg) && s.phase == Running && Schedule(cfg, s, acts)
    requires t < |s.clients| && s.clients[t].pending.Choosing?
    ensures !Over(After(cfg, s, acts))
    decreases |acts|
  {
    if acts != [] {
      ChoosingStays(cfg, s, acts[0], t);
      hide Apply, Enabled, Over;
      HangsForEver(cfg, Apply(cfg, s, acts[0]), acts[1..], t);
    }
  }

  lemma ChoosingStays(cfg: Config, s: Sys, a: Action, t: nat)
    requires !Acceptable(cfg) && s.phase == Running && Enabled(cfg, s, a)
    requires t < |s.clients| && s.clients[t].pending.Choosing?
    ensures var s' := Apply(cfg, s, a);
            s'.phase == Running && t < |s'.clients| && s'.clients[t].pending.Choosing?
  {
    hide ReadStatus, Name;
  }

  // From every state of the run phase it can still end, exactly if the key chooser can draw
  // a number the loop accepts, or the mix has only inserts, or there is nothing to do.
  lemma RunCanEnd(cfg: Config, s: Sys)
    requires cfg.threads > 0 && cfg.ops != {}
    requires s.phase == Running && s.clients == Fresh(cfg.threads, cfg.operationCount / cfg.threads)
    ensures (forall acts | Schedule(cfg, s, acts) :: CanEnd(cfg, After(cfg, s, acts)))
            <==> Acceptable(cfg) || cfg.ops == {INSERT} || cfg.operationCount < cfg.threads
  {
    QuotientIsZero(cfg.operationCount, cfg.threads);
    assert RunShare(cfg) == cfg.operationCount / cfg.threads;
    hide Schedule, After, Apply, CanEnd, RunShare, Acceptable;
    if Acceptable(cfg) || cfg.ops == {INSERT} || RunShare(cfg) == 0 {
      forall acts | Schedule(cfg, s, acts)
        ensures CanEnd(cfg, After(cfg, s, acts))
      {
        NoHangRuns(cfg, s, acts);
        Ends(cfg, After(cfg, s, acts));
      }
    } else {
      var op :| op in cfg.ops && op != INSERT;
      OneAction(cfg, s, Begin(0, op));
      StartsChoosing(cfg, s, op);
      NeverEnds(cfg, Apply(cfg, s, Begin(0, op)));
      assert !CanEnd(cfg, After(cfg, s, [Begin(0, op)]));
    }
  }

  lemma QuotientIsZero(a: nat, b: nat)
    requires b > 0
    ensures a / b == 0 <==> a < b
  {
  }

  lemma Ends(cfg: Config, s: Sys)
    requires cfg.threads > 0 && cfg.ops != {} && NoHang(cfg, s)
    ensures CanEnd(cfg, s)
  {
    hide Schedule, After, NoHang, Over;
    var acts := NoHangEnds(cfg, s);
  }

  lemma NeverEnds(cfg: Config, s: Sys)
    requires !Acceptable(cfg) && s.phase == Running && |s.clients| > 0 && s.clients[0].pending.Choosing?
    ensures !CanEnd(cfg, s)
  {
    hide Schedule, After, Over, Acceptable;
    forall acts | Schedule(cfg, s, acts)
      ensures !Over(After(cfg, s, acts))
    {
      HangsForEver(cfg, s, acts, 0);
    }
  }

  lemma OneAction(cfg: Config, s: Sys, a: Action)
    requires Enabled(cfg, s, a)
    ensures Schedule(cfg, s, [a]) && After(cfg, s, [a]) == Apply(cfg, s, a)
  {
    hide Apply, Enabled;
    assert [a][1..] == [];
  }

  lemma StartsChoosing(cfg: Config, s: Sys, op: Operation)
    requires |s.clients| > 0 && s.phase == Running && op != INSERT && Enabled(cfg, s, Begin(0, op))
    ensures var s' := Apply(cfg, s, Begin(0, op));
            s'.phase == Running && |s'.clients| > 0 && s'.clients[0].pending.Choosing?
  {
  }

  // ---- What a run phase performs -------------------------------------------------------

  // The operations client t takes up.
  function Begun(acts: seq<Action>, t: nat): nat {
    if acts == [] then 0 else (if acts[0].Begin? && acts[0].t == t then 1 else 0) + Begun(acts[1..], t)
  }

  function AllBegun(acts: seq<Action>): nat {
    if acts == [] then 0 else (if acts[0].Begin? then 1 else 0) + AllBegun(acts[1..])
  }

  // A call that ends an operation without success: one the engine fails, unless it is the
  // read of a read-modify-write, or a read that finds nothing or an empty value.
  predicate Misses(cfg: Config, s: Sys, a: Action)
    requires Enabled(cfg, s, a)
  {
    a.Call? &&
    match s.clients[a.t].pending
    case Get(num, false) => a.fails || Name(cfg, num) !in s.store || s.store[Name(cfg, num)] == ""
    case Get(num, true) => false
    case _ => a.fails
  }

  function Missed(cfg: Config, s: Sys, acts: seq<Action>): nat
    requires Schedule(cfg, s, acts)
    decreases |acts|
  {
    if acts == [] then 0
    else (if Misses(cfg, s, acts[0]) then 1 else 0) + Missed(cfg, Apply(cfg, s, acts[0]), acts[1..])
  }

  function Busy(c: Client): nat {
    if c.pending == Idle then 0 else 1
  }

  // Operations taken up and left over, reported, missed and under way balance at every step.
  lemma StepBalances(cfg: Config, s: Sys, a: Action)
    requires s.phase == Running && Enabled(cfg, s, a)
    ensures var s' := Apply(cfg, s, a);
            var began := if a.Begin? then 1 else 0;
            && s'.phase == Running && |s'.clients| == |s.clients|
            && (forall t | 0 <= t < |s.clients| ::
                  s'.clients[t].remaining + (if a.Begin? && a.t == t then 1 else 0) == s.clients[t].remaining)
            && Sum(s'.clients, Remaining) + began == Sum(s.clients, Remaining)
            && Sum(s'.clients, Oks) + Sum(s'.clients, Busy) + (if Misses(cfg, s, a) then 1 else 0)
               == Sum(s.clients, Oks) + Sum(s.clients, Busy) + began
  {
    hide Name, Sum, Newest;
    var s' := Apply(cfg, s, a);
    SumUpdate(s.clients, Remaining, a.t, s'.clients[a.t]);
    SumUpdate(s.clients, Oks, a.t, s'.clients[a.t]);
    SumUpdate(s.clients, Busy, a.t, s'.clients[a.t]);
  }

  lemma {:induction false} RunBalances(cfg: Config, s: Sys, acts: seq<Action>)
    requires s.phase == Running && Schedule(cfg, s, acts)
    ensures var s' := After(cfg, s, acts);
            && |s'.clients| == |s.clients|
            && (forall t | 0 <= t < |s.clients| :: s'.clients[t].remaining + Begun(acts, t) == s.clients[t].remaining)
            && Sum(s'.clients, Remaining) + AllBegun(acts) == Sum(s.clients, Remaining)
            && Sum(s'.clients, Oks) + Sum(s'.clients, Busy) + Missed(cfg, s, acts)
               == Sum(s.clients, Oks) + Sum(s.clients, Busy) + AllBegun(acts)
    decreases |acts|
  {
    hide Apply, Enabled, Misses, Sum;
    if acts != [] {
      StepBalances(cfg, s, acts[0]);
      RunBalances(cfg, Apply(cfg, s, acts[0]), acts[1..]);
    }
  }

  // A finished run phase has performed operationcount / T operations on each of T clients,
  // operationcount mod T less than it was asked for in all, and the sum it reports is all of
  // them but those that missed.
  lemma FinishedRun(cfg: Config, before: Sys, acts: seq<Action>)
    requires Enabled(cfg, before, StartRun)
    requires var s := Apply(cfg, before, StartRun);
             Schedule(cfg, s, acts) && AllDone(After(cfg, s, acts).clients)
    ensures var s := Apply(cfg, before, StartRun);
            && (forall t | 0 <= t < cfg.threads :: Begun(acts, t) == cfg.operationCount / cfg.threads)
            && AllBegun(acts) == cfg.threads * (cfg.operationCount / cfg.threads)
            && cfg.operationCount - AllBegun(acts) == cfg.operationCount % cfg.threads
            && Sum(After(cfg, s, acts).clients, Oks) == AllBegun(acts) - Missed(cfg, s, acts)
  {
    StartIsFresh(cfg, before);
    hide RunShare, Schedule, After, Apply, Enabled, Missed, Begun, AllBegun, Sum, AllDone;
    var s := Apply(cfg, before, StartRun);
    FinishedShares(cfg, s, cfg.operationCount / cfg.threads, acts);
    RestOfDivision(cfg.operationCount, cfg.threads);
  }

  lemma StartIsFresh(cfg: Config, before: Sys)
    requires Enabled(cfg, before, StartRun)
    ensures var s := Apply(cfg, before, StartRun);
            cfg.threads > 0 && s.phase == Running && s.clients == Fresh(cfg.threads, cfg.operationCount / cfg.threads)
  {
  }

  lemma RestOfDivision(a: nat, b: nat)
    requires b > 0
    ensures a - b * (a / b) == a % b
  {
  }

  lemma FinishedShares(cfg: Config, s: Sys, share: nat, acts: seq<Action>)
    requires s.phase == Running && s.clients == Fresh(cfg.threads, share)
    requires Schedule(cfg, s, acts) && AllDone(After(cfg, s, acts).clients)
    ensures forall t | 0 <= t < cfg.threads :: Begun(acts, t) == share
    ensures AllBegun(acts) == cfg.threads * share
    ensures Sum(After(cfg, s, acts).clients, Oks) == AllBegun(acts) - Missed(cfg, s, acts)
  {
    hide Schedule, After, Missed, Begun, AllBegun, Sum;
    RunBalances(cfg, s, acts);
    SumFresh(cfg.threads, share, Remaining, share);
    SumFresh(cfg.threads, share, Oks, 0);
    SumFresh(cfg.threads, share, Busy, 0);
    SumIsZero(After(cfg, s, acts).clients, Remaining);
    SumIsZero(After(cfg, s, acts).clients, Busy);
  }

  // ---- The key chooser ---------------------------------------------------------------

  // The keys of the configuration are those a key chooser draws.
  ghost predicate DrawnBy(cfg: Config, v: W.View) {
    && W.Stationary(v, Newest(cfg))
    && forall k: Word :: k in cfg.keys <==> exists u: real :: W.Unit(u) && W.DrawKey(v, Newest(cfg), u) == Some(k)
  }

  // The numbers a key chooser draws.
  ghost function KeysOf(v: W.View, newest: Word): set<Word>
    requires W.Stationary(v, newest)
  {
    set k: Word | 0 <= k < TWO_64 && exists u: real :: W.Unit(u) && W.DrawKey(v, newest, u) == Some(k)
  }

  // Every key chooser that Init sets up gives a configuration its keys.
  lemma ConfigOfView(cfg: Config, v: W.View, newKeys: int) returns (cfg': Config)
    requires W.SetUp(v, cfg.recordCount, newKeys) && W.ExactView(v)
    ensures exists keys :: cfg' == cfg.(keys := keys)
    ensures DrawnBy(cfg', v)
  {
    hide W.DrawKey, W.Advance, W.Requestable;
    W.SetUpIsStationary(v, cfg.recordCount, newKeys);
    var keys := KeysOf(v, Newest(cfg));
    cfg' := cfg.(keys := keys);
  }

  // A number the loop accepts can be drawn unless the chooser is the Zipfian one and hashes
  // all its ranks beyond the records.
  lemma AcceptableKeys(cfg: Config, v: W.View, newKeys: int)
    requires W.SetUp(v, cfg.recordCount, newKeys) && W.ExactView(v) && DrawnBy(cfg, v)
    ensures Acceptable(cfg) <==> W.Accepting(v, Newest(cfg))
  {
    hide W.DrawKey, W.Advance, W.Accepting, W.Requestable;
    if k :| k in cfg.keys && k <= Newest(cfg) {
      var u: real :| W.Unit(u) && W.DrawKey(v, Newest(cfg), u) == Some(k);
      W.AcceptedIsHash(v, cfg.recordCount, newKeys, u);
    }
    if W.Accepting(v, Newest(cfg)) {
      var k := W.SomeAccepted(v, cfg.recordCount, newKeys);
      var u := W.RequestableIsDrawn(v, cfg.recordCount, newKeys, k);
    }
  }

  // One record and six operations, half of them inserts, requested by the Zipfian chooser:
  // once a client has chosen an update, the run phase does not end.
  lemma StarvedRun(cfg: Config, ar: Z.Arithmetic, zipfian: Z.State, s: Sys)
    requires cfg.threads > 0 && cfg.ops == {INSERT, UPDATE} && cfg.recordCount == 1 && cfg.operationCount >= cfg.threads
    requires Z.Exact(ar) && W.SetUp(W.ScrambledView(ar, 0, zipfian), 1, W.NewKeys(6, 0.5))
    requires DrawnBy(cfg, W.ScrambledView(ar, 0, zipfian))
    requires s.phase == Running && s.clients == Fresh(cfg.threads, cfg.operationCount / cfg.threads)
    ensures exists acts :: Schedule(cfg, s, acts) && !CanEnd(cfg, After(cfg, s, acts))
  {
    hide W.DrawKey, W.Advance, Schedule, After, CanEnd, RunShare, W.Search;
    var v := W.ScrambledView(ar, 0, zipfian);
    assert Newest(cfg) == 0;
    AcceptableKeys(cfg, v, W.NewKeys(6, 0.5));
    if W.Accepting(v, 0) {
      W.LoopCanEnd(v, 1, W.NewKeys(6, 0.5));
      var us :| W.DrawsOk(us) && W.Search(v, 0, us, 0).Some?;
      W.SpareKeysStarve(ar, zipfian, us);
    }
    assert UPDATE in cfg.ops;
    RunCanEnd(cfg, s);
  }

  // A step before a schedule.
  lemma Prepend(cfg: Config, s: Sys, a: Action, rest: seq<Action>)
    requires Enabled(cfg, s, a) && Schedule(cfg, Apply(cfg, s, a), rest)
    ensures Schedule(cfg, s, [a] + rest)
    ensures After(cfg, s, [a] + rest) == After(cfg, Apply(cfg, s, a), rest)
  {
    hide Enabled, Apply;
    assert ([a] + rest)[1..] == rest;
  }

  // There is such a benchmark: one client that loads the record into an empty store and then
  // runs, with theta 0, cannot finish after some schedule.
  lemma StarvedBenchmark(naming: Naming) returns (cfg: Config, acts: seq<Action>)
    ensures cfg.naming == naming && cfg.threads == cfg.recordCount == 1 && cfg.operationCount == 6 && cfg.start == 0
    ensures cfg.ops == {INSERT, UPDATE}
    ensures DrawnBy(cfg, W.ScrambledView(Z.ThetaZero(), 0, Z.Initial(Z.ThetaZero(), 0, 7)))
    ensures Schedule(cfg, Init(cfg, map[]), acts) && !CanEnd(cfg, After(cfg, Init(cfg, map[]), acts))
  {
    hide W.DrawKey, W.Advance, W.SetUp, Z.Initial, Z.Exact, Schedule, After, CanEnd, DrawnBy, Name;
    W.StarvingConfiguration();
    var ar := Z.ThetaZero();
    cfg := ConfigOfView(Config(naming, 1, 1, 6, 0, {INSERT, UPDATE}, {}), W.ScrambledView(ar, 0, Z.Initial(ar, 0, 7)),
                        W.NewKeys(6, 0.5));
    var s0 := Init(cfg, map[]);
    var s1 := Apply(cfg, s0, Begin(0, INSERT));
    var s2 := Apply(cfg, s1, Call(0, false, "x"));
    var s3 := Apply(cfg, s2, StartRun);
    StarvedRun(cfg, ar, Z.Initial(ar, 0, 7), s3);
    acts :| Schedule(cfg, s3, acts) && !CanEnd(cfg, After(cfg, s3, acts));
    Prepend(cfg, s2, StartRun, acts);
    Prepend(cfg, s1, Call(0, false, "x"), [StartRun] + acts);
    Prepend(cfg, s0, Begin(0, INSERT), [Call(0, false, "x")] + ([StartRun] + acts));
    acts := [Begin(0, INSERT)] + ([Call(0, false, "x")] + ([StartRun] + acts));
  }
}
