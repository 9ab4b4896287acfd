// One client thread (core/client.h and DelegateClient in ycsbc.cc), and its agreement with
// the steps of the state machine: run alone, the imperative client does to the counter, to
// the store and to its count exactly what its steps do.

module ClientLoop {
  import opened Words
  import opened Wrappers
  import opened KeyName
  import opened Discrete
  import opened Store
  import opened Workload
  import M = LoadRun

  // What one operation draws, builds and meets: the draw of the operation, the draws of
  // the key, the fields read, the values written, and the calls the engine fails.
  datatype Input = Input(
    u: real,
    us: seq<real>,
    fields: Option<seq<string>>,
    values: Fields,
    readFails: bool,
    fails: bool)

  // An operation a client takes up, the key numbers it draws for it, and the one that ends
  // the rejection loop. Without one, the client is in the loop still.
  datatype Taken = Taken(op: Operation, drawn: seq<Word>, key: Option<Word>)

  predicate Finished(t: Taken) {
    t.op == INSERT || t.key.Some?
  }

  // ---- The steps of an operation -----------------------------------------------------

  function Draws(drawn: seq<Word>): (r: seq<M.Action>) {
    seq(|drawn|, i requires 0 <= i < |drawn| => M.Draw(0, drawn[i]))
  }

  function Calls(op: Operation, input: Input): seq<M.Action> {
    var last := [M.Call(0, input.fails, SerializeValues(input.values))];
    if op == READMODIFYWRITE then [M.Call(0, input.readFails, "")] + last else last
  }

  // The actions of one operation of client 0.
  function Actions(t: Taken, input: Input): seq<M.Action> {
    [M.Begin(0, t.op)] + ((if t.op == INSERT then [] else Draws(t.drawn))
                          + if Finished(t) then Calls(t.op, input) else [])
  }

  // All draws but the last are beyond newest, and so is the last unless it ends the loop.
  predicate LoopRun(cfg: M.Config, t: Taken) {
    t.op != INSERT ==>
      && (forall i | 0 <= i < |t.drawn| :: t.drawn[i] in cfg.keys)
      && match t.key
         case None => forall i | 0 <= i < |t.drawn| :: t.drawn[i] > M.Newest(cfg)
         case Some(k) =>
           && t.drawn != [] && t.drawn[|t.drawn| - 1] == k <= M.Newest(cfg)
           && forall i | 0 <= i < |t.drawn| - 1 :: t.drawn[i] > M.Newest(cfg)
  }

  // A state of the machine with one client.
  predicate At(s: M.Sys, phase: M.Phase, counter: Word, store: map<string, string>, remaining: nat, oks: nat,
               pending: M.Pending)
  {
    && s.phase == phase && s.counter == counter && s.store == store && |s.clients| == 1
    && s.clients[0].remaining == remaining && s.clients[0].oks == oks && s.clients[0].pending == pending
  }

  // Where an operation leaves its client.
  function Left(t: Taken): M.Pending {
    if Finished(t) then M.Idle else M.Choosing(t.op)
  }

  // The counter, the store and the success of an operation performed in one go; None is a
  // client in the rejection loop.
  function Performed(naming: Naming, op: Operation, key: Option<Word>, input: Input,
                     counter: Word, store: map<string, string>)
    : (r: (Word, map<string, string>, Option<bool>))
  {
    var value := SerializeValues(input.values);
    if op == INSERT then
      ((counter + 1) % TWO_64,
       if input.fails then store else store[BuildKeyName(naming, counter) := value],
       Some(!input.fails))
    else
      match key
      case None => (counter, store, None)
      case Some(num) =>
        var name := BuildKeyName(naming, num);
        match op
        case READ => (counter, store, Some(!input.fails && ReadStatus(store, name) == OK))
        case UPDATE => (counter, if input.fails then store else store[name := value], Some(!input.fails))
        case DELETE => (counter, if input.fails then store else store - {name}, Some(!input.fails))
        case SCAN => (counter, store, Some(!input.fails))
        case READMODIFYWRITE => (counter, if input.fails then store else store[name := value], Some(!input.fails))
  }

  lemma {:induction false} AfterConcat(cfg: M.Config, s: M.Sys, a: seq<M.Action>, b: seq<M.Action>)
    requires M.Schedule(cfg, s, a) && M.Schedule(cfg, M.After(cfg, s, a), b)
    ensures M.Schedule(cfg, s, a + b)
    ensures M.After(cfg, s, a + b) == M.After(cfg, M.After(cfg, s, a), b)
    decreases |a|
  {
    hide M.Apply, M.Enabled;
    if a == [] {
      assert a + b == b;
    } else {
      AfterConcat(cfg, M.Apply(cfg, s, a[0]), a[1..], b);
      assert (a + b)[1..] == a[1..] + b;
    }
  }

  lemma One(cfg: M.Config, s: M.Sys, a: M.Action)
    requires M.Enabled(cfg, s, a)
    ensures M.Schedule(cfg, s, [a]) && M.After(cfg, s, [a]) == M.Apply(cfg, s, a)
  {
    hide M.Apply, M.Enabled;
    assert [a][1..] == [];
  }

  // Thrown away draws change nothing.
  lemma {:induction false} DrawsRejected(cfg: M.Config, s: M.Sys, drawn: seq<Word>)
    requires |s.clients| == 1 && s.clients[0].pending.Choosing?
    requires forall i | 0 <= i < |drawn| :: drawn[i] in cfg.keys && drawn[i] > M.Newest(cfg)
    ensures M.Schedule(cfg, s, Draws(drawn)) && M.After(cfg, s, Draws(drawn)) == s
  {
    if drawn != [] {
      DrawsRejected(cfg, s, drawn[1..]);
      assert Draws(drawn)[1..] == Draws(drawn[1..]);
    }
  }

  // The loop, from the choice of the operation to its first store call.
  lemma LoopSteps(cfg: M.Config, s: M.Sys, t: Taken)
    requires |s.clients| == 1 && t.op != INSERT && LoopRun(cfg, t)
    requires s.clients[0].pending == M.Choosing(t.op)
    ensures M.Schedule(cfg, s, Draws(t.drawn))
    ensures M.After(cfg, s, Draws(t.drawn))
            == if t.key.None? then s else s.(clients := [s.clients[0].(pending := M.Chosen(t.op, t.key.value))])
  {
    hide M.Schedule, M.After;
    match t.key
    case None =>
      DrawsRejected(cfg, s, t.drawn);
    case Some(k) =>
      var n := |t.drawn| - 1;
      DrawsRejected(cfg, s, t.drawn[..n]);
      One(cfg, s, M.Draw(0, k));
      AfterConcat(cfg, s, Draws(t.drawn[..n]), [M.Draw(0, k)]);
      assert Draws(t.drawn) == Draws(t.drawn[..n]) + [M.Draw(0, k)];
      assert s.clients[0 := s.clients[0].(pending := M.Chosen(t.op, k))]
          == [s.clients[0].(pending := M.Chosen(t.op, k))];
  }

  // The store calls of an operation whose key is known.
  lemma CallSteps(cfg: M.Config, s: M.Sys, phase: M.Phase, t: Taken, input: Input,
                  counter: Word, store: map<string, string>, remaining: nat, oks: nat)
    requires t.op != INSERT && t.key.Some?
    requires At(s, phase, counter, store, remaining, oks, M.Chosen(t.op, t.key.value))
    ensures M.Schedule(cfg, s, Calls(t.op, input))
    ensures var r := Performed(cfg.naming, t.op, t.key, input, counter, store);
            At(M.After(cfg, s, Calls(t.op, input)), phase, r.0, r.1, remaining,
               if r.2 == Some(true) then oks + 1 else oks, M.Idle)
  {
    hide BuildKeyName, ReadStatus, M.Schedule, M.After;
    var last := M.Call(0, input.fails, SerializeValues(input.values));
    if t.op == READMODIFYWRITE {
      var read := M.Call(0, input.readFails, "");
      One(cfg, s, read);
      One(cfg, M.Apply(cfg, s, read), last);
      AfterConcat(cfg, s, [read], [last]);
    } else {
      One(cfg, s, last);
    }
  }

  lemma InsertSteps(cfg: M.Config, s: M.Sys, phase: M.Phase, t: Taken, input: Input,
                    counter: Word, store: map<string, string>, remaining: nat, oks: nat)
    requires At(s, phase, counter, store, remaining, oks, M.Idle) && remaining > 0
    requires t.op == INSERT && (phase == M.Running ==> INSERT in cfg.ops)
    ensures M.Schedule(cfg, s, Actions(t, input))
    ensures var r := Performed(cfg.naming, INSERT, t.key, input, counter, store);
            At(M.After(cfg, s, Actions(t, input)), phase, r.0, r.1, remaining - 1,
               if r.2 == Some(true) then oks + 1 else oks, M.Idle)
  {
    hide BuildKeyName, M.Schedule, M.After;
    var begin, last := M.Begin(0, INSERT), M.Call(0, input.fails, SerializeValues(input.values));
    One(cfg, s, begin);
    One(cfg, M.Apply(cfg, s, begin), last);
    AfterConcat(cfg, s, [begin], [last]);
    assert Actions(t, input) == [begin] + [last];
  }

  // The steps of one operation add up to the operation.
  lemma StepsPerform(cfg: M.Config, s: M.Sys, phase: M.Phase, t: Taken, input: Input,
                     counter: Word, store: map<string, string>, remaining: nat, oks: nat)
    requires At(s, phase, counter, store, remaining, oks, M.Idle) && remaining > 0
    requires if phase == M.Loading then t.op == INSERT else t.op in cfg.ops
    requires LoopRun(cfg, t)
    ensures M.Schedule(cfg, s, Actions(t, input))
    ensures var r := Performed(cfg.naming, t.op, t.key, input, counter, store);
            At(M.After(cfg, s, Actions(t, input)), phase, r.0, r.1, remaining - 1,
               if r.2 == Some(true) then oks + 1 else oks, Left(t))
  {
    hide BuildKeyName, ReadStatus, M.Schedule, M.After, LoopRun;
    if t.op == INSERT {
      InsertSteps(cfg, s, phase, t, input, counter, store, remaining, oks);
    } else {
      var begin, draws := M.Begin(0, t.op), Draws(t.drawn);
      One(cfg, s, begin);
      var s1 := M.Apply(cfg, s, begin);
      LoopSteps(cfg, s1, t);
      var s2 := M.After(cfg, s1, draws);
      var rest := if Finished(t) then Calls(t.op, input) else [];
      if t.key.Some? {
        CallSteps(cfg, s2, phase, t, input, counter, store, remaining - 1, oks);
      } else {
        NoSteps(cfg, s2);
      }
      AfterConcat(cfg, s1, draws, rest);
      AfterConcat(cfg, s, [begin], draws + rest);
      assert Actions(t, input) == [begin] + (draws + rest);
    }
  }

  lemma NoSteps(cfg: M.Config, s: M.Sys)
    ensures M.Schedule(cfg, s, []) && M.After(cfg, s, []) == s
  {
  }

  // ---- The rejection loop --------------------------------------------------------------

  function KeyOf(view: View, newest: Word, us: seq<real>): Option<Word>
    requires Drawable(view, newest) && DrawsOk(us)
  {
    match Search(view, newest, us, 0)
    case None => None
    case Some(p) => Some(p.0)
  }

  // The numbers drawn until the loop ends or the draws do.
  ghost function DrawnOf(view: View, newest: Word, us: seq<real>): seq<Word>
    requires Stationary(view, newest) && DrawsOk(us)
  {
    var n := match Search(view, newest, us, 0) case None => |us| case Some(p) => p.1 + 1;
    seq(n, i requires 0 <= i < n => DrawOf(view, newest, us[i]))
  }

  ghost function DrawOf(view: View, newest: Word, u: real): Word
    requires Stationary(view, newest) && Unit(u)
  {
    DrawKey(view, newest, u).value
  }

  // What a client takes up: an insert while loading, else the operation of the draw, with
  // the numbers drawn for it.
  ghost predicate Takes(table: seq<(Operation, real)>, view: View, newest: Word, isLoading: bool, input: Input,
                        t: Taken)
    requires Stationary(view, newest)
  {
    && (if isLoading then t.op == INSERT
        else table != [] && Total(table) != 0.0 && Choice(table, input.u) == Some(t.op))
    && (if t.op == INSERT then t.drawn == [] && t.key == None
        else DrawsOk(input.us) && t.drawn == DrawnOf(view, newest, input.us) && t.key == KeyOf(view, newest, input.us))
  }

  lemma TakenIsLoopRun(cfg: M.Config, view: View, t: Taken, us: seq<real>)
    requires M.DrawnBy(cfg, view) && DrawsOk(us)
    requires t.drawn == DrawnOf(view, M.Newest(cfg), us) && t.key == KeyOf(view, M.Newest(cfg), us)
    ensures LoopRun(cfg, t)
  {
    hide DrawKey, Advance, Search, M.Newest;
    var newest := M.Newest(cfg);
    TransactionKey(view, newest, us, 0);
    forall i | 0 <= i < |t.drawn|
      ensures t.drawn[i] in cfg.keys
    {
      assert Unit(us[i]) && DrawKey(view, newest, us[i]) == Some(t.drawn[i]);
    }
  }

  // ---- The client ----------------------------------------------------------------------

  class Client {
    const db: SplitLsmDB
    const workload: CoreWorkload

    ghost predicate Valid()
      reads workload.insertKeySequence, Footprint(workload.keyChooser), workload.opChooser
    {
      && workload.Valid()
      && {workload.keyGenerator as object, db} !!
           {workload.insertKeySequence as object, workload.opChooser} + Footprint(workload.keyChooser)
      && (workload.keyGenerator as object) != db
    }

    constructor (db: SplitLsmDB, workload: CoreWorkload)
      ensures this.db == db && this.workload == workload
    {
      this.db, this.workload := db, workload;
    }

    method DoInsert(input: Input) returns (ok: bool)
      requires Valid()
      modifies db, workload.keyGenerator
      ensures Valid()
      ensures (workload.keyGenerator.counter, db.engine, Some(ok))
              == Performed(workload.naming, INSERT, None, input, old(workload.keyGenerator.counter), old(db.engine))
      ensures ok <==> !input.fails
      ensures db.engine == if input.fails then old(db.engine)
                           else old(db.engine)[BuildKeyName(workload.naming, old(workload.keyGenerator.counter)) :=
                                                 SerializeValues(input.values)]
    {
      hide DrawKey, Advance, BuildKeyName, ReadStatus, Stationary;
      var key := workload.NextSequenceKey();
      var status := db.Insert(key, input.values, input.fails);
      ok := status == OK;
    }

    // The operations of the run phase on the key number the workload chose.
    method Transact(op: Operation, ghost num: Word, key: string, input: Input) returns (status: Status)
      requires Valid() && op != INSERT && key == BuildKeyName(workload.naming, num)
      modifies db
      ensures Valid()
      ensures (workload.keyGenerator.counter, db.engine, Some(status == OK))
              == Performed(workload.naming, op, Some(num), input, workload.keyGenerator.counter, old(db.engine))
      ensures status == OK
              <==> !input.fails && (op == READ ==> key in old(db.engine) && old(db.engine)[key] != "")
      ensures db.engine == if input.fails || op == READ || op == SCAN then old(db.engine)
                           else if op == DELETE then old(db.engine) - {key}
                           else old(db.engine)[key := SerializeValues(input.values)]
    {
      hide DrawKey, Advance, BuildKeyName, Stationary;
      match op
      case READ =>
        var result;
        status, result := db.Read(key, input.fields, input.fails);
      case UPDATE =>
        status := db.Update(key, input.values, input.fails);
      case DELETE =>
        status := db.Delete(key, input.fails);
      case SCAN =>
        status := if input.fails then NO_DATA else OK;
      case READMODIFYWRITE =>
        var _, _ := db.Read(key, input.fields, input.readFails);
        status := db.Update(key, input.values, input.fails);
    }

    // One operation of the run phase; None when all draws are used and the client is in the
    // rejection loop still.
    method DoTransaction(input: Input) returns (ok: Option<bool>, ghost t: Taken)
      requires Valid() && workload.opChooser.values != []
      requires 0.0 <= input.u < 1.0 && DrawsOk(input.us)
      modifies db, workload.keyGenerator, workload.opChooser, Footprint(workload.keyChooser)
      ensures Valid() && workload.opChooser.values == old(workload.opChooser.values)
      ensures Takes(workload.opChooser.values, workload.view, Newest(workload.recordCount), false, input, t)
      ensures (workload.keyGenerator.counter, db.engine, ok)
              == Performed(workload.naming, t.op, t.key, input, old(workload.keyGenerator.counter), old(db.engine))
    {
      hide Pick, Search, DrawKey, Advance, BuildKeyName, Total, ReadStatus, DrawnOf;
      PickFromStart(workload.opChooser.values, input.u);
      var chosen := workload.NextOperation(input.u);
      var op := chosen.value;
      if op == INSERT {
        t := Taken(op, [], None);
        var done := DoInsert(input);
        ok := Some(done);
      } else {
        var newest := Newest(workload.recordCount);
        t := Taken(op, DrawnOf(workload.view, newest, input.us), KeyOf(workload.view, newest, input.us));
        var key, used := workload.NextTransactionKey(input.us);
        if key.None? {
          return None, t;
        }
        var status := Transact(op, t.key.value, key.value, input);
        ok := Some(status == OK);
      }
    }
  }

  predicate InputOk(isLoading: bool, input: Input) {
    isLoading || (Unit(input.u) && DrawsOk(input.us))
  }

  // One operation of either phase.
  method PerformOne(client: Client, isLoading: bool, input: Input) returns (ok: Option<bool>, ghost t: Taken)
    requires client.Valid() && InputOk(isLoading, input)
    requires !isLoading ==> client.workload.opChooser.values != []
    modifies client.db, client.workload.keyGenerator, client.workload.opChooser, Footprint(client.workload.keyChooser)
    ensures client.Valid() && client.workload.opChooser.values == old(client.workload.opChooser.values)
    ensures Takes(client.workload.opChooser.values, client.workload.view, Newest(client.workload.recordCount),
                  isLoading, input, t)
    ensures (client.workload.keyGenerator.counter, client.db.engine, ok)
            == Performed(client.workload.naming, t.op, t.key, input,
                         old(client.workload.keyGenerator.counter), old(client.db.engine))
  {
    hide DrawKey, Advance, BuildKeyName, Search, Performed, DrawnOf, KeyOf, Stationary;
    if isLoading {
      t := Taken(INSERT, [], None);
      var done := client.DoInsert(input);
      ok := Some(done);
    } else {
      ok, t := client.DoTransaction(input);
    }
  }

  // ---- The loop of a client ------------------------------------------------------------

  // The machine with one client that has everything before it.
  function Alone(phase: M.Phase, counter: Word, store: map<string, string>, numOps: nat): M.Sys {
    M.Sys(phase, counter, store, [M.Client(numOps, M.Idle, 0, {}, {})], [])
  }

  // The actions of a series of operations.
  function AllActions(taken: seq<Taken>, inputs: seq<Input>): seq<M.Action>
    requires |taken| == |inputs|
  {
    if taken == [] then []
    else
      var n := |taken| - 1;
      AllActions(taken[..n], inputs[..n]) + Actions(taken[n], inputs[n])
  }

  ghost predicate AllTaken(table: seq<(Operation, real)>, view: View, newest: Word, isLoading: bool,
                           inputs: seq<Input>, taken: seq<Taken>)
    requires Stationary(view, newest)
  {
    && |taken| == |inputs|
    && forall i | 0 <= i < |inputs| :: Takes(table, view, newest, isLoading, inputs[i], taken[i])
  }

  function LeftAfter(taken: seq<Taken>): M.Pending {
    if taken == [] then M.Idle else Left(taken[|taken| - 1])
  }

  // The steps of the operations are a schedule, which ends with the given counter, store and
  // counts, and with the client where its last operation leaves it.
  ghost predicate EndsWith(cfg: M.Config, s: M.Sys, taken: seq<Taken>, inputs: seq<Input>, phase: M.Phase,
                           counter: Word, store: map<string, string>, remaining: nat, oks: nat)
  {
    && |taken| == |inputs|
    && M.Schedule(cfg, s, AllActions(taken, inputs))
    && At(M.After(cfg, s, AllActions(taken, inputs)), phase, counter, store, remaining, oks, LeftAfter(taken))
  }

  lemma OneMoreOperation(cfg: M.Config, s: M.Sys, taken: seq<Taken>, inputs: seq<Input>, phase: M.Phase,
                         counter: Word, store: map<string, string>, remaining: nat, oks: nat, t: Taken, input: Input)
    requires EndsWith(cfg, s, taken, inputs, phase, counter, store, remaining, oks) && remaining > 0
    requires LeftAfter(taken) == M.Idle
    requires if phase == M.Loading then t.op == INSERT else t.op in cfg.ops
    requires LoopRun(cfg, t)
    ensures var r := Performed(cfg.naming, t.op, t.key, input, counter, store);
            EndsWith(cfg, s, taken + [t], inputs + [input], phase, r.0, r.1, remaining - 1,
                     if r.2 == Some(true) then oks + 1 else oks)
  {
    hide Performed, M.Schedule, M.After, At, Actions, LoopRun;
    var acts := AllActions(taken, inputs);
    StepsPerform(cfg, M.After(cfg, s, acts), phase, t, input, counter, store, remaining, oks);
    AfterConcat(cfg, s, acts, Actions(t, input));
    assert (taken + [t])[..|taken|] == taken && (inputs + [input])[..|inputs|] == inputs;
  }

  lemma OneMoreTaken(table: seq<(Operation, real)>, view: View, newest: Word, isLoading: bool,
                     inputs: seq<Input>, taken: seq<Taken>, i: nat, t: Taken)
    requires Stationary(view, newest)
    requires i < |inputs| && AllTaken(table, view, newest, isLoading, inputs[..i], taken)
    requires Takes(table, view, newest, isLoading, inputs[i], t)
    ensures AllTaken(table, view, newest, isLoading, inputs[..i + 1], taken + [t])
  {
    hide Takes, Stationary;
    forall j | 0 <= j < i
      ensures Takes(table, view, newest, isLoading, inputs[j], taken[j])
    {
      assert inputs[..i][j] == inputs[j];
    }
  }

  lemma NothingTaken(cfg: M.Config, phase: M.Phase, counter: Word, store: map<string, string>, remaining: nat,
                     table: seq<(Operation, real)>, view: View, newest: Word, isLoading: bool)
    requires Stationary(view, newest)
    ensures AllTaken(table, view, newest, isLoading, [], [])
    ensures EndsWith(cfg, Alone(phase, counter, store, remaining), [], [], phase, counter, store, remaining, 0)
  {
  }

  // The configuration of the machine is that of the workload.
  ghost predicate Describes(cfg: M.Config, workload: CoreWorkload)
    reads workload.opChooser
  {
    && cfg.naming == workload.naming && cfg.recordCount == workload.recordCount
    && M.DrawnBy(cfg, workload.view)
    && forall i | 0 <= i < |workload.opChooser.values| :: workload.opChooser.values[i].0 in cfg.ops
  }

  lemma TakenFits(cfg: M.Config, table: seq<(Operation, real)>, view: View, isLoading: bool, input: Input, t: Taken)
    requires M.DrawnBy(cfg, view) && forall i | 0 <= i < |table| :: table[i].0 in cfg.ops
    requires Takes(table, view, M.Newest(cfg), isLoading, input, t)
    ensures if isLoading then t.op == INSERT else t.op in cfg.ops
    ensures LoopRun(cfg, t)
    ensures Finished(t) <==> Left(t) == M.Idle
  {
    hide DrawKey, Advance, Search, DrawnOf, KeyOf, M.DrawnBy, Pick, Total;
    if t.op != INSERT {
      TakenIsLoopRun(cfg, view, t, input.us);
    }
  }

  lemma Unfinished(naming: Naming, t: Taken, input: Input, counter: Word, store: map<string, string>)
    ensures Performed(naming, t.op, t.key, input, counter, store).2.None? <==> !Finished(t)
  {
    hide BuildKeyName, ReadStatus;
  }

  // The client's loop is a schedule of the steps of what it takes up: it ends with the
  // counter, the store and the sum the machine has after them. It performs all its
  // operations unless the draws of one of them do not end the rejection loop.
  method DelegateClient(db: SplitLsmDB, workload: CoreWorkload, cfg: M.Config, isLoading: bool, inputs: seq<Input>)
    returns (oks: nat, ghost taken: seq<Taken>)
    requires workload.Valid() && Describes(cfg, workload)
    requires {workload.keyGenerator as object, db} !!
               {workload.insertKeySequence as object, workload.opChooser} + Footprint(workload.keyChooser)
    requires (workload.keyGenerator as object) != db
    requires forall i | 0 <= i < |inputs| :: InputOk(isLoading, inputs[i])
    requires !isLoading ==> workload.opChooser.values != []
    modifies db, workload.keyGenerator, workload.opChooser, Footprint(workload.keyChooser)
    ensures workload.Valid() && workload.opChooser.values == old(workload.opChooser.values)
    ensures |taken| <= |inputs| && (|taken| < |inputs| ==> LeftAfter(taken) != M.Idle)
    ensures AllTaken(workload.opChooser.values, workload.view, Newest(workload.recordCount), isLoading,
                     inputs[..|taken|], taken)
    ensures var phase := if isLoading then M.Loading else M.Running;
            EndsWith(cfg, Alone(phase, old(workload.keyGenerator.counter), old(db.engine), |inputs|),
                     taken, inputs[..|taken|], phase, workload.keyGenerator.counter, db.engine,
                     |inputs| - |taken|, oks)
  {
    hide DrawKey, Advance, BuildKeyName, Search, Performed, EndsWith, Takes, AllTaken, Alone;
    hide Stationary, Wired, ViewOf, M.DrawnBy, LoopRun, Left;
    var client := new Client(db, workload);
    ghost var phase := if isLoading then M.Loading else M.Running;
    ghost var s := Alone(phase, workload.keyGenerator.counter, db.engine, |inputs|);
    ghost var table, newest := workload.opChooser.values, Newest(workload.recordCount);
    oks, taken := 0, [];
    NothingTaken(cfg, phase, workload.keyGenerator.counter, db.engine, |inputs|,
                 table, workload.view, newest, isLoading);
    assert inputs[..0] == [];
    for i := 0 to |inputs|
      invariant client.Valid() && workload.opChooser.values == table
      invariant |taken| == i && LeftAfter(taken) == M.Idle
      invariant AllTaken(table, workload.view, newest, isLoading, inputs[..i], taken)
      invariant EndsWith(cfg, s, taken, inputs[..i], phase, workload.keyGenerator.counter, db.engine, |inputs| - i, oks)
    {
      ghost var counter, store := workload.keyGenerator.counter, db.engine;
      var ok;
      ghost var t;
      ok, t := PerformOne(client, isLoading, inputs[i]);
      TakenFits(cfg, table, workload.view, isLoading, inputs[i], t);
      Unfinished(workload.naming, t, inputs[i], counter, store);
      OneMoreOperation(cfg, s, taken, inputs[..i], phase, counter, store, |inputs| - i, oks, t, inputs[i]);
      assert inputs[..i + 1] == inputs[..i] + [inputs[i]];
      OneMoreTaken(table, workload.view, newest, isLoading, inputs, taken, i, t);
      taken := taken + [t];
      if ok.None? {
        return;
      }
      oks := oks + if ok.value then 1 else 0;
    }
    assert inputs[..|inputs|] == inputs;
  }
}
