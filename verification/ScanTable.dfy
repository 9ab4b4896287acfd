// The scannable hash table under its reader/writer lock (lib/tbb_scan_hashtable.h).

module ScanTable {
  import opened Wrappers
  import opened HashString
  import opened StringTable

  // ---- The system ----------------------------------------------------------------------

  // The calls of the table. The key is a string of the caller, who keeps it.
  datatype Op =
    | Get(key: Addr)
    | Insert(key: Addr, value: Value)
    | Update(key: Addr, value: Value)
    | Remove(key: Addr)

  // Update and Remove take the lock for writing, Get and Insert for reading.
  predicate Writes(op: Op) {
    op.Update? || op.Remove?
  }

  datatype Phase =
    | Called
    | Copied(at: Addr)     // Insert has copied its key
    | Entered(at: Addr)    // the lock is held
    | Freed(pos: nat)      // Remove has freed the key and not yet erased the element
    | Answered(pos: nat)   // the result is known and the lock still held

  // A call in progress, with the numbers of effects and of finished calls at its start.
  datatype Thread = Idle | Active(op: Op, since: nat, begun: nat, phase: Phase)

  // A finished call: its place among the effects, and the number of effects at its end.
  datatype Finished = Finished(call: MapCall, reply: Reply, since: nat, begun: nat, pos: nat, until: nat)

  // The element whose key has been freed, and the thread that is to erase it.
  datatype Erasing = Erasing(index: nat, thread: nat)

  // calls and replies are the effects in the order in which they took place, history the
  // finished calls in the order in which they returned.
  datatype Snapshot = Snapshot(
    s: State,
    erasing: Option<Erasing>,
    threads: seq<Thread>,
    calls: seq<MapCall>,
    replies: seq<Reply>,
    history: seq<Finished>)

  type System = y: Snapshot | y.erasing.Some? ==> y.erasing.value.index < |y.s.table|
    witness Snapshot(State(map[], [], {}), None, [], [], [], [])

  predicate Holds(th: Thread) {
    th.Active? && (th.phase.Entered? || th.phase.Freed? || th.phase.Answered?)
  }

  predicate HoldsAlone(th: Thread) {
    Holds(th) && Writes(th.op)
  }

  // Readers share the lock, a writer has it alone.
  predicate LockFree(threads: seq<Thread>, op: Op) {
    forall i | 0 <= i < |threads| :: !HoldsAlone(threads[i]) && (Writes(op) ==> !Holds(threads[i]))
  }

  function Without(table: seq<Entry>, k: nat): seq<Entry>
    requires k < |table|
  {
    table[..k] + table[k + 1..]
  }

  // The state without the element that is being erased.
  function Settled(y: System): State {
    match y.erasing
    case None => y.s
    case Some(e) => State(y.s.mem, Without(y.s.table, e.index), y.s.leaked)
  }

  // The steps of calls, and what a thread does to memory between its calls.
  datatype Action =
    | Outside(t: nat, mem: Memory)
    | Begin(t: nat, op: Op)
    | Copy(t: nat, at: Addr)
    | Enter(t: nat)
    | Act(t: nat)
    | Erase(t: nat)
    | Return(t: nat)

  predicate KeyStays(before: Memory, after: Memory, key: Addr) {
    key in before ==> key in after && after[key] == before[key]
  }

  ghost predicate Enabled(y: System, a: Action) {
    && a.t < |y.threads|
    && var th := y.threads[a.t];
       match a
       case Outside(_, mem) =>
         && th.Idle? && Allowed(Settled(y), Call.Outside(mem))
         && forall i | 0 <= i < |y.threads| && y.threads[i].Active? :: KeyStays(y.s.mem, mem, y.threads[i].op.key)
       case Begin(_, op) => th.Idle? && op.key in y.s.mem && op.key !in Settled(y).Owned()
       case Copy(_, at) => th.Active? && th.phase.Called? && th.op.Insert? && at != NULL && at !in y.s.mem
       case Enter(_) =>
         && th.Active? && LockFree(y.threads, th.op)
         && if th.op.Insert? then th.phase.Copied? else th.phase.Called?
       case Act(_) => th.Active? && th.phase.Entered?
       case Erase(_) => th.Active? && th.phase.Freed? && y.erasing.Some?
       case Return(_) => th.Active? && th.phase.Answered? && th.phase.pos < |y.calls| == |y.replies|
  }

  function CallOf(op: Op, t: Text): MapCall {
    match op
    case Get(_) => Lookup(t)
    case Insert(_, v) => Add(t, v)
    case Update(_, v) => Change(t, v)
    case Remove(_) => Drop(t)
  }

  function InPhase(th: Thread, phase: Phase): Thread
    requires th.Active?
  {
    Active(th.op, th.since, th.begun, phase)
  }

  // An effect takes the next place in the order.
  function Recorded(y: System, t: nat, s: State, erasing: Option<Erasing>, reply: Reply): System
    requires t < |y.threads| && y.threads[t].Active? && y.threads[t].op.key in y.s.mem
    requires erasing.Some? ==> erasing.value.index < |s.table|
  {
    var th := y.threads[t];
    var pos := |y.calls|;
    Snapshot(s, erasing, y.threads[t := InPhase(th, if erasing.Some? then Freed(pos) else Answered(pos))],
           y.calls + [CallOf(th.op, y.s.mem[th.op.key])], y.replies + [reply], y.history)
  }

  // What a call does once inside. It compares the key with those of the elements, so
  // every one of them has to be live.
  ghost function Acted(y: System, t: nat): System
    requires t < |y.threads| && y.threads[t].Active? && y.threads[t].phase.Entered?
    requires y.s.Live() && y.threads[t].op.key in y.s.mem
    requires y.threads[t].op.Insert? ==> y.threads[t].phase.at in y.s.mem
  {
    var s, th := y.s, y.threads[t];
    match th.op
    case Get(key) => Recorded(y, t, s, None, Pointer(Pointed(s, key)))
    case Insert(key, value) =>
      var copy := Wrap(s.mem, th.phase.at);
      if Find(s.mem, s.table, copy).None? then
        Recorded(y, t, State(s.mem, s.table + [Entry(copy, value)], s.leaked - {th.phase.at}), None, Flag(true))
      else
        Recorded(y, t, s, None, Flag(false))
    case Update(key, value) => Recorded(y, t, AfterUpdate(s, key, value), None, Pointer(Pointed(s, key)))
    case Remove(key) =>
      match Find(s.mem, s.table, Wrap(s.mem, key))
      case None => Recorded(y, t, s, None, Pointer(NO_VALUE))
      case Some(k) =>
        Recorded(y, t, State(s.mem - {s.table[k].key.value}, s.table, s.leaked), Some(Erasing(k, t)),
                 Pointer(s.table[k].value))
  }

  ghost predicate Safe(y: System, a: Action) {
    && a.t < |y.threads|
    && var th := y.threads[a.t];
       && (th.Active? ==> th.op.key in y.s.mem)
       && (a.Act? ==> y.s.Live() && (th.Active? && th.phase.Entered? && th.op.Insert? ==> th.phase.at in y.s.mem))
  }

  ghost function Apply(y: System, a: Action): System
    requires Enabled(y, a) && Safe(y, a)
  {
    var th := y.threads[a.t];
    match a
    case Outside(_, mem) =>
      Snapshot(State(mem, y.s.table, y.s.leaked), y.erasing, y.threads, y.calls, y.replies, y.history)
    case Begin(t, op) =>
      Snapshot(y.s, y.erasing, y.threads[t := Active(op, |y.calls|, |y.history|, Called)],
               y.calls, y.replies, y.history)
    case Copy(t, at) =>
      Snapshot(State(y.s.mem[at := y.s.mem[th.op.key]], y.s.table, y.s.leaked + {at}),
             y.erasing, y.threads[t := InPhase(th, Copied(at))], y.calls, y.replies, y.history)
    case Enter(t) =>
      Snapshot(y.s, y.erasing, y.threads[t := InPhase(th, Entered(if th.phase.Copied? then th.phase.at else NULL))],
             y.calls, y.replies, y.history)
    case Act(t) => Acted(y, t)
    case Erase(t) =>
      Snapshot(Settled(y), None, y.threads[t := InPhase(th, Answered(th.phase.pos))], y.calls, y.replies, y.history)
    case Return(t) =>
      var pos := th.phase.pos;
      Snapshot(y.s, y.erasing, y.threads[t := Idle], y.calls, y.replies,
             y.history + [Finished(CallOf(th.op, y.s.mem[th.op.key]), y.replies[pos],
                                   th.since, th.begun, pos, |y.calls|)])
  }

  // ---- The lock --------------------------------------------------------------------------

  predicate IsFreed(th: Thread) {
    th.Active? && th.phase.Freed?
  }

  // A writer is inside alone.
  ghost predicate Exclusive(threads: seq<Thread>) {
    forall i, j | 0 <= i < |threads| && 0 <= j < |threads| && i != j :: HoldsAlone(threads[i]) ==> !Holds(threads[j])
  }

  // An element is being erased exactly while the Remove that freed its key is inside.
  ghost predicate EraserInv(threads: seq<Thread>, erasing: Option<Erasing>) {
    && (forall i | 0 <= i < |threads| :: IsFreed(threads[i]) <==> erasing.Some? && erasing.value.thread == i)
    && (forall i | 0 <= i < |threads| :: IsFreed(threads[i]) ==> threads[i].op.Remove?)
    && (erasing.Some? ==> erasing.value.thread < |threads|)
  }

  // Only an Insert has a copy.
  predicate InsertsCopy(threads: seq<Thread>) {
    forall i | 0 <= i < |threads| && threads[i].Active? && threads[i].phase.Copied? :: threads[i].op.Insert?
  }

  ghost predicate LockInv(y: System) {
    Exclusive(y.threads) && EraserInv(y.threads, y.erasing) && InsertsCopy(y.threads)
  }

  lemma ExclusionStays(threads: seq<Thread>, t: nat, next: Thread)
    requires t < |threads| && Exclusive(threads)
    requires Holds(next) ==>
               || (Holds(threads[t]) && Writes(next.op) == Writes(threads[t].op))
               || LockFree(threads, next.op)
    ensures Exclusive(threads[t := next])
  {
    hide Writes;
  }

  // A key is freed only while no other call is inside, so no call that compares keys is.
  lemma FreedAlone(y: System)
    requires LockInv(y) && y.erasing.Some?
    ensures forall i | 0 <= i < |y.threads| && i != y.erasing.value.thread :: !Holds(y.threads[i])
    ensures forall t | Enabled(y, Act(t)) :: false
  {
    assert HoldsAlone(y.threads[y.erasing.value.thread]);
  }

  lemma EraserIsNotInside(y: System, t: nat)
    requires LockInv(y) && Enabled(y, Act(t))
    ensures y.erasing.None?
  {
    if y.erasing.Some? {
      FreedAlone(y);
    }
  }

  // ---- The memory ------------------------------------------------------------------------

  // A caller keeps its key, which is none of the table's blocks. An Insert that has its copy
  // and has not acted has it outside the table.
  predicate HasCopy(th: Thread) {
    th.Active? && th.op.Insert? && (th.phase.Copied? || th.phase.Entered?)
  }

  ghost predicate KeyKept(s: State, th: Thread) {
    th.Active? ==> th.op.key in s.mem && th.op.key !in s.Owned()
  }

  ghost predicate CopyKept(s: State, th: Thread) {
    HasCopy(th) ==>
      && th.phase.at in s.leaked && th.phase.at in s.mem
      && th.op.key in s.mem && s.mem[th.phase.at] == s.mem[th.op.key]
  }

  ghost predicate CopiesApart(threads: seq<Thread>) {
    forall i, j | 0 <= i < |threads| && 0 <= j < |threads| && i != j && HasCopy(threads[i]) && HasCopy(threads[j]) ::
      threads[i].phase.at != threads[j].phase.at
  }

  // malloc may hand out the freed block again before the element is erased, so only the
  // other elements are known to be sound then.
  ghost predicate MemInv(y: System) {
    && Settled(y).Valid()
    && (forall i | 0 <= i < |y.threads| :: KeyKept(Settled(y), y.threads[i]) && CopyKept(Settled(y), y.threads[i]))
    && CopiesApart(y.threads)
  }

  // Every enabled step is safe: a call that compares keys finds all of them live.
  lemma StepIsSafe(y: System, a: Action)
    requires LockInv(y) && MemInv(y) && Enabled(y, a)
    ensures Safe(y, a)
  {
    hide State.TextsApart, State.BlocksApart, State.Owned;
    if a.Act? && y.erasing.Some? {
      FreedAlone(y);
    }
    assert KeyKept(Settled(y), y.threads[a.t]) && CopyKept(Settled(y), y.threads[a.t]);
  }

  // A copied key joins the blocks outside the table.
  lemma CopyStep(s: State, at: Addr, t: Text)
    requires s.Valid() && at !in s.mem && at != NULL
    ensures var after := State(s.mem[at := t], s.table, s.leaked + {at});
            after.Valid() && after.Contents() == s.Contents() && after.Owned() == s.Owned() + {at}
  {
    hide State.Contents, State.Live, State.TextsApart, State.BlocksApart, State.Stored;
    OwnedIsLive(s);
    Allocate(s, at, t);
    StoredOfTable(State(s.mem[at := t], s.table, s.leaked), s);
    Leak(State(s.mem[at := t], s.table, s.leaked), at);
    StoredOfTable(State(s.mem[at := t], s.table, s.leaked + {at}), s);
  }

  lemma StoredOfTable(a: State, b: State)
    requires a.table == b.table
    ensures a.Stored() == b.Stored()
  {
  }

  // Linking a copy that was outside the table.
  lemma LinkCopy(s: State, at: Addr, value: Value)
    requires s.Valid() && at in s.leaked && s.mem[at] !in s.Contents()
    ensures var after := State(s.mem, s.table + [Entry(Wrap(s.mem, at), value)], s.leaked - {at});
            && after.Valid()
            && after.Contents() == s.Contents()[s.mem[at] := value]
            && after.Owned() == s.Owned()
  {
    hide Describes, Wrap;
    var apart := State(s.mem, s.table, s.leaked - {at});
    assert forall i | 0 <= i < |s.table| :: apart.TextAt(i) == s.TextAt(i);
    SameEntriesSameContents(s, apart);
    assert apart.Stored() == s.Stored();
    Link(apart, at, value);
  }

  // What an effect does to the settled state: the map call, no block gained, and no block
  // touched that a caller or another Insert has.
  ghost predicate Effect(s: State, after: State, call: MapCall, own: set<Addr>)
    requires s.Valid()
  {
    && after.Valid()
    && after.Contents() == MapAfter(s.Contents(), call)
    && after.Owned() <= s.Owned()
    && s.leaked - own <= after.leaked
    && forall p | p in s.mem && (p !in s.Owned() || p in s.leaked) :: p in after.mem && after.mem[p] == s.mem[p]
  }

  ghost function OwnCopy(th: Thread): set<Addr> {
    if HasCopy(th) then {th.phase.at} else {}
  }

  lemma InsertActs(y: System, t: nat)
    requires LockInv(y) && MemInv(y) && Enabled(y, Act(t)) && Safe(y, Act(t)) && y.threads[t].op.Insert?
    ensures var th := y.threads[t];
            var call := CallOf(th.op, y.s.mem[th.op.key]);
            && y.erasing.None?
            && Acted(y, t).erasing.None?
            && Effect(y.s, Acted(y, t).s, call, OwnCopy(th))
            && Acted(y, t).replies == y.replies + [MapReply(y.s.Contents(), call)]
  {
    hide Describes, Find, State.Contents, State.Live, State.TextsApart, State.BlocksApart, State.Stored;
    EraserIsNotInside(y, t);
    var s, th := y.s, y.threads[t];
    assert KeyKept(Settled(y), th) && CopyKept(Settled(y), th);
    var at := th.phase.at;
    FindAgrees(s, at);
    if s.mem[at] !in s.Contents() {
      LinkCopy(s, at, th.op.value);
    }
  }

  lemma UpdateActs(y: System, t: nat)
    requires LockInv(y) && MemInv(y) && Enabled(y, Act(t)) && Safe(y, Act(t)) && y.threads[t].op.Update?
    ensures var th := y.threads[t];
            var call := CallOf(th.op, y.s.mem[th.op.key]);
            && y.erasing.None?
            && Acted(y, t).erasing.None?
            && Effect(y.s, Acted(y, t).s, call, OwnCopy(th))
            && Acted(y, t).replies == y.replies + [MapReply(y.s.Contents(), call)]
  {
    hide Describes, AfterUpdate, Pointed, Looked;
    hide State.Contents, State.Live, State.TextsApart, State.BlocksApart, State.Stored;
    EraserIsNotInside(y, t);
    UpdateAgrees(y.s, y.threads[t].op.key, y.threads[t].op.value);
    PointedAgrees(y.s, y.threads[t].op.key);
  }

  lemma GetActs(y: System, t: nat)
    requires LockInv(y) && MemInv(y) && Enabled(y, Act(t)) && Safe(y, Act(t)) && y.threads[t].op.Get?
    ensures var th := y.threads[t];
            var call := CallOf(th.op, y.s.mem[th.op.key]);
            && y.erasing.None?
            && Acted(y, t).erasing.None?
            && Effect(y.s, Acted(y, t).s, call, OwnCopy(th))
            && Acted(y, t).replies == y.replies + [MapReply(y.s.Contents(), call)]
  {
    hide Describes, Pointed, Looked, State.Contents, State.Live, State.TextsApart, State.BlocksApart, State.Stored;
    EraserIsNotInside(y, t);
    PointedAgrees(y.s, y.threads[t].op.key);
  }

  lemma FreeIsEffect(s: State, k: nat)
    requires s.Valid() && k < |s.table|
    ensures Effect(s, State(s.mem - {s.table[k].key.value}, Without(s.table, k), s.leaked), Drop(s.TextAt(k)), {})
  {
    hide Describes, State.Contents, State.Live, State.TextsApart, State.BlocksApart;
    RemoveAt(s, k);
    OwnedIsLive(s);
    assert s.table[k].key.value in s.Stored();
  }

  lemma AbsentIsEffect(s: State, t: Text)
    requires s.Valid() && t !in s.Contents()
    ensures Effect(s, s, Drop(t), {})
  {
    hide Describes, State.Contents, State.Live, State.TextsApart, State.BlocksApart, State.Stored;
  }

  // Remove of a text that is there: once its key is freed, the settled state is already
  // the one without it.
  lemma RemoveActs(y: System, t: nat)
    requires LockInv(y) && MemInv(y) && Enabled(y, Act(t)) && Safe(y, Act(t)) && y.threads[t].op.Remove?
    ensures var th := y.threads[t];
            var call := CallOf(th.op, y.s.mem[th.op.key]);
            && y.erasing.None?
            && Effect(y.s, Settled(Acted(y, t)), call, OwnCopy(th))
            && Acted(y, t).replies == y.replies + [MapReply(y.s.Contents(), call)]
  {
    hide Sdbm, Find, Effect, KeyKept, CopyKept, CopiesApart, LockInv;
    hide State.Contents, State.TextsApart, State.BlocksApart, State.Stored, State.TextAt;
    EraserIsNotInside(y, t);
    var s, key := y.s, y.threads[t].op.key;
    FindAgrees(s, key);
    match Find(s.mem, s.table, Wrap(s.mem, key))
    case None =>
      AbsentIsEffect(s, s.mem[key]);
    case Some(k) =>
      FreeIsEffect(s, k);
  }

  // The call of every thread inside acts on the settled table as it would on a plain map.
  lemma Acts(y: System, t: nat)
    requires LockInv(y) && MemInv(y) && Enabled(y, Act(t)) && Safe(y, Act(t))
    ensures var th := y.threads[t];
            var call := CallOf(th.op, y.s.mem[th.op.key]);
            && y.erasing.None?
            && Effect(y.s, Settled(Acted(y, t)), call, OwnCopy(th))
            && Acted(y, t).replies == y.replies + [MapReply(y.s.Contents(), call)]
  {
    hide Effect, Acted, LockInv, CallOf, KeyKept, CopyKept, CopiesApart, State.Contents;
    match y.threads[t].op
    case Get(_) => GetActs(y, t);
    case Insert(_, _) => InsertActs(y, t);
    case Update(_, _) => UpdateActs(y, t);
    case Remove(_) => RemoveActs(y, t);
  }

  // The effect and the answer of every call, call by call.
  lemma EffectOfCall(y: System, t: nat)
    requires LockInv(y) && MemInv(y) && Enabled(y, Act(t)) && Safe(y, Act(t))
    ensures y.s.Valid() && Settled(Acted(y, t)).Valid()
    ensures var m, op, text := y.s.Contents(), y.threads[t].op, y.s.mem[y.threads[t].op.key];
            var answer := Pointer(if text in m then m[text] else 0);
            var after := Settled(Acted(y, t)).Contents();
            match op
            case Get(_) => after == m && Acted(y, t).replies == y.replies + [answer]
            case Insert(_, v) =>
              && after == (if text in m then m else m[text := v])
              && Acted(y, t).replies == y.replies + [Flag(text !in m)]
            case Update(_, v) =>
              && after == (if text in m then m[text := v] else m)
              && Acted(y, t).replies == y.replies + [answer]
            case Remove(_) => after == m - {text} && Acted(y, t).replies == y.replies + [answer]
  {
    hide Acted, LockInv, KeyKept, CopyKept, CopiesApart, State.Contents, State.Valid;
    Acts(y, t);
  }

  lemma ActedThreads(y: System, t: nat)
    requires t < |y.threads| && y.threads[t].Active? && y.threads[t].phase.Entered?
    requires y.s.Live() && y.threads[t].op.key in y.s.mem
    requires y.threads[t].op.Insert? ==> y.threads[t].phase.at in y.s.mem
    requires y.threads[t].op.Remove? ==>
               var r := Find(y.s.mem, y.s.table, Wrap(y.s.mem, y.threads[t].op.key)); r.Some? ==> r.value < |y.s.table|
    ensures var z, th, pos := Acted(y, t), y.threads[t], |y.calls|;
            && z.threads == y.threads[t := InPhase(th, if z.erasing.Some? then Freed(pos) else Answered(pos))]
            && z.calls == y.calls + [CallOf(th.op, y.s.mem[th.op.key])]
            && z.history == y.history
            && (z.erasing.Some? ==> z.erasing.value.thread == t && th.op.Remove?)
  {
    hide Sdbm, Find, Pointed, AfterUpdate, CallOf;
  }

  lemma Kept(s: State, after: State, call: MapCall, own: set<Addr>, th: Thread)
    requires s.Valid() && Effect(s, after, call, own) && KeyKept(s, th) && CopyKept(s, th)
    requires HasCopy(th) ==> th.phase.at !in own
    ensures KeyKept(after, th) && CopyKept(after, th)
  {
    hide State.Contents, State.Valid, State.Stored;
  }

  lemma Moved(s: State, th: Thread, next: Thread)
    requires KeyKept(s, th) && th.Active? && next.Active? && next.op == th.op && !HasCopy(next)
    ensures KeyKept(s, next) && CopyKept(s, next)
  {
  }

  lemma ActKeepsMem(y: System, t: nat)
    requires LockInv(y) && MemInv(y) && Enabled(y, Act(t)) && Safe(y, Act(t))
    ensures MemInv(Acted(y, t))
  {
    hide Sdbm, Find, State.Contents, State.TextsApart, State.BlocksApart, State.Owned, Acted, KeyKept, CopyKept, CallOf;
    Acts(y, t);
    FindAgrees(y.s, y.threads[t].op.key);
    assert KeyKept(y.s, y.threads[t]);
    ActedThreads(y, t);
    var z, th := Acted(y, t), y.threads[t];
    forall i | 0 <= i < |z.threads|
      ensures KeyKept(Settled(z), z.threads[i]) && CopyKept(Settled(z), z.threads[i])
    {
      if i == t {
        Moved(y.s, th, z.threads[i]);
      }
      Kept(y.s, Settled(z), CallOf(th.op, y.s.mem[th.op.key]), OwnCopy(th), z.threads[i]);
    }
  }

  lemma CopyKeepsMem(y: System, t: nat, at: Addr)
    requires MemInv(y) && Enabled(y, Copy(t, at)) && Safe(y, Copy(t, at))
    ensures MemInv(Apply(y, Copy(t, at)))
    ensures Settled(Apply(y, Copy(t, at))).Contents() == Settled(y).Contents()
  {
    hide Sdbm, State.Contents, State.Live, State.TextsApart, State.BlocksApart, State.Stored, Without;
    var z := Apply(y, Copy(t, at));
    var s := Settled(y);
    assert KeyKept(s, y.threads[t]);
    OwnedIsLive(s);
    CopyStep(s, at, y.s.mem[y.threads[t].op.key]);
    assert Settled(z).Owned() == s.Owned() + {at};
    forall i | 0 <= i < |z.threads|
      ensures KeyKept(Settled(z), z.threads[i]) && CopyKept(Settled(z), z.threads[i])
      ensures i != t && HasCopy(y.threads[i]) ==> y.threads[i].phase.at != at
    {
      assert KeyKept(s, y.threads[i]) && CopyKept(s, y.threads[i]);
    }
  }

  lemma OthersKeepMem(y: System, a: Action)
    requires MemInv(y) && Enabled(y, a) && Safe(y, a) && !a.Copy? && !a.Act? && !a.Outside?
    ensures MemInv(Apply(y, a)) && Settled(Apply(y, a)) == Settled(y)
  {
    hide State.Valid, State.Owned;
    var z := Apply(y, a);
    forall i | 0 <= i < |z.threads|
      ensures KeyKept(Settled(y), z.threads[i]) && CopyKept(Settled(y), z.threads[i])
    {
      assert KeyKept(Settled(y), y.threads[i]) && CopyKept(Settled(y), y.threads[i]);
    }
  }

  lemma OutsideKeepsMem(y: System, t: nat, mem: Memory)
    requires MemInv(y) && Enabled(y, Action.Outside(t, mem)) && Safe(y, Action.Outside(t, mem))
    ensures MemInv(Apply(y, Action.Outside(t, mem)))
    ensures Settled(Apply(y, Action.Outside(t, mem))).Contents() == Settled(y).Contents()
  {
    hide Sdbm, State.Contents, State.Live, State.TextsApart, State.BlocksApart, State.Stored, Without;
    var z, s := Apply(y, Action.Outside(t, mem)), Settled(y);
    OutsideAgrees(s, mem);
    OwnedIsLive(s);
    forall i | 0 <= i < |z.threads|
      ensures KeyKept(Settled(z), z.threads[i]) && CopyKept(Settled(z), z.threads[i])
    {
      assert KeyKept(s, y.threads[i]) && CopyKept(s, y.threads[i]);
    }
  }

  // Every step keeps the memory sound.
  lemma MemStep(y: System, a: Action)
    requires LockInv(y) && MemInv(y) && Enabled(y, a) && Safe(y, a)
    ensures MemInv(Apply(y, a))
  {
    hide MemInv, LockInv, Enabled, Safe, Acted;
    match a
    case Outside(t, mem) => OutsideKeepsMem(y, t, mem);
    case Copy(t, at) => CopyKeepsMem(y, t, at);
    case Act(t) => ActKeepsMem(y, t);
    case _ => OthersKeepMem(y, a);
  }

  // ---- The order -------------------------------------------------------------------------

  // The effects are a run of a plain map, which the table stands for.
  ghost predicate OrderInv(y: System)
    requires Settled(y).Valid()
  {
    && Settled(y).Contents() == MapRun(map[], y.calls)
    && y.replies == MapReplies(map[], y.calls)
  }

  lemma {:induction false} MapRunOneMore(m: map<Text, Value>, calls: seq<MapCall>, c: MapCall)
    ensures MapRun(m, calls + [c]) == MapAfter(MapRun(m, calls), c)
    ensures MapReplies(m, calls + [c]) == MapReplies(m, calls) + [MapReply(MapRun(m, calls), c)]
    decreases |calls|
  {
    hide MapAfter, MapReply;
    if calls == [] {
      assert [c][1..] == [];
      assert [] + [c] == [c];
    } else {
      MapRunOneMore(MapAfter(m, calls[0]), calls[1..], c);
      assert (calls + [c])[1..] == calls[1..] + [c];
    }
  }

  lemma OrderStep(y: System, a: Action)
    requires LockInv(y) && MemInv(y) && Enabled(y, a) && Safe(y, a) && OrderInv(y)
    ensures MemInv(Apply(y, a)) && OrderInv(Apply(y, a))
  {
    MemStep(y, a);
    if a.Act? {
      ActOrders(y, a.t);
    } else if a.Copy? {
      CopyKeepsMem(y, a.t, a.at);
    } else if a.Outside? {
      OutsideKeepsMem(y, a.t, a.mem);
    } else {
      OthersKeepMem(y, a);
    }
  }

  lemma ActOrders(y: System, t: nat)
    requires LockInv(y) && MemInv(y) && Enabled(y, Act(t)) && Safe(y, Act(t)) && OrderInv(y)
    ensures MemInv(Acted(y, t)) && OrderInv(Acted(y, t))
  {
    hide Sdbm, Find, Acted, CallOf, MapAfter, MapReply;
    hide State.Contents, State.TextsApart, State.BlocksApart, State.Owned;
    ActKeepsMem(y, t);
    Acts(y, t);
    FindAgrees(y.s, y.threads[t].op.key);
    ActedThreads(y, t);
    MapRunOneMore(map[], y.calls, CallOf(y.threads[t].op, y.s.mem[y.threads[t].op.key]));
  }

  // ---- Histories -------------------------------------------------------------------------

  function Place(th: Thread): Option<nat> {
    if th.Active? && th.phase.Freed? then Some(th.phase.pos)
    else if th.Active? && th.phase.Answered? then Some(th.phase.pos)
    else None
  }

  // Every call that had returned when this one began had ended by then.
  ghost predicate EndedBefore(history: seq<Finished>, begun: nat, since: nat) {
    begun <= |history| && forall g | 0 <= g < begun :: history[g].until <= since
  }

  // A thread's effect takes place after its call began, and is the effect of its call.
  ghost predicate ThreadTimed(y: System, th: Thread) {
    th.Active? ==>
      && th.since <= |y.calls| && EndedBefore(y.history, th.begun, th.since)
      && (Place(th).Some? ==>
            && th.since <= Place(th).value < |y.calls|
            && th.op.key in y.s.mem && y.calls[Place(th).value] == CallOf(th.op, y.s.mem[th.op.key]))
  }

  ghost predicate FinishedTimed(y: System, f: Finished) {
    && |y.calls| == |y.replies|
    && f.since <= f.pos < f.until <= |y.calls|
    && y.calls[f.pos] == f.call && y.replies[f.pos] == f.reply
    && EndedBefore(y.history, f.begun, f.since)
  }

  ghost predicate TimesInv(y: System) {
    && |y.calls| == |y.replies|
    && (forall i | 0 <= i < |y.threads| :: ThreadTimed(y, y.threads[i]))
    && (forall h | 0 <= h < |y.history| :: FinishedTimed(y, y.history[h]))
  }

  // No block of a caller changes.
  lemma KeysStay(y: System, a: Action, i: nat)
    requires LockInv(y) && MemInv(y) && Enabled(y, a) && Safe(y, a)
    requires i < |y.threads| && y.threads[i].Active?
    ensures var key := y.threads[i].op.key;
            key in y.s.mem && key in Apply(y, a).s.mem && Apply(y, a).s.mem[key] == y.s.mem[key]
  {
    hide State.Contents, State.Valid, State.Owned, Acted, CallOf, LockInv;
    assert KeyKept(Settled(y), y.threads[i]);
    if a.Act? {
      Acts(y, a.t);
    }
  }

  // One step adds at most one effect and one finished call, at the end.
  lemma StepGrows(y: System, a: Action)
    requires LockInv(y) && MemInv(y) && Enabled(y, a) && Safe(y, a) && TimesInv(y)
    ensures var z := Apply(y, a);
            && |z.calls| == |z.replies|
            && |y.calls| <= |z.calls| && z.calls[..|y.calls|] == y.calls && z.replies[..|y.calls|] == y.replies
            && |y.history| <= |z.history| && z.history[..|y.history|] == y.history
            && |z.threads| == |y.threads| && forall i | 0 <= i < |y.threads| && i != a.t :: z.threads[i] == y.threads[i]
  {
    hide State.Contents, State.Valid, State.Owned, Acted, CallOf, ThreadTimed, FinishedTimed, Settled;
    if a.Act? {
      Acts(y, a.t);
      FindInside(y, a.t);
      ActedThreads(y, a.t);
    }
  }

  lemma FindInside(y: System, t: nat)
    requires LockInv(y) && MemInv(y) && Enabled(y, Act(t)) && Safe(y, Act(t))
    ensures var r := Find(y.s.mem, y.s.table, Wrap(y.s.mem, y.threads[t].op.key)); r.Some? ==> r.value < |y.s.table|
  {
    hide Sdbm, Find, State.Contents, State.TextsApart, State.BlocksApart, State.Owned;
    EraserIsNotInside(y, t);
    FindAgrees(y.s, y.threads[t].op.key);
  }

  // Every step keeps the lock's discipline.
  lemma LockStep(y: System, a: Action)
    requires LockInv(y) && MemInv(y) && Enabled(y, a) && Safe(y, a)
    ensures LockInv(Apply(y, a))
  {
    hide Acted, CallOf, MemInv, Settled, State.Owned, State.Live, Exclusive, Writes, LockFree;
    if a.Act? {
      EraserIsNotInside(y, a.t);
      FindInside(y, a.t);
      ActedThreads(y, a.t);
    }
    ExclusionStays(y.threads, a.t, Apply(y, a).threads[a.t]);
    assert Apply(y, a).threads == y.threads[a.t := Apply(y, a).threads[a.t]];
  }

  ghost predicate Grows(y: System, z: System) {
    && |z.calls| == |z.replies| && |y.calls| == |y.replies|
    && |y.calls| <= |z.calls| && z.calls[..|y.calls|] == y.calls && z.replies[..|y.calls|] == y.replies
    && |y.history| <= |z.history| && z.history[..|y.history|] == y.history
  }

  lemma EndedStays(y: System, z: System, begun: nat, since: nat)
    requires Grows(y, z) && EndedBefore(y.history, begun, since)
    ensures EndedBefore(z.history, begun, since)
  {
    assert forall g | 0 <= g < |y.history| :: z.history[..|y.history|][g] == z.history[g];
  }

  lemma FinishedStays(y: System, z: System, f: Finished)
    requires Grows(y, z) && FinishedTimed(y, f)
    ensures FinishedTimed(z, f)
  {
    EndedStays(y, z, f.begun, f.since);
    assert z.calls[..|y.calls|][f.pos] == z.calls[f.pos] && z.replies[..|y.calls|][f.pos] == z.replies[f.pos];
  }

  lemma ThreadStays(y: System, z: System, th: Thread)
    requires Grows(y, z) && ThreadTimed(y, th)
    requires th.Active? && th.op.key in y.s.mem ==> th.op.key in z.s.mem && z.s.mem[th.op.key] == y.s.mem[th.op.key]
    ensures ThreadTimed(z, th)
  {
    hide CallOf;
    if th.Active? {
      EndedStays(y, z, th.begun, th.since);
      if Place(th).Some? {
        assert z.calls[..|y.calls|][Place(th).value] == z.calls[Place(th).value];
      }
    }
  }

  lemma ActTimed(y: System, t: nat)
    requires LockInv(y) && MemInv(y) && Enabled(y, Act(t)) && Safe(y, Act(t)) && TimesInv(y)
    ensures ThreadTimed(Acted(y, t), Acted(y, t).threads[t])
    ensures Acted(y, t).history == y.history
  {
    hide State.Contents, State.Valid, State.Owned, Acted, CallOf, LockInv, FinishedTimed, Find;
    FindInside(y, t);
    ActedThreads(y, t);
    KeysStay(y, Act(t), t);
    assert ThreadTimed(y, y.threads[t]);
  }

  lemma MoverTimed(y: System, a: Action)
    requires LockInv(y) && MemInv(y) && Enabled(y, a) && Safe(y, a) && TimesInv(y) && !a.Act?
    ensures ThreadTimed(Apply(y, a), Apply(y, a).threads[a.t])
  {
    hide State.Contents, State.Valid, State.Owned, CallOf, LockInv, Without;
    assert ThreadTimed(y, y.threads[a.t]);
    if a.Begin? {
      assert forall g | 0 <= g < |y.history| :: FinishedTimed(y, y.history[g]);
    }
  }

  lemma ReturnTimed(y: System, t: nat)
    requires LockInv(y) && MemInv(y) && Enabled(y, Return(t)) && Safe(y, Return(t)) && TimesInv(y)
    ensures var z := Apply(y, Return(t));
            z.history == y.history + [z.history[|y.history|]] && FinishedTimed(y, z.history[|y.history|])
  {
    hide State.Contents, State.Valid, State.Owned, CallOf, LockInv;
    assert ThreadTimed(y, y.threads[t]);
  }

  lemma TimesStep(y: System, a: Action)
    requires LockInv(y) && MemInv(y) && Enabled(y, a) && Safe(y, a) && TimesInv(y)
    ensures TimesInv(Apply(y, a))
  {
    hide State.Contents, State.Valid, State.Owned, Settled, Acted, CallOf;
    hide LockInv, MemInv, ThreadTimed, FinishedTimed, Safe;
    var z := Apply(y, a);
    StepGrows(y, a);
    forall i | 0 <= i < |z.threads|
      ensures ThreadTimed(z, z.threads[i])
    {
      if i != a.t {
        if y.threads[i].Active? {
          KeysStay(y, a, i);
        }
        ThreadStays(y, z, y.threads[i]);
      } else if a.Act? {
        ActTimed(y, a.t);
      } else {
        MoverTimed(y, a);
      }
    }
    forall h | 0 <= h < |z.history|
      ensures FinishedTimed(z, z.history[h])
    {
      if h < |y.history| {
        assert z.history[..|y.history|][h] == y.history[h];
      } else if a.Return? {
        ReturnTimed(y, a.t);
      } else if a.Act? {
        ActTimed(y, a.t);
      }
      FinishedStays(y, z, z.history[h]);
    }
  }

  // No effect belongs to two calls.
  ghost predicate PlacesInv(y: System) {
    && (forall h, g | 0 <= h < g < |y.history| :: y.history[h].pos != y.history[g].pos)
    && (forall i, h | 0 <= i < |y.threads| && 0 <= h < |y.history| && Place(y.threads[i]).Some? ::
          Place(y.threads[i]).value != y.history[h].pos)
    && (forall i, j | 0 <= i < |y.threads| && 0 <= j < |y.threads| && i != j
                      && Place(y.threads[i]).Some? && Place(y.threads[j]).Some? ::
          Place(y.threads[i]) != Place(y.threads[j]))
  }

  lemma ActPlaced(y: System, t: nat)
    requires LockInv(y) && MemInv(y) && Enabled(y, Act(t)) && Safe(y, Act(t))
    ensures var z := Acted(y, t);
            && |z.calls| == |y.calls| + 1 && z.history == y.history
            && z.threads == y.threads[t := z.threads[t]]
            && Place(y.threads[t]).None? && Place(z.threads[t]) == Some(|y.calls|)
  {
    hide Sdbm, State.Contents, State.Valid, State.Owned, Acted, CallOf, LockInv, Find;
    FindInside(y, t);
    ActedThreads(y, t);
  }

  // All places are those of effects there have been.
  lemma PlacesAreBounded(y: System)
    requires TimesInv(y)
    ensures forall h | 0 <= h < |y.history| :: y.history[h].pos < |y.calls|
    ensures forall i | 0 <= i < |y.threads| && Place(y.threads[i]).Some? :: Place(y.threads[i]).value < |y.calls|
  {
    hide EndedBefore;
    forall h | 0 <= h < |y.history|
      ensures y.history[h].pos < |y.calls|
    {
      assert FinishedTimed(y, y.history[h]);
    }
    forall i | 0 <= i < |y.threads| && Place(y.threads[i]).Some?
      ensures Place(y.threads[i]).value < |y.calls|
    {
      assert ThreadTimed(y, y.threads[i]);
    }
  }

  lemma PlacesStep(y: System, a: Action)
    requires LockInv(y) && MemInv(y) && Enabled(y, a) && Safe(y, a) && TimesInv(y) && PlacesInv(y)
    ensures PlacesInv(Apply(y, a))
  {
    hide State.Contents, State.Valid, State.Owned, Acted, CallOf, LockInv, MemInv, Settled, Safe, TimesInv;
    PlacesAreBounded(y);
    if a.Act? {
      ActPlaced(y, a.t);
    }
  }

  // Effects whose calls have not returned.
  function Pending(threads: seq<Thread>): nat {
    if threads == [] then 0 else (if Place(threads[0]).Some? then 1 else 0) + Pending(threads[1..])
  }

  lemma {:induction false} PendingUpdate(threads: seq<Thread>, t: nat, th: Thread)
    requires t < |threads|
    ensures Pending(threads[t := th]) + (if Place(threads[t]).Some? then 1 else 0)
            == Pending(threads) + (if Place(th).Some? then 1 else 0)
  {
    hide Place;
    if t == 0 {
      assert threads[0 := th][1..] == threads[1..];
    } else {
      PendingUpdate(threads[1..], t - 1, th);
      assert threads[t := th][1..] == threads[1..][t - 1 := th];
    }
  }

  // Every effect belongs to a call.
  ghost predicate CountInv(y: System) {
    |y.calls| == |y.history| + Pending(y.threads)
  }

  lemma CountStep(y: System, a: Action)
    requires LockInv(y) && MemInv(y) && Enabled(y, a) && Safe(y, a) && CountInv(y)
    ensures CountInv(Apply(y, a))
  {
    hide State.Contents, State.Valid, State.Owned, Acted, CallOf, LockInv, MemInv, Settled, Safe, Pending;
    var z := Apply(y, a);
    if a.Act? {
      ActPlaced(y, a.t);
    }
    PendingUpdate(y.threads, a.t, z.threads[a.t]);
  }

  // ---- Runs ------------------------------------------------------------------------------

  ghost predicate Inv(y: System) {
    LockInv(y) && MemInv(y) && OrderInv(y) && TimesInv(y) && PlacesInv(y) && CountInv(y)
  }

  lemma Step(y: System, a: Action)
    requires Inv(y) && Enabled(y, a)
    ensures Safe(y, a) && Inv(Apply(y, a))
  {
    hide LockInv, MemInv, OrderInv, TimesInv, PlacesInv, CountInv, Enabled, Safe, Apply;
    StepIsSafe(y, a);
    LockStep(y, a);
    OrderStep(y, a);
    TimesStep(y, a);
    PlacesStep(y, a);
    CountStep(y, a);
  }

  lemma EmptyMemory(y: System)
    requires NULL !in y.s.mem && y.s.table == [] && y.s.leaked == {} && y.erasing.None?
    requires forall i | 0 <= i < |y.threads| :: y.threads[i].Idle?
    ensures LockInv(y) && MemInv(y) && y.s.Contents() == map[]
  {
  }

  lemma EmptyOrder(y: System)
    requires forall i | 0 <= i < |y.threads| :: y.threads[i].Idle?
    requires y.calls == [] && y.replies == [] && y.history == []
    ensures TimesInv(y) && PlacesInv(y)
  {
  }

  lemma EmptyIsSound(y: System)
    requires NULL !in y.s.mem && y.s.table == [] && y.s.leaked == {} && y.erasing.None?
    requires forall i | 0 <= i < |y.threads| :: y.threads[i].Idle?
    requires y.calls == [] && y.replies == [] && y.history == []
    ensures Inv(y)
  {
    hide LockInv, MemInv, TimesInv, PlacesInv;
    EmptyMemory(y);
    EmptyOrder(y);
    assert OrderInv(y) && CountInv(y) by {
      NonePending(y.threads);
    }
  }

  // An empty table, the memory of its callers, and threads that have not called yet.
  function Start(mem: Memory, threads: nat): (y: System)
    requires NULL !in mem
    ensures Inv(y)
  {
    var y := Snapshot(State(mem, [], {}), None, seq(threads, _ => Idle), [], [], []);
    EmptyIsSound(y);
    y
  }

  lemma {:induction false} NonePending(threads: seq<Thread>)
    requires forall i | 0 <= i < |threads| :: threads[i].Idle?
    ensures Pending(threads) == 0
  {
    if threads != [] {
      NonePending(threads[1..]);
    }
  }

  ghost predicate Schedule(y: System, actions: seq<Action>)
    requires Inv(y)
    decreases |actions|
  {
    actions == [] || (Enabled(y, actions[0]) && (Step(y, actions[0]); Schedule(Apply(y, actions[0]), actions[1..])))
  }

  ghost function After(y: System, actions: seq<Action>): System
    requires Inv(y) && Schedule(y, actions)
    decreases |actions|
  {
    if actions == [] then y else Step(y, actions[0]); After(Apply(y, actions[0]), actions[1..])
  }

  lemma {:induction false} RunsAreSound(y: System, actions: seq<Action>)
    requires Inv(y) && Schedule(y, actions)
    ensures Inv(After(y, actions))
    decreases |actions|
  {
    hide Inv, Enabled, Apply;
    if actions != [] {
      Step(y, actions[0]);
      RunsAreSound(Apply(y, actions[0]), actions[1..]);
    }
  }

  // ---- Progress --------------------------------------------------------------------------

  function StepsLeft(th: Thread): nat {
    if th.Idle? then 0
    else
      match th.phase
      case Called => if th.op.Insert? then 5 else 4
      case Copied(_) => 4
      case Entered(_) => 3
      case Freed(_) => 2
      case Answered(_) => 1
  }

  // A step of a call brings it closer to its return and delays no other call.
  lemma StepsShorten(y: System, a: Action)
    requires Inv(y) && Enabled(y, a) && Safe(y, a) && y.threads[a.t].Active?
    ensures var z := Apply(y, a);
            && |z.threads| == |y.threads| && StepsLeft(z.threads[a.t]) < StepsLeft(y.threads[a.t])
            && forall i | 0 <= i < |y.threads| && i != a.t :: z.threads[i] == y.threads[i]
  {
    hide State.Contents, State.Valid, State.Owned, Acted, CallOf, OrderInv, PlacesInv, CountInv;
    StepGrows(y, a);
    if a.Act? {
      FindInside(y, a.t);
      ActedThreads(y, a.t);
    }
  }

  // While calls are in progress, one of them has an enabled step: the calls cannot block
  // each other for good.
  lemma SomeCallGoesOn(y: System) returns (a: Action)
    requires Inv(y) && exists i :: 0 <= i < |y.threads| && y.threads[i].Active?
    ensures a.t < |y.threads| && Enabled(y, a) && y.threads[a.t].Active?
  {
    hide OrderInv, PlacesInv, CountInv, State.Valid, EndedBefore, CallOf;
    if i :| 0 <= i < |y.threads| && Holds(y.threads[i]) {
      assert ThreadTimed(y, y.threads[i]);
      match y.threads[i].phase
      case Entered(_) => a := Act(i);
      case Freed(_) => a := Erase(i);
      case Answered(_) => a := Return(i);
    } else {
      var i :| 0 <= i < |y.threads| && y.threads[i].Active?;
      assert LockFree(y.threads, y.threads[i].op);
      if y.threads[i].phase.Called? && y.threads[i].op.Insert? {
        var at := AboveAll(y.s.mem.Keys);
        a := Copy(i, at);
      } else {
        a := Enter(i);
      }
    }
  }

  function AllStepsLeft(threads: seq<Thread>): nat {
    if threads == [] then 0 else StepsLeft(threads[0]) + AllStepsLeft(threads[1..])
  }

  lemma {:induction false} OneGoesOn(threads: seq<Thread>, later: seq<Thread>, t: nat)
    requires t < |threads| == |later| && StepsLeft(later[t]) < StepsLeft(threads[t])
    requires forall i | 0 <= i < |threads| && i != t :: later[i] == threads[i]
    ensures AllStepsLeft(later) < AllStepsLeft(threads)
  {
    hide StepsLeft;
    if t == 0 {
      assert later[1..] == threads[1..];
    } else {
      OneGoesOn(threads[1..], later[1..], t - 1);
    }
  }

  // From every reachable state all calls in progress can return.
  lemma {:induction false} CallsCanReturn(y: System) returns (actions: seq<Action>)
    requires Inv(y)
    ensures Schedule(y, actions)
    ensures forall i | 0 <= i < |After(y, actions).threads| :: After(y, actions).threads[i].Idle?
    decreases AllStepsLeft(y.threads)
  {
    hide Inv, Enabled, Safe, Apply, StepsLeft, AllStepsLeft;
    if forall i | 0 <= i < |y.threads| :: y.threads[i].Idle? {
      actions := [];
    } else {
      assert exists i :: 0 <= i < |y.threads| && y.threads[i].Active?;
      var a := SomeCallGoesOn(y);
      Step(y, a);
      StepsShorten(y, a);
      OneGoesOn(y.threads, Apply(y, a).threads, a.t);
      var rest := CallsCanReturn(Apply(y, a));
      actions := [a] + rest;
      assert actions[1..] == rest;
    }
  }

  // ---- Results ---------------------------------------------------------------------------

  // In every interleaving: a call that compares keys finds the keys of all elements live,
  // and while a freed key is in the table the Remove that freed it is inside alone.
  lemma NoFreedKeyIsCompared(mem: Memory, threads: nat, actions: seq<Action>, t: nat)
    requires NULL !in mem && Schedule(Start(mem, threads), actions)
    ensures var y := After(Start(mem, threads), actions);
            && (Enabled(y, Act(t)) ==> y.erasing.None? && y.s.Live())
            && (y.erasing.Some? ==>
                  forall i | 0 <= i < |y.threads| && i != y.erasing.value.thread :: !Holds(y.threads[i]))
  {
    hide Schedule, Inv;
    var y := After(Start(mem, threads), actions);
    RunsAreSound(Start(mem, threads), actions);
    Sound(y, t);
  }

  lemma Sound(y: System, t: nat)
    requires Inv(y)
    ensures Enabled(y, Act(t)) ==> y.erasing.None? && y.s.Live()
    ensures y.erasing.Some? ==> forall i | 0 <= i < |y.threads| && i != y.erasing.value.thread :: !Holds(y.threads[i])
  {
    hide OrderInv, TimesInv, PlacesInv, CountInv, State.Live;
    if y.erasing.Some? {
      FreedAlone(y);
    }
  }

  // In every interleaving: an Update or a Remove that is inside is inside alone.
  lemma WritersAreAlone(mem: Memory, threads: nat, actions: seq<Action>, i: nat, j: nat)
    requires NULL !in mem && Schedule(Start(mem, threads), actions)
    requires var y := After(Start(mem, threads), actions);
             && i < |y.threads| && j < |y.threads| && i != j
             && y.threads[i].Active? && (y.threads[i].op.Update? || y.threads[i].op.Remove?)
             && (y.threads[i].phase.Entered? || y.threads[i].phase.Freed? || y.threads[i].phase.Answered?)
    ensures var th := After(Start(mem, threads), actions).threads[j];
            th.Active? ==> th.phase.Called? || th.phase.Copied?
  {
    hide Schedule, Inv;
    var y := After(Start(mem, threads), actions);
    RunsAreSound(Start(mem, threads), actions);
    AloneInside(y, i, j);
  }

  lemma AloneInside(y: System, i: nat, j: nat)
    requires Inv(y) && i < |y.threads| && j < |y.threads| && i != j
    ensures HoldsAlone(y.threads[i]) ==> !Holds(y.threads[j])
  {
    hide MemInv, OrderInv, TimesInv, PlacesInv, CountInv;
  }

  // The finished calls have a sequential order: each has a place of its own in one run of a
  // plain map, its reply is the map's reply there, and a call that returned before another
  // began comes before it. When no call is in progress they fill the run, and the table
  // holds what the map holds.
  ghost predicate Sequential(y: System) {
    && (forall h | 0 <= h < |y.history| ::
          && y.history[h].pos < |y.calls| == |MapReplies(map[], y.calls)|
          && y.history[h].call == y.calls[y.history[h].pos]
          && y.history[h].reply == MapReplies(map[], y.calls)[y.history[h].pos])
    && (forall g, h | 0 <= g < h < |y.history| :: y.history[g].pos != y.history[h].pos)
    && (forall g, h | 0 <= g < |y.history| && 0 <= h < |y.history| && g < y.history[h].begun ::
          y.history[g].pos < y.history[h].pos)
    && ((forall i | 0 <= i < |y.threads| :: y.threads[i].Idle?) ==>
          && |y.calls| == |y.history| && y.erasing.None?
          && y.s.Valid() && y.s.Contents() == MapRun(map[], y.calls))
  }

  lemma HistoriesAreSequential(mem: Memory, threads: nat, actions: seq<Action>)
    requires NULL !in mem && Schedule(Start(mem, threads), actions)
    ensures Sequential(After(Start(mem, threads), actions))
  {
    hide Schedule, Inv, Sequential;
    RunsAreSound(Start(mem, threads), actions);
    InOrder(After(Start(mem, threads), actions));
  }

  lemma EraserIsActive(y: System)
    requires LockInv(y)
    ensures y.erasing.Some? ==> exists i | 0 <= i < |y.threads| :: y.threads[i].Active?
  {
    if y.erasing.Some? {
      assert IsFreed(y.threads[y.erasing.value.thread]);
    }
  }

  lemma InOrder(y: System)
    requires Inv(y)
    ensures Sequential(y)
  {
    hide State.Valid, State.Contents, MapReplies, MapRun;
    forall h | 0 <= h < |y.history|
      ensures FinishedTimed(y, y.history[h])
    {
    }
    EraserIsActive(y);
    if forall i | 0 <= i < |y.threads| :: y.threads[i].Idle? {
      NonePending(y.threads);
    }
  }
}
