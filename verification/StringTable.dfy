// The hash table that owns its keys (lib/stl_hashtable.h).

module StringTable {
  import opened Wrappers
  import opened HashString

  // Values are pointers; NO_VALUE is the NULL that stands for an absent key.
  type Value = nat
  const NO_VALUE: Value := 0

  datatype Entry = Entry(key: String, value: Value)

  // The memory, the elements of the unordered_map in some order, and the copies made for
  // keys that were there already, to which nothing points any more.
  datatype State = State(mem: Memory, table: seq<Entry>, leaked: set<Addr>)
  {
    // Every key points to a live block, with its hash and length.
    ghost predicate Live() {
      forall i | 0 <= i < |table| :: Describes(table[i].key, mem)
    }

    // The text of the i-th key.
    ghost function TextAt(i: nat): Text
      requires i < |table| && Live()
    {
      assert Describes(table[i].key, mem);
      mem[table[i].key.value]
    }

    // No two keys share a block.
    ghost predicate BlocksApart() {
      forall i, j | 0 <= i < j < |table| :: table[i].key.value != table[j].key.value
    }

    // No two keys have one text.
    ghost predicate TextsApart()
      requires Live()
    {
      forall i, j | 0 <= i < j < |table| :: TextAt(i) != TextAt(j)
    }

    ghost function Stored(): set<Addr> {
      set i | 0 <= i < |table| :: table[i].key.value
    }

    // The blocks the table has allocated and not freed.
    ghost function Owned(): set<Addr> {
      Stored() + leaked
    }

    ghost predicate Valid() {
      NULL !in mem && Live() && BlocksApart() && TextsApart() && leaked <= mem.Keys && Stored() !! leaked
    }

    // The plain map the table stands for.
    ghost function Contents(): map<Text, Value>
      requires Live() && TextsApart()
    {
      map i | 0 <= i < |table| :: TextAt(i) := table[i].value
    }
  }

  // ---- The operations -----------------------------------------------------------------

  // The element whose key is equal to s.
  function Find(mem: Memory, table: seq<Entry>, s: String): (r: Option<nat>)
    requires s.value in mem && forall i | 0 <= i < |table| :: table[i].key.value in mem
    ensures r.Some? ==> r.value < |table|
  {
    if table == [] then None
    else if Same(mem, table[0].key, s) then Some(0)
    else
      match Find(mem, table[1..], s)
      case None => None
      case Some(i) => Some(i + 1)
  }

  lemma {:induction false} FindIsFirst(mem: Memory, table: seq<Entry>, s: String)
    requires s.value in mem && forall i | 0 <= i < |table| :: table[i].key.value in mem
    ensures var r := Find(mem, table, s);
            && (r.None? ==> forall i | 0 <= i < |table| :: !Same(mem, table[i].key, s))
            && (r.Some? ==> r.value < |table| && Same(mem, table[r.value].key, s))
  {
    if table != [] {
      FindIsFirst(mem, table[1..], s);
    }
  }

  // What the map has under the text at the address, and where.
  lemma FindAgrees(s: State, key: Addr)
    requires s.Valid() && key in s.mem
    ensures var r := Find(s.mem, s.table, Wrap(s.mem, key));
            && (r.None? <==> s.mem[key] !in s.Contents())
            && (r.Some? ==> r.value < |s.table| && s.TextAt(r.value) == s.mem[key]
                            && s.Contents()[s.mem[key]] == s.table[r.value].value)
  {
    hide Sdbm;
    FindIsFirst(s.mem, s.table, Wrap(s.mem, key));
  }

  // Copy allocates the block at an address that is free, then the map is asked to insert.
  function AfterInsert(s: State, key: Addr, value: Value, at: Addr): State
    requires key in s.mem && at !in s.mem && forall i | 0 <= i < |s.table| :: s.table[i].key.value in s.mem
  {
    var mem := s.mem[at := s.mem[key]];
    var copy := Wrap(mem, at);
    if Find(mem, s.table, copy).None? then State(mem, s.table + [Entry(copy, value)], s.leaked)
    else State(mem, s.table, s.leaked + {at})
  }

  function AfterUpdate(s: State, key: Addr, value: Value): State
    requires key in s.mem && forall i | 0 <= i < |s.table| :: s.table[i].key.value in s.mem
  {
    match Find(s.mem, s.table, Wrap(s.mem, key))
    case None => s
    case Some(i) => State(s.mem, s.table[i := Entry(s.table[i].key, value)], s.leaked)
  }

  function AfterRemove(s: State, key: Addr): State
    requires key in s.mem && forall i | 0 <= i < |s.table| :: s.table[i].key.value in s.mem
  {
    match Find(s.mem, s.table, Wrap(s.mem, key))
    case None => s
    case Some(i) => State(s.mem - {s.table[i].key.value}, s.table[..i] + s.table[i + 1..], s.leaked)
  }

  function Looked(m: map<Text, Value>, t: Text): Value {
    if t in m then m[t] else NO_VALUE
  }

  lemma ContentsAt(s: State, i: nat)
    requires s.Live() && s.TextsApart() && i < |s.table|
    ensures s.TextAt(i) in s.Contents() && s.Contents()[s.TextAt(i)] == s.table[i].value
  {
    hide Describes;
  }

  // The map is determined by the entries.
  lemma ContentsIs(s: State, m: map<Text, Value>)
    requires s.Live() && s.TextsApart()
    requires forall i | 0 <= i < |s.table| :: s.TextAt(i) in m && m[s.TextAt(i)] == s.table[i].value
    requires forall t | t in m :: exists i | 0 <= i < |s.table| :: s.TextAt(i) == t
    ensures s.Contents() == m
  {
    hide Describes, State.TextAt;
    forall t
      ensures t in s.Contents() <==> t in m
      ensures t in s.Contents() ==> s.Contents()[t] == m[t]
    {
      if t in s.Contents() {
        var i :| 0 <= i < |s.table| && s.TextAt(i) == t;
        ContentsAt(s, i);
      }
    }
  }

  lemma SameEntriesSameContents(a: State, b: State)
    requires a.Live() && a.TextsApart() && b.Live() && |a.table| == |b.table|
    requires forall i | 0 <= i < |a.table| :: a.TextAt(i) == b.TextAt(i) && a.table[i].value == b.table[i].value
    ensures b.TextsApart() && a.Contents() == b.Contents()
  {
    hide Describes, State.TextAt;
    assert b.TextsApart();
    forall i | 0 <= i < |b.table|
      ensures b.TextAt(i) in a.Contents() && a.Contents()[b.TextAt(i)] == b.table[i].value
    {
      ContentsAt(a, i);
    }
    forall t | t in a.Contents()
      ensures exists i | 0 <= i < |b.table| :: b.TextAt(i) == t
    {
      var i :| 0 <= i < |a.table| && a.TextAt(i) == t;
      assert b.TextAt(i) == t;
    }
    ContentsIs(b, a.Contents());
  }

  // A new block changes neither the table nor its map.
  lemma Allocate(s: State, at: Addr, t: Text)
    requires s.Valid() && at !in s.mem && at != NULL
    ensures var grown := State(s.mem[at := t], s.table, s.leaked);
            grown.Valid() && grown.Contents() == s.Contents()
  {
    hide Sdbm;
    var grown := State(s.mem[at := t], s.table, s.leaked);
    forall i | 0 <= i < |s.table|
      ensures Describes(s.table[i].key, grown.mem) && grown.TextAt(i) == s.TextAt(i)
    {
      assert Describes(s.table[i].key, s.mem);
    }
    SameEntriesSameContents(grown, s);
  }

  // Linking a block whose text is not in the table.
  lemma Link(s: State, at: Addr, value: Value)
    requires s.Valid() && at in s.mem && at !in s.Owned() && s.mem[at] !in s.Contents()
    ensures var after := State(s.mem, s.table + [Entry(Wrap(s.mem, at), value)], s.leaked);
            && after.Valid()
            && after.Contents() == s.Contents()[s.mem[at] := value]
            && after.Owned() == s.Owned() + {at}
  {
    hide Sdbm;
    var n := |s.table|;
    var after := State(s.mem, s.table + [Entry(Wrap(s.mem, at), value)], s.leaked);
    assert after.table[n].key.value == at;
    assert forall i | 0 <= i < n :: after.table[i] == s.table[i];
    assert after.Live();
    LinkedBlocks(s, after);
    LinkedTexts(s, after);
  }

  lemma LinkedBlocks(s: State, after: State)
    requires |after.table| == |s.table| + 1 && forall i | 0 <= i < |s.table| :: after.table[i] == s.table[i]
    requires s.BlocksApart() && after.table[|s.table|].key.value !in s.Stored()
    ensures after.BlocksApart() && after.Stored() == s.Stored() + {after.table[|s.table|].key.value}
  {
    assert forall i | 0 <= i < |s.table| :: s.table[i].key.value in s.Stored();
  }

  lemma LinkedTexts(s: State, after: State)
    requires |after.table| == |s.table| + 1 && forall i | 0 <= i < |s.table| :: after.table[i] == s.table[i]
    requires after.mem == s.mem && s.Live() && after.Live()
    requires s.TextsApart() && after.TextAt(|s.table|) !in s.Contents()
    ensures after.TextsApart()
    ensures after.Contents() == s.Contents()[after.TextAt(|s.table|) := after.table[|s.table|].value]
  {
    hide Describes;
    forall i | 0 <= i < |s.table|
      ensures after.TextAt(i) == s.TextAt(i) && s.TextAt(i) in s.Contents()
    {
    }
    assert after.TextsApart();
    LinkedContents(s, after);
  }

  lemma LinkedContents(s: State, after: State)
    requires |after.table| == |s.table| + 1 && forall i | 0 <= i < |s.table| :: after.table[i].value == s.table[i].value
    requires s.Live() && after.Live() && s.TextsApart() && after.TextsApart()
    requires forall i | 0 <= i < |s.table| :: after.TextAt(i) == s.TextAt(i)
    ensures after.Contents() == s.Contents()[after.TextAt(|s.table|) := after.table[|s.table|].value]
  {
    hide Describes, State.TextAt;
    var n := |s.table|;
    var m := s.Contents()[after.TextAt(n) := after.table[n].value];
    forall i | 0 <= i <= n
      ensures after.TextAt(i) in m && m[after.TextAt(i)] == after.table[i].value
    {
      if i < n {
        ContentsAt(s, i);
      }
    }
    forall t | t in m
      ensures exists i | 0 <= i <= n :: after.TextAt(i) == t
    {
      if t != after.TextAt(n) {
        var i :| 0 <= i < n && s.TextAt(i) == t;
        assert after.TextAt(i) == t;
      }
    }
    ContentsIs(after, m);
  }

  // Insert adds the text unless it is there. Its copy is in the table or leaked.
  lemma InsertAgrees(s: State, key: Addr, value: Value, at: Addr)
    requires s.Valid() && key in s.mem && at !in s.mem && at != NULL
    ensures var t := s.mem[key];
            var after := AfterInsert(s, key, value, at);
            && after.Valid()
            && after.Contents() == (if t in s.Contents() then s.Contents() else s.Contents()[t := value])
            && after.mem == s.mem[at := t]
            && after.leaked == (if t in s.Contents() then s.leaked + {at} else s.leaked)
            && |after.table| == |s.table| + (if t in s.Contents() then 0 else 1)
            && after.Owned() == s.Owned() + {at}
  {
    hide Describes, Wrap, Find, State.Contents, State.TextsApart, State.Live;
    var t := s.mem[key];
    var grown := State(s.mem[at := t], s.table, s.leaked);
    Allocate(s, at, t);
    FindAgrees(grown, at);
    OwnedIsLive(s);
    if t in s.Contents() {
      Leak(grown, at);
    } else {
      Link(grown, at, value);
    }
  }

  // A copy that is not linked stays allocated, unreachable from the table.
  lemma Leak(s: State, at: Addr)
    requires s.Valid() && at in s.mem && at !in s.Owned()
    ensures var after := State(s.mem, s.table, s.leaked + {at});
            after.Valid() && after.Contents() == s.Contents()
  {
    hide Describes;
    var after := State(s.mem, s.table, s.leaked + {at});
    assert forall i | 0 <= i < |s.table| :: after.TextAt(i) == s.TextAt(i);
    SameEntriesSameContents(s, after);
  }

  lemma OwnedIsLive(s: State)
    requires s.Valid()
    ensures s.Owned() <= s.mem.Keys && s.Stored() !! s.leaked
  {
    hide Wrap;
  }

  // Update changes the value of a text that is there, and nothing else.
  lemma UpdateAgrees(s: State, key: Addr, value: Value)
    requires s.Valid() && key in s.mem
    ensures var t := s.mem[key];
            var after := AfterUpdate(s, key, value);
            && after.Valid()
            && after.Contents() == (if t in s.Contents() then s.Contents()[t := value] else s.Contents())
            && after.mem == s.mem && after.leaked == s.leaked && |after.table| == |s.table|
            && after.Owned() == s.Owned()
  {
    hide Sdbm, Find, State.Contents, State.TextsApart, State.BlocksApart, State.TextAt;
    FindAgrees(s, key);
    if s.mem[key] in s.Contents() {
      UpdateAt(s, Find(s.mem, s.table, Wrap(s.mem, key)).value, value);
    }
  }

  lemma UpdateAt(s: State, k: nat, value: Value)
    requires s.Valid() && k < |s.table|
    ensures var after := State(s.mem, s.table[k := Entry(s.table[k].key, value)], s.leaked);
            && after.Valid() && after.Owned() == s.Owned()
            && after.Contents() == s.Contents()[s.TextAt(k) := value]
  {
    hide Describes;
    var after := State(s.mem, s.table[k := Entry(s.table[k].key, value)], s.leaked);
    assert forall i | 0 <= i < |s.table| :: after.table[i].key == s.table[i].key;
    assert after.Stored() == s.Stored();
    assert forall i | 0 <= i < |s.table| :: after.TextAt(i) == s.TextAt(i);
    assert after.TextsApart();
    UpdatedContents(s, after, k);
  }

  lemma UpdatedContents(s: State, after: State, k: nat)
    requires s.Live() && s.TextsApart() && after.Live() && after.TextsApart() && |after.table| == |s.table|
    requires k < |s.table|
    requires forall i | 0 <= i < |s.table| :: after.TextAt(i) == s.TextAt(i)
    requires forall i | 0 <= i < |s.table| && i != k :: after.table[i].value == s.table[i].value
    ensures after.Contents() == s.Contents()[s.TextAt(k) := after.table[k].value]
  {
    hide Describes, State.TextAt;
    var m := s.Contents()[s.TextAt(k) := after.table[k].value];
    forall i | 0 <= i < |s.table|
      ensures after.TextAt(i) in m && m[after.TextAt(i)] == after.table[i].value
    {
      ContentsAt(s, i);
    }
    forall t | t in m
      ensures exists i | 0 <= i < |after.table| :: after.TextAt(i) == t
    {
      if t in s.Contents() {
        var i :| 0 <= i < |s.table| && s.TextAt(i) == t;
        assert after.TextAt(i) == t;
      } else {
        assert after.TextAt(k) == t;
      }
    }
    ContentsIs(after, m);
  }

  // Remove frees the block of a text that is there and drops the text.
  lemma RemoveAgrees(s: State, key: Addr)
    requires s.Valid() && key in s.mem
    ensures var t := s.mem[key];
            var after := AfterRemove(s, key);
            && after.Valid()
            && after.Contents() == s.Contents() - {t}
            && after.leaked == s.leaked
            && |after.table| == |s.table| - (if t in s.Contents() then 1 else 0)
            && (t !in s.Contents() ==> after == s)
            && (t in s.Contents() ==>
                  exists p | p in s.Stored() :: after.mem == s.mem - {p} && after.Owned() == s.Owned() - {p})
  {
    hide Sdbm, Find, State.Contents, State.TextsApart, State.BlocksApart, State.TextAt;
    FindAgrees(s, key);
    if s.mem[key] in s.Contents() {
      var k := Find(s.mem, s.table, Wrap(s.mem, key)).value;
      RemoveAt(s, k);
      assert s.table[k].key.value in s.Stored();
    }
  }

  lemma RemoveAt(s: State, k: nat)
    requires s.Valid() && k < |s.table|
    ensures var p := s.table[k].key.value;
            var after := State(s.mem - {p}, s.table[..k] + s.table[k + 1..], s.leaked);
            && after.Valid() && after.Owned() == s.Owned() - {p}
            && after.Contents() == s.Contents() - {s.TextAt(k)}
  {
    var p := s.table[k].key.value;
    var after := State(s.mem - {p}, s.table[..k] + s.table[k + 1..], s.leaked);
    RemovedEntries(s, k);
    RemovedBlocks(s, after, k);
    RemovedLive(s, after, k);
    RemovedContents(s, after, k);
    assert p in s.Stored();
  }

  // Where an entry was before the removal.
  function Was(k: nat, i: nat): nat {
    if i < k then i else i + 1
  }

  lemma RemovedEntries(s: State, k: nat)
    requires k < |s.table|
    ensures var table := s.table[..k] + s.table[k + 1..];
            forall i | 0 <= i < |s.table| - 1 :: table[i] == s.table[Was(k, i)]
  {
  }

  lemma RemovedBlocks(s: State, after: State, k: nat)
    requires k < |s.table| && |after.table| == |s.table| - 1
    requires forall i | 0 <= i < |s.table| - 1 :: after.table[i] == s.table[Was(k, i)]
    requires s.BlocksApart()
    ensures after.BlocksApart() && after.Stored() == s.Stored() - {s.table[k].key.value}
  {
    forall p | p in s.Stored() && p != s.table[k].key.value
      ensures p in after.Stored()
    {
      var j :| 0 <= j < |s.table| && s.table[j].key.value == p;
      var i := if j < k then j else j - 1;
      assert after.table[i] == s.table[Was(k, i)] && Was(k, i) == j;
    }
  }

  lemma RemovedLive(s: State, after: State, k: nat)
    requires k < |s.table| && |after.table| == |s.table| - 1
    requires forall i | 0 <= i < |s.table| - 1 :: after.table[i] == s.table[Was(k, i)]
    requires s.Live() && s.BlocksApart() && s.TextsApart() && after.mem == s.mem - {s.table[k].key.value}
    ensures after.Live() && after.TextsApart()
    ensures forall i | 0 <= i < |after.table| :: after.TextAt(i) == s.TextAt(Was(k, i))
  {
    hide Sdbm;
    forall i | 0 <= i < |after.table|
      ensures Describes(after.table[i].key, after.mem)
      ensures after.mem[after.table[i].key.value] == s.TextAt(Was(k, i))
    {
      assert Describes(s.table[Was(k, i)].key, s.mem);
    }
    assert after.Live();
    forall i, j | 0 <= i < j < |after.table|
      ensures after.TextAt(i) != after.TextAt(j)
    {
      assert s.TextAt(Was(k, i)) != s.TextAt(Was(k, j));
    }
  }

  lemma RemovedContents(s: State, after: State, k: nat)
    requires k < |s.table| && |after.table| == |s.table| - 1
    requires forall i | 0 <= i < |s.table| - 1 :: after.table[i] == s.table[Was(k, i)]
    requires s.Live() && s.TextsApart() && after.Live() && after.TextsApart()
    requires forall i | 0 <= i < |after.table| :: after.TextAt(i) == s.TextAt(Was(k, i))
    ensures after.Contents() == s.Contents() - {s.TextAt(k)}
  {
    hide Describes, State.TextAt;
    var m := s.Contents() - {s.TextAt(k)};
    forall i | 0 <= i < |after.table|
      ensures after.TextAt(i) in m && m[after.TextAt(i)] == after.table[i].value
    {
      ContentsAt(s, Was(k, i));
    }
    forall t | t in m
      ensures exists i | 0 <= i < |after.table| :: after.TextAt(i) == t
    {
      var j :| 0 <= j < |s.table| && s.TextAt(j) == t;
      var i := if j < k then j else j - 1;
      assert Was(k, i) == j && after.TextAt(i) == t;
    }
    ContentsIs(after, m);
  }

  // ---- Runs ----------------------------------------------------------------------------

  // Calls on the table. malloc gives a copied key the address at. Between calls the rest
  // of the program may change all memory the table does not own.
  datatype Call =
    | Get(key: Addr)
    | Insert(key: Addr, value: Value, at: Addr)
    | Update(key: Addr, value: Value)
    | Remove(key: Addr)
    | Outside(mem: Memory)

  datatype Reply = Pointer(value: Value) | Flag(inserted: bool) | Nothing

  // Insert takes NULL; the others assert that the key is not NULL.
  ghost predicate Allowed(s: State, c: Call) {
    match c
    case Get(key) => key in s.mem
    case Insert(key, _, at) => key == NULL || (key in s.mem && at !in s.mem && at != NULL)
    case Update(key, _) => key in s.mem
    case Remove(key) => key in s.mem
    case Outside(mem) => NULL !in mem && forall p | p in s.Owned() && p in s.mem :: p in mem && mem[p] == s.mem[p]
  }

  ghost function Perform(s: State, c: Call): State
    requires s.Valid() && Allowed(s, c)
  {
    match c
    case Get(_) => s
    case Insert(key, value, at) => if key == NULL then s else AfterInsert(s, key, value, at)
    case Update(key, value) => AfterUpdate(s, key, value)
    case Remove(key) => AfterRemove(s, key)
    case Outside(mem) => State(mem, s.table, s.leaked)
  }

  function Pointed(s: State, key: Addr): Value
    requires key in s.mem && forall i | 0 <= i < |s.table| :: s.table[i].key.value in s.mem
  {
    match Find(s.mem, s.table, Wrap(s.mem, key))
    case None => NO_VALUE
    case Some(i) => s.table[i].value
  }

  ghost function Answer(s: State, c: Call): Reply
    requires s.Valid() && Allowed(s, c)
  {
    match c
    case Get(key) => Pointer(Pointed(s, key))
    case Insert(key, value, at) =>
      Flag(key != NULL && |AfterInsert(s, key, value, at).table| > |s.table|)
    case Update(key, _) => Pointer(Pointed(s, key))
    case Remove(key) => Pointer(Pointed(s, key))
    case Outside(_) => Nothing
  }

  // The same calls on a plain map from texts to values.
  datatype MapCall =
    | Lookup(text: Text)
    | Add(text: Text, value: Value)
    | Change(text: Text, value: Value)
    | Drop(text: Text)
    | AddNull
    | Pass

  ghost function AsMapCall(s: State, c: Call): MapCall
    requires Allowed(s, c)
  {
    match c
    case Get(key) => Lookup(s.mem[key])
    case Insert(key, value, _) => if key == NULL then AddNull else Add(s.mem[key], value)
    case Update(key, value) => Change(s.mem[key], value)
    case Remove(key) => Drop(s.mem[key])
    case Outside(_) => Pass
  }

  function MapAfter(m: map<Text, Value>, c: MapCall): map<Text, Value> {
    match c
    case Lookup(_) => m
    case Add(t, v) => if t in m then m else m[t := v]
    case Change(t, v) => if t in m then m[t := v] else m
    case Drop(t) => m - {t}
    case AddNull => m
    case Pass => m
  }

  function MapReply(m: map<Text, Value>, c: MapCall): Reply {
    match c
    case Lookup(t) => Pointer(Looked(m, t))
    case Add(t, v) => Flag(t !in m)
    case Change(t, v) => Pointer(Looked(m, t))
    case Drop(t) => Pointer(Looked(m, t))
    case AddNull => Flag(false)
    case Pass => Nothing
  }

  lemma PointedAgrees(s: State, key: Addr)
    requires s.Valid() && key in s.mem
    ensures Pointed(s, key) == Looked(s.Contents(), s.mem[key])
  {
    hide Sdbm, Find, State.Contents, State.TextsApart, State.BlocksApart, State.TextAt;
    FindAgrees(s, key);
  }

  lemma OutsideAgrees(s: State, mem: Memory)
    requires s.Valid() && Allowed(s, Outside(mem))
    ensures var after := State(mem, s.table, s.leaked);
            after.Valid() && after.Contents() == s.Contents() && after.Owned() == s.Owned()
  {
    hide Sdbm;
    var after := State(mem, s.table, s.leaked);
    forall i | 0 <= i < |s.table|
      ensures Describes(s.table[i].key, mem) && mem[s.table[i].key.value] == s.TextAt(i)
    {
      assert s.table[i].key.value in s.Stored();
      assert Describes(s.table[i].key, s.mem);
    }
    assert after.Live();
    SameEntriesSameContents(s, after);
  }

  // Each call answers and changes the contents as it would on a plain map.
  lemma CallAgrees(s: State, c: Call)
    requires s.Valid() && Allowed(s, c)
    ensures Perform(s, c).Valid()
    ensures Perform(s, c).Contents() == MapAfter(s.Contents(), AsMapCall(s, c))
    ensures Answer(s, c) == MapReply(s.Contents(), AsMapCall(s, c))
  {
    hide Sdbm, Find, State.Contents, State.TextsApart, State.BlocksApart, State.TextAt;
    hide AfterInsert, AfterUpdate, AfterRemove, Pointed, Looked;
    match c
    case Get(key) =>
      PointedAgrees(s, key);
    case Insert(key, value, at) =>
      if key != NULL {
        InsertAgrees(s, key, value, at);
      }
    case Update(key, value) =>
      PointedAgrees(s, key);
      UpdateAgrees(s, key, value);
    case Remove(key) =>
      PointedAgrees(s, key);
      RemoveAgrees(s, key);
    case Outside(mem) =>
      OutsideAgrees(s, mem);
  }

  // A sequence of calls each of which is allowed when its turn comes.
  ghost predicate Runs(s: State, calls: seq<Call>)
    requires s.Valid()
    decreases |calls|
  {
    calls == [] || (Allowed(s, calls[0]) && (CallAgrees(s, calls[0]); Runs(Perform(s, calls[0]), calls[1..])))
  }

  ghost function After(s: State, calls: seq<Call>): State
    requires s.Valid() && Runs(s, calls)
    decreases |calls|
  {
    if calls == [] then s else CallAgrees(s, calls[0]); After(Perform(s, calls[0]), calls[1..])
  }

  ghost function Answers(s: State, calls: seq<Call>): seq<Reply>
    requires s.Valid() && Runs(s, calls)
    decreases |calls|
  {
    if calls == [] then []
    else CallAgrees(s, calls[0]); [Answer(s, calls[0])] + Answers(Perform(s, calls[0]), calls[1..])
  }

  ghost function AsMapCalls(s: State, calls: seq<Call>): seq<MapCall>
    requires s.Valid() && Runs(s, calls)
    decreases |calls|
  {
    if calls == [] then []
    else CallAgrees(s, calls[0]); [AsMapCall(s, calls[0])] + AsMapCalls(Perform(s, calls[0]), calls[1..])
  }

  function MapRun(m: map<Text, Value>, calls: seq<MapCall>): map<Text, Value>
    decreases |calls|
  {
    if calls == [] then m else MapRun(MapAfter(m, calls[0]), calls[1..])
  }

  function MapReplies(m: map<Text, Value>, calls: seq<MapCall>): seq<Reply>
    decreases |calls|
  {
    if calls == [] then [] else [MapReply(m, calls[0])] + MapReplies(MapAfter(m, calls[0]), calls[1..])
  }

  // Additions refused because the text was there.
  function Refused(m: map<Text, Value>, calls: seq<MapCall>): nat
    decreases |calls|
  {
    if calls == [] then 0
    else (if calls[0].Add? && calls[0].text in m then 1 else 0) + Refused(MapAfter(m, calls[0]), calls[1..])
  }

  // Every run of the table is a run of a plain map on the texts of the keys.
  lemma {:induction false} RunAgrees(s: State, calls: seq<Call>)
    requires s.Valid() && Runs(s, calls)
    ensures After(s, calls).Valid()
    ensures After(s, calls).Contents() == MapRun(s.Contents(), AsMapCalls(s, calls))
    ensures Answers(s, calls) == MapReplies(s.Contents(), AsMapCalls(s, calls))
    decreases |calls|
  {
    hide State.Valid, State.Contents, Allowed, Perform, Answer, AsMapCall, MapAfter, MapReply;
    if calls != [] {
      CallAgrees(s, calls[0]);
      RunAgrees(Perform(s, calls[0]), calls[1..]);
    }
  }

  lemma {:induction false} DistinctCount<T>(items: seq<T>, all: set<T>)
    requires forall i, j | 0 <= i < j < |items| :: items[i] != items[j]
    requires all == set i | 0 <= i < |items| :: items[i]
    ensures |all| == |items|
  {
    if items != [] {
      var n := |items| - 1;
      var rest := set i | 0 <= i < n :: items[..n][i];
      assert all == rest + {items[n]};
      DistinctCount(items[..n], rest);
    }
  }

  lemma StoredCount(s: State)
    requires s.BlocksApart()
    ensures |s.Stored()| == |s.table|
  {
    var items := seq(|s.table|, i requires 0 <= i < |s.table| => s.table[i].key.value);
    assert forall i | 0 <= i < |s.table| :: items[i] == s.table[i].key.value;
    assert s.Stored() == set i | 0 <= i < |items| :: items[i];
    DistinctCount(items, s.Stored());
  }

  lemma TextCount(s: State)
    requires s.Live() && s.TextsApart()
    ensures |s.Contents()| == |s.table|
  {
    hide Describes, State.TextAt;
    var items := seq(|s.table|, i requires 0 <= i < |s.table| => s.TextAt(i));
    assert forall i | 0 <= i < |s.table| :: items[i] == s.TextAt(i);
    assert s.Contents().Keys == set i | 0 <= i < |items| :: items[i];
    DistinctCount(items, s.Contents().Keys);
  }

  // The blocks the table owns are those of its keys and those of its leaked copies.
  lemma OwnedCount(s: State)
    requires s.Valid()
    ensures |s.Owned()| == |s.table| + |s.leaked| && |s.table| == |s.Contents()| && s.Owned() <= s.mem.Keys
  {
    hide Sdbm;
    OwnedIsLive(s);
    StoredCount(s);
    TextCount(s);
  }

  lemma InsertLeaks(s: State, key: Addr, value: Value, at: Addr)
    requires s.Valid() && Allowed(s, Insert(key, value, at))
    ensures var c := Insert(key, value, at);
            |Perform(s, c).leaked| == |s.leaked| + Refused(s.Contents(), [AsMapCall(s, c)])
  {
    hide Sdbm, Find, State.Contents, State.TextsApart, State.BlocksApart, State.TextAt, State.Stored, AfterInsert;
    if key != NULL {
      InsertAgrees(s, key, value, at);
      assert at !in s.leaked;
    }
  }

  lemma UpdateLeaks(s: State, key: Addr, value: Value)
    requires s.Valid() && Allowed(s, Update(key, value))
    ensures var c := Update(key, value);
            |Perform(s, c).leaked| == |s.leaked| + Refused(s.Contents(), [AsMapCall(s, c)])
  {
    hide Sdbm, Find, State.Contents, State.TextsApart, State.BlocksApart, State.TextAt, State.Stored, AfterUpdate;
    UpdateAgrees(s, key, value);
  }

  lemma RemoveLeaks(s: State, key: Addr)
    requires s.Valid() && Allowed(s, Remove(key))
    ensures var c := Remove(key);
            |Perform(s, c).leaked| == |s.leaked| + Refused(s.Contents(), [AsMapCall(s, c)])
  {
    hide Sdbm, Find, State.Contents, State.TextsApart, State.BlocksApart, State.TextAt, State.Stored, AfterRemove;
    RemoveAgrees(s, key);
  }

  // A call leaks one block when it adds a text that is there, and none otherwise.
  lemma CallLeaks(s: State, c: Call)
    requires s.Valid() && Allowed(s, c)
    ensures |Perform(s, c).leaked| == |s.leaked| + Refused(s.Contents(), [AsMapCall(s, c)])
  {
    hide Sdbm, Find, State.Contents, State.TextsApart, State.BlocksApart, State.TextAt, State.Stored;
    hide AfterInsert, AfterUpdate, AfterRemove;
    match c
    case Insert(key, value, at) =>
      InsertLeaks(s, key, value, at);
    case Update(key, value) =>
      UpdateLeaks(s, key, value);
    case Remove(key) =>
      RemoveLeaks(s, key);
    case _ =>
  }

  lemma {:induction false} RunLeaks(s: State, calls: seq<Call>)
    requires s.Valid() && Runs(s, calls)
    ensures |After(s, calls).leaked| == |s.leaked| + Refused(s.Contents(), AsMapCalls(s, calls))
    decreases |calls|
  {
    hide State.Valid, State.Contents, Allowed, Perform, AsMapCall, MapAfter;
    if calls != [] {
      CallAgrees(s, calls[0]);
      CallLeaks(s, calls[0]);
      RunLeaks(Perform(s, calls[0]), calls[1..]);
    }
  }

  // From an empty table, the blocks the table has allocated and not freed number its
  // elements plus the additions it refused.
  lemma LiveBlocks(mem: Memory, calls: seq<Call>)
    requires NULL !in mem && Runs(State(mem, [], {}), calls)
    ensures var s := State(mem, [], {});
            var refused := Refused(map[], AsMapCalls(s, calls));
            && s.Contents() == map[]
            && After(s, calls).Valid()
            && After(s, calls).Owned() <= After(s, calls).mem.Keys
            && |After(s, calls).Owned()| == |After(s, calls).Contents()| + refused
  {
    hide Runs, After, AsMapCalls, Refused;
    var s := State(mem, [], {});
    RunAgrees(s, calls);
    RunLeaks(s, calls);
    OwnedCount(After(s, calls));
  }

  // ---- The classes ---------------------------------------------------------------------

  lemma {:induction false} AboveAll(keys: set<Addr>) returns (top: Addr)
    ensures top != NULL && forall p | p in keys :: p < top
  {
    if keys == {} {
      top := 1;
    } else {
      var p :| p in keys;
      var rest := AboveAll(keys - {p});
      top := if rest > p then rest else p + 1;
      assert forall q | q in keys :: q == p || q in keys - {p};
    }
  }

  // lib/mem_alloc.h over the blocks of the process.
  class Heap {
    var blocks: Memory

    constructor ()
      ensures blocks == map[]
    {
      blocks := map[];
    }

    // malloc and strcpy: some address not in use, holding a copy of the text.
    method Allocate(text: Text) returns (p: Addr)
      modifies this
      ensures p != NULL && p !in old(blocks) && blocks == old(blocks)[p := text]
    {
      ghost var top := AboveAll(blocks.Keys);
      assert top != NULL && top !in blocks;
      p :| p != NULL && p !in blocks;
      blocks := blocks[p := text];
    }

    // Freeing what is not live, a block freed before included, is an error.
    method Free(p: Addr)
      requires p in blocks
      modifies this
      ensures blocks == old(blocks) - {p}
    {
      blocks := blocks - {p};
    }
  }

  class StlHashtable {
    const heap: Heap
    var table: seq<Entry>
    ghost var leaked: set<Addr>

    ghost function View(): State
      reads this, heap
    {
      State(heap.blocks, table, leaked)
    }

    constructor (heap: Heap)
      requires NULL !in heap.blocks
      ensures this.heap == heap && View() == State(heap.blocks, [], {}) && View().Valid()
    {
      this.heap := heap;
      table := [];
      leaked := {};
    }

    method Get(key: Addr) returns (value: Value)
      requires View().Valid() && key in heap.blocks
      ensures Pointer(value) == Answer(View(), Call.Get(key))
      ensures value == Looked(View().Contents(), heap.blocks[key])
    {
      hide Sdbm, State.Contents, State.TextsApart, State.BlocksApart;
      PointedAgrees(View(), key);
      var pos := Find(heap.blocks, table, Wrap(heap.blocks, key));
      FindAgrees(View(), key);
      if pos.None? {
        return NO_VALUE;
      }
      value := table[pos.value].value;
    }

    method Insert(key: Addr, value: Value) returns (inserted: bool, ghost at: Addr)
      requires View().Valid() && (key == NULL || key in heap.blocks)
      modifies this, heap
      ensures Allowed(old(View()), Call.Insert(key, value, at))
      ensures View() == Perform(old(View()), Call.Insert(key, value, at)) && View().Valid()
      ensures inserted <==> key != NULL && old(heap.blocks[key] !in View().Contents())
      ensures View().Contents() == if inserted then old(View().Contents()[heap.blocks[key] := value])
                                   else old(View().Contents())
    {
      hide Sdbm, Find, State.Contents, State.TextsApart, State.BlocksApart, State.TextAt;
      if key == NULL {
        return false, NULL;
      }
      ghost var before := View();
      var copy := heap.Allocate(heap.blocks[key]);
      at := copy;
      InsertAgrees(before, key, value, at);
      var skey := Wrap(heap.blocks, copy);
      var pos := Find(heap.blocks, table, skey);
      if pos.None? {
        table := table + [Entry(skey, value)];
      } else {
        leaked := leaked + {at};
      }
      inserted := pos.None?;
    }

    method Update(key: Addr, value: Value) returns (was: Value)
      requires View().Valid() && key in heap.blocks
      modifies this
      ensures View() == AfterUpdate(old(View()), key, value) && View().Valid()
      ensures View().Contents() == old(if heap.blocks[key] in View().Contents()
                                       then View().Contents()[heap.blocks[key] := value] else View().Contents())
      ensures was == old(Looked(View().Contents(), heap.blocks[key]))
    {
      hide Sdbm, State.Contents, State.TextsApart, State.BlocksApart;
      ghost var before := View();
      PointedAgrees(before, key);
      UpdateAgrees(before, key, value);
      var pos := Find(heap.blocks, table, Wrap(heap.blocks, key));
      FindAgrees(before, key);
      if pos.None? {
        return NO_VALUE;
      }
      was := table[pos.value].value;
      table := table[pos.value := Entry(table[pos.value].key, value)];
    }

    method Remove(key: Addr) returns (was: Value)
      requires View().Valid() && key in heap.blocks
      modifies this, heap
      ensures View() == AfterRemove(old(View()), key) && View().Valid()
      ensures View().Contents() == old(View().Contents() - {heap.blocks[key]})
      ensures was == old(Looked(View().Contents(), heap.blocks[key]))
    {
      hide Sdbm, State.Contents, State.TextsApart, State.BlocksApart;
      ghost var before := View();
      PointedAgrees(before, key);
      RemoveAgrees(before, key);
      var pos := Find(heap.blocks, table, Wrap(heap.blocks, key));
      FindAgrees(before, key);
      if pos.None? {
        return NO_VALUE;
      }
      heap.Free(table[pos.value].key.value);
      was := table[pos.value].value;
      table := table[..pos.value] + table[pos.value + 1..];
    }
  }
}
