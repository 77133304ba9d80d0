/**
 Who can reach the store's mutable objects (desktop/store.go, desktop/agents.go). A row stands for a metric
 sample, an agent session or an agent event: plain fields, a slice of strings and a map of strings, either of them
 possibly nil. Whoever holds a reference to a list of rows, a slice or a map can write through it.
 */
module StoreSharing {
  import opened Wrappers
  import opened Sequences

  class StringMap {
    var entries: map<string, string>

    constructor ()
      ensures entries == map[]
    {
      entries := map[];
    }
  }

  /** Apart from the identifier, sequence and start of a session, `body` stands for all plain fields. */
  datatype Row = Row(
    id: string, sequence: nat, startedAt: int, body: string, words: array?<string>, labels: StringMap?)

  class RowList {
    var items: seq<Row>

    constructor (items: seq<Row>)
      ensures this.items == items
    {
      this.items := items;
    }
  }

  /** A row as the values it denotes right now. */
  datatype Plain = Plain(
    id: string, sequence: nat, startedAt: int, body: string, words: Option<seq<string>>,
    labels: Option<map<string, string>>)

  function AllWords(items: seq<Row>): set<array<string>> {
    set i | 0 <= i < |items| && items[i].words != null :: items[i].words
  }

  function AllLabels(items: seq<Row>): set<StringMap> {
    set i | 0 <= i < |items| && items[i].labels != null :: items[i].labels
  }

  function PlainOf(row: Row): Plain
    reads row.words, row.labels
  {
    Plain(row.id, row.sequence, row.startedAt, row.body, if row.words == null then None else Some(row.words[..]),
          if row.labels == null then None else Some(row.labels.entries))
  }

  function Value(items: seq<Row>): (r: seq<Plain>)
    reads AllWords(items), AllLabels(items)
    ensures |r| == |items| && forall i | 0 <= i < |items| :: r[i] == PlainOf(items[i])
  {
    seq(|items|, i requires 0 <= i < |items| reads AllWords(items), AllLabels(items) => PlainOf(items[i]))
  }

  method CloneStringMap(source: StringMap?) returns (copy: StringMap?)
    ensures copy == null <==> source == null
    ensures copy != null ==> fresh(copy) && copy.entries == source.entries
  {
    if source == null {
      return null;
    }
    copy := new StringMap();
    var rest := source.entries.Keys;
    while rest != {}
      invariant rest <= source.entries.Keys && fresh(copy)
      invariant copy.entries.Keys == source.entries.Keys - rest
      invariant forall k | k in copy.entries :: copy.entries[k] == source.entries[k]
      decreases |rest|
    {
      var k :| k in rest;
      copy.entries := copy.entries[k := source.entries[k]];
      rest := rest - {k};
    }
  }

  /** `append([]string(nil), source...)`: of no words it makes nil. */
  method CloneWords(source: array?<string>) returns (copy: array?<string>)
    ensures copy == null <==> source == null || source.Length == 0
    ensures copy != null ==> fresh(copy) && copy[..] == source[..]
  {
    if source == null || source.Length == 0 {
      return null;
    }
    copy := new string[source.Length](i requires 0 <= i < source.Length reads source => source[i]);
  }

  /** A value as it looks after cloning. */
  function Cloned(p: Plain): (r: Plain)
    ensures r == p.(words := r.words) && (p.words != Some([]) ==> r.words == p.words)
  {
    if p.words == Some([]) then p.(words := None) else p
  }

  /** The objects behind the row, or the rows, were all made since. */
  twostate predicate New(new row: Row) {
    (row.words != null ==> fresh(row.words)) && (row.labels != null ==> fresh(row.labels))
  }

  twostate predicate AllNew(new items: seq<Row>) {
    forall i | 0 <= i < |items| :: New(items[i])
  }

  method CloneRow(row: Row) returns (copy: Row)
    ensures New(copy) && PlainOf(copy) == Cloned(PlainOf(row))
  {
    var words := CloneWords(row.words);
    var labels := CloneStringMap(row.labels);
    copy := row.(words := words, labels := labels);
    if row.words != null && row.words.Length == 0 {
      assert row.words[..] == [];
    }
  }

  /** The copy denotes the same rows and shares no object with anything there was before. */
  method CloneRows(items: seq<Row>) returns (copy: seq<Row>)
    ensures AllNew(copy) && |copy| == |items|
    ensures forall i | 0 <= i < |items| :: PlainOf(copy[i]) == Cloned(old(PlainOf(items[i])))
  {
    copy := items;
    for i := 0 to |items|
      invariant |copy| == |items|
      invariant forall j | 0 <= j < i :: New(copy[j]) && PlainOf(copy[j]) == Cloned(PlainOf(items[j]))
      invariant forall j | i <= j < |items| :: copy[j] == items[j]
    {
      var row := CloneRow(copy[i]);
      copy := copy[i := row];
    }
  }

  function AllCloned(ps: seq<Plain>): (r: seq<Plain>)
    ensures |r| == |ps| && forall i | 0 <= i < |ps| :: r[i] == Cloned(ps[i])
  {
    seq(|ps|, i requires 0 <= i < |ps| => Cloned(ps[i]))
  }

  /** Everything that can be written through a list of rows. */
  function Reach(list: RowList): set<object>
    reads list
  {
    {list} + AllWords(list.items) + AllLabels(list.items)
  }

  /** The store's rows. Its lock makes every method one step. */
  class RowStore {
    var list: RowList

    constructor ()
      ensures fresh(Reach(list)) && Value(list.items) == []
    {
      list := new RowList([]);
    }

    /** `getMetrics`, `getAgents`: the caller gets objects of its own. */
    method Get() returns (copy: RowList)
      ensures fresh(Reach(copy)) && Value(copy.items) == AllCloned(Value(list.items))
    {
      var items := CloneRows(list.items);
      copy := new RowList(items);
    }

    /** `saveAgents`: the store keeps objects of its own. */
    method Save(v: RowList)
      modifies this
      ensures fresh(Reach(list)) && Value(list.items) == AllCloned(old(Value(v.items)))
    {
      var items := CloneRows(v.items);
      list := new RowList(items);
    }

    /** `addMetric`, up to its window: the earlier samples are cloned and so are the labels of the new one. */
    method Add(row: Row)
      modifies this
      ensures fresh(Reach(list))
      ensures Value(list.items) == AllCloned(old(Value(list.items + [row])))
    {
      var items := CloneRows(list.items + [row]);
      list := new RowList(items);
    }

    /** The snapshot is cloned and takes the place of what is stored. */
    method Renew()
      modifies this
      ensures fresh(list) && AllNew(list.items) && Value(list.items) == AllCloned(old(Value(list.items)))
    {
      var items := CloneRows(list.items);
      list := new RowList(items);
    }

    /** The snapshot is cloned, and the row goes into it as it is: in the place `k`, or behind the others. */
    method Put(k: nat, row: Row)
      requires k <= |list.items|
      modifies this
      ensures fresh(list) && |list.items| == (if k < |old(list.items)| then |old(list.items)| else k + 1)
      ensures Holds(list.items, k, row)
      ensures Value(list.items) == PutIn(AllCloned(old(Value(list.items))), k, PlainOf(row))
    {
      var items := CloneRows(list.items);
      items := if k < |items| then items[k := row] else items + [row];
      list := new RowList(items);
    }

    /**
     `upsertAgent` through `mutateAgents`: a late report changes nothing, any other takes the place of what is
     stored for its agent, keeping the start it does not name, or is appended.
     */
    method Upsert(row: Row)
      modifies this
      ensures fresh(list)
      ensures !TakesIn(old(list.items), row) ==>
                AllNew(list.items) && Value(list.items) == AllCloned(old(Value(list.items)))
      ensures TakesIn(old(list.items), row) ==>
                && Holds(list.items, Place(old(list.items), row), StoredAs(old(list.items), row))
                && Value(list.items) == Inserted(old(list.items), old(Value(list.items)), row, PlainOf(row))
    {
      hide AllCloned, PutIn, IndexWhere;
      ghost var before := list.items;
      var k := FindRow(row);
      assert Value(list.items) == old(Value(list.items));
      if k == |list.items| {
        Put(k, row);
      } else if list.items[k].sequence > 0 && (row.sequence == 0 || row.sequence <= list.items[k].sequence) {
        Renew();
      } else {
        Put(k, if row.startedAt == 0 then row.(startedAt := list.items[k].startedAt) else row);
      }
      StoredAsPlain(before, row);
    }

    /** `addAgentEvent` through `mutateAgents`: an event that is retained already changes nothing. */
    method AddEvent(row: Row)
      modifies this
      ensures fresh(list)
      ensures Kept(old(list.items), row) ==>
                AllNew(list.items) && Value(list.items) == AllCloned(old(Value(list.items)))
      ensures !Kept(old(list.items), row) ==>
                && Holds(list.items, |old(list.items)|, row)
                && Value(list.items) == AllCloned(old(Value(list.items))) + [PlainOf(row)]
    {
      hide AllCloned, IndexWhere;
      var k := FindRow(row);
      assert Value(list.items) == old(Value(list.items));
      if k < |list.items| {
        Renew();
      } else {
        Put(k, row);
      }
    }

    method FindRow(row: Row) returns (k: nat)
      ensures k == Place(list.items, row)
    {
      k := 0;
      while k < |list.items| && list.items[k].id != row.id
        invariant k <= |list.items| && forall j | 0 <= j < k :: list.items[j].id != row.id
      {
        k := k + 1;
      }
    }
  }

  function PutIn(ps: seq<Plain>, k: nat, p: Plain): seq<Plain> {
    if k < |ps| then ps[k := p] else ps + [p]
  }

  function Place(items: seq<Row>, row: Row): (k: nat)
    ensures k <= |items|
  {
    var found := IndexWhere(items, (r: Row) => r.id == row.id);
    if found.Some? then found.value else |items|
  }

  predicate Kept(items: seq<Row>, row: Row) {
    Place(items, row) < |items|
  }

  /** The report is not late: nothing is stored for its agent, or something without or with a smaller sequence. */
  predicate TakesIn(items: seq<Row>, row: Row) {
    var k := Place(items, row);
    k == |items| || items[k].sequence == 0 || row.sequence > items[k].sequence
  }

  function StoredAs(items: seq<Row>, row: Row): Row {
    var k := Place(items, row);
    if k < |items| && row.startedAt == 0 then row.(startedAt := items[k].startedAt) else row
  }

  /** `k` is where the first row of that identifier is. */
  predicate FirstAt(items: seq<Row>, id: string, k: nat) {
    k < |items| && items[k].id == id && forall j | 0 <= j < k :: items[j].id != id
  }

  /**
   Which report is taken in, and as what: late is one for an agent that is stored with a sequence, and has none or one
   that is not greater. A start the report does not name stays what is stored, and all else is the report's. An event
   is retained already iff one of its identifier is stored.
   */
  lemma TakesInIff(items: seq<Row>, row: Row)
    ensures TakesIn(items, row) <==>
              forall k: nat | FirstAt(items, row.id, k) ::
                items[k].sequence == 0 || (row.sequence != 0 && items[k].sequence < row.sequence)
    ensures Kept(items, row) <==> exists k: nat :: FirstAt(items, row.id, k)
    ensures forall k: nat | FirstAt(items, row.id, k) :: Place(items, row) == k
    ensures !Kept(items, row) ==> Place(items, row) == |items|
    ensures var stored := StoredAs(items, row);
            && stored == row.(startedAt := stored.startedAt)
            && (row.startedAt != 0 || !Kept(items, row) ==> stored == row)
            && forall k: nat | FirstAt(items, row.id, k) && row.startedAt == 0 :: stored.startedAt == items[k].startedAt
  {
    var k := Place(items, row);
    if k < |items| {
      assert FirstAt(items, row.id, k);
    }
  }

  lemma StoredAsPlain(items: seq<Row>, row: Row)
    ensures PlainOf(StoredAs(items, row)) == PlainOf(row).(startedAt := StoredAs(items, row).startedAt)
    ensures ReachOf(StoredAs(items, row)) == ReachOf(row)
  {
  }

  /** What a row refers to. */
  function ReachOf(row: Row): (array?<string>, StringMap?) {
    (row.words, row.labels)
  }

  function Inserted(items: seq<Row>, before: seq<Plain>, row: Row, plain: Plain): seq<Plain>
    requires |before| == |items|
  {
    var k, p := Place(items, row), plain.(startedAt := StoredAs(items, row).startedAt);
    PutIn(AllCloned(before), k, p)
  }

  /** The row itself is in the list, at `k`, and all others are made of new objects. */
  twostate predicate Holds(new items: seq<Row>, k: nat, row: Row) {
    k < |items| && items[k] == row && forall i | 0 <= i < |items| && i != k :: New(items[i])
  }

  // ---- What that means for callers ------------------------------------------

  /** Whatever a caller does to what it was given, the store does not change. */
  method GetterIsIsolated(store: RowStore) returns (copy: RowList)
    ensures store.list == old(store.list) && Value(store.list.items) == old(Value(store.list.items))
  {
    copy := store.Get();
    modify Reach(copy);
  }

  /** Whatever a caller does to what it saved, the store keeps what it was given. */
  method SaveIsIsolated(store: RowStore, v: RowList)
    modifies store, Reach(v)
    ensures Value(store.list.items) == AllCloned(old(Value(v.items)))
  {
    store.Save(v);
    modify Reach(v);
  }

  method AddIsIsolated(store: RowStore, row: Row)
    modifies store, AllWords([row]), AllLabels([row])
    ensures Value(store.list.items) == AllCloned(old(Value(store.list.items + [row])))
  {
    store.Add(row);
    modify AllWords([row]), AllLabels([row]);
  }

  /** What a caller can change of a row it holds: the words of a slice that has any, and its map. */
  function Writable(row: Row): set<object> {
    (if row.words != null && row.words.Length > 0 then {row.words} else {})
    + if row.labels != null then {row.labels} else {}
  }

  /** Changes the row through everything that can be changed. */
  method Scribble(row: Row)
    modifies Writable(row)
    ensures PlainOf(row) == old(PlainOf(row)) <==> Writable(row) == {}
  {
    if row.words != null && row.words.Length > 0 {
      ghost var first := row.words[0];
      row.words[0] := row.words[0] + "!";
      assert row.words[..][0] != first && old(row.words[..])[0] == first;
    }
    if row.labels != null {
      var entries := row.labels.entries;
      row.labels.entries := if "" in entries then entries - {""} else entries["" := ""];
      assert "" in row.labels.entries <==> "" !in entries;
    }
  }

  /** The row's objects are in the list at `k` and nowhere else. */
  predicate OnlyAt(items: seq<Row>, k: nat, row: Row) {
    && k < |items| && ReachOf(items[k]) == ReachOf(row)
    && forall i | 0 <= i < |items| && i != k ::
         && (items[i].words == null || items[i].words != row.words)
         && (items[i].labels == null || items[i].labels != row.labels)
  }

  /** The row's objects are nowhere in the list. */
  predicate Nowhere(items: seq<Row>, row: Row) {
    forall i | 0 <= i < |items| ::
      && (items[i].words == null || items[i].words != row.words)
      && (items[i].labels == null || items[i].labels != row.labels)
  }

  method ScribbleAt(items: seq<Row>, k: nat, row: Row)
    requires OnlyAt(items, k, row)
    modifies Writable(row)
    ensures Value(items) == old(Value(items)) <==> Writable(row) == {}
  {
    ghost var before := Value(items);
    Scribble(row);
    assert PlainOf(items[k]) == PlainOf(row).(id := items[k].id, sequence := items[k].sequence,
                                              startedAt := items[k].startedAt, body := items[k].body);
    assert Value(items)[k] == before[k] <==> Writable(row) == {};
  }

  method ScribbleElsewhere(items: seq<Row>, row: Row)
    requires Nowhere(items, row)
    modifies Writable(row)
    ensures Value(items) == old(Value(items))
  {
    Scribble(row);
  }

  /**
   What an upsert stores survives the caller's later writes iff the report was late or has nothing to write
   through. In those two cases it survives all writes, otherwise some write shows up in the store.
   */
  method UpsertIsIsolatedIff(store: RowStore, row: Row) returns (ghost stored: seq<Plain>)
    modifies store, Writable(row)
    ensures stored == if TakesIn(old(store.list.items), row)
                      then Inserted(old(store.list.items), old(Value(store.list.items)), row, old(PlainOf(row)))
                      else AllCloned(old(Value(store.list.items)))
    ensures Value(store.list.items) == stored <==> !TakesIn(old(store.list.items), row) || Writable(row) == {}
  {
    var k, takes := Place(store.list.items, row), TakesIn(store.list.items, row);
    StoredAsPlain(store.list.items, row);
    store.Upsert(row);
    var items := store.list.items;
    stored := Value(items);
    if takes {
      ScribbleAt(items, k, row);
    } else {
      ScribbleElsewhere(items, row);
    }
  }

  method HavocAt(items: seq<Row>, k: nat, row: Row)
    requires OnlyAt(items, k, row) && Writable(row) == {}
    modifies AllWords([row]), AllLabels([row])
    ensures Value(items) == old(Value(items))
  {
    ghost var before := Value(items);
    assert row.words == null || row.words[..] == [];
    modify AllWords([row]), AllLabels([row]);
    assert row.words == null || row.words[..] == [];
    assert Value(items)[k] == before[k];
  }

  method HavocElsewhere(items: seq<Row>, row: Row)
    requires Nowhere(items, row)
    modifies AllWords([row]), AllLabels([row])
    ensures Value(items) == old(Value(items))
  {
    modify AllWords([row]), AllLabels([row]);
  }

  /** In those two cases the caller can do what it likes to the row. */
  method UpsertIsIsolated(store: RowStore, row: Row) returns (ghost stored: seq<Plain>)
    requires !TakesIn(store.list.items, row) || Writable(row) == {}
    modifies store, AllWords([row]), AllLabels([row])
    ensures Value(store.list.items) == stored
    ensures stored == if TakesIn(old(store.list.items), row)
                      then Inserted(old(store.list.items), old(Value(store.list.items)), row, old(PlainOf(row)))
                      else AllCloned(old(Value(store.list.items)))
  {
    var k, takes := Place(store.list.items, row), TakesIn(store.list.items, row);
    StoredAsPlain(store.list.items, row);
    store.Upsert(row);
    stored := Value(store.list.items);
    if takes {
      HavocAt(store.list.items, k, row);
    } else {
      HavocElsewhere(store.list.items, row);
    }
  }

  /**
   The same for an event: what is stored survives the caller's writes iff it was retained or has nothing to write.
   */
  method EventIsIsolatedIff(store: RowStore, row: Row) returns (ghost stored: seq<Plain>)
    modifies store, Writable(row)
    ensures stored == if Kept(old(store.list.items), row) then AllCloned(old(Value(store.list.items)))
                      else AllCloned(old(Value(store.list.items))) + [old(PlainOf(row))]
    ensures Value(store.list.items) == stored <==> Kept(old(store.list.items), row) || Writable(row) == {}
  {
    var k, kept := |store.list.items|, Kept(store.list.items, row);
    store.AddEvent(row);
    stored := Value(store.list.items);
    if kept {
      ScribbleElsewhere(store.list.items, row);
    } else {
      ScribbleAt(store.list.items, k, row);
    }
  }
}
