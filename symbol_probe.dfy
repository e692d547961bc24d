/**
 * The slots of the symbol table (symbol_table.c) as a sequence, and what its
 * operations do to them: linear probing from the home index, wrapping at
 * SYMBOL_SIZE, where a key of 0 marks an empty slot.  The class in
 * SymbolTable is proved against these functions; the lemmas here state what
 * the table promises.
 */
module SymbolProbe {
  import opened Wrappers
  import opened Data
  import opened SyntaxTree
  import opened Params
  import opened SymbolHash

  const SYMBOL_NOT_FOUND: int := -1
  const SYMBOL_EMPTY: char := 'E'
  const SYMBOL_IDENTIFIER: char := 'I'
  const SYMBOL_FUNCTION: char := 'F'

  /** A `symbol_item`: one slot of the table. */
  datatype SymbolItem = SymbolItem(
    key: int,
    args: int,
    symtype: char,
    identifier: Option<string>,
    value: Option<DataValue>,
    list: ParamList,
    node: Option<SyntaxNode>)

  /** A slot as `calloc` leaves it: every field zero or NULL. */
  const ZERO_ITEM: SymbolItem := SymbolItem(0, 0, '\0', None, None, Nil, None)

  /** A slot as `symbol_itemize` leaves it. */
  const EMPTY_ITEM: SymbolItem := ZERO_ITEM.(symtype := SYMBOL_EMPTY)

  type Slots = s: seq<SymbolItem> | |s| == SYMBOL_SIZE witness seq(SYMBOL_SIZE, _ => EMPTY_ITEM)

  /** The slots of a freshly initialised table. */
  const EMPTY_SLOTS: Slots := seq(SYMBOL_SIZE, _ => EMPTY_ITEM)

  /** The entry `symbol_insert_identifier` writes. */
  function IdentifierItem(key: int, identifier: string, value: DataValue): (item: SymbolItem)
    ensures item.key == key && item.args == 0 && item.symtype == SYMBOL_IDENTIFIER
    ensures item.identifier == Some(identifier) && item.value == Some(value)
    ensures item.list == Nil && item.node == None
  {
    SymbolItem(key, 0, SYMBOL_IDENTIFIER, Some(identifier), Some(value), Nil, None)
  }

  /** The entry `symbol_insert_function` writes, tagged as an identifier as the C code does. */
  function FunctionItemAsWritten(key: int, identifier: string, value: DataValue,
                                 list: ParamList, node: SyntaxNode): (item: SymbolItem)
    ensures item.key == key && item.args == Length(list) && item.symtype == SYMBOL_IDENTIFIER
    ensures item.identifier == Some(identifier) && item.value == Some(value)
    ensures item.list == list && item.node == Some(node)
  {
    SymbolItem(key, Length(list), SYMBOL_IDENTIFIER, Some(identifier), Some(value), list, Some(node))
  }

  /** The entry a function declaration evidently should write: tagged as a function. */
  function FunctionItem(key: int, identifier: string, value: DataValue,
                        list: ParamList, node: SyntaxNode): (item: SymbolItem)
    ensures item.symtype == SYMBOL_FUNCTION
    ensures item.(symtype := SYMBOL_IDENTIFIER) == FunctionItemAsWritten(key, identifier, value, list, node)
  {
    FunctionItemAsWritten(key, identifier, value, list, node).(symtype := SYMBOL_FUNCTION)
  }

  /** The slot visited at step `k` of the probe that starts at `home`. */
  function Slot(home: nat, k: nat): (i: nat)
    requires home < SYMBOL_SIZE && k <= SYMBOL_SIZE
    ensures i < SYMBOL_SIZE
  {
    if home + k < SYMBOL_SIZE then home + k else home + k - SYMBOL_SIZE
  }

  /**
   * The probe visits the slots in order, modulo SYMBOL_SIZE, and its first
   * SYMBOL_SIZE steps visit every slot once.
   */
  lemma SlotIsModular(home: nat, k: nat, k': nat)
    requires home < SYMBOL_SIZE && k <= SYMBOL_SIZE && k' <= SYMBOL_SIZE
    ensures Slot(home, k) == (home + k) % SYMBOL_SIZE
    ensures k < SYMBOL_SIZE && k' < SYMBOL_SIZE && k != k' ==> Slot(home, k) != Slot(home, k')
  {
  }

  /**
   * The step at which `symbol_search`'s probe stops, from step `k` on: the
   * first slot that is empty or holds `key`, or SYMBOL_SIZE when the probe
   * wraps back to its start.
   */
  function SearchStep(slots: Slots, key: int, home: nat, k: nat): (r: nat)
    requires home < SYMBOL_SIZE && k <= SYMBOL_SIZE
    ensures k <= r <= SYMBOL_SIZE
    ensures r < SYMBOL_SIZE ==> slots[Slot(home, r)].key == 0 || slots[Slot(home, r)].key == key
    decreases SYMBOL_SIZE - k
  {
    if k == SYMBOL_SIZE then k
    else if slots[Slot(home, k)].key == 0 || slots[Slot(home, k)].key == key then k
    else SearchStep(slots, key, home, k + 1)
  }

  /** The search probe stops at the first such slot: every earlier one holds another nonzero key. */
  lemma {:induction false} SearchStepFirst(slots: Slots, key: int, home: nat, k: nat)
    requires home < SYMBOL_SIZE && k <= SYMBOL_SIZE
    ensures forall j :: k <= j < SearchStep(slots, key, home, k) ==>
              slots[Slot(home, j)].key != 0 && slots[Slot(home, j)].key != key
    decreases SYMBOL_SIZE - k
  {
    if k < SearchStep(slots, key, home, k) {
      SearchStepFirst(slots, key, home, k + 1);
    }
  }

  /**
   * The slot `symbol_search` returns for a name whose hash is `key`: the slot
   * where the probe stops if it holds `key`, else SYMBOL_NOT_FOUND.  Only keys
   * are compared, and a key of 0 is never found.
   */
  function Find(slots: Slots, key: int): (index: int)
    ensures index == SYMBOL_NOT_FOUND
            || (0 <= index < SYMBOL_SIZE && slots[index].key == key && key != 0)
  {
    var home := HashIndex(key);
    var k := SearchStep(slots, key, home, 0);
    if k < SYMBOL_SIZE && slots[Slot(home, k)].key != 0 then Slot(home, k) else SYMBOL_NOT_FOUND
  }

  /**
   * A key is found exactly when some step of its probe reaches a slot holding
   * it before any empty slot.
   */
  lemma FindCharacterised(slots: Slots, key: int)
    ensures Find(slots, key) != SYMBOL_NOT_FOUND <==>
              key != 0 && exists k :: 0 <= k < SYMBOL_SIZE && slots[Slot(HashIndex(key), k)].key == key
                                      && forall j :: 0 <= j < k ==> slots[Slot(HashIndex(key), j)].key != 0
  {
    var home := HashIndex(key);
    var r := SearchStep(slots, key, home, 0);
    SearchStepFirst(slots, key, home, 0);
    if Find(slots, key) != SYMBOL_NOT_FOUND {
      assert slots[Slot(home, r)].key == key;
    }
    if key != 0 && exists k :: 0 <= k < SYMBOL_SIZE && slots[Slot(home, k)].key == key
                               && forall j :: 0 <= j < k ==> slots[Slot(home, j)].key != 0 {
      var k :| 0 <= k < SYMBOL_SIZE && slots[Slot(home, k)].key == key
               && forall j :: 0 <= j < k ==> slots[Slot(home, j)].key != 0;
      assert r <= k;
      assert slots[Slot(home, r)].key != 0 by {
        if r < k {
          assert slots[Slot(home, r)].key != 0;
        }
      }
    }
  }

  /**
   * The step at which the insertion probe stops, from step `k` on: the first
   * slot with key 0, or SYMBOL_SIZE when the probe wraps back to its start.
   */
  function FreeStep(slots: Slots, home: nat, k: nat): (r: nat)
    requires home < SYMBOL_SIZE && k <= SYMBOL_SIZE
    ensures k <= r <= SYMBOL_SIZE
    ensures r < SYMBOL_SIZE ==> slots[Slot(home, r)].key == 0
    decreases SYMBOL_SIZE - k
  {
    if k == SYMBOL_SIZE then k
    else if slots[Slot(home, k)].key == 0 then k
    else FreeStep(slots, home, k + 1)
  }

  /** The insertion probe stops at the first empty slot: every earlier one holds a nonzero key. */
  lemma {:induction false} FreeStepFirst(slots: Slots, home: nat, k: nat)
    requires home < SYMBOL_SIZE && k <= SYMBOL_SIZE
    ensures forall j :: k <= j < FreeStep(slots, home, k) ==> slots[Slot(home, j)].key != 0
    decreases SYMBOL_SIZE - k
  {
    if k < FreeStep(slots, home, k) {
      FreeStepFirst(slots, home, k + 1);
    }
  }

  /** The slot an insertion of `key` writes, or SYMBOL_NOT_FOUND when it fails. */
  function FreeSlot(slots: Slots, key: int): (index: int)
    ensures index == SYMBOL_NOT_FOUND || (0 <= index < SYMBOL_SIZE && slots[index].key == 0)
  {
    var home := HashIndex(key);
    var k := FreeStep(slots, home, 0);
    if k < SYMBOL_SIZE then Slot(home, k) else SYMBOL_NOT_FOUND
  }

  /** An insertion fails exactly when every slot holds a nonzero key. */
  lemma FreeSlotFailsIffFull(slots: Slots, key: int)
    ensures FreeSlot(slots, key) == SYMBOL_NOT_FOUND <==>
              forall i :: 0 <= i < SYMBOL_SIZE ==> slots[i].key != 0
  {
    var home := HashIndex(key);
    FreeStepFirst(slots, home, 0);
    if FreeSlot(slots, key) == SYMBOL_NOT_FOUND {
      forall i | 0 <= i < SYMBOL_SIZE
        ensures slots[i].key != 0
      {
        var k := if home <= i then i - home else i + SYMBOL_SIZE - home;
        assert Slot(home, k) == i;
      }
    }
  }

  /**
   * Every slot that holds a nonzero key in `slots` holds the same key in
   * `slots'`: nothing that can be found has moved or gone.
   */
  ghost predicate Extends(slots: Slots, slots': Slots) {
    forall i :: 0 <= i < SYMBOL_SIZE && slots[i].key != 0 ==> slots'[i].key == slots[i].key
  }

  lemma ExtendsPreorder(s0: Slots, s1: Slots, s2: Slots)
    ensures Extends(s0, s0)
    ensures Extends(s0, s1) && Extends(s1, s2) ==> Extends(s0, s2)
  {
  }

  /** The slots after a successful insertion: `item` written into the free slot. */
  function Inserted(slots: Slots, item: SymbolItem): (r: Slots)
    requires FreeSlot(slots, item.key) != SYMBOL_NOT_FOUND
    ensures Extends(slots, r)
    ensures r[FreeSlot(slots, item.key)] == item
    ensures forall i :: 0 <= i < SYMBOL_SIZE && i != FreeSlot(slots, item.key) ==> r[i] == slots[i]
  {
    slots[FreeSlot(slots, item.key) := item]
  }

  /** The slots after a successful assignment: only the found slot's value replaced. */
  function Assigned(slots: Slots, key: int, value: DataValue): (r: Slots)
    requires Find(slots, key) != SYMBOL_NOT_FOUND
    ensures forall i :: 0 <= i < SYMBOL_SIZE ==> r[i].key == slots[i].key
    ensures r[Find(slots, key)] == slots[Find(slots, key)].(value := Some(value))
    ensures forall i :: 0 <= i < SYMBOL_SIZE && i != Find(slots, key) ==> r[i] == slots[i]
  {
    var i := Find(slots, key);
    slots[i := slots[i].(value := Some(value))]
  }

  /** A freshly initialised table finds nothing, and every insertion lands on its home slot. */
  lemma EmptyTable(key: int)
    ensures Find(EMPTY_SLOTS, key) == SYMBOL_NOT_FOUND
    ensures FreeSlot(EMPTY_SLOTS, key) == HashIndex(key)
    ensures Occupied(EMPTY_SLOTS) == 0
  {
    OccupiedCountsKeys(EMPTY_SLOTS);
    assert forall i :: 0 <= i < |EMPTY_SLOTS| ==> EMPTY_SLOTS[i].key == 0;
  }

  /**
   * Once found, always found at the same slot: a change that keeps every
   * nonzero key in place (an insertion, an assignment) does not move a
   * key's search result.
   */
  lemma FindStable(slots: Slots, slots': Slots, key: int)
    requires Extends(slots, slots')
    requires Find(slots, key) != SYMBOL_NOT_FOUND
    ensures Find(slots', key) == Find(slots, key)
  {
    var home := HashIndex(key);
    var r := SearchStep(slots, key, home, 0);
    var r' := SearchStep(slots', key, home, 0);
    SearchStepFirst(slots, key, home, 0);
    SearchStepFirst(slots', key, home, 0);
    assert slots[Slot(home, r)].key == key;
    assert slots'[Slot(home, r)].key == key;
    forall j | 0 <= j < r
      ensures slots'[Slot(home, j)].key != 0 && slots'[Slot(home, j)].key != key
    {
      assert slots[Slot(home, j)].key != 0;
    }
    assert r' == r;
  }

  /**
   * After a successful insertion of a nonzero key, searching for it finds a
   * slot holding it; if it was absent before, that slot is the new entry.
   */
  lemma FoundAfterInsert(slots: Slots, item: SymbolItem)
    requires item.key != 0
    requires FreeSlot(slots, item.key) != SYMBOL_NOT_FOUND
    ensures Find(Inserted(slots, item), item.key) != SYMBOL_NOT_FOUND
    ensures Find(slots, item.key) == SYMBOL_NOT_FOUND ==>
              Find(Inserted(slots, item), item.key) == FreeSlot(slots, item.key)
  {
    var key, s' := item.key, Inserted(slots, item);
    var home := HashIndex(key);
    var f := FreeStep(slots, home, 0);
    var r := SearchStep(s', key, home, 0);
    SearchStepFirst(s', key, home, 0);
    FreeStepFirst(slots, home, 0);
    assert s'[Slot(home, f)].key == key;
    assert r <= f;
    if r < f {
      SlotIsModular(home, r, f);
      assert Slot(home, r) != Slot(home, f);
      assert s'[Slot(home, r)] == slots[Slot(home, r)];
      assert slots[Slot(home, r)].key == key;
      var r0 := SearchStep(slots, key, home, 0);
      SearchStepFirst(slots, key, home, 0);
      assert r0 <= r;
      assert slots[Slot(home, r0)].key != 0;
    }
  }

  /**
   * Insertion does not check for duplicates: inserting a key that is already
   * found succeeds when a slot is free, but the search still returns the old
   * entry, never the new one.
   */
  lemma DuplicateInsertShadowed(slots: Slots, item: SymbolItem)
    requires Find(slots, item.key) != SYMBOL_NOT_FOUND
    requires FreeSlot(slots, item.key) != SYMBOL_NOT_FOUND
    ensures Find(Inserted(slots, item), item.key) == Find(slots, item.key)
    ensures Find(Inserted(slots, item), item.key) != FreeSlot(slots, item.key)
  {
    FindStable(slots, Inserted(slots, item), item.key);
  }

  /**
   * A name whose key is 0 is indistinguishable from an empty slot: inserting
   * it succeeds but changes no key, so no search result changes and the slot
   * it used is still free for the next insertion.
   */
  lemma ZeroKeyInsertInvisible(slots: Slots, item: SymbolItem, key: int)
    requires item.key == 0
    requires FreeSlot(slots, 0) != SYMBOL_NOT_FOUND
    ensures Find(Inserted(slots, item), key) == Find(slots, key)
    ensures Find(Inserted(slots, item), 0) == SYMBOL_NOT_FOUND
    ensures Occupied(Inserted(slots, item)) == Occupied(slots)
  {
    var s' := Inserted(slots, item);
    assert forall i :: 0 <= i < SYMBOL_SIZE ==> s'[i].key == slots[i].key;
    SameKeysSameFind(slots, s', key);
    OccupiedUpdate(slots, FreeSlot(slots, 0), item);
  }

  /**
   * Only keys are compared, never names: after `Aa` is declared in a fresh
   * table, looking up `BB`, which has the same key, finds the entry of `Aa`.
   */
  lemma CollidingNamesConfused(value: DataValue)
    ensures var s' := Inserted(EMPTY_SLOTS, IdentifierItem(Hash("Aa"), "Aa", value));
            Find(s', Hash("BB")) != SYMBOL_NOT_FOUND
            && s'[Find(s', Hash("BB"))].identifier == Some("Aa")
  {
    HashExamples();
    EmptyTable(Hash("Aa"));
    FoundAfterInsert(EMPTY_SLOTS, IdentifierItem(Hash("Aa"), "Aa", value));
  }

  /** Search results depend on the keys alone. */
  lemma SameKeysSameFind(slots: Slots, slots': Slots, key: int)
    requires forall i :: 0 <= i < SYMBOL_SIZE ==> slots'[i].key == slots[i].key
    ensures Find(slots', key) == Find(slots, key)
  {
    SearchStepSameKeys(slots, slots', key, HashIndex(key), 0);
  }

  lemma {:induction false} SearchStepSameKeys(slots: Slots, slots': Slots, key: int, home: nat, k: nat)
    requires home < SYMBOL_SIZE && k <= SYMBOL_SIZE
    requires forall i :: 0 <= i < SYMBOL_SIZE ==> slots'[i].key == slots[i].key
    ensures SearchStep(slots', key, home, k) == SearchStep(slots, key, home, k)
    decreases SYMBOL_SIZE - k
  {
    if k < SYMBOL_SIZE {
      SearchStepSameKeys(slots, slots', key, home, k + 1);
    }
  }

  /**
   * An assignment moves no search result, and the assigned name's slot now
   * holds the assigned value, which the value getter returns.
   */
  lemma AssignThenLookup(slots: Slots, key: int, value: DataValue, other: int)
    requires Find(slots, key) != SYMBOL_NOT_FOUND
    ensures Find(Assigned(slots, key, value), other) == Find(slots, other)
    ensures Assigned(slots, key, value)[Find(slots, key)].value == Some(value)
    ensures other != key && Find(slots, other) != SYMBOL_NOT_FOUND ==>
              Assigned(slots, key, value)[Find(slots, other)] == slots[Find(slots, other)]
  {
    SameKeysSameFind(slots, Assigned(slots, key, value), other);
  }

  /**
   * A function inserted under a fresh nonzero key is found with its argument
   * count equal to the length of its parameter list, whichever tag it has.
   */
  lemma FunctionArityRecorded(slots: Slots, item: SymbolItem, key: int, identifier: string,
                              value: DataValue, list: ParamList, node: SyntaxNode)
    requires item == FunctionItemAsWritten(key, identifier, value, list, node)
             || item == FunctionItem(key, identifier, value, list, node)
    requires key != 0 && Find(slots, key) == SYMBOL_NOT_FOUND
    requires FreeSlot(slots, key) != SYMBOL_NOT_FOUND
    ensures Find(Inserted(slots, item), key) != SYMBOL_NOT_FOUND
    ensures Inserted(slots, item)[Find(Inserted(slots, item), key)].args == Length(list)
    ensures Inserted(slots, item)[Find(Inserted(slots, item), key)].list == list
  {
    FoundAfterInsert(slots, item);
  }

  /** No slot is tagged as a function. */
  ghost predicate NoFunctionTags(slots: Slots) {
    forall i :: 0 <= i < SYMBOL_SIZE ==> slots[i].symtype != SYMBOL_FUNCTION
  }

  /**
   * As written, no operation ever tags a slot SYMBOL_FUNCTION: the initial
   * table has no such slot and neither insertion nor assignment writes one,
   * so `symbol_is_function` is false for every name.
   */
  lemma NoFunctionTagsPreserved(slots: Slots, key: int, identifier: string, value: DataValue,
                                list: ParamList, node: SyntaxNode)
    ensures NoFunctionTags(EMPTY_SLOTS)
    ensures NoFunctionTags(slots) && FreeSlot(slots, key) != SYMBOL_NOT_FOUND ==>
              NoFunctionTags(Inserted(slots, IdentifierItem(key, identifier, value)))
              && NoFunctionTags(Inserted(slots, FunctionItemAsWritten(key, identifier, value, list, node)))
    ensures NoFunctionTags(slots) && Find(slots, key) != SYMBOL_NOT_FOUND ==>
              NoFunctionTags(Assigned(slots, key, value))
  {
  }

  /** A concrete case: declaring function `f` in a fresh table, then asking whether `f` is a function. */
  lemma FunctionTagAsWritten(value: DataValue, node: SyntaxNode)
    ensures var s' := Inserted(EMPTY_SLOTS, FunctionItemAsWritten(Hash("f"), "f", value, Nil, node));
            Find(s', Hash("f")) != SYMBOL_NOT_FOUND
            && s'[Find(s', Hash("f"))].symtype != SYMBOL_FUNCTION
  {
    EmptyTable(Hash("f"));
    FoundAfterInsert(EMPTY_SLOTS, FunctionItemAsWritten(Hash("f"), "f", value, Nil, node));
  }

  /** With the function tag written, a freshly declared function is reported as one. */
  lemma FunctionTagCorrected(slots: Slots, key: int, identifier: string, value: DataValue,
                             list: ParamList, node: SyntaxNode)
    requires key != 0 && Find(slots, key) == SYMBOL_NOT_FOUND
    requires FreeSlot(slots, key) != SYMBOL_NOT_FOUND
    ensures var s' := Inserted(slots, FunctionItem(key, identifier, value, list, node));
            Find(s', key) != SYMBOL_NOT_FOUND && s'[Find(s', key)].symtype == SYMBOL_FUNCTION
  {
    FoundAfterInsert(slots, FunctionItem(key, identifier, value, list, node));
  }

  /** The number of slots holding a nonzero key. */
  function Occupied(slots: seq<SymbolItem>): (n: nat)
    ensures n <= |slots|
  {
    if slots == [] then 0 else (if slots[0].key != 0 then 1 else 0) + Occupied(slots[1..])
  }

  lemma {:induction false} OccupiedCountsKeys(s: seq<SymbolItem>)
    ensures Occupied(s) == |s| <==> forall i :: 0 <= i < |s| ==> s[i].key != 0
    ensures Occupied(s) == 0 <==> forall i :: 0 <= i < |s| ==> s[i].key == 0
  {
    if s != [] {
      OccupiedCountsKeys(s[1..]);
      assert forall i :: 1 <= i < |s| ==> s[i] == s[1..][i - 1];
    }
  }

  lemma {:induction false} OccupiedUpdate(s: seq<SymbolItem>, i: nat, x: SymbolItem)
    requires i < |s|
    ensures Occupied(s[i := x]) + (if s[i].key != 0 then 1 else 0)
            == Occupied(s) + (if x.key != 0 then 1 else 0)
  {
    if i == 0 {
      assert s[i := x][1..] == s[1..];
    } else {
      assert s[i := x][1..] == s[1..][i - 1 := x];
      OccupiedUpdate(s[1..], i - 1, x);
    }
  }

  /**
   * Each successful insertion of a nonzero key fills one more slot, and an
   * insertion fails exactly when all SYMBOL_SIZE slots are filled.
   */
  lemma InsertOccupancy(slots: Slots, item: SymbolItem)
    ensures FreeSlot(slots, item.key) == SYMBOL_NOT_FOUND <==> Occupied(slots) == SYMBOL_SIZE
    ensures FreeSlot(slots, item.key) != SYMBOL_NOT_FOUND && item.key != 0 ==>
              Occupied(Inserted(slots, item)) == Occupied(slots) + 1
  {
    FreeSlotFailsIffFull(slots, item.key);
    OccupiedCountsKeys(slots);
    if FreeSlot(slots, item.key) != SYMBOL_NOT_FOUND {
      OccupiedUpdate(slots, FreeSlot(slots, item.key), item);
    }
  }

  /** The slots after inserting `items` one after the other; None once an insertion fails. */
  function InsertAll(slots: Slots, items: seq<SymbolItem>): (r: Option<Slots>)
    ensures r.Some? ==> Extends(slots, r.value)
    decreases |items|
  {
    if items == [] then Some(slots)
    else if FreeSlot(slots, items[0].key) == SYMBOL_NOT_FOUND then None
    else InsertAll(Inserted(slots, items[0]), items[1..])
  }

  lemma {:induction false} InsertAllOccupancy(slots: Slots, items: seq<SymbolItem>)
    requires forall i :: 0 <= i < |items| ==> items[i].key != 0
    requires InsertAll(slots, items).Some?
    ensures Occupied(InsertAll(slots, items).value) == Occupied(slots) + |items|
    decreases |items|
  {
    if items != [] {
      InsertOccupancy(slots, items[0]);
      InsertAllOccupancy(Inserted(slots, items[0]), items[1..]);
    }
  }

  /**
   * Starting from a fresh table, inserting more than SYMBOL_SIZE names with
   * nonzero keys fails no later than the (SYMBOL_SIZE + 1)-th insertion.
   */
  lemma CapacityExceeded(items: seq<SymbolItem>)
    requires |items| > SYMBOL_SIZE
    requires forall i :: 0 <= i < |items| ==> items[i].key != 0
    ensures InsertAll(EMPTY_SLOTS, items).None?
  {
    if InsertAll(EMPTY_SLOTS, items).Some? {
      EmptyTable(0);
      InsertAllOccupancy(EMPTY_SLOTS, items);
    }
  }
}
