/**
 * The symbol table of symbol_table.c: a fixed array of SYMBOL_SIZE slots
 * updated in place.  Every method is proved against the functions of
 * SymbolProbe, whose lemmas say what the table promises.
 */
module SymbolTable {
  import opened Wrappers
  import opened Data
  import opened SyntaxTree
  import opened Params
  import opened SymbolHash
  import opened SymbolProbe

  /** `symbol_itemize`: a zeroed array of slots, each then tagged SYMBOL_EMPTY. */
  method Itemize() returns (items: array<SymbolItem>)
    ensures fresh(items) && items[..] == EMPTY_SLOTS
  {
    items := new SymbolItem[SYMBOL_SIZE](_ => ZERO_ITEM);
    for i := 0 to SYMBOL_SIZE
      invariant forall j :: 0 <= j < i ==> items[j] == EMPTY_ITEM
      invariant forall j :: i <= j < SYMBOL_SIZE ==> items[j] == ZERO_ITEM
    {
      items[i] := items[i].(symtype := SYMBOL_EMPTY);
    }
  }

  class Table {
    var size: int
    var items: array<SymbolItem>

    /**
     * `size` is declared as the number of entries, but no operation changes it
     * after initialisation, so it stays 0.
     */
    ghost predicate Valid()
      reads this
    {
      items.Length == SYMBOL_SIZE && size == 0
    }

    /** `symbol_initialize`. */
    constructor ()
      ensures Valid() && fresh(items)
      ensures items[..] == EMPTY_SLOTS
    {
      var slots := Itemize();
      size := 0;
      items := slots;
    }

    /** `symbol_is_full`: since `size` stays 0, it never holds. */
    function IsFull(): (full: bool)
      reads this
      requires Valid()
      ensures !full
    {
      size == SYMBOL_SIZE
    }

    /** `symbol_search`: the probe loop, proved to return Find's slot. */
    method Search(identifier: string) returns (index: int)
      requires Valid()
      ensures index == Find(items[..], Hash(identifier))
    {
      var key := HashKey(identifier);
      var home := HashIndex(key);
      var curr := home;
      ghost var k: nat := 0;
      ghost var slots: Slots := items[..];
      while items[curr].key != 0
        invariant k < SYMBOL_SIZE && curr == Slot(home, k)
        invariant SearchStep(slots, key, home, k) == SearchStep(slots, key, home, 0)
        decreases SYMBOL_SIZE - k
      {
        if items[curr].key == key {
          return curr;
        }
        curr := curr + 1;
        if curr >= SYMBOL_SIZE {
          curr := 0;
        }
        k := k + 1;
        if curr == home {
          return SYMBOL_NOT_FOUND;
        }
      }
      return SYMBOL_NOT_FOUND;
    }

    /** `symbol_exists`. */
    method Exists(identifier: string) returns (found: bool)
      requires Valid()
      ensures found <==> Find(items[..], Hash(identifier)) != SYMBOL_NOT_FOUND
    {
      var index := Search(identifier);
      found := index >= 0;
    }

    /** `symbol_is_identifier`: found, and tagged SYMBOL_IDENTIFIER. */
    method IsIdentifier(identifier: string) returns (r: bool)
      requires Valid()
      ensures var i := Find(items[..], Hash(identifier));
              r <==> i != SYMBOL_NOT_FOUND && items[i].symtype == SYMBOL_IDENTIFIER
    {
      var index := Search(identifier);
      if index == SYMBOL_NOT_FOUND {
        return false;
      }
      r := items[index].symtype == SYMBOL_IDENTIFIER;
    }

    /** `symbol_is_function`: found, and tagged SYMBOL_FUNCTION. */
    method IsFunction(identifier: string) returns (r: bool)
      requires Valid()
      ensures var i := Find(items[..], Hash(identifier));
              r <==> i != SYMBOL_NOT_FOUND && items[i].symtype == SYMBOL_FUNCTION
    {
      var index := Search(identifier);
      if index == SYMBOL_NOT_FOUND {
        return false;
      }
      r := items[index].symtype == SYMBOL_FUNCTION;
    }

    /**
     * The placement both insertions share: refuse when full, probe linearly
     * from the home index for a slot with key 0, refuse when the probe wraps
     * back to the home index, otherwise overwrite that slot.
     */
    method Put(item: SymbolItem) returns (ok: bool)
      requires Valid()
      modifies items
      ensures Valid()
      ensures ok <==> old(size) != SYMBOL_SIZE && FreeSlot(old(items[..]), item.key) != SYMBOL_NOT_FOUND
      ensures items[..] == if ok then Inserted(old(items[..]), item) else old(items[..])
    {
      if IsFull() {
        return false;
      }
      var home := HashIndex(item.key);
      var curr := home;
      ghost var k: nat := 0;
      ghost var slots: Slots := items[..];
      while items[curr].key != 0
        invariant items[..] == slots
        invariant k < SYMBOL_SIZE && curr == Slot(home, k)
        invariant FreeStep(slots, home, k) == FreeStep(slots, home, 0)
        decreases SYMBOL_SIZE - k
      {
        curr := curr + 1;
        if curr >= SYMBOL_SIZE {
          curr := 0;
        }
        k := k + 1;
        if curr == home {
          return false;
        }
      }
      items[curr] := item;
      return true;
    }

    /** `symbol_insert_identifier`: an entry with no arguments, tagged SYMBOL_IDENTIFIER. */
    method InsertIdentifier(identifier: string, value: DataValue) returns (ok: bool)
      requires Valid()
      modifies items
      ensures Valid()
      ensures var item := IdentifierItem(Hash(identifier), identifier, value);
              (ok <==> FreeSlot(old(items[..]), item.key) != SYMBOL_NOT_FOUND)
              && items[..] == if ok then Inserted(old(items[..]), item) else old(items[..])
    {
      var key := HashKey(identifier);
      ok := Put(IdentifierItem(key, identifier, value));
    }

    /**
     * `symbol_insert_function` as written: the argument count is the length of
     * the parameter list, but the entry is tagged SYMBOL_IDENTIFIER.
     */
    method InsertFunction(identifier: string, value: DataValue, list: ParamList, node: SyntaxNode)
      returns (ok: bool)
      requires Valid()
      modifies items
      ensures Valid()
      ensures var item := FunctionItemAsWritten(Hash(identifier), identifier, value, list, node);
              (ok <==> FreeSlot(old(items[..]), item.key) != SYMBOL_NOT_FOUND)
              && items[..] == if ok then Inserted(old(items[..]), item) else old(items[..])
    {
      var key := HashKey(identifier);
      var args := ParamCount(list);
      ok := Put(SymbolItem(key, args, SYMBOL_IDENTIFIER, Some(identifier), Some(value), list, Some(node)));
    }

    /** `symbol_insert_function` with the entry tagged SYMBOL_FUNCTION. */
    method InsertFunctionTagged(identifier: string, value: DataValue, list: ParamList, node: SyntaxNode)
      returns (ok: bool)
      requires Valid()
      modifies items
      ensures Valid()
      ensures var item := FunctionItem(Hash(identifier), identifier, value, list, node);
              (ok <==> FreeSlot(old(items[..]), item.key) != SYMBOL_NOT_FOUND)
              && items[..] == if ok then Inserted(old(items[..]), item) else old(items[..])
    {
      var key := HashKey(identifier);
      var args := ParamCount(list);
      ok := Put(SymbolItem(key, args, SYMBOL_FUNCTION, Some(identifier), Some(value), list, Some(node)));
    }

    /** `symbol_assign`: replaces the value of the found entry, and nothing else. */
    method Assign(identifier: string, value: DataValue) returns (ok: bool)
      requires Valid()
      modifies items
      ensures Valid()
      ensures ok <==> Find(old(items[..]), Hash(identifier)) != SYMBOL_NOT_FOUND
      ensures items[..] == if ok then Assigned(old(items[..]), Hash(identifier), value) else old(items[..])
    {
      var index := Search(identifier);
      if index == SYMBOL_NOT_FOUND {
        return false;
      }
      items[index] := items[index].(value := Some(value));
      return true;
    }

    /** `symbol_get_args`: the found entry's argument count, 0 on a miss. */
    method GetArgs(identifier: string) returns (args: int)
      requires Valid()
      ensures var i := Find(items[..], Hash(identifier));
              args == if i == SYMBOL_NOT_FOUND then 0 else items[i].args
    {
      var i := Search(identifier);
      if i == SYMBOL_NOT_FOUND {
        return 0;
      }
      return items[i].args;
    }

    /** `symbol_get_value`: the found entry's value, a new integer 0 on a miss. */
    method GetValue(identifier: string) returns (value: Option<DataValue>)
      requires Valid()
      ensures var i := Find(items[..], Hash(identifier));
              value == if i == SYMBOL_NOT_FOUND then Some(CreateInteger(0)) else items[i].value
    {
      var i := Search(identifier);
      if i == SYMBOL_NOT_FOUND {
        return Some(CreateInteger(0));
      }
      return items[i].value;
    }

    /** `symbol_get_list`: the found entry's parameter list, NULL on a miss. */
    method GetList(identifier: string) returns (list: ParamList)
      requires Valid()
      ensures var i := Find(items[..], Hash(identifier));
              list == if i == SYMBOL_NOT_FOUND then Nil else items[i].list
    {
      var i := Search(identifier);
      if i == SYMBOL_NOT_FOUND {
        return Nil;
      }
      return items[i].list;
    }

    /** `symbol_get_node`: the found entry's body, a freshly initialised node on a miss. */
    method GetNode(identifier: string) returns (node: Option<SyntaxNode>)
      requires Valid()
      ensures var i := Find(items[..], Hash(identifier));
              node == if i == SYMBOL_NOT_FOUND then Some(InitialNode()) else items[i].node
    {
      var i := Search(identifier);
      if i == SYMBOL_NOT_FOUND {
        return Some(InitialNode());
      }
      return items[i].node;
    }

    /** `symbol_param_equal`: the stored argument count equals `index`. */
    method ParamEqual(identifier: string, index: int) returns (equal: bool)
      requires Valid()
      ensures var i := Find(items[..], Hash(identifier));
              equal <==> index == if i == SYMBOL_NOT_FOUND then 0 else items[i].args
    {
      var args := GetArgs(identifier);
      equal := args == index;
    }
  }
}
