# Symbol table and tagged values of a tree-walking interpreter, in Dafny

This project models the runtime support of a small interpreter written in C
(the "compiler-simplified-syntax-tree" project). It covers two parts.

**The symbol table** (`symbol_table.c`) is a fixed array of 30 slots with
open addressing:

- The key of a name is the base-31 polynomial of its character codes, the
  recipe of Java's `String.hashCode`.
- The home slot of a key is `abs(key % 30)`.
- Insertion probes linearly from the home slot, one slot at a time and
  wrapping at 30, for the first slot whose key is 0.
- Search follows the same probe. It stops at a slot holding the key, or at
  a slot with key 0, or when the probe is back at its start.
- Entries are either identifiers or functions. A function entry also stores
  its parameter list, its argument count and its body.

**The tagged numeric values** (`data.c`) are a `numtype` tag with an `int`
or `float` payload. They come with comparison, arithmetic, a zero test and
negation.

## Modules

| module | file | models |
|---|---|---|
| `Wrappers` | wrappers.dfy | `Option`, used for the C pointers that may be NULL |
| `CInt` | c_int.dfy | C `int`: its range, and division and remainder that truncate toward zero |
| `Data` | data.dfy | `data_value` and every function of data.c, as pure functions |
| `SyntaxTree` | syntax_tree.dfy | the layout of `syntax_node`, which the table stores as a function body |
| `Params` | params.dfy | `param_list` and the parameter-list functions of symbol_table.c |
| `SymbolHash` | symbol_hash.dfy | the hash key (a loop) and the home index |
| `SymbolProbe` | symbol_probe.dfy | the slots as a sequence; the probe, search, insertion and assignment as functions; what the table promises, as lemmas |
| `SymbolTable` | symbol_table.dfy | `symbol_table` as a class over an array of slots, updated in place |

**How the table is proved.** Each method of the class is proved against a
function in `SymbolProbe`:

- `Search` returns `Find`.
- An insertion leaves the array equal to `Inserted`.
- An assignment leaves the array equal to `Assigned`.

The lemmas beside those functions prove the table's properties:

- Once found, a key stays found at the same slot.
- An inserted key is found.
- A duplicate insertion is shadowed by the entry already there.
- An insertion fails exactly when all 30 slots hold a nonzero key.
- Each successful insertion fills one more slot.

**Two behaviours of the code worth knowing.**

- `size` is never incremented, so `symbol_is_full` never holds. The
  capacity bound is the wrap-around of the probe.
- Search compares keys only, so names with equal keys are confused.
  `SymbolProbe.CollidingNamesConfused` shows this for `Aa` and `BB`.

## Model

| member | source | states |
|---|---|---|
| CInt.DivRem | data.c:135 | C's `/` and `%` on `int`: `(a / b) * b + a % b == a`, the remainder is smaller than the divisor in magnitude and has the sign of the dividend, and the quotient times the divisor does not exceed the dividend in magnitude |
| CInt.Div | data.c:135 | C's `/` on `int`: the quotient of the magnitudes, non-negative when the operands have the same sign and non-positive otherwise |
| CInt.Rem | symbol_table.c:223 | C's `%` on `int`: `(a / b) * b + a % b == a`, and it is the remainder of the magnitudes, carrying the sign of the dividend |
| CInt.DivInRange | data.c:135 | an `int` quotient leaves the `int` range exactly when it is `INT_MIN / -1` |
| Data.NumType | data.h:28-31 | the tag is `DATA_INTEGER` exactly for integers and `DATA_FLOAT` exactly for floats |
| Data.NumTypeMatch | data.c:35-37 | two values match exactly when both are integers, both are floats, or both carry the same unknown tag |
| Data.NumTypeMatchEquivalence | data.c:35-37 | tag matching is reflexive, symmetric and transitive |
| Data.CreateInteger | data.c:94-99 | the new value is tagged integer and holds the given number |
| Data.CreateFloat | data.c:106-111 | the new value is tagged float and holds the given float |
| Data.Evaluation | data.c:45-74 | values of different kinds compare false, as does a value of unknown kind and an unknown operator; on two floats `=` is float equality |
| Data.IntegerComparisons | data.c:49-60 | on two integers, `<`, `>`, `=`, `l`, `g` are exactly `<`, `>`, `==`, `<=`, `>=` |
| Data.IntegerComparisonsConsistent | data.c:53-58 | on integers, `>` is `<` swapped and `g` is `l` swapped; `l` is `<` or `=`; `g` is not `<`; `=` is symmetric and holds exactly for equal values; one of `<`, `=`, `>` always holds |
| Data.Zero | data.c:81-87 | an integer is zero exactly when its payload is 0; a value of unknown kind is never zero |
| Data.ZeroOf | data.c:129-151 | the default result of an operation is a float for float operands and an integer otherwise |
| Data.ZeroIsEqualsZero | data.c:81-87 | the zero test equals the `=` comparison with the zero of the value's own kind, for every kind |
| Data.OperationDefined | data.c:132-135 | what C leaves undefined: only an integer operation can be undefined, an unknown operator code never is, and integer division by zero always is |
| Data.DivisionDefined | data.c:135 | an integer division is defined exactly when the divisor is nonzero and the operation is not `INT_MIN / -1` |
| Data.Operation | data.c:122-153 | mismatched kinds and unknown kinds give integer 0; an unknown operator gives the zero of the operands' kind; the result is a float exactly when both operands are floats |
| Data.IntegerArithmetic | data.c:126-138 | on two integers, `+`, `-`, `*` are exact whenever the result fits in `int`, and `/` is the quotient truncated toward zero |
| Data.SumThenSubtract | data.c:132-133 | adding an integer and then subtracting it gives back the first operand |
| Data.QuotientTimesDivisor | data.c:134-135 | the quotient times the divisor fits in `int`, and adding the C remainder to it gives back the dividend |
| Data.IntegerCommutative | data.c:132-134 | for integers, whether `+` and `*` are defined does not depend on operand order; each one's result does not either, whenever it is defined |
| Data.MismatchDegrades | data.c:122-125 | operands of different kinds give false for every comparison and integer 0 for every operation |
| Data.Negative | data.c:161-167 | an integer's negation sums with it to 0; a float is multiplied by `-1.0f`; a value of unknown kind gives integer 0 |
| Data.NegativeInvolutive | data.c:162-163 | negating an integer twice gives it back |
| Data.SubtractIsAddNegative | data.c:161-163 | integer subtraction equals addition of the negated second operand |
| Data.Examples | data.c:122-138 | 3 + 4 = 7; 5 = 5; integer 5 and float 5.0 do not compare equal; 7 / -2 = -3 and -7 / 2 = -3 |
| Params.Length | symbol_table.c:86-89 | the number of nodes reachable from a list is 0 exactly for NULL |
| Params.ParamCreate | symbol_table.c:110-117 | the new list has one node, holding the given name and value |
| Params.ParamJoin | symbol_table.c:99-102 | the result has the head of the first list, followed by exactly the second list |
| Params.ParamCount | symbol_table.c:84-91 | the loop returns the number of nodes of the list |
| SymbolHash.HashKey | symbol_table.c:202-215 | the loop computes the base-31 polynomial of the character codes |
| SymbolHash.HashAppend | symbol_table.c:210-213 | appending a character multiplies the key by 31 and adds the character code |
| SymbolHash.HashExamples | symbol_table.c:202-215 | the empty name has key 0, `a` has key 97, and `Aa` and `BB` share the key 2112 |
| SymbolHash.HashBound | symbol_table.c:210-213 | for 7-bit characters, 30 times the key is at most 127 × (31^length − 1) |
| SymbolHash.HashFitsInt32 | symbol_table.c:202-215 | a name of at most five 7-bit characters has a key that fits in `int` |
| SymbolHash.HashOverflowExample | symbol_table.c:210-213 | the exact key of `abcdef` is 2,870,581,347, outside the `int` range |
| SymbolHash.HashIndex | symbol_table.c:222-224 | the home slot is a valid slot, equal to `abs(key) mod 30` |
| SymbolProbe.IdentifierItem | symbol_table.c:310-317 | the entry of an identifier: its key, no arguments, tagged as an identifier, its name and value, no list and no body |
| SymbolProbe.FunctionItemAsWritten | symbol_table.c:347-354 | the entry of a function as written: its key, the length of its list as argument count, tagged as an identifier, its name, value, list and body |
| SymbolProbe.FunctionItem | symbol_table.c:347-354 | the entry of a function as evidently intended: tagged as a function, and otherwise the same as the entry written |
| SymbolProbe.SlotIsModular | symbol_table.c:239-240 | step `k` of a probe from `home` visits slot `(home + k) mod 30`, and the first 30 steps visit 30 different slots |
| SymbolProbe.SearchStep | symbol_table.c:237-241 | the search probe stops at a slot with key 0 or the searched key, or after 30 steps |
| SymbolProbe.SearchStepFirst | symbol_table.c:237-241 | every slot the search probe passes before stopping holds a nonzero key other than the searched one |
| SymbolProbe.Find | symbol_table.c:232-244 | the search returns not-found, or a slot holding the searched key, which is then nonzero |
| SymbolProbe.FindCharacterised | symbol_table.c:232-244 | a key is found exactly when it is nonzero and some probe step reaches a slot holding it with no empty slot before that step |
| SymbolProbe.FreeStep | symbol_table.c:304-308 | the insertion probe stops at a slot with key 0, or after 30 steps |
| SymbolProbe.FreeStepFirst | symbol_table.c:304-308 | every slot the insertion probe passes before stopping holds a nonzero key |
| SymbolProbe.FreeSlot | symbol_table.c:298-308 | insertion writes a slot whose key is 0, or fails |
| SymbolProbe.FreeSlotFailsIffFull | symbol_table.c:304-308 | insertion fails exactly when every slot holds a nonzero key |
| SymbolProbe.ExtendsPreorder | symbol_table.c:310-319 | "keeps every nonzero key in place" is reflexive and transitive |
| SymbolProbe.Inserted | symbol_table.c:310-319 | a successful insertion writes the entry into the free slot, changes no other slot and moves no nonzero key |
| SymbolProbe.Assigned | symbol_table.c:367-377 | an assignment replaces the value of the found slot only; every key stays in place |
| SymbolProbe.EmptyTable | symbol_table.c:69-77 | a fresh table finds nothing, holds no nonzero key, and places every insertion on its home slot |
| SymbolProbe.FindStable | symbol_table.c:232-244 | a change that keeps every nonzero key in place does not move any found key's search result |
| SymbolProbe.FoundAfterInsert | symbol_table.c:295-320 | after a successful insertion of a nonzero key the key is found, at the new slot if it was absent before |
| SymbolProbe.DuplicateInsertShadowed | symbol_table.c:295-320 | inserting a key that is already present succeeds when a slot is free, but the search still returns the old entry |
| SymbolProbe.ZeroKeyInsertInvisible | symbol_table.c:304-319 | an entry with key 0 changes no search result, is never found and fills no slot |
| SymbolProbe.CollidingNamesConfused | symbol_table.c:237-238 | after `Aa` is inserted into a fresh table, a search for `BB` finds the entry of `Aa` |
| SymbolProbe.SameKeysSameFind | symbol_table.c:237-241 | the search result depends on the slots' keys alone |
| SymbolProbe.AssignThenLookup | symbol_table.c:367-377 | an assignment moves no search result, stores the new value at the assigned slot, and leaves the entry of every other found key unchanged |
| SymbolProbe.FunctionArityRecorded | symbol_table.c:349 | a function inserted under a fresh nonzero key is found with argument count equal to its parameter count, and with its parameter list |
| SymbolProbe.NoFunctionTagsPreserved | symbol_table.c:350 | a fresh table has no function tag, and neither insertion as written nor assignment creates one |
| SymbolProbe.FunctionTagAsWritten | symbol_table.c:350 | after function `f` is declared in a fresh table, `f` is found but its slot is not tagged as a function |
| SymbolProbe.FunctionTagCorrected | symbol_table.c:282-286 | with the function tag written, a newly declared function is found tagged as a function |
| SymbolProbe.InsertOccupancy | symbol_table.c:304-308 | insertion fails exactly when all 30 slots are occupied; a successful insertion of a nonzero key occupies one more slot |
| SymbolProbe.InsertAllOccupancy | symbol_table.c:295-320 | a run of successful insertions of nonzero keys occupies as many new slots as there were insertions |
| SymbolProbe.InsertAll | symbol_table.c:295-320 | inserting entries one after the other, while every insertion succeeds, keeps every nonzero key in place |
| SymbolProbe.CapacityExceeded | symbol_table.c:298-308 | starting from a fresh table, more than 30 insertions of nonzero keys cannot all succeed |
| SyntaxTree.InitialNode | symbol_table.c:424 | the node `syntax_initialize()` is taken to return: every field holds its null constant |
| SymbolTable.Itemize | symbol_table.c:69-77 | returns a new array of 30 slots, each zeroed and tagged empty |
| SymbolTable.Table.constructor | symbol_table.c:57-63 | a new table has size 0 and the slots of `Itemize` |
| SymbolTable.Table.IsFull | symbol_table.c:262-264 | the table is never full, since `size` stays 0 |
| SymbolTable.Table.Search | symbol_table.c:232-244 | the probe loop returns `Find` of the current slots and the name's key |
| SymbolTable.Table.Exists | symbol_table.c:253-255 | true exactly when the search finds a slot |
| SymbolTable.Table.IsIdentifier | symbol_table.c:271-275 | true exactly when the search finds a slot tagged as an identifier |
| SymbolTable.Table.IsFunction | symbol_table.c:282-286 | true exactly when the search finds a slot tagged as a function |
| SymbolTable.Table.Put | symbol_table.c:298-319 | succeeds exactly when the table is not full and a free slot exists; the array then equals `Inserted`, and otherwise it is unchanged |
| SymbolTable.Table.InsertIdentifier | symbol_table.c:295-320 | writes an identifier entry with no arguments into the free slot, or fails with the table unchanged |
| SymbolTable.Table.InsertFunction | symbol_table.c:331-357 | as written: writes an entry holding the argument count, list and body, tagged as an identifier, or fails with the table unchanged |
| SymbolTable.Table.InsertFunctionTagged | symbol_table.c:331-357 | the same as `InsertFunction`, but the entry is tagged as a function |
| SymbolTable.Table.Assign | symbol_table.c:367-377 | succeeds exactly when the name is found; the array then equals `Assigned`, and otherwise it is unchanged |
| SymbolTable.Table.GetArgs | symbol_table.c:385-389 | the found slot's argument count, or 0 when the name is not found |
| SymbolTable.Table.GetValue | symbol_table.c:398-402 | the found slot's value, or a new integer 0 when the name is not found |
| SymbolTable.Table.GetList | symbol_table.c:410-414 | the found slot's parameter list, or NULL when the name is not found |
| SymbolTable.Table.GetNode | symbol_table.c:422-426 | the found slot's body, or a freshly initialised node when the name is not found |
| SymbolTable.Table.ParamEqual | symbol_table.c:149-153 | true exactly when the given count equals the found slot's argument count, or equals 0 when the name is not found |

## Left out

- Float arithmetic and comparison (data.c:61-72, 84-85, 139-151, 165): the payload is the binary32 bit pattern. The operators are supplied as a `FloatArith` record of functions, and their IEEE 754 semantics are not modelled.
- Data.Operation: integer overflow and division by zero are undefined in C. They are excluded by the precondition `OperationDefined`, not modelled.
- Data.Negative: negating `INT_MIN` overflows in C and is excluded by its precondition.
- SymbolHash.HashKey: the key is the exact polynomial as an unbounded integer. The C code computes each power of 31 as a `double` via `floor(pow(...))`, casts it to `int`, multiplies and accumulates in `int`. The model agrees with C for names of at most five 7-bit characters (`HashFitsInt32`). From six characters on the product and the sum can overflow: `abcdef` has key 2,870,581,347 (`HashOverflowExample`). From eight characters on the cast itself overflows, since 31^7 exceeds `INT_MAX`.
- SymbolHash.HashKey: characters are taken as non-negative codes. C's `char` may be signed, which makes codes above 127 negative.
- `symbol_param_value` (symbol_table.c:126-139): its loop moves to `next` only when `next` is NULL. It therefore either stays on the head of the list or dereferences NULL, and has no intended behaviour to model.
- `symbol_print` (symbol_table.c:159-194): console output only.
- The `symtype` field of `symbol_table` (syntax_tree.h:53): no function reads or writes it.
- `syntax_initialize`: declared in syntax_tree.h:74, but its body is not part of this model. `InitialNode` takes it to return a node whose every field holds its null constant.
- syntax_tree.c, function_batch.c and simplified_tree.c are not part of this model:
  - syntax_tree.c assigns fields the node does not have (syntax_tree.c:54-55).
  - The search, insertion and assignment of function_batch.c are declared without bodies (function_batch.h:48-54).
  - simplified_tree.c holds declarations only.
  - The tree-walking evaluator that would execute stored function bodies has no code among these files.
- Memory is not modelled: allocation, ownership, and pointer aliasing. Entries hold their names, values, lists and bodies by value. Two consequences:
  - `ParamJoin` returns a new list instead of overwriting `one->next`, so other holders of `one` do not see the change.
  - A NULL `data_value` pointer passed to an insertion or an assignment is not modelled, and neither is a NULL `syntax_node` body passed to `symbol_insert_function`. `InsertFunction` always stores the value and the body as present.
- Params.ParamJoin: its precondition that `one` is non-empty stands for the C code's dereference of `one`, which would crash on NULL.

## Findings

| source | as written | input that shows it | evidently intended | confidence | as-written member | corrected member |
|---|---|---|---|---|---|---|
| symbol_table.c:350 | `symbol_insert_function` tags the new entry `SYMBOL_IDENTIFIER`, so no slot is ever tagged `SYMBOL_FUNCTION` and `symbol_is_function` is false for every name | declare function `f` in a fresh table, then call `symbol_is_function(table, "f")`: false | the entry is tagged `SYMBOL_FUNCTION`, so a declared function is reported as one | not executed | SymbolProbe.FunctionTagAsWritten | SymbolProbe.FunctionTagCorrected |
