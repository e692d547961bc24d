/**
 * Parameter lists (`param_list` in symbol_table.c): a singly linked list of
 * parameter names, each with an optional value.
 */
module Params {
  import opened Wrappers
  import opened Data

  /** A `param_list *`: `Nil` is the NULL pointer. */
  datatype ParamList =
    | Nil
    | Param(identifier: string, value: Option<DataValue>, next: ParamList)

  /** The number of nodes reachable from `list`. */
  function Length(list: ParamList): (n: nat)
    ensures n == 0 <==> list.Nil?
  {
    if list.Nil? then 0 else 1 + Length(list.next)
  }

  /** `symbol_param_create`: a list of one parameter. */
  function ParamCreate(identifier: string, value: Option<DataValue>): (r: ParamList)
    ensures Length(r) == 1
    ensures r.identifier == identifier && r.value == value
  {
    Param(identifier, value, Nil)
  }

  /**
   * `symbol_param_join`: the head node of `one` followed by `two`.  The C code
   * overwrites `one->next`, so whatever followed the head of `one` is dropped.
   */
  function ParamJoin(one: ParamList, two: ParamList): (r: ParamList)
    requires one.Param?
    ensures Length(r) == 1 + Length(two)
    ensures r.identifier == one.identifier && r.value == one.value && r.next == two
  {
    one.(next := two)
  }

  /** `symbol_param_count`: walks the list to its end, counting nodes. */
  method ParamCount(list: ParamList) returns (count: nat)
    ensures count == Length(list)
  {
    var rest := list;
    count := 0;
    while rest != Nil
      invariant count + Length(rest) == Length(list)
      decreases Length(rest)
    {
      rest := rest.next;
      count := count + 1;
    }
  }
}
