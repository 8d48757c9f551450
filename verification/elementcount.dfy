/** The bound on a tool call's arguments: an explicit-stack count that stops as
    soon as it passes the bound, against the plain recursive count. */
module ElementCount {
  import opened Types

  /** A JSON value; `own` is false for a member a `for in` loop meets on the
      prototype. */
  datatype Json = Scalar | Array(items: seq<Json>) | Object(members: seq<Member>)

  datatype Member = Member(key: string, own: bool, value: Json)

  /** Every array element and every own member, at any depth. */
  function Elements(v: Json): nat {
    match v
    case Scalar => 0
    case Array(items) => OfItems(items)
    case Object(members) => OfMembers(members)
  }

  function OfItems(items: seq<Json>): nat {
    if items == [] then 0 else 1 + Elements(items[0]) + OfItems(items[1..])
  }

  function OfMembers(members: seq<Member>): nat {
    if members == [] then 0
    else (if members[0].own then 1 + Elements(members[0].value) else 0) + OfMembers(members[1..])
  }

  /** The count, by the shape of a value: nothing for a scalar or an empty container,
      one and what is below for each element or own member, nothing for a member that
      is not its own; and containers add up. */
  lemma ElementsMeaning(v: Json, key: string)
    ensures Elements(Scalar) == Elements(Array([])) == Elements(Object([])) == 0
    ensures Elements(Array([v])) == 1 + Elements(v)
    ensures Elements(Object([Member(key, true, v)])) == 1 + Elements(v)
    ensures Elements(Object([Member(key, false, v)])) == 0
  {
    var own, inherited := [Member(key, true, v)], [Member(key, false, v)];
    assert [v][1..] == [] && own[1..] == [] && inherited[1..] == [];
    assert OfItems([v]) == 1 + Elements(v) + OfItems([v][1..]);
    assert OfMembers(own) == 1 + Elements(v) + OfMembers(own[1..]);
    assert OfMembers(inherited) == OfMembers(inherited[1..]);
  }

  lemma {:induction false} ItemsAdd(a: seq<Json>, b: seq<Json>)
    ensures Elements(Array(a + b)) == Elements(Array(a)) + Elements(Array(b))
  {
    if a == [] {
      assert a + b == b;
    } else {
      assert (a + b)[1..] == a[1..] + b;
      ItemsAdd(a[1..], b);
    }
  }

  lemma {:induction false} MembersAdd(a: seq<Member>, b: seq<Member>)
    ensures Elements(Object(a + b)) == Elements(Object(a)) + Elements(Object(b))
  {
    if a == [] {
      assert a + b == b;
    } else {
      assert (a + b)[1..] == a[1..] + b;
      MembersAdd(a[1..], b);
    }
  }

  /** What is still to be counted under the values on the stack. */
  function Below(stack: seq<Json>): nat {
    if stack == [] then 0 else Below(stack[..|stack| - 1]) + Elements(stack[|stack| - 1])
  }

  lemma BelowPush(stack: seq<Json>, v: Json)
    ensures Below(stack + [v]) == Below(stack) + Elements(v)
  {
    assert (stack + [v])[..|stack|] == stack;
  }

  /** One child of the value being walked: counted, and put on the stack if it has
      children of its own. */
  method Visit(child: Json, stack: seq<Json>, count: nat, max: nat) returns (stack': seq<Json>, count': nat)
    ensures count' == count + 1
    ensures count' > max ==> stack' == stack
    ensures count' <= max ==> Below(stack') == Below(stack) + Elements(child) && |stack| <= |stack'| <= |stack| + 1
  {
    stack', count' := stack, count + 1;
    if count' > max { return; }
    if !child.Scalar? {
      BelowPush(stack, child);
      stack' := stack + [child];
    }
  }

  method Walk(node: Json, stack: seq<Json>, count: nat, max: nat) returns (stack': seq<Json>, count': nat)
    requires count <= max
    ensures count' > max ==> count' == max + 1 && count + Elements(node) > max
    ensures count' <= max ==> count' + Below(stack') == count + Below(stack) + Elements(node)
    ensures count' <= max ==> |stack'| - |stack| <= count' - count
  {
    stack', count' := stack, count;
    match node {
      case Scalar =>
      case Array(items) =>
        assert items[0..] == items;
        for i := 0 to |items|
          invariant count' <= max
          invariant count' + Below(stack') + OfItems(items[i..]) == count + Below(stack) + OfItems(items)
          invariant |stack'| - |stack| <= count' - count
          invariant count' - count + OfItems(items[i..]) <= OfItems(items)
        {
          assert items[i..][1..] == items[i + 1..];
          stack', count' := Visit(items[i], stack', count', max);
          if count' > max { return; }
        }
      case Object(members) =>
        assert members[0..] == members;
        for i := 0 to |members|
          invariant count' <= max
          invariant count' + Below(stack') + OfMembers(members[i..]) == count + Below(stack) + OfMembers(members)
          invariant |stack'| - |stack| <= count' - count
          invariant count' - count + OfMembers(members[i..]) <= OfMembers(members)
        {
          assert members[i..][1..] == members[i + 1..];
          if !members[i].own { continue; }
          stack', count' := Visit(members[i].value, stack', count', max);
          if count' > max { return; }
        }
    }
  }

  /** The exact count when it is at most `max`, otherwise exactly `max + 1`; at
      most `max + 1` values are taken from the stack. */
  method ToolInputElementCount(value: Json, max: nat) returns (count: nat, ghost pops: nat)
    ensures count == Min(Elements(value), max + 1)
    ensures pops <= max + 1
  {
    count, pops := 0, 0;
    var stack := [value];
    BelowPush([], value);
    assert [] + [value] == [value];
    while stack != []
      invariant count <= max
      invariant count + Below(stack) == Elements(value)
      invariant pops + |stack| <= count + 1
      decreases Below(stack) + |stack|
    {
      var node := stack[|stack| - 1];
      stack := stack[..|stack| - 1];
      pops := pops + 1;
      stack, count := Walk(node, stack, count, max);
      if count > max { return; }
    }
  }

  /** A call is refused exactly when its arguments hold more than `max` elements. */
  method ToolInputBoundRefusal(args: Json, max: nat) returns (refused: bool)
    ensures refused <==> Elements(args) > max
  {
    var count, _ := ToolInputElementCount(args, max);
    return count > max;
  }
}
