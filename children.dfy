/**
 * The `Children` trait: typed child arguments with keys derived from the
 * parent's key. Pure: the receiver is only read.
 */
module Children {
  import opened Wrappers
  import opened Errors
  import opened ArgumentData
  import Php

  /** The object the trait method runs on. */
  datatype Receiver =
    | ArgumentReceiver(parent: ArgData)   // an Argument subclass using the trait
    | OtherReceiver                       // any other class using the trait

  const NotAnArgumentMessage := "Only classes that extend Argument can create children types"

  /** The child key, `"{parentKey}_{reference}"`. */
  function ChildKey(parentKey: string, reference: string): string {
    parentKey + "_" + reference
  }

  /**
   * `create_child($reference, $type)`: fails with 300 outside an Argument,
   * then with 301 for a type outside the type map, and otherwise returns a
   * fresh argument of the mapped class under the derived key.
   */
  function CreateChild(receiver: Receiver, reference: string, t: string): (r: Result<ArgData, Exception>)
    ensures receiver.OtherReceiver? ==> r == Failure(Exception(PlainException, NotAnArgumentMessage, 300))
    ensures receiver.ArgumentReceiver? && t !in TypeMap ==>
      r == Failure(Exception(PlainException, t + " is not a valid argument type.", 301))
    ensures r.Success? <==> receiver.ArgumentReceiver? && t in TypeMap
    ensures r.Success? ==> r.value.key == ChildKey(receiver.parent.key, reference)
    ensures r.Success? ==> r.value.typ == Str(t) && r.value.kind != Base && TypeName(r.value.kind) == t
    ensures r.Success? ==> r.value == Fresh(TypeMap[t], ChildKey(receiver.parent.key, reference))
  {
    match receiver
    case OtherReceiver =>
      Failure(Exception(PlainException, NotAnArgumentMessage, 300))
    case ArgumentReceiver(parent) =>
      if t !in TypeMap then
        Failure(Exception(PlainException, t + " is not a valid argument type.", 301))
      else
        TypeMapNamesItsClass(t);
        Success(Fresh(TypeMap[t], ChildKey(parent.key, reference)))
  }

  /** The receiver check comes first: a non-Argument receiver reports 300 even for an unknown type. */
  lemma ReceiverCheckedFirst(reference: string, t: string)
    ensures CreateChild(OtherReceiver, reference, t).Failure?
    ensures CreateChild(OtherReceiver, reference, t).error.code == 300
  {
  }

  /** `sprintf('item_type_%d', $n)`: the reference of the n-th array item. */
  function ItemReference(n: nat): string {
    "item_type_" + Php.DecimalString(n)
  }

  /** Distinct positions give distinct item keys under the same parent. */
  lemma ItemKeysDistinct(parentKey: string, n: nat, m: nat)
    requires n != m
    ensures ChildKey(parentKey, ItemReference(n)) != ChildKey(parentKey, ItemReference(m))
  {
    var prefix := parentKey + "_" + "item_type_";
    var a, b := Php.DecimalString(n), Php.DecimalString(m);
    if ChildKey(parentKey, ItemReference(n)) == ChildKey(parentKey, ItemReference(m)) {
      assert prefix + a == ChildKey(parentKey, ItemReference(n));
      assert prefix + b == ChildKey(parentKey, ItemReference(m));
      assert a == (prefix + a)[|prefix|..];
      assert b == (prefix + b)[|prefix|..];
      Php.DecimalInjective(n, m);
    }
  }
}
