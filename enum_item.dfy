/** The item-id sentinels that mark creatures inside "thing" records (enum/item.go). */
module Items {
  import opened Wrappers
  import opened Bytes
  import Text

  /** An item id is a 16-bit value. */
  type Item = u16

  const Invalid: Item := 0
  const UnknownCreature: Item := 97
  const OutdatedCreature: Item := 98
  const Creature: Item := 99

  function TableName(c: Item): Option<string>
  {
    match c
    case 0 => Some("Invalid")
    case 97 => Some("UnknownCreature")
    case 98 => Some("OutdatedCreature")
    case 99 => Some("Creature")
    case _ => None
  }

  function String(c: Item): (s: string)
  {
    match TableName(c)
    case Some(name) => name
    case None => Text.UnknownName(c)
  }

  /** The ids that denote a creature rather than an item. */
  predicate IsCreature(c: Item)
  {
    c == UnknownCreature || c == OutdatedCreature || c == Creature
  }

  /**
   * Exactly the four sentinels are named, under four different names; every
   * other id renders as "Unknown-<n>".
   */
  lemma Sentinels(c: Item)
    ensures TableName(c).Some? <==> c == Invalid || IsCreature(c)
    ensures IsCreature(c) <==> 97 <= c <= 99
    ensures TableName(c).None? ==> String(c) == "Unknown-" + Text.Decimal(c)
    ensures forall d: Item :: TableName(c).Some? && TableName(c) == TableName(d) ==> c == d
  {
    forall d: Item | TableName(c).Some? && TableName(c) == TableName(d)
      ensures c == d
    {
      assert |String(c)| == |String(d)|;
    }
  }
}
