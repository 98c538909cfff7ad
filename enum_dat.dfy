/** Categories and attributes of the item catalog (enum/dat.go). */
module DatEnums {
  import opened Wrappers
  import opened Bytes
  import Text

  type DatCategory = byte
  type DatAttribute = byte

  const CategoryItem: DatCategory := 0
  const CategoryCreature: DatCategory := 1
  const CategoryEffect: DatCategory := 2
  const CategoryMissile: DatCategory := 3
  const CategoryInvalid: DatCategory := 4
  const CategoryLast: DatCategory := CategoryInvalid

  const Stackable: DatAttribute := 5
  const FluidContainer: DatAttribute := 10
  const Splash: DatAttribute := 11
  const Light: DatAttribute := 21
  const Displacement: DatAttribute := 24
  const Elevation: DatAttribute := 25
  const LensHelp: DatAttribute := 29
  const Market: DatAttribute := 33
  const Bones: DatAttribute := 38
  const Chargeable: DatAttribute := 254
  const AttributeInvalid: DatAttribute := 255
  const AttributeLast: DatAttribute := AttributeInvalid

  function CategoryTableName(c: DatCategory): Option<string>
  {
    match c
    case 0 => Some("Item")
    case 1 => Some("Creature")
    case 2 => Some("Effect")
    case 3 => Some("Missile")
    case 4 => Some("Invalid")
    case _ => None
  }

  function CategoryString(c: DatCategory): string
  {
    match CategoryTableName(c)
    case Some(name) => name
    case None => Text.UnknownName(c)
  }

  function AttributeTableName(a: DatAttribute): Option<string>
  {
    match a
    case 0 => Some("Ground")
    case 1 => Some("GroundBorder")
    case 2 => Some("OnBottom")
    case 3 => Some("OnTop")
    case 4 => Some("Container")
    case 5 => Some("Stackable")
    case 6 => Some("ForceUse")
    case 7 => Some("MultiUse")
    case 8 => Some("Writable")
    case 9 => Some("WritableOnce")
    case 10 => Some("FluidContainer")
    case 11 => Some("Splash")
    case 12 => Some("NotWalkable")
    case 13 => Some("NotMoveable")
    case 14 => Some("BlockProjectile")
    case 15 => Some("NotPathable")
    case 16 => Some("Pickupable")
    case 17 => Some("Hangable")
    case 18 => Some("HookSouth")
    case 19 => Some("HookEast")
    case 20 => Some("Rotateable")
    case 21 => Some("Light")
    case 22 => Some("DontHide")
    case 23 => Some("FloorChange")
    case 24 => Some("Displacement")
    case 25 => Some("Elevation")
    case 26 => Some("LyingCorpse")
    case 27 => Some("AnimateAlways")
    case 28 => Some("MinimapColor")
    case 29 => Some("LensHelp")
    case 30 => Some("FullGround")
    case 31 => Some("Look")
    case 32 => Some("Cloth")
    case 33 => Some("Market")
    case 34 => Some("Usable")
    case 35 => Some("Wrapable")
    case 36 => Some("Unwrapable")
    case 37 => Some("TopEffect")
    case 38 => Some("Bones")
    case 100 => Some("Opacity")
    case 101 => Some("NotPreWalkable")
    case 253 => Some("NoMoveAnimation")
    case 254 => Some("Chargeable")
    case 255 => Some("Invalid")
    case _ => None
  }

  /** Attributes render as "<name>-<n>", unlisted ones as "Unknown-<n>". */
  function AttributeString(a: DatAttribute): string
  {
    match AttributeTableName(a)
    case Some(name) => name + "-" + Text.Decimal(a)
    case None => Text.UnknownName(a)
  }

  /** The five categories are 0..4, the last one being Invalid. */
  lemma Categories(c: DatCategory)
    ensures CategoryTableName(c).Some? <==> c <= CategoryLast
    ensures CategoryString(CategoryLast) == "Invalid"
    ensures c > CategoryLast ==> CategoryString(c) == "Unknown-" + Text.Decimal(c)
  {
  }

  /** The listed attributes: 0-38, 100, 101 and 253-255. */
  lemma ListedAttributes(a: DatAttribute)
    ensures AttributeTableName(a).Some? <==> a <= 38 || a == 100 || a == 101 || a >= 253
  {
  }

  /** Listed attributes carry their number after the name. */
  lemma AttributeStrings()
    ensures AttributeString(Stackable) == "Stackable-5"
    ensures AttributeString(Chargeable) == "Chargeable-254"
  {
  }

  /** No listed attribute name holds a '-' or is "Unknown". */
  lemma AttributeNamesPlain(a: DatAttribute)
    ensures AttributeTableName(a).Some? ==>
      '-' !in AttributeTableName(a).value && AttributeTableName(a).value != "Unknown"
  {
    if a <= 12 {
      AttributeNamesPlainIn0(a);
    } else if a <= 25 {
      AttributeNamesPlainIn1(a);
    } else {
      AttributeNamesPlainIn2(a);
    }
  }

  lemma AttributeNamesPlainIn0(a: DatAttribute)
    requires a <= 12
    ensures AttributeTableName(a).Some? ==>
      '-' !in AttributeTableName(a).value && AttributeTableName(a).value != "Unknown"
  {
  }

  lemma AttributeNamesPlainIn1(a: DatAttribute)
    requires 13 <= a <= 25
    ensures AttributeTableName(a).Some? ==>
      '-' !in AttributeTableName(a).value && AttributeTableName(a).value != "Unknown"
  {
  }

  lemma AttributeNamesPlainIn2(a: DatAttribute)
    requires 26 <= a
    ensures AttributeTableName(a).Some? ==>
      '-' !in AttributeTableName(a).value && AttributeTableName(a).value != "Unknown"
  {
  }

  /**
   * Every attribute's rendering splits at its '-' into the attribute's name
   * ("Unknown" when the table does not list it) and its number in decimal.
   */
  lemma AttributeStringSplits(a: DatAttribute)
    ensures Text.Split(AttributeString(a), "-") ==
      [if AttributeTableName(a).Some? then AttributeTableName(a).value else "Unknown", Text.Decimal(a)]
  {
    AttributeNamesPlain(a);
    var name := if AttributeTableName(a).Some? then AttributeTableName(a).value else "Unknown";
    var digits := Text.Decimal(a);
    assert AttributeString(a) == name + ['-'] + digits;
    Text.SplitOnce(name, '-', digits);
  }
}
