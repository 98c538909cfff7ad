/** The protocol's opcode constants and their diagnostic names (enum/opcode.go). */
module OpCodes {
  import opened Wrappers
  import opened Bytes
  import Text

  type OpCode = byte

  const LoginOrPendingState: OpCode := 10
  const MapLeftRow: OpCode := 104
  const ChangeOnMap: OpCode := 107
  const MoveCreature: OpCode := 109
  const MarkCreature: OpCode := 134
  const CreatureHealth: OpCode := 140
  const PlayerData: OpCode := 160
  const Talk: OpCode := 170

  /** The name table; None for a value the table does not list. */
  function TableName(c: OpCode): Option<string>
  {
    match c
    case 10 => Some("LoginOrPendingState")
    case 11 => Some("GMActions")
    case 12 => Some("UpdateNeeded")
    case 13 => Some("LoginError")
    case 14 => Some("LoginAdvice")
    case 15 => Some("LoginWait")
    case 16 => Some("LoginToken")
    case 29 => Some("Ping")
    case 30 => Some("PingBack")
    case 31 => Some("Challenge")
    case 32 => Some("NewPing")
    case 40 => Some("Death")
    case 100 => Some("FullMap")
    case 101 => Some("MapTopRow")
    case 102 => Some("MapRightRow")
    case 103 => Some("MapBottomRow")
    case 104 => Some("MapLeftRow")
    case 105 => Some("UpdateTile")
    case 106 => Some("CreateOnMap")
    case 107 => Some("ChangeOnMap")
    case 108 => Some("DeleteOnMap")
    case 109 => Some("MoveCreature")
    case 110 => Some("OpenContainer")
    case 111 => Some("CloseContainer")
    case 112 => Some("CreateContainer")
    case 113 => Some("ChangeInContainer")
    case 114 => Some("DeleteInContainer")
    case 120 => Some("SetInventory")
    case 121 => Some("DeleteInventory")
    case 122 => Some("OpenNpcTrade")
    case 123 => Some("PlayerGoods")
    case 124 => Some("CloseNpcTrade")
    case 125 => Some("OwnTrade")
    case 126 => Some("CounterTrade")
    case 127 => Some("CloseTrade")
    case 130 => Some("Ambient")
    case 131 => Some("GraphicalEffect")
    case 132 => Some("TextEffect")
    case 133 => Some("MissleEffect")
    case 134 => Some("MarkCreature")
    case 135 => Some("Trappers")
    case 140 => Some("CreatureHealth")
    case 141 => Some("CreatureLight")
    case 142 => Some("CreatureOutfit")
    case 143 => Some("CreatureSpeed")
    case 144 => Some("CreatureSkull")
    case 145 => Some("CreatureParty")
    case 146 => Some("CreatureUnpass")
    case 147 => Some("CreatureMarks")
    case 148 => Some("PlayerHelpers")
    case 149 => Some("CreatureType")
    case 150 => Some("EditText")
    case 151 => Some("EditList")
    case 156 => Some("Blessings")
    case 157 => Some("Preset")
    case 158 => Some("PremiumTrigger")
    case 159 => Some("PlayerDataBasic")
    case 160 => Some("PlayerData")
    case 161 => Some("PlayerSkills")
    case 162 => Some("PlayerState")
    case 163 => Some("ClearTarget")
    case 167 => Some("PlayerModes")
    case 164 => Some("SpellDelay")
    case 165 => Some("SpellGroupDelay")
    case 166 => Some("MultiUseDelay")
    case 168 => Some("SetStoreDeepLink")
    case 170 => Some("Talk")
    case 171 => Some("Channels")
    case 172 => Some("OpenChannel")
    case 173 => Some("OpenPrivateChannel")
    case 174 => Some("RuleViolationChannel")
    case 175 => Some("RuleViolationRemove")
    case 176 => Some("RuleViolationCancel")
    case 177 => Some("RuleViolationLock")
    case 178 => Some("OpenOwnChannel")
    case 179 => Some("CloseChannel")
    case 180 => Some("TextMessage")
    case 181 => Some("CancelWalk")
    case 182 => Some("WalkWait")
    case 190 => Some("FloorChangeUp")
    case 191 => Some("FloorChangeDown")
    case 200 => Some("ChooseOutfit")
    case 210 => Some("VipAdd")
    case 211 => Some("VipState")
    case 212 => Some("VipLogout")
    case 220 => Some("TutorialHint")
    case 221 => Some("AutomapFlag")
    case 240 => Some("QuestLog")
    case 241 => Some("QuestLine")
    case _ => None
  }

  function String(c: OpCode): string
  {
    match TableName(c)
    case Some(name) => name
    case None => Text.UnknownName(c)
  }

  /** No listed name begins with "Un". */
  lemma ListedNamesNotUn(c: OpCode)
    requires TableName(c).Some?
    ensures |TableName(c).value| >= 2
    ensures TableName(c).value[0] != 'U' || TableName(c).value[1] != 'n'
  {
    if c <= 102 {
      ListedNamesNotUnIn0(c);
    } else if c <= 122 {
      ListedNamesNotUnIn1(c);
    } else if c <= 143 {
      ListedNamesNotUnIn2(c);
    } else if c <= 162 {
      ListedNamesNotUnIn3(c);
    } else if c <= 178 {
      ListedNamesNotUnIn4(c);
    } else {
      ListedNamesNotUnIn5(c);
    }
  }

  lemma ListedNamesNotUnIn0(c: OpCode)
    requires 10 <= c <= 102 && TableName(c).Some?
    ensures |TableName(c).value| >= 2
    ensures TableName(c).value[0] != 'U' || TableName(c).value[1] != 'n'
  {
  }

  lemma ListedNamesNotUnIn1(c: OpCode)
    requires 103 <= c <= 122 && TableName(c).Some?
    ensures |TableName(c).value| >= 2
    ensures TableName(c).value[0] != 'U' || TableName(c).value[1] != 'n'
  {
  }

  lemma ListedNamesNotUnIn2(c: OpCode)
    requires 123 <= c <= 143 && TableName(c).Some?
    ensures |TableName(c).value| >= 2
    ensures TableName(c).value[0] != 'U' || TableName(c).value[1] != 'n'
  {
  }

  lemma ListedNamesNotUnIn3(c: OpCode)
    requires 144 <= c <= 162 && TableName(c).Some?
    ensures |TableName(c).value| >= 2
    ensures TableName(c).value[0] != 'U' || TableName(c).value[1] != 'n'
  {
  }

  lemma ListedNamesNotUnIn4(c: OpCode)
    requires 163 <= c <= 178 && TableName(c).Some?
    ensures |TableName(c).value| >= 2
    ensures TableName(c).value[0] != 'U' || TableName(c).value[1] != 'n'
  {
  }

  lemma ListedNamesNotUnIn5(c: OpCode)
    requires 179 <= c <= 241 && TableName(c).Some?
    ensures |TableName(c).value| >= 2
    ensures TableName(c).value[0] != 'U' || TableName(c).value[1] != 'n'
  {
  }

  /**
   * The test `strings.HasPrefix(op.String(), "Unknown")` holds exactly for
   * the values the table does not list.
   */
  lemma UnknownPrefixIffUnlisted(c: OpCode)
    ensures Text.HasPrefix(String(c), "Unknown") <==> TableName(c).None?
  {
    if TableName(c).Some? {
      ListedNamesNotUn(c);
    } else {
      var s := String(c);
      assert s[..7] == "Unknown";
    }
  }

  /**
   * 0, the opcode of an empty packet, is not listed (the lowest listed value
   * is 10), so it renders as "Unknown-0"; Talk renders under its own name.
   */
  lemma EmptyPacketOpCodeName()
    ensures TableName(0).None? && String(0) == "Unknown-0"
    ensures forall c: OpCode :: c < LoginOrPendingState ==> TableName(c).None?
    ensures String(Talk) == "Talk"
  {
  }
}

/** The name table read backwards: a listed name determines its opcode. */
module OpCodeNameInverse {
  import opened Wrappers
  import opened OpCodes

  /** The listed opcode whose name has the given length, second letter and last
      two letters; the listed names all differ in these four. */
  function KeyedOpCode(name: string): Option<OpCode>
  {
    if |name| < 2 then None
    else if |name| == 19 && name[1] == 'o' && name[|name| - 1] == 'e' && name[|name| - 2] == 't'
    then Some(10)
    else if |name| == 9 && name[1] == 'M' && name[|name| - 1] == 's' && name[|name| - 2] == 'n'
    then Some(11)
    else if |name| == 12 && name[1] == 'p' && name[|name| - 1] == 'd' && name[|name| - 2] == 'e'
    then Some(12)
    else if |name| == 10 && name[1] == 'o' && name[|name| - 1] == 'r' && name[|name| - 2] == 'o'
    then Some(13)
    else if |name| == 11 && name[1] == 'o' && name[|name| - 1] == 'e' && name[|name| - 2] == 'c'
    then Some(14)
    else if |name| == 9 && name[1] == 'o' && name[|name| - 1] == 't' && name[|name| - 2] == 'i'
    then Some(15)
    else if |name| == 10 && name[1] == 'o' && name[|name| - 1] == 'n' && name[|name| - 2] == 'e'
    then Some(16)
    else if |name| == 4 && name[1] == 'i' && name[|name| - 1] == 'g' && name[|name| - 2] == 'n'
    then Some(29)
    else if |name| == 8 && name[1] == 'i' && name[|name| - 1] == 'k' && name[|name| - 2] == 'c'
    then Some(30)
    else if |name| == 9 && name[1] == 'h' && name[|name| - 1] == 'e' && name[|name| - 2] == 'g'
    then Some(31)
    else if |name| == 7 && name[1] == 'e' && name[|name| - 1] == 'g' && name[|name| - 2] == 'n'
    then Some(32)
    else if |name| == 5 && name[1] == 'e' && name[|name| - 1] == 'h' && name[|name| - 2] == 't'
    then Some(40)
    else if |name| == 7 && name[1] == 'u' && name[|name| - 1] == 'p' && name[|name| - 2] == 'a'
    then Some(100)
    else if |name| == 9 && name[1] == 'a' && name[|name| - 1] == 'w' && name[|name| - 2] == 'o'
    then Some(101)
    else if |name| == 11 && name[1] == 'a' && name[|name| - 1] == 'w' && name[|name| - 2] == 'o'
    then Some(102)
    else if |name| == 12 && name[1] == 'a' && name[|name| - 1] == 'w' && name[|name| - 2] == 'o'
    then Some(103)
    else if |name| == 10 && name[1] == 'a' && name[|name| - 1] == 'w' && name[|name| - 2] == 'o'
    then Some(104)
    else if |name| == 10 && name[1] == 'p' && name[|name| - 1] == 'e' && name[|name| - 2] == 'l'
    then Some(105)
    else if |name| == 11 && name[1] == 'r' && name[|name| - 1] == 'p' && name[|name| - 2] == 'a'
    then Some(106)
    else if |name| == 11 && name[1] == 'h' && name[|name| - 1] == 'p' && name[|name| - 2] == 'a'
    then Some(107)
    else if |name| == 11 && name[1] == 'e' && name[|name| - 1] == 'p' && name[|name| - 2] == 'a'
    then Some(108)
    else if |name| == 12 && name[1] == 'o' && name[|name| - 1] == 'e' && name[|name| - 2] == 'r'
    then Some(109)
    else if |name| == 13 && name[1] == 'p' && name[|name| - 1] == 'r' && name[|name| - 2] == 'e'
    then Some(110)
    else if |name| == 14 && name[1] == 'l' && name[|name| - 1] == 'r' && name[|name| - 2] == 'e'
    then Some(111)
    else if |name| == 15 && name[1] == 'r' && name[|name| - 1] == 'r' && name[|name| - 2] == 'e'
    then Some(112)
    else if |name| == 17 && name[1] == 'h' && name[|name| - 1] == 'r' && name[|name| - 2] == 'e'
    then Some(113)
    else if |name| == 17 && name[1] == 'e' && name[|name| - 1] == 'r' && name[|name| - 2] == 'e'
    then Some(114)
    else if |name| == 12 && name[1] == 'e' && name[|name| - 1] == 'y' && name[|name| - 2] == 'r'
    then Some(120)
    else if |name| == 15 && name[1] == 'e' && name[|name| - 1] == 'y' && name[|name| - 2] == 'r'
    then Some(121)
    else if |name| == 12 && name[1] == 'p' && name[|name| - 1] == 'e' && name[|name| - 2] == 'd'
    then Some(122)
    else if |name| == 11 && name[1] == 'l' && name[|name| - 1] == 's' && name[|name| - 2] == 'd'
    then Some(123)
    else if |name| == 13 && name[1] == 'l' && name[|name| - 1] == 'e' && name[|name| - 2] == 'd'
    then Some(124)
    else if |name| == 8 && name[1] == 'w' && name[|name| - 1] == 'e' && name[|name| - 2] == 'd'
    then Some(125)
    else if |name| == 12 && name[1] == 'o' && name[|name| - 1] == 'e' && name[|name| - 2] == 'd'
    then Some(126)
    else if |name| == 10 && name[1] == 'l' && name[|name| - 1] == 'e' && name[|name| - 2] == 'd'
    then Some(127)
    else if |name| == 7 && name[1] == 'm' && name[|name| - 1] == 't' && name[|name| - 2] == 'n'
    then Some(130)
    else if |name| == 15 && name[1] == 'r' && name[|name| - 1] == 't' && name[|name| - 2] == 'c'
    then Some(131)
    else if |name| == 10 && name[1] == 'e' && name[|name| - 1] == 't' && name[|name| - 2] == 'c'
    then Some(132)
    else if |name| == 12 && name[1] == 'i' && name[|name| - 1] == 't' && name[|name| - 2] == 'c'
    then Some(133)
    else if |name| == 12 && name[1] == 'a' && name[|name| - 1] == 'e' && name[|name| - 2] == 'r'
    then Some(134)
    else if |name| == 8 && name[1] == 'r' && name[|name| - 1] == 's' && name[|name| - 2] == 'r'
    then Some(135)
    else if |name| == 14 && name[1] == 'r' && name[|name| - 1] == 'h' && name[|name| - 2] == 't'
    then Some(140)
    else if |name| == 13 && name[1] == 'r' && name[|name| - 1] == 't' && name[|name| - 2] == 'h'
    then Some(141)
    else if |name| == 14 && name[1] == 'r' && name[|name| - 1] == 't' && name[|name| - 2] == 'i'
    then Some(142)
    else if |name| == 13 && name[1] == 'r' && name[|name| - 1] == 'd' && name[|name| - 2] == 'e'
    then Some(143)
    else if |name| == 13 && name[1] == 'r' && name[|name| - 1] == 'l' && name[|name| - 2] == 'l'
    then Some(144)
    else if |name| == 13 && name[1] == 'r' && name[|name| - 1] == 'y' && name[|name| - 2] == 't'
    then Some(145)
    else if |name| == 14 && name[1] == 'r' && name[|name| - 1] == 's' && name[|name| - 2] == 's'
    then Some(146)
    else if |name| == 13 && name[1] == 'r' && name[|name| - 1] == 's' && name[|name| - 2] == 'k'
    then Some(147)
    else if |name| == 13 && name[1] == 'l' && name[|name| - 1] == 's' && name[|name| - 2] == 'r'
    then Some(148)
    else if |name| == 12 && name[1] == 'r' && name[|name| - 1] == 'e' && name[|name| - 2] == 'p'
    then Some(149)
    else if |name| == 8 && name[1] == 'd' && name[|name| - 1] == 't' && name[|name| - 2] == 'x'
    then Some(150)
    else if |name| == 8 && name[1] == 'd' && name[|name| - 1] == 't' && name[|name| - 2] == 's'
    then Some(151)
    else if |name| == 9 && name[1] == 'l' && name[|name| - 1] == 's' && name[|name| - 2] == 'g'
    then Some(156)
    else if |name| == 6 && name[1] == 'r' && name[|name| - 1] == 't' && name[|name| - 2] == 'e'
    then Some(157)
    else if |name| == 14 && name[1] == 'r' && name[|name| - 1] == 'r' && name[|name| - 2] == 'e'
    then Some(158)
    else if |name| == 15 && name[1] == 'l' && name[|name| - 1] == 'c' && name[|name| - 2] == 'i'
    then Some(159)
    else if |name| == 10 && name[1] == 'l' && name[|name| - 1] == 'a' && name[|name| - 2] == 't'
    then Some(160)
    else if |name| == 12 && name[1] == 'l' && name[|name| - 1] == 's' && name[|name| - 2] == 'l'
    then Some(161)
    else if |name| == 11 && name[1] == 'l' && name[|name| - 1] == 'e' && name[|name| - 2] == 't'
    then Some(162)
    else if |name| == 11 && name[1] == 'l' && name[|name| - 1] == 't' && name[|name| - 2] == 'e'
    then Some(163)
    else if |name| == 11 && name[1] == 'l' && name[|name| - 1] == 's' && name[|name| - 2] == 'e'
    then Some(167)
    else if |name| == 10 && name[1] == 'p' && name[|name| - 1] == 'y' && name[|name| - 2] == 'a'
    then Some(164)
    else if |name| == 15 && name[1] == 'p' && name[|name| - 1] == 'y' && name[|name| - 2] == 'a'
    then Some(165)
    else if |name| == 13 && name[1] == 'u' && name[|name| - 1] == 'y' && name[|name| - 2] == 'a'
    then Some(166)
    else if |name| == 16 && name[1] == 'e' && name[|name| - 1] == 'k' && name[|name| - 2] == 'n'
    then Some(168)
    else if |name| == 4 && name[1] == 'a' && name[|name| - 1] == 'k' && name[|name| - 2] == 'l'
    then Some(170)
    else if |name| == 8 && name[1] == 'h' && name[|name| - 1] == 's' && name[|name| - 2] == 'l'
    then Some(171)
    else if |name| == 11 && name[1] == 'p' && name[|name| - 1] == 'l' && name[|name| - 2] == 'e'
    then Some(172)
    else if |name| == 18 && name[1] == 'p' && name[|name| - 1] == 'l' && name[|name| - 2] == 'e'
    then Some(173)
    else if |name| == 20 && name[1] == 'u' && name[|name| - 1] == 'l' && name[|name| - 2] == 'e'
    then Some(174)
    else if |name| == 19 && name[1] == 'u' && name[|name| - 1] == 'e' && name[|name| - 2] == 'v'
    then Some(175)
    else if |name| == 19 && name[1] == 'u' && name[|name| - 1] == 'l' && name[|name| - 2] == 'e'
    then Some(176)
    else if |name| == 17 && name[1] == 'u' && name[|name| - 1] == 'k' && name[|name| - 2] == 'c'
    then Some(177)
    else if |name| == 14 && name[1] == 'p' && name[|name| - 1] == 'l' && name[|name| - 2] == 'e'
    then Some(178)
    else if |name| == 12 && name[1] == 'l' && name[|name| - 1] == 'l' && name[|name| - 2] == 'e'
    then Some(179)
    else if |name| == 11 && name[1] == 'e' && name[|name| - 1] == 'e' && name[|name| - 2] == 'g'
    then Some(180)
    else if |name| == 10 && name[1] == 'a' && name[|name| - 1] == 'k' && name[|name| - 2] == 'l'
    then Some(181)
    else if |name| == 8 && name[1] == 'a' && name[|name| - 1] == 't' && name[|name| - 2] == 'i'
    then Some(182)
    else if |name| == 13 && name[1] == 'l' && name[|name| - 1] == 'p' && name[|name| - 2] == 'U'
    then Some(190)
    else if |name| == 15 && name[1] == 'l' && name[|name| - 1] == 'n' && name[|name| - 2] == 'w'
    then Some(191)
    else if |name| == 12 && name[1] == 'h' && name[|name| - 1] == 't' && name[|name| - 2] == 'i'
    then Some(200)
    else if |name| == 6 && name[1] == 'i' && name[|name| - 1] == 'd' && name[|name| - 2] == 'd'
    then Some(210)
    else if |name| == 8 && name[1] == 'i' && name[|name| - 1] == 'e' && name[|name| - 2] == 't'
    then Some(211)
    else if |name| == 9 && name[1] == 'i' && name[|name| - 1] == 't' && name[|name| - 2] == 'u'
    then Some(212)
    else if |name| == 12 && name[1] == 'u' && name[|name| - 1] == 't' && name[|name| - 2] == 'n'
    then Some(220)
    else if |name| == 11 && name[1] == 'u' && name[|name| - 1] == 'g' && name[|name| - 2] == 'a'
    then Some(221)
    else if |name| == 8 && name[1] == 'u' && name[|name| - 1] == 'g' && name[|name| - 2] == 'o'
    then Some(240)
    else if |name| == 9 && name[1] == 'u' && name[|name| - 1] == 'e' && name[|name| - 2] == 'n'
    then Some(241)
    else None
  }

  /** Every listed name leads back to its opcode (proved over ten ranges of the table). */
  lemma NameIdentifiesOpCode(c: OpCode)
    ensures TableName(c).Some? ==> KeyedOpCode(TableName(c).value) == Some(c)
  {
    if c <= 29 {
      NameIdentifiesOpCodeIn0(c);
    } else if c <= 104 {
      NameIdentifiesOpCodeIn1(c);
    } else if c <= 113 {
      NameIdentifiesOpCodeIn2(c);
    } else if c <= 127 {
      NameIdentifiesOpCodeIn3(c);
    } else if c <= 142 {
      NameIdentifiesOpCodeIn4(c);
    } else if c <= 151 {
      NameIdentifiesOpCodeIn5(c);
    } else if c <= 167 {
      NameIdentifiesOpCodeIn6(c);
    } else if c <= 174 {
      NameIdentifiesOpCodeIn7(c);
    } else if c <= 190 {
      NameIdentifiesOpCodeIn8(c);
    } else {
      NameIdentifiesOpCodeIn9(c);
    }
  }

  lemma NameIdentifiesOpCodeIn0(c: OpCode)
    requires c <= 29
    ensures TableName(c).Some? ==> KeyedOpCode(TableName(c).value) == Some(c)
  {
  }

  lemma NameIdentifiesOpCodeIn1(c: OpCode)
    requires 30 <= c <= 104
    ensures TableName(c).Some? ==> KeyedOpCode(TableName(c).value) == Some(c)
  {
  }

  lemma NameIdentifiesOpCodeIn2(c: OpCode)
    requires 105 <= c <= 113
    ensures TableName(c).Some? ==> KeyedOpCode(TableName(c).value) == Some(c)
  {
  }

  lemma NameIdentifiesOpCodeIn3(c: OpCode)
    requires 114 <= c <= 127
    ensures TableName(c).Some? ==> KeyedOpCode(TableName(c).value) == Some(c)
  {
  }

  lemma NameIdentifiesOpCodeIn4(c: OpCode)
    requires 128 <= c <= 142
    ensures TableName(c).Some? ==> KeyedOpCode(TableName(c).value) == Some(c)
  {
  }

  lemma NameIdentifiesOpCodeIn5(c: OpCode)
    requires 143 <= c <= 151
    ensures TableName(c).Some? ==> KeyedOpCode(TableName(c).value) == Some(c)
  {
  }

  lemma NameIdentifiesOpCodeIn6(c: OpCode)
    requires 152 <= c <= 167
    ensures TableName(c).Some? ==> KeyedOpCode(TableName(c).value) == Some(c)
  {
  }

  lemma NameIdentifiesOpCodeIn7(c: OpCode)
    requires 168 <= c <= 174
    ensures TableName(c).Some? ==> KeyedOpCode(TableName(c).value) == Some(c)
  {
  }

  lemma NameIdentifiesOpCodeIn8(c: OpCode)
    requires 175 <= c <= 190
    ensures TableName(c).Some? ==> KeyedOpCode(TableName(c).value) == Some(c)
  {
  }

  lemma NameIdentifiesOpCodeIn9(c: OpCode)
    requires 191 <= c <= 255
    ensures TableName(c).Some? ==> KeyedOpCode(TableName(c).value) == Some(c)
  {
  }

  /** No two opcodes share a listed name. */
  lemma NamesDistinct(c: OpCode, d: OpCode)
    ensures TableName(c).Some? && TableName(c) == TableName(d) ==> c == d
  {
    NameIdentifiesOpCode(c);
    NameIdentifiesOpCode(d);
  }
}
