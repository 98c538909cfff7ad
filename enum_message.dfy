/** Message-mode constants of Talk packets and their names (enum/message.go). */
module MessageModes {
  import opened Wrappers
  import opened Bytes
  import Text

  type MessageMode = byte

  const MessageNone: MessageMode := 0
  const Say: MessageMode := 1
  const Whisper: MessageMode := 2
  const Yell: MessageMode := 3
  const PrivateFrom: MessageMode := 4
  const Channel: MessageMode := 5
  const ChannelManagement: MessageMode := 6
  const RVRAnswer: MessageMode := 7
  const RVRContinue: MessageMode := 8
  const GamemasterBroadcast: MessageMode := 9
  const GamemasterChannel: MessageMode := 10
  const GamemasterPrivateFrom: MessageMode := 11
  const ChannelHighlight: MessageMode := 12
  const Mode14: MessageMode := 14
  const MonsterSay: MessageMode := 16
  const MonsterYell: MessageMode := 17
  const BarkLow: MessageMode := 34
  const BarkLoud: MessageMode := 35
  const NpcFromStartBlock: MessageMode := 51

  function TableName(c: MessageMode): Option<string>
  {
    match c
    case 0 => Some("MessageNone")
    case 1 => Some("MessageSay")
    case 2 => Some("MessageWhisper")
    case 3 => Some("MessageYell")
    case 4 => Some("MessagePrivateFrom")
    case 5 => Some("MessageChannel")
    case 6 => Some("MessageChannelManagement")
    case 7 => Some("MessageRVRAnswer")
    case 8 => Some("MessageRVRContinue")
    case 9 => Some("MessageGamemasterBroadcast")
    case 10 => Some("MessageGamemasterChannel")
    case 11 => Some("MessageGamemasterPrivateFrom")
    case 12 => Some("MessageChannelHighlight")
    case 14 => Some("Weird-14")
    case 16 => Some("MessageMonsterSay")
    case 17 => Some("MessageMonsterYell")
    case 18 => Some("MessageWarning")
    case 19 => Some("MessageGame")
    case 20 => Some("MessageLogin")
    case 21 => Some("MessageStatus")
    case 22 => Some("MessageLook")
    case 23 => Some("MessageFailure")
    case 24 => Some("MessageBlue")
    case 25 => Some("MessageRed")
    case 26 => Some("MessageHealOthers")
    case 27 => Some("MessageExpOthers")
    case 29 => Some("MessageLoot")
    case 30 => Some("MessageTradeNpc")
    case 31 => Some("MessageGuild")
    case 32 => Some("MessagePartyManagement")
    case 33 => Some("MessageParty")
    case 34 => Some("MessageBarkLow")
    case 35 => Some("MessageBarkLoud")
    case 36 => Some("MessageReport")
    case 37 => Some("MessageHotkeyUse")
    case 38 => Some("MessageTutorialHint")
    case 39 => Some("MessageThankyou")
    case 40 => Some("MessageMarket")
    case 41 => Some("MessageMana")
    case 42 => Some("MessageBeyondLast")
    case 50 => Some("MessageGameHighlight")
    case 51 => Some("MessageNpcFromStartBlock")
    case 52 => Some("LastMessage")
    case 255 => Some("MessageInvalid")
    case _ => None
  }

  function String(c: MessageMode): string
  {
    match TableName(c)
    case Some(name) => name
    case None => Text.UnknownName(c)
  }

  /** The inverse of the table: the mode a listed name belongs to. */
  function ModeNamed(name: string): Option<MessageMode>
  {
    match name
    case "MessageNone" => Some(0)
    case "MessageSay" => Some(1)
    case "MessageWhisper" => Some(2)
    case "MessageYell" => Some(3)
    case "MessagePrivateFrom" => Some(4)
    case "MessageChannel" => Some(5)
    case "MessageChannelManagement" => Some(6)
    case "MessageRVRAnswer" => Some(7)
    case "MessageRVRContinue" => Some(8)
    case "MessageGamemasterBroadcast" => Some(9)
    case "MessageGamemasterChannel" => Some(10)
    case "MessageGamemasterPrivateFrom" => Some(11)
    case "MessageChannelHighlight" => Some(12)
    case "Weird-14" => Some(14)
    case "MessageMonsterSay" => Some(16)
    case "MessageMonsterYell" => Some(17)
    case "MessageWarning" => Some(18)
    case "MessageGame" => Some(19)
    case "MessageLogin" => Some(20)
    case "MessageStatus" => Some(21)
    case "MessageLook" => Some(22)
    case "MessageFailure" => Some(23)
    case "MessageBlue" => Some(24)
    case "MessageRed" => Some(25)
    case "MessageHealOthers" => Some(26)
    case "MessageExpOthers" => Some(27)
    case "MessageLoot" => Some(29)
    case "MessageTradeNpc" => Some(30)
    case "MessageGuild" => Some(31)
    case "MessagePartyManagement" => Some(32)
    case "MessageParty" => Some(33)
    case "MessageBarkLow" => Some(34)
    case "MessageBarkLoud" => Some(35)
    case "MessageReport" => Some(36)
    case "MessageHotkeyUse" => Some(37)
    case "MessageTutorialHint" => Some(38)
    case "MessageThankyou" => Some(39)
    case "MessageMarket" => Some(40)
    case "MessageMana" => Some(41)
    case "MessageBeyondLast" => Some(42)
    case "MessageGameHighlight" => Some(50)
    case "MessageNpcFromStartBlock" => Some(51)
    case "LastMessage" => Some(52)
    case "MessageInvalid" => Some(255)
    case _ => None
  }

  /** Every listed name leads back to its mode. */
  lemma NameIdentifiesMode(c: MessageMode)
    ensures TableName(c).Some? ==> ModeNamed(TableName(c).value) == Some(c)
  {
    if c <= 14 {
      NameIdentifiesModeIn0(c);
    } else if c <= 28 {
      NameIdentifiesModeIn1(c);
    } else {
      NameIdentifiesModeIn2(c);
    }
  }

  lemma NameIdentifiesModeIn0(c: MessageMode)
    requires c <= 14
    ensures TableName(c).Some? ==> ModeNamed(TableName(c).value) == Some(c)
  {
  }

  lemma NameIdentifiesModeIn1(c: MessageMode)
    requires 15 <= c <= 28
    ensures TableName(c).Some? ==> ModeNamed(TableName(c).value) == Some(c)
  {
  }

  lemma NameIdentifiesModeIn2(c: MessageMode)
    requires 29 <= c
    ensures TableName(c).Some? ==> ModeNamed(TableName(c).value) == Some(c)
  {
  }

  /** No two modes share a listed name. */
  lemma NamesDistinct(c: MessageMode, d: MessageMode)
    ensures TableName(c).Some? && TableName(c) == TableName(d) ==> c == d
  {
    NameIdentifiesMode(c);
    NameIdentifiesMode(d);
  }

  /** The listed values: 0-12, 14, 16-27, 29-42, 50-52 and 255. */
  lemma ListedValues(c: MessageMode)
    ensures TableName(c).Some? <==>
      c <= 12 || c == 14 || 16 <= c <= 27 || 29 <= c <= 42 || 50 <= c <= 52 || c == 255
  {
  }

  /** Mode 14 is listed, under the provisional name "Weird-14". */
  lemma Mode14Listed()
    ensures String(Mode14) == "Weird-14"
  {
  }

  /** An unlisted mode renders as "Unknown-<n>". */
  lemma UnlistedRendersUnknown(c: MessageMode)
    requires TableName(c).None?
    ensures String(c) == "Unknown-" + Text.Decimal(c)
  {
  }
}
