/** The vocabulary the relay, the hold repeater and the dispatch lane share. */
module Remote {
  import opened Base

  datatype Action = SendKey | SendText | PowerOff | WakeOnLan

  datatype RepeatPhase = Start | Stop

  /** A resolved instruction for the television. */
  datatype Command = Command(action: Action, key: Option<string>, text: Option<string>, phase: Option<RepeatPhase>, fast: bool)

  datatype Direction = Up | Down | Left | Right

  const KEY_ENTER := "KEY_ENTER"

  function KeyOf(d: Direction): (key: string)
    ensures key != KEY_ENTER
  {
    match d
    case Up => "KEY_UP"
    case Down => "KEY_DOWN"
    case Left => "KEY_LEFT"
    case Right => "KEY_RIGHT"
  }

  /** The television's own names for the directions. */
  lemma KeyNames()
    ensures KeyOf(Up) == "KEY_UP" && KeyOf(Down) == "KEY_DOWN" && KeyOf(Left) == "KEY_LEFT" && KeyOf(Right) == "KEY_RIGHT"
  {
  }

  function Click(key: string, fast: bool): Command {
    Command(SendKey, Some(key), None, None, fast)
  }
}
