/**
 * What the game server hands the `/roll` handler: the configuration, the
 * invoker's four permissions, the invoker itself, and the online players.
 * What the handler hands back is a list of deliveries.
 */
module Host {
  import opened Wrappers
  import opened JavaInt

  /**
   * The configuration values the handler reads. A template is `None` where
   * the configuration holds a null string.
   */
  datatype Config = Config(
    broadcastMessage: Option<string>,
    privateMessage: Option<string>,
    broadcastRange: int32,
    crossworld: bool,
    defaultCount: int32,
    defaultSides: int32,
    maximumCount: int32,
    maximumSides: int32,
    logging: bool)

  /** The values the configuration falls back to for keys it does not hold. */
  const DefaultConfig: Config := Config(
    Some("&c[&fDice&c] &f{PLAYER} rolled {RESULT} &7({COUNT}d{SIDES})"),
    Some("&4[&fDice&4] &fYou rolled {RESULT} &7({COUNT}d{SIDES})"),
    -1, false, 1, 6, 6, 20, false)

  /** dice.roll.broadcast, dice.reload, dice.roll.any and dice.roll.multiple. */
  datatype Perms = Perms(broadcast: bool, reload: bool, anySides: bool, multiple: bool)

  /** A block-aligned position. */
  datatype Block = Block(x: int32, y: int32, z: int32)

  /**
   * The invoker of the command: a player in some world at some block, or any
   * other command sender (the server console, a remote console, a command
   * block), which has no position; `Console` stands for all of those.
   */
  datatype Sender =
    | Console(name: string)
    | InGame(name: string, world: int, at: Block)

  datatype OnlinePlayer = OnlinePlayer(world: int, at: Block)

  /** The invoker, the online player at an index of the online list, or the plugin's log. */
  datatype Recipient = ToSender | ToPlayer(index: nat) | ToLog

  datatype Delivery = Delivery(to: Recipient, text: string)

  datatype Host = Host(config: Config, perms: Perms, sender: Sender, online: seq<OnlinePlayer>)
}
