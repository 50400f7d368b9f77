/**
 * The records of the chat SDK that the core reads. Only the fields the core
 * looks at are kept; `undefined` becomes `None`, an absent `replyIds` the empty
 * sequence, and the truthiness of `systemMessage` a boolean.
 */
module Entities {
  import opened Wrappers

  datatype User = User(id: string, username: string, presence: Option<string>)

  /** A local calendar day, as `getFullYear`, `getMonth` and `getDate` give it. */
  datatype Day = Day(year: int, month: int, date: int)

  /** A per-message display identity; either part may be missing. */
  datatype Masquerade = Masquerade(name: Option<string>, avatar: Option<string>)

  /**
   * A chat message. `serverId` is the id of `message.server`, if any;
   * `createdAtMs` is `createdAt.getTime()` and `day` its local calendar day.
   */
  datatype Message = Message(
    id: string,
    channelId: string,
    serverId: Option<string>,
    authorId: string,
    createdAtMs: int,
    day: Day,
    masquerade: Option<Masquerade>,
    systemMessage: bool,
    replyIds: seq<string>)

  datatype ChannelType = SavedMessages | DirectMessage | Group | TextChannel | VoiceChannel

  /** A channel; `updatedAtMs` is `updatedAt.getTime()`. */
  datatype Channel = Channel(
    id: string,
    channelType: ChannelType,
    serverId: Option<string>,
    active: bool,
    recipient: Option<User>,
    updatedAtMs: int)
}
