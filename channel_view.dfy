/**
 * The view of a server channel: its message timeline and its typing list,
 * each replaced by an updater when an SDK event for this channel arrives.
 */
module ChannelView {
  import opened Wrappers
  import opened Entities
  import opened Strings
  import opened Sequences
  import opened TypingUsers

  /**
   * A created message is appended when it belongs to this channel and, for a
   * channel of a server, to that server; otherwise the timeline is unchanged.
   */
  function AfterMessageCreate(channel: Channel, prev: seq<Message>, m: Message): (r: seq<Message>)
    ensures r == prev + [m] || r == prev
    ensures r == prev + [m] <==>
              m.channelId == channel.id && (!Truthy(channel.serverId) || m.serverId == channel.serverId)
  {
    if m.channelId != channel.id then prev
    else if Truthy(channel.serverId) && m.serverId != channel.serverId then prev
    else prev + [m]
  }

  /**
   * The start-typing handler: the event is ignored for another channel, for a
   * channel of another server (when this channel has a server) and when no
   * user is given; otherwise the user is added unless their id is listed.
   */
  function AfterStartTyping(channel: Channel, prev: seq<User>, typingChannel: Channel, user: Option<User>): (r: seq<User>)
    ensures |r| == |prev| + 1 <==>
              && typingChannel.id == channel.id
              && (!Truthy(channel.serverId) || typingChannel.serverId == channel.serverId)
              && user.Some?
              && !HasUser(prev, user.value.id)
    ensures |r| == |prev| + 1 ==> user.Some? && r == prev + [user.value]
    ensures |r| != |prev| + 1 ==> r == prev
    ensures DistinctIds(prev) ==> DistinctIds(r)
  {
    if typingChannel.id != channel.id then prev
    else if Truthy(channel.serverId) && typingChannel.serverId != channel.serverId then prev
    else if user.Some? then WithUser(prev, user.value)
    else prev
  }

  /** The sentence under the timeline; nothing is shown when nobody types. */
  function TypingText(users: seq<User>): (r: Option<string>)
    ensures r.None? <==> |users| == 0
    ensures |users| == 1 ==> r == Some(users[0].username + " is typing...")
    ensures |users| == 2 ==> r == Some(users[0].username + " and " + users[1].username + " are typing...")
    ensures |users| >= 3 ==> r == Some(users[0].username + " and " + DecimalString(|users| - 1) + " others are typing...")
  {
    if |users| == 0 then None
    else if |users| == 1 then Some(users[0].username + " is typing...")
    else if |users| == 2 then Some(users[0].username + " and " + users[1].username + " are typing...")
    else Some(users[0].username + " and " + DecimalString(|users| - 1) + " others are typing...")
  }

  /** `ServerChannelView` for one channel: the state its event handlers replace. */
  class ServerChannelView {
    const channel: Channel
    var messages: seq<Message>
    var typingUsers: seq<User>

    /** Mounting: no messages yet; the typing list is the channel's present typists. */
    constructor (channel: Channel, typing: seq<Option<User>>)
      ensures this.channel == channel
      ensures messages == [] && typingUsers == PresentUsers(typing)
    {
      this.channel := channel;
      messages := [];
      typingUsers := PresentUsers(typing);
    }

    /**
     * The initial fetch settled: on success the fetched page (newest first)
     * is stored reversed; on failure the timeline is left as it is.
     */
    method FetchSettled(fetched: Option<seq<Message>>)
      modifies this`messages
      ensures messages == if fetched.Some? then Reverse(fetched.value) else old(messages)
    {
      if fetched.Some? {
        messages := Reverse(fetched.value);
      }
    }

    method MessageCreated(m: Message)
      modifies this`messages
      ensures messages == AfterMessageCreate(channel, old(messages), m)
    {
      if m.channelId != channel.id {
        return;
      }
      if Truthy(channel.serverId) && m.serverId != channel.serverId {
        return;
      }
      messages := messages + [m];
    }

    method ChannelStartTyping(typingChannel: Channel, user: Option<User>)
      modifies this`typingUsers
      ensures typingUsers == AfterStartTyping(channel, old(typingUsers), typingChannel, user)
      ensures DistinctIds(old(typingUsers)) ==> DistinctIds(typingUsers)
    {
      if typingChannel.id != channel.id {
        return;
      }
      if Truthy(channel.serverId) && typingChannel.serverId != channel.serverId {
        return;
      }
      if user.Some? {
        typingUsers := WithUser(typingUsers, user.value);
      }
    }

    method ChannelStopTyping(typingChannel: Channel, user: Option<User>)
      modifies this`typingUsers
      ensures typingUsers == AfterStopTyping(channel, old(typingUsers), typingChannel, user)
      ensures DistinctIds(old(typingUsers)) ==> DistinctIds(typingUsers)
    {
      if typingChannel.id != channel.id {
        return;
      }
      if user.Some? {
        typingUsers := WithoutUser(typingUsers, user.value.id);
      } else {
        typingUsers := [];
      }
    }
  }
}
