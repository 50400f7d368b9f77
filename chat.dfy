/**
 * The direct-message screen: the list of open conversations, the selected
 * conversation chosen by the route, and the conversation view with its
 * timeline and typing list.
 */
module Chat {
  import opened Wrappers
  import opened Entities
  import opened Strings
  import opened Sequences
  import opened TypingUsers
  import ChannelView

  // ---------------------------------------------------------------------------
  // The conversation view

  /** A created message is appended exactly when it belongs to the open channel. */
  function AfterMessageCreate(channel: Channel, prev: seq<Message>, m: Message): (r: seq<Message>)
    ensures r == prev + [m] || r == prev
    ensures r == prev + [m] <==> m.channelId == channel.id
  {
    if m.channelId != channel.id then prev else prev + [m]
  }

  /**
   * The start-typing handler of a conversation: only the channel id is
   * compared; a user whose id is listed, or a missing user, changes nothing.
   */
  function AfterStartTyping(channel: Channel, prev: seq<User>, typingChannel: Channel, user: Option<User>): (r: seq<User>)
    ensures |r| == |prev| + 1 <==>
              typingChannel.id == channel.id && user.Some? && !HasUser(prev, user.value.id)
    ensures |r| == |prev| + 1 ==> user.Some? && r == prev + [user.value]
    ensures |r| != |prev| + 1 ==> r == prev
    ensures DistinctIds(prev) ==> DistinctIds(r)
  {
    if typingChannel.id != channel.id then prev
    else if user.Some? then WithUser(prev, user.value)
    else prev
  }

  /** The typing sentence of a conversation; two users read "A and 1 others". */
  function TypingText(users: seq<User>): (r: Option<string>)
    ensures r.None? <==> |users| == 0
    ensures |users| == 1 ==> r == Some(users[0].username + " is typing...")
    ensures |users| >= 2 ==> r == Some(users[0].username + " and " + DecimalString(|users| - 1) + " others are typing...")
  {
    if |users| == 0 then None
    else if |users| == 1 then Some(users[0].username + " is typing...")
    else Some(users[0].username + " and " + DecimalString(|users| - 1) + " others are typing...")
  }

  /**
   * The two typing sentences agree except for two users, where the server
   * channel names both and the conversation says "1 others".
   */
  lemma TypingTextsDifferOnlyForTwo(users: seq<User>)
    ensures |users| != 2 ==> TypingText(users) == ChannelView.TypingText(users)
    ensures |users| == 2 ==>
              && TypingText(users) == Some(users[0].username + " and 1 others are typing...")
              && ChannelView.TypingText(users) == Some(users[0].username + " and " + users[1].username + " are typing...")
  {
    if |users| == 2 {
      assert DecimalString(1) == "1";
      assert users[0].username + " and " + "1" + " others are typing..." == users[0].username + " and 1 others are typing...";
    }
  }

  /** `DMChannelView` for one conversation: the state its event handlers replace. */
  class DMChannelView {
    const channel: Channel
    var messages: seq<Message>
    var typingUsers: seq<User>

    constructor (channel: Channel, typing: seq<Option<User>>)
      ensures this.channel == channel
      ensures messages == [] && typingUsers == PresentUsers(typing)
    {
      this.channel := channel;
      messages := [];
      typingUsers := PresentUsers(typing);
    }

    method FetchSettled(fetched: Option<seq<Message>>)
      modifies this`messages
      ensures messages == if fetched.Some? then Reverse(fetched.value) else old(messages)
    {
      if fetched.Some? {
        messages := Reverse(fetched.value);
      }
    }

    method MessageCreated(m: Message)
      modifies this`messages
      ensures messages == AfterMessageCreate(channel, old(messages), m)
    {
      if m.channelId != channel.id {
        return;
      }
      messages := messages + [m];
    }

    method ChannelStartTyping(typingChannel: Channel, user: Option<User>)
      modifies this`typingUsers
      ensures typingUsers == AfterStartTyping(channel, old(typingUsers), typingChannel, user)
      ensures DistinctIds(old(typingUsers)) ==> DistinctIds(typingUsers)
    {
      if typingChannel.id != channel.id {
        return;
      }
      if user.Some? {
        typingUsers := WithUser(typingUsers, user.value);
      }
    }

    method ChannelStopTyping(typingChannel: Channel, user: Option<User>)
      modifies this`typingUsers
      ensures typingUsers == AfterStopTyping(channel, old(typingUsers), typingChannel, user)
      ensures DistinctIds(old(typingUsers)) ==> DistinctIds(typingUsers)
    {
      if typingChannel.id != channel.id {
        return;
      }
      if user.Some? {
        typingUsers := WithoutUser(typingUsers, user.value.id);
      } else {
        typingUsers := [];
      }
    }
  }

  // ---------------------------------------------------------------------------
  // The conversation list

  /** A channel is listed when it is an active direct message with a recipient. */
  predicate IsListedDM(c: Channel) {
    c.channelType == DirectMessage && c.active && c.recipient.Some?
  }

  /** The listed channels, in their original order, each as often as it occurs. */
  function FilterDMs(channels: seq<Channel>): (r: seq<Channel>)
    ensures forall c :: c in r <==> c in channels && IsListedDM(c)
    ensures SubsequenceOf(r, channels)
    ensures forall c :: multiset(r)[c] == if IsListedDM(c) then multiset(channels)[c] else 0
  {
    if channels == [] then []
    else
      assert channels == [channels[0]] + channels[1..];
      if IsListedDM(channels[0]) then
        var rest := FilterDMs(channels[1..]);
        assert ([channels[0]] + rest)[1..] == rest;
        [channels[0]] + rest
      else
        var rest := FilterDMs(channels[1..]);
        assert rest != [] ==> rest[0] != channels[0];
        rest
  }

  /** Most recently updated first. */
  predicate SortedByRecency(cs: seq<Channel>) {
    forall i, j | 0 <= i < j < |cs| :: cs[i].updatedAtMs >= cs[j].updatedAtMs
  }

  /** Inserts `c` before the first channel that is not more recent than it. */
  function InsertByRecency(c: Channel, sorted: seq<Channel>): (r: seq<Channel>)
    requires SortedByRecency(sorted)
    ensures SortedByRecency(r)
    ensures multiset(r) == multiset(sorted) + multiset{c}
    ensures forall x | x in r :: x == c || x in sorted
  {
    if sorted == [] || c.updatedAtMs >= sorted[0].updatedAtMs then [c] + sorted
    else
      var rest := InsertByRecency(c, sorted[1..]);
      InsertBelowHead(c, sorted, rest);
      [sorted[0]] + rest
  }

  /**
   * The recursive case of `InsertByRecency`: `c` is older than the head, and
   * `rest` is the insertion into the tail.
   */
  lemma InsertBelowHead(c: Channel, sorted: seq<Channel>, rest: seq<Channel>)
    requires SortedByRecency(sorted) && sorted != [] && c.updatedAtMs < sorted[0].updatedAtMs
    requires SortedByRecency(rest)
    requires multiset(rest) == multiset(sorted[1..]) + multiset{c}
    requires forall x | x in rest :: x == c || x in sorted[1..]
    ensures SortedByRecency([sorted[0]] + rest)
    ensures multiset([sorted[0]] + rest) == multiset(sorted) + multiset{c}
    ensures forall x | x in [sorted[0]] + rest :: x == c || x in sorted
  {
    assert sorted == [sorted[0]] + sorted[1..];
    var r := [sorted[0]] + rest;
    forall i, j | 0 <= i < j < |r|
      ensures r[i].updatedAtMs >= r[j].updatedAtMs
    {
      assert r[j] == rest[j - 1];
      assert r[j] == c || r[j] in sorted[1..];
      if i > 0 {
        assert r[i] == rest[i - 1];
      }
    }
    assert multiset(r) == multiset{sorted[0]} + multiset(rest);
  }

  /**
   * `sort((a, b) => b.updatedAt - a.updatedAt)`: a stable sort, most recently
   * updated first.
   */
  function SortByRecency(cs: seq<Channel>): (r: seq<Channel>)
    ensures SortedByRecency(r)
    ensures multiset(r) == multiset(cs)
  {
    if cs == [] then []
    else
      assert cs == [cs[0]] + cs[1..];
      InsertByRecency(cs[0], SortByRecency(cs[1..]))
  }

  /** The channels updated at time `t`, in order. */
  function UpdatedAt(cs: seq<Channel>, t: int): seq<Channel> {
    if cs == [] then []
    else (if cs[0].updatedAtMs == t then [cs[0]] else []) + UpdatedAt(cs[1..], t)
  }

  lemma {:induction false} InsertKeepsTies(c: Channel, sorted: seq<Channel>, t: int)
    requires SortedByRecency(sorted)
    ensures UpdatedAt(InsertByRecency(c, sorted), t) == (if c.updatedAtMs == t then [c] else []) + UpdatedAt(sorted, t)
  {
    var r := InsertByRecency(c, sorted);
    if sorted == [] || c.updatedAtMs >= sorted[0].updatedAtMs {
      assert r[1..] == sorted;
    } else {
      var rest := InsertByRecency(c, sorted[1..]);
      InsertKeepsTies(c, sorted[1..], t);
      assert r == [sorted[0]] + rest && r[1..] == rest;
      assert UpdatedAt(r, t) == (if sorted[0].updatedAtMs == t then [sorted[0]] else []) + UpdatedAt(rest, t);
      assert UpdatedAt(sorted, t) == (if sorted[0].updatedAtMs == t then [sorted[0]] else []) + UpdatedAt(sorted[1..], t);
      if sorted[0].updatedAtMs == t {
        assert c.updatedAtMs != t;
      } else if c.updatedAtMs == t {
        assert UpdatedAt(r, t) == [c] + UpdatedAt(sorted[1..], t);
      }
    }
  }

  /** The sort is stable: channels updated at the same time keep their order. */
  lemma {:induction false} SortIsStable(cs: seq<Channel>, t: int)
    ensures UpdatedAt(SortByRecency(cs), t) == UpdatedAt(cs, t)
  {
    if cs != [] {
      SortIsStable(cs[1..], t);
      InsertKeepsTies(cs[0], SortByRecency(cs[1..]), t);
    }
  }

  /** `syncDMs`: the listed channels, most recently updated first. */
  function ListedDMs(channels: seq<Channel>): seq<Channel> {
    SortByRecency(FilterDMs(channels))
  }

  /**
   * The conversation list holds exactly the active direct messages with a
   * recipient, each as often as in the client's collection, most recently
   * updated first, ties in the collection's order.
   */
  lemma ListedDMsCorrect(channels: seq<Channel>, t: int)
    ensures forall c :: c in ListedDMs(channels) <==> c in channels && IsListedDM(c)
    ensures forall c :: multiset(ListedDMs(channels))[c] == if IsListedDM(c) then multiset(channels)[c] else 0
    ensures SortedByRecency(ListedDMs(channels))
    ensures UpdatedAt(ListedDMs(channels), t) == UpdatedAt(FilterDMs(channels), t)
  {
    var f := FilterDMs(channels);
    forall c ensures c in ListedDMs(channels) <==> c in f {
      assert c in ListedDMs(channels) <==> c in multiset(ListedDMs(channels));
      assert c in f <==> c in multiset(f);
    }
    SortIsStable(f, t);
  }

  /**
   * The selection after the route's id changes: a present id naming a direct
   * message selects it; an absent id selects nothing; anything else keeps the
   * current selection.
   */
  function SelectionFor(id: Option<string>, channels: map<string, Channel>, current: Option<Channel>): (r: Option<Channel>)
    ensures !Truthy(id) ==> r.None?
    ensures Truthy(id) && id.value in channels && channels[id.value].channelType == DirectMessage ==>
              r == Some(channels[id.value])
    ensures Truthy(id) && !(id.value in channels && channels[id.value].channelType == DirectMessage) ==>
              r == current
  {
    if Truthy(id) then
      if id.value in channels && channels[id.value].channelType == DirectMessage then Some(channels[id.value])
      else current
    else None
  }

  /** Route changes never select anything but a direct message. */
  lemma SelectionStaysDirect(id: Option<string>, channels: map<string, Channel>, current: Option<Channel>)
    requires current.Some? ==> current.value.channelType == DirectMessage
    ensures var r := SelectionFor(id, channels, current); r.Some? ==> r.value.channelType == DirectMessage
  {
  }

  /** `ChatView`: the conversation list and the selected conversation. */
  class ChatView {
    var dmChannels: seq<Channel>
    var selectedChannel: Option<Channel>

    constructor ()
      ensures dmChannels == [] && selectedChannel == None
    {
      dmChannels := [];
      selectedChannel := None;
    }

    /** `syncDMs`, given the client's channel collection in its iteration order. */
    method SyncDMs(channels: seq<Channel>)
      modifies this`dmChannels
      ensures dmChannels == ListedDMs(channels)
    {
      dmChannels := SortByRecency(FilterDMs(channels));
    }

    /** The effect on the route id, given the client's channels by id. */
    method RouteChanged(id: Option<string>, channels: map<string, Channel>)
      modifies this`selectedChannel
      ensures selectedChannel == SelectionFor(id, channels, old(selectedChannel))
    {
      if Truthy(id) {
        if id.value in channels && channels[id.value].channelType == DirectMessage {
          selectedChannel := Some(channels[id.value]);
        }
      } else {
        selectedChannel := None;
      }
    }
  }
}
