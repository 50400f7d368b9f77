/**
 * The list of users currently typing in a channel, keyed by user id, and the
 * updater functions both channel views pass to `setTypingUsers`.
 */
module TypingUsers {
  import opened Wrappers
  import opened Entities

  /** `users.some(u => u.id === id)`. */
  predicate HasUser(users: seq<User>, id: string) {
    exists i | 0 <= i < |users| :: users[i].id == id
  }

  /** No user id occurs twice. */
  predicate DistinctIds(users: seq<User>) {
    forall i, j | 0 <= i < j < |users| :: users[i].id != users[j].id
  }

  /** `a` can be obtained from `b` by deleting elements. */
  predicate SubsequenceOf<T(==)>(a: seq<T>, b: seq<T>) {
    if a == [] then true
    else if b == [] then false
    else if a[0] == b[0] then SubsequenceOf(a[1..], b[1..])
    else SubsequenceOf(a, b[1..])
  }

  /**
   * The start-typing updater: a user whose id is listed leaves the list as it
   * was; a new user is added at the end, after the existing entries.
   */
  function WithUser(prev: seq<User>, user: User): (r: seq<User>)
    ensures HasUser(r, user.id)
    ensures forall id :: HasUser(r, id) <==> HasUser(prev, id) || id == user.id
    ensures |prev| <= |r| <= |prev| + 1 && r[..|prev|] == prev
    ensures |r| == |prev| + 1 <==> !HasUser(prev, user.id)
    ensures |r| == |prev| + 1 ==> r[|prev|] == user
    ensures DistinctIds(prev) ==> DistinctIds(r)
  {
    if HasUser(prev, user.id) then prev
    else
      assert (prev + [user])[|prev|] == user;
      prev + [user]
  }

  /**
   * The stop-typing updater for one user: every entry with that id goes, the
   * others stay in their order.
   */
  function WithoutUser(prev: seq<User>, id: string): (r: seq<User>)
    ensures !HasUser(r, id)
    ensures SubsequenceOf(r, prev)
    ensures !HasUser(prev, id) ==> r == prev
    ensures DistinctIds(prev) ==> DistinctIds(r)
  {
    if prev == [] then []
    else if prev[0].id == id then
      assert HasUser(prev, id) by { assert prev[0].id == id; }
      WithoutUser(prev[1..], id)
    else
      var rest := WithoutUser(prev[1..], id);
      TailHasUser(prev, id);
      assert !HasUser(prev, id) ==> [prev[0]] + rest == prev;
      SubsequenceHasUser(rest, prev[1..], prev[0].id);
      assert ([prev[0]] + rest)[1..] == rest;
      assert DistinctIds(prev) ==> DistinctIds([prev[0]] + rest) by {
        if DistinctIds(prev) {
          DistinctCons(prev[0], rest);
        }
      }
      [prev[0]] + rest
  }

  /**
   * `WithoutUser` keeps every other entry, as often as it occurs: together
   * with `SubsequenceOf` this pins the result to the one `filter` gives.
   */
  lemma {:induction false} WithoutUserCounts(prev: seq<User>, id: string)
    ensures forall u :: multiset(WithoutUser(prev, id))[u] == if u.id == id then 0 else multiset(prev)[u]
    ensures forall u | u in prev && u.id != id :: u in WithoutUser(prev, id)
    ensures forall u | u in WithoutUser(prev, id) :: u in prev && u.id != id
  {
    var r := WithoutUser(prev, id);
    if prev != [] {
      WithoutUserCounts(prev[1..], id);
      assert prev == [prev[0]] + prev[1..];
      assert multiset(prev) == multiset{prev[0]} + multiset(prev[1..]);
      if prev[0].id != id {
        var rest := WithoutUser(prev[1..], id);
        assert r == [prev[0]] + rest;
        assert multiset([prev[0]] + rest) == multiset{prev[0]} + multiset(rest);
      }
    }
    CountsGiveMembers(prev, id, r);
  }

  /** Counts fix membership: what occurs once or more is in the list. */
  lemma CountsGiveMembers(prev: seq<User>, id: string, r: seq<User>)
    requires forall u :: multiset(r)[u] == if u.id == id then 0 else multiset(prev)[u]
    ensures forall u | u in prev && u.id != id :: u in r
    ensures forall u | u in r :: u in prev && u.id != id
  {
    forall u
      ensures (u in r <==> multiset(r)[u] > 0) && (u in prev <==> multiset(prev)[u] > 0)
    {
    }
  }

  /** A user listed in a subsequence is listed in the whole. */
  lemma {:induction false} SubsequenceHasUser(a: seq<User>, b: seq<User>, id: string)
    requires SubsequenceOf(a, b)
    ensures HasUser(a, id) ==> HasUser(b, id)
  {
    if a != [] && b != [] {
      TailHasUser(b, id);
      if a[0] == b[0] {
        SubsequenceHasUser(a[1..], b[1..], id);
        TailHasUser(a, id);
        if HasUser(a, id) && !HasUser(a[1..], id) {
          assert forall i | 0 < i < |a| :: a[i] == a[1..][i - 1];
          assert a[0].id == id;
          assert HasUser(b, id) by { assert b[0].id == id; }
        }
      } else {
        SubsequenceHasUser(a, b[1..], id);
      }
    }
  }

  /** A user listed in the tail is listed in the list. */
  lemma TailHasUser(prev: seq<User>, id: string)
    requires prev != []
    ensures HasUser(prev[1..], id) ==> HasUser(prev, id)
  {
    if HasUser(prev[1..], id) {
      var i :| 0 <= i < |prev[1..]| && prev[1..][i].id == id;
      assert prev[i + 1].id == id;
    }
  }

  /** Putting a user whose id is new in front of a list without repeated ids repeats none. */
  lemma DistinctCons(user: User, rest: seq<User>)
    requires DistinctIds(rest) && !HasUser(rest, user.id)
    ensures DistinctIds([user] + rest)
  {
    var r := [user] + rest;
    forall i, j | 0 <= i < j < |r|
      ensures r[i].id != r[j].id
    {
      assert r[j] == rest[j - 1];
      if i > 0 {
        assert r[i] == rest[i - 1];
      }
    }
  }

  /** The users of a list, each wrapped as present. */
  function Lifted(users: seq<User>): (r: seq<Option<User>>)
    ensures |r| == |users|
  {
    if users == [] then [] else [Some(users[0])] + Lifted(users[1..])
  }

  /**
   * `channel.typing.filter(user => !!user)`: the users that are present, in
   * order, each as often as it occurs.
   */
  function PresentUsers(typing: seq<Option<User>>): (r: seq<User>)
    ensures forall u :: u in r <==> Some(u) in typing
    ensures SubsequenceOf(Lifted(r), typing)
    ensures multiset(Lifted(r)) == multiset(typing)[None := 0]
  {
    if typing == [] then []
    else
      assert typing == [typing[0]] + typing[1..];
      if typing[0].Some? then
        var rest := PresentUsers(typing[1..]);
        assert ([typing[0].value] + rest)[1..] == rest;
        [typing[0].value] + rest
      else PresentUsers(typing[1..])
  }

  /**
   * The stop-typing handler shared by both channel views: events for another
   * channel change nothing; with a user, that user's entries are removed;
   * without one, the list is cleared. No server is compared.
   */
  function AfterStopTyping(channel: Channel, prev: seq<User>, typingChannel: Channel, user: Option<User>): (r: seq<User>)
    ensures typingChannel.id != channel.id ==> r == prev
    ensures typingChannel.id == channel.id && user.None? ==> r == []
    ensures typingChannel.id == channel.id && user.Some? ==>
              !HasUser(r, user.value.id) && SubsequenceOf(r, prev)
              && (forall u | u in prev && u.id != user.value.id :: u in r)
              && (forall u :: multiset(r)[u] == if u.id == user.value.id then 0 else multiset(prev)[u])
    ensures SubsequenceOf(r, prev)
    ensures DistinctIds(prev) ==> DistinctIds(r)
  {
    if typingChannel.id != channel.id then SubsequenceOfSelf(prev); prev
    else if user.Some? then WithoutUserCounts(prev, user.value.id); WithoutUser(prev, user.value.id)
    else []
  }

  lemma {:induction false} SubsequenceOfSelf<T>(s: seq<T>)
    ensures SubsequenceOf(s, s)
  {
    if s != [] {
      SubsequenceOfSelf(s[1..]);
    }
  }
}
