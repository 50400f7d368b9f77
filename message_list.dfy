/**
 * The grouping of a transcript into render entries: which messages start a
 * new group (a head, shown with author name and avatar) and which continue the
 * group above them (a tail), and where date separators go.
 *
 * The specification, `Grouped`, reads the messages oldest first: message k
 * contributes, in order, a separator when its day differs from message k-1's
 * and then its own entry. `MessageList` computes the same sequence the way the
 * component does: over the newest-first working list, pushing each entry and
 * then its separator, and reversing at the end.
 */
module MessageGrouping {
  import opened Wrappers
  import opened Entities
  import opened Sequences

  /** Seven minutes in milliseconds: a gap this long or longer breaks a group. */
  const GroupBreakMs: int := 7 * 60 * 1000

  datatype Entry = MessageEntry(id: string, tail: bool) | Separator(day: Day)

  function MasqueradeName(m: Option<Masquerade>): Option<string> {
    if m.Some? then m.value.name else None
  }

  function MasqueradeAvatar(m: Option<Masquerade>): Option<string> {
    if m.Some? then m.value.avatar else None
  }

  /**
   * Masquerades match when they are identical or when their optional names and
   * optional avatars are equal (a missing masquerade reads as missing name and
   * missing avatar).
   */
  predicate MasqueradeMatch(a: Option<Masquerade>, b: Option<Masquerade>) {
    a == b || (MasqueradeName(a) == MasqueradeName(b) && MasqueradeAvatar(a) == MasqueradeAvatar(b))
  }

  /** Whether message `m` continues the group of `older`, its older neighbour. */
  predicate Continues(m: Message, older: Message) {
    && m.authorId == older.authorId
    && m.createdAtMs - older.createdAtMs < GroupBreakMs
    && MasqueradeMatch(m.masquerade, older.masquerade)
    && !m.systemMessage
    && !older.systemMessage
    && |m.replyIds| == 0
  }

  /** Whether message k of an oldest-first list is a tail. */
  predicate TailAt(msgs: seq<Message>, k: nat)
    requires k < |msgs|
  {
    k > 0 && Continues(msgs[k], msgs[k - 1])
  }

  /** Whether a date separator goes before message k of an oldest-first list. */
  predicate SeparatorAt(msgs: seq<Message>, k: nat)
    requires k < |msgs|
  {
    k > 0 && msgs[k].day != msgs[k - 1].day
  }

  /** What message k contributes to the output, oldest first. */
  function Chunk(msgs: seq<Message>, k: nat): seq<Entry>
    requires k < |msgs|
  {
    (if SeparatorAt(msgs, k) then [Separator(msgs[k].day)] else [])
    + [MessageEntry(msgs[k].id, TailAt(msgs, k))]
  }

  /** The contributions of messages lo up to (not including) hi. */
  function Span(msgs: seq<Message>, lo: nat, hi: nat): seq<Entry>
    requires lo <= hi <= |msgs|
    decreases hi - lo
  {
    if lo == hi then [] else Span(msgs, lo, hi - 1) + Chunk(msgs, hi - 1)
  }

  /** The render entries for an oldest-first list of messages, oldest first. */
  function Grouped(msgs: seq<Message>): seq<Entry> {
    Span(msgs, 0, |msgs|)
  }

  /** The number of separators before messages 0 up to (not including) j. */
  function SeparatorsBefore(msgs: seq<Message>, j: nat): nat
    requires j <= |msgs|
  {
    if j == 0 then 0 else SeparatorsBefore(msgs, j - 1) + (if SeparatorAt(msgs, j - 1) then 1 else 0)
  }

  /** The position of message k's own entry in `Grouped(msgs)`. */
  function EntryPos(msgs: seq<Message>, k: nat): nat
    requires k < |msgs|
  {
    k + SeparatorsBefore(msgs, k + 1)
  }

  /** Only the message entries of an output, separators dropped. */
  function MessageEntries(es: seq<Entry>): seq<Entry> {
    if es == [] then []
    else (if es[0].MessageEntry? then [es[0]] else []) + MessageEntries(es[1..])
  }

  /** Only the separators of an output. */
  function Separators(es: seq<Entry>): seq<Entry> {
    if es == [] then []
    else (if es[0].Separator? then [es[0]] else []) + Separators(es[1..])
  }

  // ---------------------------------------------------------------------------
  // The component's loop

  /**
   * `MessageList`: reverse the input into the newest-first working list L,
   * walk it comparing each message with its older neighbour L[i+1], push the
   * message and then any separator, and reverse what was pushed.
   */
  method MessageList(messages: seq<Message>) returns (elements: seq<Entry>)
    ensures elements == Grouped(messages)
  {
    var L := Reverse(messages);
    var n := |L|;
    var E: seq<Entry> := [];
    for i := 0 to n
      invariant Reverse(E) == Span(messages, n - i, n)
    {
      var M := L[i];
      var tail := true;
      var date: Option<Day> := None;
      var next: Option<Message> := if i + 1 < n then Some(L[i + 1]) else None;

      if next.Some? {
        var older := next.value;
        if M.day.date != older.day.date || M.day.month != older.day.month || M.day.year != older.day.year {
          date := Some(M.day);
        }
        var diffMs := M.createdAtMs - older.createdAtMs;
        var masqueradeMatch := M.masquerade == older.masquerade
          || (MasqueradeName(M.masquerade) == MasqueradeName(older.masquerade)
              && MasqueradeAvatar(M.masquerade) == MasqueradeAvatar(older.masquerade));
        if M.authorId != older.authorId || diffMs >= GroupBreakMs || !masqueradeMatch
           || M.systemMessage || older.systemMessage || |M.replyIds| > 0 {
          tail := false;
        }
      } else {
        tail := false;
      }

      var pushed := [MessageEntry(M.id, tail)] + (if date.Some? then [Separator(date.value)] else []);
      ghost var k := n - 1 - i;
      ReverseAt(messages, i);
      if i + 1 < n {
        ReverseAt(messages, i + 1);
      }
      assert Reverse(pushed) == Chunk(messages, k);
      ReverseAppend(E, pushed);
      SpanFront(messages, k, n);
      E := E + pushed;
    }
    elements := Reverse(E);
  }

  // ---------------------------------------------------------------------------
  // Lemmas about the specification

  /** A span can also be split off at its low end. */
  lemma {:induction false} SpanFront(msgs: seq<Message>, lo: nat, hi: nat)
    requires lo < hi <= |msgs|
    ensures Span(msgs, lo, hi) == Chunk(msgs, lo) + Span(msgs, lo + 1, hi)
  {
    if lo + 1 < hi {
      SpanFront(msgs, lo, hi - 1);
    }
  }

  lemma {:induction false} SpanLength(msgs: seq<Message>, j: nat)
    requires j <= |msgs|
    ensures |Span(msgs, 0, j)| == j + SeparatorsBefore(msgs, j)
  {
    if j > 0 {
      SpanLength(msgs, j - 1);
    }
  }

  lemma {:induction false} SpanPrefix(msgs: seq<Message>, j: nat, hi: nat)
    requires j <= hi <= |msgs|
    ensures |Span(msgs, 0, j)| <= |Span(msgs, 0, hi)|
    ensures Span(msgs, 0, hi)[..|Span(msgs, 0, j)|] == Span(msgs, 0, j)
  {
    if j < hi {
      SpanPrefix(msgs, j, hi - 1);
      var a := Span(msgs, 0, hi - 1);
      assert Span(msgs, 0, hi) == a + Chunk(msgs, hi - 1);
      assert (a + Chunk(msgs, hi - 1))[..|a|] == a;
    }
  }

  /**
   * Where message k stands in the output and what surrounds it: its own entry
   * sits at `EntryPos(msgs, k)` and is a tail exactly under the five
   * continuation conditions; the entry just before it is a separator carrying
   * its day exactly when its day differs from its older neighbour's, and
   * otherwise is the older neighbour's own entry.
   */
  lemma GroupedEntryAt(msgs: seq<Message>, k: nat)
    requires k < |msgs|
    ensures EntryPos(msgs, k) < |Grouped(msgs)|
    ensures Grouped(msgs)[EntryPos(msgs, k)] == MessageEntry(msgs[k].id, TailAt(msgs, k))
    ensures TailAt(msgs, k) <==>
              && k > 0
              && msgs[k].authorId == msgs[k - 1].authorId
              && msgs[k].createdAtMs - msgs[k - 1].createdAtMs < 420000
              && MasqueradeMatch(msgs[k].masquerade, msgs[k - 1].masquerade)
              && !msgs[k].systemMessage
              && !msgs[k - 1].systemMessage
              && msgs[k].replyIds == []
    ensures k == 0 ==> EntryPos(msgs, k) == 0
    ensures k > 0 && SeparatorAt(msgs, k) ==>
              EntryPos(msgs, k) == EntryPos(msgs, k - 1) + 2
              && Grouped(msgs)[EntryPos(msgs, k) - 1] == Separator(msgs[k].day)
    ensures k > 0 && !SeparatorAt(msgs, k) ==>
              EntryPos(msgs, k) == EntryPos(msgs, k - 1) + 1
  {
    var n := |msgs|;
    var g := Grouped(msgs);
    var p := Span(msgs, 0, k + 1);
    SpanLength(msgs, k + 1);
    SpanPrefix(msgs, k + 1, n);
    assert p == Span(msgs, 0, k) + Chunk(msgs, k);
    assert g[..|p|] == p;
    assert g[EntryPos(msgs, k)] == p[|p| - 1];
    if k > 0 && SeparatorAt(msgs, k) {
      assert g[EntryPos(msgs, k) - 1] == p[|p| - 2];
    }
  }

  /** The oldest message is always a head, and nothing precedes it. */
  lemma OldestIsHead(msgs: seq<Message>)
    requires |msgs| > 0
    ensures Grouped(msgs)[0] == MessageEntry(msgs[0].id, false)
  {
    GroupedEntryAt(msgs, 0);
  }

  lemma {:induction false} MessageEntriesAppend(a: seq<Entry>, b: seq<Entry>)
    ensures MessageEntries(a + b) == MessageEntries(a) + MessageEntries(b)
  {
    if a == [] {
      assert a + b == b;
    } else {
      assert (a + b)[1..] == a[1..] + b;
      MessageEntriesAppend(a[1..], b);
    }
  }

  lemma {:induction false} SeparatorsAppend(a: seq<Entry>, b: seq<Entry>)
    ensures Separators(a + b) == Separators(a) + Separators(b)
  {
    if a == [] {
      assert a + b == b;
    } else {
      assert (a + b)[1..] == a[1..] + b;
      SeparatorsAppend(a[1..], b);
    }
  }

  lemma {:induction false} SpanEntries(msgs: seq<Message>, j: nat)
    requires j <= |msgs|
    ensures |MessageEntries(Span(msgs, 0, j))| == j
    ensures forall k | 0 <= k < j :: MessageEntries(Span(msgs, 0, j))[k] == MessageEntry(msgs[k].id, TailAt(msgs, k))
    ensures |Separators(Span(msgs, 0, j))| == SeparatorsBefore(msgs, j)
    ensures forall s | s in Separators(Span(msgs, 0, j)) :: s.Separator?
  {
    if j > 0 {
      SpanEntries(msgs, j - 1);
      var a := Span(msgs, 0, j - 1);
      var c := Chunk(msgs, j - 1);
      var e := MessageEntry(msgs[j - 1].id, TailAt(msgs, j - 1));
      assert Span(msgs, 0, j) == a + c;
      MessageEntriesAppend(a, c);
      SeparatorsAppend(a, c);
      if SeparatorAt(msgs, j - 1) {
        assert c == [Separator(msgs[j - 1].day)] + [e];
        MessageEntriesAppend([Separator(msgs[j - 1].day)], [e]);
        SeparatorsAppend([Separator(msgs[j - 1].day)], [e]);
      } else {
        assert c == [e];
      }
      assert MessageEntries(c) == [e];
      assert MessageEntries(Span(msgs, 0, j)) == MessageEntries(a) + [e];
    }
  }

  /**
   * No message is dropped, duplicated or moved: taking only the message
   * entries of the output gives one entry per input message, in the input's
   * oldest-to-newest order, each a tail exactly when `TailAt` says so.
   */
  lemma GroupedMessageEntries(msgs: seq<Message>)
    ensures |MessageEntries(Grouped(msgs))| == |msgs|
    ensures forall k | 0 <= k < |msgs| ::
              MessageEntries(Grouped(msgs))[k] == MessageEntry(msgs[k].id, TailAt(msgs, k))
  {
    SpanEntries(msgs, |msgs|);
  }

  lemma {:induction false} SeparatorsBeforeBound(msgs: seq<Message>, j: nat)
    requires 0 < j <= |msgs|
    ensures SeparatorsBefore(msgs, j) <= j - 1
  {
    if j > 1 {
      SeparatorsBeforeBound(msgs, j - 1);
    }
  }

  /**
   * The output holds the messages plus one separator per day change; there
   * are at most n-1 separators, and none for a single message.
   */
  lemma GroupedLength(msgs: seq<Message>)
    ensures |Grouped(msgs)| == |msgs| + |Separators(Grouped(msgs))|
    ensures |Separators(Grouped(msgs))| == SeparatorsBefore(msgs, |msgs|)
    ensures |msgs| > 0 ==> |Separators(Grouped(msgs))| <= |msgs| - 1
  {
    SpanLength(msgs, |msgs|);
    SpanEntries(msgs, |msgs|);
    if |msgs| > 0 {
      SeparatorsBeforeBound(msgs, |msgs|);
    }
  }

  /** Empty input gives empty output; one message gives a single head. */
  lemma GroupedSmall(msgs: seq<Message>)
    ensures |msgs| == 0 ==> Grouped(msgs) == []
    ensures |msgs| == 1 ==> Grouped(msgs) == [MessageEntry(msgs[0].id, false)]
  {
  }

  /** Masquerades match when both are absent, both identical, or their parts agree. */
  lemma MasqueradeMatchCases(a: Option<Masquerade>, b: Option<Masquerade>)
    ensures a.None? && b.None? ==> MasqueradeMatch(a, b)
    ensures a.Some? && b.Some? ==> (MasqueradeMatch(a, b) <==> a.value.name == b.value.name && a.value.avatar == b.value.avatar)
    ensures a.None? && b.Some? ==> (MasqueradeMatch(a, b) <==> b.value.name.None? && b.value.avatar.None?)
  {
  }

  /**
   * Grouping does not look at calendar days: changing only the days of
   * messages changes where separators go but not which entries are tails.
   */
  lemma DaysDoNotAffectGrouping(msgs: seq<Message>, other: seq<Message>)
    requires |other| == |msgs|
    requires forall k | 0 <= k < |msgs| :: other[k] == msgs[k].(day := other[k].day)
    ensures MessageEntries(Grouped(other)) == MessageEntries(Grouped(msgs))
  {
    GroupedMessageEntries(msgs);
    GroupedMessageEntries(other);
    forall k | 0 <= k < |msgs|
      ensures TailAt(other, k) == TailAt(msgs, k)
    {
      if k > 0 {
        assert other[k - 1] == msgs[k - 1].(day := other[k - 1].day);
      }
    }
  }

  // ---------------------------------------------------------------------------
  // Worked examples

  /** A plain message by `author` at `ms` on `day`. */
  function Plain(id: string, author: string, ms: int, day: Day): Message {
    Message(id, "c", None, author, ms, day, None, false, [])
  }

  const Minute: int := 60 * 1000

  /** 10:00, 10:03, 10:09 by one author: one head and two tails (6-minute gaps do not break). */
  lemma ExampleSixMinuteGaps(day: Day)
    ensures Grouped([Plain("a", "u", 600 * Minute, day), Plain("b", "u", 603 * Minute, day), Plain("c", "u", 609 * Minute, day)])
            == [MessageEntry("a", false), MessageEntry("b", true), MessageEntry("c", true)]
  {
    var msgs := [Plain("a", "u", 600 * Minute, day), Plain("b", "u", 603 * Minute, day), Plain("c", "u", 609 * Minute, day)];
    assert Span(msgs, 0, 1) == [MessageEntry("a", false)];
    assert Span(msgs, 0, 2) == [MessageEntry("a", false), MessageEntry("b", true)];
  }

  /** 10:00, 10:03, 10:10: the 7-minute gap makes the third message a head. */
  lemma ExampleSevenMinuteBreak(day: Day)
    ensures Grouped([Plain("a", "u", 600 * Minute, day), Plain("b", "u", 603 * Minute, day), Plain("c", "u", 610 * Minute, day)])
            == [MessageEntry("a", false), MessageEntry("b", true), MessageEntry("c", false)]
  {
    var msgs := [Plain("a", "u", 600 * Minute, day), Plain("b", "u", 603 * Minute, day), Plain("c", "u", 610 * Minute, day)];
    assert Span(msgs, 0, 1) == [MessageEntry("a", false)];
    assert Span(msgs, 0, 2) == [MessageEntry("a", false), MessageEntry("b", true)];
  }

  /** Same author, same minute, but the second message is a reply: two heads. */
  lemma ExampleReplyBreaks(day: Day)
    ensures Grouped([Plain("a", "u", 600 * Minute, day), Plain("b", "u", 600 * Minute, day).(replyIds := ["a"])])
            == [MessageEntry("a", false), MessageEntry("b", false)]
  {
    var msgs := [Plain("a", "u", 600 * Minute, day), Plain("b", "u", 600 * Minute, day).(replyIds := ["a"])];
    assert Span(msgs, 0, 1) == [MessageEntry("a", false)];
  }

  /** 23:58 and 00:02 the next day: a separator between them, and still a tail. */
  lemma ExampleMidnight()
    ensures Grouped([Plain("a", "u", 1438 * Minute, Day(2024, 0, 1)), Plain("b", "u", 1442 * Minute, Day(2024, 0, 2))])
            == [MessageEntry("a", false), Separator(Day(2024, 0, 2)), MessageEntry("b", true)]
  {
  }
}
