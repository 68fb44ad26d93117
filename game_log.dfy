/** The collapsing message log of src/game_log.rs. The newest entry is at the
    front; adding the message that is already newest bumps its repeat count
    instead of adding a line. */
module GameLogs {
  import opened Strings

  datatype LogEntry = LogEntry(message: string, count: nat)

  /** The entries after GameLog::add(msg). */
  function Added(entries: seq<LogEntry>, msg: string): seq<LogEntry> {
    if |entries| > 0 && entries[0].message == msg
    then entries[0 := entries[0].(count := entries[0].count + 1)]
    else [LogEntry(msg, 1)] + entries
  }

  /** The entries after adding each of msgs in turn. */
  function AddedAll(entries: seq<LogEntry>, msgs: seq<string>): seq<LogEntry>
    decreases |msgs|
  {
    if msgs == [] then entries else Added(AddedAll(entries, msgs[..|msgs| - 1]), msgs[|msgs| - 1])
  }

  predicate CountsPositive(entries: seq<LogEntry>) {
    forall i :: 0 <= i < |entries| ==> entries[i].count >= 1
  }

  /** A repeat of the newest message bumps its count, keeps the length and
      leaves every older entry alone. */
  lemma AddRepeatCollapses(entries: seq<LogEntry>, msg: string)
    requires |entries| > 0 && entries[0].message == msg
    ensures |Added(entries, msg)| == |entries|
    ensures Added(entries, msg)[0] == LogEntry(msg, entries[0].count + 1)
    ensures Added(entries, msg)[1..] == entries[1..]
  {
  }

  /** Any other message becomes a new newest entry of count 1, and the
      older entries shift back one place unchanged. */
  lemma AddNewPrepends(entries: seq<LogEntry>, msg: string)
    requires entries == [] || entries[0].message != msg
    ensures |Added(entries, msg)| == |entries| + 1
    ensures Added(entries, msg)[0] == LogEntry(msg, 1)
    ensures Added(entries, msg)[1..] == entries
  {
  }

  /** However many messages are added: every count stays at least 1, a
      non-empty log stays non-empty, the newest entry holds the last message,
      and the log grows by at most one entry per message. */
  lemma {:induction false} AddedAllInvariant(entries: seq<LogEntry>, msgs: seq<string>)
    requires CountsPositive(entries)
    ensures CountsPositive(AddedAll(entries, msgs))
    ensures |entries| <= |AddedAll(entries, msgs)| <= |entries| + |msgs|
    ensures msgs != [] ==> |AddedAll(entries, msgs)| > 0 && AddedAll(entries, msgs)[0].message == msgs[|msgs| - 1]
    decreases |msgs|
  {
    if msgs != [] {
      AddedAllInvariant(entries, msgs[..|msgs| - 1]);
    }
  }

  lemma {:induction false} AddedAllAppend(entries: seq<LogEntry>, msgs: seq<string>, more: seq<string>)
    ensures AddedAll(AddedAll(entries, msgs), more) == AddedAll(entries, msgs + more)
    decreases |more|
  {
    if more != [] {
      AddedAllAppend(entries, msgs, more[..|more| - 1]);
      assert (msgs + more)[..|msgs + more| - 1] == msgs + more[..|more| - 1];
    } else {
      assert msgs + more == msgs;
    }
  }

  /** GameLog::move_index: the display index moved by delta and clamped to
      [0, len - 1]; -1 when the log is empty. */
  function ClampedIndex(len: nat, index: int, delta: int): (r: int)
    ensures len > 0 ==> 0 <= r < len
    ensures 0 <= index + delta < len ==> r == index + delta
    ensures index + delta < 0 && len > 0 ==> r == 0
    ensures index + delta >= len ==> r == len - 1
  {
    var lower := if 0 <= index + delta then index + delta else 0;
    if len - 1 <= lower then len - 1 else lower
  }

  /** LogEntry::get_formatted_message. */
  function FormattedMessage(e: LogEntry): string {
    if e.count == 1 then e.message else e.message + " (x" + NatToString(e.count) + ")"
  }

  /** A single entry shows its bare message; a repeated one shows the message
      followed by " (xN)", from which the count N reads back. */
  lemma {:induction false} FormattedMessageShowsCount(e: LogEntry)
    ensures e.count == 1 ==> FormattedMessage(e) == e.message
    ensures e.count != 1 ==>
      var s := FormattedMessage(e);
      && |s| >= |e.message| + 4
      && s[..|e.message|] == e.message
      && s[|e.message|..|e.message| + 3] == " (x"
      && s[|s| - 1] == ')'
      && (forall i :: |e.message| + 3 <= i < |s| - 1 ==> '0' <= s[i] <= '9')
      && DigitsValue(s[|e.message| + 3..|s| - 1]) == e.count
  {
    if e.count != 1 {
      var s := FormattedMessage(e);
      var digits := NatToString(e.count);
      assert s == e.message + " (x" + digits + ")";
      assert s[|e.message| + 3..|s| - 1] == digits;
      NatToStringRoundTrip(e.count);
    }
  }

  class GameLog {
    var entries: seq<LogEntry>
    var displayIndex: int

    ghost predicate Valid()
      reads this
    {
      CountsPositive(entries)
    }

    /** GameLog::new_with_first_log. */
    constructor NewWithFirstLog(first: string)
      ensures Valid()
      ensures entries == [LogEntry(first, 1)] && displayIndex == 0
    {
      entries := [LogEntry(first, 1)];
      displayIndex := 0;
    }

    /** GameLog::add. */
    method Add(msg: string)
      requires Valid()
      modifies this`entries
      ensures Valid()
      ensures entries == Added(old(entries), msg)
    {
      if |entries| == 0 {
        AddNewEntry(msg);
      } else {
        var last := entries[0];
        if last.message == msg {
          entries := entries[0 := last.(count := last.count + 1)];
        } else {
          AddNewEntry(msg);
        }
      }
    }

    /** GameLog::add_new_entry: a count-1 entry at the front. */
    method AddNewEntry(msg: string)
      requires Valid()
      modifies this`entries
      ensures Valid()
      ensures entries == [LogEntry(msg, 1)] + old(entries)
    {
      entries := [LogEntry(msg, 1)] + entries;
    }

    /** GameLog::move_index. */
    method MoveIndex(delta: int)
      modifies this`displayIndex
      ensures displayIndex == ClampedIndex(|entries|, old(displayIndex), delta)
    {
      var lower := if 0 > displayIndex + delta then 0 else displayIndex + delta;
      displayIndex := if |entries| - 1 < lower then |entries| - 1 else lower;
    }
  }
}
