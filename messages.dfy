/**
 * process_messages: the summary printed after validating a challenge. Each
 * message becomes one formatted line; the messages are counted per level
 * (1 to 5) and the highest level is kept; the counts become one sentence.
 * The styled level names and the bold/clear escape sequences are parameters.
 */
module Messages {
  import opened PyStrings

  /** A validator message; an unset `field` is "". */
  datatype Message = Message(level: int, code: string, field: string, name: string, text: string)

  /** STYLED_LEVELS (one display name per level), BOLD and CLEAR. */
  datatype Styling = Styling(levels: seq<string>, bold: string, clear: string)

  /** The dictionary process_messages returns. */
  datatype Summary = Summary(messageStrings: seq<string>, countString: string, highestLevel: int)

  /** Every message has a level between 1 and 5, as the validator produces them. */
  predicate ValidLevels(messages: seq<Message>) {
    forall i :: 0 <= i < |messages| ==> 1 <= messages[i].level <= 5
  }

  predicate ValidStyling(style: Styling) {
    |style.levels| == 5
  }

  /** Lines 42-49: the line shown for one message. */
  function MessageString(m: Message, verbose: bool, style: Styling): string
    requires 1 <= m.level <= 5 && ValidStyling(style)
  {
    LineHead(m, style)
    + (if m.field != "" then m.field + ": " else "")
    + m.name
    + (if verbose then "\n" + m.text else "")
  }

  /** How many of the messages are at `level`. */
  function LevelCount(messages: seq<Message>, level: int): (r: nat)
    ensures r <= |messages|
  {
    if messages == [] then 0
    else LevelCount(messages[..|messages| - 1], level) + (if messages[|messages| - 1].level == level then 1 else 0)
  }

  /** The five counts, lowest level first. */
  function Counts(messages: seq<Message>): seq<nat> {
    [LevelCount(messages, 1), LevelCount(messages, 2), LevelCount(messages, 3),
     LevelCount(messages, 4), LevelCount(messages, 5)]
  }

  /** The highest level among the messages, 0 for none. */
  function Highest(messages: seq<Message>): (r: int)
    requires ValidLevels(messages)
    ensures 0 <= r <= 5
  {
    if messages == [] then 0
    else
      var front := messages[..|messages| - 1];
      assert forall i :: 0 <= i < |front| ==> front[i] == messages[i];
      var h := Highest(front);
      var last := messages[|messages| - 1].level;
      if last > h then last else h
  }

  /** The levels with a non-zero count, in level order, each as (count, styled name). */
  function NonZero(counts: seq<nat>, names: seq<string>): (r: seq<(nat, string)>)
    requires |counts| == |names|
    ensures |r| <= |counts|
    ensures forall k :: 0 <= k < |r| ==> r[k].0 > 0
    ensures r == [] <==> forall i :: 0 <= i < |counts| ==> counts[i] == 0
    decreases |counts|
  {
    if counts == [] then []
    else
      var rest := NonZero(counts[1..], names[1..]);
      assert forall i :: 1 <= i < |counts| ==> counts[1..][i - 1] == counts[i];
      if counts[0] != 0 then [(counts[0], names[0])] + rest else rest
  }

  /** The positions of the non-zero counts, in increasing order. */
  function NonZeroLevels(counts: seq<nat>): (r: seq<nat>)
    decreases |counts|
  {
    if counts == [] then []
    else
      (if counts[0] != 0 then [0] else []) + Shift(NonZeroLevels(counts[1..]))
  }

  /** Every position moved up by one. */
  function Shift(ps: seq<nat>): (r: seq<nat>)
    ensures |r| == |ps| && forall k :: 0 <= k < |ps| ==> r[k] == ps[k] + 1
  {
    seq(|ps|, k requires 0 <= k < |ps| => ps[k] + 1)
  }

  /** The positions are in range, hold non-zero counts, and increase. */
  lemma {:induction false} NonZeroLevelsSound(counts: seq<nat>)
    ensures forall k :: 0 <= k < |NonZeroLevels(counts)| ==>
              NonZeroLevels(counts)[k] < |counts| && counts[NonZeroLevels(counts)[k]] != 0
    ensures forall k, l :: 0 <= k < l < |NonZeroLevels(counts)| ==> NonZeroLevels(counts)[k] < NonZeroLevels(counts)[l]
    decreases |counts|
  {
    if counts != [] {
      var tail := counts[1..];
      NonZeroLevelsSound(tail);
      var rest := NonZeroLevels(tail);
      var shifted := Shift(rest);
      var head: seq<nat> := if counts[0] != 0 then [0] else [];
      var idx := NonZeroLevels(counts);
      assert idx == head + shifted;
      forall k | 0 <= k < |shifted|
        ensures shifted[k] < |counts| && counts[shifted[k]] != 0
      {
        assert rest[k] < |tail| && tail[rest[k]] != 0;
        assert counts[shifted[k]] == tail[rest[k]];
      }
      assert forall k :: 0 <= k < |shifted| ==> shifted[k] >= 1;
    }
  }

  /** Every position with a non-zero count is among the positions. */
  lemma {:induction false} NonZeroLevelsComplete(counts: seq<nat>)
    ensures forall i :: 0 <= i < |counts| && counts[i] != 0 ==> i in NonZeroLevels(counts)
    decreases |counts|
  {
    if counts != [] {
      var tail := counts[1..];
      NonZeroLevelsComplete(tail);
      var rest := NonZeroLevels(tail);
      var shifted := Shift(rest);
      var head: seq<nat> := if counts[0] != 0 then [0] else [];
      var idx := NonZeroLevels(counts);
      assert idx == head + shifted;
      forall i | 1 <= i < |counts| && counts[i] != 0
        ensures i in idx
      {
        assert tail[i - 1] == counts[i];
        var k :| 0 <= k < |rest| && rest[k] == i - 1;
        assert idx[|head| + k] == i;
      }
    }
  }

  /** The k-th entry of NonZero is the count and name at the k-th non-zero position. */
  lemma {:induction false} NonZeroAtLevels(counts: seq<nat>, names: seq<string>)
    requires |counts| == |names|
    ensures var r := NonZero(counts, names); var idx := NonZeroLevels(counts);
      && |idx| == |r|
      && (forall k :: 0 <= k < |idx| ==> idx[k] < |counts| && r[k] == (counts[idx[k]], names[idx[k]]))
    decreases |counts|
  {
    if counts != [] {
      var tail, ntail := counts[1..], names[1..];
      NonZeroAtLevels(tail, ntail);
      var rest := NonZeroLevels(tail);
      var rr := NonZero(tail, ntail);
      var shifted := Shift(rest);
      var head: seq<nat> := if counts[0] != 0 then [0] else [];
      assert NonZeroLevels(counts) == head + shifted;
      forall k | 0 <= k < |shifted|
        ensures shifted[k] < |counts| && rr[k] == (counts[shifted[k]], names[shifted[k]])
      {
        assert tail[rest[k]] == counts[shifted[k]] && ntail[rest[k]] == names[shifted[k]];
      }
    }
  }

  /**
   * NonZero keeps every level whose count is non-zero, with its own count and
   * name, in level order, and no other level.
   */
  lemma NonZeroKeepsLevels(counts: seq<nat>, names: seq<string>)
    requires |counts| == |names|
    ensures var r := NonZero(counts, names); var idx := NonZeroLevels(counts);
      && |idx| == |r|
      && (forall k :: 0 <= k < |idx| ==> idx[k] < |counts| && r[k] == (counts[idx[k]], names[idx[k]]))
      && (forall k, l :: 0 <= k < l < |idx| ==> idx[k] < idx[l])
      && (forall i :: 0 <= i < |counts| ==> (counts[i] != 0 <==> i in idx))
  {
    NonZeroLevelsSound(counts);
    NonZeroLevelsComplete(counts);
    NonZeroAtLevels(counts, names);
  }

  /** `f"{count} {name}"` for each non-zero level. */
  function Parts(nz: seq<(nat, string)>): (r: seq<string>)
    ensures |r| == |nz|
  {
    seq(|nz|, k requires 0 <= k < |nz| => NatToString(nz[k].0) + " " + nz[k].1)
  }

  /** Lines 52-68: the sentence built from the counts. */
  function CountString(counts: seq<nat>, names: seq<string>): string
    requires |counts| == |names|
  {
    var nz := NonZero(counts, names);
    (if nz == [] then "No" else "\n" + ReplaceLast(Join(Parts(nz), ", "), ", ", " and "))
    + " issue" + (if nz == [] || nz[|nz| - 1].0 > 1 then "s" else "") + " raised."
  }

  /** `"[<level name>] [<bold><code><clear>] "`: the head every message line starts with. */
  function LineHead(m: Message, style: Styling): string
    requires 1 <= m.level <= 5 && ValidStyling(style)
  {
    "[" + style.levels[m.level - 1] + "] [" + style.bold + m.code + style.clear + "] "
  }

  /**
   * A message line starts with its styled level and bold code, then holds
   * `field: ` only when the field is set, then the name; it ends with the name,
   * or in verbose mode with a newline and the message text.
   */
  lemma MessageLineShape(m: Message, verbose: bool, style: Styling)
    requires 1 <= m.level <= 5 && ValidStyling(style)
    ensures var line := MessageString(m, verbose, style); var h := LineHead(m, style);
      var f := if m.field != "" then |m.field| + 2 else 0;
      && |line| == |h| + f + |m.name| + (if verbose then 1 + |m.text| else 0)
      && line[..|h|] == h
      && (m.field != "" ==> line[|h|..|h| + f] == m.field + ": ")
      && line[|h| + f..|h| + f + |m.name|] == m.name
      && (verbose ==> line[|h| + f + |m.name|..] == "\n" + m.text)
  {
    var line := MessageString(m, verbose, style);
    var h := LineHead(m, style);
    var fs := if m.field != "" then m.field + ": " else "";
    var vs := if verbose then "\n" + m.text else "";
    assert line == h + fs + m.name + vs;
    assert line[..|h|] == h;
    assert line[|h|..|h| + |fs|] == fs;
    assert line[|h| + |fs|..|h| + |fs| + |m.name|] == m.name;
    assert line[|h| + |fs| + |m.name|..] == vs;
  }

  /** The documented example: an unstyled CRITICAL message A002 "Schema violation" without a field. */
  lemma CriticalExample(text: string)
    ensures MessageString(Message(5, "A002", "", "Schema violation", text), false,
                          Styling(["LOW", "MEDIUM", "HIGH", "ERROR", "CRITICAL"], "", ""))
         == "[CRITICAL] [A002] Schema violation"
  {
    var style := Styling(["LOW", "MEDIUM", "HIGH", "ERROR", "CRITICAL"], "", "");
    assert style.levels[4] == "CRITICAL";
    assert "[" + "CRITICAL" + "] [" + "" + "A002" + "" + "] " == "[CRITICAL] [A002] ";
    assert "[CRITICAL] [A002] " + "" + "Schema violation" + "" == "[CRITICAL] [A002] Schema violation";
  }

  /** Lines 42-49, built up piece by piece as the source does. */
  method FormatMessage(m: Message, verbose: bool, style: Styling) returns (line: string)
    requires 1 <= m.level <= 5 && ValidStyling(style)
    ensures line == MessageString(m, verbose, style)
  {
    line := "[" + style.levels[m.level - 1] + "] [" + style.bold + m.code + style.clear + "] ";
    if m.field != "" {
      line := line + m.field + ": ";
    }
    line := line + m.name;
    if verbose {
      line := line + "\n" + m.text;
    }
  }

  /** process_messages(messages, verbose) */
  method ProcessMessages(messages: seq<Message>, verbose: bool, style: Styling) returns (r: Summary)
    requires ValidLevels(messages) && ValidStyling(style)
    ensures |r.messageStrings| == |messages|
    ensures forall j :: 0 <= j < |messages| ==> r.messageStrings[j] == MessageString(messages[j], verbose, style)
    ensures r.highestLevel == Highest(messages)
    ensures r.countString == CountString(Counts(messages), style.levels)
  {
    var levelCounts: seq<nat> := [0, 0, 0, 0, 0];
    var highestLevel := 0;
    var messageStrings: seq<string> := [];
    var i := 0;
    while i < |messages|
      invariant 0 <= i <= |messages|
      invariant levelCounts == Counts(messages[..i])
      invariant highestLevel == Highest(messages[..i])
      invariant |messageStrings| == i
      invariant forall j :: 0 <= j < i ==> messageStrings[j] == MessageString(messages[j], verbose, style)
    {
      var m := messages[i];
      TallyStep(messages, i);
      levelCounts := levelCounts[m.level - 1 := levelCounts[m.level - 1] + 1];
      highestLevel := if highestLevel > m.level then highestLevel else m.level;

      var line := FormatMessage(m, verbose, style);
      messageStrings := messageStrings + [line];
      i := i + 1;
    }
    assert messages[..i] == messages;
    r := Summary(messageStrings, CountString(levelCounts, style.levels), highestLevel);
  }

  /** How the counts and the highest level of a prefix grow by the next message. */
  lemma TallyStep(messages: seq<Message>, i: nat)
    requires ValidLevels(messages) && i < |messages|
    ensures var m := messages[i]; var c := Counts(messages[..i]); var h := Highest(messages[..i]);
      && Counts(messages[..i + 1]) == c[m.level - 1 := c[m.level - 1] + 1]
      && Highest(messages[..i + 1]) == if h > m.level then h else m.level
  {
    var m := messages[i];
    assert messages[..i + 1] == messages[..i] + [m];
    assert ValidLevels(messages[..i]) by {
      assert forall j :: 0 <= j < i ==> messages[..i][j] == messages[j];
    }
    CountsSnoc(messages[..i], m);
    HighestSnoc(messages[..i], m);
  }

  /** Counting one more message adds one to its level's count. */
  lemma CountsSnoc(front: seq<Message>, m: Message)
    requires 1 <= m.level <= 5
    ensures Counts(front + [m]) == Counts(front)[m.level - 1 := Counts(front)[m.level - 1] + 1]
  {
    var ms := front + [m];
    assert ms[..|ms| - 1] == front;
  }

  /** One more message raises the highest level to its own level if that is higher. */
  lemma HighestSnoc(front: seq<Message>, m: Message)
    requires ValidLevels(front) && 1 <= m.level <= 5
    ensures ValidLevels(front + [m])
    ensures Highest(front + [m]) == if Highest(front) > m.level then Highest(front) else m.level
  {
    var ms := front + [m];
    assert ms[..|ms| - 1] == front;
  }

  // ------------------------------------------------------------- properties

  /**
   * The highest level is the maximum: no message is above it, some message is
   * at it, and it is 0 exactly when there are no messages.
   */
  lemma {:induction false} HighestIsMaximum(messages: seq<Message>)
    requires ValidLevels(messages)
    ensures forall i :: 0 <= i < |messages| ==> messages[i].level <= Highest(messages)
    ensures messages == [] <==> Highest(messages) == 0
    ensures messages != [] ==> exists i :: 0 <= i < |messages| && messages[i].level == Highest(messages)
  {
    if messages != [] {
      var front := messages[..|messages| - 1];
      assert forall i :: 0 <= i < |front| ==> front[i] == messages[i];
      HighestIsMaximum(front);
      var n := |messages| - 1;
      if Highest(front) < messages[n].level {
        assert messages[n].level == Highest(messages);
      } else {
        if front == [] {
        } else {
          var i :| 0 <= i < |front| && front[i].level == Highest(front);
          assert messages[i].level == Highest(messages);
        }
      }
    }
  }

  /** Every message is counted exactly once: the five counts add up to the number of messages. */
  lemma {:induction false} CountsAddUp(messages: seq<Message>)
    requires ValidLevels(messages)
    ensures var c := Counts(messages); c[0] + c[1] + c[2] + c[3] + c[4] == |messages|
  {
    if messages != [] {
      var front := messages[..|messages| - 1];
      assert forall i :: 0 <= i < |front| ==> front[i] == messages[i];
      CountsAddUp(front);
    }
  }

  /** Without messages the sentence is "No issues raised."; with any it starts on a new line. */
  lemma CountStringEmpty(messages: seq<Message>, names: seq<string>)
    requires ValidLevels(messages) && |names| == 5
    ensures messages == [] ==> CountString(Counts(messages), names) == "No issues raised."
    ensures messages != [] ==> CountString(Counts(messages), names)[0] == '\n'
  {
    var c := Counts(messages);
    if messages != [] {
      CountsAddUp(messages);
      assert exists i :: 0 <= i < 5 && c[i] != 0;
    } else {
      assert forall i :: 0 <= i < 5 ==> c[i] == 0;
    }
  }

  /** The plural follows the count of the highest non-empty level alone, not the total. */
  lemma PluralFollowsLastCount(counts: seq<nat>, names: seq<string>)
    requires |counts| == |names|
    ensures var nz := NonZero(counts, names);
      EndsWith(CountString(counts, names), " issues raised.") <==> nz == [] || nz[|nz| - 1].0 > 1
  {
    var nz := NonZero(counts, names);
    var s := CountString(counts, names);
    var head := if nz == [] then "No" else "\n" + ReplaceLast(Join(Parts(nz), ", "), ", ", " and ");
    if nz == [] || nz[|nz| - 1].0 > 1 {
      assert s == head + " issues raised.";
    } else {
      SingularEnding(head);
    }
  }

  lemma SingularEnding(head: string)
    ensures !EndsWith(head + " issue" + "" + " raised.", " issues raised.")
  {
    var s := head + " issue" + "" + " raised.";
    if |s| >= 15 {
      assert s[|s| - 15..][6] == s[|s| - 9] == 'e';
    }
  }

  /** A part `"<count> <name>"` holds a ", " only where the name does. */
  lemma PartHasNoSeparator(count: nat, name: string)
    requires !Occurs(name, ", ")
    ensures !Occurs(NatToString(count) + " " + name, ", ")
  {
    var d := NatToString(count);
    var s := d + " " + name;
    forall j | 0 <= j <= |s| ensures !OccursAt(s, ", ", j) {
      if j + 2 <= |s| {
        if j < |d| {
          assert s[j..j + 2][0] == d[j];
        } else if j == |d| {
          assert s[j..j + 2][0] == ' ';
        } else {
          assert s[j..j + 2] == name[j - |d| - 1..j - |d| + 1];
          assert !OccursAt(name, ", ", j - |d| - 1);
        }
      }
    }
  }

  /**
   * With two or more non-zero levels, and no ", " inside the last level's name,
   * the separator in front of the last part becomes " and " and no other.
   */
  lemma CountSentence(counts: seq<nat>, names: seq<string>)
    requires |counts| == |names|
    requires var nz := NonZero(counts, names); |nz| >= 2 && !Occurs(nz[|nz| - 1].1, ", ")
    ensures var nz := NonZero(counts, names); var p := Parts(nz); var n := |p|;
      CountString(counts, names)
      == "\n" + Join(p[..n - 1], ", ") + " and " + p[n - 1]
         + " issue" + (if nz[n - 1].0 > 1 then "s" else "") + " raised."
  {
    var nz := NonZero(counts, names);
    var p := Parts(nz);
    var n := |p|;
    var joined := Join(p[..n - 1], ", ") + " and " + p[n - 1];
    assert ReplaceLast(Join(p, ", "), ", ", " and ") == joined by {
      assert p[n - 1] == NatToString(nz[n - 1].0) + " " + nz[n - 1].1;
      PartHasNoSeparator(nz[n - 1].0, nz[n - 1].1);
      ReplaceLastSeparator(p, " and ");
    }
    var plural := if nz[n - 1].0 > 1 then "s" else "";
    assert CountString(counts, names) == "\n" + joined + " issue" + plural + " raised.";
    assert "\n" + joined == "\n" + Join(p[..n - 1], ", ") + " and " + p[n - 1];
  }

  /** One message at each of levels 2 and 3: "1 <level 2> and 1 <level 3> issue raised.", in the singular. */
  lemma TwoSingleCounts(names: seq<string>)
    requires |names| == 5 && !Occurs(names[2], ", ")
    ensures CountString([0, 1, 1, 0, 0], names)
         == "\n1 " + names[1] + " and 1 " + names[2] + " issue raised."
  {
    var counts: seq<nat> := [0, 1, 1, 0, 0];
    var nz := NonZero(counts, names);
    assert nz == [(1, names[1]), (1, names[2])] by {
      assert counts[1..] == [1, 1, 0, 0];
      assert counts[1..][1..] == [1, 0, 0];
      assert counts[1..][1..][1..] == [0, 0];
      assert counts[1..][1..][1..][1..] == [0];
      assert NonZero([0, 0], names[3..]) == [];
    }
    var a := "1 " + names[1];
    var b := "1 " + names[2];
    var p := Parts(nz);
    assert p[..1] == [a] && p[1] == b by {
      assert NatToString(1) == "1";
      assert p[0] == a;
    }
    assert CountString(counts, names) == "\n" + a + " and " + b + " issue" + "" + " raised." by {
      CountSentence(counts, names);
    }
    TwoPartsSentence(names[1], names[2]);
  }

  lemma TwoPartsSentence(x: string, y: string)
    ensures "\n" + ("1 " + x) + " and " + ("1 " + y) + " issue" + "" + " raised."
         == "\n1 " + x + " and 1 " + y + " issue raised."
  {
    assert "\n" + ("1 " + x) == "\n1 " + x;
    assert "\n1 " + x + " and " + ("1 " + y) == "\n1 " + x + " and 1 " + y;
    assert " issue" + "" + " raised." == " issue raised.";
  }
}
