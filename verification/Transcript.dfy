/** Transcript assembly: messages and activities merged by timestamp, runs of activities counted. */
module Transcript {
  import opened Decimal

  datatype Entry = Message(content: string) | Activity

  /** A timeline item: a timestamp and what happened. */
  datatype Item = Item(ts: int, entry: Entry)

  // ---- Stable sort ---------------------------------------------------------------------

  predicate Sorted(s: seq<Item>) { forall i, j :: 0 <= i < j < |s| ==> s[i].ts <= s[j].ts }

  /** The items stamped `t`, in order. */
  function At(s: seq<Item>, t: int): seq<Item> {
    if s == [] then []
    else if s[|s| - 1].ts == t then At(s[..|s| - 1], t) + [s[|s| - 1]]
    else At(s[..|s| - 1], t)
  }

  /** `r` is the stable sort of `s`: sorted, and for every timestamp the same items in the same order. */
  ghost predicate IsStableSort(s: seq<Item>, r: seq<Item>) {
    Sorted(r) && forall t :: SameItemsAt(s, r, t)
  }

  lemma {:induction false} AtConcat(a: seq<Item>, b: seq<Item>, t: int)
    ensures At(a + b, t) == At(a, t) + At(b, t)
  {
    if b == [] {
      assert a + b == a;
    } else {
      assert (a + b)[..|a + b| - 1] == a + b[..|b| - 1];
      AtConcat(a, b[..|b| - 1], t);
    }
  }

  lemma {:induction false} AtNone(s: seq<Item>, t: int)
    requires forall x :: x in s ==> x.ts != t
    ensures At(s, t) == []
  {
    if s != [] {
      assert s[|s| - 1] in s && forall x :: x in s[..|s| - 1] ==> x in s;
      AtNone(s[..|s| - 1], t);
    }
  }

  predicate SameItemsAt(s: seq<Item>, r: seq<Item>, t: int) { At(s, t) == At(r, t) }

  /** The stable sort of a sequence is unique: items at each timestamp determine a sorted sequence. */
  lemma {:induction false} StableSortUnique(s: seq<Item>, r: seq<Item>)
    requires Sorted(s) && Sorted(r) && forall t :: SameItemsAt(s, r, t)
    ensures s == r
    decreases |s|
  {
    EmptyTogether(s, r);
    if s != [] {
      var s0, x, r0, y := s[..|s| - 1], s[|s| - 1], r[..|r| - 1], r[|r| - 1];
      assert SameItemsAt(s, r, x.ts) && SameItemsAt(s, r, y.ts);
      SameLast(s, r);
      forall t
        ensures SameItemsAt(s0, r0, t)
      {
        assert SameItemsAt(s, r, t);
        if t == x.ts { assert At(s0, t) == At(s, t)[..|At(s, t)| - 1] && At(r0, t) == At(r, t)[..|At(r, t)| - 1]; }
      }
      StableSortUnique(s0, r0);
      assert s == s0 + [x] && r == r0 + [y];
    }
  }

  lemma EmptyTogether(s: seq<Item>, r: seq<Item>)
    requires forall t :: SameItemsAt(s, r, t)
    ensures s == [] <==> r == []
  {
    forall t
      ensures SameItemsAt(r, s, t)
    {
      assert SameItemsAt(s, r, t);
    }
    if s != [] { NonEmptyCarries(s, r); }
    if r != [] { NonEmptyCarries(r, s); }
  }

  lemma NonEmptyCarries(s: seq<Item>, r: seq<Item>)
    requires s != [] && forall t :: SameItemsAt(s, r, t)
    ensures r != []
  {
    assert SameItemsAt(s, r, s[|s| - 1].ts);
    LastAt(s);
  }

  lemma SameLast(s: seq<Item>, r: seq<Item>)
    requires s != [] && r != [] && Sorted(s) && Sorted(r)
    requires SameItemsAt(s, r, s[|s| - 1].ts) && SameItemsAt(s, r, r[|r| - 1].ts)
    ensures s[|s| - 1] == r[|r| - 1]
  {
    var x, y := s[|s| - 1], r[|r| - 1];
    LastAt(s);
    LastAt(r);
    if x.ts > y.ts { AtNone(r, x.ts); }
    if y.ts > x.ts { AtNone(s, y.ts); }
  }

  lemma LastAt(s: seq<Item>)
    requires s != []
    ensures var a := At(s, s[|s| - 1].ts); a != [] && a[|a| - 1] == s[|s| - 1]
  {
  }

  lemma SortedConcat(a: seq<Item>, b: seq<Item>, t: int)
    requires Sorted(a) && Sorted(b)
    requires (forall i :: 0 <= i < |a| ==> a[i].ts <= t) && (forall i :: 0 <= i < |b| ==> t <= b[i].ts)
    ensures Sorted(a + b)
  {
  }

  /** Passing items that are stamped later is not visible at any timestamp. */
  lemma InsertAt(s: seq<Item>, before: seq<Item>, after: seq<Item>, x: Item, t: int)
    requires SameItemsAt(s, before + after, t) && forall y :: y in after ==> y.ts > x.ts
    ensures SameItemsAt(s + [x], before + [x] + after, t)
  {
    AtConcat(s, [x], t);
    AtConcat(before + [x], after, t);
    AtConcat(before, [x], t);
    AtConcat(before, after, t);
    if t == x.ts { AtNone(after, t); } else { AtNone([x], t); }
  }

  lemma InsertSorted(r: seq<Item>, p: nat, x: Item)
    requires Sorted(r) && p <= |r|
    requires (p > 0 ==> r[p - 1].ts <= x.ts) && forall j :: p <= j < |r| ==> r[j].ts > x.ts
    ensures Sorted(r[..p] + [x] + r[p..])
    ensures forall y :: y in r[p..] ==> y.ts > x.ts
  {
    SortedConcat(r[..p], [x], x.ts);
    SortedConcat(r[..p] + [x], r[p..], x.ts);
  }

  /** Inserting after every item not stamped later keeps the order sorted and stable. */
  lemma InsertionStep(s: seq<Item>, r: seq<Item>, p: nat, x: Item)
    requires IsStableSort(s, r) && p <= |r|
    requires (p > 0 ==> r[p - 1].ts <= x.ts) && forall j :: p <= j < |r| ==> r[j].ts > x.ts
    ensures IsStableSort(s + [x], r[..p] + [x] + r[p..])
  {
    InsertSorted(r, p, x);
    forall t
      ensures SameItemsAt(s + [x], r[..p] + [x] + r[p..], t)
    {
      assert r == r[..p] + r[p..] && SameItemsAt(s, r, t);
      InsertAt(s, r[..p], r[p..], x, t);
    }
  }

  /** `sort_by_key`, as insertion from the left. */
  method SortByTimestamp(s: seq<Item>) returns (r: seq<Item>)
    ensures IsStableSort(s, r)
  {
    r := [];
    for i := 0 to |s|
      invariant IsStableSort(s[..i], r)
    {
      var p := |r|;
      while p > 0 && r[p - 1].ts > s[i].ts
        invariant 0 <= p <= |r| && forall j :: p <= j < |r| ==> r[j].ts > s[i].ts
      {
        p := p - 1;
      }
      InsertionStep(s[..i], r, p, s[i]);
      assert s[..i + 1] == s[..i] + [s[i]];
      r := r[..p] + [s[i]] + r[p..];
    }
    assert s[..|s|] == s;
  }

  // ---- Blocks --------------------------------------------------------------------------------

  datatype Block = Text(content: string) | Activities(count: nat)

  function Entries(s: seq<Item>): seq<Entry> { seq(|s|, i requires 0 <= i < |s| => s[i].entry) }

  function Repeat(n: nat): seq<Entry> { seq(n, _ => Activity) }

  function BlockEntries(b: Block): seq<Entry> { if b.Text? then [Message(b.content)] else Repeat(b.count) }

  function BlockCount(b: Block): nat { if b.Text? then 0 else b.count }

  /** What a sequence of blocks stands for. */
  function Expand(bs: seq<Block>): seq<Entry> {
    if bs == [] then [] else Expand(bs[..|bs| - 1]) + BlockEntries(bs[|bs| - 1])
  }

  /** Counts are positive and no two activity blocks are adjacent. */
  predicate Compressed(bs: seq<Block>) {
    && (forall i :: 0 <= i < |bs| && bs[i].Activities? ==> bs[i].count > 0)
    && (forall i :: 0 <= i < |bs| - 1 ==> !(bs[i].Activities? && bs[i + 1].Activities?))
  }

  /** Blocks so far, without the run of activities still being counted. */
  function Blocks(es: seq<Entry>): seq<Block> {
    if es == [] then []
    else
      var front, e := es[..|es| - 1], es[|es| - 1];
      if e.Activity? then Blocks(front)
      else Flushed(Blocks(front), Trailing(front)) + [Text(e.content)]
  }

  /** Length of the run of activities at the end. */
  function Trailing(es: seq<Entry>): nat {
    if es == [] || !es[|es| - 1].Activity? then 0 else 1 + Trailing(es[..|es| - 1])
  }

  function Flushed(bs: seq<Block>, count: nat): seq<Block> {
    if count > 0 then bs + [Activities(count)] else bs
  }

  /** All blocks of a transcript. */
  function Transcribed(es: seq<Entry>): seq<Block> { Flushed(Blocks(es), Trailing(es)) }

  /** The blocks written so far and the run still being counted give the entries back. */
  lemma {:induction false} BlocksLossless(es: seq<Entry>)
    ensures Expand(Blocks(es)) + Repeat(Trailing(es)) == es
    ensures Compressed(Blocks(es)) && (Blocks(es) != [] ==> Blocks(es)[|Blocks(es)| - 1].Text?)
  {
    if es == [] {
      assert Repeat(0) == [];
    } else {
      var front, e := es[..|es| - 1], es[|es| - 1];
      BlocksLossless(front);
      assert es == front + [e];
      if e.Activity? {
        RepeatMore(Trailing(front));
        assert Expand(Blocks(front)) + (Repeat(Trailing(front)) + [Activity]) == front + [e];
      } else {
        TextStep(front, e);
        assert Repeat(0) == [];
        assert front + [e] + [] == es;
      }
    }
  }

  lemma TextStep(front: seq<Entry>, e: Entry)
    requires e.Message? && Compressed(Blocks(front))
    requires Blocks(front) != [] ==> Blocks(front)[|Blocks(front)| - 1].Text?
    requires Expand(Blocks(front)) + Repeat(Trailing(front)) == front
    ensures Expand(Transcribed(front) + [Text(e.content)]) == front + [e]
    ensures Compressed(Transcribed(front) + [Text(e.content)])
  {
    var bs := Transcribed(front);
    FlushLossless(Blocks(front), Trailing(front));
    assert Expand(bs) == front;
    ExpandSnoc(bs, Text(e.content));
    CompressedSnoc(bs, Text(e.content));
  }

  lemma RepeatMore(n: nat)
    ensures Repeat(n + 1) == Repeat(n) + [Activity]
  {
  }

  lemma CompressedSnoc(bs: seq<Block>, b: Block)
    requires Compressed(bs)
    requires b.Activities? ==> b.count > 0 && (bs != [] ==> bs[|bs| - 1].Text?)
    ensures Compressed(bs + [b])
  {
  }

  lemma FlushLossless(bs: seq<Block>, count: nat)
    requires Compressed(bs) && (bs != [] ==> bs[|bs| - 1].Text?)
    ensures Compressed(Flushed(bs, count)) && Expand(Flushed(bs, count)) == Expand(bs) + Repeat(count)
  {
    if count > 0 {
      ExpandSnoc(bs, Activities(count));
      CompressedSnoc(bs, Activities(count));
    } else {
      assert Repeat(0) == [];
      assert Expand(bs) + [] == Expand(bs);
    }
  }

  /** The blocks are a lossless run-length encoding: expanding them gives the entries back, every
      message once and in order, counts are positive and no two activity blocks are adjacent. */
  lemma TranscriptLossless(es: seq<Entry>)
    ensures Expand(Transcribed(es)) == es
    ensures Compressed(Transcribed(es))
  {
    BlocksLossless(es);
    FlushLossless(Blocks(es), Trailing(es));
  }

  lemma ExpandSnoc(bs: seq<Block>, b: Block)
    ensures Expand(bs + [b]) == Expand(bs) + BlockEntries(b)
  {
    assert (bs + [b])[..|bs|] == bs;
  }

  function CountActivities(es: seq<Entry>): nat {
    if es == [] then 0 else CountActivities(es[..|es| - 1]) + if es[|es| - 1].Activity? then 1 else 0
  }

  function RecordedTotal(bs: seq<Block>): nat {
    if bs == [] then 0 else RecordedTotal(bs[..|bs| - 1]) + BlockCount(bs[|bs| - 1])
  }

  lemma RecordedSnoc(bs: seq<Block>, b: Block)
    ensures RecordedTotal(bs + [b]) == RecordedTotal(bs) + BlockCount(b)
  {
    assert (bs + [b])[..|bs|] == bs;
  }

  /** The recorded counts sum to the number of activities. */
  lemma {:induction false} CountsSumUp(es: seq<Entry>)
    ensures RecordedTotal(Transcribed(es)) == CountActivities(es)
    ensures RecordedTotal(Blocks(es)) + Trailing(es) == CountActivities(es)
  {
    if es != [] {
      var front, e := es[..|es| - 1], es[|es| - 1];
      CountsSumUp(front);
      if !e.Activity? { RecordedSnoc(Transcribed(front), Text(e.content)); }
    }
    if Trailing(es) > 0 { RecordedSnoc(Blocks(es), Activities(Trailing(es))); }
  }

  // ---- Rendering --------------------------------------------------------------------------------

  function SummaryLine(count: nat): string {
    "\n--- " + Digits(count) + if count == 1 then " activity recorded ---\n" else " activities recorded ---\n"
  }

  function Written(buf: string, b: Block): string {
    if b.Text? then buf + (if buf == "" then "" else "\n") + b.content else buf + SummaryLine(b.count)
  }

  function Render(bs: seq<Block>): string {
    if bs == [] then "" else Written(Render(bs[..|bs| - 1]), bs[|bs| - 1])
  }

  lemma RenderSnoc(bs: seq<Block>, b: Block)
    ensures Render(bs + [b]) == Written(Render(bs), b)
  {
    assert (bs + [b])[..|bs|] == bs;
  }

  /** Nothing but empty messages. */
  predicate Blank(bs: seq<Block>) { forall i :: 0 <= i < |bs| ==> bs[i] == Text("") }

  lemma {:induction false} RenderEmptyIff(bs: seq<Block>)
    ensures Render(bs) == "" <==> Blank(bs)
  {
    if bs != [] {
      RenderEmptyIff(bs[..|bs| - 1]);
      var front := bs[..|bs| - 1];
      assert forall i :: 0 <= i < |front| ==> front[i] == bs[i];
    }
  }

  lemma {:induction false} RenderGrows(bs: seq<Block>, i: nat)
    requires i <= |bs|
    ensures Render(bs[..i]) <= Render(bs)
  {
    if i < |bs| {
      RenderGrows(bs[..|bs| - 1], i);
      assert bs[..|bs| - 1][..i] == bs[..i];
    } else {
      assert bs[..i] == bs;
    }
  }

  /** The line for `n` activities: dashes, the decimal count, the noun in its number, dashes. */
  predicate CountsLine(line: string, n: nat) {
    var head, tail := "\n--- ", if n == 1 then " activity recorded ---\n" else " activities recorded ---\n";
    |line| > |head| + |tail| && line[..|head|] == head && line[|line| - |tail|..] == tail
    && var count := line[|head|..|line| - |tail|];
    IsNumeral(count) && Value(count) == n
  }

  /** A message on a line of its own unless the text is still blank, or the line counting activities. */
  predicate AddedBy(b: Block, blank: bool, added: string) {
    if b.Text? then added == (if blank then "" else "\n") + b.content else CountsLine(added, b.count)
  }

  /** The text is that of the blocks one after the other: what block `i` adds is its content, on a line of its
      own unless nothing but empty messages came before, or the line counting its activities. */
  lemma RenderReads(bs: seq<Block>, i: nat)
    requires i < |bs|
    ensures Render(bs[..i]) <= Render(bs[..i + 1]) <= Render(bs)
    ensures AddedBy(bs[i], Blank(bs[..i]), Render(bs[..i + 1])[|Render(bs[..i])|..])
  {
    RenderGrows(bs, i + 1);
    RenderEmptyIff(bs[..i]);
    NextBlock(bs, i);
    WrittenReads(Render(bs[..i]), bs[i]);
  }

  lemma NextBlock(bs: seq<Block>, i: nat)
    requires i < |bs|
    ensures Render(bs[..i + 1]) == Written(Render(bs[..i]), bs[i])
  {
    assert bs[..i + 1] == bs[..i] + [bs[i]];
    RenderSnoc(bs[..i], bs[i]);
  }

  lemma WrittenReads(buf: string, b: Block)
    ensures buf <= Written(buf, b)
    ensures var added := Written(buf, b)[|buf|..];
            AddedBy(b, buf == "", added)
  {
    if b.Text? {
      assert Written(buf, b) == buf + ((if buf == "" then "" else "\n") + b.content);
    } else {
      assert Written(buf, b)[|buf|..] == SummaryLine(b.count);
      LineReads(b.count);
    }
  }

  lemma LineReads(n: nat)
    ensures CountsLine(SummaryLine(n), n)
  {
    DigitsRead(n);
    if n == 1 {
      MiddleReads("\n--- ", Digits(n), " activity recorded ---\n");
    } else {
      MiddleReads("\n--- ", Digits(n), " activities recorded ---\n");
    }
  }

  lemma MiddleReads(head: string, middle: string, tail: string)
    ensures var line := head + middle + tail;
            line[..|head|] == head && line[|line| - |tail|..] == tail && line[|head|..|line| - |tail|] == middle
  {
  }

  function Merged(messages: seq<Item>, activities: seq<int>): seq<Item> {
    messages + seq(|activities|, i requires 0 <= i < |activities| => Item(activities[i], Activity))
  }

  /** Before sorting every message comes before every activity, so at equal timestamps messages are written first. */
  lemma MessagesFirst(messages: seq<Item>, activities: seq<int>, t: int)
    requires forall i :: 0 <= i < |messages| ==> messages[i].entry.Message?
    ensures var items := At(Merged(messages, activities), t);
            exists n :: 0 <= n <= |items| && items[..n] == At(messages, t)
                        && forall i :: n <= i < |items| ==> items[i] == Item(t, Activity)
  {
    var more := seq(|activities|, i requires 0 <= i < |activities| => Item(activities[i], Activity));
    AtConcat(messages, more, t);
    AtActivities(more, t);
    var items, n := At(messages + more, t), |At(messages, t)|;
    assert items[..n] == At(messages, t) && items[n..] == At(more, t);
  }

  lemma {:induction false} AtActivities(s: seq<Item>, t: int)
    requires forall i :: 0 <= i < |s| ==> s[i].entry.Activity?
    ensures forall i :: 0 <= i < |At(s, t)| ==> At(s, t)[i] == Item(t, Activity)
  {
    if s != [] { AtActivities(s[..|s| - 1], t); }
  }

  /** Merges the non-user messages and the activities by timestamp, then writes the transcript. */
  method AssembleTranscript(messages: seq<Item>, activities: seq<int>) returns (buf: string)
    ensures exists timeline :: IsStableSort(Merged(messages, activities), timeline)
                               && buf == Render(Transcribed(Entries(timeline)))
  {
    var timeline := messages;
    for i := 0 to |activities|
      invariant timeline == Merged(messages, activities[..i])
    {
      timeline := timeline + [Item(activities[i], Activity)];
    }
    assert activities[..|activities|] == activities;
    timeline := SortByTimestamp(timeline);
    buf := WriteTranscript(timeline);
  }

  /** Writing out the run being counted, if there is one. */
  lemma RenderFlushed(es: seq<Entry>)
    ensures Render(Transcribed(es)) ==
            Render(Blocks(es)) + if Trailing(es) > 0 then SummaryLine(Trailing(es)) else ""
  {
    if Trailing(es) > 0 { RenderSnoc(Blocks(es), Activities(Trailing(es))); }
  }

  /** What one more entry does to the text written so far and to the run being counted. */
  lemma RenderStep(front: seq<Entry>, e: Entry)
    ensures var es := front + [e];
            if e.Activity? then Render(Blocks(es)) == Render(Blocks(front)) && Trailing(es) == Trailing(front) + 1
            else Render(Blocks(es)) == Written(Render(Transcribed(front)), Text(e.content)) && Trailing(es) == 0
  {
    var es := front + [e];
    assert es[..|es| - 1] == front;
    if e.Message? { RenderSnoc(Transcribed(front), Text(e.content)); }
  }

  method WriteTranscript(timeline: seq<Item>) returns (buf: string)
    ensures buf == Render(Transcribed(Entries(timeline)))
  {
    buf := "";
    var activityCount: nat := 0;
    for i := 0 to |timeline|
      invariant buf == Render(Blocks(Entries(timeline[..i])))
      invariant activityCount == Trailing(Entries(timeline[..i]))
    {
      ghost var front := Entries(timeline[..i]);
      assert Entries(timeline[..i + 1]) == front + [timeline[i].entry];
      RenderStep(front, timeline[i].entry);
      RenderFlushed(front);
      match timeline[i].entry {
        case Message(content) =>
          if activityCount > 0 {
            buf := buf + SummaryLine(activityCount);
            activityCount := 0;
          }
          if buf != "" { buf := buf + "\n"; }
          buf := buf + content;
        case Activity =>
          activityCount := activityCount + 1;
      }
    }
    assert timeline[..|timeline|] == timeline;
    RenderFlushed(Entries(timeline));
    if activityCount > 0 {
      buf := buf + SummaryLine(activityCount);
    }
  }
}
