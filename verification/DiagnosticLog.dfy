/**
 The application log: a fixed number of slots in one directory, slot 0 active and the
 others older copies. A line is appended to slot 0 under an exclusive lock, after the
 unfinished line of an earlier crash has been cut off and, when it does not fit, after
 every slot has moved up by one.
 */
module DiagnosticLog {
  import opened Outcomes

  const NEWLINE: bv8 := 10
  const READ_CHUNK_BYTES: nat := 64 * 1024

  predicate EndsLine(content: Bytes) {
    content == [] || content[|content| - 1] == NEWLINE
  }

  /** One encoded observation: its only newline is its last byte. */
  predicate IsRecord(line: Bytes) {
    && line != [] && line[|line| - 1] == NEWLINE
    && forall i :: 0 <= i < |line| - 1 ==> line[i] != NEWLINE
  }

  predicate NoNewlineFrom(content: Bytes, start: int) {
    forall i :: 0 <= i && start <= i < |content| ==> content[i] != NEWLINE
  }

  /** The content up to and including its last newline. */
  function CompleteLines(content: Bytes): (lines: Bytes)
    ensures lines <= content && EndsLine(lines) && NoNewlineFrom(content, |lines|)
  {
    if EndsLine(content) then content else CompleteLines(content[..|content| - 1])
  }

  /** Nothing else is a cut after the last newline. */
  lemma {:induction false} CompleteLinesIsTheCut(content: Bytes, cut: nat)
    requires cut <= |content| && EndsLine(content[..cut]) && NoNewlineFrom(content, cut)
    ensures CompleteLines(content) == content[..cut]
  {
    if cut == |content| {
      assert content[..cut] == content;
    } else {
      var shorter := content[..|content| - 1];
      assert content[..cut] == shorter[..cut];
      CompleteLinesIsTheCut(shorter, cut);
    }
  }

  function Flatten(records: seq<Bytes>): Bytes {
    if records == [] then [] else records[0] + Flatten(records[1..])
  }

  lemma {:induction false} FlattenAppend(records: seq<Bytes>, line: Bytes)
    ensures Flatten(records + [line]) == Flatten(records) + line
  {
    if records == [] {
      assert [line][1..] == [];
    } else {
      FlattenAppend(records[1..], line);
      assert (records + [line])[1..] == records[1..] + [line];
    }
  }

  /** A cut of the log that falls after a newline falls between two records. */
  lemma {:induction false} CutBetweenRecords(records: seq<Bytes>, cut: nat) returns (k: nat)
    requires forall r :: r in records ==> IsRecord(r)
    requires cut <= |Flatten(records)| && EndsLine(Flatten(records)[..cut])
    ensures k <= |records|
    ensures Flatten(records[k..]) == Flatten(records)[cut..]
    ensures Flatten(records[..k]) == Flatten(records)[..cut]
    ensures cut == 0 ==> k == 0
  {
    if cut == 0 {
      k := 0;
    } else {
      var all := Flatten(records);
      var size := |records[0]|;
      assert IsRecord(records[0]) && all[..cut][cut - 1] == all[cut - 1] == NEWLINE;
      if cut < size {
        assert false;
      }
      assert all[size..] == Flatten(records[1..]);
      assert cut > size ==> all[size..][..cut - size][cut - size - 1] == all[cut - 1];
      var rest := CutBetweenRecords(records[1..], cut - size);
      k := rest + 1;
      assert records[k..] == records[1..][rest..];
      assert records[..k][1..] == records[1..][..rest];
      assert all[cut..] == all[size..][cut - size..];
      assert all[..cut] == records[0] + all[size..][..cut - size];
    }
  }

  type Slots = seq<Option<Bytes>>

  function Stored(slot: Option<Bytes>): Bytes {
    if slot.Some? then slot.value else []
  }

  /** Every stored byte, oldest slot first. */
  function Contents(slots: Slots): Bytes {
    if slots == [] then [] else Contents(slots[1..]) + Stored(slots[0])
  }

  lemma Associative(a: Bytes, b: Bytes, c: Bytes)
    ensures (a + b) + c == a + (b + c)
  {
  }

  lemma {:induction false} ContentsAppend(newer: Slots, older: Slots)
    ensures Contents(newer + older) == Contents(older) + Contents(newer)
  {
    if newer == [] {
      assert newer + older == older;
    } else {
      var slots := newer + older;
      assert slots[1..] == newer[1..] + older && slots[0] == newer[0];
      ContentsAppend(newer[1..], older);
      Associative(Contents(older), Contents(newer[1..]), Stored(newer[0]));
    }
  }

  lemma OneSlot(slot: Option<Bytes>)
    ensures Contents([slot]) == Stored(slot)
  {
    assert [slot][1..] == [];
  }

  /** A rotation that has dropped the oldest slot and moved every slot from `index` on. */
  function Shifted(slots: Slots, index: nat): (shifted: Slots)
    requires index < |slots|
  {
    seq(|slots|, i requires 0 <= i < |slots| =>
      if i < index then slots[i] else if i == index then None else slots[i - 1])
  }

  lemma VacatedSlotAddsNothing(newer: Slots, middle: Slots, oldest: Option<Bytes>)
    ensures Contents(newer + middle + [oldest]) == Stored(oldest) + Contents(newer + ([None] + middle))
  {
    assert Stored(None) == [];
    hide Contents, Stored;
    ContentsAppend(newer + middle, [oldest]);
    OneSlot(oldest);
    ContentsAppend(newer, middle);
    ContentsAppend(newer, [None] + middle);
    ContentsAppend([None], middle);
    OneSlot(None);
  }

  lemma ShiftedParts(slots: Slots, index: nat)
    requires index < |slots|
    ensures slots == slots[..index] + slots[index..|slots| - 1] + [slots[|slots| - 1]]
    ensures Shifted(slots, index) == slots[..index] + ([None] + slots[index..|slots| - 1])
  {
  }

  /** However far a rotation has come, exactly the oldest slot's bytes are gone. */
  lemma ShiftingDropsOldest(slots: Slots, index: nat)
    requires index < |slots|
    ensures Contents(slots) == Stored(slots[|slots| - 1]) + Contents(Shifted(slots, index))
  {
    var last := |slots| - 1;
    VacatedSlotAddsNothing(slots[..index], slots[index..last], slots[last]);
    ShiftedParts(slots, index);
  }

  /** Moving one more slot up. */
  lemma ShiftOneMore(slots: Slots, index: nat)
    requires index + 1 < |slots|
    ensures Shifted(slots, index) == Shifted(slots, index + 1)[index + 1 := slots[index]][index := None]
  {
  }

  /** The log without the unfinished line that slot 0 may end with. */
  function CompleteContents(slots: Slots): Bytes
    requires slots != []
  {
    Contents(slots[1..]) + CompleteLines(Stored(slots[0]))
  }

  /**
   What every moment of every run keeps: the log is exactly the records from `dropped`
   on, every older slot holds whole lines, and no slot is over its bound.
   */
  ghost predicate Retains(slots: Slots, maxFileBytes: nat, records: seq<Bytes>, dropped: nat) {
    && slots != []
    && dropped <= |records|
    && (forall r :: r in records ==> IsRecord(r))
    && (forall i :: 0 <= i < |slots| ==> |Stored(slots[i])| <= maxFileBytes)
    && (forall i :: 1 <= i < |slots| ==> EndsLine(Stored(slots[i])))
    && CompleteContents(slots) == Flatten(records[dropped..])
  }

  /** Replacing slot 0 by content with the same complete lines keeps what is retained. */
  lemma SameLinesRetain(slots: Slots, maxFileBytes: nat, records: seq<Bytes>, dropped: nat, active: Option<Bytes>)
    requires Retains(slots, maxFileBytes, records, dropped)
    requires CompleteLines(Stored(active)) == CompleteLines(Stored(slots[0]))
    requires |Stored(active)| <= maxFileBytes
    ensures Retains(slots[0 := active], maxFileBytes, records, dropped)
  {
    assert slots[0 := active][1..] == slots[1..];
  }

  /** Appending part of a record to whole lines leaves the same complete lines. */
  lemma PartIsUnfinished(base: Bytes, line: Bytes, count: nat)
    requires EndsLine(base) && IsRecord(line) && count < |line|
    ensures CompleteLines(base + line[..count]) == base
  {
    assert (base + line[..count])[..|base|] == base;
    CompleteLinesIsTheCut(base + line[..count], |base|);
  }

  /** An unfinished line behind whole lines keeps what is retained. */
  lemma UnfinishedRetains(
    slots: Slots, maxFileBytes: nat, records: seq<Bytes>, dropped: nat, line: Bytes, count: nat)
    requires Retains(slots, maxFileBytes, records, dropped) && EndsLine(Stored(slots[0])) && IsRecord(line)
    requires count < |line| && |Stored(slots[0])| + |line| <= maxFileBytes
    ensures Retains(slots[0 := Some(Stored(slots[0]) + line[..count])], maxFileBytes, records, dropped)
  {
    PartIsUnfinished(Stored(slots[0]), line, count);
    SameLinesRetain(slots, maxFileBytes, records, dropped, Some(Stored(slots[0]) + line[..count]));
  }

  /** Appending a whole record extends the retained records by it. */
  lemma WholeLineRetains(slots: Slots, maxFileBytes: nat, records: seq<Bytes>, dropped: nat, line: Bytes)
    requires Retains(slots, maxFileBytes, records, dropped) && EndsLine(Stored(slots[0])) && IsRecord(line)
    requires |Stored(slots[0])| + |line| <= maxFileBytes
    ensures Retains(slots[0 := Some(Stored(slots[0]) + line)], maxFileBytes, records + [line], dropped)
  {
    var active := Some(Stored(slots[0]) + line);
    assert slots[0 := active][1..] == slots[1..];
    FlattenAppend(records[dropped..], line);
    assert (records + [line])[dropped..] == records[dropped..] + [line];
    Associative(Contents(slots[1..]), Stored(slots[0]), line);
    assert CompleteContents(slots[0 := active]) == CompleteContents(slots) + line;
  }

  lemma OldestIsWhole(
    slots: Slots, repaired: Slots, maxFileBytes: nat, records: seq<Bytes>, dropped: nat)
    requires Retains(slots, maxFileBytes, records, dropped)
    requires |repaired| == |slots| && repaired == slots[0 := Some(CompleteLines(Stored(slots[0])))]
    ensures Stored(repaired[|slots| - 1]) == CompleteLines(Stored(slots[|slots| - 1]))
  {
    hide CompleteContents, Flatten;
  }

  lemma OldestRecords(records: seq<Bytes>, dropped: nat, oldest: Bytes, rest: Bytes) returns (after: nat)
    requires dropped <= |records| && forall r :: r in records ==> IsRecord(r)
    requires Flatten(records[dropped..]) == oldest + rest && EndsLine(oldest)
    ensures dropped <= after <= |records| && Flatten(records[after..]) == rest
    ensures Flatten(records[dropped..after]) == oldest && (oldest == [] ==> after == dropped)
  {
    var kept := records[dropped..];
    assert (oldest + rest)[..|oldest|] == oldest && (oldest + rest)[|oldest|..] == rest;
    var k := CutBetweenRecords(kept, |oldest|);
    after := dropped + k;
    assert records[after..] == kept[k..] && records[dropped..after] == kept[..k];
  }

  lemma WholeSlotIsComplete(slots: Slots)
    requires slots != [] && EndsLine(Stored(slots[0]))
    ensures CompleteContents(slots) == Contents(slots)
  {
  }

  lemma WholeSlotsAreRetained(slots: Slots, maxFileBytes: nat, records: seq<Bytes>, dropped: nat)
    requires Retains(slots, maxFileBytes, records, dropped) && EndsLine(Stored(slots[0]))
    ensures Contents(slots) == Flatten(records[dropped..])
  {
    WholeSlotIsComplete(slots);
  }

  /** A rotation, finished or not, drops the oldest slot's records and no others. */
  lemma ShiftingRetains(slots: Slots, maxFileBytes: nat, records: seq<Bytes>, dropped: nat, index: nat)
    returns (after: nat)
    requires Retains(slots, maxFileBytes, records, dropped)
    requires EndsLine(Stored(slots[0])) && index < |slots|
    ensures dropped <= after <= |records| && Retains(Shifted(slots, index), maxFileBytes, records, after)
    ensures Flatten(records[dropped..after]) == Stored(slots[|slots| - 1])
    ensures slots[|slots| - 1].None? ==> after == dropped
  {
    WholeSlotIsComplete(slots);
    hide Contents, CompleteContents, CompleteLines, Flatten, Shifted, EndsLine;
    ShiftingDropsOldest(slots, index);
    after := OldestRecords(records, dropped, Stored(slots[|slots| - 1]), Contents(Shifted(slots, index)));
    ShiftedSlots(slots, index, maxFileBytes);
    WholeSlotIsComplete(Shifted(slots, index));
  }

  /** A rotation keeps every slot bounded and whole. */
  lemma ShiftedSlots(slots: Slots, index: nat, maxFileBytes: nat)
    requires index < |slots|
    requires forall i :: 0 <= i < |slots| ==> |Stored(slots[i])| <= maxFileBytes && EndsLine(Stored(slots[i]))
    ensures |Shifted(slots, index)| == |slots|
    ensures forall i :: 0 <= i < |slots| ==>
              |Stored(Shifted(slots, index)[i])| <= maxFileBytes && EndsLine(Stored(Shifted(slots, index)[i]))
  {
    forall i | 0 <= i < |slots|
      ensures |Stored(Shifted(slots, index)[i])| <= maxFileBytes && EndsLine(Stored(Shifted(slots, index)[i]))
    {
      if i > index {
        assert Shifted(slots, index)[i] == slots[i - 1];
      }
    }
  }

  /** No older slot stands empty. */
  predicate AllOlder(slots: Slots) {
    forall i :: 1 <= i < |slots| ==> slots[i].Some?
  }

  /** None of them but perhaps the oldest. */
  predicate AllButOldest(slots: Slots) {
    forall i :: 1 <= i < |slots| - 1 ==> slots[i].Some?
  }

  /** No older slot stands empty in front of an occupied one. */
  predicate Gapless(slots: Slots) {
    forall i :: 2 <= i < |slots| && slots[i].Some? ==> slots[i - 1].Some?
  }

  /** A rotation has made some of its renames and not all: neither nothing, nor the removal alone, nor everything. */
  predicate StoppedBetween(before: Slots, after: Slots) {
    before != [] && after != before && after != Shifted(before, |before| - 1) && after != Shifted(before, 0)
  }

  /** What all slots but one hold, when no line of at most `maxLineBytes` fits into any of them. */
  function AllButOneSlot(slotCount: nat, maxFileBytes: nat, maxLineBytes: nat): int {
    (slotCount - 1) * (maxFileBytes + 1 - maxLineBytes)
  }

  /**
   How much of the newest bytes stays, when no line is longer than `maxLineBytes`. Every
   occupied older slot was full when it was rotated. Once anything is dropped at least one
   full slot's bytes remain, and all but one slot's unless a drop came early, that is,
   while an older slot stood empty. A drop comes early only after a rotation stopped
   between two renames, because nothing else leaves a gap.
   */
  ghost predicate KeepsNewest(
    slots: Slots, maxFileBytes: nat, maxLineBytes: nat, records: seq<Bytes>, dropped: nat,
    stopped: bool, lostEarly: bool)
    requires dropped <= |records|
  {
    && (forall i :: 1 <= i < |slots| && slots[i].Some? ==> |slots[i].value| + maxLineBytes > maxFileBytes)
    && (|slots| >= 2 && dropped > 0 ==> |Flatten(records[dropped..])| + maxLineBytes > maxFileBytes)
    && (|slots| >= 2 && dropped > 0 && !lostEarly && maxLineBytes <= maxFileBytes ==>
          |Flatten(records[dropped..])| >= AllButOneSlot(|slots|, maxFileBytes, maxLineBytes))
    && (!stopped ==> Gapless(slots))
    && (lostEarly ==> stopped)
  }

  lemma {:induction false} SlotIsContained(slots: Slots, i: nat)
    requires i < |slots|
    ensures |Stored(slots[i])| <= |Contents(slots)|
  {
    if i > 0 {
      SlotIsContained(slots[1..], i - 1);
    }
  }

  lemma FlattenGrows(records: seq<Bytes>, dropped: nat, line: Bytes)
    requires dropped <= |records|
    ensures |Flatten((records + [line])[dropped..])| == |Flatten(records[dropped..])| + |line|
  {
    FlattenAppend(records[dropped..], line);
    assert (records + [line])[dropped..] == records[dropped..] + [line];
  }

  /** A write to slot 0 keeps it. */
  lemma ActiveKeeps(
    slots: Slots, maxFileBytes: nat, maxLineBytes: nat, before: seq<Bytes>, records: seq<Bytes>, dropped: nat,
    stopped: bool, lostEarly: bool, active: Option<Bytes>, line: Bytes)
    requires slots != [] && dropped <= |before|
    requires KeepsNewest(slots, maxFileBytes, maxLineBytes, before, dropped, stopped, lostEarly)
    requires records == before || records == before + [line]
    ensures KeepsNewest(slots[0 := active], maxFileBytes, maxLineBytes, records, dropped, stopped, lostEarly)
  {
    if records != before {
      FlattenGrows(before, dropped, line);
    }
  }

  lemma ShiftedHolds(slots: Slots, index: nat, maxFileBytes: nat, records: seq<Bytes>, after: nat)
    requires index < |slots| && slots[0].Some? && EndsLine(slots[0].value)
    requires Retains(Shifted(slots, index), maxFileBytes, records, after)
    ensures |Flatten(records[after..])| == |Contents(slots[..|slots| - 1])|
  {
    assert EndsLine(Stored(Shifted(slots, index)[0]));
    WholeSlotIsComplete(Shifted(slots, index));
    hide Contents, Shifted, Stored, Flatten, EndsLine;
    var last := |slots| - 1;
    ShiftingDropsOldest(slots, index);
    ContentsAppend(slots[..last], [slots[last]]);
    OneSlot(slots[last]);
    assert slots[..last] + [slots[last]] == slots;
  }

  /** A rotation for lack of room keeps it; what it drops comes early exactly when an older slot stood empty. */
  lemma ShiftingKeeps(
    slots: Slots, maxFileBytes: nat, maxLineBytes: nat, records: seq<Bytes>, dropped: nat, after: nat,
    stopped: bool, lostEarly: bool, index: nat)
    requires index < |slots| && dropped <= after <= |records|
    requires KeepsNewest(slots, maxFileBytes, maxLineBytes, records, dropped, stopped, lostEarly)
    requires slots[0].Some? && EndsLine(slots[0].value) && |slots[0].value| + maxLineBytes > maxFileBytes
    requires Retains(Shifted(slots, index), maxFileBytes, records, after)
    requires slots[|slots| - 1].None? ==> after == dropped
    ensures KeepsNewest(
      Shifted(slots, index), maxFileBytes, maxLineBytes, records, after,
      stopped || StoppedBetween(slots, Shifted(slots, index)), lostEarly || (after != dropped && !AllOlder(slots)))
  {
    hide Shifted, StoppedBetween, Gapless, AllOlder, Flatten, Retains, EndsLine, Contents, AllButOneSlot;
    ShiftedHoldsFirst(slots, index, maxFileBytes, records, after);
    ShiftedOlderAreFull(slots, index, maxFileBytes, maxLineBytes);
    if |slots| >= 2 && AllOlder(slots) && maxLineBytes <= maxFileBytes {
      FullSlotsRemain(slots, index, maxFileBytes, maxLineBytes, records, after);
    }
    if !stopped {
      ShiftedGapless(slots, index);
      if after != dropped {
        GaplessOldest(slots);
      }
    }
  }

  /** With every slot full, a rotation keeps all but the oldest one's bytes. */
  lemma FullSlotsRemain(
    slots: Slots, index: nat, maxFileBytes: nat, maxLineBytes: nat, records: seq<Bytes>, after: nat)
    requires index < |slots| && AllOlder(slots) && maxLineBytes <= maxFileBytes
    requires slots[0].Some? && EndsLine(slots[0].value)
    requires forall i :: 0 <= i < |slots| && slots[i].Some? ==> |slots[i].value| + maxLineBytes > maxFileBytes
    requires Retains(Shifted(slots, index), maxFileBytes, records, after)
    ensures |Flatten(records[after..])| >= AllButOneSlot(|slots|, maxFileBytes, maxLineBytes)
  {
    hide Flatten, Contents, EndsLine, Retains;
    ShiftedHolds(slots, index, maxFileBytes, records, after);
    FullSlotsHold(slots[..|slots| - 1], maxFileBytes + 1 - maxLineBytes);
  }

  /** The slot that was active is still there. */
  lemma ShiftedHoldsFirst(slots: Slots, index: nat, maxFileBytes: nat, records: seq<Bytes>, after: nat)
    requires index < |slots| && |slots| >= 2 ==> slots[0].Some? && EndsLine(slots[0].value)
    requires index < |slots| && Retains(Shifted(slots, index), maxFileBytes, records, after)
    ensures |slots| >= 2 ==> |Flatten(records[after..])| >= |slots[0].value|
  {
    if |slots| >= 2 {
      var shifted := Shifted(slots, index);
      var now := if index == 0 then 1 else 0;
      assert shifted[now] == slots[0];
      WholeSlotIsComplete(shifted);
      SlotIsContained(shifted, now);
    }
  }

  lemma ShiftedOlderAreFull(slots: Slots, index: nat, maxFileBytes: nat, maxLineBytes: nat)
    requires index < |slots|
    requires forall i :: 0 <= i < |slots| && slots[i].Some? ==> |slots[i].value| + maxLineBytes > maxFileBytes
    ensures var shifted := Shifted(slots, index);
            && |shifted| == |slots|
            && forall i :: 1 <= i < |shifted| && shifted[i].Some? ==> |shifted[i].value| + maxLineBytes > maxFileBytes
  {
  }

  lemma ShiftedGapless(slots: Slots, index: nat)
    requires index < |slots| && Gapless(slots) && slots[0].Some?
    ensures StoppedBetween(slots, Shifted(slots, index)) || Gapless(Shifted(slots, index))
  {
    var shifted := Shifted(slots, index);
    if shifted == slots || shifted == Shifted(slots, |slots| - 1) || index == 0 || shifted == Shifted(slots, 0) {
      assert Gapless(Shifted(slots, 0)) && Gapless(Shifted(slots, |slots| - 1));
    }
  }

  lemma GaplessOldest(slots: Slots)
    requires Gapless(slots) && |slots| >= 1 && slots[|slots| - 1].Some?
    ensures AllOlder(slots)
  {
    forall i | 1 <= i < |slots|
      ensures slots[i].Some?
    {
      NoGapMeansFull(slots, i);
    }
  }

  lemma {:induction false} NoGapMeansFull(slots: Slots, i: nat)
    requires 1 <= i < |slots| && slots[|slots| - 1].Some? && Gapless(slots)
    ensures slots[i].Some?
    decreases |slots| - i
  {
    if i < |slots| - 1 {
      NoGapMeansFull(slots, i + 1);
    }
  }

  /** Full slots hold this much together. */
  lemma {:induction false} FullSlotsHold(slots: Slots, least: nat)
    requires forall i :: 0 <= i < |slots| ==> |Stored(slots[i])| >= least
    ensures |Contents(slots)| >= |slots| * least
  {
    if slots != [] {
      FullSlotsHold(slots[1..], least);
      assert |slots| * least == |slots[1..]| * least + least;
    }
  }

  /** The older slots are those before, one place up, behind the slot that was active. */
  predicate OlderShifted(before: Slots, after: Slots) {
    && |after| == |before|
    && (forall i :: 2 <= i < |after| ==> after[i] == before[i - 1])
    && (|after| >= 2 ==> after[1].Some?)
  }

  /** Room is made for a line: behind what slot 0 completely holds, or by moving every slot up. */
  predicate RoomMade(before: Slots, line: Bytes, maxFileBytes: nat, after: Slots)
    requires before != []
  {
    var held := CompleteLines(Stored(before[0]));
    && |after| == |before|
    && if |held| + |line| <= maxFileBytes then
         after[0] == Some(held) && forall i :: 1 <= i < |after| ==> after[i] == before[i]
       else
         && after[0] == Some([]) && (|after| >= 2 ==> after[1] == Some(held))
         && forall i :: 2 <= i < |after| ==> after[i] == before[i - 1]
  }

  /** The line stands behind what slot 0 completely holds, if it fits there, and else alone in slot 0. */
  predicate Written(before: Slots, line: Bytes, maxFileBytes: nat, after: Slots)
    requires before != []
  {
    var held := CompleteLines(Stored(before[0]));
    && |after| == |before|
    && if |held| + |line| <= maxFileBytes then
         after[0] == Some(held + line) && forall i :: 1 <= i < |after| ==> after[i] == before[i]
       else
         && after[0] == Some(line) && (|after| >= 2 ==> after[1] == Some(held))
         && forall i :: 2 <= i < |after| ==> after[i] == before[i - 1]
  }

  lemma RoomIsWritten(before: Slots, line: Bytes, maxFileBytes: nat, roomy: Slots, after: Slots)
    requires before != [] && RoomMade(before, line, maxFileBytes, roomy) && roomy[0].Some?
    requires after == roomy[0 := Some(roomy[0].value + line)]
    ensures Written(before, line, maxFileBytes, after)
  {
    hide CompleteLines;
    assert [] + line == line;
  }

  lemma ShiftMadeRoom(before: Slots, repaired: Slots, line: Bytes, maxFileBytes: nat, after: Slots)
    requires before != [] && |repaired| == |before|
    requires repaired == before[0 := Some(CompleteLines(Stored(before[0])))]
    requires |CompleteLines(Stored(before[0]))| + |line| > maxFileBytes
    requires after == Shifted(repaired, 0)[0 := Some([])]
    ensures RoomMade(before, line, maxFileBytes, after)
  {
    hide CompleteLines;
  }

  /** What happened to slot 0 does not matter to the older ones. */
  lemma RepairedOlder(before: Slots, repaired: Slots)
    requires before != [] && |repaired| == |before| && repaired == before[0 := repaired[0]]
    ensures AllOlder(repaired) <==> AllOlder(before)
    ensures forall after :: OlderShifted(repaired, after) <==> OlderShifted(before, after)
  {
    assert forall i :: 1 <= i < |before| ==> repaired[i] == before[i];
  }

  /**
   When exactly a finished rotation leaves every older slot occupied: when none but the
   oldest stood empty before it. For one that drops the oldest slot this is: when none did.
   */
  lemma FullAfterRotation(before: Slots, after: Slots)
    requires OlderShifted(before, after) && |before| >= 2
    ensures AllOlder(after) <==> AllButOldest(before)
    ensures before[|before| - 1].Some? ==> (AllOlder(after) <==> AllOlder(before))
  {
    if AllOlder(after) {
      forall i | 1 <= i < |before| - 1
        ensures before[i].Some?
      {
        assert after[i + 1] == before[i];
      }
    }
  }

  /**
   The shortest loss: with two older slots, one of them still free, a rotation that stops
   after its first rename leaves a gap, and the next one drops a record early that an
   undisturbed rotation would have kept.
   */
  lemma StoppedRotationLosesEarly(a: Bytes, b: Bytes, maxFileBytes: nat)
    requires IsRecord(a) && IsRecord(b) && |a| <= maxFileBytes && |b| <= maxFileBytes
    ensures
      var slots := [Some(b), Some(a), None];
      var gap := [Some(b), None, Some(a)];
      && Retains(slots, maxFileBytes, [a, b], 0)
      && Shifted(slots, 0) == [None, Some(b), Some(a)] && Retains(Shifted(slots, 0), maxFileBytes, [a, b], 0)
      && Shifted(slots, 1) == gap && StoppedBetween(slots, gap) && Retains(gap, maxFileBytes, [a, b], 0)
      && !AllOlder(gap) && Shifted(gap, 0) == [None, Some(b), None]
      && Retains(Shifted(gap, 0), maxFileBytes, [a, b], 1)
  {
    ThreeSlotShifts(a, b);
    RecordHolds(a, maxFileBytes);
    RecordHolds(b, maxFileBytes);
    StoredTogether(a, b);
    GapStandsEmpty(Some(b), Some(a));
    hide *;
    ThreeSlotsRetain(Some(b), Some(a), None, a, b, maxFileBytes, 0);
    ThreeSlotsRetain(None, Some(b), Some(a), a, b, maxFileBytes, 0);
    ThreeSlotsRetain(Some(b), None, Some(a), a, b, maxFileBytes, 0);
    ThreeSlotsRetain(None, Some(b), None, a, b, maxFileBytes, 1);
  }

  lemma GapStandsEmpty(newest: Option<Bytes>, oldest: Option<Bytes>)
    ensures !AllOlder([newest, None, oldest])
  {
    assert [newest, None, oldest][1].None?;
  }

  lemma RecordHolds(a: Bytes, maxFileBytes: nat)
    requires IsRecord(a) && |a| <= maxFileBytes
    ensures a != [] && HoldsLines(Some(a), maxFileBytes) && HoldsLines(None, maxFileBytes)
  {
  }

  lemma StoredTogether(a: Bytes, b: Bytes)
    ensures var both, last := Flatten([a, b][0..]), Flatten([a, b][1..]);
            && Stored(None) + Stored(Some(a)) + Stored(Some(b)) == both
            && Stored(Some(a)) + Stored(Some(b)) + Stored(None) == both
            && Stored(Some(a)) + Stored(None) + Stored(Some(b)) == both
            && Stored(None) + Stored(Some(b)) + Stored(None) == last
  {
    TwoRecords(a, b);
  }

  lemma ThreeSlotShifts(a: Bytes, b: Bytes)
    requires b != []
    ensures
      var slots := [Some(b), Some(a), None];
      var gap := [Some(b), None, Some(a)];
      && Shifted(slots, 0) == [None, Some(b), Some(a)] && Shifted(slots, 1) == gap
      && Shifted(gap, 0) == [None, Some(b), None] && StoppedBetween(slots, gap)
  {
    var slots := [Some(b), Some(a), None];
    var gap := [Some(b), None, Some(a)];
    assert Shifted(slots, 0) == [None, Some(b), Some(a)] && Shifted(slots, 1) == gap;
    assert Shifted(gap, 0) == [None, Some(b), None] && Shifted(slots, 2) == slots;
    assert gap[1] != slots[1] && gap[0] != Shifted(slots, 0)[0];
  }

  predicate HoldsLines(slot: Option<Bytes>, maxFileBytes: nat) {
    |Stored(slot)| <= maxFileBytes && EndsLine(Stored(slot))
  }

  /** Three slots of whole records retain what they hold together. */
  lemma ThreeSlotsRetain(
    newest: Option<Bytes>, middle: Option<Bytes>, oldest: Option<Bytes>, a: Bytes, b: Bytes, maxFileBytes: nat,
    dropped: nat)
    requires IsRecord(a) && IsRecord(b) && dropped <= 2
    requires HoldsLines(newest, maxFileBytes) && HoldsLines(middle, maxFileBytes) && HoldsLines(oldest, maxFileBytes)
    requires Stored(oldest) + Stored(middle) + Stored(newest) == Flatten([a, b][dropped..])
    ensures Retains([newest, middle, oldest], maxFileBytes, [a, b], dropped)
  {
    hide Flatten, IsRecord, CompleteContents, EndsLine, Stored, Contents;
    ThreeSlotsHold(newest, middle, oldest, maxFileBytes);
    LinesRetain([newest, middle, oldest], maxFileBytes, [a, b], dropped);
  }

  lemma LinesRetain(slots: Slots, maxFileBytes: nat, records: seq<Bytes>, dropped: nat)
    requires slots != [] && dropped <= |records|
    requires forall i :: 0 <= i < |slots| ==> HoldsLines(slots[i], maxFileBytes)
    requires forall i :: 0 <= i < |records| ==> IsRecord(records[i])
    requires CompleteContents(slots) == Flatten(records[dropped..])
    ensures Retains(slots, maxFileBytes, records, dropped)
  {
    hide Flatten, CompleteContents, IsRecord, EndsLine, Stored;
  }

  lemma ThreeSlotsHold(
    newest: Option<Bytes>, middle: Option<Bytes>, oldest: Option<Bytes>, maxFileBytes: nat)
    requires HoldsLines(newest, maxFileBytes)
    ensures CompleteContents([newest, middle, oldest]) == Stored(oldest) + Stored(middle) + Stored(newest)
  {
    var slots := [newest, middle, oldest];
    assert CompleteContents(slots) == Contents(slots[1..]) + Stored(newest);
    hide *;
    assert slots[1..] == [middle, oldest];
    TwoSlots(middle, oldest);
  }

  lemma TwoSlots(newer: Option<Bytes>, older: Option<Bytes>)
    ensures Contents([newer, older]) == Stored(older) + Stored(newer)
  {
    ContentsAppend([newer], [older]);
    OneSlot(newer);
    OneSlot(older);
    assert [newer] + [older] == [newer, older];
  }

  lemma TwoRecords(a: Bytes, b: Bytes)
    ensures Flatten([a, b]) == a + b && Flatten([a, b][1..]) == b && [a, b][0..] == [a, b]
  {
    assert [a, b][1..] == [b] && [b][1..] == [];
    assert Flatten([b]) == b;
  }

  /** The last newline of one chunk, or -1. */
  method RFind(chunk: Bytes) returns (marker: int)
    ensures -1 <= marker < |chunk|
    ensures marker >= 0 ==> chunk[marker] == NEWLINE
    ensures NoNewlineFrom(chunk, marker + 1)
  {
    marker := |chunk| - 1;
    while marker >= 0 && chunk[marker] != NEWLINE
      invariant -1 <= marker < |chunk|
      invariant NoNewlineFrom(chunk, marker + 1)
    {
      marker := marker - 1;
    }
  }

  /** Where the last complete line ends, found by reading backwards chunk by chunk. */
  method LastLineEnd(content: Bytes) returns (size: nat)
    ensures size == |CompleteLines(content)|
  {
    if EndsLine(content) {
      return |content|;
    }
    var cursor := |content|;
    while cursor > 0
      invariant 0 <= cursor <= |content| && NoNewlineFrom(content, cursor)
    {
      var count := if cursor < READ_CHUNK_BYTES then cursor else READ_CHUNK_BYTES;
      cursor := cursor - count;
      var chunk := content[cursor..cursor + count];
      var marker := RFind(chunk);
      assert forall i :: cursor <= i < cursor + count ==> content[i] == chunk[i - cursor];
      if marker >= 0 {
        size := cursor + marker + 1;
        CompleteLinesIsTheCut(content, size);
        return;
      }
    }
    CompleteLinesIsTheCut(content, 0);
    size := 0;
  }

  /**
   The slots of one log directory. `records` and `dropped` are history variables. While
   `reliable` holds nothing fails, but writes may where `writesFail` says so.
   */
  class LogDirectory {
    const maxFileBytes: nat
    ghost const maxLineBytes: nat
    const writesFail: bool
    var slots: Slots
    var reliable: bool
    ghost var records: seq<Bytes>
    ghost var dropped: nat
    ghost var stopped: bool
    ghost var lostEarly: bool

    ghost predicate Valid()
      reads this
    {
      Retains(slots, maxFileBytes, records, dropped)
    }

    /**
     What stays of the newest bytes. `stopped` notes that a rotation stopped between two
     renames, `lostEarly` that a slot was dropped while an older one stood empty.
     */
    ghost predicate Keeps()
      reads this
    {
      dropped <= |records| && KeepsNewest(slots, maxFileBytes, maxLineBytes, records, dropped, stopped, lostEarly)
    }

    constructor (fileCount: nat, maxFileBytes: nat, ghost maxLineBytes: nat, writesFail: bool)
      requires fileCount > 0
      ensures Valid() && Keeps() && !stopped && !lostEarly && records == [] && dropped == 0 && !reliable
      ensures |slots| == fileCount && this.maxFileBytes == maxFileBytes && this.maxLineBytes == maxLineBytes
      ensures this.writesFail == writesFail
    {
      this.maxFileBytes, this.maxLineBytes, this.writesFail := maxFileBytes, maxLineBytes, writesFail;
      slots := seq(fileCount, _ => None);
      reliable, records, dropped, stopped, lostEarly := false, [], 0, false, false;
      new;
      EmptyContents(slots[1..]);
    }

    method Attempt() returns (durable: bool, status: Status)
      ensures status.Ok? ==> durable
      ensures reliable ==> status.Ok?
    {
      status := *;
      durable := *;
      if reliable {
        status := Ok;
      }
      if status.Ok? {
        durable := true;
      }
    }

    /** Set one slot by one directory or file operation. */
    method SetSlot(index: nat, slot: Option<Bytes>) returns (status: Status)
      requires index < |slots|
      modifies this`slots
      ensures |slots| == |old(slots)|
      ensures slots == old(slots) || slots == old(slots)[index := slot]
      ensures status.Ok? ==> slots == old(slots)[index := slot]
      ensures reliable ==> status.Ok?
    {
      var durable;
      durable, status := Attempt();
      if durable {
        slots := slots[index := slot];
      }
    }

    method RemoveOversizedSlots() returns (status: Status)
      modifies this`slots
      ensures |slots| == |old(slots)|
      ensures forall i :: 0 <= i < |slots| ==>
                if |Stored(old(slots)[i])| <= maxFileBytes then slots[i] == old(slots)[i]
                else slots[i].None? || (!status.Ok? && slots[i] == old(slots)[i])
      ensures reliable ==> status.Ok?
      ensures old(Bounded()) ==> slots == old(slots)
    {
      status := Ok;
      for index := 0 to |slots|
        invariant |slots| == |old(slots)| && status.Ok?
        invariant forall i :: 0 <= i < |slots| ==>
                    slots[i] == if i < index && |Stored(old(slots)[i])| > maxFileBytes then None else old(slots)[i]
      {
        if slots[index].Some? && |slots[index].value| > maxFileBytes {
          status := SetSlot(index, None);
          if !status.Ok? {
            return;
          }
        }
      }
    }

    /** Open slot 0 for appending, creating it when it is missing. */
    method OpenAppend() returns (status: Status)
      requires slots != []
      modifies this`slots
      ensures slots == old(slots) || slots == old(slots)[0 := Some(Stored(old(slots)[0]))]
      ensures status.Ok? ==> slots == old(slots)[0 := Some(Stored(old(slots)[0]))]
      ensures reliable ==> status.Ok?
      ensures old(Valid()) ==> Valid()
      ensures old(Keeps()) ==> Keeps()
    {
      if Valid() {
        SameLinesRetain(slots, maxFileBytes, records, dropped, Some(Stored(slots[0])));
      }
      status := SetSlot(0, Some(Stored(slots[0])));
    }

    /** Cut slot 0 after its last newline. */
    method RepairPartialLine() returns (status: Status, size: nat)
      requires slots != [] && slots[0].Some?
      modifies this`slots
      ensures slots == old(slots) || slots == old(slots)[0 := Some(CompleteLines(old(slots)[0].value))]
      ensures status.Ok? ==>
                slots == old(slots)[0 := Some(CompleteLines(old(slots)[0].value))] && size == |slots[0].value|
      ensures reliable ==> status.Ok?
      ensures old(Valid()) ==> Valid()
      ensures old(Keeps()) ==> Keeps()
    {
      var content := slots[0].value;
      if Valid() {
        SameLinesRetain(slots, maxFileBytes, records, dropped, Some(CompleteLines(content)));
      }
      status := Ok;
      size := LastLineEnd(content);
      assert content[..size] == CompleteLines(content);
      assert size == |content| ==> slots == slots[0 := Some(CompleteLines(content))];
      if size < |content| {
        status := SetSlot(0, Some(content[..size]));
      }
    }

    /** Remove the oldest slot and move every other one up by one, oldest first. */
    method ShiftSlots() returns (status: Status, ghost progress: Option<nat>)
      requires slots != []
      modifies this`slots
      ensures progress.None? ==> slots == old(slots)
      ensures progress.Some? ==> progress.value < |old(slots)| && slots == Shifted(old(slots), progress.value)
      ensures status.Ok? ==> progress == Some(0)
      ensures reliable ==> status.Ok?
    {
      var last := |slots| - 1;
      progress, status := None, Ok;
      if slots[last].Some? {
        status := SetSlot(last, None);
      }
      assert slots[last].None? ==> slots == Shifted(old(slots), last);
      progress := if slots[last].None? then Some(last) else None;
      if !status.Ok? {
        return;
      }
      var index := last - 1;
      while index >= 0
        invariant -1 <= index < last && status.Ok?
        invariant progress == Some(index + 1) && slots == Shifted(old(slots), index + 1)
      {
        ShiftOneMore(old(slots), index);
        if slots[index].Some? {
          if slots[index + 1].Some? {
            return Raised, progress;
          }
          var durable;
          durable, status := Attempt();
          if durable {
            slots := slots[index + 1 := slots[index]][index := None];
            progress := Some(index);
          }
          if !status.Ok? {
            return;
          }
        } else {
          progress := Some(index);
        }
        index := index - 1;
      }
    }

    /** A rotation of whole lines: however far it comes, only the oldest slot's records are dropped. */
    method Rotate() returns (status: Status)
      requires slots != []
      modifies this`slots, this`dropped, this`stopped, this`lostEarly
      ensures slots == old(slots) || exists index: nat | index < |old(slots)| :: slots == Shifted(old(slots), index)
      ensures status.Ok? ==> slots == Shifted(old(slots), 0)
      ensures stopped == (old(stopped) || StoppedBetween(old(slots), slots))
      ensures lostEarly == (old(lostEarly) || (dropped != old(dropped) && !AllOlder(old(slots))))
      ensures reliable ==> status.Ok?
      ensures old(Valid()) && EndsLine(Stored(old(slots)[0])) ==>
                && Valid()
                && (|| dropped == old(dropped)
                    || (old(dropped) <= dropped <= |records|
                        && Flatten(records[old(dropped)..dropped]) == Stored(old(slots)[|old(slots)| - 1])))
      ensures (&& old(Valid() && Keeps()) && old(slots)[0].Some? && EndsLine(old(slots)[0].value)
               && |old(slots)[0].value| + maxLineBytes > maxFileBytes)
              ==> Keeps()
    {
      hide Retains, Flatten, KeepsNewest;
      ghost var progress;
      status, progress := ShiftSlots();
      if progress.Some? && old(Valid()) && EndsLine(Stored(old(slots)[0])) {
        var after := ShiftingRetains(old(slots), maxFileBytes, records, dropped, progress.value);
        if old(Keeps()) && old(slots)[0].Some? && |old(slots)[0].value| + maxLineBytes > maxFileBytes {
          ShiftingKeeps(
            old(slots), maxFileBytes, maxLineBytes, records, dropped, after, stopped, lostEarly, progress.value);
        }
        lostEarly := lostEarly || (after != dropped && !AllOlder(old(slots)));
        dropped := after;
      }
      stopped := stopped || StoppedBetween(old(slots), slots);
    }

    /** Append a line by as many partial writes as it takes. */
    method WriteAll(line: Bytes) returns (status: Status, ghost count: nat)
      requires slots != [] && slots[0].Some?
      modifies this`slots
      ensures count <= |line| && slots == old(slots)[0 := Some(old(slots)[0].value + line[..count])]
      ensures status.Ok? ==> count == |line|
      ensures reliable ==> status.Ok? || (writesFail && status.Raised?)
    {
      var remaining := line;
      status, count := Ok, 0;
      assert slots[0].value + line[..0] == slots[0].value;
      while remaining != []
        invariant count <= |line| && remaining == line[count..] && status.Ok?
        invariant slots == old(slots)[0 := Some(old(slots)[0].value + line[..count])]
        decreases |remaining|
      {
        var written: nat :| written <= |remaining| && (reliable ==> written > 0);
        var durable;
        durable, status := Attempt();
        assert line[..count + written] == line[..count] + remaining[..written];
        Associative(old(slots)[0].value, line[..count], remaining[..written]);
        slots := slots[0 := Some(slots[0].value + remaining[..written])];
        count := count + written;
        remaining := remaining[written..];
        var fails: bool := *;
        if (status.Ok? && written == 0) || (reliable && writesFail && fails) {
          status := Raised;
        }
        if !status.Ok? {
          return;
        }
      }
    }

    /**
     Append a record that fits to whole lines. A write that raises is undone by cutting
     slot 0 back, and that cut may itself fail.
     */
    method AppendOrCut(line: Bytes) returns (status: Status, ghost count: nat)
      requires slots != [] && slots[0].Some?
      modifies this`slots
      ensures count <= |line| && slots == old(slots)[0 := Some(old(slots)[0].value + line[..count])]
      ensures status.Ok? ==> count == |line|
      // When nothing fails but the write, slot 0 is cut back to what it held.
      ensures reliable ==> status.Ok? || (writesFail && status.Raised? && slots == old(slots))
    {
      var base := slots[0].value;
      status, count := WriteAll(line);
      if status.Raised? {
        var cut := SetSlot(0, Some(base));
        if cut.Crashed? {
          status := Crashed;
        }
        if slots[0] == Some(base) {
          count := 0;
          assert base + line[..0] == base;
        }
      }
    }

    /** Append a record that fits; a history variable notes whether its whole line stays. */
    method AppendRecord(line: Bytes) returns (status: Status)
      requires slots != [] && slots[0].Some? && IsRecord(line)
      requires EndsLine(slots[0].value) && |slots[0].value| + |line| <= maxFileBytes
      modifies this`slots, this`records
      ensures exists count: nat | count <= |line| :: slots == old(slots)[0 := Some(old(slots)[0].value + line[..count])]
      ensures slots == old(slots)[0 := slots[0]]
      ensures status.Ok? ==> slots == old(slots)[0 := Some(old(slots)[0].value + line)]
      ensures reliable ==>
                || status.Ok?
                || (writesFail && status.Raised? && slots == old(slots) && records == old(records))
      ensures records == old(records) || records == old(records) + [line]
      ensures status.Ok? ==> records == old(records) + [line]
      ensures old(Valid()) ==> Valid()
      ensures old(Keeps()) ==> Keeps()
    {
      var base := slots[0].value;
      assert line[..|line|] == line;
      hide Retains, KeepsNewest, CompleteLines, IsRecord, EndsLine, Flatten, Contents, CompleteContents;
      ghost var count;
      status, count := AppendOrCut(line);
      if count == |line| {
        records := records + [line];
        if old(Valid()) {
          WholeLineRetains(old(slots), maxFileBytes, old(records), dropped, line);
        }
      } else if old(Valid()) {
        UnfinishedRetains(old(slots), maxFileBytes, records, dropped, line, count);
      }
      if old(Keeps()) {
        ActiveKeeps(
          old(slots), maxFileBytes, maxLineBytes, old(records), records, dropped, stopped, lostEarly,
          slots[0], line);
      }
    }

    ghost predicate Bounded()
      reads this
    {
      forall i :: 0 <= i < |slots| ==> |Stored(slots[i])| <= maxFileBytes
    }

    /** A write drops nothing, or the oldest slot because the active one had no room for the line. */
    ghost predicate OnlyOldestDropped(before: Slots, droppedBefore: nat, line: Bytes)
      requires before != []
      reads this
    {
      || dropped == droppedBefore
      || (
        && droppedBefore <= dropped <= |records|
        && Flatten(records[droppedBefore..dropped]) == CompleteLines(Stored(before[|before| - 1]))
        && |CompleteLines(Stored(before[0]))| + |line| > maxFileBytes)
    }

    /** Open slot 0 and cut off an unfinished line; what slot 0 completely holds stays. */
    method OpenRepaired() returns (status: Status, size: nat)
      requires slots != []
      modifies this`slots
      ensures |slots| == |old(slots)| && slots == old(slots)[0 := slots[0]]
      ensures CompleteLines(Stored(slots[0])) == CompleteLines(Stored(old(slots)[0]))
      ensures old(Bounded()) ==> Bounded()
      ensures status.Ok? ==> slots[0] == Some(CompleteLines(Stored(old(slots)[0]))) && size == |slots[0].value|
      ensures reliable ==> status.Ok?
      ensures old(Valid()) ==> Valid()
      ensures old(Keeps()) ==> Keeps()
    {
      hide Retains, CompleteLines, KeepsNewest;
      size := 0;
      status := OpenAppend();
      if status.Ok? {
        status, size := RepairPartialLine();
      }
    }

    /** Repair slot 0, and rotate when the line does not fit behind it. */
    method MakeRoom(line: Bytes) returns (status: Status, size: nat)
      requires slots != [] && Bounded()
      modifies this`slots, this`dropped, this`stopped, this`lostEarly
      ensures |slots| == |old(slots)| && Bounded()
      ensures status.Ok? ==> slots[0].Some? && EndsLine(slots[0].value) && size == |slots[0].value|
      ensures status.Ok? && |line| <= maxFileBytes ==> size + |line| <= maxFileBytes
      ensures reliable ==> status.Ok?
      ensures old(Valid()) ==> Valid() && OnlyOldestDropped(old(slots), old(dropped), line)
      ensures status.Ok? ==> stopped == old(stopped)
      ensures lostEarly == (old(lostEarly) || (dropped != old(dropped) && !AllOlder(old(slots))))
      ensures status.Ok? && dropped != old(dropped) ==> OlderShifted(old(slots), slots)
      ensures status.Ok? ==> RoomMade(old(slots), line, maxFileBytes, slots)
      ensures old(Valid() && Keeps()) && |line| <= maxLineBytes ==> Keeps()
    {
      hide Retains, CompleteLines, Flatten, KeepsNewest, Contents, CompleteContents, Shifted, IsRecord;
      hide OlderShifted, AllOlder;
      status, size := OpenRepaired();
      ghost var repaired := slots;
      RepairedOlder(old(slots), repaired);
      if status.Ok? && old(Valid()) {
        OldestIsWhole(old(slots), repaired, maxFileBytes, records, dropped);
      }
      if !status.Ok? || size + |line| <= maxFileBytes {
        return;
      }
      status, size := RotateRepaired();
      if status.Ok? {
        ShiftMadeRoom(old(slots), repaired, line, maxFileBytes, slots);
      }
    }

    /** Rotate a full slot 0 that holds whole lines, and open the next one. */
    method RotateRepaired() returns (status: Status, size: nat)
      requires slots != [] && slots[0].Some? && EndsLine(slots[0].value) && Bounded()
      modifies this`slots, this`dropped, this`stopped, this`lostEarly
      ensures |slots| == |old(slots)| && Bounded()
      ensures status.Ok? ==> slots[0] == Some([]) && size == 0 && OlderShifted(old(slots), slots)
      ensures status.Ok? ==> slots == Shifted(old(slots), 0)[0 := Some([])]
      ensures status.Ok? ==> stopped == old(stopped)
      ensures lostEarly == (old(lostEarly) || (dropped != old(dropped) && !AllOlder(old(slots))))
      ensures reliable ==> status.Ok?
      ensures old(Valid()) ==>
                && Valid()
                && (|| dropped == old(dropped)
                    || (old(dropped) <= dropped <= |records|
                        && Flatten(records[old(dropped)..dropped]) == Stored(old(slots)[|old(slots)| - 1])))
      ensures old(Valid() && Keeps()) && |old(slots)[0].value| + maxLineBytes > maxFileBytes ==> Keeps()
    {
      hide Retains, Flatten, KeepsNewest, Contents, CompleteContents;
      size := 0;
      status := Rotate();
      if status.Ok? {
        status, size := OpenRepaired();
      }
    }

    /** Remove what is oversized and make room for the line. */
    method ClearAndMakeRoom(line: Bytes) returns (status: Status, size: nat)
      requires slots != []
      modifies this`slots, this`dropped, this`stopped, this`lostEarly
      ensures |slots| == |old(slots)|
      ensures status.Ok? ==> Bounded() && slots[0].Some? && EndsLine(slots[0].value) && size == |slots[0].value|
      ensures status.Ok? && |line| <= maxFileBytes ==> size + |line| <= maxFileBytes
      ensures reliable ==> status.Ok?
      ensures old(Valid()) ==> Valid() && OnlyOldestDropped(old(slots), old(dropped), line)
      ensures status.Ok? ==> stopped == old(stopped)
      ensures old(Bounded()) ==>
                lostEarly == (old(lostEarly) || (dropped != old(dropped) && !AllOlder(old(slots))))
      ensures old(Bounded()) && status.Ok? && dropped != old(dropped) && |slots| >= 2 ==>
                (AllOlder(slots) <==> AllButOldest(old(slots)))
      ensures old(Bounded()) && status.Ok? ==> RoomMade(old(slots), line, maxFileBytes, slots)
      ensures old(Valid() && Keeps()) && |line| <= maxLineBytes ==> Keeps()
    {
      hide CompleteLines, Contents, Flatten, KeepsNewest, RoomMade;
      size := 0;
      status := RemoveOversizedSlots();
      if !status.Ok? {
        return;
      }
      ghost var before := slots;
      status, size := MakeRoom(line);
      if status.Ok? && OlderShifted(before, slots) && |slots| >= 2 {
        FullAfterRotation(before, slots);
      }
    }

    /** Append one record under the lock. */
    method WriteLine(line: Bytes) returns (status: Status)
      requires slots != [] && IsRecord(line)
      modifies this`slots, this`records, this`dropped, this`stopped, this`lostEarly
      ensures |slots| == |old(slots)|
      // From any slots at all, a completed write bounds every slot and puts the line at the end.
      ensures status.Ok? ==> Bounded() && slots[0].Some? && EndsLine(slots[0].value)
      ensures status.Ok? ==> exists base :: slots[0].value == base + line
      // From bounded slots it changes exactly what it has to.
      ensures old(Bounded()) && status.Ok? ==> Written(old(slots), line, maxFileBytes, slots)
      // When nothing fails but the write, a line that is not written leaves nothing behind, not even a part.
      ensures reliable && |line| <= maxFileBytes ==>
                || status.Ok?
                || (&& writesFail && status.Raised? && records == old(records)
                    && slots[0].Some? && EndsLine(slots[0].value))
      // From any retained state, the records written so far stay retained, however the write ends.
      ensures records == old(records) || records == old(records) + [line]
      ensures status.Ok? ==> records == old(records) + [line]
      ensures old(Valid()) ==> Valid() && OnlyOldestDropped(old(slots), old(dropped), line)
      ensures old(Valid()) && status.Ok? ==> Contents(slots) == Flatten(records[dropped..])
      // Enough of the newest bytes stays, and more of them unless a slot is dropped early.
      ensures status.Ok? ==> stopped == old(stopped)
      ensures old(Bounded()) ==>
                lostEarly == (old(lostEarly) || (dropped != old(dropped) && !AllOlder(old(slots))))
      ensures old(Bounded()) && status.Ok? && dropped != old(dropped) && |slots| >= 2 ==>
                (AllOlder(slots) <==> AllButOldest(old(slots)))
      ensures old(Valid() && Keeps()) && |line| <= maxLineBytes ==> Keeps()
    {
      hide CompleteLines, Contents, Flatten, KeepsNewest, Retains, RoomMade, Written;
      var size;
      status, size := ClearAndMakeRoom(line);
      if !status.Ok? {
        return;
      }
      ghost var roomy := slots;
      if size + |line| > maxFileBytes {
        return Raised;
      }
      ghost var written := records;
      status := AppendRecord(line);
      assert slots[0 := roomy[0]] == roomy && AllOlder(slots) == AllOlder(roomy);
      assert old(dropped) <= dropped <= |written| ==> records[old(dropped)..dropped] == written[old(dropped)..dropped];
      if status.Ok? {
        if old(Bounded()) {
          RoomIsWritten(old(slots), line, maxFileBytes, roomy, slots);
        }
        if Valid() {
          WholeSlotsAreRetained(slots, maxFileBytes, records, dropped);
        }
        if |slots[0].value| > maxFileBytes {
          status := Raised;
        }
      }
    }
  }

  lemma {:induction false} EmptyContents(slots: Slots)
    requires forall i :: 0 <= i < |slots| ==> slots[i] == None
    ensures Contents(slots) == []
  {
    if slots != [] {
      EmptyContents(slots[1..]);
    }
  }
}
