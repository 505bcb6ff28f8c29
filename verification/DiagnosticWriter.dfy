/**
 The writer of one session: a bounded queue filled by the application and drained by
 one thread into the log directory.
 */
module DiagnosticWriter {
  import opened Outcomes
  import opened DiagnosticLog

  const MAX_RECORD_BYTES: nat := 64 * 1024

  /** The longest record that is admitted to a log of files this large. */
  function LongestRecord(maxFileBytes: nat): nat {
    if maxFileBytes < MAX_RECORD_BYTES then maxFileBytes else MAX_RECORD_BYTES
  }

  /** `part` is `whole` with some elements left out. */
  predicate Subsequence<T(==)>(part: seq<T>, whole: seq<T>) {
    if part == [] then true
    else if whole == [] then false
    else if part[0] == whole[0] && Subsequence(part[1..], whole[1..]) then true
    else Subsequence(part, whole[1..])
  }

  lemma {:induction false} SubsequenceAppend<T>(part: seq<T>, whole: seq<T>, item: T)
    requires Subsequence(part, whole)
    ensures Subsequence(part + [item], whole + [item])
    ensures Subsequence(part, whole + [item])
    decreases |whole|
  {
    if whole == [] {
      assert part + [item] == [item] == whole + [item];
      assert [item][1..] == [];
    } else {
      assert (whole + [item])[1..] == whole[1..] + [item];
      if part == [] {
        SubsequenceAppend(part, whole[1..], item);
      } else if part[0] == whole[0] && Subsequence(part[1..], whole[1..]) {
        assert (part + [item])[1..] == part[1..] + [item];
        SubsequenceAppend(part[1..], whole[1..], item);
      } else {
        SubsequenceAppend(part, whole[1..], item);
      }
    }
  }

  /** Leaving out one more run of elements keeps a subsequence. */
  lemma {:induction false} SubsequenceWithout<T>(front: seq<T>, gap: seq<T>, back: seq<T>, whole: seq<T>)
    requires Subsequence(front + gap + back, whole)
    ensures Subsequence(front + back, whole)
    decreases |whole|, |gap|
  {
    var part := front + gap + back;
    if front + back == [] || gap == [] {
      assert gap == [] ==> part == front + back;
    } else if !(part[0] == whole[0] && Subsequence(part[1..], whole[1..])) {
      SubsequenceWithout(front, gap, back, whole[1..]);
    } else if front != [] {
      assert part[1..] == front[1..] + gap + back;
      assert (front + back)[1..] == front[1..] + back;
      SubsequenceWithout(front[1..], gap, back, whole[1..]);
    } else {
      assert part[1..] == [] + gap[1..] + back;
      SubsequenceWithout([], gap[1..], back, whole[1..]);
      assert [] + back == back;
    }
  }

  lemma SubsequenceFront<T>(front: seq<T>, rest: seq<T>, whole: seq<T>)
    requires Subsequence(front + rest, whole)
    ensures Subsequence(front, whole)
  {
    assert front + rest + [] == front + rest && front + [] == front;
    SubsequenceWithout(front, rest, [], whole);
  }

  lemma {:induction false} SubsequenceTransitive<T>(part: seq<T>, middle: seq<T>, whole: seq<T>)
    requires Subsequence(part, middle) && Subsequence(middle, whole)
    ensures Subsequence(part, whole)
    decreases |middle|, |whole|
  {
    if part != [] {
      if !(middle[0] == whole[0] && Subsequence(middle[1..], whole[1..])) {
        SubsequenceTransitive(part, middle, whole[1..]);
      } else if part[0] == middle[0] && Subsequence(part[1..], middle[1..]) {
        SubsequenceTransitive(part[1..], middle[1..], whole[1..]);
      } else {
        SubsequenceTransitive(part, middle[1..], whole[1..]);
      }
    }
  }

  class ApplicationDiagnosticWriter {
    const files: LogDirectory
    const queueCapacity: nat
    var queue: seq<Bytes>
    var accepting: bool
    var closing: bool
    var stopped: bool
    ghost var admitted: seq<Bytes>

    predicate Fits(line: Bytes) {
      |line| <= files.maxFileBytes && |line| <= MAX_RECORD_BYTES
    }

    /** Every queued record fits the log; logged and queued records come from admissions, in order. */
    ghost predicate Valid()
      reads this, files
    {
      && files.slots != [] && files.Valid() && files.Keeps()
      && files.maxLineBytes == LongestRecord(files.maxFileBytes)
      && |queue| <= queueCapacity
      && (forall line :: line in queue ==> IsRecord(line) && Fits(line))
      && (closing ==> !accepting)
      && (stopped ==> closing && queue == [])
      && Subsequence(files.records + queue, admitted)
    }

    constructor (files: LogDirectory, queueCapacity: nat, ghost earlier: seq<Bytes>)
      requires files.slots != [] && files.Valid() && files.Keeps() && queueCapacity > 0
      requires files.maxLineBytes == LongestRecord(files.maxFileBytes)
      requires Subsequence(files.records, earlier)
      ensures Valid() && this.files == files && this.queueCapacity == queueCapacity
      ensures queue == [] && accepting && !closing && !stopped && admitted == earlier
    {
      this.files, this.queueCapacity := files, queueCapacity;
      queue, accepting, closing, stopped, admitted := [], true, false, false, earlier;
      new;
      hide Subsequence, Retains, KeepsNewest;
      assert files.records + [] == files.records;
    }

    /** Admit a record, or drop it when it is too long, the queue is full or the writer is closing. */
    method TryEmit(line: Bytes)
      requires Valid() && IsRecord(line)
      modifies this`queue, this`admitted
      ensures Valid()
      ensures if Fits(line) && accepting && |old(queue)| < queueCapacity
              then queue == old(queue) + [line] && admitted == old(admitted) + [line]
              else queue == old(queue) && admitted == old(admitted)
    {
      hide Subsequence, Retains, KeepsNewest, IsRecord;
      if !Fits(line) || !accepting || |queue| >= queueCapacity {
        return;
      }
      SubsequenceAppend(files.records + queue, admitted, line);
      assert files.records + (queue + [line]) == files.records + queue + [line];
      queue, admitted := queue + [line], admitted + [line];
    }

    method Drain()
      requires Valid()
      modifies this`queue
      ensures Valid() && queue == []
    {
      SubsequenceFront(files.records, queue, admitted);
      queue := [];
      assert files.records + queue == files.records;
    }

    /** Close admission; `Abandon` follows when the drain window has passed. */
    method BeginClose()
      requires Valid()
      modifies this`accepting, this`closing
      ensures Valid() && closing && !accepting
    {
      accepting, closing := false, true;
    }

    method Abandon()
      requires Valid() && closing
      modifies this`queue
      ensures Valid() && queue == []
    {
      Drain();
    }

    method Disable()
      requires Valid()
      modifies this`queue, this`accepting, this`closing
      ensures Valid() && closing && queue == []
    {
      BeginClose();
      Drain();
    }

    /** Take the oldest record; there is room for it behind what is logged. */
    method TakeNext() returns (line: Bytes)
      requires Valid() && queue != []
      modifies this`queue
      ensures Valid() && line == old(queue)[0] && queue == old(queue)[1..]
      ensures IsRecord(line) && Fits(line) && Subsequence(files.records + [line] + queue, admitted)
    {
      line := queue[0];
      assert files.records + queue == files.records + [line] + queue[1..];
      SubsequenceWithout(files.records, [line], queue[1..], admitted);
      queue := queue[1..];
    }

    /**
     One turn of the thread once it has something to do. A busy lock loses the record
     and nothing else; any other failure stops the writer.
     */
    method WriteNext(lockFree: bool, deadlinePassed: bool) returns (status: Status)
      requires Valid() && !stopped && (queue != [] || closing)
      modifies this, files`slots, files`records, files`dropped, files`stopped, files`lostEarly
      ensures Valid() && admitted == old(admitted) && |files.slots| == |old(files.slots)|
      ensures status.Ok? ==> files.stopped == old(files.stopped)
      ensures files.lostEarly ==
              (old(files.lostEarly) || (files.dropped != old(files.dropped) && !AllOlder(old(files.slots))))
      ensures status.Ok? && files.dropped != old(files.dropped) && |files.slots| >= 2 ==>
                (AllOlder(files.slots) <==> AllButOldest(old(files.slots)))
      ensures files.reliable && !files.writesFail ==> status.Ok?
      ensures old(queue) == [] || (old(closing) && deadlinePassed) ==>
                stopped && queue == [] && files.records == old(files.records)
      ensures old(queue) != [] && !(old(closing) && deadlinePassed) ==>
                files.records == old(files.records) || files.records == old(files.records) + [old(queue)[0]]
      ensures old(queue) != [] && !(old(closing) && deadlinePassed) && lockFree && status.Ok? ==>
                && files.records == old(files.records) + [old(queue)[0]] && queue == old(queue)[1..] && !stopped
                && Contents(files.slots) == Flatten(files.records[files.dropped..])
      ensures !lockFree && old(queue) != [] && !(old(closing) && deadlinePassed) ==>
                queue == old(queue)[1..] && files.records == old(files.records) && !stopped
    {
      status := Ok;
      if closing && (queue == [] || deadlinePassed) {
        Disable();
        stopped := true;
        return;
      }
      var line := TakeNext();
      if lockFree {
        status := files.WriteLine(line);
        if !status.Ok? {
          Disable();
          stopped := true;
        }
      }
    }
  }

  datatype Turn =
    | Emit(line: Bytes)
    | WriteNext(lockFree: bool, deadlinePassed: bool, reliable: bool)
    | Close
    | Abandon
    | Restart

  function EmittedBy(turn: Turn): seq<Bytes> {
    if turn.Emit? then [turn.line] else []
  }

  function Emitted(turns: seq<Turn>): seq<Bytes> {
    if turns == [] then []
    else Emitted(turns[..|turns| - 1]) + EmittedBy(turns[|turns| - 1])
  }

  /** Nothing fails in this turn. */
  predicate Undisturbed(turn: Turn) {
    turn.WriteNext? ==> turn.reliable
  }

  /** The slots and what they have dropped, between two turns. */
  datatype Moment = Moment(slots: Slots, dropped: nat)

  /** A turn drops a slot while another older one stands empty. */
  predicate LosesEarly(before: Moment, after: Moment) {
    after.dropped != before.dropped && !AllOlder(before.slots)
  }

  predicate NeverLosesEarly(trace: seq<Moment>) {
    forall i :: 0 < i < |trace| ==> !LosesEarly(trace[i - 1], trace[i])
  }

  /** A turn that drops leaves every older slot full exactly when none but the oldest stood empty. */
  predicate DropsFully(before: Moment, after: Moment) {
    after.dropped != before.dropped && |before.slots| >= 2 ==>
      (AllOlder(after.slots) <==> AllButOldest(before.slots))
  }

  /** What the history variables say of the turns so far. */
  predicate Traced(trace: seq<Moment>, turns: seq<Turn>, stopped: bool, lostEarly: bool) {
    && |trace| == |turns| + 1
    && (lostEarly <==> !NeverLosesEarly(trace))
    && (stopped ==> exists turn :: turn in turns && !Undisturbed(turn))
    && (forall i :: 0 <= i < |turns| && Undisturbed(turns[i]) ==> DropsFully(trace[i], trace[i + 1]))
  }

  lemma TraceGrows(
    trace: seq<Moment>, turns: seq<Turn>, stopped: bool, lostEarly: bool, turn: Turn, moment: Moment,
    nowStopped: bool, nowLostEarly: bool)
    requires Traced(trace, turns, stopped, lostEarly)
    requires nowLostEarly == (lostEarly || LosesEarly(trace[|turns|], moment))
    requires Undisturbed(turn) ==> nowStopped == stopped && DropsFully(trace[|turns|], moment)
    ensures Traced(trace + [moment], turns + [turn], nowStopped, nowLostEarly)
  {
    var longer, more := trace + [moment], turns + [turn];
    hide LosesEarly, DropsFully, Undisturbed;
    EarlyLossGrows(trace, moment);
    if nowStopped {
      if stopped {
        var disturbed :| disturbed in turns && !Undisturbed(disturbed);
        assert disturbed in more;
      } else {
        assert turn in more && !Undisturbed(turn);
      }
    }
    forall i | 0 <= i < |more| && Undisturbed(more[i])
      ensures DropsFully(longer[i], longer[i + 1])
    {
      if i < |turns| {
        assert more[i] == turns[i] && longer[i] == trace[i] && longer[i + 1] == trace[i + 1];
      }
    }
  }

  lemma EarlyLossGrows(trace: seq<Moment>, moment: Moment)
    requires trace != []
    ensures NeverLosesEarly(trace + [moment]) <==>
            NeverLosesEarly(trace) && !LosesEarly(trace[|trace| - 1], moment)
  {
    var longer := trace + [moment];
    hide LosesEarly;
    assert longer[|trace|] == moment && longer[|trace| - 1] == trace[|trace| - 1];
    if NeverLosesEarly(longer) {
      forall i | 0 < i < |trace|
        ensures !LosesEarly(trace[i - 1], trace[i])
      {
        assert longer[i] == trace[i] && longer[i - 1] == trace[i - 1];
      }
    }
  }

  /** One turn; a restart leaves the files and a new writer with an empty queue. */
  method TakeTurn(writer: ApplicationDiagnosticWriter, turn: Turn, ghost emitted: seq<Bytes>)
    returns (next: ApplicationDiagnosticWriter, refused: bool)
    requires writer.Valid() && writer.queueCapacity > 0 && !writer.files.writesFail
    requires Subsequence(writer.admitted, emitted)
    requires turn.Emit? ==> IsRecord(turn.line)
    modifies writer, writer.files
    ensures next == writer || fresh(next)
    ensures next.files == writer.files && next.queueCapacity == writer.queueCapacity
    ensures next.Valid() && |next.files.slots| == |old(writer.files.slots)|
    ensures Subsequence(next.admitted, emitted + EmittedBy(turn))
    ensures next.files.lostEarly == (old(writer.files.lostEarly) || LosesEarly(
              Moment(old(writer.files.slots), old(writer.files.dropped)),
              Moment(next.files.slots, next.files.dropped)))
    ensures Undisturbed(turn) ==>
              && next.files.stopped == old(writer.files.stopped)
              && DropsFully(
                   Moment(old(writer.files.slots), old(writer.files.dropped)),
                   Moment(next.files.slots, next.files.dropped))
    ensures !refused
  {
    var files := writer.files;
    next, refused := writer, false;
    assert emitted + [] == emitted;
    match turn
    case Emit(line) =>
      SubsequenceAppend(writer.admitted, emitted, line);
      writer.TryEmit(line);
    case WriteNext(lockFree, deadlinePassed, reliable) =>
      if !writer.stopped && (writer.queue != [] || writer.closing) {
        files.reliable := reliable;
        var status := writer.WriteNext(lockFree, deadlinePassed);
        refused := reliable && !status.Ok?;
      }
    case Close =>
      writer.BeginClose();
    case Abandon =>
      if writer.closing {
        writer.Abandon();
      }
    case Restart =>
      SubsequenceFront(files.records, writer.queue, writer.admitted);
      next := new ApplicationDiagnosticWriter(files, writer.queueCapacity, writer.admitted);
  }

  /**
   Any number of sessions, each emitting, writing, failing or dying at will. The log ends
   as the newest of the records ever written, and those are records that were emitted, in
   order and none twice. With two slots or more at least one full slot's bytes of the
   newest records survive everything, and all but one slot's unless some turn dropped a
   slot while another older one stood empty. That takes a rotation stopped between two
   renames. A thread turn in which nothing fails always writes.
   */
  method LogSessions(fileCount: nat, maxFileBytes: nat, queueCapacity: nat, turns: seq<Turn>)
    returns (
      slots: Slots, refused: bool, ghost records: seq<Bytes>, ghost dropped: nat, ghost stopped: bool,
      ghost trace: seq<Moment>)
    requires fileCount > 0 && queueCapacity > 0
    requires forall turn :: turn in turns && turn.Emit? ==> IsRecord(turn.line)
    ensures |slots| == fileCount && Retains(slots, maxFileBytes, records, dropped)
    ensures Subsequence(records, Emitted(turns))
    ensures |trace| == |turns| + 1 && trace[|turns|] == Moment(slots, dropped)
    ensures dropped > 0 && fileCount >= 2 ==>
              |Flatten(records[dropped..])| > maxFileBytes - LongestRecord(maxFileBytes)
    ensures dropped > 0 && NeverLosesEarly(trace) ==>
              |Flatten(records[dropped..])| >= AllButOneSlot(fileCount, maxFileBytes, LongestRecord(maxFileBytes))
    ensures !NeverLosesEarly(trace) ==> stopped
    ensures stopped ==> exists turn :: turn in turns && !Undisturbed(turn)
    ensures forall i :: 0 <= i < |turns| && Undisturbed(turns[i]) ==> DropsFully(trace[i], trace[i + 1])
    ensures !refused
  {
    assert Emitted([]) == [] && Subsequence<Bytes>([], []);
    hide Subsequence, Retains, Emitted, KeepsNewest, Traced, NeverLosesEarly, DropsFully, Undisturbed, AllButOneSlot;
    hide ApplicationDiagnosticWriter.Valid, LogDirectory.Valid, LogDirectory.Keeps;
    var files := new LogDirectory(fileCount, maxFileBytes, LongestRecord(maxFileBytes), false);
    var writer := new ApplicationDiagnosticWriter(files, queueCapacity, []);
    writer, refused, trace := RunTurns(writer, turns);
    slots, records, dropped, stopped := files.slots, files.records, files.dropped, files.stopped;
    WriterAtRest(writer);
    SubsequenceTransitive(records, writer.admitted, Emitted(turns));
    WhatSurvives(slots, maxFileBytes, records, dropped, stopped, files.lostEarly, trace, turns);
  }

  /** Take every turn, and trace the files. */
  method RunTurns(first: ApplicationDiagnosticWriter, turns: seq<Turn>)
    returns (writer: ApplicationDiagnosticWriter, refused: bool, ghost trace: seq<Moment>)
    requires first.Valid() && first.queueCapacity > 0 && !first.files.writesFail
    requires Subsequence(first.admitted, Emitted([]))
    requires !first.files.stopped && !first.files.lostEarly
    requires forall turn :: turn in turns && turn.Emit? ==> IsRecord(turn.line)
    modifies first, first.files
    ensures writer.Valid() && writer.files == first.files && !refused
    ensures |first.files.slots| == |old(first.files.slots)|
    ensures Subsequence(writer.admitted, Emitted(turns))
    ensures Traced(trace, turns, first.files.stopped, first.files.lostEarly)
    ensures |trace| == |turns| + 1 && trace[|turns|] == Moment(first.files.slots, first.files.dropped)
  {
    hide Subsequence, Retains, Emitted, KeepsNewest, LosesEarly, DropsFully, Traced, NeverLosesEarly, Undisturbed;
    hide ApplicationDiagnosticWriter.Valid, LogDirectory.Valid, LogDirectory.Keeps;
    var files := first.files;
    writer, refused := first, false;
    trace := [Moment(files.slots, files.dropped)];
    NothingTraced(trace[0]);
    assert turns[..0] == [];
    var i := 0;
    while i < |turns|
      invariant i <= |turns| && !refused
      invariant writer.Valid() && writer.files == files && writer.queueCapacity > 0
      invariant |files.slots| == |old(first.files.slots)|
      invariant writer == first || fresh(writer)
      invariant Subsequence(writer.admitted, Emitted(turns[..i]))
      invariant |trace| == i + 1 && trace[i] == Moment(files.slots, files.dropped)
      invariant Traced(trace, turns[..i], files.stopped, files.lostEarly)
    {
      EmittedNext(turns, i);
      ghost var stopped, lostEarly := files.stopped, files.lostEarly;
      writer, refused := TakeTurn(writer, turns[i], Emitted(turns[..i]));
      var moment := Moment(files.slots, files.dropped);
      TraceGrows(trace, turns[..i], stopped, lostEarly, turns[i], moment, files.stopped, files.lostEarly);
      trace := trace + [moment];
      assert turns[..i + 1] == turns[..i] + [turns[i]];
      i := i + 1;
    }
    assert turns[..i] == turns;
  }

  lemma WhatSurvives(
    slots: Slots, maxFileBytes: nat, records: seq<Bytes>, dropped: nat, stopped: bool, lostEarly: bool,
    trace: seq<Moment>, turns: seq<Turn>)
    requires Retains(slots, maxFileBytes, records, dropped)
    requires KeepsNewest(slots, maxFileBytes, LongestRecord(maxFileBytes), records, dropped, stopped, lostEarly)
    requires Traced(trace, turns, stopped, lostEarly)
    ensures |trace| == |turns| + 1
    ensures dropped > 0 && |slots| >= 2 ==>
              |Flatten(records[dropped..])| > maxFileBytes - LongestRecord(maxFileBytes)
    ensures dropped > 0 && NeverLosesEarly(trace) ==>
              |Flatten(records[dropped..])| >= AllButOneSlot(|slots|, maxFileBytes, LongestRecord(maxFileBytes))
    ensures !NeverLosesEarly(trace) ==> stopped
    ensures stopped ==> exists turn :: turn in turns && !Undisturbed(turn)
    ensures forall i :: 0 <= i < |turns| && Undisturbed(turns[i]) ==> DropsFully(trace[i], trace[i + 1])
  {
    hide CompleteContents, Flatten, EndsLine, LosesEarly, DropsFully;
  }

  lemma NothingTraced(moment: Moment)
    ensures Traced([moment], [], false, false)
  {
  }

  lemma WriterAtRest(writer: ApplicationDiagnosticWriter)
    requires writer.Valid()
    ensures
      var files := writer.files;
      && Retains(files.slots, files.maxFileBytes, files.records, files.dropped)
      && KeepsNewest(
           files.slots, files.maxFileBytes, files.maxLineBytes, files.records, files.dropped, files.stopped,
           files.lostEarly)
      && files.maxLineBytes == LongestRecord(files.maxFileBytes)
      && Subsequence(files.records, writer.admitted)
  {
    hide Retains, KeepsNewest;
    SubsequenceFront(writer.files.records, writer.queue, writer.admitted);
  }

  lemma EmittedNext(turns: seq<Turn>, i: nat)
    requires i < |turns|
    ensures Emitted(turns[..i + 1]) == Emitted(turns[..i]) + EmittedBy(turns[i])
  {
    assert turns[..i + 1][..i] == turns[..i];
  }
}
