/**
  Commands and event counters on one QMP connection (internal/qemu/qmp.go).  The messages that QEMU
  sends are a sequence that the client reads through; cancellation, write and read failures may
  happen at any point.
 */
module Qmp {
  import opened Wrappers

  type Payload = string

  datatype BlockKey = BlockKey(device: string, operation: string, noSpace: bool)

  /** The error member of a response: absent or null, an object with a class, or anything else. */
  datatype ErrorField = NoError | Structured(cls: string) | Unstructured

  /** One decoded message; Undecodable is JSON of another shape, which is consumed all the same. */
  datatype Message =
    | Undecodable
    | Message(event: string, block: Option<BlockKey>, id: Option<int>, error: ErrorField, payload: Option<Payload>)

  datatype Failure =
    | Cancelled | Closed | DeadlineFailed | WriteFailed | ReadFailed
    | NotExactlyOne | InvalidError | QmpError(cls: string)

  /** A command that got an ID: the message it returned the payload of, if it returned one. */
  datatype Sent = Sent(id: int, answer: Option<nat>)

  // ---------- What counts as an event ----------

  const LIFECYCLE: map<string, string> := map[
    "SHUTDOWN" := "shutdown",
    "POWERDOWN" := "powerdown",
    "RESET" := "reset",
    "STOP" := "stop",
    "RESUME" := "resume",
    "SUSPEND" := "suspend",
    "SUSPEND_DISK" := "suspend_disk",
    "WAKEUP" := "wakeup",
    "GUEST_PANICKED" := "guest_panicked",
    "WATCHDOG" := "watchdog"]

  predicate LabelChar(c: char) {
    'A' <= c <= 'Z' || 'a' <= c <= 'z' || '0' <= c <= '9' || c == '.' || c == '_' || c == '-'
  }

  /** `qmpDeviceLabelPattern`, or no device at all. */
  predicate DeviceAccepted(device: string) {
    |device| <= 128 && forall i :: 0 <= i < |device| ==> LabelChar(device[i])
  }

  predicate BlockAccepted(k: BlockKey) {
    DeviceAccepted(k.device) && k.operation in ["read", "write", "flush", "unmap"]
  }

  predicate IsEvent(m: Message) {
    m.Message? && m.event != ""
  }

  predicate IsLifecycle(m: Message, name: string) {
    IsEvent(m) && m.event in LIFECYCLE && LIFECYCLE[m.event] == name
  }

  predicate IsBlockError(m: Message, k: BlockKey) {
    IsEvent(m) && m.event == "BLOCK_IO_ERROR" && m.block == Some(k) && BlockAccepted(k)
  }

  function LifecycleCount(ms: seq<Message>, name: string): nat {
    if ms == [] then 0
    else LifecycleCount(ms[..|ms| - 1], name) + if IsLifecycle(ms[|ms| - 1], name) then 1 else 0
  }

  function BlockCount(ms: seq<Message>, k: BlockKey): nat {
    if ms == [] then 0
    else BlockCount(ms[..|ms| - 1], k) + if IsBlockError(ms[|ms| - 1], k) then 1 else 0
  }

  function Counter<K(==)>(counters: map<K, nat>, k: K): nat {
    if k in counters then counters[k] else 0
  }

  ghost predicate CountsEvents(lifecycle: map<string, nat>, blockIO: map<BlockKey, nat>, ms: seq<Message>) {
    && (forall name :: Counter(lifecycle, name) == LifecycleCount(ms, name))
    && (forall k :: Counter(blockIO, k) == BlockCount(ms, k))
  }

  lemma CountOneMore(ms: seq<Message>, m: Message, name: string, k: BlockKey)
    ensures LifecycleCount(ms + [m], name) == LifecycleCount(ms, name) + if IsLifecycle(m, name) then 1 else 0
    ensures BlockCount(ms + [m], k) == BlockCount(ms, k) + if IsBlockError(m, k) then 1 else 0
  {
    assert (ms + [m])[..|ms|] == ms;
  }

  /** A message that is no event leaves every count. */
  lemma CountsIgnore(lifecycle: map<string, nat>, blockIO: map<BlockKey, nat>, ms: seq<Message>, m: Message)
    requires CountsEvents(lifecycle, blockIO, ms) && !IsEvent(m)
    ensures CountsEvents(lifecycle, blockIO, ms + [m])
  {
    forall name, k
      ensures LifecycleCount(ms + [m], name) == LifecycleCount(ms, name) && BlockCount(ms + [m], k) == BlockCount(ms, k)
    {
      CountOneMore(ms, m, name, k);
    }
    forall name ensures Counter(lifecycle, name) == LifecycleCount(ms + [m], name) {
      CountOneMore(ms, m, name, BlockKey("", "", false));
    }
    forall k ensures Counter(blockIO, k) == BlockCount(ms + [m], k) {
      CountOneMore(ms, m, "", k);
    }
  }

  // ---------- Replies ----------

  predicate Answers(m: Message, id: int) {
    m.Message? && m.event == "" && m.id == Some(id)
  }

  function Outcome(m: Message): Result<Payload, Failure>
    requires m.Message?
  {
    if m.error.NoError? != m.payload.Some? then Err(NotExactlyOne)
    else if m.error.Unstructured? then Err(InvalidError)
    else if m.error.Structured? then (if m.error.cls == "" then Err(InvalidError) else Err(QmpError(m.error.cls)))
    else Ok(m.payload.value)
  }

  /** IDs are the numbers of the commands, and every answer is a message read so far with that ID. */
  predicate WellAnswered(log: seq<Sent>, ms: seq<Message>) {
    forall i :: 0 <= i < |log| ==>
      && log[i].id == i + 1
      && (log[i].answer.Some? ==> log[i].answer.value < |ms| && Answers(ms[log[i].answer.value], log[i].id))
  }

  class Client {
    const incoming: seq<Message>
    var pos: nat
    var broken: bool                // a read has failed; the decoder reports that error from then on
    var nextID: int
    var closed: bool
    var lifecycle: map<string, nat>
    var blockIO: map<BlockKey, nat>
    ghost var log: seq<Sent>

    ghost predicate Valid()
      reads this
    {
      && pos <= |incoming| && nextID == |log|
      && CountsEvents(lifecycle, blockIO, incoming[..pos])
      && WellAnswered(log, incoming[..pos])
    }

    constructor (incoming: seq<Message>)
      ensures Valid() && this.incoming == incoming && pos == 0 && log == [] && !closed && !broken
    {
      this.incoming, pos, broken, nextID, closed, log := incoming, 0, false, 0, false, [];
      lifecycle, blockIO := map[], map[];
      new;
      assert incoming[..0] == [];
    }

    /** `recordEvent`: only the allowed names and well-formed block errors are counted. */
    method RecordEvent(m: Message, ghost ms: seq<Message>)
      requires IsEvent(m) && CountsEvents(lifecycle, blockIO, ms)
      modifies `lifecycle, `blockIO
      ensures CountsEvents(lifecycle, blockIO, ms + [m])
    {
      forall name, k
        ensures LifecycleCount(ms + [m], name) == LifecycleCount(ms, name) + (if IsLifecycle(m, name) then 1 else 0)
        && BlockCount(ms + [m], k) == BlockCount(ms, k) + (if IsBlockError(m, k) then 1 else 0) {
        CountOneMore(ms, m, name, k);
      }
      if m.event in LIFECYCLE {
        var name := LIFECYCLE[m.event];
        lifecycle := lifecycle[name := Counter(lifecycle, name) + 1];
        return;
      }
      if m.event != "BLOCK_IO_ERROR" || m.block.None? || !BlockAccepted(m.block.value) {
        return;
      }
      var k := m.block.value;
      blockIO := blockIO[k := Counter(blockIO, k) + 1];
    }

    /** One `Decode`: it may fail at any time, and keeps failing once reading has failed. */
    method ReadMessage() returns (m: Option<Message>)
      requires pos <= |incoming|
      modifies `pos, `broken
      ensures if m.Some? then
                && !old(broken) && !broken
                && old(pos) < |incoming| && pos == old(pos) + 1 && m.value == incoming[old(pos)]
              else pos == old(pos) && broken
    {
      var ok := *;
      if broken || !ok || pos == |incoming| {
        broken := true;
        return None;
      }
      m := Some(incoming[pos]);
      pos := pos + 1;
    }

    /**
      The reading loop of `executeLocked`: events are counted and other commands' replies dropped, up
      to the first message with this ID.
     */
    method AwaitReply(id: int) returns (r: Result<Payload, Failure>, ghost answered: bool)
      requires pos <= |incoming| && CountsEvents(lifecycle, blockIO, incoming[..pos])
      modifies `pos, `broken, `lifecycle, `blockIO
      ensures old(pos) <= pos <= |incoming| && CountsEvents(lifecycle, blockIO, incoming[..pos])
      ensures answered ==> pos > old(pos) && Answers(incoming[pos - 1], id) && r == Outcome(incoming[pos - 1])
      ensures !answered ==> r.Err?
      ensures forall j :: old(pos) <= j < pos && Answers(incoming[j], id) ==> answered && j == pos - 1
    {
      while true
        invariant old(pos) <= pos <= |incoming| && CountsEvents(lifecycle, blockIO, incoming[..pos])
        invariant forall j :: old(pos) <= j < pos ==> !Answers(incoming[j], id)
        decreases |incoming| - pos
      {
        ghost var before := incoming[..pos];
        var m := ReadMessage();
        if m.None? {
          return Err(ReadFailed), false;
        }
        assert incoming[..pos] == before + [m.value];
        if IsEvent(m.value) {
          RecordEvent(m.value, before);
          continue;
        }
        CountsIgnore(lifecycle, blockIO, before, m.value);
        if m.value.Undecodable? {
          return Err(ReadFailed), false;
        }
        if m.value.id != Some(id) {
          continue;
        }
        return Outcome(m.value), true;
      }
    }

    /** `executeLocked`: a payload returned is that of the message with this command's own, new ID. */
    method ExecuteLocked() returns (r: Result<Payload, Failure>)
      requires Valid()
      modifies `pos, `broken, `nextID, `lifecycle, `blockIO, `log
      ensures Valid() && old(pos) <= pos
      ensures old(closed) ==> r == Err(Closed)
      ensures log == old(log) || (nextID == old(nextID) + 1 && |log| == |old(log)| + 1 && log[..|old(log)|] == old(log))
      ensures log == old(log) ==> r.Err? && pos == old(pos) && lifecycle == old(lifecycle) && blockIO == old(blockIO)
      ensures r.Ok? ==> pos > old(pos) && |log| == |old(log)| + 1 && log[|log| - 1] == Sent(nextID, Some(pos - 1))
      ensures r.Ok? ==> Answers(incoming[pos - 1], nextID) && r == Outcome(incoming[pos - 1])
    {
      if closed {
        return Err(Closed);
      }
      var cancelled, failed := *, *;
      if cancelled {
        return Err(Cancelled);
      }
      if failed {
        return Err(DeadlineFailed);
      }
      nextID := nextID + 1;
      log := log + [Sent(nextID, None)];
      var written := *;
      if !written {
        return Err(WriteFailed);
      }
      ghost var read, answered := incoming[..pos], false;
      r, answered := AwaitReply(nextID);
      assert incoming[..pos][..|read|] == read;
      if r.Ok? {
        log := log[|log| - 1 := Sent(nextID, Some(pos - 1))];
      }
    }

    /** `execute`: a caller that is cancelled while it waits for the gate has touched nothing. */
    method Execute() returns (r: Result<Payload, Failure>)
      requires Valid()
      modifies `pos, `broken, `nextID, `lifecycle, `blockIO, `log
      ensures Valid() && old(pos) <= pos
      ensures r.Ok? ==>
        && pos > old(pos) && |log| == |old(log)| + 1 && log[..|old(log)|] == old(log)
        && log[|log| - 1] == Sent(nextID, Some(pos - 1))
      ensures r.Ok? ==> Answers(incoming[pos - 1], nextID) && r == Outcome(incoming[pos - 1])
      ensures old(nextID) <= nextID <= old(nextID) + 1
      ensures nextID == old(nextID) ==> r.Err? && pos == old(pos) && log == old(log)
    {
      var cancelled := *;
      if cancelled {
        return Err(Cancelled);
      }
      r := ExecuteLocked();
    }

    /** `EventCounters`, before its sort: what has been counted on this connection so far. */
    method EventCounters() returns (lifecycleCounts: map<string, nat>, blockCounts: map<BlockKey, nat>)
      requires Valid()
      ensures CountsEvents(lifecycleCounts, blockCounts, incoming[..pos])
    {
      lifecycleCounts, blockCounts := lifecycle, blockIO;
    }
  }

  // ---------- Whole runs ----------

  /** No message is the answer of two commands, whatever was abandoned or cancelled in between. */
  lemma AnswersAreDistinct(log: seq<Sent>, ms: seq<Message>, i: nat, j: nat)
    requires WellAnswered(log, ms) && i < j < |log| && log[i].answer.Some? && log[j].answer.Some?
    ensures log[i].id < log[j].id && log[i].answer != log[j].answer
  {
    assert Answers(ms[log[i].answer.value], log[i].id) && Answers(ms[log[j].answer.value], log[j].id);
  }

  /**
    Against a server that answers each ID once at most, every payload a command returned is the
    server's answer to that very command.
   */
  lemma EveryAnswerIsItsOwn(log: seq<Sent>, ms: seq<Message>, served: map<int, nat>, i: nat)
    requires WellAnswered(log, ms) && i < |log| && log[i].answer.Some?
    requires forall k, id :: 0 <= k < |ms| && Answers(ms[k], id) ==> id in served && served[id] == k
    ensures log[i].id in served && log[i].answer == Some(served[log[i].id])
  {
    var k := log[i].answer.value;
    assert Answers(ms[k], log[i].id);
  }

  /** Counting goes over every message read, so counts never fall. */
  lemma {:induction false} CountsAreMonotone(ms: seq<Message>, more: seq<Message>, name: string, k: BlockKey)
    ensures LifecycleCount(ms, name) <= LifecycleCount(ms + more, name)
    ensures BlockCount(ms, k) <= BlockCount(ms + more, k)
    decreases |more|
  {
    if more == [] {
      assert ms + more == ms;
    } else {
      CountsAreMonotone(ms, more[..|more| - 1], name, k);
      CountOneMore(ms + more[..|more| - 1], more[|more| - 1], name, k);
      assert ms + more == ms + more[..|more| - 1] + [more[|more| - 1]];
    }
  }
}
