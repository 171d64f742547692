/** The radiometer channel of `lsw/main_rad.py` as a pure state machine.

    The source keeps one copy of this state per channel in module globals
    (`Ed_*` for the downwelling sensor on slave 2, `Lu_*` for the upwelling
    one on slave 1) and updates it from three places: `get_*` starts a cycle
    by writing the trigger register, `cb_write_single_register_*` reacts to
    the trigger acknowledgment, and `cb_read_*` reacts to each holding-
    register read. Each of them is a function from the old state to the new
    one here; the class `Poller.Channel` performs the same updates in place.

    The gateway is reduced to what the channel sees of it: every request
    gets the next fresh id from a counter, and every request and every
    `time.sleep` is appended to an outbox, in order. */
module PollSpec {
  import opened Wrappers
  import opened Utils

  const EdSlave: nat := 2
  const LuSlave: nat := 1

  /** Writing 1024 to register 2 triggers a measurement. */
  const TriggerRegister: nat := 2
  const TriggerValue: nat := 1024

  /** Bus settle time before any retry, and the one-off sensor warm-up. */
  const RetryDelayMs: nat := 256
  const WarmUpMs: nat := 4096

  /** What the channel asks of the outside world. */
  datatype Action =
    | WriteSingleRegister(slave: nat, register: nat, value: nat, id: nat)
    | ReadHoldingRegisters(slave: nat, address: int, count: nat, id: nat)
    | Sleep(ms: nat)

  /** What drives the channel: the driver's `get_*` call, and the two
      gateway callbacks. The exception code is the gateway's signed byte
      (negative for a timeout); only whether it is 0 matters. */
  datatype Input =
    | Get
    | TriggerAck(requestId: nat, exceptionCode: int, now: string)
    | ReadResponse(requestId: nat, exceptionCode: int, registers: seq<Word>)

  /** The per-channel globals: `address`/`wordCount` are `Ed_address` /
      `Ed_byte`, the queues are popped from their end, `warmups` is `n_Ed`,
      `log` holds the rows appended to the channel CSV, and `nextId` is the
      gateway's id counter. */
  datatype PollState = PollState(
    slave: nat,
    address: Option<int>,
    wordCount: nat,
    addressQueue: seq<int>,
    wordQueue: seq<nat>,
    expectedId: Option<nat>,
    nextId: nat,
    busy: bool,
    data: Partial,
    warmups: nat,
    log: seq<Record>,
    outbox: seq<Action>)

  /** The queues a matching trigger acknowledgment loads; `pop()` takes
      from the end, so they are read back to front. */
  const InitialAddressQueue: seq<int> := [3109, 2985, 2861, 2737, 2613, 2016, 2014, 2010]
  const InitialWordQueue: seq<nat> := [14, 124, 124, 124, 124, 2, 2, 2]

  /** The state at import time: no address, no expected id (so every
      acknowledgment mismatches until a trigger has been sent). `Ed_byte`
      starts as `None`, here 0. `Ed_busy`, the queues and `Ed_data` are
      not assigned at import at all; nothing reads them before `get_*` or
      a matching acknowledgment assigns them, so they start as not busy
      and empty here. */
  function Init(slave: nat): PollState
  {
    PollState(slave, None, 0, [], [], None, 0, false, Partial("", map[]), 0, [], [])
  }

  function Pause(s: PollState, ms: nat): PollState
  {
    s.(outbox := s.outbox + [Sleep(ms)])
  }

  /** `modbus_master_write_single_register(slave, 2, 1024)`; its id becomes
      the expected one. */
  function IssueTrigger(s: PollState): PollState
  {
    s.(outbox := s.outbox + [WriteSingleRegister(s.slave, TriggerRegister, TriggerValue, s.nextId)],
       expectedId := Some(s.nextId), nextId := s.nextId + 1)
  }

  /** `modbus_master_read_holding_registers(slave, address, count)`; its id
      becomes the expected one. */
  function IssueRead(s: PollState, address: int, count: nat): PollState
  {
    s.(outbox := s.outbox + [ReadHoldingRegisters(s.slave, address, count, s.nextId)],
       expectedId := Some(s.nextId), nextId := s.nextId + 1)
  }

  /** `get_*` up to its wait: mark busy and send the trigger. */
  function Start(s: PollState): PollState
  {
    IssueTrigger(s.(busy := true))
  }

  /** `cb_write_single_register_*`. The exception code is printed and
      otherwise ignored. */
  function OnTriggerAck(s: PollState, requestId: nat, exceptionCode: int, now: string): PollState
  {
    if s.expectedId != Some(requestId) then Retrigger(s) else Arm(s, now)
  }

  /** An unexpected acknowledgment: wait, then trigger again. */
  function Retrigger(s: PollState): PollState
  {
    IssueTrigger(Pause(s, RetryDelayMs))
  }

  /** The expected acknowledgment: a fresh data dict stamped `now`, the
      first slot and the full queues, the one-off warm-up, the first read. */
  function Arm(s: PollState, now: string): PollState
  {
    var armed := s.(data := Partial(now, map[]), address := Some(2006), addressQueue := InitialAddressQueue,
                    wordCount := 1, wordQueue := InitialWordQueue);
    var warmed := if s.warmups == 0 then Pause(armed, WarmUpMs).(warmups := s.warmups + 1) else armed;
    IssueRead(warmed, 2006, 1)
  }

  /** `cb_read_*`. A Python exception ends the callback with the updates
      made so far: an address that is not a catalogue key fails the lookup
      in the first line, an empty queue fails `pop()`, and a record that
      does not decode fails before `busy` is cleared. The request id is
      only printed. */
  function OnReadResponse(s: PollState, requestId: nat, exceptionCode: int, registers: seq<Word>): PollState
  {
    if s.address.None? || s.address.value !in Addresses then s
    else if exceptionCode != 0 then Retry(s)
    else
      var stored := Store(s, registers);
      if s.address.value == FinalAddress then Complete(stored) else Advance(stored)
  }

  /** A failed read: wait, then ask for the same slot again. */
  function Retry(s: PollState): PollState
    requires s.address.Some?
  {
    IssueRead(Pause(s, RetryDelayMs), s.address.value, s.wordCount)
  }

  /** A clean read: the words go under the field name of the current address. */
  function Store(s: PollState, registers: seq<Word>): PollState
    requires s.address.Some? && s.address.value in Addresses
  {
    s.(data := s.data.(fields := s.data.fields[Addresses[s.address.value] := registers]))
  }

  /** The last read of a cycle: decode the data and append the record. */
  function Complete(s: PollState): PollState
  {
    match Decode(s.data)
    case Success(record) => s.(log := s.log + [record], busy := false)
    case Failure(_) => s
  }

  /** Any other read: pop the next address and word count and read them. */
  function Advance(s: PollState): PollState
  {
    if |s.addressQueue| == 0 then s
    else
      var n := |s.addressQueue|;
      var popped := s.(address := Some(s.addressQueue[n - 1]), addressQueue := s.addressQueue[..n - 1]);
      if |s.wordQueue| == 0 then popped
      else
        var m := |s.wordQueue|;
        var next := popped.(wordCount := s.wordQueue[m - 1], wordQueue := s.wordQueue[..m - 1]);
        IssueRead(next, next.address.value, next.wordCount)
  }

  function Step(s: PollState, input: Input): PollState
  {
    match input
    case Get => Start(s)
    case TriggerAck(id, code, now) => OnTriggerAck(s, id, code, now)
    case ReadResponse(id, code, registers) => OnReadResponse(s, id, code, registers)
  }

  function Run(s: PollState, inputs: seq<Input>): PollState
    decreases |inputs|
  {
    if |inputs| == 0 then s else Run(Step(s, inputs[0]), inputs[1..])
  }

  // ---------------------------------------------------------------------
  // The invariant
  // ---------------------------------------------------------------------

  /** How many warm-up waits an outbox holds. */
  function CountWarmUps(outbox: seq<Action>): nat
    decreases |outbox|
  {
    if |outbox| == 0 then 0
    else CountWarmUps(outbox[..|outbox| - 1]) + (if outbox[|outbox| - 1] == Sleep(WarmUpMs) then 1 else 0)
  }

  lemma CountWarmUpsAppend(outbox: seq<Action>, a: Action)
    ensures CountWarmUps(outbox + [a]) == CountWarmUps(outbox) + (if a == Sleep(WarmUpMs) then 1 else 0)
  {
    assert (outbox + [a])[..|outbox|] == outbox;
  }

  /** The index in `PollOrder` of the read in progress. */
  function Position(s: PollState): nat
    requires |s.addressQueue| <= 8
  {
    8 - |s.addressQueue|
  }

  /** The fields read before position `p` are in the data dict. */
  predicate StoredUpTo(d: Partial, p: nat)
  {
    forall j :: 0 <= j < p && j < 9 ==> FieldNames[j] in d.fields
  }

  /** What holds in every reachable state: the two queues are equally long
      suffixes-to-be-popped of the initial ones, so pops stay paired and never
      hit an empty list; the pending read is the one `PollOrder` puts next, so
      its address is a catalogue key; the fields read so far are stored; and
      the warm-up wait has been emitted exactly `n` times, with `n` at most 1. */
  predicate WellFormed(s: PollState)
  {
    && |s.addressQueue| == |s.wordQueue| <= 8
    && s.addressQueue == InitialAddressQueue[..|s.addressQueue|]
    && s.wordQueue == InitialWordQueue[..|s.wordQueue|]
    && s.warmups <= 1
    && s.warmups == CountWarmUps(s.outbox)
    && (s.address.Some? ==>
          && s.address.value == PollOrder[Position(s)].address
          && s.wordCount == PollOrder[Position(s)].count
          && s.expectedId.Some?
          && StoredUpTo(s.data, Position(s)))
  }

  /** Popping the queues yields the next slot of the poll order. */
  lemma QueuesFollowPollOrder()
    ensures forall k :: 0 <= k < 8 ==> InitialAddressQueue[k] == PollOrder[8 - k].address
    ensures forall k :: 0 <= k < 8 ==> InitialWordQueue[k] == PollOrder[8 - k].count
  {
    assert InitialAddressQueue[0] == PollOrder[8].address && InitialWordQueue[0] == PollOrder[8].count;
    assert InitialAddressQueue[1] == PollOrder[7].address && InitialWordQueue[1] == PollOrder[7].count;
    assert InitialAddressQueue[2] == PollOrder[6].address && InitialWordQueue[2] == PollOrder[6].count;
    assert InitialAddressQueue[3] == PollOrder[5].address && InitialWordQueue[3] == PollOrder[5].count;
    assert InitialAddressQueue[4] == PollOrder[4].address && InitialWordQueue[4] == PollOrder[4].count;
    assert InitialAddressQueue[5] == PollOrder[3].address && InitialWordQueue[5] == PollOrder[3].count;
    assert InitialAddressQueue[6] == PollOrder[2].address && InitialWordQueue[6] == PollOrder[2].count;
    assert InitialAddressQueue[7] == PollOrder[1].address && InitialWordQueue[7] == PollOrder[1].count;
  }

  lemma InitWellFormed(slave: nat)
    ensures WellFormed(Init(slave))
  {
  }

  lemma StartPreservesWellFormed(s: PollState)
    requires WellFormed(s)
    ensures WellFormed(Start(s))
  {
    CountWarmUpsAppend(s.outbox, WriteSingleRegister(s.slave, TriggerRegister, TriggerValue, s.nextId));
  }

  lemma MismatchedAckPreservesWellFormed(s: PollState, requestId: nat, exceptionCode: int, now: string)
    requires WellFormed(s) && s.expectedId != Some(requestId)
    ensures WellFormed(OnTriggerAck(s, requestId, exceptionCode, now))
  {
    CountWarmUpsAppend(s.outbox, Sleep(RetryDelayMs));
    CountWarmUpsAppend(s.outbox + [Sleep(RetryDelayMs)], WriteSingleRegister(s.slave, TriggerRegister, TriggerValue, s.nextId));
  }

  lemma MatchingAckPreservesWellFormed(s: PollState, requestId: nat, exceptionCode: int, now: string)
    requires WellFormed(s) && s.expectedId == Some(requestId)
    ensures WellFormed(OnTriggerAck(s, requestId, exceptionCode, now))
  {
    var read := ReadHoldingRegisters(s.slave, PollOrder[0].address, PollOrder[0].count, s.nextId);
    if s.warmups == 0 {
      CountWarmUpsAppend(s.outbox, Sleep(WarmUpMs));
      CountWarmUpsAppend(s.outbox + [Sleep(WarmUpMs)], read);
    } else {
      CountWarmUpsAppend(s.outbox, read);
    }
    assert InitialAddressQueue[..8] == InitialAddressQueue;
    assert InitialWordQueue[..8] == InitialWordQueue;
  }

  lemma TriggerAckPreservesWellFormed(s: PollState, requestId: nat, exceptionCode: int, now: string)
    requires WellFormed(s)
    ensures WellFormed(OnTriggerAck(s, requestId, exceptionCode, now))
  {
    if s.expectedId != Some(requestId) {
      MismatchedAckPreservesWellFormed(s, requestId, exceptionCode, now);
    } else {
      MatchingAckPreservesWellFormed(s, requestId, exceptionCode, now);
    }
  }

  lemma ReadFaultPreservesWellFormed(s: PollState, requestId: nat, exceptionCode: int, registers: seq<Word>)
    requires WellFormed(s) && s.address.Some? && s.address.value in Addresses && exceptionCode != 0
    ensures WellFormed(OnReadResponse(s, requestId, exceptionCode, registers))
  {
    CountWarmUpsAppend(s.outbox, Sleep(RetryDelayMs));
    CountWarmUpsAppend(s.outbox + [Sleep(RetryDelayMs)], ReadHoldingRegisters(s.slave, s.address.value, s.wordCount, s.nextId));
  }

  lemma CleanFinalPreservesWellFormed(s: PollState, requestId: nat, registers: seq<Word>)
    requires WellFormed(s) && s.address == Some(FinalAddress)
    ensures WellFormed(OnReadResponse(s, requestId, 0, registers))
  {
    CatalogueCoversPollOrder();
    assert Position(s) == 8;
  }

  lemma CleanMiddlePreservesWellFormed(s: PollState, requestId: nat, registers: seq<Word>)
    requires WellFormed(s) && s.address.Some? && s.address.value != FinalAddress
    ensures WellFormed(OnReadResponse(s, requestId, 0, registers))
  {
    CatalogueCoversPollOrder();
    StoreKeepsWellFormed(s, registers);
    AdvancePreservesWellFormed(Store(s, registers));
  }

  /** Storing a clean read keeps the invariant and adds the current field. */
  lemma StoreKeepsWellFormed(s: PollState, registers: seq<Word>)
    requires WellFormed(s) && s.address.Some? && s.address.value in Addresses
    ensures var t := Store(s, registers);
      WellFormed(t) && t.address == s.address && t.addressQueue == s.addressQueue
      && StoredUpTo(t.data, Position(s) + 1)
  {
    CatalogueCoversPollOrder();
  }

  /** Popping the queues of a state whose current field is stored arms the
      next slot of the poll order. */
  lemma AdvancePreservesWellFormed(s: PollState)
    requires WellFormed(s) && s.address.Some? && s.address.value != FinalAddress
    requires StoredUpTo(s.data, Position(s) + 1)
    ensures WellFormed(Advance(s))
  {
    CatalogueCoversPollOrder();
    var n := |s.addressQueue|;
    assert n > 0;
    QueueTails(n);
    CountWarmUpsAppend(s.outbox, ReadHoldingRegisters(s.slave, s.addressQueue[n - 1], s.wordQueue[n - 1], s.nextId));
  }

  /** The last entries of the queues at length `n` are slot `9 - n`, and
      dropping them leaves the queues at length `n - 1`. */
  lemma QueueTails(n: nat)
    requires 0 < n <= 8
    ensures InitialAddressQueue[..n][n - 1] == PollOrder[9 - n].address
    ensures InitialWordQueue[..n][n - 1] == PollOrder[9 - n].count
    ensures InitialAddressQueue[..n][..n - 1] == InitialAddressQueue[..n - 1]
    ensures InitialWordQueue[..n][..n - 1] == InitialWordQueue[..n - 1]
  {
    QueuesFollowPollOrder();
  }

  lemma ReadResponsePreservesWellFormed(s: PollState, requestId: nat, exceptionCode: int, registers: seq<Word>)
    requires WellFormed(s)
    ensures WellFormed(OnReadResponse(s, requestId, exceptionCode, registers))
  {
    if s.address.None? || s.address.value !in Addresses {
    } else if exceptionCode != 0 {
      ReadFaultPreservesWellFormed(s, requestId, exceptionCode, registers);
    } else if s.address.value == FinalAddress {
      CleanFinalPreservesWellFormed(s, requestId, registers);
    } else {
      CleanMiddlePreservesWellFormed(s, requestId, registers);
    }
  }

  lemma StepPreservesWellFormed(s: PollState, input: Input)
    requires WellFormed(s)
    ensures WellFormed(Step(s, input))
  {
    match input
    case Get => StartPreservesWellFormed(s);
    case TriggerAck(id, code, now) => TriggerAckPreservesWellFormed(s, id, code, now);
    case ReadResponse(id, code, registers) => ReadResponsePreservesWellFormed(s, id, code, registers);
  }

  /** Whatever the driver and the gateway do, in whatever order, the
      invariant holds; in particular the warm-up wait is emitted at most
      once per run, the lookups of the current address never fail and the
      queues never underflow. */
  lemma {:induction false} RunWellFormed(slave: nat, inputs: seq<Input>)
    ensures WellFormed(Run(Init(slave), inputs))
    ensures CountWarmUps(Run(Init(slave), inputs).outbox) <= 1
  {
    InitWellFormed(slave);
    RunPreserves(Init(slave), inputs);
  }

  lemma {:induction false} RunPreserves(s: PollState, inputs: seq<Input>)
    requires WellFormed(s)
    ensures WellFormed(Run(s, inputs))
    decreases |inputs|
  {
    if |inputs| > 0 {
      StepPreservesWellFormed(s, inputs[0]);
      RunPreserves(Step(s, inputs[0]), inputs[1..]);
    }
  }

  // ---------------------------------------------------------------------
  // One step at a time
  // ---------------------------------------------------------------------

  /** `get_*` sets `busy` and sends exactly one trigger, to this channel's
      slave, and changes nothing else of the cycle. */
  lemma StartSendsTrigger(s: PollState)
    ensures Start(s).busy
    ensures Start(s).outbox == s.outbox + [WriteSingleRegister(s.slave, TriggerRegister, TriggerValue, s.nextId)]
    ensures Start(s).expectedId == Some(s.nextId)
    ensures Start(s).address == s.address && Start(s).data == s.data && Start(s).log == s.log
  {
  }

  /** An acknowledgment with an unexpected id waits 256 ms and sends the
      trigger again; address, queues, data, warm-up counter and log are
      untouched. */
  lemma MismatchedAckRetriggers(s: PollState, requestId: nat, exceptionCode: int, now: string)
    requires s.expectedId != Some(requestId)
    ensures var t := OnTriggerAck(s, requestId, exceptionCode, now);
      && t.outbox == s.outbox + [Sleep(RetryDelayMs), WriteSingleRegister(s.slave, TriggerRegister, TriggerValue, s.nextId)]
      && t.expectedId == Some(s.nextId)
      && t.address == s.address && t.wordCount == s.wordCount
      && t.addressQueue == s.addressQueue && t.wordQueue == s.wordQueue
      && t.data == s.data && t.warmups == s.warmups && t.log == s.log && t.busy == s.busy
  {
  }

  /** The acknowledgment's exception code never matters. */
  lemma TriggerAckIgnoresExceptionCode(s: PollState, requestId: nat, code1: int, code2: int, now: string)
    ensures OnTriggerAck(s, requestId, code1, now) == OnTriggerAck(s, requestId, code2, now)
  {
  }

  /** A matching acknowledgment starts a fresh data dict stamped `now`,
      arms the first read of the poll order with the full queues, and
      reads it; the 4.096 s warm-up comes first only while the counter is
      still 0, and afterwards the counter is 1. */
  lemma MatchingAckArmsFirstRead(s: PollState, requestId: nat, exceptionCode: int, now: string)
    requires s.expectedId == Some(requestId)
    requires s.warmups <= 1
    ensures var t := OnTriggerAck(s, requestId, exceptionCode, now);
      && t.data == Partial(now, map[])
      && t.address == Some(2006) && t.wordCount == 1
      && t.addressQueue == InitialAddressQueue && t.wordQueue == InitialWordQueue
      && t.warmups == 1
      && t.outbox == s.outbox
           + (if s.warmups == 0 then [Sleep(WarmUpMs)] else [])
           + [ReadHoldingRegisters(s.slave, 2006, 1, s.nextId)]
      && t.log == s.log && t.busy == s.busy
  {
  }

  /** A read response with a nonzero exception code, whatever its id and
      whether or not it is 6 (slave busy), waits 256 ms and asks for the same
      address and word count again: nothing advances. */
  lemma ReadFaultRetriesSameSlot(s: PollState, requestId: nat, exceptionCode: int, registers: seq<Word>)
    requires s.address.Some? && s.address.value in Addresses
    requires exceptionCode != 0
    ensures var t := OnReadResponse(s, requestId, exceptionCode, registers);
      && t.outbox == s.outbox + [Sleep(RetryDelayMs), ReadHoldingRegisters(s.slave, s.address.value, s.wordCount, s.nextId)]
      && t.address == s.address && t.wordCount == s.wordCount
      && t.addressQueue == s.addressQueue && t.wordQueue == s.wordQueue
      && t.data == s.data && t.log == s.log && t.busy == s.busy
  {
  }

  /** The read response's id is never compared: two responses that differ
      only in their id have the same effect. */
  lemma ReadResponseIgnoresRequestId(s: PollState, id1: nat, id2: nat, exceptionCode: int, registers: seq<Word>)
    ensures OnReadResponse(s, id1, exceptionCode, registers) == OnReadResponse(s, id2, exceptionCode, registers)
  {
  }

  /** A clean response to any read but the last stores the words under the
      field name of the current slot and reads the next slot of the poll
      order. */
  lemma CleanReadAdvances(s: PollState, requestId: nat, registers: seq<Word>)
    requires WellFormed(s) && s.address.Some? && s.address.value != FinalAddress
    ensures Position(s) < 8
    ensures var t := OnReadResponse(s, requestId, 0, registers);
      && t.data == s.data.(fields := s.data.fields[FieldNames[Position(s)] := registers])
      && t.address == Some(PollOrder[Position(s) + 1].address)
      && t.wordCount == PollOrder[Position(s) + 1].count
      && |t.addressQueue| == |s.addressQueue| - 1
      && t.outbox == s.outbox + [ReadHoldingRegisters(s.slave, PollOrder[Position(s) + 1].address, PollOrder[Position(s) + 1].count, s.nextId)]
      && t.log == s.log && t.busy == s.busy
  {
    CatalogueCoversPollOrder();
    QueuesFollowPollOrder();
    var n := |s.addressQueue|;
    assert s.addressQueue[n - 1] == InitialAddressQueue[n - 1];
    assert s.wordQueue[n - 1] == InitialWordQueue[n - 1];
  }

  /** A clean response to the last read stores `ordinate5`, at which point
      the data dict holds all nine fields; if they decode, exactly one
      record is appended, `busy` clears and no request follows. */
  lemma CleanFinalReadRecords(s: PollState, requestId: nat, registers: seq<Word>)
    requires WellFormed(s) && s.address == Some(FinalAddress)
    ensures var t := OnReadResponse(s, requestId, 0, registers);
      && HasAllFields(t.data)
      && t.outbox == s.outbox
      && t.address == s.address
      && (Decodable(t.data) ==> t.log == s.log + [Decode(t.data).value] && !t.busy)
      && (!Decodable(t.data) ==> t.log == s.log && t.busy == s.busy)
  {
    CatalogueCoversPollOrder();
    var t := OnReadResponse(s, requestId, 0, registers);
    assert Position(s) == 8;
    assert forall j :: 0 <= j < 9 ==> FieldNames[j] in t.data.fields;
    HasAllFieldsFromNames(t.data);
  }

  // ---------------------------------------------------------------------
  // Whole cycles
  // ---------------------------------------------------------------------

  /** The id a well-behaved gateway puts on its reply: that of the request
      being answered. */
  function ReplyId(s: PollState): nat
  {
    if s.expectedId.Some? then s.expectedId.value else 0
  }

  /** A gateway that answers each pending read cleanly with the given
      words, one payload per read. */
  function ReplyAll(s: PollState, payloads: seq<seq<Word>>): PollState
    decreases |payloads|
  {
    if |payloads| == 0 then s
    else ReplyAll(OnReadResponse(s, ReplyId(s), 0, payloads[0]), payloads[1..])
  }

  /** One payload per slot, each of the word count the slot requests. */
  predicate WellSized(payloads: seq<seq<Word>>)
  {
    |payloads| == 9 && forall k :: 0 <= k < 9 ==> |payloads[k]| == PollOrder[k].count
  }

  /** The read requests for slots `from`..8, numbered from `firstId`. */
  function ReadRequests(slave: nat, from: nat, firstId: nat): (r: seq<Action>)
    requires from <= 9
    ensures |r| == 9 - from
  {
    seq(9 - from, i requires 0 <= i < 9 - from =>
      ReadHoldingRegisters(slave, PollOrder[from + i].address, PollOrder[from + i].count, firstId + i))
  }

  /** The row `process_data` makes from one cycle's payloads. */
  function CycleRecord(time: string, payloads: seq<seq<Word>>): Record
    requires WellSized(payloads)
  {
    Record(time, payloads[0][0], payloads[1][0],
           Pattern32(payloads[2][0], payloads[2][1]), Pattern32(payloads[3][0], payloads[3][1]),
           Pairs(payloads[4]) + Pairs(payloads[5]) + Pairs(payloads[6]) + Pairs(payloads[7]) + Pairs(payloads[8]))
  }

  /** The words stored for slots before `p` are the payloads of those slots. */
  predicate StoredPayloads(d: Partial, payloads: seq<seq<Word>>, p: nat)
    requires p <= |payloads|
  {
    forall j :: 0 <= j < p && j < 9 ==> FieldNames[j] in d.fields && d.fields[FieldNames[j]] == payloads[j]
  }

  /** The clean reply to the last read closes the cycle with the record of
      the stored payloads. */
  lemma ReplyLast(s: PollState, payloads: seq<seq<Word>>)
    requires WellFormed(s) && s.address == Some(FinalAddress)
    requires WellSized(payloads)
    requires StoredPayloads(s.data, payloads, 8)
    ensures var t := OnReadResponse(s, ReplyId(s), 0, payloads[8]);
      && t.log == s.log + [CycleRecord(s.data.time, payloads)]
      && !t.busy && t.outbox == s.outbox && t.warmups == s.warmups
      && WellFormed(t)
  {
    CleanFinalPreservesWellFormed(s, ReplyId(s), payloads[8]);
    CatalogueCoversPollOrder();
    var stored := Store(s, payloads[8]);
    assert stored.data.fields == s.data.fields[FieldNames[8] := payloads[8]];
    assert StoredPayloads(stored.data, payloads, 9);
    PayloadsDecode(stored.data, payloads);
  }

  /** A data dict holding the nine payloads decodes to their cycle record. */
  lemma PayloadsDecode(d: Partial, payloads: seq<seq<Word>>)
    requires WellSized(payloads)
    requires StoredPayloads(d, payloads, 9)
    ensures Decode(d) == Success(CycleRecord(d.time, payloads))
  {
    FullCycleDecodes(d);
    assert d.fields["integration_time"] == payloads[0] && d.fields["length"] == payloads[1];
    assert d.fields["pre_inclination"] == payloads[2] && d.fields["post_inclination"] == payloads[3];
    assert d.fields["ordinate1"] == payloads[4] && d.fields["ordinate2"] == payloads[5];
    assert d.fields["ordinate3"] == payloads[6] && d.fields["ordinate4"] == payloads[7];
    assert d.fields["ordinate5"] == payloads[8];
  }

  /** The clean reply to any other read stores its payload and moves to the
      next slot. */
  lemma ReplyMiddle(s: PollState, payloads: seq<seq<Word>>, p: nat)
    requires WellFormed(s) && s.address.Some? && s.address.value != FinalAddress && Position(s) == p
    requires WellSized(payloads)
    requires StoredPayloads(s.data, payloads, p)
    ensures p < 8
    ensures var t := OnReadResponse(s, ReplyId(s), 0, payloads[p]);
      && WellFormed(t) && t.address.Some? && Position(t) == p + 1
      && StoredPayloads(t.data, payloads, p + 1)
      && t.data.time == s.data.time && t.slave == s.slave
      && t.log == s.log && t.warmups == s.warmups && t.nextId == s.nextId + 1
      && t.outbox == s.outbox + [ReadHoldingRegisters(s.slave, PollOrder[p + 1].address, PollOrder[p + 1].count, s.nextId)]
  {
    CleanReadAdvances(s, ReplyId(s), payloads[p]);
    ReadResponsePreservesWellFormed(s, ReplyId(s), 0, payloads[p]);
    PollOrderAscending();
  }

  lemma ReplyAllCons(s: PollState, payloads: seq<seq<Word>>, p: nat)
    requires p < |payloads|
    ensures ReplyAll(s, payloads[p..]) == ReplyAll(OnReadResponse(s, ReplyId(s), 0, payloads[p]), payloads[p + 1..])
  {
    assert payloads[p..][1..] == payloads[p + 1..];
  }

  lemma ReadRequestsCons(slave: nat, from: nat, firstId: nat)
    requires from < 9
    ensures ReadRequests(slave, from, firstId)
         == [ReadHoldingRegisters(slave, PollOrder[from].address, PollOrder[from].count, firstId)]
            + ReadRequests(slave, from + 1, firstId + 1)
  {
  }

  /** What clean replies from slot `p` on achieve: the record of the
      payloads is appended, the remaining slots are read in poll order, and
      the channel is idle and well formed. */
  predicate ClosesCycle(s: PollState, t: PollState, payloads: seq<seq<Word>>, p: nat)
    requires WellSized(payloads) && p <= 8
  {
    && t.log == s.log + [CycleRecord(s.data.time, payloads)]
    && !t.busy
    && t.outbox == s.outbox + ReadRequests(s.slave, p + 1, s.nextId)
    && t.warmups == s.warmups
    && WellFormed(t)
  }

  lemma ReplyFromLast(s: PollState, payloads: seq<seq<Word>>)
    requires WellFormed(s) && s.address == Some(FinalAddress)
    requires WellSized(payloads)
    requires StoredPayloads(s.data, payloads, 8)
    ensures ClosesCycle(s, ReplyAll(s, payloads[8..]), payloads, 8)
  {
    ReplyAllCons(s, payloads, 8);
    ReplyLast(s, payloads);
    assert payloads[9..] == [];
  }

  /** Closing the cycle from the next slot closes it from this one. */
  lemma ClosesCycleBack(s: PollState, s1: PollState, t: PollState, payloads: seq<seq<Word>>, p: nat)
    requires WellSized(payloads) && p < 8
    requires s1.data.time == s.data.time && s1.slave == s.slave
    requires s1.log == s.log && s1.warmups == s.warmups && s1.nextId == s.nextId + 1
    requires s1.outbox == s.outbox + [ReadHoldingRegisters(s.slave, PollOrder[p + 1].address, PollOrder[p + 1].count, s.nextId)]
    requires ClosesCycle(s1, t, payloads, p + 1)
    ensures ClosesCycle(s, t, payloads, p)
  {
    ReadRequestsCons(s.slave, p + 1, s.nextId);
  }

  /** From slot `p` on, clean replies read the remaining slots in poll
      order and end the cycle with exactly one record. */
  lemma {:induction false} ReplyFrom(s: PollState, payloads: seq<seq<Word>>, p: nat)
    requires WellFormed(s) && s.address.Some? && Position(s) == p
    requires WellSized(payloads)
    requires StoredPayloads(s.data, payloads, p)
    ensures p <= 8
    ensures ClosesCycle(s, ReplyAll(s, payloads[p..]), payloads, p)
    decreases 8 - p
  {
    if s.address.value == FinalAddress {
      CatalogueCoversPollOrder();
      assert p == 8;
      ReplyFromLast(s, payloads);
    } else {
      ReplyMiddle(s, payloads, p);
      var s1 := OnReadResponse(s, ReplyId(s), 0, payloads[p]);
      ReplyFrom(s1, payloads, p + 1);
      ReplyAllCons(s, payloads, p);
      ClosesCycleBack(s, s1, ReplyAll(s1, payloads[p + 1..]), payloads, p);
    }
  }

  /** One whole cycle against a well-behaved gateway: `get_*` sends the
      trigger, the acknowledgment carries its id, and each read is answered
      with the words asked for. The channel then has sent one trigger,
      waited 4.096 s only if this is its first armed cycle, read the nine
      slots in poll order, appended exactly the record `process_data` makes
      of those words, and is no longer busy. */
  lemma CleanCycle(s: PollState, ackCode: nat, now: string, payloads: seq<seq<Word>>)
    requires WellFormed(s)
    requires WellSized(payloads)
    ensures var acked := OnTriggerAck(Start(s), s.nextId, ackCode, now);
      var t := ReplyAll(acked, payloads);
      && t.log == s.log + [CycleRecord(now, payloads)]
      && !t.busy
      && t.outbox == s.outbox
           + [WriteSingleRegister(s.slave, TriggerRegister, TriggerValue, s.nextId)]
           + (if s.warmups == 0 then [Sleep(WarmUpMs)] else [])
           + ReadRequests(s.slave, 0, s.nextId + 1)
      && t.warmups == 1
      && WellFormed(t)
  {
    var acked := OnTriggerAck(Start(s), s.nextId, ackCode, now);
    TriggeredCycleArmed(s, ackCode, now);
    ReplyFrom(acked, payloads, 0);
    assert payloads[0..] == payloads;
    CleanCycleBack(s, acked, ReplyAll(acked, payloads), now, payloads);
  }

  /** The trigger and its matching acknowledgment arm the first slot. */
  lemma TriggeredCycleArmed(s: PollState, ackCode: nat, now: string)
    requires WellFormed(s)
    ensures var acked := OnTriggerAck(Start(s), s.nextId, ackCode, now);
      && WellFormed(acked) && acked.address.Some? && Position(acked) == 0
      && acked.data.time == now && acked.slave == s.slave
      && acked.log == s.log && acked.warmups == 1 && acked.nextId == s.nextId + 2
      && acked.outbox == s.outbox
           + [WriteSingleRegister(s.slave, TriggerRegister, TriggerValue, s.nextId)]
           + (if s.warmups == 0 then [Sleep(WarmUpMs)] else [])
           + [ReadHoldingRegisters(s.slave, PollOrder[0].address, PollOrder[0].count, s.nextId + 1)]
  {
    StartPreservesWellFormed(s);
    TriggerAckPreservesWellFormed(Start(s), s.nextId, ackCode, now);
  }

  lemma CleanCycleBack(s: PollState, acked: PollState, t: PollState, now: string, payloads: seq<seq<Word>>)
    requires WellSized(payloads) && s.warmups <= 1
    requires acked.data.time == now && acked.slave == s.slave
    requires acked.log == s.log && acked.warmups == 1 && acked.nextId == s.nextId + 2
    requires acked.outbox == s.outbox
           + [WriteSingleRegister(s.slave, TriggerRegister, TriggerValue, s.nextId)]
           + (if s.warmups == 0 then [Sleep(WarmUpMs)] else [])
           + [ReadHoldingRegisters(s.slave, PollOrder[0].address, PollOrder[0].count, s.nextId + 1)]
    requires ClosesCycle(acked, t, payloads, 0)
    ensures t.log == s.log + [CycleRecord(now, payloads)]
    ensures !t.busy && t.warmups == 1 && WellFormed(t)
    ensures t.outbox == s.outbox
           + [WriteSingleRegister(s.slave, TriggerRegister, TriggerValue, s.nextId)]
           + (if s.warmups == 0 then [Sleep(WarmUpMs)] else [])
           + ReadRequests(s.slave, 0, s.nextId + 1)
  {
    ReadRequestsCons(s.slave, 0, s.nextId + 1);
  }

  /** The addresses a clean cycle reads, in order, are exactly the poll
      order. */
  lemma CleanCycleVisitsPollOrder(slave: nat, firstId: nat)
    ensures forall k :: 0 <= k < 9 ==>
      ReadRequests(slave, 0, firstId)[k] == ReadHoldingRegisters(slave, PollOrder[k].address, PollOrder[k].count, firstId + k)
    ensures ReadRequests(slave, 0, firstId)[0].address == 2006
    ensures ReadRequests(slave, 0, firstId)[8].address == 3109
  {
  }

  /** One clean cycle per repetition: timestamp, acknowledgment code and
      payloads of each. */
  datatype CleanScript = CleanScript(now: string, ackCode: nat, payloads: seq<seq<Word>>)

  function CleanInputs(s: PollState, c: CleanScript): PollState
  {
    ReplyAll(OnTriggerAck(Start(s), s.nextId, c.ackCode, c.now), c.payloads)
  }

  function Repeat(s: PollState, cycles: seq<CleanScript>): PollState
    decreases |cycles|
  {
    if |cycles| == 0 then s else Repeat(CleanInputs(s, cycles[0]), cycles[1..])
  }

  function Records(cycles: seq<CleanScript>): (r: seq<Record>)
    requires forall i :: 0 <= i < |cycles| ==> WellSized(cycles[i].payloads)
    ensures |r| == |cycles|
  {
    if |cycles| == 0 then [] else [CycleRecord(cycles[0].now, cycles[0].payloads)] + Records(cycles[1..])
  }

  /** n clean repetitions append exactly n records to the channel log, one
      per cycle and in cycle order, and leave the channel idle; the warm-up
      has then been emitted once if the channel had not warmed up before. */
  lemma {:induction false} RepeatRecordsEachCycle(s: PollState, cycles: seq<CleanScript>)
    requires WellFormed(s)
    requires forall i :: 0 <= i < |cycles| ==> WellSized(cycles[i].payloads)
    ensures var t := Repeat(s, cycles);
      && t.log == s.log + Records(cycles)
      && (|cycles| > 0 ==> !t.busy && t.warmups == 1)
      && WellFormed(t)
    decreases |cycles|
  {
    if |cycles| > 0 {
      var c := cycles[0];
      var s1 := CleanInputs(s, c);
      CleanScriptCloses(s, c);
      assert forall i :: 0 <= i < |cycles[1..]| ==> WellSized(cycles[1..][i].payloads);
      RepeatRecordsEachCycle(s1, cycles[1..]);
      RepeatUnfold(s, cycles);
      RecordsUnfold(cycles);
      AppendAssoc(s.log, CycleRecord(c.now, c.payloads), Records(cycles[1..]));
    }
  }

  lemma RepeatUnfold(s: PollState, cycles: seq<CleanScript>)
    requires |cycles| > 0
    ensures Repeat(s, cycles) == Repeat(CleanInputs(s, cycles[0]), cycles[1..])
  {
  }

  lemma RecordsUnfold(cycles: seq<CleanScript>)
    requires |cycles| > 0
    requires forall i :: 0 <= i < |cycles| ==> WellSized(cycles[i].payloads)
    ensures Records(cycles) == [CycleRecord(cycles[0].now, cycles[0].payloads)] + Records(cycles[1..])
  {
  }

  lemma AppendAssoc(log: seq<Record>, r: Record, rest: seq<Record>)
    ensures log + [r] + rest == log + ([r] + rest)
  {
  }

  lemma CleanScriptCloses(s: PollState, c: CleanScript)
    requires WellFormed(s) && WellSized(c.payloads)
    ensures var t := CleanInputs(s, c);
      t.log == s.log + [CycleRecord(c.now, c.payloads)] && !t.busy && t.warmups == 1 && WellFormed(t)
  {
    CleanCycle(s, c.ackCode, c.now, c.payloads);
  }

  // ---------------------------------------------------------------------
  // The driver: `get_*` waits while busy, `main` repeats n times
  // ---------------------------------------------------------------------

  /** Gateway callbacks only: the driver's `Get` is not among them. */
  predicate Callbacks(events: seq<Input>)
  {
    forall i :: 0 <= i < |events| ==> !events[i].Get?
  }

  /** The callbacks that reach a channel while `get_*` spins on `busy`:
      they are handled in order until `busy` clears, and the rest are not
      consumed. */
  function WhileBusy(s: PollState, events: seq<Input>): PollState
    decreases |events|
  {
    if |events| == 0 || !s.busy then s else WhileBusy(Step(s, events[0]), events[1..])
  }

  /** One `get_*` call: start the cycle, then handle callbacks until idle. */
  function Acquisition(s: PollState, events: seq<Input>): PollState
  {
    WhileBusy(Start(s), events)
  }

  /** `n` repetitions of `get_*` on one channel, each on its own callbacks;
      a repetition that never becomes idle is the last one. */
  function Rounds(s: PollState, scripts: seq<seq<Input>>): PollState
    decreases |scripts|
  {
    if |scripts| == 0 then s
    else
      var t := Acquisition(s, scripts[0]);
      if t.busy then t else Rounds(t, scripts[1..])
  }

  /** A callback on a busy channel either keeps `busy` and leaves the log
      alone, or clears `busy` by appending exactly one record. */
  lemma CallbackLogsOnlyOnCompletion(s: PollState, input: Input)
    requires s.busy && !input.Get?
    ensures var t := Step(s, input);
      && (t.busy ==> t.log == s.log)
      && (!t.busy ==> |t.log| == |s.log| + 1 && t.log[..|s.log|] == s.log)
  {
    var t := Step(s, input);
    if !t.busy {
      assert t.log == s.log + [t.log[|s.log|]];
    }
  }

  /** While `get_*` waits, the log is untouched until the cycle completes,
      and the completing callback adds exactly one record. */
  lemma {:induction false} WhileBusyLogsOnce(s: PollState, events: seq<Input>)
    requires s.busy && Callbacks(events)
    ensures var t := WhileBusy(s, events);
      && (t.busy ==> t.log == s.log)
      && (!t.busy ==> |t.log| == |s.log| + 1 && t.log[..|s.log|] == s.log)
    decreases |events|
  {
    if |events| > 0 {
      var s1 := Step(s, events[0]);
      CallbackLogsOnlyOnCompletion(s, events[0]);
      if s1.busy {
        assert Callbacks(events[1..]) by {
          forall i | 0 <= i < |events[1..]| ensures !events[1..][i].Get? {
            assert events[1..][i] == events[i + 1];
          }
        }
        WhileBusyLogsOnce(s1, events[1..]);
      }
    }
  }

  lemma {:induction false} WhileBusyWellFormed(s: PollState, events: seq<Input>)
    requires WellFormed(s)
    ensures WellFormed(WhileBusy(s, events))
    decreases |events|
  {
    if |events| > 0 && s.busy {
      StepPreservesWellFormed(s, events[0]);
      WhileBusyWellFormed(Step(s, events[0]), events[1..]);
    }
  }

  /** Every completed repetition adds exactly one record to the channel log
      and keeps the earlier rows; an unfinished one adds none and stops the
      run. */
  lemma {:induction false} RoundsRecordEach(s: PollState, scripts: seq<seq<Input>>)
    requires WellFormed(s)
    requires forall k :: 0 <= k < |scripts| ==> Callbacks(scripts[k])
    ensures var t := Rounds(s, scripts);
      && WellFormed(t)
      && |s.log| <= |t.log| && t.log[..|s.log|] == s.log
      && (!t.busy ==> |t.log| == |s.log| + |scripts|)
      && (t.busy && |scripts| > 0 ==> |t.log| < |s.log| + |scripts|)
    decreases |scripts|
  {
    if |scripts| > 0 {
      StartPreservesWellFormed(s);
      WhileBusyLogsOnce(Start(s), scripts[0]);
      WhileBusyWellFormed(Start(s), scripts[0]);
      var t := Acquisition(s, scripts[0]);
      if !t.busy {
        RoundsRecordEach(t, scripts[1..]);
        var u := Rounds(t, scripts[1..]);
        assert u.log[..|s.log|] == u.log[..|t.log|][..|s.log|];
      }
    }
  }
}
