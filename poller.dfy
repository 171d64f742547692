/** The radiometer channels of `lsw/main_rad.py` as objects updated in place.

    `Channel` holds what the source keeps in the module globals of one
    sensor (`Ed_*` or `Lu_*`); each method performs the updates of one
    callback or of `get_*` statement by statement, and its contract ties
    the new state to the step function of `PollSpec` applied to the old
    one, so the invariant and the cycle lemmas proved there carry over. */
module Poller {
  import opened Wrappers
  import opened Utils
  import opened PollSpec

  class Channel {
    const slave: nat
    var address: Option<int>
    var wordCount: nat
    var addressQueue: seq<int>
    var wordQueue: seq<nat>
    var expectedId: Option<nat>
    var nextId: nat
    var busy: bool
    var data: Partial
    var warmups: nat
    var log: seq<Record>
    var outbox: seq<Action>

    /** The globals of this channel as one value. */
    ghost function State(): PollState
      reads this
    {
      PollState(slave, address, wordCount, addressQueue, wordQueue, expectedId, nextId,
                busy, data, warmups, log, outbox)
    }

    /** The globals as the module is imported: nothing armed yet (the
        globals the module leaves unassigned start as in `PollSpec.Init`). */
    constructor (slave: nat)
      ensures State() == Init(slave)
    {
      this.slave := slave;
      address := None;
      wordCount := 0;
      addressQueue := [];
      wordQueue := [];
      expectedId := None;
      nextId := 0;
      busy := false;
      data := Partial("", map[]);
      warmups := 0;
      log := [];
      outbox := [];
    }

    /** `time.sleep(ms / 1000)`. */
    method Sleep(ms: nat)
      modifies this
      ensures State() == Pause(old(State()), ms)
    {
      outbox := outbox + [Action.Sleep(ms)];
    }

    /** `modbus_master_write_single_register(slave, register, value)`:
        returns the fresh id the gateway assigns. */
    method RequestWrite(register: nat, value: nat) returns (id: nat)
      modifies this
      ensures id == old(nextId) && nextId == old(nextId) + 1
      ensures outbox == old(outbox) + [WriteSingleRegister(slave, register, value, id)]
      ensures State() == old(State()).(outbox := outbox, nextId := nextId)
    {
      id := nextId;
      outbox := outbox + [WriteSingleRegister(slave, register, value, id)];
      nextId := nextId + 1;
    }

    /** `modbus_master_read_holding_registers(slave, address, count)`. */
    method RequestRead(at: int, count: nat) returns (id: nat)
      modifies this
      ensures id == old(nextId) && nextId == old(nextId) + 1
      ensures outbox == old(outbox) + [ReadHoldingRegisters(slave, at, count, id)]
      ensures State() == old(State()).(outbox := outbox, nextId := nextId)
    {
      id := nextId;
      outbox := outbox + [ReadHoldingRegisters(slave, at, count, id)];
      nextId := nextId + 1;
    }

    /** `get_*` up to its wait loop. */
    method Start()
      modifies this
      ensures State() == PollSpec.Start(old(State()))
    {
      busy := true;
      var id := RequestWrite(TriggerRegister, TriggerValue);
      expectedId := Some(id);
    }

    /** `cb_write_single_register_*`. */
    method OnTriggerAck(requestId: nat, exceptionCode: int, now: string)
      modifies this
      ensures State() == PollSpec.OnTriggerAck(old(State()), requestId, exceptionCode, now)
    {
      if expectedId != Some(requestId) {
        Retrigger();
      } else {
        Arm(now);
      }
    }

    /** Lines 45-47: wait, then trigger again. */
    method Retrigger()
      modifies this
      ensures State() == PollSpec.Retrigger(old(State()))
    {
      Sleep(RetryDelayMs);
      var id := RequestWrite(TriggerRegister, TriggerValue);
      expectedId := Some(id);
    }

    /** Lines 49-57: arm the cycle and read its first slot. */
    method Arm(now: string)
      modifies this
      ensures State() == PollSpec.Arm(old(State()), now)
    {
      data := Partial(now, map[]);
      address := Some(2006);
      addressQueue := InitialAddressQueue;
      wordCount := 1;
      wordQueue := InitialWordQueue;
      ghost var armed := old(State()).(data := Partial(now, map[]), address := Some(2006), addressQueue := InitialAddressQueue,
                    wordCount := 1, wordQueue := InitialWordQueue);
      assert State() == armed;
      WarmUp();
      ghost var warmed := if old(warmups) == 0 then Pause(armed, WarmUpMs).(warmups := 1) else armed;
      assert State() == warmed;
      var id := RequestRead(address.value, wordCount);
      expectedId := Some(id);
      assert State() == IssueRead(warmed, 2006, 1);
    }

    /** Lines 54-56: the 4.096 s wait, only while the counter is 0. */
    method WarmUp()
      modifies this
      ensures State() == if old(warmups) == 0 then Pause(old(State()), WarmUpMs).(warmups := 1) else old(State())
    {
      if warmups == 0 {
        Sleep(WarmUpMs);
        warmups := warmups + 1;
      }
    }

    /** `cb_read_*`. Each `return` before the end is where the source
        raises: the catalogue lookup of the current address, `pop()` on an
        empty queue, or `process_data`. */
    method OnReadResponse(requestId: nat, exceptionCode: int, registers: seq<Word>)
      modifies this
      ensures State() == PollSpec.OnReadResponse(old(State()), requestId, exceptionCode, registers)
    {
      if address.None? || address.value !in Addresses {
        return;
      }
      if exceptionCode == 0 {
        data := data.(fields := data.fields[Addresses[address.value] := registers]);
        if address.value == FinalAddress {
          Complete();
        } else {
          Advance();
        }
      } else {
        Sleep(RetryDelayMs);
        var id := RequestRead(address.value, wordCount);
        expectedId := Some(id);
      }
    }

    /** Lines 86-88: write the decoded record, then clear `busy`. */
    method Complete()
      modifies this
      ensures State() == PollSpec.Complete(old(State()))
    {
      var record := ProcessData(data);
      if record.Failure? {
        return;
      }
      log := log + [record.value];
      busy := false;
    }

    /** Lines 89-92: pop both queues and read the next slot. */
    method Advance()
      modifies this
      ensures State() == PollSpec.Advance(old(State()))
    {
      if |addressQueue| == 0 {
        return;
      }
      address := Some(addressQueue[|addressQueue| - 1]);
      addressQueue := addressQueue[..|addressQueue| - 1];
      if |wordQueue| == 0 {
        return;
      }
      wordCount := wordQueue[|wordQueue| - 1];
      wordQueue := wordQueue[..|wordQueue| - 1];
      var id := RequestRead(address.value, wordCount);
      expectedId := Some(id);
    }

    method Deliver(input: Input)
      modifies this
      ensures State() == Step(old(State()), input)
    {
      match input
      case Get => Start();
      case TriggerAck(id, code, now) => OnTriggerAck(id, code, now);
      case ReadResponse(id, code, registers) => OnReadResponse(id, code, registers);
    }

    /** A whole `get_*` call: start the cycle, then let the gateway's
        callbacks in, in order, while `busy` holds. Callbacks left over
        once the channel is idle are not consumed. */
    method Acquire(events: seq<Input>)
      modifies this
      ensures State() == Acquisition(old(State()), events)
    {
      Start();
      var i := 0;
      assert events[0..] == events;
      while i < |events| && busy
        invariant 0 <= i <= |events|
        invariant WhileBusy(State(), events[i..]) == Acquisition(old(State()), events)
      {
        assert events[i..][1..] == events[i + 1..];
        Deliver(events[i]);
        i := i + 1;
      }
    }
  }

  /** `main`'s repetition loop: each repetition runs `get_Ed` and `get_Lu`
      to completion before the next starts. The two channels share no
      state, so running Ed's callbacks and then Lu's is the same as running
      them interleaved. A channel that never becomes idle would make the
      source wait forever; here the run stops after that repetition.
      Returns the number of repetitions both channels completed. */
  method RunRepetitions(ed: Channel, lu: Channel, n: nat, edEvents: seq<seq<Input>>, luEvents: seq<seq<Input>>)
    returns (completed: nat)
    requires ed != lu
    requires |edEvents| == n && |luEvents| == n
    modifies ed, lu
    ensures completed <= n
    ensures completed < n ==> ed.busy || lu.busy
    ensures var started := if completed < n then completed + 1 else n;
      && ed.State() == Rounds(old(ed.State()), edEvents[..started])
      && lu.State() == Rounds(old(lu.State()), luEvents[..started])
  {
    completed := 0;
    while completed < n
      invariant completed <= n
      invariant ed.State() == Rounds(old(ed.State()), edEvents[..completed])
      invariant lu.State() == Rounds(old(lu.State()), luEvents[..completed])
      invariant completed > 0 ==> !ed.busy && !lu.busy
    {
      ghost var edBefore := ed.State();
      ghost var luBefore := lu.State();
      ed.Acquire(edEvents[completed]);
      lu.Acquire(luEvents[completed]);
      RoundsExtend(old(ed.State()), edEvents, completed, edBefore);
      RoundsExtend(old(lu.State()), luEvents, completed, luBefore);
      if ed.busy || lu.busy {
        return;
      }
      completed := completed + 1;
    }
  }

  /** One more repetition extends the run by its acquisition, provided the
      earlier ones all completed. */
  lemma {:induction false} RoundsExtend(s: PollState, scripts: seq<seq<Input>>, k: nat, before: PollState)
    requires k < |scripts|
    requires before == Rounds(s, scripts[..k])
    requires k > 0 ==> !before.busy
    ensures Rounds(s, scripts[..k + 1]) == Acquisition(before, scripts[k])
    decreases k
  {
    if k == 0 {
      assert scripts[..1][1..] == [];
    } else {
      var t := Acquisition(s, scripts[0]);
      assert scripts[..k + 1][0] == scripts[0] && scripts[..k][0] == scripts[0];
      assert scripts[..k + 1][1..] == scripts[1..][..k] && scripts[..k][1..] == scripts[1..][..k - 1];
      if t.busy {
        assert false;
      }
      RoundsExtend(t, scripts[1..], k - 1, before);
    }
  }
}
