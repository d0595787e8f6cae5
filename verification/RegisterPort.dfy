/** The driver's register calls, in place (`src/port.c:520-534`, `753-836`, `src/isr.c:445-501`).
    Each is proved to do what the machine of `Registers` does for the same event. */
module RegisterPort {
  import opened CTypes
  import opened Offsets
  import opened Registers

  class Driver {
    var registerStorage: Storage
    /** The packets sent and not yet taken by the device. */
    var commandPipe: seq<seq<Byte>>
    var nonvolatileReg: nat
    var fx2FirmwareRev: nat
    var fpgaFirmwareRev: nat
    ghost var model: State

    ghost predicate Valid()
      reads this
    {
      registerStorage == model.storage && commandPipe == model.commands
    }

    constructor ()
      ensures Valid() && registerStorage == seq(SLOTS, i => -1)
      ensures model == Start(Ideal(registerStorage, map[]))
    {
      registerStorage := seq(SLOTS, i => -1);
      commandPipe := [];
      nonvolatileReg, fx2FirmwareRev, fpgaFirmwareRev := 0, 0, 0;
      model := Start(Ideal(seq(SLOTS, i => -1), map[]));
    }

    method SetRegisterAsync(offset: Byte, address: Byte, value: Unsigned)
      requires Valid()
      modifies this`commandPipe, this`model
      ensures Valid() && model == Step(old(model), Issue(Write(Key(offset, address), value)))
    {
      var writeBuffer := new Byte[7];
      writeBuffer[0] := WRITE_REGISTER;
      writeBuffer[1] := offset;
      writeBuffer[2] := Shifted(address);
      var swapped := InMemory(Swap(value));
      forall i | 0 <= i < 4 {
        writeBuffer[3 + i] := swapped[i];
      }
      assert writeBuffer[..] == CommandPacket(Write(Key(offset, address), value));
      commandPipe := commandPipe + [writeBuffer[..]];
      model := Step(model, Issue(Write(Key(offset, address), value)));
    }

    method GetRegisterAsync(offset: Byte, address: Byte)
      requires Valid()
      modifies this`commandPipe, this`model
      ensures Valid() && model == Step(old(model), Issue(Read(Key(offset, address))))
    {
      var writeBuffer := new Byte[3];
      writeBuffer[0] := READ_WITH_ADDRESS;
      writeBuffer[1] := offset;
      writeBuffer[2] := Shifted(address);
      assert writeBuffer[..] == CommandPacket(Read(Key(offset, address)));
      commandPipe := commandPipe + [writeBuffer[..]];
      model := Step(model, Issue(Read(Key(offset, address))));
    }

    /** The repeated write: the values in order to one register. */
    method SetRegisterRep(offset: Byte, address: Byte, values: seq<Unsigned>)
      requires Valid()
      modifies this`commandPipe, this`model
      ensures Valid()
      ensures
        var all := seq(|values|, i requires 0 <= i < |values| => Write(Key(offset, address), values[i]));
        model == Run(old(model), Issues(all))
    {
      ghost var all := seq(|values|, i requires 0 <= i < |values| => Write(Key(offset, address), values[i]));
      ghost var s := model;
      for i := 0 to |values|
        invariant Valid() && model == Run(s, Issues(all[..i]))
      {
        RunOneMore(s, all, i);
        SetRegisterAsync(offset, address, values[i]);
      }
      assert all[..|values|] == all;
    }

    /** Sets every register whose value is not negative and that is not read-only, and reads back
        all but the write-only one. */
    method SetRegisters(regs: array<int>)
      requires Valid() && regs.Length == SLOTS
      modifies this`commandPipe, this`model
      ensures Valid() && model == Run(old(model), Issues(SetCommands(regs[..], SLOTS)))
    {
      ghost var s := model;
      for i := 0 to SLOTS
        invariant Valid() && model == Run(s, Issues(SetCommands(regs[..], i)))
      {
        SetCommandsNext(regs[..], i);
        RunMore(s, SetCommands(regs[..], i), SlotCommands(regs[i], i));
        hide *;
        SetRegister(regs[i], i);
      }
    }

    /** One turn of that loop. */
    method SetRegister(value: int, i: nat)
      requires Valid() && i < SLOTS
      modifies this`commandPipe, this`model
      ensures Valid() && model == Run(old(model), Issues(SlotCommands(value, i)))
    {
      RunShort(model, SlotCommands(value, i));
      hide Run, Issues, Step;
      var registerOffset: nat := i * 4;
      if ReadOnly(registerOffset) || value < 0 { return; }
      if registerOffset > MAX_OFFSET {
        SetRegisterAsync(0x00, FCR_OFFSET, value % U32);
      } else {
        SetRegisterAsync(UPPER, registerOffset, value % U32);
      }
      if !WriteOnly(registerOffset) && registerOffset > MAX_OFFSET {
        GetRegisterAsync(0x00, FCR_OFFSET);
      } else if !WriteOnly(registerOffset) {
        GetRegisterAsync(UPPER, registerOffset);
      }
    }

    /** Fills in the marked registers from the cache and asks the device for fresh values. */
    method GetRegisters(regs: array<int>)
      requires Valid() && regs.Length == SLOTS
      modifies regs, this`commandPipe, this`model
      ensures Valid() && model == Run(old(model), Issues(GetCommands(old(regs[..]), SLOTS)))
      ensures forall k: nat :: k < SLOTS ==>
        regs[k] == if old(regs[k]) == -2 && k != 5 then registerStorage[k] else old(regs[k])
    {
      hide Run, Issues, GetCommands, GetCommand, WriteOnly;
      ghost var s := model;
      ghost var asked := regs[..];
      NothingAsked(s, asked);
      for i := 0 to SLOTS
        invariant Valid() && model == Run(s, Issues(GetCommands(asked, i)))
        invariant forall k: nat :: k < i ==>
          regs[k] == if asked[k] == UPDATE_VALUE && k != CMDR then registerStorage[k] else asked[k]
        invariant forall k: nat :: i <= k < SLOTS ==> regs[k] == asked[k]
      {
        GetCommandsNext(s, asked, i);
        var value := regs[i];
        if value == UPDATE_VALUE && !WriteOnly(4 * i) {
          regs[i] := registerStorage[i];
        }
        AskRegister(value, i);
      }
    }

    /** The request in one turn of that loop. */
    method AskRegister(value: int, i: nat)
      requires Valid() && i < SLOTS
      modifies this`commandPipe, this`model
      ensures Valid() && model == Run(old(model), Issues(GetCommand(value, i)))
    {
      RunShort(model, GetCommand(value, i));
      hide Run, Issues, Step;
      var registerOffset: nat := i * 4;
      if value == UPDATE_VALUE && !WriteOnly(registerOffset) {
        GetRegisterAsync(UPPER, registerOffset);
      }
    }

    /** The completion of a read. Six bytes are the oldest answer of the device; other lengths are
        answers to requests outside the register space. */
    method RegisterCompletion(readBuffer: seq<Byte>)
      requires Valid()
      requires |readBuffer| == 6 ==> model.responses != [] && readBuffer == model.responses[0]
      modifies this`registerStorage, this`nonvolatileReg, this`fx2FirmwareRev, this`fpgaFirmwareRev, this`model
      ensures Valid() && model == if |readBuffer| == 6 then Step(old(model), Completion) else old(model)
      ensures nonvolatileReg == if |readBuffer| == 4 then Swap(FromMemory(readBuffer)) else old(nonvolatileReg)
      ensures fx2FirmwareRev ==
        if |readBuffer| == 2 then 0x100 * readBuffer[0] + readBuffer[1] else old(fx2FirmwareRev)
      ensures fpgaFirmwareRev ==
        if |readBuffer| == 6 && readBuffer[1] / 2 == 0 then Swap(FromMemory(readBuffer[2..])) else old(fpgaFirmwareRev)
    {
      var bytesRead := |readBuffer|;
      var value := 0;
      if bytesRead > 3 {
        value := Swap(FromMemory(readBuffer[bytesRead - 4..]));
      }
      if bytesRead != 6 {
        if bytesRead == 4 {
          assert readBuffer[0..] == readBuffer;
          nonvolatileReg := value;
        }
        if bytesRead == 2 {
          var high: nat, low: nat := readBuffer[0], readBuffer[1];
          fx2FirmwareRev := high * 0x100 + low;
        }
        return;
      }
      var address: nat := readBuffer[1] / 2;
      if address == 0x00 {
        fpgaFirmwareRev := value;
      }
      if address < MAX_OFFSET && readBuffer[0] == UPPER {
        registerStorage := registerStorage[address / 4 := value];
      }
      if address == FCR_OFFSET && readBuffer[0] == 0x00 {
        registerStorage := registerStorage[FCR := value];
      }
      model := Step(model, Completion);
    }
  }

  lemma RunMore(s: State, a: seq<Command>, b: seq<Command>)
    ensures Run(s, Issues(a + b)) == Run(Run(s, Issues(a)), Issues(b))
  {
    RunJoin(s, Issues(a), Issues(b));
    assert Issues(a + b) == Issues(a) + Issues(b);
  }

  lemma RunOneMore(s: State, all: seq<Command>, i: nat)
    requires i < |all|
    ensures Run(s, Issues(all[..i + 1])) == Step(Run(s, Issues(all[..i])), Issue(all[i]))
  {
    RunMore(s, all[..i], [all[i]]);
    RunShort(Run(s, Issues(all[..i])), [all[i]]);
    assert all[..i + 1] == all[..i] + [all[i]];
  }

  lemma RunShort(s: State, commands: seq<Command>)
    ensures |commands| == 0 ==> Run(s, Issues(commands)) == s
    ensures |commands| == 1 ==> Run(s, Issues(commands)) == Step(s, Issue(commands[0]))
    ensures |commands| == 2 ==> Run(s, Issues(commands)) == Step(Step(s, Issue(commands[0])), Issue(commands[1]))
  {
    hide Step;
    var e := Issues(commands);
    if |commands| == 1 {
      assert Run(Step(s, e[0]), e[1..]) == Step(s, e[0]);
    } else if |commands| == 2 {
      assert Run(Step(Step(s, e[0]), e[1]), e[2..]) == Step(Step(s, e[0]), e[1]);
      assert e[1..][1..] == e[2..];
    }
  }

  lemma SetCommandsNext(regs: seq<int>, i: nat)
    requires i < SLOTS <= |regs|
    ensures SetCommands(regs, i + 1) == SetCommands(regs, i) + SlotCommands(regs[i], i)
  {
  }

  lemma NothingAsked(s: State, regs: seq<int>)
    requires SLOTS <= |regs|
    ensures Run(s, Issues(GetCommands(regs, 0))) == s
  {
  }

  lemma GetCommandsNext(s: State, regs: seq<int>, i: nat)
    requires i < SLOTS <= |regs|
    ensures Run(s, Issues(GetCommands(regs, i + 1))) ==
      Run(Run(s, Issues(GetCommands(regs, i))), Issues(GetCommand(regs[i], i)))
    ensures WriteOnly(4 * i) <==> i == CMDR
  {
    RunMore(s, GetCommands(regs, i), GetCommand(regs[i], i));
  }
}
