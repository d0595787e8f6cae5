/** Register access over USB (`src/port.c:520-534`, `753-836`, `879-881`, `src/isr.c:471-499`,
    `src/utils.c:30-52`): the wire format, and the cache of register values kept by read-back.

    Commands wait in a pipe until the device takes them, in order; responses wait until their
    completion routine runs, in order. The main result is that this pipeline does what a machine
    without any pipes would have done, in which every command takes effect when it is issued. */
module Registers {
  import opened CTypes
  import opened Offsets

  const SLOTS: nat := 24
  const CMDR: nat := 5
  const DPLLR: nat := 22
  const FCR: nat := 23

  const UPPER: Byte := 0x80
  const UPDATE_VALUE: int := -2

  datatype Key = Key(offset: Byte, address: Byte)

  datatype Command = Write(key: Key, value: Unsigned) | Read(key: Key)

  // ---- wire format ----

  /** The four bytes in memory of a 32-bit number on a little-endian machine. */
  function InMemory(v: Unsigned): (b: seq<Byte>)
    ensures |b| == 4
  {
    var q1 := v / 0x100;
    var q2 := q1 / 0x100;
    [v % 0x100, q1 % 0x100, q2 % 0x100, q2 / 0x100]
  }

  function FromMemory(b: seq<Byte>): Unsigned
    requires |b| == 4
  {
    var b0: int, b1: int, b2: int, b3: int := b[0], b[1], b[2], b[3];
    b0 + 0x100 * (b1 + 0x100 * (b2 + 0x100 * b3))
  }

  /** The byte swap macro. */
  function Swap(v: Unsigned): Unsigned {
    var b := InMemory(v);
    FromMemory([b[3], b[2], b[1], b[0]])
  }

  lemma MemoryRoundTrip(v: Unsigned)
    ensures FromMemory(InMemory(v)) == v
  {
  }

  lemma DigitRoundTrip(low: nat, high: nat)
    requires low < 0x100
    ensures (low + 0x100 * high) % 0x100 == low && (low + 0x100 * high) / 0x100 == high
  {
  }

  lemma BytesRoundTrip(b: seq<Byte>)
    requires |b| == 4
    ensures InMemory(FromMemory(b)) == b
  {
    var b0: int, b1: int, b2: int, b3: int := b[0], b[1], b[2], b[3];
    DigitRoundTrip(b0, b1 + 0x100 * (b2 + 0x100 * b3));
    DigitRoundTrip(b1, b2 + 0x100 * b3);
    DigitRoundTrip(b2, b3);
  }

  /** A register value travels with its most significant byte first. */
  lemma BigEndian(v: Unsigned)
    ensures var b := InMemory(v); InMemory(Swap(v)) == [b[3], b[2], b[1], b[0]]
    ensures Swap(Swap(v)) == v
  {
    var b := InMemory(v);
    BytesRoundTrip([b[3], b[2], b[1], b[0]]);
    MemoryRoundTrip(v);
    hide FromMemory;
    assert [b[0], b[1], b[2], b[3]] == b;
  }

  /** What the driver makes of four bytes it receives: the first is the most significant. */
  lemma ReceivedValue(b: seq<Byte>)
    requires |b| == 4
    ensures var b0: int, b1: int, b2: int, b3: int := b[0], b[1], b[2], b[3];
      Swap(FromMemory(b)) == 0x100_0000 * b0 + 0x1_0000 * b1 + 0x100 * b2 + b3
  {
    BytesRoundTrip(b);
  }

  const WRITE_REGISTER: Byte := 0x6A
  const READ_WITH_ADDRESS: Byte := 0x6C

  function Shifted(address: Byte): Byte {
    var a: int := address;
    a * 2 % 0x100
  }

  function CommandPacket(c: Command): seq<Byte> {
    match c
    case Write(key, value) => [WRITE_REGISTER, key.offset, Shifted(key.address)] + InMemory(Swap(value))
    case Read(key) => [READ_WITH_ADDRESS, key.offset, Shifted(key.address)]
  }

  /** What the device makes of a command. The value is sent most significant byte first. */
  function Parsed(packet: seq<Byte>): Option<Command> {
    if |packet| == 7 && packet[0] == WRITE_REGISTER then
      Some(Write(Key(packet[1], packet[2] / 2), FromMemory([packet[6], packet[5], packet[4], packet[3]])))
    else if |packet| == 3 && packet[0] == READ_WITH_ADDRESS then
      Some(Read(Key(packet[1], packet[2] / 2)))
    else
      None
  }

  /** The device answers a read with the key and the value, most significant byte first. */
  function ResponsePacket(key: Key, value: Unsigned): (p: seq<Byte>)
    ensures |p| == 6
  {
    var b := InMemory(value);
    [key.offset, Shifted(key.address), b[3], b[2], b[1], b[0]]
  }

  /** The seven address bits that fit in a packet. */
  predicate Fits(key: Key) {
    key.address < 0x80
  }

  lemma CommandRoundTrip(c: Command)
    requires Fits(c.key)
    ensures Parsed(CommandPacket(c)) == Some(c)
  {
    if c.Write? {
      BigEndian(c.value);
      MemoryRoundTrip(c.value);
      hide FromMemory, InMemory, Swap;
      var b := InMemory(c.value);
      var p := CommandPacket(c);
      assert [p[6], p[5], p[4], p[3]] == [b[0], b[1], b[2], b[3]] == b;
    }
  }

  /** The packets byte by byte: the value's most significant byte comes first, the address is
      shifted left by one. */
  lemma PacketBytes(key: Key, v: Unsigned)
    requires Fits(key)
    ensures CommandPacket(Write(key, v)) == [0x6A, key.offset, 2 * key.address] + BigEndianBytes(v)
    ensures CommandPacket(Read(key)) == [0x6C, key.offset, 2 * key.address]
    ensures ResponsePacket(key, v) == [key.offset, 2 * key.address] + BigEndianBytes(v)
  {
    BigEndian(v);
    BigEndianOf(v);
    hide Swap, BigEndianBytes;
  }

  /** The reference: a 32-bit number with its most significant byte first. */
  function BigEndianBytes(v: Unsigned): (b: seq<Byte>)
    ensures |b| == 4
  {
    [v / 0x100_0000, v / 0x1_0000 % 0x100, v / 0x100 % 0x100, v % 0x100]
  }

  lemma BigEndianOf(v: Unsigned)
    ensures var b := InMemory(v); BigEndianBytes(v) == [b[3], b[2], b[1], b[0]]
  {
  }

  // ---- the driver's side of a response ----

  type Storage = s: seq<int> | |s| == SLOTS witness seq(SLOTS, i => -1)

  /** Lines 498 and 499: the lower register space is cached by address, FCR apart. */
  function Stored(storage: Storage, key: Key, value: Unsigned): Storage {
    var a: int := key.address;
    var s := if a < MAX_OFFSET && key.offset == UPPER then storage[a / 4 := value] else storage;
    if a == FCR_OFFSET && key.offset == 0x00 then s[FCR := value] else s
  }

  /** The completion routine on a response of any length. */
  function Completed(storage: Storage, packet: seq<Byte>): Storage {
    if |packet| != 6 then storage
    else Stored(storage, Key(packet[0], packet[1] / 2), Swap(FromMemory(packet[2..])))
  }

  lemma ResponseRoundTrip(storage: Storage, key: Key, value: Unsigned)
    requires Fits(key)
    ensures Completed(storage, ResponsePacket(key, value)) == Stored(storage, key, value)
  {
    var b := InMemory(value);
    assert ResponsePacket(key, value)[2..] == [b[3], b[2], b[1], b[0]];
    MemoryRoundTrip(value);
    BytesRoundTrip([b[3], b[2], b[1], b[0]]);
    assert [b[0], b[1], b[2], b[3]] == b;
  }

  // ---- registers ----

  /** Where register slot `k` of the structure lives in the device. CCR1 and FCR have the same
      address and differ in the offset. */
  function KeyOf(k: nat): Key
    requires k < SLOTS
  {
    if k == FCR then Key(0x00, FCR_OFFSET) else Key(UPPER, 4 * k)
  }

  /** The slots whose registers hold the value last written: not the two FIFO words, not the
      registers that are only read or only written. */
  predicate Plain(k: nat) {
    k == 2 || 7 <= k <= 18 || 21 <= k <= FCR
  }

  predicate PlainKey(key: Key) {
    exists k: nat :: k < SLOTS && Plain(k) && KeyOf(k) == key
  }

  /** The keys commands are issued for. */
  predicate Regular(key: Key) {
    var a: int := key.address;
    a <= 0x5c && a % 4 == 0 && (key.offset == UPPER || key.offset == 0x00)
  }

  lemma KeysDiffer(j: nat, k: nat)
    requires j < SLOTS && k < SLOTS
    ensures KeyOf(k) == if k == 23 then Key(0x00, 0x20) else Key(0x80, 4 * k)
    ensures KeyOf(j) == KeyOf(k) <==> j == k
    ensures Regular(KeyOf(k)) && Fits(KeyOf(k))
  {
  }

  /** A response changes the cache for exactly its own slot, and for DPLLR not at all: its address
      is the limit, which the comparison leaves out. */
  lemma StoredSlot(storage: Storage, key: Key, value: Unsigned, k: nat)
    requires k < 24 && Regular(key)
    ensures Stored(storage, key, value)[k] == if key == KeyOf(k) && k != 22 then value else storage[k]
  {
  }

  // ---- the machine without pipes ----

  type Memory = map<Key, Unsigned>

  function Held(dev: Memory, key: Key): Unsigned {
    if key in dev then dev[key] else 0
  }

  datatype Ideal = Ideal(storage: Storage, dev: Memory)

  /** A command taking effect at once. What a read of a register that is not plain returns is not
      known, nor of interest. */
  function Apply(i: Ideal, c: Command): Ideal {
    match c
    case Write(key, value) => i.(dev := i.dev[key := value])
    case Read(key) => if PlainKey(key) then i.(storage := Stored(i.storage, key, Held(i.dev, key))) else i
  }

  function Effect(i: Ideal, commands: seq<Command>): Ideal {
    if commands == [] then i
    else Apply(Effect(i, commands[..|commands| - 1]), commands[|commands| - 1])
  }

  /** Two states hold the same in the plain registers and their cache. */
  ghost predicate Agree(a: Ideal, b: Ideal) {
    a.dev == b.dev && forall k: nat :: Plain(k) ==> a.storage[k] == b.storage[k]
  }

  // ---- the machine with pipes ----

  /** Driver and device, and the history: the commands issued, and those the device has taken. */
  datatype State = State(storage: Storage, dev: Memory, commands: seq<seq<Byte>>, responses: seq<seq<Byte>>,
                         issued: seq<Command>, taken: seq<Command>)

  datatype Event =
    | Issue(command: Command)
    | Device(sample: Unsigned)
    | Completion

  function Answer(dev: Memory, key: Key, sample: Unsigned): Unsigned {
    if PlainKey(key) then Held(dev, key) else sample
  }

  function Step(s: State, e: Event): State {
    match e
    case Issue(c) => s.(commands := s.commands + [CommandPacket(c)], issued := s.issued + [c])
    case Device(sample) =>
      if s.commands == [] then s
      else
        var rest := s.(commands := s.commands[1..]);
        (match Parsed(s.commands[0])
         case Some(Write(key, value)) =>
           rest.(dev := s.dev[key := value], taken := s.taken + [Write(key, value)])
         case Some(Read(key)) =>
           rest.(responses := s.responses + [ResponsePacket(key, Answer(s.dev, key, sample))],
                 taken := s.taken + [Read(key)])
         case None => rest)
    case Completion =>
      if s.responses == [] then s
      else s.(storage := Completed(s.storage, s.responses[0]), responses := s.responses[1..])
  }

  predicate Allowed(e: Event) {
    e.Issue? ==> Regular(e.command.key)
  }

  function Run(s: State, events: seq<Event>): State
    decreases |events|
  {
    if events == [] then s else Run(Step(s, events[0]), events[1..])
  }

  function Start(i: Ideal): State {
    State(i.storage, i.dev, [], [], [], [])
  }

  predicate Quiescent(s: State) {
    s.commands == [] && s.responses == []
  }

  // ---- settling ----

  function SettleResponses(storage: Storage, responses: seq<seq<Byte>>): Storage
    decreases |responses|
  {
    if responses == [] then storage else SettleResponses(Completed(storage, responses[0]), responses[1..])
  }

  function SettleCommands(i: Ideal, commands: seq<seq<Byte>>): Ideal
    decreases |commands|
  {
    if commands == [] then i
    else match Parsed(commands[0])
      case Some(c) => SettleCommands(Apply(i, c), commands[1..])
      case None => SettleCommands(i, commands[1..])
  }

  /** What is left once everything in the pipes has been dealt with. */
  function Settled(s: State): Ideal {
    SettleCommands(Ideal(SettleResponses(s.storage, s.responses), s.dev), s.commands)
  }

  predicate Sound(packet: seq<Byte>) {
    Parsed(packet).Some? && Regular(Parsed(packet).value.key)
  }

  ghost predicate Inv(s: State, start: Ideal) {
    && (forall p :: p in s.commands ==> Sound(p))
    && Agree(Settled(s), Effect(start, s.issued))
  }

  lemma {:induction false} SettleResponsesAppend(storage: Storage, responses: seq<seq<Byte>>, p: seq<Byte>)
    ensures SettleResponses(storage, responses + [p]) == Completed(SettleResponses(storage, responses), p)
    decreases |responses|
  {
    hide Completed;
    if responses != [] {
      SettleResponsesAppend(Completed(storage, responses[0]), responses[1..], p);
      assert (responses + [p])[1..] == responses[1..] + [p];
    } else {
      assert (responses + [p])[1..] == [];
    }
  }

  lemma {:induction false} SettleCommandsAppend(i: Ideal, commands: seq<seq<Byte>>, c: Command)
    requires Regular(c.key)
    ensures SettleCommands(i, commands + [CommandPacket(c)]) == Apply(SettleCommands(i, commands), c)
    decreases |commands|
  {
    CommandRoundTrip(c);
    hide Parsed, CommandPacket, Apply;
    var all := commands + [CommandPacket(c)];
    if commands != [] {
      assert all[1..] == commands[1..] + [CommandPacket(c)];
      match Parsed(commands[0])
      case Some(d) => SettleCommandsAppend(Apply(i, d), commands[1..], c);
      case None => SettleCommandsAppend(i, commands[1..], c);
    } else {
      assert all[1..] == [];
    }
  }

  lemma ApplyAgrees(a: Ideal, b: Ideal, c: Command)
    requires Agree(a, b) && Regular(c.key)
    ensures Agree(Apply(a, c), Apply(b, c))
  {
    if c.Read? && PlainKey(c.key) {
      forall k: nat | Plain(k) ensures Apply(a, c).storage[k] == Apply(b, c).storage[k] {
        StoredSlot(a.storage, c.key, Held(a.dev, c.key), k);
        StoredSlot(b.storage, c.key, Held(b.dev, c.key), k);
      }
    }
  }

  lemma {:induction false} SettleCommandsAgree(a: Ideal, b: Ideal, commands: seq<seq<Byte>>)
    requires Agree(a, b) && forall p :: p in commands ==> Sound(p)
    ensures Agree(SettleCommands(a, commands), SettleCommands(b, commands))
    decreases |commands|
  {
    if commands != [] {
      assert Sound(commands[0]);
      var c := Parsed(commands[0]).value;
      hide Parsed, Apply, Agree;
      ApplyAgrees(a, b, c);
      SettleCommandsAgree(Apply(a, c), Apply(b, c), commands[1..]);
    }
  }

  /** An answer to a read makes the change the read would have made at once. */
  lemma AnswerAgrees(i: Ideal, key: Key, sample: Unsigned)
    requires Regular(key)
    ensures var answer := ResponsePacket(key, Answer(i.dev, key, sample));
      Agree(Ideal(Completed(i.storage, answer), i.dev), Apply(i, Read(key)))
  {
    var v := Answer(i.dev, key, sample);
    ResponseRoundTrip(i.storage, key, v);
    forall k: nat | Plain(k) ensures Stored(i.storage, key, v)[k] == Apply(i, Read(key)).storage[k] {
      StoredSlot(i.storage, key, v, k);
    }
  }

  lemma {:induction false} EffectOne(i: Ideal, commands: seq<Command>, c: Command)
    ensures Effect(i, commands + [c]) == Apply(Effect(i, commands), c)
  {
    assert (commands + [c])[..|commands|] == commands;
  }

  lemma StepKeepsInv(s: State, e: Event, start: Ideal)
    requires Inv(s, start) && Allowed(e)
    ensures Inv(Step(s, e), start)
  {
    var i := Ideal(SettleResponses(s.storage, s.responses), s.dev);
    match e
    case Issue(c) =>
      CommandRoundTrip(c);
      SettleCommandsAppend(i, s.commands, c);
      EffectOne(start, s.issued, c);
      ApplyAgrees(Settled(s), Effect(start, s.issued), c);
      hide Apply, Agree, CommandPacket, Parsed, Effect;
    case Device(sample) =>
      if s.commands != [] {
        assert Sound(s.commands[0]);
        match Parsed(s.commands[0]).value {
          case Write(key, value) =>
          case Read(key) =>
            var r := ResponsePacket(key, Answer(s.dev, key, sample));
            SettleResponsesAppend(s.storage, s.responses, r);
            AnswerAgrees(i, key, sample);
            hide Answer, ResponsePacket, Parsed, Apply, Completed, Regular, PlainKey;
            SettleCommandsAgree(Ideal(Completed(i.storage, r), s.dev), Apply(i, Read(key)), s.commands[1..]);
        }
      }
    case Completion =>
  }

  lemma {:induction false} RunKeepsInv(s: State, events: seq<Event>, start: Ideal)
    requires Inv(s, start) && forall e :: e in events ==> Allowed(e)
    ensures Inv(Run(s, events), start)
    decreases |events|
  {
    if events != [] {
      hide Inv, Step, Allowed;
      assert Allowed(events[0]);
      StepKeepsInv(s, events[0], start);
      RunKeepsInv(Step(s, events[0]), events[1..], start);
    }
  }

  /** The pipeline refines the machine without pipes: whatever order commands, answers and
      completions came in, once nothing is outstanding the registers and their cache are as if
      each command had taken effect when it was issued. */
  lemma Refines(start: Ideal, events: seq<Event>)
    requires forall e :: e in events ==> Allowed(e)
    ensures
      var s := Run(Start(start), events);
      Quiescent(s) ==> Agree(Ideal(s.storage, s.dev), Effect(start, s.issued))
  {
    RunKeepsInv(Start(start), events, start);
  }

  // ---- order ----

  /** The commands still on their way to the device. */
  function Waiting(commands: seq<seq<Byte>>): seq<Command>
    decreases |commands|
  {
    if commands == [] then []
    else (match Parsed(commands[0]) case Some(c) => [c] case None => []) + Waiting(commands[1..])
  }

  ghost predicate InOrder(s: State) {
    s.issued == s.taken + Waiting(s.commands)
  }

  lemma {:induction false} WaitingAppend(commands: seq<seq<Byte>>, c: Command)
    requires Regular(c.key)
    ensures Waiting(commands + [CommandPacket(c)]) == Waiting(commands) + [c]
    decreases |commands|
  {
    CommandRoundTrip(c);
    hide Parsed, CommandPacket;
    var all := commands + [CommandPacket(c)];
    if commands == [] {
      assert all[1..] == [];
    } else {
      WaitingAppend(commands[1..], c);
      assert all[1..] == commands[1..] + [CommandPacket(c)];
    }
  }

  lemma {:induction false} RunKeepsOrder(s: State, events: seq<Event>)
    requires InOrder(s) && forall e :: e in events ==> Allowed(e)
    ensures InOrder(Run(s, events))
    decreases |events|
  {
    if events != [] {
      assert Allowed(events[0]);
      if events[0].Issue? {
        WaitingAppend(s.commands, events[0].command);
      }
      hide Parsed, CommandPacket, ResponsePacket, Answer, Completed;
      RunKeepsOrder(Step(s, events[0]), events[1..]);
    }
  }

  /** The device takes the commands in the order they were issued. */
  lemma TakenInOrder(start: Ideal, events: seq<Event>)
    requires forall e :: e in events ==> Allowed(e)
    ensures
      var s := Run(Start(start), events);
      s.taken <= s.issued && (s.commands == [] ==> s.taken == s.issued)
  {
    RunKeepsOrder(Start(start), events);
  }

  // ---- which registers are coherent ----

  /** The last value written to a register. */
  function LastWritten(before: Unsigned, commands: seq<Command>, key: Key): Unsigned {
    if commands == [] then before
    else
      var c := commands[|commands| - 1];
      if c.Write? && c.key == key then c.value else LastWritten(before, commands[..|commands| - 1], key)
  }

  /** The register was read, and not written after that. */
  predicate ReadBack(commands: seq<Command>, key: Key) {
    commands != [] &&
    var c := commands[|commands| - 1];
    if c.key == key then c.Read? else ReadBack(commands[..|commands| - 1], key)
  }

  predicate AllRegular(commands: seq<Command>) {
    forall c :: c in commands ==> Regular(c.key)
  }

  lemma {:induction false} EffectHeld(start: Ideal, commands: seq<Command>, key: Key)
    ensures Held(Effect(start, commands).dev, key) == LastWritten(Held(start.dev, key), commands, key)
  {
    if commands != [] {
      EffectHeld(start, commands[..|commands| - 1], key);
    }
  }

  lemma {:induction false} EffectCached(start: Ideal, commands: seq<Command>, k: nat)
    requires Plain(k) && AllRegular(commands)
    ensures k == DPLLR ==> Effect(start, commands).storage[k] == start.storage[k]
    ensures k != DPLLR && ReadBack(commands, KeyOf(k)) ==>
      Effect(start, commands).storage[k] == Held(Effect(start, commands).dev, KeyOf(k))
  {
    if commands != [] {
      var front, c := commands[..|commands| - 1], commands[|commands| - 1];
      EffectCached(start, front, k);
      assert Regular(c.key);
      if c.Read? && PlainKey(c.key) {
        StoredSlot(Effect(start, front).storage, c.key, Held(Effect(start, front).dev, c.key), k);
      } else if c.Read? {
        assert c.key != KeyOf(k);
      }
      hide Stored, Regular, PlainKey, Held, KeyOf;
    }
  }

  lemma {:induction false} IssuedRegular(s: State, events: seq<Event>)
    requires AllRegular(s.issued) && forall e :: e in events ==> Allowed(e)
    ensures AllRegular(Run(s, events).issued)
    decreases |events|
  {
    if events != [] {
      assert Allowed(events[0]);
      IssuedRegular(Step(s, events[0]), events[1..]);
    }
  }

  /** Coherence: once nothing is outstanding, every register holds the value last written to it,
      and every register that was read back after that is cached with the same value. The one
      exception is DPLLR, whose cached value no response ever changes. */
  lemma Coherent(start: Ideal, events: seq<Event>, k: nat)
    requires Plain(k) && (forall e :: e in events ==> Allowed(e)) && Quiescent(Run(Start(start), events))
    ensures
      var s := Run(Start(start), events);
      && Held(s.dev, KeyOf(k)) == LastWritten(Held(start.dev, KeyOf(k)), s.issued, KeyOf(k))
      && (k != DPLLR && ReadBack(s.issued, KeyOf(k)) ==> s.storage[k] == Held(s.dev, KeyOf(k)))
      && (k == DPLLR ==> s.storage[k] == start.storage[k])
  {
    var s := Run(Start(start), events);
    Refines(start, events);
    IssuedRegular(Start(start), events);
    EffectHeld(start, s.issued, KeyOf(k));
    EffectCached(start, s.issued, k);
    hide Run, Effect, LastWritten, ReadBack, Held, KeyOf, AllRegular;
  }

  // ---- the calls ----

  predicate ReadOnly(offset: nat) {
    offset in {FIFO_BC_OFFSET, FIFO_FC_OFFSET, STAR_OFFSET, VSTR_OFFSET, ISR_OFFSET}
  }

  predicate WriteOnly(offset: nat) {
    offset == CMDR_OFFSET
  }

  /** What setting the registers issues for one slot. */
  function SlotCommands(value: int, i: nat): seq<Command>
    requires i < SLOTS
  {
    if ReadOnly(4 * i) || value < 0 then []
    else [Write(KeyOf(i), value % U32)] + (if WriteOnly(4 * i) then [] else [Read(KeyOf(i))])
  }

  /** What it issues for the first `n` slots. */
  function SetCommands(regs: seq<int>, n: nat): seq<Command>
    requires n <= SLOTS <= |regs|
  {
    if n == 0 then [] else SetCommands(regs, n - 1) + SlotCommands(regs[n - 1], n - 1)
  }

  function GetCommand(value: int, i: nat): seq<Command>
    requires i < SLOTS
  {
    if value != UPDATE_VALUE || WriteOnly(4 * i) then [] else [Read(Key(UPPER, 4 * i))]
  }

  /** Getting the registers reads every slot marked for update, at its address in the lower
      register space; for FCR that is not its address. */
  function GetCommands(regs: seq<int>, n: nat): seq<Command>
    requires n <= SLOTS <= |regs|
  {
    if n == 0 then [] else GetCommands(regs, n - 1) + GetCommand(regs[n - 1], n - 1)
  }

  lemma CommandsAppend(before: Unsigned, a: seq<Command>, c: Command, key: Key)
    ensures LastWritten(before, a + [c], key)
      == if c.Write? && c.key == key then c.value else LastWritten(before, a, key)
    ensures ReadBack(a + [c], key) == if c.key == key then c.Read? else ReadBack(a, key)
  {
    assert (a + [c])[..|a|] == a;
  }

  /** More commands that set a register and read it back, or leave it alone. */
  predicate Sets(before: Unsigned, issued: seq<Command>, all: seq<Command>, key: Key, written: bool, value: int) {
    if written then LastWritten(before, all, key) == value % U32 && ReadBack(all, key)
    else
      && LastWritten(before, all, key) == LastWritten(before, issued, key)
      && (ReadBack(all, key) <==> ReadBack(issued, key))
  }

  /** Setting the registers writes exactly the registers with a value that is not negative, and
      leaves each of them read back. */
  lemma {:induction false} SetReadsBack(before: Unsigned, issued: seq<Command>, regs: seq<int>, n: nat, k: nat)
    requires n <= SLOTS <= |regs| && Plain(k)
    ensures Sets(before, issued, issued + SetCommands(regs, n), KeyOf(k), k < n && regs[k] >= 0, regs[k])
  {
    hide LastWritten, ReadBack, KeyOf, SlotCommands, Plain;
    if n == 0 {
      assert issued + SetCommands(regs, 0) == issued;
    } else {
      var front := issued + SetCommands(regs, n - 1);
      assert issued + SetCommands(regs, n) == front + SlotCommands(regs[n - 1], n - 1);
      hide SetCommands;
      SetReadsBack(before, issued, regs, n - 1, k);
      SlotReadsBack(before, front, regs[n - 1], n - 1, k);
    }
  }

  lemma SlotReadsBack(before: Unsigned, issued: seq<Command>, value: int, i: nat, k: nat)
    requires i < SLOTS && Plain(k)
    ensures Sets(before, issued, issued + SlotCommands(value, i), KeyOf(k), k == i && value >= 0, value)
  {
    KeysDiffer(i, k);
    if ReadOnly(4 * i) || value < 0 {
      assert issued + SlotCommands(value, i) == issued;
    } else {
      var w := Write(KeyOf(i), value % U32);
      CommandsAppend(before, issued, w, KeyOf(k));
      if WriteOnly(4 * i) {
        assert issued + SlotCommands(value, i) == issued + [w];
      } else {
        CommandsAppend(before, issued + [w], Read(KeyOf(i)), KeyOf(k));
        assert issued + SlotCommands(value, i) == issued + [w] + [Read(KeyOf(i))];
      }
      hide LastWritten, ReadBack, KeyOf, SlotCommands;
    }
  }

  /** Getting the registers writes nothing, and reads back exactly the marked registers other than
      FCR. */
  lemma {:induction false} GetReadsBack(before: Unsigned, issued: seq<Command>, regs: seq<int>, n: nat, k: nat)
    requires n <= SLOTS <= |regs| && Plain(k)
    ensures
      var all := issued + GetCommands(regs, n);
      && LastWritten(before, all, KeyOf(k)) == LastWritten(before, issued, KeyOf(k))
      && (ReadBack(all, KeyOf(k)) <==>
           (ReadBack(issued, KeyOf(k)) || (k < n && regs[k] == UPDATE_VALUE && k != FCR)))
  {
    hide LastWritten, ReadBack, KeyOf, Plain, GetCommand;
    if n == 0 {
      assert issued + GetCommands(regs, 0) == issued;
    } else {
      var all, i := issued + GetCommands(regs, n - 1), n - 1;
      GetCommandsSplit(issued, regs, i);
      GetReadsBack(before, issued, regs, n - 1, k);
      GetReadsBackSlot(before, all, regs[i], i, k);
    }
  }

  lemma GetCommandsSplit(issued: seq<Command>, regs: seq<int>, i: nat)
    requires i < SLOTS <= |regs|
    ensures issued + GetCommands(regs, i + 1) == issued + GetCommands(regs, i) + GetCommand(regs[i], i)
  {
  }

  lemma GetReadsBackSlot(before: Unsigned, issued: seq<Command>, value: int, i: nat, k: nat)
    requires i < SLOTS && Plain(k)
    ensures
      var all := issued + GetCommand(value, i);
      && LastWritten(before, all, KeyOf(k)) == LastWritten(before, issued, KeyOf(k))
      && (ReadBack(all, KeyOf(k)) <==> (ReadBack(issued, KeyOf(k)) || (k == i && value == UPDATE_VALUE && k != FCR)))
  {
    hide LastWritten, ReadBack;
    if GetCommand(value, i) == [] {
      assert issued + [] == issued;
    } else {
      CommandsAppend(before, issued, Read(Key(UPPER, 4 * i)), KeyOf(k));
    }
  }

  /** The commands for one register, in order. */
  function On(commands: seq<Command>, key: Key): seq<Command> {
    if commands == [] then []
    else On(commands[..|commands| - 1], key)
         + if commands[|commands| - 1].key == key then [commands[|commands| - 1]] else []
  }

  lemma {:induction false} OnJoin(a: seq<Command>, b: seq<Command>, key: Key)
    ensures On(a + b, key) == On(a, key) + On(b, key)
  {
    if b == [] {
      assert a + b == a;
    } else {
      var k := |b| - 1;
      OnJoin(a, b[..k], key);
      assert (a + b)[..|a + b| - 1] == a + b[..k];
    }
  }

  lemma OnOne(c: Command, key: Key)
    ensures On([c], key) == if c.key == key then [c] else []
  {
    assert On([c][..0], key) == [];
  }

  /** The reference: what setting the registers sends to slot `k`. The FIFO counts, STAR, VSTR and
      ISR are skipped, and CMDR, slot 5, is written but not read back. */
  function Expected(value: int, k: nat): seq<Command>
    requires k < 24
  {
    var key := if k == 23 then Key(0x00, 0x20) else Key(0x80, 4 * k);
    if value < 0 || k in {3, 4, 6, 19, 20} then []
    else if k == 5 then [Write(key, value % 0x1_0000_0000)]
    else [Write(key, value % 0x1_0000_0000), Read(key)]
  }

  lemma SlotExpected(value: int, i: nat, k: nat)
    requires i < SLOTS && k < SLOTS
    ensures On(SlotCommands(value, i), KeyOf(k)) == if i == k then Expected(value, k) else []
  {
    hide On;
    KeysDiffer(i, k);
    KeysDiffer(k, i);
    SlotIsExpected(value, i);
    hide SlotCommands, KeyOf, Expected;
    var commands := SlotCommands(value, i);
    if commands == [] {
      OnNone(KeyOf(k));
    } else {
      OnOne(commands[0], KeyOf(k));
      if |commands| == 2 {
        OnOne(commands[1], KeyOf(k));
        OnJoin([commands[0]], [commands[1]], KeyOf(k));
      }
      assert commands == [commands[0]] + commands[1..];
    }
  }

  lemma SlotIsExpected(value: int, i: nat)
    requires i < SLOTS
    ensures SlotCommands(value, i) == Expected(value, i)
    ensures |Expected(value, i)| <= 2
    ensures forall c :: c in SlotCommands(value, i) ==> c.key == KeyOf(i)
  {
  }

  lemma OnNone(key: Key)
    ensures On([], key) == []
  {
  }

  lemma {:induction false} SetCommandsUpTo(regs: seq<int>, n: nat, k: nat)
    requires n <= SLOTS <= |regs| && k < SLOTS
    ensures On(SetCommands(regs, n), KeyOf(k)) == if k < n then Expected(regs[k], k) else []
  {
    hide KeyOf, SlotCommands, Expected;
    if n > 0 {
      SetCommandsUpTo(regs, n - 1, k);
      SlotExpected(regs[n - 1], n - 1, k);
      OnJoin(SetCommands(regs, n - 1), SlotCommands(regs[n - 1], n - 1), KeyOf(k));
      hide On;
    }
  }

  /** Setting the registers sends to each of the 24 slots exactly one write of a value that is not
      negative, unless the slot is only read, and after it exactly one read, unless it is only
      written. */
  lemma SetCommandsExactly(regs: seq<int>, k: nat)
    requires |regs| == 24 && k < 24
    ensures On(SetCommands(regs, 24), if k == 23 then Key(0x00, 0x20) else Key(0x80, 4 * k)) == Expected(regs[k], k)
  {
    hide On, SetCommands, Expected;
    KeysDiffer(k, k);
    SetCommandsUpTo(regs, SLOTS, k);
  }

  /** Getting the registers reads each marked slot once at its place in the lower register space,
      CMDR apart; FCR itself is never read. */
  lemma GetCommandsExactly(regs: seq<int>, k: nat)
    requires |regs| == 24 && k < 24
    ensures On(GetCommands(regs, 24), Key(0x80, 4 * k))
      == if regs[k] == -2 && k != 5 then [Read(Key(0x80, 4 * k))] else []
    ensures On(GetCommands(regs, 24), Key(0x00, 0x20)) == []
  {
    hide On, GetCommands;
    GetCommandsUpTo(regs, 24, k);
  }

  lemma {:induction false} GetCommandsUpTo(regs: seq<int>, n: nat, k: nat)
    requires n <= 24 == |regs| && k < 24
    ensures On(GetCommands(regs, n), Key(0x80, 4 * k))
      == if k < n && regs[k] == -2 && k != 5 then [Read(Key(0x80, 4 * k))] else []
    ensures On(GetCommands(regs, n), Key(0x00, 0x20)) == []
  {
    if n > 0 {
      GetCommandsUpTo(regs, n - 1, k);
      GetSlot(regs[n - 1], n - 1, k);
      OnJoin(GetCommands(regs, n - 1), GetCommand(regs[n - 1], n - 1), Key(0x80, 4 * k));
      OnJoin(GetCommands(regs, n - 1), GetCommand(regs[n - 1], n - 1), Key(0x00, 0x20));
      hide On, GetCommand;
    } else {
      OnNone(Key(0x80, 4 * k));
      OnNone(Key(0x00, 0x20));
    }
  }

  lemma GetSlot(value: int, i: nat, k: nat)
    requires i < 24 && k < 24
    ensures On(GetCommand(value, i), Key(0x80, 4 * k))
      == if k == i && value == -2 && k != 5 then [Read(Key(0x80, 4 * k))] else []
    ensures On(GetCommand(value, i), Key(0x00, 0x20)) == []
  {
    hide On;
    if GetCommand(value, i) == [] {
      OnNone(Key(0x80, 4 * k));
      OnNone(Key(0x00, 0x20));
    } else {
      OnOne(Read(Key(0x80, 4 * i)), Key(0x80, 4 * k));
      OnOne(Read(Key(0x80, 4 * i)), Key(0x00, 0x20));
    }
  }

  /** Registers are set in the order of their slots. */
  lemma {:induction false} SetInOrder(regs: seq<int>, n: nat, i: nat, j: nat, p: nat, q: nat)
    requires n <= SLOTS <= |regs| && i < j < |SetCommands(regs, n)| && p < SLOTS && q < SLOTS
    requires SetCommands(regs, n)[i].key == KeyOf(p) && SetCommands(regs, n)[j].key == KeyOf(q)
    ensures p <= q < n
  {
    hide KeyOf, SlotCommands;
    var front, last := SetCommands(regs, n - 1), SlotCommands(regs[n - 1], n - 1);
    SlotIsExpected(regs[n - 1], n - 1);
    assert SetCommands(regs, n) == front + last;
    hide SetCommands, Expected;
    KeysDiffer(p, n - 1);
    KeysDiffer(q, n - 1);
    if j < |front| {
      SetInOrder(regs, n - 1, i, j, p, q);
    } else {
      assert last[j - |front|] in last;
      if i < |front| {
        SlotBelow(regs, n - 1, i, p);
      } else {
        assert last[i - |front|] in last;
      }
    }
  }

  lemma {:induction false} SlotBelow(regs: seq<int>, n: nat, i: nat, p: nat)
    requires n <= SLOTS <= |regs| && i < |SetCommands(regs, n)| && p < SLOTS
    requires SetCommands(regs, n)[i].key == KeyOf(p)
    ensures p < n
  {
    hide KeyOf, SlotCommands;
    var front, last := SetCommands(regs, n - 1), SlotCommands(regs[n - 1], n - 1);
    SlotIsExpected(regs[n - 1], n - 1);
    assert SetCommands(regs, n) == front + last;
    hide SetCommands, Expected;
    KeysDiffer(p, n - 1);
    if i < |front| {
      SlotBelow(regs, n - 1, i, p);
    } else {
      assert last[i - |front|] in last;
    }
  }

  /** The writes of a clock update, all to FCR and without read-back. */
  function FcrWrites(values: seq<Unsigned>): seq<Command> {
    seq(|values|, i requires 0 <= i < |values| => Write(KeyOf(FCR), values[i]))
  }

  function Issues(commands: seq<Command>): seq<Event> {
    seq(|commands|, i requires 0 <= i < |commands| => Issue(commands[i]))
  }

  predicate OnlyDrains(events: seq<Event>) {
    forall e :: e in events ==> !e.Issue?
  }

  lemma {:induction false} RunJoin(s: State, a: seq<Event>, b: seq<Event>)
    ensures Run(s, a + b) == Run(Run(s, a), b)
    decreases |a|
  {
    hide Step;
    if a == [] {
      assert a + b == b;
    } else {
      RunJoin(Step(s, a[0]), a[1..], b);
      assert (a + b)[1..] == a[1..] + b;
    }
  }

  lemma {:induction false} IssuesIssue(s: State, commands: seq<Command>)
    ensures Run(s, Issues(commands)).issued == s.issued + commands
    decreases |commands|
  {
    if commands != [] {
      IssuesIssue(Step(s, Issue(commands[0])), commands[1..]);
      assert Issues(commands)[1..] == Issues(commands[1..]);
      assert [commands[0]] + commands[1..] == commands;
    }
  }

  lemma {:induction false} DrainsKeepIssued(s: State, events: seq<Event>)
    requires OnlyDrains(events)
    ensures Run(s, events).issued == s.issued
    decreases |events|
  {
    if events != [] {
      DrainsKeepIssued(Step(s, events[0]), events[1..]);
    }
  }

  /** A history, then one call, then no more calls until nothing is outstanding. */
  lemma AfterCall(start: Ideal, events: seq<Event>, commands: seq<Command>, later: seq<Event>)
    requires (forall e :: e in events ==> Allowed(e)) && AllRegular(commands) && OnlyDrains(later)
    ensures
      var s := Run(Start(start), events);
      var all := events + Issues(commands) + later;
      && (forall e :: e in all ==> Allowed(e))
      && Run(Start(start), all) == Run(Run(s, Issues(commands)), later)
      && Run(Start(start), all).issued == s.issued + commands
  {
    var s := Run(Start(start), events);
    RunJoin(Start(start), events + Issues(commands), later);
    RunJoin(Start(start), events, Issues(commands));
    IssuesIssue(s, commands);
    DrainsKeepIssued(Run(s, Issues(commands)), later);
    hide Run;
  }

  /** No read-only register is ever written. */
  predicate Proper(c: Command) {
    && Regular(c.key)
    && (c.Write? ==> forall k: nat :: k < SLOTS && ReadOnly(4 * k) ==> c.key != KeyOf(k))
  }

  lemma SlotProper(value: int, i: nat, c: Command)
    requires i < SLOTS && c in SlotCommands(value, i)
    ensures Proper(c)
  {
    forall k: nat | k < SLOTS ensures KeyOf(k) == KeyOf(i) <==> k == i {
      KeysDiffer(i, k);
    }
  }

  lemma {:induction false} SetCommandsProper(regs: seq<int>, n: nat)
    requires n <= SLOTS <= |regs|
    ensures forall c :: c in SetCommands(regs, n) ==> Proper(c)
  {
    if n > 0 {
      hide Proper, SlotCommands;
      assert SetCommands(regs, n) == SetCommands(regs, n - 1) + SlotCommands(regs[n - 1], n - 1);
      hide SetCommands;
      SetCommandsProper(regs, n - 1);
      forall c | c in SlotCommands(regs[n - 1], n - 1) ensures Proper(c) {
        SlotProper(regs[n - 1], n - 1, c);
      }
    }
  }

  /** Setting the registers, after any history: once nothing is outstanding, every plain register
      that was set holds its new value in the device, and, but for DPLLR, in the cache. */
  lemma SetRegistersCoherent(start: Ideal, events: seq<Event>, regs: seq<int>, later: seq<Event>, k: nat)
    requires |regs| == SLOTS && Plain(k) && regs[k] >= 0
    requires (forall e :: e in events ==> Allowed(e)) && OnlyDrains(later)
    requires Quiescent(Run(Run(Run(Start(start), events), Issues(SetCommands(regs, SLOTS))), later))
    ensures
      var t := Run(Run(Run(Start(start), events), Issues(SetCommands(regs, SLOTS))), later);
      && Held(t.dev, KeyOf(k)) == regs[k] % U32
      && t.storage[k] == if k != DPLLR then regs[k] % U32 else start.storage[k]
  {
    var commands := SetCommands(regs, SLOTS);
    SetCommandsProper(regs, SLOTS);
    assert AllRegular(commands);
    AfterCall(start, events, commands, later);
    Coherent(start, events + Issues(commands) + later, k);
    SetReadsBack(Held(start.dev, KeyOf(k)), Run(Start(start), events).issued, regs, SLOTS, k);
    hide Run, LastWritten, ReadBack, Held, KeyOf, SetCommands, AllRegular, Issues;
  }

  lemma {:induction false} FcrWritten(start: Ideal, before: Unsigned, issued: seq<Command>, values: seq<Unsigned>)
    requires values != []
    ensures
      var all := issued + FcrWrites(values);
      && LastWritten(before, all, KeyOf(FCR)) == values[|values| - 1]
      && Effect(start, all).storage == Effect(start, issued).storage
    decreases |values|
  {
    var n := |values| - 1;
    var front, c := issued + FcrWrites(values[..n]), Write(KeyOf(FCR), values[n]);
    assert issued + FcrWrites(values) == front + [c];
    EffectOne(start, front, c);
    CommandsAppend(before, front, c, KeyOf(FCR));
    if n > 0 {
      FcrWritten(start, before, issued, values[..n]);
    } else {
      assert front == issued;
    }
  }

  /** A clock update ends by writing back the FCR value that was cached when it began, as 32 bits,
      and reads nothing back. It leaves FCR coherent if and only if that is the value the cache is
      going to settle to. */
  lemma ClockUpdateCoherent(start: Ideal, events: seq<Event>, values: seq<Unsigned>, later: seq<Event>)
    requires (forall e :: e in events ==> Allowed(e)) && OnlyDrains(later)
    requires values != [] && values[|values| - 1] == Run(Start(start), events).storage[FCR] % U32
    requires Quiescent(Run(Run(Run(Start(start), events), Issues(FcrWrites(values))), later))
    ensures
      var s := Run(Start(start), events);
      var t := Run(Run(s, Issues(FcrWrites(values))), later);
      && Held(t.dev, KeyOf(FCR)) == s.storage[FCR] % U32
      && t.storage[FCR] == Settled(s).storage[FCR]
      && (t.storage[FCR] == Held(t.dev, KeyOf(FCR)) <==> s.storage[FCR] % U32 == Settled(s).storage[FCR])
  {
    var s := Run(Start(start), events);
    var commands := FcrWrites(values);
    var all := events + Issues(commands) + later;
    KeysDiffer(FCR, FCR);
    assert AllRegular(commands);
    AfterCall(start, events, commands, later);
    RunKeepsInv(Start(start), events, start);
    Refines(start, all);
    Coherent(start, all, FCR);
    FcrWritten(start, Held(start.dev, KeyOf(FCR)), s.issued, values);
    hide Run, Effect, LastWritten, ReadBack, KeyOf, AllRegular, Issues, FcrWrites, SettleCommands, SettleResponses;
  }

  predicate AnswersFcr(packet: seq<Byte>) {
    |packet| == 6 && Key(packet[0], packet[1] / 2) == KeyOf(FCR)
  }

  predicate AsksFcr(packet: seq<Byte>) {
    Parsed(packet) == Some(Read(KeyOf(FCR)))
  }

  /** Neither a read of FCR nor an answer to one is under way. */
  predicate NoFcrRead(s: State) {
    (forall p :: p in s.commands ==> !AsksFcr(p)) && (forall p :: p in s.responses ==> !AnswersFcr(p))
  }

  lemma StoredFcr(storage: Storage, key: Key, value: Unsigned)
    ensures Stored(storage, key, value)[FCR] == if key == KeyOf(FCR) then value else storage[FCR]
  {
  }

  lemma {:induction false} ResponsesKeepFcr(storage: Storage, responses: seq<seq<Byte>>)
    requires forall p :: p in responses ==> !AnswersFcr(p)
    ensures SettleResponses(storage, responses)[FCR] == storage[FCR]
    decreases |responses|
  {
    if responses != [] {
      var p := responses[0];
      assert !AnswersFcr(p);
      assert Completed(storage, p)[FCR] == storage[FCR] by {
        if |p| == 6 {
          StoredFcr(storage, Key(p[0], p[1] / 2), Swap(FromMemory(p[2..])));
        }
      }
      hide Completed, AnswersFcr;
      ResponsesKeepFcr(Completed(storage, p), responses[1..]);
    }
  }

  lemma {:induction false} CommandsKeepFcr(i: Ideal, commands: seq<seq<Byte>>)
    requires forall p :: p in commands ==> !AsksFcr(p)
    ensures SettleCommands(i, commands).storage[FCR] == i.storage[FCR]
    decreases |commands|
  {
    if commands != [] {
      assert !AsksFcr(commands[0]);
      match Parsed(commands[0])
      case Some(c) =>
        if c.Read? {
          StoredFcr(i.storage, c.key, Held(i.dev, c.key));
        }
        hide Parsed, AsksFcr;
        CommandsKeepFcr(Apply(i, c), commands[1..]);
      case None =>
        CommandsKeepFcr(i, commands[1..]);
    }
  }

  /** What a caller can check before a clock update: with no read of FCR under way, it leaves FCR
      coherent if and only if the cached value is one FCR can hold. */
  lemma ClockUpdateChecked(start: Ideal, events: seq<Event>, values: seq<Unsigned>, later: seq<Event>)
    requires (forall e :: e in events ==> Allowed(e)) && OnlyDrains(later)
    requires values != [] && values[|values| - 1] == Run(Start(start), events).storage[FCR] % U32
    requires Quiescent(Run(Run(Run(Start(start), events), Issues(FcrWrites(values))), later))
    requires NoFcrRead(Run(Start(start), events))
    ensures
      var s := Run(Start(start), events);
      var t := Run(Run(s, Issues(FcrWrites(values))), later);
      && t.storage[FCR] == s.storage[FCR]
      && (t.storage[FCR] == Held(t.dev, KeyOf(FCR)) <==> 0 <= s.storage[FCR] < U32)
  {
    var s := Run(Start(start), events);
    ClockUpdateCoherent(start, events, values, later);
    ResponsesKeepFcr(s.storage, s.responses);
    CommandsKeepFcr(Ideal(SettleResponses(s.storage, s.responses), s.dev), s.commands);
    Wrapped(s.storage[FCR]);
    hide Run, Issues, FcrWrites, Held, KeyOf, SettleCommands, SettleResponses;
  }

  lemma Wrapped(n: int)
    ensures n % U32 == n <==> 0 <= n < U32
  {
  }

  /** Whatever is in the pipes, they can drain. */
  lemma {:induction false} CanDrain(s: State) returns (later: seq<Event>)
    ensures OnlyDrains(later) && Quiescent(Run(s, later))
    decreases 2 * |s.commands| + |s.responses|
  {
    if Quiescent(s) {
      later := [];
    } else {
      var e := if s.commands != [] then Device(0) else Completion;
      hide ResponsePacket, Parsed, Completed;
      var rest := CanDrain(Step(s, e));
      later := [e] + rest;
      assert later[1..] == rest;
    }
  }

  lemma {:induction false} IssuesKeepStorage(s: State, events: seq<Event>)
    requires forall e :: e in events ==> e.Issue?
    ensures Run(s, events).storage == s.storage
    decreases |events|
  {
    if events != [] {
      IssuesKeepStorage(Step(s, events[0]), events[1..]);
    }
  }

  /** The condition can fail: FCR is set, and a clock update begins before the read-back has come.
      It would write the old value over the new one, which the cache is still going to take. */
  lemma ClockUpdateTooEarly()
    ensures
      var start := Ideal(seq(SLOTS, i => 0), map[]);
      var s := Run(Start(start), [Issue(Write(KeyOf(FCR), 1)), Issue(Read(KeyOf(FCR)))]);
      s.storage[FCR] == 0 && Settled(s).storage[FCR] == 1
  {
    hide Run, Effect, LastWritten, ReadBack, Settled, Step, KeyOf, SettleCommands, SettleResponses;
    var start := Ideal(seq(SLOTS, i => 0), map[]);
    var w, r := Write(KeyOf(FCR), 1), Read(KeyOf(FCR));
    var events := [Issue(w), Issue(r)];
    var none: seq<Command> := [];
    assert events == Issues([w, r]) && none + [w] == [w] && [w] + [r] == [w, r];
    KeysDiffer(FCR, FCR);
    StartsWell(start);
    RunKeepsInv(Start(start), events, start);
    IssuesIssue(Start(start), [w, r]);
    IssuesKeepStorage(Start(start), events);
    assert Run(Start(start), events).issued == [w, r];
    CommandsAppend(0, none, w, KeyOf(FCR));
    CommandsAppend(0, [w], r, KeyOf(FCR));
    EffectHeld(start, [w, r], KeyOf(FCR));
    EffectCached(start, [w, r], FCR);
  }

  lemma StartsWell(start: Ideal)
    ensures Inv(Start(start), start)
  {
  }
}
