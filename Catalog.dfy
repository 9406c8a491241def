/** The message catalog: the kinds of message exchanged between the head
    and the body board, the byte that tags each kind, and the exact layout
    of every frame. `Encode` is the one place where the layouts are written
    down; the encoders of `InsideProtocol` are proved to send exactly its
    frames and the decoder of `Dispatch` is proved to read them back. */
module Catalog {
  import opened Wire

  /** The `MessageType` enumeration of the protocol header. */
  datatype MessageType =
    | kMove | kMoveStep | kAutoMove | kRotate | kSetEye | kSetFrontLeds
    | kHeartBeat | kGetRegister | kRegisterResponse | kUnknown

  /** The numbers of the `MessageType` enumerators. They are defined in the
      protocol header, which is not part of this model, so the model takes
      them as a parameter: any table that gives every type a byte and no two
      types the same byte, as the `case` labels of a `switch` must be. */
  datatype Opcodes = Opcodes(code: map<MessageType, uint8>) {
    ghost predicate Total() {
      forall t: MessageType :: t in code
    }

    /** No two types share a byte: the `switch` on each type's byte
        selects that type. */
    ghost predicate Valid() {
      Total() && forall t: MessageType {:trigger TypeOf(this, code[t])} :: TypeOf(this, code[t]) == t
    }
  }

  /** The `switch` of `Decode`: the type a tag byte selects, `kUnknown` for
      the `kUnknown` label and for every byte no label matches. */
  function TypeOf(ops: Opcodes, op: uint8): (t: MessageType)
    requires ops.Total()
    ensures t != kUnknown ==> ops.code[t] == op
    ensures t == kUnknown ==> op !in {
      ops.code[kMove], ops.code[kMoveStep], ops.code[kAutoMove], ops.code[kRotate], ops.code[kSetEye],
      ops.code[kSetFrontLeds], ops.code[kHeartBeat], ops.code[kGetRegister], ops.code[kRegisterResponse]}
  {
    if op == ops.code[kMove] then kMove
    else if op == ops.code[kMoveStep] then kMoveStep
    else if op == ops.code[kAutoMove] then kAutoMove
    else if op == ops.code[kRotate] then kRotate
    else if op == ops.code[kSetEye] then kSetEye
    else if op == ops.code[kSetFrontLeds] then kSetFrontLeds
    else if op == ops.code[kHeartBeat] then kHeartBeat
    else if op == ops.code[kGetRegister] then kGetRegister
    else if op == ops.code[kRegisterResponse] then kRegisterResponse
    else kUnknown
  }

  /** Every type's own tag selects that type. */
  lemma TypeOfCode(ops: Opcodes, t: MessageType)
    requires ops.Valid()
    ensures TypeOf(ops, ops.code[t]) == t
  {
  }

  /** A byte the `switch` does not recognise is no type's code. */
  lemma {:induction false} UnknownIsNoCode(ops: Opcodes, op: uint8)
    requires ops.Valid() && TypeOf(ops, op) == kUnknown
    ensures forall t: MessageType | t != kUnknown :: ops.code[t] != op
  {
    forall t: MessageType | t != kUnknown
      ensures ops.code[t] != op
    {
      TypeOfCode(ops, t);
    }
  }

  /** `RegisterIndex` is an 8-bit enumeration of the header; its enumerators
      are not part of this model, so any byte stands for one. */
  type RegisterIndex = uint8

  /** The four bytes of a `float` in memory. The protocol copies them and
      never looks at their value. */
  type Float32Bits = s: seq<uint8> | |s| == 4 witness [0, 0, 0, 0]

  /** The six LED intensities of `SetFrontLeds`. */
  type Leds = s: seq<uint8> | |s| == 6 witness [0, 0, 0, 0, 0, 0]

  /** Yaw, pitch and roll. */
  type Triple = s: seq<int16> | |s| == 3 witness [0, 0, 0]

  /** A register value: `RegisterResponse` sends its length in one byte. */
  type RegisterValue = s: seq<uint8> | |s| < 0x100

  /** `HeartBeatStruct`, with battery voltage and yaw, pitch and roll given
      by the 16-bit integers that travel on the wire (volts and degrees
      times 100); the conversion from and to `float` is not modelled. */
  datatype HeartBeatStruct = HeartBeatStruct(
    stepCounter: uint16,
    obstacleDistance: uint16,
    batteryVoltage: int16,
    yawPitchRoll: Triple)

  /** A call of one of the nine encoders, with its arguments. */
  datatype Message =
    | SetMove(speed: int8)
    | SetStep(stepSpeed: int8, stepCount: uint8)
    | SetAutoMove(rotateSpeed: uint8, rotateRad: Float32Bits, walkSpeed: uint8, walkStep: int8)
    | SetRotate(speed: int8)
    | SetEye(angle: uint8)
    | SetFrontLeds(leds: Leds)
    | SetHeartBeat(heartbeat: HeartBeatStruct)
    | GetRegister(index: RegisterIndex)
    | RegisterResponse(index: RegisterIndex, value: RegisterValue)
  {
    /** The type whose tag the encoder writes. */
    function Type(): (t: MessageType)
      ensures t != kUnknown
    {
      match this
      case SetMove(_) => kMove
      case SetStep(_, _) => kMoveStep
      case SetAutoMove(_, _, _, _) => kAutoMove
      case SetRotate(_) => kRotate
      case SetEye(_) => kSetEye
      case SetFrontLeds(_) => kSetFrontLeds
      case SetHeartBeat(_) => kHeartBeat
      case GetRegister(_) => kGetRegister
      case RegisterResponse(_, _) => kRegisterResponse
    }
  }

  /** The fixed part of each type's frame: the whole frame for the eight
      fixed-size types, only the three header bytes (tag, index, length)
      for `kRegisterResponse`, whose value follows, and the tag alone for
      `kUnknown`. */
  function FixedLength(t: MessageType): nat
  {
    match t
    case kMove => 2
    case kMoveStep => 3
    case kAutoMove => 8
    case kRotate => 2
    case kSetEye => 2
    case kSetFrontLeds => 7
    case kHeartBeat => 13
    case kGetRegister => 2
    case kRegisterResponse => 3
    case kUnknown => 1
  }

  /** The bytes of a heartbeat after its tag: step counter, obstacle
      distance, battery voltage, yaw, pitch and roll, two bytes each. */
  function HeartBeatBytes(hb: HeartBeatStruct): (bytes: seq<uint8>)
    ensures |bytes| == 12
  {
    U16Bytes(hb.stepCounter) + U16Bytes(hb.obstacleDistance) + I16Bytes(hb.batteryVoltage)
    + I16Bytes(hb.yawPitchRoll[0]) + I16Bytes(hb.yawPitchRoll[1]) + I16Bytes(hb.yawPitchRoll[2])
  }

  /** The frame an encoder hands to `Send`. */
  function Encode(ops: Opcodes, m: Message): (frame: seq<uint8>)
    requires ops.Total()
    ensures frame != [] && frame[0] == ops.code[m.Type()]
    ensures |frame| == FixedLength(m.Type()) + (if m.RegisterResponse? then |m.value| else 0)
  {
    var op := ops.code[m.Type()];
    match m
    case SetMove(speed) => [op, FromInt8(speed)]
    case SetStep(stepSpeed, stepCount) => [op, FromInt8(stepSpeed), stepCount]
    case SetAutoMove(rotateSpeed, rotateRad, walkSpeed, walkStep) =>
      [op, rotateSpeed] + rotateRad + [walkSpeed, FromInt8(walkStep)]
    case SetRotate(speed) => [op, FromInt8(speed)]
    case SetEye(angle) => [op, angle]
    case SetFrontLeds(leds) => [op] + leds
    case SetHeartBeat(hb) => [op] + HeartBeatBytes(hb)
    case GetRegister(index) => [op, index]
    case RegisterResponse(index, value) => [op, index, |value| as uint8] + value
  }

  /** A frame as the catalog prescribes it: a known tag and exactly the
      length of its type, `3 + value length` for `kRegisterResponse`. */
  ghost predicate WellFormed(ops: Opcodes, frame: seq<uint8>)
    requires ops.Valid()
  {
    && frame != []
    && var t := TypeOf(ops, frame[0]);
    && t != kUnknown
    && |frame| >= FixedLength(t)
    && |frame| == FixedLength(t) + (if t == kRegisterResponse then frame[2] as int else 0)
  }

  /** Every encoder sends a well-formed frame of its own type. */
  lemma {:induction false} EncodeWellFormed(ops: Opcodes, m: Message)
    requires ops.Valid()
    ensures WellFormed(ops, Encode(ops, m))
    ensures TypeOf(ops, Encode(ops, m)[0]) == m.Type()
  {
    TypeOfCode(ops, m.Type());
  }

  /** A move at speed -5 travels as the byte 0xFB. */
  lemma MoveExample(ops: Opcodes)
    requires ops.Valid()
    ensures Encode(ops, SetMove(-5)) == [ops.code[kMove], 0xFB]
  {
  }

  /** A response for register 3 holding the bytes 1, 2, 3 is six bytes long. */
  lemma RegisterResponseExample(ops: Opcodes)
    requires ops.Valid()
    ensures Encode(ops, RegisterResponse(3, [1, 2, 3])) == [ops.code[kRegisterResponse], 3, 3, 1, 2, 3]
  {
  }

  /** A heartbeat with step counter 1000, battery field 740 (7.40 V) and
      pitch field -200 (-2.00 degrees) carries them low byte first, the
      negative pitch in two's complement. */
  lemma HeartBeatExample(ops: Opcodes)
    requires ops.Valid()
    ensures var frame := Encode(ops, SetHeartBeat(HeartBeatStruct(1000, 50, 740, [100, -200, 0])));
      frame[1..3] == [0xE8, 0x03] && frame[5..7] == [0xE4, 0x02] && frame[9..11] == [0x38, 0xFF]
  {
  }
}
