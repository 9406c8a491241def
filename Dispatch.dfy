/** The decoding half of the protocol: which handler a received frame
    reaches and with which arguments. Handlers are foreign function
    pointers, so the model only says whether a slot is set and, for a
    frame, which handler call (`Event`) `Decode` makes. */
module Dispatch {
  import opened Wire
  import opened Catalog

  datatype Option<T> = None | Some(value: T)

  /** `CallbackListStruct`: for each handler slot, whether it is set
      (non-NULL). */
  datatype CallbackList = CallbackList(
    move: bool,
    step: bool,
    autoMove: bool,
    rotate: bool,
    setEye: bool,
    setFrontLeds: bool,
    heartbeat: bool,
    getRegister: bool,
    registerResponse: bool)
  {
    /** Whether the slot that receives messages of type `t` is set. */
    function Has(t: MessageType): bool
    {
      match t
      case kMove => move
      case kMoveStep => step
      case kAutoMove => autoMove
      case kRotate => rotate
      case kSetEye => setEye
      case kSetFrontLeds => setFrontLeds
      case kHeartBeat => heartbeat
      case kGetRegister => getRegister
      case kRegisterResponse => registerResponse
      case kUnknown => false
    }
  }

  /** One handler call, with the arguments `Decode` passes: the raw bytes
      for `move`, `step`, `auto_move` and `rotate`, the byte cast to
      `int8_t` for `set_eye`, the six bytes after the tag for
      `set_front_leds`, the filled-in record for `heartbeat`, and for
      `register_response` the index, the bytes from offset 3 on and the
      length byte. */
  datatype Event =
    | OnMove(speed: uint8)
    | OnStep(stepSpeed: uint8, stepCount: uint8)
    | OnAutoMove(rotateSpeed: uint8, rotateRad: Float32Bits, walkSpeed: uint8, walkStep: uint8)
    | OnRotate(speed: uint8)
    | OnSetEye(angle: int8)
    | OnSetFrontLeds(leds: Leds)
    | OnHeartBeat(heartbeat: HeartBeatStruct)
    | OnGetRegister(index: RegisterIndex)
    | OnRegisterResponse(index: RegisterIndex, value: RegisterValue, length: uint8)
  {
    function Type(): MessageType
    {
      match this
      case OnMove(_) => kMove
      case OnStep(_, _) => kMoveStep
      case OnAutoMove(_, _, _, _) => kAutoMove
      case OnRotate(_) => kRotate
      case OnSetEye(_) => kSetEye
      case OnSetFrontLeds(_) => kSetFrontLeds
      case OnHeartBeat(_) => kHeartBeat
      case OnGetRegister(_) => kGetRegister
      case OnRegisterResponse(_, _, _) => kRegisterResponse
    }

    /** The length handed to `register_response` is the number of value
      bytes it may read. */
    predicate Consistent()
    {
      OnRegisterResponse? ==> |value| == length as int
    }
  }

  /** The encoder call whose arguments a handler call carries: bytes that
      an encoder wrote from an `int8_t` are read back as `int8_t`, and the
      `int8_t` angle of `set_eye` as the byte `SetEye` was given. */
  function AsMessage(e: Event): (m: Message)
    ensures m.Type() == e.Type()
  {
    match e
    case OnMove(speed) => SetMove(ToInt8(speed))
    case OnStep(stepSpeed, stepCount) => SetStep(ToInt8(stepSpeed), stepCount)
    case OnAutoMove(rotateSpeed, rotateRad, walkSpeed, walkStep) =>
      SetAutoMove(rotateSpeed, rotateRad, walkSpeed, ToInt8(walkStep))
    case OnRotate(speed) => SetRotate(ToInt8(speed))
    case OnSetEye(angle) => SetEye(FromInt8(angle))
    case OnSetFrontLeds(leds) => SetFrontLeds(leds)
    case OnHeartBeat(heartbeat) => SetHeartBeat(heartbeat)
    case OnGetRegister(index) => GetRegister(index)
    case OnRegisterResponse(index, value, _) => RegisterResponse(index, value)
  }

  /** What `Decode` demands of its caller, which it never checks: a tag
      byte, every byte it reads (for a type whose slot is unset it reads
      nothing after the tag, except for `kHeartBeat`, whose fields are read
      before the slot is looked at), the `length` bytes from offset 3 that
      `register_response` is pointed at, and set `get_register` and
      `register_response` slots, which are called without a NULL check. */
  predicate Readable(ops: Opcodes, callbacks: CallbackList, frame: seq<uint8>)
    requires ops.Valid()
    ensures Readable(ops, callbacks, frame) ==> frame != []
    ensures frame != [] && TypeOf(ops, frame[0]) == kUnknown ==> Readable(ops, callbacks, frame)
    ensures frame != [] && Readable(ops, callbacks, frame) && callbacks.Has(TypeOf(ops, frame[0]))
      ==> |frame| >= FixedLength(TypeOf(ops, frame[0]))
  {
    && frame != []
    && var t := TypeOf(ops, frame[0]);
    && if t == kUnknown then true
       else if t == kHeartBeat then |frame| >= FixedLength(t)
       else if t == kGetRegister || t == kRegisterResponse then
         && callbacks.Has(t)
         && |frame| >= FixedLength(t)
         && (t == kRegisterResponse ==> |frame| >= FixedLength(t) + frame[2] as int)
       else callbacks.Has(t) ==> |frame| >= FixedLength(t)
  }

  /** The heartbeat record `Decode` fills in from bytes 1 to 12. */
  function ReadHeartBeat(frame: seq<uint8>): (hb: HeartBeatStruct)
    requires |frame| >= 13
    ensures hb.stepCounter as int == frame[1] as int + 0x100 * frame[2] as int
    ensures hb.obstacleDistance as int == frame[3] as int + 0x100 * frame[4] as int
    ensures (hb.batteryVoltage as int - (frame[5] as int + 0x100 * frame[6] as int)) % 0x1_0000 == 0
    ensures hb.batteryVoltage < 0 <==> frame[6] >= 0x80
    ensures forall i | 0 <= i < 3 ::
      && (hb.yawPitchRoll[i] as int - (frame[7 + 2 * i] as int + 0x100 * frame[8 + 2 * i] as int)) % 0x1_0000 == 0
      && (hb.yawPitchRoll[i] < 0 <==> frame[8 + 2 * i] >= 0x80)
  {
    HeartBeatStruct(
      U16Of(frame[1], frame[2]),
      U16Of(frame[3], frame[4]),
      I16Of(frame[5], frame[6]),
      [I16Of(frame[7], frame[8]), I16Of(frame[9], frame[10]), I16Of(frame[11], frame[12])])
  }

  /** The handler call `Decode` makes for a frame, `None` when it calls
      none. */
  function DecodeEvent(ops: Opcodes, callbacks: CallbackList, frame: seq<uint8>): (e: Option<Event>)
    requires ops.Valid() && Readable(ops, callbacks, frame)
    ensures e.Some? <==> callbacks.Has(TypeOf(ops, frame[0]))
    ensures e.Some? ==> e.value.Type() == TypeOf(ops, frame[0]) && e.value.Consistent()
  {
    match TypeOf(ops, frame[0])
    case kMove =>
      if callbacks.move then Some(OnMove(frame[1])) else None
    case kMoveStep =>
      if callbacks.step then Some(OnStep(frame[1], frame[2])) else None
    case kAutoMove =>
      if callbacks.autoMove then Some(OnAutoMove(frame[1], frame[2..6], frame[6], frame[7])) else None
    case kRotate =>
      if callbacks.rotate then Some(OnRotate(frame[1])) else None
    case kSetEye =>
      if callbacks.setEye then Some(OnSetEye(ToInt8(frame[1]))) else None
    case kSetFrontLeds =>
      if callbacks.setFrontLeds then Some(OnSetFrontLeds(frame[1..7])) else None
    case kHeartBeat =>
      var heartbeat := ReadHeartBeat(frame);
      if callbacks.heartbeat then Some(OnHeartBeat(heartbeat)) else None
    case kGetRegister =>
      Some(OnGetRegister(frame[1]))
    case kRegisterResponse =>
      Some(OnRegisterResponse(frame[1], frame[3..3 + frame[2] as int], frame[2]))
    case kUnknown =>
      None
  }

  /** An unrecognised tag reaches no handler. */
  lemma UnknownTagIgnored(ops: Opcodes, callbacks: CallbackList, frame: seq<uint8>)
    requires ops.Valid() && frame != []
    requires forall t: MessageType | t != kUnknown :: ops.code[t] != frame[0]
    ensures Readable(ops, callbacks, frame)
    ensures DecodeEvent(ops, callbacks, frame) == None
  {
  }

  /** The heartbeat fields come back as the encoder wrote them. */
  lemma {:induction false} HeartBeatRoundTrip(hb: HeartBeatStruct, frame: seq<uint8>)
    requires |frame| == 13 && frame[1..] == HeartBeatBytes(hb)
    ensures ReadHeartBeat(frame) == hb
  {
    U16BytesRoundTrip(hb.stepCounter);
    U16BytesRoundTrip(hb.obstacleDistance);
    I16BytesRoundTrip(hb.batteryVoltage);
    I16BytesRoundTrip(hb.yawPitchRoll[0]);
    I16BytesRoundTrip(hb.yawPitchRoll[1]);
    I16BytesRoundTrip(hb.yawPitchRoll[2]);
    assert ReadHeartBeat(frame).yawPitchRoll == hb.yawPitchRoll;
  }

  /** The heartbeat case of `DecodeEncode`. */
  lemma {:induction false} DecodeEncodeHeartBeat(ops: Opcodes, callbacks: CallbackList, hb: HeartBeatStruct)
    requires ops.Valid()
    ensures var frame := Encode(ops, Message.SetHeartBeat(hb));
      && Readable(ops, callbacks, frame)
      && TypeOf(ops, frame[0]) == kHeartBeat
      && (DecodeEvent(ops, callbacks, frame).Some? <==> callbacks.heartbeat)
      && (DecodeEvent(ops, callbacks, frame).Some? ==> DecodeEvent(ops, callbacks, frame).value == OnHeartBeat(hb))
  {
    var frame := Encode(ops, Message.SetHeartBeat(hb));
    TypeOfCode(ops, kHeartBeat);
    HeartBeatRoundTrip(hb, frame);
  }

  /** The `kRegisterResponse` case of `DecodeEncode`. */
  lemma {:induction false} DecodeEncodeRegisterResponse(
    ops: Opcodes, callbacks: CallbackList, index: RegisterIndex, value: RegisterValue)
    requires ops.Valid() && callbacks.registerResponse
    ensures var frame := Encode(ops, Message.RegisterResponse(index, value));
      && Readable(ops, callbacks, frame)
      && TypeOf(ops, frame[0]) == kRegisterResponse
      && DecodeEvent(ops, callbacks, frame) == Some(OnRegisterResponse(index, value, |value| as uint8))
  {
    var frame := Encode(ops, Message.RegisterResponse(index, value));
    TypeOfCode(ops, kRegisterResponse);
    assert frame[3..3 + frame[2] as int] == value;
  }

  /** Decoding what an encoder sends: `Decode` can read the frame, the tag
      selects the encoder's type, the handler of that type is called
      exactly when its slot is set, and it receives the encoder's
      arguments. */
  lemma {:induction false} DecodeEncode(ops: Opcodes, callbacks: CallbackList, m: Message)
    requires ops.Valid()
    requires m.Type() in {kGetRegister, kRegisterResponse} ==> callbacks.Has(m.Type())
    ensures var frame := Encode(ops, m);
      && Readable(ops, callbacks, frame)
      && TypeOf(ops, frame[0]) == m.Type()
      && (DecodeEvent(ops, callbacks, frame).Some? <==> callbacks.Has(m.Type()))
      && (DecodeEvent(ops, callbacks, frame).Some? ==> AsMessage(DecodeEvent(ops, callbacks, frame).value) == m)
  {
    var frame := Encode(ops, m);
    TypeOfCode(ops, m.Type());
    match m
    case SetMove(speed) => Int8RoundTrip(speed);
    case SetStep(stepSpeed, _) => Int8RoundTrip(stepSpeed);
    case SetAutoMove(_, rotateRad, _, walkStep) =>
      Int8RoundTrip(walkStep);
      assert frame[2..6] == rotateRad;
    case SetRotate(speed) => Int8RoundTrip(speed);
    case SetEye(angle) => ByteRoundTrip(angle);
    case SetFrontLeds(leds) => assert frame[1..7] == leds;
    case SetHeartBeat(hb) => DecodeEncodeHeartBeat(ops, callbacks, hb);
    case GetRegister(_) =>
    case RegisterResponse(index, value) => DecodeEncodeRegisterResponse(ops, callbacks, index, value);
  }

  /** The heartbeat bytes come back as the decoder read them. */
  lemma {:induction false} HeartBeatBytesRead(frame: seq<uint8>)
    requires |frame| == 13
    ensures HeartBeatBytes(ReadHeartBeat(frame)) == frame[1..]
  {
    U16OfRoundTrip(frame[1], frame[2]);
    U16OfRoundTrip(frame[3], frame[4]);
    I16OfRoundTrip(frame[5], frame[6]);
    I16OfRoundTrip(frame[7], frame[8]);
    I16OfRoundTrip(frame[9], frame[10]);
    I16OfRoundTrip(frame[11], frame[12]);
    assert frame[1..] == frame[1..3] + frame[3..5] + frame[5..7] + frame[7..9] + frame[9..11] + frame[11..13];
  }

  /** Re-encoding a decoded heartbeat. */
  lemma {:induction false} EncodeDecodeHeartBeat(ops: Opcodes, callbacks: CallbackList, frame: seq<uint8>)
    requires ops.Valid() && WellFormed(ops, frame) && TypeOf(ops, frame[0]) == kHeartBeat
    requires callbacks.heartbeat
    ensures DecodeEvent(ops, callbacks, frame) == Some(OnHeartBeat(ReadHeartBeat(frame)))
    ensures Encode(ops, SetHeartBeat(ReadHeartBeat(frame))) == frame
  {
    HeartBeatBytesRead(frame);
    assert frame == [frame[0]] + frame[1..];
  }

  /** Re-encoding a decoded register response. */
  lemma {:induction false} EncodeDecodeRegisterResponse(ops: Opcodes, callbacks: CallbackList, frame: seq<uint8>)
    requires ops.Valid() && WellFormed(ops, frame) && TypeOf(ops, frame[0]) == kRegisterResponse
    requires callbacks.registerResponse
    ensures DecodeEvent(ops, callbacks, frame) == Some(OnRegisterResponse(frame[1], frame[3..], frame[2]))
    ensures Encode(ops, RegisterResponse(frame[1], frame[3..])) == frame
  {
    assert frame == [frame[0], frame[1], frame[2]] + frame[3..];
    assert frame[3..3 + frame[2] as int] == frame[3..];
  }

  /** Re-encoding a decoded auto-move command. */
  lemma {:induction false} EncodeDecodeAutoMove(ops: Opcodes, callbacks: CallbackList, frame: seq<uint8>)
    requires ops.Valid() && WellFormed(ops, frame) && TypeOf(ops, frame[0]) == kAutoMove
    requires callbacks.autoMove
    ensures DecodeEvent(ops, callbacks, frame) == Some(OnAutoMove(frame[1], frame[2..6], frame[6], frame[7]))
    ensures Encode(ops, SetAutoMove(frame[1], frame[2..6], frame[6], ToInt8(frame[7]))) == frame
  {
    ByteRoundTrip(frame[7]);
    assert frame == [frame[0], frame[1]] + frame[2..6] + [frame[6], frame[7]];
  }

  /** Encoding what a handler receives: a well-formed frame that reaches a
      handler is exactly the frame the matching encoder sends with the
      handler's arguments, so the catalog's frames and the encoder calls
      correspond one to one. */
  lemma {:induction false} EncodeDecode(ops: Opcodes, callbacks: CallbackList, frame: seq<uint8>)
    requires ops.Valid() && WellFormed(ops, frame)
    requires TypeOf(ops, frame[0]) in {kGetRegister, kRegisterResponse} ==> callbacks.Has(TypeOf(ops, frame[0]))
    ensures Readable(ops, callbacks, frame)
    ensures DecodeEvent(ops, callbacks, frame).Some? ==>
      Encode(ops, AsMessage(DecodeEvent(ops, callbacks, frame).value)) == frame
  {
    var t := TypeOf(ops, frame[0]);
    if !callbacks.Has(t) {
    } else if t == kHeartBeat {
      EncodeDecodeHeartBeat(ops, callbacks, frame);
    } else if t == kRegisterResponse {
      EncodeDecodeRegisterResponse(ops, callbacks, frame);
    } else if t == kAutoMove {
      EncodeDecodeAutoMove(ops, callbacks, frame);
    } else if t == kSetFrontLeds {
      assert frame == [frame[0]] + frame[1..];
    } else if t == kMoveStep {
      ByteRoundTrip(frame[1]);
      assert frame == [frame[0], frame[1], frame[2]];
    } else {
      ByteRoundTrip(frame[1]);
      assert frame == [frame[0], frame[1]];
    }
  }

  /** Different encoder calls send different frames. */
  lemma {:induction false} EncodeInjective(ops: Opcodes, m1: Message, m2: Message)
    requires ops.Valid()
    requires Encode(ops, m1) == Encode(ops, m2)
    ensures m1 == m2
  {
    var all := CallbackList(true, true, true, true, true, true, true, true, true);
    DecodeEncode(ops, all, m1);
    DecodeEncode(ops, all, m2);
  }
}
