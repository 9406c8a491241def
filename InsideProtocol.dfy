/** The `XpiderInsideProtocol` object: the encoders that build a frame in a
    local buffer and hand it to the injected `Send` function, and `Decode`,
    which dispatches a received frame to the injected callback list. */
module InsideProtocol {
  import opened Wire
  import opened Catalog
  import opened Dispatch

  /** Identifies the `Send` function handed to `Initialize`. */
  type SinkId = nat

  /** One call of `Send`: the function called and the bytes it was handed
      (the first `length` bytes of the buffer). */
  datatype Transmission = Transmission(sink: SinkId, frame: seq<uint8>)

  /** `memcpy(dst + at, src, |src|)`. */
  method MemCopy(dst: array<uint8>, at: nat, src: seq<uint8>)
    requires at + |src| <= dst.Length
    modifies dst
    ensures dst[..] == old(dst[..at]) + src + old(dst[at + |src|..])
  {
    for i := 0 to |src|
      invariant forall k | 0 <= k < dst.Length ::
        dst[k] == if at <= k < at + i then src[k - at] else old(dst[k])
    {
      dst[at + i] := src[i];
    }
    assert dst[..] == old(dst[..at]) + src + old(dst[at + |src|..]);
  }

  /** The bytes of a 13-byte buffer that holds the heartbeat tag and then
      each field's two bytes at its offset form the heartbeat frame. */
  lemma {:induction false} HeartBeatFrameOf(ops: Opcodes, hb: HeartBeatStruct, frame: seq<uint8>)
    requires ops.Total() && |frame| == 13 && frame[0] == ops.code[kHeartBeat]
    requires [frame[1], frame[2]] == U16Bytes(hb.stepCounter)
    requires [frame[3], frame[4]] == U16Bytes(hb.obstacleDistance)
    requires [frame[5], frame[6]] == I16Bytes(hb.batteryVoltage)
    requires forall k | 0 <= k < 3 :: [frame[7 + 2 * k], frame[8 + 2 * k]] == I16Bytes(hb.yawPitchRoll[k])
    ensures frame == Encode(ops, Message.SetHeartBeat(hb))
  {
    var angles := hb.yawPitchRoll;
    assert [frame[7 + 2 * 0], frame[8 + 2 * 0]] == I16Bytes(angles[0]);
    assert [frame[7 + 2 * 1], frame[8 + 2 * 1]] == I16Bytes(angles[1]);
    assert [frame[7 + 2 * 2], frame[8 + 2 * 2]] == I16Bytes(angles[2]);
    assert frame == [frame[0]] + [frame[1], frame[2]] + [frame[3], frame[4]] + [frame[5], frame[6]]
      + [frame[7], frame[8]] + [frame[9], frame[10]] + [frame[11], frame[12]];
  }

  class XpiderInsideProtocol {
    /** The `MessageType` numbers, fixed when the firmware is built. */
    const ops: Opcodes
    /** The `Send` member. */
    var sink: SinkId
    /** The `callback_list_` member. */
    var callbacks: CallbackList
    /** Whether `Initialize` has set `Send` and `callback_list_`. */
    ghost var initialized: bool
    /** Every call of `Send` so far, oldest first. */
    ghost var sent: seq<Transmission>

    ghost predicate Ready()
      reads this
    {
      ops.Valid() && initialized
    }

    /** The constructor sets nothing: `Send` and the callback list are
        unusable until `Initialize`. */
    constructor (ops: Opcodes)
      requires ops.Valid()
      ensures this.ops == ops && !initialized && sent == []
    {
      this.ops := ops;
      sink := 0;
      callbacks := CallbackList(false, false, false, false, false, false, false, false, false);
      initialized := false;
      sent := [];
    }

    /** Stores the transport sink and the callback list. */
    method Initialize(send: SinkId, callbackList: CallbackList)
      modifies this`sink, this`callbacks, this`initialized
      ensures sink == send && callbacks == callbackList && initialized
    {
      sink := send;
      callbacks := callbackList;
      initialized := true;
    }

    /** The injected transport: it is handed the buffer and a length, and
        the model records the bytes it receives. */
    method Send(buffer: array<uint8>, length: nat)
      requires length <= buffer.Length
      modifies this`sent
      ensures sent == old(sent) + [Transmission(sink, buffer[..length])]
    {
      sent := sent + [Transmission(sink, buffer[..length])];
    }

    /** Reads the tag in `buffer[0]`, calls the handler of its type (if its
        slot is set, and unconditionally for `get_register` and
        `register_response`) and returns the tag. `length` is never read. */
    method Decode(buffer: array<uint8>, length: uint16) returns (index: uint8, event: Option<Event>)
      requires Ready() && Readable(ops, callbacks, buffer[..])
      ensures index == buffer[0]
      ensures event == DecodeEvent(ops, callbacks, buffer[..])
    {
      index := buffer[0];
      event := None;
      match TypeOf(ops, index)
      case kMove =>
        if callbacks.move {
          event := Some(OnMove(buffer[1]));
        }
      case kMoveStep =>
        if callbacks.step {
          event := Some(OnStep(buffer[1], buffer[2]));
        }
      case kAutoMove =>
        if callbacks.autoMove {
          var rotateSpeed := buffer[1];
          var rotateRad := buffer[2..6];
          var walkSpeed := buffer[6];
          var walkStep := buffer[7];
          event := Some(OnAutoMove(rotateSpeed, rotateRad, walkSpeed, walkStep));
        }
      case kRotate =>
        if callbacks.rotate {
          event := Some(OnRotate(buffer[1]));
        }
      case kSetEye =>
        if callbacks.setEye {
          event := Some(OnSetEye(ToInt8(buffer[1])));
        }
      case kSetFrontLeds =>
        if callbacks.setFrontLeds {
          event := Some(OnSetFrontLeds(buffer[1..7]));
        }
      case kHeartBeat =>
        var stepCounter := U16Of(buffer[1], buffer[2]);
        var obstacleDistance := U16Of(buffer[3], buffer[4]);
        var batteryVoltage := I16Of(buffer[5], buffer[6]);
        var yawPitchRoll := new int16[3];
        for i := 0 to 3
          invariant forall k | 0 <= k < i :: yawPitchRoll[k] == I16Of(buffer[7 + 2 * k], buffer[8 + 2 * k])
        {
          yawPitchRoll[i] := I16Of(buffer[7 + 2 * i], buffer[8 + 2 * i]);
        }
        assert yawPitchRoll[..] == ReadHeartBeat(buffer[..]).yawPitchRoll;
        if callbacks.heartbeat {
          event := Some(OnHeartBeat(HeartBeatStruct(stepCounter, obstacleDistance, batteryVoltage, yawPitchRoll[..])));
        }
      case kGetRegister =>
        event := Some(OnGetRegister(buffer[1]));
      case kRegisterResponse =>
        event := Some(OnRegisterResponse(buffer[1], buffer[3..3 + buffer[2] as int], buffer[2]));
      case kUnknown =>
    }

    method SetMove(speed: int8)
      requires Ready()
      modifies this`sent
      ensures sent == old(sent) + [Transmission(sink, Encode(ops, Message.SetMove(speed)))]
    {
      var buffer := new uint8[2];
      buffer[0] := ops.code[kMove];
      buffer[1] := FromInt8(speed);
      assert buffer[..2] == Encode(ops, Message.SetMove(speed));
      Send(buffer, 2);
    }

    method SetStep(stepSpeed: int8, stepCount: uint8)
      requires Ready()
      modifies this`sent
      ensures sent == old(sent) + [Transmission(sink, Encode(ops, Message.SetStep(stepSpeed, stepCount)))]
    {
      var buffer := new uint8[3];
      buffer[0] := ops.code[kMoveStep];
      buffer[1] := FromInt8(stepSpeed);
      buffer[2] := stepCount;
      assert buffer[..3] == Encode(ops, Message.SetStep(stepSpeed, stepCount));
      Send(buffer, 3);
    }

    method SetAutoMove(rotateSpeed: uint8, rotateRad: Float32Bits, walkSpeed: uint8, walkStep: int8)
      requires Ready()
      modifies this`sent
      ensures sent == old(sent)
        + [Transmission(sink, Encode(ops, Message.SetAutoMove(rotateSpeed, rotateRad, walkSpeed, walkStep)))]
    {
      var buffer := new uint8[8];
      buffer[0] := ops.code[kAutoMove];
      buffer[1] := rotateSpeed;
      MemCopy(buffer, 2, rotateRad);
      buffer[6] := walkSpeed;
      buffer[7] := FromInt8(walkStep);
      assert buffer[..8] == Encode(ops, Message.SetAutoMove(rotateSpeed, rotateRad, walkSpeed, walkStep));
      Send(buffer, 8);
    }

    method SetRotate(speed: int8)
      requires Ready()
      modifies this`sent
      ensures sent == old(sent) + [Transmission(sink, Encode(ops, Message.SetRotate(speed)))]
    {
      var buffer := new uint8[2];
      buffer[0] := ops.code[kRotate];
      buffer[1] := FromInt8(speed);
      assert buffer[..2] == Encode(ops, Message.SetRotate(speed));
      Send(buffer, 2);
    }

    method SetEye(angle: uint8)
      requires Ready()
      modifies this`sent
      ensures sent == old(sent) + [Transmission(sink, Encode(ops, Message.SetEye(angle)))]
    {
      var buffer := new uint8[2];
      buffer[0] := ops.code[kSetEye];
      buffer[1] := angle;
      assert buffer[..2] == Encode(ops, Message.SetEye(angle));
      Send(buffer, 2);
    }

    /** `leds` points at (at least) the six LED values. */
    method SetFrontLeds(leds: array<uint8>)
      requires Ready() && leds.Length >= 6
      modifies this`sent
      ensures sent == old(sent) + [Transmission(sink, Encode(ops, Message.SetFrontLeds(leds[..6])))]
    {
      var buffer := new uint8[7];
      buffer[0] := ops.code[kSetFrontLeds];
      MemCopy(buffer, 1, leds[..6]);
      assert buffer[..7] == Encode(ops, Message.SetFrontLeds(leds[..6]));
      Send(buffer, 7);
    }

    method SetHeartBeat(heartbeat: HeartBeatStruct)
      requires Ready()
      modifies this`sent
      ensures sent == old(sent) + [Transmission(sink, Encode(ops, Message.SetHeartBeat(heartbeat)))]
    {
      var buffer := new uint8[13];
      buffer[0] := ops.code[kHeartBeat];
      var bytes := U16Bytes(heartbeat.stepCounter);
      buffer[1], buffer[2] := bytes[0], bytes[1];
      bytes := U16Bytes(heartbeat.obstacleDistance);
      buffer[3], buffer[4] := bytes[0], bytes[1];
      bytes := I16Bytes(heartbeat.batteryVoltage);
      buffer[5], buffer[6] := bytes[0], bytes[1];
      ghost var head := buffer[..7];
      for i := 0 to 3
        invariant buffer[..7] == head
        invariant forall k | 0 <= k < i :: [buffer[7 + 2 * k], buffer[8 + 2 * k]] == I16Bytes(heartbeat.yawPitchRoll[k])
        invariant sent == old(sent)
      {
        bytes := I16Bytes(heartbeat.yawPitchRoll[i]);
        buffer[7 + 2 * i], buffer[8 + 2 * i] := bytes[0], bytes[1];
      }
      HeartBeatFrameOf(ops, heartbeat, buffer[..]);
      assert buffer[..13] == buffer[..];
      Send(buffer, 13);
    }

    method GetRegister(registerIndex: RegisterIndex)
      requires Ready()
      modifies this`sent
      ensures sent == old(sent) + [Transmission(sink, Encode(ops, Message.GetRegister(registerIndex)))]
    {
      var buffer := new uint8[2];
      buffer[0] := ops.code[kGetRegister];
      buffer[1] := registerIndex;
      assert buffer[..2] == Encode(ops, Message.GetRegister(registerIndex));
      Send(buffer, 2);
    }

    /** `value` points at (at least) `length` bytes. */
    method RegisterResponse(registerIndex: RegisterIndex, value: array<uint8>, length: uint8)
      requires Ready() && length as int <= value.Length
      modifies this`sent
      ensures sent == old(sent)
        + [Transmission(sink, Encode(ops, Message.RegisterResponse(registerIndex, value[..length])))]
    {
      var buffer := new uint8[3 + length as int];
      buffer[0] := ops.code[kRegisterResponse];
      buffer[1] := registerIndex;
      buffer[2] := length;
      MemCopy(buffer, 3, value[..length]);
      assert buffer[..3 + length as int] == Encode(ops, Message.RegisterResponse(registerIndex, value[..length]));
      Send(buffer, 3 + length as int);
    }
  }
}
