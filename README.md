# Xpider inside protocol — a verified model

The head and the body board of the Xpider walking robot talk over a serial
link. `XpiderInsideProtocol` (in `xpider_inside_protocol.cpp`) is the codec
for that link. It has two halves:

- Nine encoders (`SetMove`, `SetStep`, `SetAutoMove`, `SetRotate`, `SetEye`,
  `SetFrontLeds`, `SetHeartBeat`, `GetRegister`, `RegisterResponse`). Each
  fills a local byte buffer: a one-byte `MessageType` tag, then the fields at
  fixed offsets. It then hands the buffer and its length to the `Send`
  function injected by `Initialize`.
- `Decode`. It reads the tag in `buffer[0]` and takes the fields back out at
  the same offsets. It calls the matching handler of the callback list that
  `Initialize` stored, and returns the tag.

The model has four modules, one per layer:

- `Wire` (Wire.dfy): the fixed-width integers of the AVR target. It gives the
  two's-complement reading of a byte and the little-endian byte image of
  16-bit fields that `memcpy` produces.
- `Catalog` (Catalog.dfy): the message catalog.
  - `MessageType` is the enumeration.
  - `Opcodes` is the table of tag bytes. The model takes it as a parameter:
    any table that gives the ten types pairwise distinct bytes.
  - `Message` is a call of an encoder with its arguments.
  - `Encode` is the frame that call sends. It is the one definition of every
    layout.
  - `WellFormed` states the catalog's length rule.
- `Dispatch` (Dispatch.dfy): the decoder as a function.
  - `CallbackList` holds one "slot is set" flag per handler.
  - `Event` is one handler call with its arguments.
  - `Readable` is what `Decode` silently demands of its input.
  - `DecodeEvent` is the handler call `Decode` makes.
  - `AsMessage` reads the handler's arguments back as encoder arguments.
  - The lemmas here tie the two halves together: decode after encode, encode
    after decode, and injectivity of the encoding.
- `InsideProtocol` (InsideProtocol.dfy): the class `XpiderInsideProtocol`.
  - Its fields are `sink` (the `Send` member), `callbacks` (the
    `callback_list_` member) and a ghost log `sent` of every `Send` call.
  - `Decode` is a method over an array, with the source's loop over yaw,
    pitch and roll. Its result is proved equal to `DecodeEvent`.
  - Each encoder allocates its buffer, writes it index by index (a
    `MemCopy` loop stands for `memcpy` of the `rotate_rad`, LED and register
    value bytes; the 16-bit fields are written as their two bytes), and
    calls `Send`. Each is proved to
    append exactly one transmission, the frame `Encode` gives for its
    arguments.

Assumptions and choices:

- Byte order is little-endian. The target is an ATmega328p, and `memcpy`
  copies 16-bit fields low byte first there.
- A `float` `rotate_rad` is four opaque bytes in memory order. The code only
  copies them.
- Casting a byte to `int8_t`, and storing an `int8_t` in a `uint8_t`, keep
  the bits (two's complement, as avr-gcc does).
- `Decode` never checks `length` or the slots of `get_register` and
  `register_response`. The model does not add checks either. `Decode` and
  `DecodeEvent` require `Readable`. It holds when:
  - the tag byte exists;
  - every byte the source reads exists;
  - the register value that `register_response` is pointed at exists;
  - those two slots are set.

  For `kHeartBeat` the source reads all twelve payload bytes before it looks
  at the slot. So `Readable` demands 13 bytes for a heartbeat even when its
  handler is unset. For the other types it demands bytes only when the
  handler is set.
- `EncodeDecode` shows that `WellFormed` frames meet `Readable`, given those
  two slots.
- The catalog's length rule is taken as the code writes it. A register
  value is at most 255 bytes, because the length travels in one `uint8_t`.
  A well-formed `kRegisterResponse` frame is exactly `3 + length` bytes long.

## Model

| member | source | states |
|---|---|---|
| `Wire.ToInt8` | xpider_inside_protocol.cpp:73 | `static_cast<int8_t>` of a byte gives the int8 congruent to it mod 256; it is negative exactly when the byte is at least 0x80 |
| `Wire.FromInt8` | xpider_inside_protocol.cpp:121 | storing an int8 argument into a `uint8_t` buffer slot gives the byte congruent to it mod 256, at least 0x80 exactly when the value is negative |
| `Wire.Int8RoundTrip` | xpider_inside_protocol.cpp:118-123 | an int8 written as a byte and read back as int8 is unchanged |
| `Wire.ByteRoundTrip` | xpider_inside_protocol.cpp:71-76 | a byte read as int8 and written back is unchanged (so `set_eye` gets the unique int8 with the bits of `SetEye`'s angle) |
| `Wire.LittleEndian` | xpider_inside_protocol.cpp:168 | a 16-bit pattern is copied as two bytes, low byte first: byte0 + 256 * byte1 equals the pattern |
| `Wire.Bits` | xpider_inside_protocol.cpp:87 | two bytes, low byte first, hold a 16-bit pattern whose low and high bytes are those bytes |
| `Wire.BitsLittleEndian` | xpider_inside_protocol.cpp:87-88 | copying two bytes into a 16-bit field and back out gives the same two bytes |
| `Wire.U16Bytes` | xpider_inside_protocol.cpp:168-169 | a `uint16_t` field occupies exactly two bytes, low byte first: byte0 + 256 * byte1 is the value |
| `Wire.U16Of` | xpider_inside_protocol.cpp:87-88 | two buffer bytes copied into a `uint16_t` give byte0 + 256 * byte1 (low byte first) |
| `Wire.I16Bytes` | xpider_inside_protocol.cpp:171-172 | an `int16_t` field occupies two bytes, low byte first, whose value byte0 + 256 * byte1 is congruent to the field mod 65536; the field is negative exactly when the high byte is at least 0x80 (two's complement) |
| `Wire.I16Of` | xpider_inside_protocol.cpp:89-94 | two buffer bytes copied into an `int16_t` give the value congruent to byte0 + 256 * byte1 mod 65536, negative exactly when the high byte is at least 0x80 |
| `Wire.U16BytesRoundTrip` | xpider_inside_protocol.cpp:87-88 | a `uint16_t` copied out and back in is unchanged |
| `Wire.U16OfRoundTrip` | xpider_inside_protocol.cpp:168-169 | two bytes copied into a `uint16_t` and back out are unchanged |
| `Wire.I16BytesRoundTrip` | xpider_inside_protocol.cpp:89-94 | an `int16_t` copied out and back in is unchanged, negative values included |
| `Wire.I16OfRoundTrip` | xpider_inside_protocol.cpp:171-178 | two bytes copied into an `int16_t` and back out are unchanged |
| `Catalog.TypeOf` | xpider_inside_protocol.cpp:40-41 | the `switch` on the tag selects a type whose code is the tag, and selects `kUnknown` (the `kUnknown`/`default` labels) only when the tag is the code of none of the nine message types |
| `Catalog.TypeOfCode` | xpider_inside_protocol.cpp:110-112 | with distinct codes, every type's own code selects that type |
| `Catalog.UnknownIsNoCode` | xpider_inside_protocol.cpp:110-112 | with distinct codes, a tag that reaches the `kUnknown`/`default` labels is the code of no message type |
| `Catalog.HeartBeatBytes` | xpider_inside_protocol.cpp:167-178 | a heartbeat payload is 12 bytes |
| `Catalog.Encode` | xpider_inside_protocol.cpp:118-200 | every frame starts with its type's tag; its length is 2, 3, 8, 2, 2, 7, 13, 2 bytes for the fixed types, and 3 plus the value length for a register response |
| `Catalog.EncodeWellFormed` | xpider_inside_protocol.cpp:118-200 | every encoder sends a frame that the catalog's length rule accepts and whose tag decodes to the encoder's type |
| `Catalog.MoveExample` | xpider_inside_protocol.cpp:118-123 | speed -5 travels as the byte 0xFB |
| `Catalog.RegisterResponseExample` | xpider_inside_protocol.cpp:191-200 | register 3 with value [1, 2, 3] is the six bytes [tag, 3, 3, 1, 2, 3] |
| `Catalog.HeartBeatExample` | xpider_inside_protocol.cpp:164-180 | step counter 1000 travels as 0xE8 0x03, battery field 740 as 0xE4 0x02, pitch field -200 as 0x38 0xFF |
| `Dispatch.AsMessage` | xpider_inside_protocol.cpp:42-109 | reading a handler call's arguments back as encoder arguments keeps the message type |
| `Dispatch.Readable` | xpider_inside_protocol.cpp:39-109 | what `Decode` demands without checking: a tag byte; an unrecognised tag needs nothing more; a frame whose handler is called holds at least its type's fixed bytes |
| `Dispatch.ReadHeartBeat` | xpider_inside_protocol.cpp:84-95 | the heartbeat record read from bytes 1..12: step counter and obstacle distance low byte first; battery voltage and yaw, pitch, roll as two's-complement `int16_t` from bytes 5-6, 7-8, 9-10, 11-12 |
| `Dispatch.DecodeEvent` | xpider_inside_protocol.cpp:39-116 | a handler is called exactly when the tag's type has its slot set (never for an unrecognised tag); the call is the handler of that type; a `register_response` call's length equals the number of value bytes it gets |
| `Dispatch.UnknownTagIgnored` | xpider_inside_protocol.cpp:110-112 | a frame whose tag is no type's code, even a 1-byte one, can be decoded and calls no handler |
| `Dispatch.HeartBeatRoundTrip` | xpider_inside_protocol.cpp:83-95 | decoding a heartbeat payload gives back every field the encoder wrote |
| `Dispatch.HeartBeatBytesRead` | xpider_inside_protocol.cpp:164-180 | re-encoding the heartbeat record that decoding read reproduces the 12 payload bytes |
| `Dispatch.DecodeEncodeHeartBeat` | xpider_inside_protocol.cpp:83-101 | a heartbeat frame decodes to the `heartbeat` handler call with exactly the record that was encoded, and to no call when that slot is unset |
| `Dispatch.DecodeEncodeRegisterResponse` | xpider_inside_protocol.cpp:106-109 | a register response frame can be decoded and reaches `register_response` with the encoded index, the encoded value and its length |
| `Dispatch.DecodeEncode` | xpider_inside_protocol.cpp:39-200 | decode after encode: the frame of any encoder call can be decoded; its tag selects the encoder's type; the handler of that type is called exactly when its slot is set; that handler receives the encoder's arguments (same speeds, rotate_rad bytes, LED values, heartbeat fields, register index and value) |
| `Dispatch.EncodeDecodeAutoMove` | xpider_inside_protocol.cpp:54-63 | a well-formed `kAutoMove` frame with its slot set reaches `auto_move`, and the encoder called with those arguments sends that frame again |
| `Dispatch.EncodeDecodeHeartBeat` | xpider_inside_protocol.cpp:83-101 | a well-formed `kHeartBeat` frame with its slot set reaches `heartbeat`, and re-encoding that record sends that frame again |
| `Dispatch.EncodeDecodeRegisterResponse` | xpider_inside_protocol.cpp:106-109 | a well-formed `kRegisterResponse` frame reaches `register_response` with its index, its value and a length equal to the value's size, and `RegisterResponse` with those arguments sends that frame again |
| `Dispatch.EncodeDecode` | xpider_inside_protocol.cpp:39-200 | encode after decode: a well-formed frame can be decoded, given the two mandatory slots; if it reaches a handler, the encoder called with that handler's arguments sends exactly that frame |
| `Dispatch.EncodeInjective` | xpider_inside_protocol.cpp:118-200 | two encoder calls that send the same bytes are the same call with the same arguments |
| `InsideProtocol.MemCopy` | xpider_inside_protocol.cpp:160 | `memcpy` into the buffer sets exactly the destination range to the source bytes and leaves every other byte as it was |
| `InsideProtocol.HeartBeatFrameOf` | xpider_inside_protocol.cpp:164-179 | a 13-byte buffer with the heartbeat tag at 0, step counter at 1, obstacle distance at 3, battery at 5 and yaw, pitch, roll at 7, 9, 11 (two bytes each) is exactly the heartbeat frame |
| `InsideProtocol.XpiderInsideProtocol.constructor` | xpider_inside_protocol.cpp:28-29 | a new object has sent nothing and is not yet initialised |
| `InsideProtocol.XpiderInsideProtocol.Initialize` | xpider_inside_protocol.cpp:34-37 | stores the `Send` function and the callback list |
| `InsideProtocol.XpiderInsideProtocol.Send` | xpider_inside_protocol.cpp:122 | one call of the injected transport with the first `length` bytes of the buffer |
| `InsideProtocol.XpiderInsideProtocol.Decode` | xpider_inside_protocol.cpp:39-116 | returns `buffer[0]` in every case, unrecognised tags included; the handler call is the one `DecodeEvent` specifies, including the loop that fills yaw, pitch and roll |
| `InsideProtocol.XpiderInsideProtocol.SetMove` | xpider_inside_protocol.cpp:118-123 | exactly one `Send`, of the 2-byte frame [kMove, speed's byte] |
| `InsideProtocol.XpiderInsideProtocol.SetStep` | xpider_inside_protocol.cpp:125-131 | exactly one `Send`, of the 3-byte frame [kMoveStep, step_speed, step_count] |
| `InsideProtocol.XpiderInsideProtocol.SetAutoMove` | xpider_inside_protocol.cpp:133-141 | exactly one `Send`, of the 8-byte frame: rotate_speed at 1, the four rotate_rad bytes at 2..5, walk_speed at 6, walk_step at 7 |
| `InsideProtocol.XpiderInsideProtocol.SetRotate` | xpider_inside_protocol.cpp:143-148 | exactly one `Send`, of the 2-byte frame [kRotate, speed's byte] |
| `InsideProtocol.XpiderInsideProtocol.SetEye` | xpider_inside_protocol.cpp:150-155 | exactly one `Send`, of the 2-byte frame [kSetEye, angle] |
| `InsideProtocol.XpiderInsideProtocol.SetFrontLeds` | xpider_inside_protocol.cpp:157-162 | exactly one `Send`, of the 7-byte frame whose bytes 1..6 are the six LED values in order |
| `InsideProtocol.XpiderInsideProtocol.SetHeartBeat` | xpider_inside_protocol.cpp:164-180 | exactly one `Send`, of the 13-byte heartbeat frame, with every 16-bit field little-endian |
| `InsideProtocol.XpiderInsideProtocol.GetRegister` | xpider_inside_protocol.cpp:182-189 | exactly one `Send`, of the 2-byte frame [kGetRegister, register_index] |
| `InsideProtocol.XpiderInsideProtocol.RegisterResponse` | xpider_inside_protocol.cpp:191-200 | exactly one `Send`, of the `3 + length` bytes [kRegisterResponse, index, length, value[0..length)] |

## Left out

- The numbers of the `MessageType` and `RegisterIndex` enumerators. They are
  defined in `xpider_inside_protocol.h`, which is not part of this model.
  Every statement holds for any table of pairwise distinct tag bytes.
- The `float` arithmetic of the heartbeat. The encoder multiplies by 100 and
  casts to `int16_t`; the decoder divides by 100. `HeartBeatStruct` carries
  the 16-bit integers that travel on the wire. So rounding, the ±0.005 error
  bound and out-of-range casts are not modelled. For the same reason, the
  encoder's `temp_imu` conversion loop and its 6-byte `memcpy` are one loop
  in `SetHeartBeat`, which writes each angle's two bytes into the buffer.
- The IEEE-754 meaning of `rotate_rad`. It is four opaque bytes.
- The behaviour of `Send` and of the handlers. They are foreign function
  pointers. The model records only that `Send` is called, with which bytes,
  and which handler is called with which arguments.
- The parameter types of the handler typedefs (in the header, not part of
  this model). `Event` carries the values `Decode` passes: the raw bytes for
  `move`, `step`, `auto_move` and `rotate`. `AsMessage` reads them back as
  the encoder's `int8_t` arguments.
- Checks that the source does not make. There is no length validation, no
  NULL check for `get_register` and `register_response`, and no guard
  against use before `Initialize`. These become preconditions (`Readable`,
  `Ready`), not error results.
- The `TEST_MODE` include of `Arduino.h`, and the empty destructor.
- Byte orders other than little-endian.
