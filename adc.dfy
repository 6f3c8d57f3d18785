/**
 * The ADS7830 eight-channel ADC as 4/labProgram4.py drives it over I2C:
 * a channel number becomes a one-byte command, and the byte the bus returns
 * for that command is the reading. The bus is an oracle: the byte it
 * returns for the n-th transaction of a run.
 */
module Adc {
  import opened Wrappers

  const ADC_ADDRESS: int := 0x4b
  const ADC_CMD: bv8 := 0x84

  /** One `read_byte_data(address, command)` transaction. */
  datatype Request = Request(address: int, command: bv8)

  /** What the bus answers to the n-th transaction. */
  type Bus = (nat, Request) -> bv8

  datatype AdcError = ChannelOutOfRange(channel: int)

  /** An `ADS7830` object: its fields are set once, by its constructor. */
  datatype ADS7830 = ADS7830(address: int, cmd: bv8)

  function NewADS7830(address: int := ADC_ADDRESS): (adc: ADS7830)
    ensures adc.cmd == ADC_CMD && adc.address == address
  {
    ADS7830(address, ADC_CMD)
  }

  /** `channel_cmd`: the base command with the channel's selector bits in bits 6..4. */
  function CommandByte(cmd: bv8, channel: int): (c: bv8)
    requires 0 <= channel <= 7
    ensures c & 0x8F == cmd & 0x8F
    ensures c & cmd == cmd
  {
    var ch := channel as bv8;
    cmd | ((((ch << 2) | (ch >> 1)) & 0x07) << 4)
  }

  /** `analogRead`: the transaction it makes, or the `ValueError` it raises before any bus access. */
  function AnalogRequest(adc: ADS7830, channel: int): (r: Result<Request, AdcError>)
    ensures r.Failure? <==> !(0 <= channel <= 7)
    ensures r.Failure? ==> r.error == ChannelOutOfRange(channel)
    ensures r.Success? ==> r.value.address == adc.address
  {
    if !(0 <= channel <= 7) then Failure(ChannelOutOfRange(channel))
    else Success(Request(adc.address, CommandByte(adc.cmd, channel)))
  }

  /** `analogRead` as the n-th transaction on `bus`. */
  function AnalogRead(adc: ADS7830, bus: Bus, n: nat, channel: int): (r: Result<bv8, AdcError>)
    ensures r.Failure? <==> !(0 <= channel <= 7)
    ensures r.Success? ==> r.value == bus(n, Request(adc.address, CommandByte(adc.cmd, channel)))
  {
    match AnalogRequest(adc, channel)
    case Failure(e) => Failure(e)
    case Success(req) => Success(bus(n, req))
  }

  /**
   * `readRawJoystickPosition`: channel 0 (x) in transaction n, then
   * channel 1 (y) in transaction n + 1.
   */
  function ReadRawJoystickPosition(adc: ADS7830, bus: Bus, n: nat): (xy: (bv8, bv8))
    ensures xy.0 == bus(n, Request(adc.address, CommandByte(adc.cmd, 0)))
    ensures xy.1 == bus(n + 1, Request(adc.address, CommandByte(adc.cmd, 1)))
  {
    (AnalogRead(adc, bus, n, 0).value, AnalogRead(adc, bus, n + 1, 1).value)
  }

  /** The channel a command byte selects: bit 6 is channel bit 0, bits 5..4 are channel bits 2..1. */
  function ChannelOf(c: bv8): (channel: int)
    ensures 0 <= channel <= 7
  {
    (((c >> 6) & 1) | (((c >> 4) & 3) << 1)) as int
  }

  /** With the default command, bits 7 and 2 are set and bits 3, 1 and 0 clear for every channel. */
  lemma CommandFixedBits(channel: int)
    requires 0 <= channel <= 7
    ensures var c := CommandByte(ADC_CMD, channel);
      c & 0x80 == 0x80 && c & 0x04 == 0x04 && c & 0x0B == 0
  {
  }

  /** The selector bits rotate the channel: bit 6 holds its bit 0, bits 5..4 its bits 2..1. */
  lemma CommandSelector(channel: int)
    requires 0 <= channel <= 7
    ensures var c := CommandByte(ADC_CMD, channel);
      var ch := channel as bv8;
      (c >> 6) & 1 == ch & 1 && (c >> 4) & 3 == (ch >> 1) & 3
  {
  }

  /** The selector can be read back, so the eight channels have eight distinct command bytes. */
  lemma ChannelRoundTrip(channel: int)
    requires 0 <= channel <= 7
    ensures ChannelOf(CommandByte(ADC_CMD, channel)) == channel
  {
    CommandSelector(channel);
  }

  lemma CommandInjective(a: int, b: int)
    requires 0 <= a <= 7 && 0 <= b <= 7 && a != b
    ensures CommandByte(ADC_CMD, a) != CommandByte(ADC_CMD, b)
  {
    ChannelRoundTrip(a);
    ChannelRoundTrip(b);
  }

  /** The joystick's two channels. */
  lemma JoystickCommands()
    ensures CommandByte(ADC_CMD, 0) == 0x84 && CommandByte(ADC_CMD, 1) == 0xC4
  {
  }
}
