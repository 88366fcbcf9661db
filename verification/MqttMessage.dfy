/** The mutable packet buffer. One object is both decoder and builder. */
module MqttMessages {
  import opened Bytes
  import opened Codec

  class MqttMessage {
    var buffer: bytes
    var vheader: byte
    var size: uint16
    var state: State

    function View(): Msg
      reads this
    {
      Msg(buffer, vheader, size, state)
    }

    /** The source leaves `vheader` unset until a header has been read; here it starts at 0. */
    constructor ()
      ensures View() == Fresh(0)
    {
      buffer, vheader, size, state := [], 0, 0, FixedHeader;
    }

    constructor Create(t: byte, bits: byte)
      requires t % 16 == 0 && bits < 16
      ensures View() == CreateMsg(t, bits)
    {
      buffer := [t + bits, 0, 0];
      vheader, size, state := 3, 0, State.Create;
    }

    method Reset()
      modifies this
      ensures View() == Codec.Reset(old(View()))
    {
      buffer := [];
      state := FixedHeader;
      size := 0;
    }

    method Incoming(b: byte)
      modifies this
      ensures View() == Codec.Incoming(old(View()), b)
    {
      buffer := buffer + [b];
      match state {
        case FixedHeader =>
          size := MAX_BUFFER_LENGTH;
          state := Length;
        case Length =>
          if size == MAX_BUFFER_LENGTH {
            size := b % 128;
          } else {
            size := (size + b % 128 * 128) % 65536;
          }
          if size > MAX_BUFFER_LENGTH {
            state := Error;
          } else if b < 128 {
            vheader := |buffer| % 256;
            if size == 0 {
              state := Complete;
            } else {
              state := VariableHeader;
            }
          }
        case VariableHeader =>
          size := (size + 65535) % 65536;
          if size == 0 {
            state := Complete;
          }
        case PayLoad =>
          size := (size + 65535) % 65536;
          if size == 0 {
            state := Complete;
          }
        case Create =>
          size := (size + 1) % 65536;
        case _ =>
          Reset();
      }
      if |buffer| > MAX_BUFFER_LENGTH {
        Reset();
      }
    }

    /** `add(p, len, addLength)` and the one-argument forms that call it. */
    method Add(p: bytes, addLength: bool)
      modifies this
      ensures View() == Feed(old(View()), if addLength then Prefixed(p) else p)
    {
      ghost var start := View();
      ghost var done: bytes := [];
      if addLength {
        AddPair(|p| / 256 % 256, |p| % 256);
        done := [|p| / 256 % 256, |p| % 256];
      }
      var i := 0;
      assert done + p[..0] == done;
      while i < |p|
        invariant 0 <= i <= |p|
        invariant View() == Feed(start, done + p[..i])
      {
        Incoming(p[i]);
        FeedSnoc(start, done + p[..i], p[i]);
        assert done + p[..i] + [p[i]] == done + p[..i + 1];
        i := i + 1;
      }
      assert done + p[..|p|] == if addLength then Prefixed(p) else p;
    }

    method AddPair(a: byte, b: byte)
      modifies this
      ensures View() == Feed(old(View()), [a, b])
    {
      FeedSnoc(View(), [], a);
      FeedSnoc(View(), [a], b);
      assert [] + [a] == [a] && [a] + [b] == [a, b];
      Incoming(a);
      Incoming(b);
    }

    /** Reserves nothing and checks nothing: a message shorter than its reserved header is the caller's mistake. */
    method EncodeLength()
      requires state == Complete || |buffer| >= 3
      modifies this
      ensures View() == Codec.EncodeLength(old(View()))
    {
      if state != Complete {
        var length := |buffer| - 3;
        if length <= 0x7F {
          buffer := buffer[..1] + buffer[2..];
          buffer := buffer[1 := length];
          vheader := 2;
        } else {
          buffer := buffer[1 := 128 + length % 128];
          buffer := buffer[2 := length / 128 % 256];
          vheader := 3;
        }
        state := Complete;
      }
    }
  }
}
