/** The sizes a worker declares, and the frame they negotiate. */
module Limits {

  const TwoTo63: int := 0x8000_0000_0000_0000
  const TwoTo64: int := 0x1_0000_0000_0000_0000

  /** The program's int, on a 64-bit platform. */
  type Int64 = x: int | -TwoTo63 <= x < TwoTo63

  /** What 64-bit arithmetic leaves of a result. */
  function Wrap(x: int): Int64 {
    (x + TwoTo63) % TwoTo64 - TwoTo63
  }

  const EscapeAllowance := 2
  const EnvelopeBytes := 65536
  const MaxNegotiatedFrameBytes := 67108864

  datatype Limits = Limits(maxOutputBytes: Int64, maxFileBytes: Int64)

  datatype Verdict = Usable | NoOutput | NoFiles | TooLarge

  function FrameBytes(l: Limits): Int64 {
    var twice := Wrap(2 * l.maxOutputBytes);
    var payload := if twice < l.maxFileBytes then l.maxFileBytes else twice;
    Wrap(Wrap(EscapeAllowance * payload) + EnvelopeBytes)
  }

  function MaxPayloadBytes(l: Limits): Int64 {
    Wrap(FrameBytes(l) - EnvelopeBytes)
  }

  function Validate(l: Limits): Verdict {
    if l.maxOutputBytes <= 0 then NoOutput
    else if l.maxFileBytes <= 0 then NoFiles
    else if FrameBytes(l) > MaxNegotiatedFrameBytes then TooLarge
    else Usable
  }

  /** What both ends rely on: the frame is more than a hello and within the ceiling, a
      payload that passes the size check fits it with its envelope, and both raw caps fit
      the payload. */
  predicate Sized(l: Limits) {
    && 8192 < FrameBytes(l) <= 67108864
    && MaxPayloadBytes(l) + 65536 == FrameBytes(l)
    && 2 * l.maxOutputBytes <= MaxPayloadBytes(l)
    && l.maxFileBytes <= MaxPayloadBytes(l)
  }

  lemma WrapSmall(x: int)
    requires -TwoTo63 <= x < TwoTo63
    ensures Wrap(x) == x
  {
  }

  lemma WrapOnce(x: int)
    requires TwoTo63 <= x < TwoTo63 + TwoTo64
    ensures Wrap(x) == x - TwoTo64
  {
    assert (x + TwoTo63) == (x - TwoTo63) + TwoTo64;
    assert 0 <= x - TwoTo63 < TwoTo64;
  }

  /** Nothing in the arithmetic wraps. */
  predicate NoWrap(l: Limits) {
    4 * l.maxOutputBytes + 65536 < TwoTo63 && 2 * l.maxFileBytes + 65536 < TwoTo63
  }

  /** For every pair of limits that validation accepts, they size the link exactly when
      the arithmetic does not wrap. */
  lemma SizedExactly(l: Limits)
    requires Validate(l) == Usable
    ensures Sized(l) <==> NoWrap(l)
  {
    var out, file := l.maxOutputBytes, l.maxFileBytes;
    if 2 * out >= TwoTo63 {
      WrapOnce(2 * out);
    } else {
      WrapSmall(2 * out);
      var payload := if 2 * out < file then file else 2 * out;
      if 2 * payload >= TwoTo63 {
        WrapOnce(2 * payload);
        WrapSmall(2 * payload - TwoTo64 + EnvelopeBytes);
      } else {
        WrapSmall(2 * payload);
        if 2 * payload + EnvelopeBytes >= TwoTo63 {
          WrapOnce(2 * payload + EnvelopeBytes);
        } else {
          WrapSmall(2 * payload + EnvelopeBytes);
        }
      }
    }
  }

  /** Some limits that wrap are accepted: this file cap, doubled, gives a negative frame. */
  lemma AcceptedThoughWrapping()
    ensures var l := Limits(1, 0x4000_0000_0000_0000);
            Validate(l) == Usable && !Sized(l) && !NoWrap(l)
  {
    var l := Limits(1, 0x4000_0000_0000_0000);
    WrapSmall(2);
    WrapSmall(65536);
    assert Wrap(2 * 0x4000_0000_0000_0000) == -TwoTo63;
  }

  lemma FrameExactly(l: Limits)
    requires NoWrap(l) && 0 < l.maxOutputBytes && 0 < l.maxFileBytes
    ensures var most := if 2 * l.maxOutputBytes < l.maxFileBytes then l.maxFileBytes else 2 * l.maxOutputBytes;
            FrameBytes(l) == 2 * most + 65536 && MaxPayloadBytes(l) == 2 * most
  {
    WrapSmall(2 * l.maxOutputBytes);
    var most := if 2 * l.maxOutputBytes < l.maxFileBytes then l.maxFileBytes else 2 * l.maxOutputBytes;
    WrapSmall(2 * most);
    WrapSmall(2 * most + 65536);
    hide Wrap;
    assert Wrap(2 * most) == 2 * most && Wrap(2 * most + 65536) == 2 * most + 65536;
  }

  /** For limits that do not wrap, the frame is 64 KiB more than twice the larger of a file
      and two streams of output, the rest of it is for a payload, and a refusal names the
      output limit first, then the file limit, then the frame. */
  lemma ValidateExactly(l: Limits)
    requires NoWrap(l)
    ensures 0 < l.maxOutputBytes && 0 < l.maxFileBytes ==>
              var most := if 2 * l.maxOutputBytes < l.maxFileBytes then l.maxFileBytes else 2 * l.maxOutputBytes;
              FrameBytes(l) == 2 * most + 65536 && MaxPayloadBytes(l) == 2 * most
    ensures Validate(l) == NoOutput <==> l.maxOutputBytes <= 0
    ensures Validate(l) == NoFiles <==> l.maxOutputBytes > 0 && l.maxFileBytes <= 0
    ensures Validate(l) == Usable
            <==> 0 < l.maxOutputBytes && 0 < l.maxFileBytes
                 && 4 * l.maxOutputBytes + 65536 <= 67108864 && 2 * l.maxFileBytes + 65536 <= 67108864
  {
    if 0 < l.maxOutputBytes && 0 < l.maxFileBytes {
      FrameExactly(l);
    }
    hide FrameBytes, MaxPayloadBytes;
  }

  /** A payload that passes either end's size check, in any envelope of at most 64 KiB,
      is within the limit the other end reads with. */
  lemma PayloadFits(l: Limits, payload: nat, envelope: nat)
    requires Validate(l) == Usable && NoWrap(l)
    requires payload <= MaxPayloadBytes(l) && envelope <= 65536
    ensures payload + envelope <= FrameBytes(l) <= 67108864
  {
    FrameExactly(l);
    ValidateExactly(l);
    hide FrameBytes, MaxPayloadBytes, Validate, NoWrap;
  }

  const ChunkSize := 16384

  /** What setting a worker up says of its limits: they have to be usable, and a chunk of
      output has to fit a payload. */
  datatype Setup = Ready | Refused(verdict: Verdict) | ChunksTooLarge

  function SetUp(l: Limits): Setup {
    if Validate(l) != Usable then Refused(Validate(l))
    else if ChunkSize > MaxPayloadBytes(l) then ChunksTooLarge
    else Ready
  }

  /** A worker is set up exactly with usable limits that leave 16 KiB for a payload, twice the
      larger of a file and two streams of output. */
  lemma SetUpExactly(l: Limits)
    requires NoWrap(l)
    ensures SetUp(l) == Ready
            <==> Validate(l) == Usable && (4 * l.maxOutputBytes >= 16384 || 2 * l.maxFileBytes >= 16384)
    ensures SetUp(l).Refused? <==> Validate(l) != Usable
  {
    if Validate(l) == Usable {
      ValidateExactly(l);
    }
  }
}
