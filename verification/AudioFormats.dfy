/** Audio formats and pieces of audio, as the servers and the providers pass them around. */
module AudioFormats {
  import opened Bytes

  const PCM_S16LE := "pcm_s16le"
  const DEFAULT_SAMPLE_RATE := 16000
  const DEFAULT_CHANNELS := 1

  /** provider.AudioFormat; a rate or a number of channels that is not positive is taken to be missing. */
  datatype AudioFormat = AudioFormat(codec: string, sampleRateHz: int, channels: int)

  const NO_FORMAT := AudioFormat("", 0, 0)

  /** provider.AudioChunk */
  datatype AudioChunk = AudioChunk(data: seq<byte>, format: AudioFormat)

  function EffectiveRate(format: AudioFormat): (rate: nat)
    ensures rate > 0
  {
    if format.sampleRateHz <= 0 then DEFAULT_SAMPLE_RATE else format.sampleRateHz
  }

  function EffectiveChannels(format: AudioFormat): (channels: nat)
    ensures channels > 0
  {
    if format.channels <= 0 then DEFAULT_CHANNELS else format.channels
  }

  /** The format has this rate and so many channels; what is not positive stands for 16000 and 1. */
  ghost predicate Plays(format: AudioFormat, rate: nat, channels: nat) {
    && rate == (if format.sampleRateHz > 0 then format.sampleRateHz else 16_000)
    && channels == (if format.channels > 0 then format.channels else 1)
  }
}
