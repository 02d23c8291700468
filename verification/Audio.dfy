/** The recorder's one audio format: 16 kHz, 16 bits, mono, behind a 44-byte header. */
module Audio {
  const HEADER_SIZE: nat := 44
  const SAMPLE_RATE: nat := 16000
  const CHANNELS: nat := 1
  const BITS: nat := 16
  const SAMPLE_BYTES: nat := 2
  const BLOCK_ALIGN: nat := 2
  const BYTE_RATE: nat := 32000
}
