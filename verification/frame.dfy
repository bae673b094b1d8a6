/**
  The event framing that a streaming GET writes for each payload: the
  server-sent-events `data:` field of the WHATWG HTML Living Standard,
  section 9.2 "Server-sent events", with the payload copied verbatim (it is
  not split on line breaks) and the event terminated by a blank line.
*/
module Frame {
  import opened Wrappers
  import opened Octets

  /** The ASCII bytes of "data: ". */
  const DataPrefix: Bytes := [0x64, 0x61, 0x74, 0x61, 0x3A, 0x20]

  /** The ASCII bytes of "\n\n". */
  const DataSuffix: Bytes := [0x0A, 0x0A]

  /** The bytes written to the response for one delivered payload. */
  function Encode(payload: Bytes): (event: Bytes)
    ensures |event| == |payload| + 8
    ensures event[..6] == DataPrefix
    ensures event[6..|event| - 2] == payload
    ensures event[|event| - 2..] == DataSuffix
  {
    DataPrefix + payload + DataSuffix
  }

  /** The inverse of Encode: strips the prefix and the suffix, or fails when
      either is missing. */
  function Decode(event: Bytes): (payload: Option<Bytes>)
    ensures payload.Some? ==> |payload.value| + 8 == |event|
  {
    if |event| >= 8 && event[..6] == DataPrefix && event[|event| - 2..] == DataSuffix
    then Some(event[6..|event| - 2])
    else None
  }

  /** Stripping the framing recovers the payload. */
  lemma DecodeEncode(payload: Bytes)
    ensures Decode(Encode(payload)) == Some(payload)
  {
  }

  /** Every event that decodes is the framing of what it decodes to, so
      Decode accepts exactly the image of Encode. */
  lemma EncodeDecode(event: Bytes, payload: Bytes)
    requires Decode(event) == Some(payload)
    ensures Encode(payload) == event
  {
  }

  /** Distinct payloads are written as distinct events. */
  lemma EncodeInjective(p: Bytes, q: Bytes)
    requires Encode(p) == Encode(q)
    ensures p == q
  {
  }
}
