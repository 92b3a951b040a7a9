/** The JSON body both routes return. */
module Envelopes {
  import Cleansing

  const StatusOk: int := 200

  /** The `data` object: the text actually scored and the label it received. */
  datatype Payload<L> = Payload(text: string, sentiment: L)

  /** `{"status_code": ..., "description": ..., "data": {...}}`. */
  datatype Envelope<L> = Envelope(statusCode: int, description: string, data: Payload<L>)

  /**
   The response to a request whose raw `text` field was `raw` and whose cleansed
   text was labelled `verdict`: it reports success and echoes the cleansed text, not
   the raw one.
   */
  function MakeEnvelope<L>(raw: string, verdict: L, description: string): (e: Envelope<L>)
    ensures e.statusCode == StatusOk
    ensures e.description == description
    ensures e.data.text == Cleansing.Cleanse(raw) && e.data.sentiment == verdict
  {
    Envelope(StatusOk, description, Payload(Cleansing.Cleanse(raw), verdict))
  }

  /**
   The echoed text is in `[a-z0-9 ]`, and sending it back is echoed unchanged:
   what the caller sees is exactly what was scored.
   */
  lemma EchoIsStable<L>(raw: string, verdict: L, description: string)
    ensures Cleansing.IsCleanText(MakeEnvelope(raw, verdict, description).data.text)
    ensures var echo := MakeEnvelope(raw, verdict, description).data.text;
      MakeEnvelope(echo, verdict, description) == MakeEnvelope(raw, verdict, description)
  {
    Cleansing.CleanseIdempotent(raw);
  }
}
