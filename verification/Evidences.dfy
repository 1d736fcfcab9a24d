/** Retrieved evidence and its identities (src/modules/retrieval/retriever.py). */
module Evidences {
  import opened Wrappers
  import opened Policy

  type Span = (int, int)

  datatype Evidence = Evidence(chunkId: string, tenant: string, source: string, document: string, version: string,
                               span: Span, text: string, score: real, reason: Reason)
  {
    /** What a citation names. */
    function Identity(): (string, string, Span) {
      (chunkId, version, span)
    }

    function Ref(): DocumentRef {
      DocumentRef(tenant, document, Some(version))
    }
  }
}
