/** The VCL snippet resource: its placement types and the record the API returns. */
module Snippets {
  import opened Wrappers

  /** A Go `int`; Go makes it 32 or 64 bits wide by platform, and the model assumes 64. */
  type GoInt = x: int | -0x8000_0000_0000_0000 <= x < 0x8000_0000_0000_0000

  /** A Go `uint`, likewise assumed 64 bits wide. */
  type GoUint = x: int | 0 <= x < 0x1_0000_0000_0000_0000

  /** Where in the generated VCL a snippet is placed. */
  datatype VCLSnippetType =
    | TypeInit     // above all subroutines
    | TypeRecv     // in vcl_recv, below the boilerplate and above any objects
    | TypeHit      // in vcl_hit
    | TypeMiss     // in vcl_miss
    | TypePass     // in vcl_pass
    | TypeFetch    // in vcl_fetch
    | TypeError    // in vcl_error
    | TypeDeliver  // in vcl_deliver
    | TypeLog      // in vcl_log
    | TypeNone     // not rendered, so that custom VCL can include it by hand

  /**
   * The string each placement type is sent and received as: a non-empty lower-case word,
   * the name of the VCL subroutine the snippet goes into (or "init" or "none").
   */
  function TypeString(t: VCLSnippetType): (s: string)
    ensures 3 <= |s| <= 7
    ensures forall c :: c in s ==> 'a' <= c <= 'z'
  {
    match t
    case TypeInit => "init"
    case TypeRecv => "recv"
    case TypeHit => "hit"
    case TypeMiss => "miss"
    case TypePass => "pass"
    case TypeFetch => "fetch"
    case TypeError => "error"
    case TypeDeliver => "deliver"
    case TypeLog => "log"
    case TypeNone => "none"
  }

  /** The placement type a wire string names: only the ten wire strings name one. */
  function ParseType(s: string): (r: Option<VCLSnippetType>)
    ensures r.Some? ==> TypeString(r.value) == s
    ensures r.None? ==> forall t :: TypeString(t) != s
  {
    if s == "init" then Some(TypeInit)
    else if s == "recv" then Some(TypeRecv)
    else if s == "hit" then Some(TypeHit)
    else if s == "miss" then Some(TypeMiss)
    else if s == "pass" then Some(TypePass)
    else if s == "fetch" then Some(TypeFetch)
    else if s == "error" then Some(TypeError)
    else if s == "deliver" then Some(TypeDeliver)
    else if s == "log" then Some(TypeLog)
    else if s == "none" then Some(TypeNone)
    else None
  }

  /** Each placement type's wire string reads back as that type. */
  lemma ParseTypeOfTypeString(t: VCLSnippetType)
    ensures ParseType(TypeString(t)) == Some(t)
  {
  }

  /** A server-managed timestamp; the client only carries it. */
  datatype Timestamp = Timestamp(raw: string)

  /** A VCL snippet as the API returns it. */
  datatype VCLSnippet = VCLSnippet(
    serviceId: string,
    version: GoInt,
    content: string,
    dynamic: bool,
    id: string,
    name: string,
    priority: GoUint,
    snippetType: VCLSnippetType,
    createdAt: Option<Timestamp>,
    updatedAt: Option<Timestamp>,
    deletedAt: Option<Timestamp>
  )
}
