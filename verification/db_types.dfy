/**
 * The stored session record (src/lib/db-types.ts, and the JSON column shapes
 * of src/db/schema.ts). Timestamps are ISO-8601 strings in the source; here an
 * `IsoTime` carries the instant it renders, so `toISOString` and `new Date`
 * are inverse by construction and the textual format is not modelled.
 */
module DbTypes {
  import opened Wrappers
  import opened Types

  datatype Mode = Ohisama | CoopLetter

  datatype IsoTime = IsoTime(ms: Instant)

  /** `date.toISOString()`. */
  function ToIso(t: Instant): IsoTime { IsoTime(t) }

  /** `new Date(iso)`. */
  function FromIso(s: IsoTime): Instant { s.ms }

  datatype DbProposal = DbProposal(id: string, title: string, description: string, menu_material: string, equipment: string)

  datatype DbProduct = DbProduct(
    id: string,
    name: string,
    image_url: Option<string>,
    shape: string,
    selected_proposal: Option<DbProposal>,
    generated_image_url: Option<string>,
    recipe: Option<string>)

  datatype DbMessage = DbMessage(
    id: string,
    role: Role,
    content: string,
    image_url: Option<string>,
    generated_image_url: Option<string>,
    timestamp: IsoTime)

  datatype DbSession = DbSession(
    id: string,
    user_id: string,
    title: string,
    mode: Mode,
    theme: Option<string>,
    products: seq<DbProduct>,
    messages: seq<DbMessage>,
    is_completed: bool,
    created_at: IsoTime,
    updated_at: IsoTime)
}
