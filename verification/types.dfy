/**
 * The records of the local-storage flow (src/types/index.ts), shared by the
 * legacy page where its shape is the same. Timestamps are milliseconds.
 */
module Types {
  import opened Wrappers

  type Instant = int

  datatype Role = User | Assistant

  datatype Message = Message(
    id: string,
    role: Role,
    content: string,
    imageUrl: Option<string>,
    generatedImageUrl: Option<string>,
    timestamp: Instant)

  datatype Proposal = Proposal(id: string, title: string, description: string, menuMaterial: string, equipment: string)

  /** A product; `recipe` exists only in the legacy page's copy of this record. */
  datatype Product = Product(
    id: string,
    name: string,
    imageUrl: Option<string>,
    shape: string,
    selectedProposal: Option<Proposal>,
    generatedImageUrl: Option<string>,
    recipe: Option<string>)

  /** The fields of a new message that the caller supplies (`Omit<Message, 'id' | 'timestamp'>`). */
  datatype Draft = Draft(role: Role, content: string, imageUrl: Option<string>, generatedImageUrl: Option<string>)

  /** A product without its id (`Omit<Product, 'id'>`). */
  datatype ProductDraft = ProductDraft(
    name: string,
    imageUrl: Option<string>,
    shape: string,
    selectedProposal: Option<Proposal>,
    generatedImageUrl: Option<string>,
    recipe: Option<string>)

  /** `Partial<Product>`: each present field overrides the product's own. */
  datatype ProductPatch = ProductPatch(
    id: Option<string>,
    name: Option<string>,
    imageUrl: Option<Option<string>>,
    shape: Option<string>,
    selectedProposal: Option<Option<Proposal>>,
    generatedImageUrl: Option<Option<string>>,
    recipe: Option<Option<string>>)

  /** A chat session of the local-storage flow. */
  datatype Session = Session(
    id: string,
    title: string,
    products: seq<Product>,
    messages: seq<Message>,
    createdAt: Instant,
    updatedAt: Instant,
    isCompleted: bool)

  function MessageOf(d: Draft, id: string, at: Instant): (m: Message)
    ensures m.id == id && m.timestamp == at
    ensures m.role == d.role && m.content == d.content
    ensures m.imageUrl == d.imageUrl && m.generatedImageUrl == d.generatedImageUrl
  {
    Message(id, d.role, d.content, d.imageUrl, d.generatedImageUrl, at)
  }

  /** `{ ...p, ...updates }`. */
  function Patch(p: Product, u: ProductPatch): Product {
    Product(
      u.id.GetOr(p.id), u.name.GetOr(p.name), u.imageUrl.GetOr(p.imageUrl), u.shape.GetOr(p.shape),
      u.selectedProposal.GetOr(p.selectedProposal), u.generatedImageUrl.GetOr(p.generatedImageUrl),
      u.recipe.GetOr(p.recipe))
  }
}
