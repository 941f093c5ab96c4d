/**
 * The response-action extractor: `parseResponse` in both page variants.
 *
 * A model reply may embed one JSON "action" block. Kinds are tried in a fixed
 * order; for each kind the block finder (a regular expression) is consulted,
 * the block's payload is handed to `JSON.parse`, and the parsed value must pass
 * the kind's field check. The first kind that gets through all three wins: the
 * block is cut out of the reply and the rest, trimmed, is the display text.
 * Every failure (no block, a syntax error, a failed check, an exception while
 * formatting) silently moves on to the next kind against the same full reply.
 *
 * The regular expressions and `JSON.parse` are oracles: fields of a `Scanner`.
 */
module ResponseParser {
  import opened Wrappers
  import opened Text
  import opened Json

  /** The action kinds, named by the `action` value (or key) they look for. */
  datatype Kind =
    | DishSelectionKind | DishesConfirmedKind | GenerateLayoutKind | ProposalsKind
    | RecipeKind | SummaryKind | GenerateImageKind | EquipmentListKind

  /** One proposal as copied out of the parsed array, each field a property read. */
  datatype ProposalFields = ProposalFields(id: Prop, title: Prop, description: Prop, menuMaterial: Prop, equipment: Prop)

  /** A parsed action block; the payloads the UI stores as-is stay JSON values. */
  datatype Action =
    | DishSelection(dishList: Json, theme: Option<Json>)
    | DishesConfirmed(selectedDishes: Json)
    | GenerateLayout(layoutPrompt: Json)
    | Proposals(proposals: seq<ProposalFields>, theme: Option<Json>)
    | Recipe(recipe: Json)
    | Summary(summary: Json)
    | GenerateImage(prompt: Json)
    | EquipmentList(equipmentList: Json)
  {
    function KindOf(): Kind {
      match this
      case DishSelection(_, _) => DishSelectionKind
      case DishesConfirmed(_) => DishesConfirmedKind
      case GenerateLayout(_) => GenerateLayoutKind
      case Proposals(_, _) => ProposalsKind
      case Recipe(_) => RecipeKind
      case Summary(_) => SummaryKind
      case GenerateImage(_) => GenerateImageKind
      case EquipmentList(_) => EquipmentListKind
    }
  }

  /**
   * Oracles for one reply. `fenced(k)` is the first match of kind `k`'s fenced
   * pattern; `loose(w)` the first match of the bare-brace pattern keyed on the
   * quoted field name `w`; `unfence` strips the first opening and the first
   * closing fence; `parse` is `JSON.parse`, `None` standing for a thrown
   * syntax error.
   */
  datatype Scanner = Scanner(
    fenced: Kind -> Option<string>,
    loose: string -> Option<string>,
    unfence: string -> string,
    parse: string -> Option<Json>)

  /** What the regular-expression engine guarantees: a match is part of the reply. */
  ghost predicate Sound(sc: Scanner, reply: string) {
    && (forall k :: sc.fenced(k).Some? ==> Contains(reply, sc.fenced(k).value))
    && (forall w :: sc.loose(w).Some? ==> Contains(reply, sc.loose(w).value))
  }

  /** The two variants differ in their fallbacks and in trimming the payload. */
  datatype Variant = Legacy | Current

  /** Kind order of the legacy page (src/app_legacy/page.tsx). */
  const LegacyOrder: seq<Kind> := [
    DishSelectionKind, DishesConfirmedKind, GenerateLayoutKind, ProposalsKind,
    RecipeKind, SummaryKind, GenerateImageKind, EquipmentListKind]

  /** Kind order of the current page (src/app/page.tsx). */
  const CurrentOrder: seq<Kind> := [ProposalsKind, SummaryKind, GenerateImageKind]

  /**
   * The block found for kind `k`. The legacy page falls back to a bare-brace
   * match when the fenced pattern fails: keyed on "proposals" for proposals and
   * on "action" for the four kinds after it; the current page has no fallback.
   */
  function Locate(v: Variant, sc: Scanner, k: Kind): (m: Option<string>)
    ensures sc.fenced(k).Some? ==> m == sc.fenced(k)
    ensures v == Current ==> m == sc.fenced(k)
  {
    if sc.fenced(k).Some? || v == Current then sc.fenced(k)
    else
      match k
      case ProposalsKind => sc.loose("proposals")
      case RecipeKind | SummaryKind | GenerateImageKind | EquipmentListKind => sc.loose("action")
      case _ => None
  }

  /** The text handed to `JSON.parse`; only the legacy page trims it. */
  function Payload(v: Variant, sc: Scanner, block: string): string {
    if v == Legacy then Trim(sc.unfence(block)) else sc.unfence(block)
  }

  /**
   * Copies each array element's five fields; `None` when an element is `null`,
   * where reading `p.id` throws and the kind is abandoned.
   */
  function FormatProposals(items: seq<Json>): (r: Option<seq<ProposalFields>>)
    ensures r.None? <==> JNull in items
    ensures r.Some? ==> |r.value| == |items|
    ensures r.Some? ==> forall i :: 0 <= i < |items| ==> r.value[i] == CopyFields(items[i])
  {
    if |items| == 0 then Some([])
    else if items[0] == JNull then None
    else
      match FormatProposals(items[1..])
      case None => None
      case Some(rest) => Some([CopyFields(items[0])] + rest)
  }

  function CopyFields(p: Json): ProposalFields {
    ProposalFields(Lookup(p, "id"), Lookup(p, "title"), Lookup(p, "description"),
                   Lookup(p, "menuMaterial"), Lookup(p, "equipment"))
  }

  /** `parsed.theme` when truthy: the value a theme-driven title update would use. */
  function Theme(j: Json): Option<Json> {
    var t := Lookup(j, "theme");
    if PropTruthy(t) then Some(t.value) else None
  }

  /** The kind's field check on the parsed value; `None` when it fails. */
  function Interpret(k: Kind, j: Json): (r: Option<Action>)
    ensures r.Some? ==> r.value.KindOf() == k
    ensures k != ProposalsKind ==> (r.Some? <==> Checked(k, j))
    ensures k == ProposalsKind ==> (r.Some? <==> (Lookup(j, "proposals").Defined? && Lookup(j, "proposals").value.JArr? && JNull !in Lookup(j, "proposals").value.items))
  {
    match k
    case ProposalsKind =>
      var p := Lookup(j, "proposals");
      if p.Defined? && p.value.JArr? then
        match FormatProposals(p.value.items)
        case Some(ps) => Some(Proposals(ps, Theme(j)))
        case None => None
      else None
    case DishSelectionKind => if Checked(k, j) then Some(DishSelection(FieldOf(k, j), Theme(j))) else None
    case DishesConfirmedKind => if Checked(k, j) then Some(DishesConfirmed(FieldOf(k, j))) else None
    case GenerateLayoutKind => if Checked(k, j) then Some(GenerateLayout(FieldOf(k, j))) else None
    case RecipeKind => if Checked(k, j) then Some(Recipe(FieldOf(k, j))) else None
    case SummaryKind => if Checked(k, j) then Some(Summary(FieldOf(k, j))) else None
    case GenerateImageKind => if Checked(k, j) then Some(GenerateImage(FieldOf(k, j))) else None
    case EquipmentListKind => if Checked(k, j) then Some(EquipmentList(FieldOf(k, j))) else None
  }

  /** `parsed.action === name && parsed.field` for a non-proposal kind. */
  predicate Checked(k: Kind, j: Json) {
    PropIs(j, "action", ActionName(k)) && PropTruthy(Lookup(j, PayloadField(k)))
  }

  function FieldOf(k: Kind, j: Json): Json
    requires Checked(k, j)
  {
    Lookup(j, PayloadField(k)).value
  }

  /** The `action` value each non-proposal kind requires. */
  function ActionName(k: Kind): string {
    match k
    case DishSelectionKind => "dish_selection"
    case DishesConfirmedKind => "dishes_confirmed"
    case GenerateLayoutKind => "generate_layout"
    case ProposalsKind => "proposals"
    case RecipeKind => "recipe"
    case SummaryKind => "summary"
    case GenerateImageKind => "generate_image"
    case EquipmentListKind => "equipment_list"
  }

  /** The field that must be truthy next to the `action` value. */
  function PayloadField(k: Kind): string {
    match k
    case DishSelectionKind => "dishList"
    case DishesConfirmedKind => "selectedDishes"
    case GenerateLayoutKind => "prompt"
    case ProposalsKind => "proposals"
    case RecipeKind => "recipe"
    case SummaryKind => "summary"
    case GenerateImageKind => "prompt"
    case EquipmentListKind => "equipmentList"
  }

  /** A kind that got through: the matched block and the action built from it. */
  datatype Hit = Hit(block: string, action: Action)

  /** One kind's attempt: find the block, parse its payload, check the fields. */
  function Try(v: Variant, sc: Scanner, k: Kind): (r: Option<Hit>)
    ensures r.Some? ==> Locate(v, sc, k) == Some(r.value.block)
    ensures r.Some? ==> sc.parse(Payload(v, sc, r.value.block)).Some?
    ensures r.Some? ==> Interpret(k, sc.parse(Payload(v, sc, r.value.block)).value) == Some(r.value.action)
  {
    match Locate(v, sc, k)
    case None => None
    case Some(m) =>
      match sc.parse(Payload(v, sc, m))
      case None => None
      case Some(j) =>
        match Interpret(k, j)
        case None => None
        case Some(a) => Some(Hit(m, a))
  }

  /** The parser's result: the display text and the accepted action, if any. */
  datatype Parsed = Parsed(display: string, action: Option<Action>)

  /** The reply with the first occurrence of the block removed, then trimmed. */
  function Excise(reply: string, block: string): (r: string)
    ensures Contains(reply, block) ==> |r| <= |reply| - |block|
    ensures !Contains(reply, block) ==> r == Trim(reply)
    ensures Contains(reply, block) ==>
      var i := IndexOf(reply, block);
      r == Trim(reply[..i] + reply[i + |block|..])
  {
    RemoveFirstSplits(reply, block);
    Trim(RemoveFirst(reply, block))
  }

  lemma RemoveFirstSplits(reply: string, block: string)
    ensures Contains(reply, block) ==>
      var i := IndexOf(reply, block);
      RemoveFirst(reply, block) == reply[..i] + reply[i + |block|..]
  {
    if Contains(reply, block) {
      var i := IndexOf(reply, block);
      var rest := RemoveFirst(reply, block);
      assert rest[..i] == reply[..i];
      assert rest[i..] == reply[i + |block|..];
      assert rest == rest[..i] + rest[i..];
    }
  }

  ghost predicate FirstAcceptedAt(v: Variant, sc: Scanner, kinds: seq<Kind>, i: int) {
    && 0 <= i < |kinds|
    && Try(v, sc, kinds[i]).Some?
    && forall j :: 0 <= j < i ==> Try(v, sc, kinds[j]).None?
  }

  /** `r` is the outcome of accepting `kinds[i]`, the first kind whose block is accepted. */
  ghost predicate AcceptedAt(v: Variant, sc: Scanner, reply: string, kinds: seq<Kind>, r: Parsed, i: int) {
    && FirstAcceptedAt(v, sc, kinds, i)
    && r.action == Some(Try(v, sc, kinds[i]).value.action)
    && r.action.value.KindOf() == kinds[i]
    && r.display == Excise(reply, Try(v, sc, kinds[i]).value.block)
  }

  /** An outcome explained by the rest of the kinds is explained by all of them when the first is not accepted. */
  lemma AcceptedAtShift(v: Variant, sc: Scanner, reply: string, kinds: seq<Kind>, r: Parsed)
    requires |kinds| > 0 && Try(v, sc, kinds[0]).None?
    ensures (exists i :: AcceptedAt(v, sc, reply, kinds[1..], r, i)) ==> exists i :: AcceptedAt(v, sc, reply, kinds, r, i)
  {
    if i :| AcceptedAt(v, sc, reply, kinds[1..], r, i) {
      assert AcceptedAt(v, sc, reply, kinds, r, i + 1);
    }
  }

  /** First-match-wins over `kinds`. */
  function Dispatch(v: Variant, sc: Scanner, reply: string, kinds: seq<Kind>): (r: Parsed)
    ensures r.action.None? <==> forall i :: 0 <= i < |kinds| ==> Try(v, sc, kinds[i]).None?
    ensures r.action.None? ==> r.display == reply
    ensures r.action.Some? ==> exists i :: AcceptedAt(v, sc, reply, kinds, r, i)
  {
    if |kinds| == 0 then Parsed(reply, None)
    else
      match Try(v, sc, kinds[0])
      case Some(hit) =>
        var r := Parsed(Excise(reply, hit.block), Some(hit.action));
        assert AcceptedAt(v, sc, reply, kinds, r, 0);
        r
      case None =>
        var r := Dispatch(v, sc, reply, kinds[1..]);
        AcceptedAtShift(v, sc, reply, kinds, r);
        r
  }

  /** The accepted action names its kind, which is one of `kinds`, and the display text has that kind's block cut out. */
  lemma DispatchAccepted(v: Variant, sc: Scanner, reply: string, kinds: seq<Kind>)
    ensures var r := Dispatch(v, sc, reply, kinds);
      r.action.Some? ==>
        var k := r.action.value.KindOf();
        && k in kinds && Try(v, sc, k).Some? && Try(v, sc, k).value.action == r.action.value
        && r.display == Excise(reply, Try(v, sc, k).value.block)
  {
    var r := Dispatch(v, sc, reply, kinds);
    if r.action.Some? {
      var i :| AcceptedAt(v, sc, reply, kinds, r, i);
    }
  }

  /**
   * `parseResponse` of the legacy page: no action and the reply unchanged
   * when no kind is accepted; otherwise the action of an accepted kind of
   * the legacy order, with that kind's block cut out of the display text.
   */
  function ParseLegacy(sc: Scanner, reply: string): (r: Parsed)
    ensures r.action.None? <==> forall i :: 0 <= i < |LegacyOrder| ==> Try(Legacy, sc, LegacyOrder[i]).None?
    ensures r.action.None? ==> r.display == reply
    ensures r.action.Some? ==>
      var k := r.action.value.KindOf();
      && k in LegacyOrder && Try(Legacy, sc, k).Some? && Try(Legacy, sc, k).value.action == r.action.value
      && r.display == Excise(reply, Try(Legacy, sc, k).value.block)
  {
    DispatchAccepted(Legacy, sc, reply, LegacyOrder);
    Dispatch(Legacy, sc, reply, LegacyOrder)
  }

  /** `parseResponse` of the current page, as `ParseLegacy` for the current order. */
  function ParseCurrent(sc: Scanner, reply: string): (r: Parsed)
    ensures r.action.None? <==> forall i :: 0 <= i < |CurrentOrder| ==> Try(Current, sc, CurrentOrder[i]).None?
    ensures r.action.None? ==> r.display == reply
    ensures r.action.Some? ==>
      var k := r.action.value.KindOf();
      && k in CurrentOrder && Try(Current, sc, k).Some? && Try(Current, sc, k).value.action == r.action.value
      && r.display == Excise(reply, Try(Current, sc, k).value.block)
  {
    DispatchAccepted(Current, sc, reply, CurrentOrder);
    Dispatch(Current, sc, reply, CurrentOrder)
  }

  /** What the current page's `parseResponse` returns: text, or a prompt with text. */
  datatype Reply = Text(text: string) | ImageRequest(imagePrompt: Json, text: string)

  function CurrentReply(p: Parsed): Reply {
    match p.action
    case Some(GenerateImage(prompt)) => ImageRequest(prompt, p.display)
    case _ => Text(p.display)
  }

  /** The assistant message content: the display text, or the raw reply when that is empty. */
  function AssistantContent(display: string, raw: string): (c: string)
    ensures display != "" ==> c == display
    ensures display == "" ==> c == raw
  {
    if display != "" then display else raw
  }

  /** A reply in which no block finder matches comes back unchanged, with no action. */
  lemma NoBlockUnchanged(v: Variant, sc: Scanner, reply: string, kinds: seq<Kind>)
    requires forall i :: 0 <= i < |kinds| ==> Locate(v, sc, kinds[i]).None?
    ensures Dispatch(v, sc, reply, kinds) == Parsed(reply, None)
  {
  }

  /**
   * A kind whose block does not parse, or parses but fails its check, is
   * skipped: the next kinds are tried on the same full reply.
   */
  lemma {:induction false} FailureFallsThrough(v: Variant, sc: Scanner, reply: string, kinds: seq<Kind>)
    requires |kinds| > 0
    requires Locate(v, sc, kinds[0]).Some?
    requires var m := Locate(v, sc, kinds[0]).value;
             sc.parse(Payload(v, sc, m)).None? || Interpret(kinds[0], sc.parse(Payload(v, sc, m)).value).None?
    ensures Dispatch(v, sc, reply, kinds) == Dispatch(v, sc, reply, kinds[1..])
  {
  }

  /**
   * `display` is `reply` with the first occurrence of `block` cut out and
   * trimmed: the reply is `before + block + after` and the display text is
   * `trim(before + after)`.
   */
  ghost predicate ExcisedFrom(reply: string, block: string, display: string) {
    && Contains(reply, block)
    && var i := IndexOf(reply, block);
       && reply == reply[..i] + block + reply[i + |block|..]
       && display == Trim(reply[..i] + reply[i + |block|..])
  }

  /**
   * With a sound block finder the display text of an accepted block is the
   * reply minus the first occurrence of the block, trimmed.
   */
  lemma AcceptedBlockExcised(v: Variant, sc: Scanner, reply: string, kinds: seq<Kind>)
    requires Sound(sc, reply)
    requires Dispatch(v, sc, reply, kinds).action.Some?
    ensures exists block :: ExcisedFrom(reply, block, Dispatch(v, sc, reply, kinds).display)
  {
    var r := Dispatch(v, sc, reply, kinds);
    DispatchAccepted(v, sc, reply, kinds);
    var block := Try(v, sc, r.action.value.KindOf()).value.block;
    LocatedInReply(v, sc, reply, r.action.value.KindOf());
    ExciseSplits(reply, block);
  }

  lemma ExciseSplits(reply: string, block: string)
    requires Contains(reply, block)
    ensures ExcisedFrom(reply, block, Excise(reply, block))
  {
    var j := IndexOf(reply, block);
    assert reply == reply[..j] + block + reply[j + |block|..];
  }

  /** A sound finder's block occurs in the reply. */
  lemma LocatedInReply(v: Variant, sc: Scanner, reply: string, k: Kind)
    requires Sound(sc, reply) && Locate(v, sc, k).Some?
    ensures Contains(reply, Locate(v, sc, k).value)
  {
    var block := Locate(v, sc, k).value;
    if sc.fenced(k).Some? {
    } else if v == Legacy && k == ProposalsKind {
      assert sc.loose("proposals") == Some(block);
    } else {
      assert sc.loose("action") == Some(block);
    }
  }

  /** The current page hands back a (prompt, text) pair exactly for an accepted image block. */
  lemma CurrentReplyShape(sc: Scanner, reply: string)
    ensures var p := ParseCurrent(sc, reply);
      && (CurrentReply(p).ImageRequest? <==> p.action.Some? && p.action.value.GenerateImage?)
      && CurrentReply(p).text == p.display
      && (CurrentReply(p).ImageRequest? ==> CurrentReply(p).imagePrompt == p.action.value.prompt)
  {
  }

  /** An image block is accepted by the current page only when neither a proposals nor a summary block is. */
  lemma {:induction false} CurrentImageOnlyAfterOthers(sc: Scanner, reply: string)
    requires ParseCurrent(sc, reply).action.Some?
    requires ParseCurrent(sc, reply).action.value.GenerateImage?
    ensures Try(Current, sc, ProposalsKind).None? && Try(Current, sc, SummaryKind).None?
    ensures Try(Current, sc, GenerateImageKind).Some?
  {
    TryKind(Current, sc, ProposalsKind);
    TryKind(Current, sc, SummaryKind);
    var rest := CurrentOrder[1..];
    assert rest == [SummaryKind, GenerateImageKind];
    DispatchStep(Current, sc, reply, CurrentOrder);
    DispatchStep(Current, sc, reply, rest);
  }

  /** One step of first-match-wins: the head kind's action if it is accepted, the rest of the kinds otherwise. */
  lemma DispatchStep(v: Variant, sc: Scanner, reply: string, kinds: seq<Kind>)
    requires |kinds| > 0
    ensures Try(v, sc, kinds[0]).Some? ==>
      Dispatch(v, sc, reply, kinds).action == Some(Try(v, sc, kinds[0]).value.action)
    ensures Try(v, sc, kinds[0]).None? ==>
      Dispatch(v, sc, reply, kinds) == Dispatch(v, sc, reply, kinds[1..])
  {
  }

  /** An accepted kind builds an action of that kind. */
  lemma TryKind(v: Variant, sc: Scanner, k: Kind)
    ensures Try(v, sc, k).Some? ==> Try(v, sc, k).value.action.KindOf() == k
  {
  }

  /** An accepted proposals block yields one proposal per array element, fields copied in order. */
  lemma ProposalsCopied(k: Kind, j: Json)
    requires Interpret(k, j).Some? && Interpret(k, j).value.Proposals?
    ensures Lookup(j, "proposals").Defined? && Lookup(j, "proposals").value.JArr?
    ensures var items := Lookup(j, "proposals").value.items;
      var ps := Interpret(k, j).value.proposals;
      && |ps| == |items|
      && forall i :: 0 <= i < |items| ==>
           ps[i].id == Lookup(items[i], "id") && ps[i].title == Lookup(items[i], "title")
           && ps[i].description == Lookup(items[i], "description")
           && ps[i].menuMaterial == Lookup(items[i], "menuMaterial")
           && ps[i].equipment == Lookup(items[i], "equipment")
  {
  }
}
