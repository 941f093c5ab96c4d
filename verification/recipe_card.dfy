/**
 * src/components/RecipeCard.tsx: the text the copy button puts on the
 * clipboard for a recipe.
 */
module RecipeCard {
  import opened Wrappers
  import opened Text

  datatype Ingredient = Ingredient(name: string, amount: string)

  datatype Recipe = Recipe(title: string, servings: string, ingredients: seq<Ingredient>, steps: seq<string>, tips: Option<string>)

  function IngredientLine(ing: Ingredient): string {
    "・" + ing.name + "：" + ing.amount
  }

  function IngredientLines(ings: seq<Ingredient>): (r: seq<string>)
    ensures |r| == |ings|
    ensures forall i :: 0 <= i < |ings| ==> r[i] == IngredientLine(ings[i])
  {
    seq(|ings|, i requires 0 <= i < |ings| => IngredientLine(ings[i]))
  }

  /** Step `i` (from zero) is shown with the number `i + 1`. */
  function StepLines(steps: seq<string>): (r: seq<string>)
    ensures |r| == |steps|
    ensures forall i :: 0 <= i < |steps| ==> r[i] == NatToString(i + 1) + ". " + steps[i]
  {
    seq(|steps|, i requires 0 <= i < |steps| => NatToString(i + 1) + ". " + steps[i])
  }

  /** `recipe.tips` is truthy. */
  predicate HasTips(r: Recipe) {
    r.tips.Some? && r.tips.value != ""
  }

  /**
   * `handleCopy`: the text built up by successive `+=`. It opens with the
   * bracketed title, the servings and a blank line, and closes with the tips
   * section when there are tips, with a newline otherwise.
   */
  function CopyText(r: Recipe): (t: string)
    ensures StartsWith(t, "【" + r.title + "】\n" + r.servings + "\n\n")
    ensures HasTips(r) ==> EndsWith(t, "\n■ ポイント\n" + r.tips.value)
    ensures !HasTips(r) ==> EndsWith(t, "\n")
  {
    var tail := if HasTips(r) then "\n■ ポイント\n" + r.tips.value else "";
    CopyTextShape("【" + r.title + "】\n" + r.servings + "\n\n", "■ 材料\n", Lines(IngredientLines(r.ingredients)),
                  "\n■ 作り方\n", StepLines(r.steps), tail);
    "【" + r.title + "】\n"
    + r.servings + "\n\n"
    + "■ 材料\n"
    + Lines(IngredientLines(r.ingredients))
    + "\n■ 作り方\n"
    + Lines(StepLines(r.steps))
    + tail
  }

  lemma CopyTextShape(head: string, a: string, b: string, c: string, steps: seq<string>, tail: string)
    requires |c| > 0 && c[|c| - 1] == '\n'
    ensures var t := head + a + b + c + Lines(steps) + tail;
      && StartsWith(t, head) && EndsWith(t, tail)
      && (tail == "" ==> EndsWith(t, "\n"))
  {
    var before := head + a + b + c;
    var t := before + Lines(steps) + tail;
    assert t == head + (a + b + c + Lines(steps) + tail);
    assert t[..|head|] == head;
    assert t[|t| - |tail|..] == tail;
    LinesEndsWithNewline(steps, before);
  }

  predicate NewlineFree(r: Recipe) {
    && '\n' !in r.title && '\n' !in r.servings
    && (forall i :: 0 <= i < |r.ingredients| ==> '\n' !in r.ingredients[i].name && '\n' !in r.ingredients[i].amount)
    && (forall i :: 0 <= i < |r.steps| ==> '\n' !in r.steps[i])
    && (r.tips.Some? ==> '\n' !in r.tips.value)
  }

  /** The lines of the copy text before the tips. */
  function Body(r: Recipe): seq<string> {
    ["【" + r.title + "】", r.servings, "", "■ 材料"] + IngredientLines(r.ingredients)
    + ["", "■ 作り方"] + StepLines(r.steps)
  }

  /**
   * Read line by line, the copy text is the title in brackets, the servings,
   * a blank line, the ingredients section with one line per ingredient, a
   * blank line, the steps numbered from 1 in order, and then either the tips
   * section as the last line or a final empty line.
   */
  lemma CopyTextLines(r: Recipe)
    requires NewlineFree(r)
    ensures HasTips(r) ==> Split(CopyText(r), '\n') == Body(r) + ["", "■ ポイント", r.tips.value]
    ensures !HasTips(r) ==> Split(CopyText(r), '\n') == Body(r) + [""]
  {
    CopyTextAsLines(r);
    forall i | 0 <= i < |Body(r)| ensures '\n' !in Body(r)[i] {
      BodyLineNewlineFree(r, i);
    }
    SplitLines(Body(r), Tail(r));
    TailLines(r);
  }

  lemma TailLines(r: Recipe)
    requires NewlineFree(r)
    ensures Split(Tail(r), '\n') == if HasTips(r) then ["", "■ ポイント", r.tips.value] else [""]
  {
    if HasTips(r) {
      assert Tail(r) == Lines(["", "■ ポイント"]) + r.tips.value;
      SplitLines(["", "■ ポイント"], r.tips.value);
    }
  }

  function Tail(r: Recipe): string {
    if HasTips(r) then "\n■ ポイント\n" + r.tips.value else ""
  }

  lemma CopyTextAsLines(r: Recipe)
    ensures CopyText(r) == Lines(Body(r)) + Tail(r)
  {
    var head := ["【" + r.title + "】", r.servings, "", "■ 材料"];
    var mid := ["", "■ 作り方"];
    HeadLines(r.title, r.servings);
    assert Lines(mid) == "\n■ 作り方\n";
    SectionsAsLines(head, IngredientLines(r.ingredients), mid, StepLines(r.steps),
                    "【" + r.title + "】\n" + r.servings + "\n\n" + "■ 材料\n", "\n■ 作り方\n", Tail(r));
  }

  /** Two headed sections written out one after the other are the lines of all four parts. */
  lemma SectionsAsLines(head: seq<string>, a: seq<string>, mid: seq<string>, b: seq<string>,
                        headText: string, midText: string, tail: string)
    requires Lines(head) == headText && Lines(mid) == midText
    ensures headText + Lines(a) + midText + Lines(b) + tail == Lines(head + a + mid + b) + tail
  {
    LinesAppend(head, a);
    LinesAppend(mid, b);
    assert head + a + mid + b == (head + a) + (mid + b);
    LinesAppend(head + a, mid + b);
    Assoc(headText + Lines(a), midText, Lines(b));
  }

  lemma HeadLines(title: string, servings: string)
    ensures Lines(["【" + title + "】", servings, "", "■ 材料"]) == "【" + title + "】\n" + servings + "\n\n" + "■ 材料\n"
  {
    var head := ["【" + title + "】", servings, "", "■ 材料"];
    assert Lines(head[3..]) == "■ 材料\n";
    assert Lines(head[2..]) == "\n" + Lines(head[3..]);
    assert Lines(head[1..]) == servings + "\n" + Lines(head[2..]);
  }

  lemma BodyLineNewlineFree(r: Recipe, i: nat)
    requires NewlineFree(r) && i < |Body(r)|
    ensures '\n' !in Body(r)[i]
  {
    var n := |r.ingredients|;
    if 4 <= i < 4 + n {
      assert Body(r)[i] == IngredientLine(r.ingredients[i - 4]);
    } else if 6 + n <= i {
      var k := i - 6 - n;
      assert Body(r)[i] == NatToString(k + 1) + ". " + r.steps[k];
    }
  }

  /** The number in front of step line `i`, read back, is `i + 1`: the steps are numbered 1, 2, … in order. */
  lemma StepNumbering(steps: seq<string>, i: nat)
    requires i < |steps|
    ensures BeforeFirst(StepLines(steps)[i], '.') == NatToString(i + 1)
    ensures ParseNat(NatToString(i + 1)) == i + 1
  {
    var digits := NatToString(i + 1);
    assert StepLines(steps)[i] == digits + ['.'] + (" " + steps[i]);
    SplitHead(digits, '.', " " + steps[i]);
    NatToStringRoundTrip(i + 1);
  }
}
