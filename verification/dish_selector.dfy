/**
 * src/components/DishSelector.tsx: choosing exactly `maxSelection` dishes
 * (three by default) in click order, and showing the offered dishes grouped
 * by category.
 */
module DishSelector {
  import opened Wrappers
  import opened Grouping

  datatype DishOption = DishOption(id: string, name: string, category: string, description: string, appeal: string)

  /** The `maxSelection` default. */
  const DefaultMaxSelection: nat := 3

  predicate NoDup(sel: seq<string>) {
    forall i, j :: 0 <= i < j < |sel| ==> sel[i] != sel[j]
  }

  /** What the component keeps true of `selectedIds`. */
  predicate Valid(sel: seq<string>, max: nat) {
    NoDup(sel) && |sel| <= max
  }

  /** Position of `id` in a list that holds it. */
  function Pos(sel: seq<string>, id: string): (k: nat)
    requires id in sel
    ensures k < |sel| && sel[k] == id && id !in sel[..k]
  {
    if sel[0] == id then 0 else 1 + Pos(sel[1..], id)
  }

  /** `prev.filter((i) => i !== id)`. */
  function Without(sel: seq<string>, id: string): (r: seq<string>)
    ensures forall x :: x in r <==> x in sel && x != id
    ensures id !in sel ==> r == sel
  {
    if |sel| == 0 then []
    else if sel[0] == id then Without(sel[1..], id)
    else [sel[0]] + Without(sel[1..], id)
  }

  /** Filtering keeps a list duplicate-free. */
  lemma {:induction false} WithoutNoDup(sel: seq<string>, id: string)
    ensures NoDup(sel) ==> NoDup(Without(sel, id))
  {
    if |sel| > 0 && NoDup(sel) {
      assert NoDup(sel[1..]) by {
        forall i, j | 0 <= i < j < |sel[1..]| ensures sel[1..][i] != sel[1..][j] {
          assert sel[1..][i] == sel[i + 1] && sel[1..][j] == sel[j + 1];
        }
      }
      WithoutNoDup(sel[1..], id);
      if sel[0] != id {
        var rest := Without(sel[1..], id);
        assert sel[0] !in sel[1..];
        assert sel[0] !in rest;
        assert NoDup([sel[0]] + rest) by {
          forall i, j | 0 <= i < j < |rest| + 1 ensures ([sel[0]] + rest)[i] != ([sel[0]] + rest)[j] {
            if i == 0 {
              assert ([sel[0]] + rest)[j] == rest[j - 1];
            } else {
              assert ([sel[0]] + rest)[i] == rest[i - 1] && ([sel[0]] + rest)[j] == rest[j - 1];
            }
          }
        }
      }
    }
  }

  /** In a duplicate-free list, filtering out a present id cuts it out at its position. */
  lemma {:induction false} WithoutAt(sel: seq<string>, id: string)
    ensures NoDup(sel) && id in sel ==> Without(sel, id) == sel[..Pos(sel, id)] + sel[Pos(sel, id) + 1..]
  {
    if NoDup(sel) && id in sel {
      if sel[0] == id {
        assert id !in sel[1..] by {
          forall k | 0 <= k < |sel[1..]| ensures sel[1..][k] != id {
            assert sel[1..][k] == sel[k + 1];
          }
        }
      } else {
        assert NoDup(sel[1..]) by {
          forall i, j | 0 <= i < j < |sel[1..]| ensures sel[1..][i] != sel[1..][j] {
            assert sel[1..][i] == sel[i + 1] && sel[1..][j] == sel[j + 1];
          }
        }
        WithoutAt(sel[1..], id);
        var q := Pos(sel[1..], id);
        assert Pos(sel, id) == q + 1;
        assert sel[..q + 1] == [sel[0]] + sel[1..][..q];
        assert sel[q + 2..] == sel[1..][q + 1..];
      }
    }
  }

  /**
   * `handleToggle`: a selected id is removed, keeping the others in order; an
   * unselected one is appended, unless the selection is already full.
   */
  function Toggle(sel: seq<string>, id: string, max: nat): (r: seq<string>)
    ensures id in sel && NoDup(sel) ==> r == sel[..Pos(sel, id)] + sel[Pos(sel, id) + 1..]
    ensures id in sel ==> id !in r
    ensures id !in sel && |sel| >= max ==> r == sel
    ensures id !in sel && |sel| < max ==> r == sel + [id]
    ensures Valid(sel, max) ==> Valid(r, max)
  {
    if id in sel then
      WithoutNoDup(sel, id);
      WithoutAt(sel, id);
      Without(sel, id)
    else if |sel| >= max then sel
    else
      assert Valid(sel, max) ==> NoDup(sel + [id]) by {
        if Valid(sel, max) {
          forall i, j | 0 <= i < j < |sel| + 1 ensures (sel + [id])[i] != (sel + [id])[j] {
            if j == |sel| {
              assert sel[i] in sel;
            }
          }
        }
      }
      sel + [id]
  }

  /** Every selection reachable by clicks from the empty one is valid. */
  function ToggleAll(ids: seq<string>, max: nat): (sel: seq<string>)
    ensures Valid(sel, max)
  {
    if |ids| == 0 then [] else Toggle(ToggleAll(ids[..|ids| - 1], max), ids[|ids| - 1], max)
  }

  /** Toggling an id in and out again, below capacity, restores the selection. */
  lemma ToggleTwiceRestores(sel: seq<string>, id: string, max: nat)
    requires Valid(sel, max) && id !in sel && |sel| < max
    ensures Toggle(Toggle(sel, id, max), id, max) == sel
  {
    var s := sel + [id];
    assert Pos(s, id) == |sel| by {
      assert s[|sel|] == id && id !in s[..|sel|];
    }
    assert s[..|sel|] == sel;
  }

  /** `handleConfirm`: the ordered selection is handed on iff it is exactly full. */
  function Confirm(sel: seq<string>, max: nat): (r: Option<seq<string>>)
    ensures r.Some? <==> |sel| == max
    ensures r.Some? ==> r.value == sel
  {
    if |sel| == max then Some(sel) else None
  }

  /** The badge on a dish: `selectedIds.indexOf(id) + 1`, so 0 for an unselected dish. */
  function OrderNumber(sel: seq<string>, id: string): (n: nat)
    ensures n == 0 <==> id !in sel
    ensures n > 0 ==> n <= |sel| && sel[n - 1] == id && id !in sel[..n - 1]
  {
    if id in sel then Pos(sel, id) + 1 else 0
  }

  /** A dish button is disabled when it is unselected and the selection is full. */
  predicate IsDisabled(sel: seq<string>, id: string, max: nat) {
    id !in sel && |sel| >= max
  }

  /** Clicking is possible exactly on the buttons whose toggle changes the selection. */
  lemma DisabledIffToggleIsNoOp(sel: seq<string>, id: string, max: nat)
    requires Valid(sel, max)
    ensures IsDisabled(sel, id, max) <==> Toggle(sel, id, max) == sel
  {
    if id in sel {
      assert id !in Toggle(sel, id, max);
    } else if |sel| < max {
      assert |Toggle(sel, id, max)| == |sel| + 1;
    }
  }

  /** `dish.category || "その他"`. */
  function CategoryOf(d: DishOption): (c: string)
    ensures c != ""
    ensures d.category != "" ==> c == d.category
  {
    if d.category == "" then "その他" else d.category
  }

  const CategoryOrder: seq<string> := ["メイン", "副菜", "スープ", "その他"]

  /** The grouped dishes. */
  function Grouped(dishes: seq<DishOption>): seq<Group<DishOption>> {
    GroupBy(dishes, CategoryOf)
  }

  /** The groups on screen: those of `categoryOrder`, in that order, that have dishes. */
  function Shown(dishes: seq<DishOption>): (r: seq<Group<DishOption>>)
    ensures |r| <= |CategoryOrder|
  {
    ShownFrom(Grouped(dishes), CategoryOrder)
  }

  /** The group of category `c` exists and is not empty. */
  predicate Present(gs: seq<Group<DishOption>>, c: string) {
    var i := FindKey(gs, c);
    i >= 0 && |gs[i].items| > 0
  }

  /** `categoryOrder.map(...)`, skipping categories without dishes. */
  function ShownFrom(gs: seq<Group<DishOption>>, order: seq<string>): (r: seq<Group<DishOption>>)
    ensures |r| <= |order|
    ensures forall g :: g in r ==> g in gs && |g.items| > 0
  {
    if |order| == 0 then []
    else
      var rest := ShownFrom(gs, order[1..]);
      if Present(gs, order[0]) then [gs[FindKey(gs, order[0])]] + rest else rest
  }

  ghost predicate HasCategory(dishes: seq<DishOption>, c: string) {
    exists d :: d in dishes && CategoryOf(d) == c
  }

  /** Reference: the categories of `order` that some dish has, in that order. */
  ghost function Occupied(order: seq<string>, dishes: seq<DishOption>): seq<string> {
    if |order| == 0 then []
    else if HasCategory(dishes, order[0]) then [order[0]] + Occupied(order[1..], dishes)
    else Occupied(order[1..], dishes)
  }

  /** A category's group is present iff some dish has it, and then it holds exactly those dishes. */
  lemma GroupedPresent(dishes: seq<DishOption>, c: string)
    ensures Present(Grouped(dishes), c) <==> HasCategory(dishes, c)
    ensures Present(Grouped(dishes), c) ==>
      Grouped(dishes)[FindKey(Grouped(dishes), c)].items == Filter(dishes, CategoryOf, c)
  {
    var gs := Grouped(dishes);
    GroupByIsFilter(dishes, CategoryOf);
    var i := FindKey(gs, c);
    if HasCategory(dishes, c) {
      var d :| d in dishes && CategoryOf(d) == c;
      assert c in Keys(gs);
      assert d in gs[i].items;
    }
  }

  lemma {:induction false} ShownFromKeys(gs: seq<Group<DishOption>>, order: seq<string>, dishes: seq<DishOption>)
    requires forall c :: Present(gs, c) <==> HasCategory(dishes, c)
    ensures Keys(ShownFrom(gs, order)) == Occupied(order, dishes)
  {
    if |order| > 0 {
      ShownFromKeys(gs, order[1..], dishes);
      var rest := ShownFrom(gs, order[1..]);
      if Present(gs, order[0]) {
        assert Keys([gs[FindKey(gs, order[0])]] + rest) == [order[0]] + Keys(rest);
      }
    }
  }

  lemma {:induction false} ShownFromItems(gs: seq<Group<DishOption>>, order: seq<string>, dishes: seq<DishOption>)
    requires forall c :: Present(gs, c) ==> gs[FindKey(gs, c)].items == Filter(dishes, CategoryOf, c)
    ensures forall g :: g in ShownFrom(gs, order) ==> g.items == Filter(dishes, CategoryOf, g.key)
  {
    if |order| > 0 {
      ShownFromItems(gs, order[1..], dishes);
    }
  }

  /**
   * What the selector shows: one block per category of `categoryOrder` that
   * has dishes, in that order, each listing exactly the dishes of that
   * category in input order.
   */
  lemma ShownGroups(dishes: seq<DishOption>)
    ensures Keys(Shown(dishes)) == Occupied(CategoryOrder, dishes)
    ensures forall g :: g in Shown(dishes) ==> g.items == Filter(dishes, CategoryOf, g.key)
  {
    var gs := Grouped(dishes);
    forall c ensures Present(gs, c) <==> HasCategory(dishes, c)
      ensures Present(gs, c) ==> gs[FindKey(gs, c)].items == Filter(dishes, CategoryOf, c)
    {
      GroupedPresent(dishes, c);
    }
    ShownFromKeys(gs, CategoryOrder, dishes);
    ShownFromItems(gs, CategoryOrder, dishes);
  }

  /** A dish is shown iff its category is one of the four: any other category is never shown. */
  lemma ShownDish(dishes: seq<DishOption>, d: DishOption)
    requires d in dishes
    ensures (exists g :: g in Shown(dishes) && d in g.items) <==> CategoryOf(d) in CategoryOrder
  {
    ShownGroups(dishes);
    OccupiedMembers(CategoryOrder, dishes, d);
    var r := Shown(dishes);
    if CategoryOf(d) in CategoryOrder {
      assert CategoryOf(d) in Keys(r);
      var j :| 0 <= j < |r| && Keys(r)[j] == CategoryOf(d);
      assert d in r[j].items;
    }
  }

  lemma {:induction false} OccupiedMembers(order: seq<string>, dishes: seq<DishOption>, d: DishOption)
    requires d in dishes
    ensures CategoryOf(d) in Occupied(order, dishes) <==> CategoryOf(d) in order
    ensures forall c :: c in Occupied(order, dishes) ==> c in order
  {
    if |order| > 0 {
      OccupiedMembers(order[1..], dishes, d);
    }
  }
}
