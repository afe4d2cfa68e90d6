/**
 The new-state computations of the checklist page's handlers, each a function of
 the current type's `ChecklistData` (and of the input buffers where the handler
 reads them), with lemmas stating what each one does and that each keeps the
 store's invariant (`Model.WellFormed`).
 */
module Transitions {
  import opened Wrappers
  import opened Model
  import opened Text
  import opened ListOps

  // ---------------------------------------------------------------------------
  // addItem

  /** `newItems[categoria]?.trim()`: a category without a buffer reads as blank. */
  function PendingText(newItems: map<string, string>, c: string): (r: string)
  {
    if c in newItems then Trim(newItems[c]) else ""
  }

  /** `addItem` with the already trimmed `text`: a blank text changes nothing.
      The handler reads `items[c]` only when it appends, so only then must `c` have a list. */
  function AddItem(d: ChecklistData, c: string, text: string): (r: ChecklistData)
    requires text != "" ==> c in d.items
  {
    if text == "" then d
    else d.(items := d.items[c := d.items[c] + [Item(text, false)]])
  }

  /** A non-blank text is appended, unchecked, at the end of its category's list;
      every other category and the category order are untouched. */
  lemma AddItemAppends(d: ChecklistData, c: string, text: string)
    requires c in d.items && text != ""
    ensures AddItem(d, c, text).categorias == d.categorias
    ensures AddItem(d, c, text).items.Keys == d.items.Keys
    ensures AddItem(d, c, text).items[c] == d.items[c] + [Item(text, false)]
    ensures |AddItem(d, c, text).items[c]| == |d.items[c]| + 1
    ensures forall e :: e in d.items && e != c ==> AddItem(d, c, text).items[e] == d.items[e]
    ensures WellFormed(d) ==> WellFormed(AddItem(d, c, text))
  {
  }

  /** A missing, empty or whitespace-only buffer adds nothing. */
  lemma {:induction false} AddBlankIsNoop(d: ChecklistData, newItems: map<string, string>, c: string)
    requires c !in newItems || AllSpace(newItems[c])
    ensures PendingText(newItems, c) == ""
    ensures AddItem(d, c, PendingText(newItems, c)) == d
  {
    if c in newItems {
      TrimEmptyIff(newItems[c]);
    }
  }

  /** `removeItem` with the user's answer to the confirmation prompt. */
  function RemoveItem(d: ChecklistData, c: string, index: int, confirm: bool): (r: ChecklistData)
    requires confirm ==> c in d.items
  {
    if !confirm then d
    else d.(items := d.items[c := DropIndex(d.items[c], index)])
  }

  /** Declining changes nothing. Confirming drops the item at `index` (if there is
      one), keeps the order of the rest, and touches no other category. */
  lemma RemoveItemEffect(d: ChecklistData, c: string, index: int, confirm: bool)
    requires c in d.items
    ensures !confirm ==> RemoveItem(d, c, index, confirm) == d
    ensures RemoveItem(d, c, index, confirm).categorias == d.categorias
    ensures RemoveItem(d, c, index, confirm).items.Keys == d.items.Keys
    ensures confirm && 0 <= index < |d.items[c]| ==>
              RemoveItem(d, c, index, confirm).items[c] == d.items[c][..index] + d.items[c][index + 1..]
    ensures confirm && !(0 <= index < |d.items[c]|) ==> RemoveItem(d, c, index, confirm) == d
    ensures forall e :: e in d.items && e != c ==> RemoveItem(d, c, index, confirm).items[e] == d.items[e]
    ensures WellFormed(d) ==> WellFormed(RemoveItem(d, c, index, confirm))
  {
    if confirm && !(0 <= index < |d.items[c]|) {
      assert d.items[c := d.items[c]] == d.items;
    }
  }

  /** Adding an item and then removing the last position (confirmed) undoes the add. */
  lemma {:induction false} RemoveUndoesAdd(d: ChecklistData, c: string, text: string)
    requires c in d.items && text != ""
    ensures RemoveItem(AddItem(d, c, text), c, |d.items[c]|, true) == d
  {
    DropLastOfAppend(d.items[c], Item(text, false));
    assert d.items[c := d.items[c]] == d.items;
  }

  // ---------------------------------------------------------------------------
  // toggleCheck and saveEdit

  /** `toggleCheck`. */
  function ToggleCheck(d: ChecklistData, c: string, index: int): (r: ChecklistData)
    requires c in d.items
  {
    d.(items := d.items[c := ToggleAt(d.items[c], index)])
  }

  /** Only the `checked` flag of the item at `index` changes. */
  lemma ToggleCheckEffect(d: ChecklistData, c: string, index: int)
    requires c in d.items
    ensures ToggleCheck(d, c, index).categorias == d.categorias
    ensures ToggleCheck(d, c, index).items.Keys == d.items.Keys
    ensures |ToggleCheck(d, c, index).items[c]| == |d.items[c]|
    ensures 0 <= index < |d.items[c]| ==>
              ToggleCheck(d, c, index).items[c][index] == Item(d.items[c][index].text, !d.items[c][index].checked)
    ensures forall k :: 0 <= k < |d.items[c]| && k != index ==> ToggleCheck(d, c, index).items[c][k] == d.items[c][k]
    ensures forall e :: e in d.items && e != c ==> ToggleCheck(d, c, index).items[e] == d.items[e]
    ensures WellFormed(d) ==> WellFormed(ToggleCheck(d, c, index))
  {
    ToggleAtEffect(d.items[c], index);
  }

  /** Toggling the same item twice restores the checklist. */
  lemma {:induction false} ToggleCheckTwice(d: ChecklistData, c: string, index: int)
    requires c in d.items
    ensures ToggleCheck(ToggleCheck(d, c, index), c, index) == d
  {
    ToggleTwice(d.items[c], index);
    assert d.items[c := d.items[c]] == d.items;
  }

  /** `saveEdit`: when both halves of `editing` are set, the edited item's text
      becomes `editingText` as typed (no trimming, empty allowed). */
  function SaveEdit(d: ChecklistData, editing: Editing, editingText: string): (r: ChecklistData)
    requires editing.categoria.Some? && editing.index.Some? ==> editing.categoria.value in d.items
  {
    if editing.categoria.Some? && editing.index.Some? then
      var c := editing.categoria.value;
      d.(items := d.items[c := SetTextAt(d.items[c], editing.index.value, editingText)])
    else d
  }

  /** With an item selected its text is replaced verbatim and its flag kept; with
      either half of `editing` null nothing changes. */
  lemma SaveEditEffect(d: ChecklistData, editing: Editing, editingText: string)
    requires editing.categoria.Some? && editing.index.Some? ==> editing.categoria.value in d.items
    ensures editing.categoria.None? || editing.index.None? ==> SaveEdit(d, editing, editingText) == d
    ensures SaveEdit(d, editing, editingText).categorias == d.categorias
    ensures SaveEdit(d, editing, editingText).items.Keys == d.items.Keys
    ensures editing.categoria.Some? && editing.index.Some? ==>
              var c, i := editing.categoria.value, editing.index.value;
              && |SaveEdit(d, editing, editingText).items[c]| == |d.items[c]|
              && (0 <= i < |d.items[c]| ==> SaveEdit(d, editing, editingText).items[c][i] == Item(editingText, d.items[c][i].checked))
              && (forall k :: 0 <= k < |d.items[c]| && k != i ==> SaveEdit(d, editing, editingText).items[c][k] == d.items[c][k])
              && (forall e :: e in d.items && e != c ==> SaveEdit(d, editing, editingText).items[e] == d.items[e])
    ensures WellFormed(d) ==> WellFormed(SaveEdit(d, editing, editingText))
  {
    if editing.categoria.Some? && editing.index.Some? {
      SetTextAtEffect(d.items[editing.categoria.value], editing.index.value, editingText);
    }
  }

  // ---------------------------------------------------------------------------
  // salvarNomeCategoria

  /** `categorias.map(cat => cat === antiga ? novo : cat)`. */
  function Replace(cs: seq<string>, antiga: string, novo: string): (r: seq<string>)
  {
    seq(|cs|, i requires 0 <= i < |cs| => if cs[i] == antiga then novo else cs[i])
  }

  /** The rename guard: a non-blank new name, different from the antiga one, not yet in use. */
  predicate RenameAccepted(d: ChecklistData, antiga: string, novo: string)
  {
    novo != "" && novo != antiga && novo !in d.categorias
  }

  /** The maps the rename's `forEach` builds: one entry per new category name, the
      new name taking the old name's value, every other name keeping its own, and
      a missing value read as `dflt`. */
  function Rekey<V>(cats: seq<string>, m: map<string, V>, antiga: string, novo: string, dflt: V): (r: map<string, V>)
  {
    map c | c in cats :: if c == novo then GetOr(m, antiga, dflt) else GetOr(m, c, dflt)
  }

  /** The checklist after `salvarNomeCategoria(antiga)`, `novo` being the trimmed
      content of the name field. */
  function Rename(d: ChecklistData, antiga: string, novo: string): (r: ChecklistData)
  {
    if RenameAccepted(d, antiga, novo) then
      var cats := Replace(d.categorias, antiga, novo);
      ChecklistData(cats, Rekey(cats, d.items, antiga, novo, []))
    else d
  }

  /** The new-item buffers after the same rename. */
  function RenameInputs(d: ChecklistData, newItems: map<string, string>, antiga: string, novo: string): (r: map<string, string>)
  {
    if RenameAccepted(d, antiga, novo) then Rekey(Replace(d.categorias, antiga, novo), newItems, antiga, novo, "")
    else newItems
  }

  /** A blank new name, the old name itself, or a name already in use changes nothing. */
  lemma RenameRejected(d: ChecklistData, newItems: map<string, string>, antiga: string, novo: string)
    requires novo == "" || novo == antiga || novo in d.categorias
    ensures Rename(d, antiga, novo) == d
    ensures RenameInputs(d, newItems, antiga, novo) == newItems
  {
  }

  lemma ReplaceDistinct(cs: seq<string>, antiga: string, novo: string)
    requires Distinct(cs) && novo !in cs
    ensures Distinct(Replace(cs, antiga, novo))
  {
    var r := Replace(cs, antiga, novo);
    forall i, j | 0 <= i < j < |r| ensures r[i] != r[j] {
      if cs[i] == antiga {
        assert cs[j] != antiga;
      }
    }
  }

  /** Replacing a name that occurs once swaps it for the new name in the set of names. */
  lemma ReplaceElems(cs: seq<string>, antiga: string, novo: string)
    requires Distinct(cs) && antiga in cs && novo != antiga
    ensures Elems(Replace(cs, antiga, novo)) == Elems(cs) - {antiga} + {novo}
  {
    var r := Replace(cs, antiga, novo);
    var i :| 0 <= i < |cs| && cs[i] == antiga;
    assert r[i] == novo;
    forall e | e in cs && e != antiga ensures e in r {
      var j :| 0 <= j < |cs| && cs[j] == e;
      assert r[j] == e;
    }
    forall e | e in r ensures e in Elems(cs) - {antiga} + {novo} {
      var j :| 0 <= j < |r| && r[j] == e;
      assert cs[j] != antiga ==> e == cs[j];
    }
  }

  /** A successful rename puts the new name at the old name's position, moves the
      old name's items under the new name, keeps every other category's items,
      and keeps the invariant. */
  lemma RenameEffect(d: ChecklistData, antiga: string, novo: string)
    requires WellFormed(d) && antiga in d.categorias && RenameAccepted(d, antiga, novo)
    ensures var r := Rename(d, antiga, novo);
      && |r.categorias| == |d.categorias|
      && (forall i :: 0 <= i < |d.categorias| ==>
            r.categorias[i] == if d.categorias[i] == antiga then novo else d.categorias[i])
      && novo in r.items && r.items[novo] == d.items[antiga]
      && antiga !in r.items
      && (forall e :: e in d.items && e != antiga ==> e in r.items && r.items[e] == d.items[e])
      && WellFormed(r)
  {
    ReplaceDistinct(d.categorias, antiga, novo);
    ReplaceElems(d.categorias, antiga, novo);
  }

  /** The new-item buffers are re-keyed the same way: the new name takes over the
      old name's pending text, and there is one buffer per category. */
  lemma RenameInputsEffect(d: ChecklistData, newItems: map<string, string>, antiga: string, novo: string)
    requires WellFormed(d) && antiga in d.categorias && RenameAccepted(d, antiga, novo)
    ensures var r := RenameInputs(d, newItems, antiga, novo);
      && r.Keys == Elems(Rename(d, antiga, novo).categorias)
      && novo in r && r[novo] == GetOr(newItems, antiga, "")
      && antiga !in r
      && (forall e :: e in d.items && e != antiga ==> e in r && r[e] == GetOr(newItems, e, ""))
  {
    ReplaceElems(d.categorias, antiga, novo);
  }

  /** Renaming a name that is not a category leaves the checklist as it was. */
  lemma RenameMissingIsIdentity(d: ChecklistData, antiga: string, novo: string)
    requires WellFormed(d) && antiga !in d.categorias
    ensures Rename(d, antiga, novo) == d
  {
    if RenameAccepted(d, antiga, novo) {
      var cats := Replace(d.categorias, antiga, novo);
      assert cats == d.categorias;
      var m := Rekey(cats, d.items, antiga, novo, []);
      assert m.Keys == d.items.Keys;
      assert forall e :: e in m ==> m[e] == d.items[e];
    }
  }

  /** Whatever the names, a rename keeps the store invariant. */
  lemma RenameKeepsInvariant(d: ChecklistData, antiga: string, novo: string)
    requires WellFormed(d)
    ensures WellFormed(Rename(d, antiga, novo))
  {
    if !RenameAccepted(d, antiga, novo) {
    } else if antiga in d.categorias {
      RenameEffect(d, antiga, novo);
    } else {
      RenameMissingIsIdentity(d, antiga, novo);
    }
  }

  /** Renaming a category and then renaming it back restores the checklist. */
  lemma RenameRoundTrip(d: ChecklistData, a: string, b: string)
    requires WellFormed(d) && a in d.categorias && a != "" && RenameAccepted(d, a, b)
    ensures Rename(Rename(d, a, b), b, a) == d
  {
    var d1 := Rename(d, a, b);
    RenameEffect(d, a, b);
    ReplaceElems(d.categorias, a, b);
    assert RenameAccepted(d1, b, a);
    var d2 := Rename(d1, b, a);
    assert d2.categorias == d.categorias;
    ReplaceElems(d1.categorias, b, a);
    assert d2.items.Keys == d.items.Keys;
    forall e | e in d.items ensures d2.items[e] == d.items[e] {
    }
    assert d2.items == d.items;
  }

  // ---------------------------------------------------------------------------
  // adicionarCategoria

  /** The guard of `adicionarCategoria` on the trimmed name. */
  predicate AddCategoryAccepted(d: ChecklistData, nome: string)
  {
    nome != "" && nome !in d.categorias
  }

  /** The checklist after `adicionarCategoria`, `nome` being the trimmed content
      of the new-category field. */
  function AddCategory(d: ChecklistData, nome: string): (r: ChecklistData)
  {
    if AddCategoryAccepted(d, nome) then
      d.(categorias := d.categorias + [nome], items := d.items[nome := []])
    else d
  }

  /** A fresh, non-blank name is appended with an empty list; a blank or taken name
      changes nothing; the invariant holds afterwards either way. */
  lemma AddCategoryEffect(d: ChecklistData, nome: string)
    ensures var r := AddCategory(d, nome);
      && (!AddCategoryAccepted(d, nome) ==> r == d)
      && (AddCategoryAccepted(d, nome) ==>
            && r.categorias == d.categorias + [nome]
            && nome in r.items && r.items[nome] == []
            && (forall e :: e in d.items && e != nome ==> e in r.items && r.items[e] == d.items[e]))
    ensures WellFormed(d) ==> WellFormed(AddCategory(d, nome))
  {
    if AddCategoryAccepted(d, nome) && WellFormed(d) {
      var r := AddCategory(d, nome);
      assert Elems(r.categorias) == Elems(d.categorias) + {nome};
    }
  }

  // ---------------------------------------------------------------------------
  // Edit mode on mount

  /** `Object.values(items).every(lista => lista.length === 0)`. */
  predicate NoItems(d: ChecklistData)
  {
    forall c :: c in d.items ==> |d.items[c]| == 0
  }

  /** A checklist with at least one item anywhere does not start in edit mode; a
      default checklist does. */
  lemma NoItemsCases(d: ChecklistData, c: string, text: string, t: Tipo)
    requires c in d.items && text != ""
    ensures !NoItems(AddItem(d, c, text))
    ensures NoItems(DefaultData(t))
  {
    assert |AddItem(d, c, text).items[c]| > 0;
  }
}
