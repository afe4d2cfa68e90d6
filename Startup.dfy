/**
 The start-up rule that decides whether the page opens in edit mode: on when
 the current type's checklist has no item at all.
 */
module Startup {
  import opened Wrappers
  import opened Model
  import Transitions

  /** The rule itself, on a given store (`checklists[tipo]?.items || {}`: a type
      without an entry counts as having no items). */
  predicate EditModeOnMount(cl: Checklists, tipo: Tipo)
  {
    tipo !in cl || Transitions.NoItems(cl[tipo])
  }

  /** The store once the saved blob, if any, has replaced the defaults. */
  function StoreAfterLoad(saved: Option<Checklists>): (r: Checklists)
  {
    if saved.Some? then saved.value else DefaultChecklists()
  }

  /** The mount effect as written: the rule is applied to the store of the first
      render, which is always the default store, whatever was loaded. */
  predicate EditModeAsWritten(saved: Option<Checklists>, tipo: Tipo)
  {
    EditModeOnMount(DefaultChecklists(), tipo)
  }

  /** The rule applied to the store as loaded, as the comment beside it describes. */
  predicate EditModeIntended(saved: Option<Checklists>, tipo: Tipo)
  {
    EditModeOnMount(StoreAfterLoad(saved), tipo)
  }

  /** As written, the page always opens in edit mode. */
  lemma EditModeAsWrittenAlwaysOn(saved: Option<Checklists>, tipo: Tipo)
    ensures EditModeAsWritten(saved, tipo)
  {
    DefaultChecklistsValid();
  }

  /** A saved shopping list holding one item: as written the page still opens in
      edit mode, while the intended rule keeps it off. */
  lemma EditModeAsWrittenIgnoresSavedItems()
    ensures var saved := DefaultChecklists()[Compras := Transitions.AddItem(DefaultData(Compras), "Padaria", "Leite")];
      EditModeAsWritten(Some(saved), Compras) && !EditModeIntended(Some(saved), Compras)
  {
    var d := DefaultData(Compras);
    assert "Padaria" in CategoriasPadrao(Compras);
    assert "Padaria" in d.items;
    var saved := DefaultChecklists()[Compras := Transitions.AddItem(d, "Padaria", "Leite")];
    assert |saved[Compras].items["Padaria"]| == 1;
    EditModeAsWrittenAlwaysOn(Some(saved), Compras);
  }

  /** Intended rule: with nothing saved the page opens in edit mode; a saved store
      whose current type has an item opens with edit mode off. */
  lemma EditModeIntendedCases(saved: Option<Checklists>, tipo: Tipo, c: string)
    ensures saved.None? ==> EditModeIntended(saved, tipo)
    ensures (saved.Some? && tipo in saved.value && c in saved.value[tipo].items
             && saved.value[tipo].items[c] != []) ==> !EditModeIntended(saved, tipo)
  {
    DefaultChecklistsValid();
  }
}
