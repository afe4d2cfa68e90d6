/**
 The page component's state and its event handlers. Each handler is one atomic
 step on the current state; its new state is given by the functions of
 `Transitions`, and every handler keeps the store invariant `Valid()`.
 */
module Store {
  import opened Wrappers
  import opened Model
  import opened Text
  import opened Builders
  import Transitions
  import Startup

  class ChecklistStore {
    var tipoAtual: Tipo
    var checklists: Checklists
    /** The "new item" text field of each category. */
    var newItems: map<string, string>
    var editing: Editing
    var editingText: string
    var categoriaEditando: Option<string>
    var novoNomeCategoria: string
    var novaCategoria: string
    var modoEdicao: bool

    /** Every type has a checklist, and each keeps its categories distinct and in
        lock-step with the keys of its item map. */
    ghost predicate Valid()
      reads this`checklists, this`tipoAtual
    {
      StoreValid(checklists) && tipoAtual in checklists
    }

    /** `checklists[tipoAtual]`. */
    function Atual(): (r: ChecklistData)
      reads this`checklists, this`tipoAtual
      requires Valid()
    {
      checklists[tipoAtual]
    }

    /** The first render: the restored type (`saved` is what storage held under the
        type key, `None` outside a browser), the default store, empty input buffers
        for the shopping categories, no edit in progress. */
    constructor (saved: Option<string>)
      ensures Valid()
      ensures tipoAtual == InitialTipo(saved)
      ensures checklists == DefaultChecklists()
      ensures newItems == Uniform(CategoriasPadrao(Compras), "")
      ensures editing == NotEditing && editingText == ""
      ensures categoriaEditando == None && novoNomeCategoria == "" && novaCategoria == ""
      ensures !modoEdicao
    {
      var initial := InitialChecklists();
      var inputs := GetEmptyNewItems(CategoriasPadrao(Compras));
      tipoAtual := InitialTipo(saved);
      checklists := initial;
      newItems := inputs;
      editing := NotEditing;
      editingText := "";
      categoriaEditando := None;
      novoNomeCategoria := "";
      novaCategoria := "";
      modoEdicao := false;
    }

    /** The mount effect without the storage read: edit mode starts on exactly when
        the current checklist has no items, and the input buffers are reset. */
    method Montar()
      requires Valid()
      modifies this`modoEdicao, this`newItems
      ensures modoEdicao == Startup.EditModeOnMount(checklists, tipoAtual)
      ensures newItems == Uniform(Atual().categorias, "")
    {
      modoEdicao := Transitions.NoItems(checklists[tipoAtual]);
      newItems := GetEmptyNewItems(checklists[tipoAtual].categorias);
    }

    /** Choosing another type in the selector; the buffers follow its categories. */
    method SelecionarTipo(t: Tipo)
      requires Valid()
      modifies this`tipoAtual, this`newItems
      ensures Valid()
      ensures tipoAtual == t
      ensures newItems == Uniform(checklists[t].categorias, "")
    {
      tipoAtual := t;
      newItems := GetEmptyNewItems(checklists[t].categorias);
    }

    /** The effect that runs after every change of `tipoAtual` or `checklists`:
        one empty buffer per category of the current checklist, and no other. */
    method SincronizarNovosItens()
      requires Valid()
      modifies this`newItems
      ensures newItems.Keys == Elems(Atual().categorias)
      ensures forall c :: c in newItems ==> newItems[c] == ""
    {
      newItems := GetEmptyNewItems(checklists[tipoAtual].categorias);
    }

    /** The "edit mode" checkbox. */
    method DefinirModoEdicao(ligado: bool)
      modifies this`modoEdicao
      ensures modoEdicao == ligado
    {
      modoEdicao := ligado;
    }

    /** Typing in a category's "new item" field. */
    method DigitarItem(categoria: string, texto: string)
      modifies this`newItems
      ensures newItems == old(newItems)[categoria := texto]
    {
      newItems := newItems[categoria := texto];
    }

    /** `addItem`: a non-blank trimmed buffer is appended to the category and the
        buffer cleared; a blank one changes nothing. */
    method AddItem(categoria: string)
      requires Valid()
      requires Transitions.PendingText(newItems, categoria) != "" ==> categoria in Atual().items
      modifies this`checklists, this`newItems
      ensures Valid()
      ensures var text := Transitions.PendingText(old(newItems), categoria);
        && checklists == old(checklists)[tipoAtual := Transitions.AddItem(old(Atual()), categoria, text)]
        && newItems == if text != "" then old(newItems)[categoria := ""] else old(newItems)
    {
      var text := if categoria in newItems then Trim(newItems[categoria]) else "";
      var d := checklists[tipoAtual];
      if text != "" {
        Transitions.AddItemAppends(d, categoria, text);
        StoreValidUpdate(checklists, tipoAtual, Transitions.AddItem(d, categoria, text));
        checklists := checklists[tipoAtual := Transitions.AddItem(d, categoria, text)];
        newItems := newItems[categoria := ""];
      } else {
        assert checklists[tipoAtual := d] == checklists;
      }
    }

    /** `removeItem`, `confirm` being the answer to the confirmation prompt. */
    method RemoveItem(categoria: string, index: int, confirm: bool)
      requires Valid()
      requires confirm ==> categoria in Atual().items
      modifies this`checklists
      ensures Valid()
      ensures !confirm ==> checklists == old(checklists)
      ensures checklists == old(checklists)[tipoAtual := Transitions.RemoveItem(old(Atual()), categoria, index, confirm)]
    {
      if !confirm {
        assert checklists[tipoAtual := checklists[tipoAtual]] == checklists;
        return;
      }
      Transitions.RemoveItemEffect(checklists[tipoAtual], categoria, index, confirm);
      StoreValidUpdate(checklists, tipoAtual, Transitions.RemoveItem(checklists[tipoAtual], categoria, index, confirm));
      checklists := checklists[tipoAtual := Transitions.RemoveItem(checklists[tipoAtual], categoria, index, confirm)];
    }

    /** `toggleCheck`. */
    method ToggleCheck(categoria: string, index: int)
      requires Valid()
      requires categoria in Atual().items
      modifies this`checklists
      ensures Valid()
      ensures checklists == old(checklists)[tipoAtual := Transitions.ToggleCheck(old(Atual()), categoria, index)]
    {
      Transitions.ToggleCheckEffect(checklists[tipoAtual], categoria, index);
      StoreValidUpdate(checklists, tipoAtual, Transitions.ToggleCheck(checklists[tipoAtual], categoria, index));
      checklists := checklists[tipoAtual := Transitions.ToggleCheck(checklists[tipoAtual], categoria, index)];
    }

    /** `startEdit`: remembers the item and loads its text into the edit field. */
    method StartEdit(categoria: string, index: int)
      requires Valid()
      requires categoria in Atual().items && 0 <= index < |Atual().items[categoria]|
      modifies this`editing, this`editingText
      ensures editing == Editing(Some(categoria), Some(index))
      ensures editingText == Atual().items[categoria][index].text
    {
      editing := Editing(Some(categoria), Some(index));
      editingText := checklists[tipoAtual].items[categoria][index].text;
    }

    /** Typing in the edit field. */
    method DigitarEdicao(texto: string)
      modifies this`editingText
      ensures editingText == texto
    {
      editingText := texto;
    }

    /** `saveEdit`: commits the edit field to the remembered item, then ends the edit. */
    method SaveEdit()
      requires Valid()
      requires editing.categoria.Some? && editing.index.Some? ==> editing.categoria.value in Atual().items
      modifies this`checklists, this`editing, this`editingText
      ensures Valid()
      ensures checklists == old(checklists)[tipoAtual := Transitions.SaveEdit(old(Atual()), old(editing), old(editingText))]
      ensures editing == NotEditing && editingText == ""
    {
      Transitions.SaveEditEffect(checklists[tipoAtual], editing, editingText);
      StoreValidUpdate(checklists, tipoAtual, Transitions.SaveEdit(checklists[tipoAtual], editing, editingText));
      checklists := checklists[tipoAtual := Transitions.SaveEdit(checklists[tipoAtual], editing, editingText)];
      editing := NotEditing;
      editingText := "";
    }

    /** Clicking a category's edit icon: the name field starts with the current name. */
    method EditarCategoria(categoria: string)
      modifies this`categoriaEditando, this`novoNomeCategoria
      ensures categoriaEditando == Some(categoria) && novoNomeCategoria == categoria
    {
      categoriaEditando := Some(categoria);
      novoNomeCategoria := categoria;
    }

    /** Typing in the category name field. */
    method DigitarNomeCategoria(texto: string)
      modifies this`novoNomeCategoria
      ensures novoNomeCategoria == texto
    {
      novoNomeCategoria := texto;
    }

    /** `salvarNomeCategoria`: applies an accepted rename to the categories, the
        items and the input buffers; always closes the name field. */
    method SalvarNomeCategoria(categoriaAntiga: string)
      requires Valid()
      modifies this`checklists, this`newItems, this`categoriaEditando, this`novoNomeCategoria
      ensures Valid()
      ensures var novoNome := Trim(old(novoNomeCategoria));
        && checklists == old(checklists)[tipoAtual := Transitions.Rename(old(Atual()), categoriaAntiga, novoNome)]
        && newItems == Transitions.RenameInputs(old(Atual()), old(newItems), categoriaAntiga, novoNome)
      ensures categoriaEditando == None && novoNomeCategoria == ""
    {
      var novoNome := Trim(novoNomeCategoria);
      var d := checklists[tipoAtual];
      Transitions.RenameKeepsInvariant(d, categoriaAntiga, novoNome);
      var nd, nn := RenameCategoria(d, newItems, categoriaAntiga, novoNome);
      StoreValidUpdate(checklists, tipoAtual, nd);
      checklists := checklists[tipoAtual := nd];
      newItems := nn;
      categoriaEditando := None;
      novoNomeCategoria := "";
    }

    /** Typing in the new-category field. */
    method DigitarNovaCategoria(texto: string)
      modifies this`novaCategoria
      ensures novaCategoria == texto
    {
      novaCategoria := texto;
    }

    /** `adicionarCategoria`: an accepted name is appended with an empty list and a
        buffer, and the field cleared; otherwise nothing changes, the field included. */
    method AdicionarCategoria()
      requires Valid()
      modifies this`checklists, this`newItems, this`novaCategoria
      ensures Valid()
      ensures var nome := Trim(old(novaCategoria));
        && checklists == old(checklists)[tipoAtual := Transitions.AddCategory(old(Atual()), nome)]
        && if Transitions.AddCategoryAccepted(old(Atual()), nome) then
          newItems == old(newItems)[nome := ""] && novaCategoria == ""
        else
          newItems == old(newItems) && novaCategoria == old(novaCategoria)
    {
      var nome := Trim(novaCategoria);
      var d := checklists[tipoAtual];
      Transitions.AddCategoryEffect(d, nome);
      if nome != "" && nome !in d.categorias {
        StoreValidUpdate(checklists, tipoAtual, Transitions.AddCategory(d, nome));
        checklists := checklists[tipoAtual := Transitions.AddCategory(d, nome)];
        newItems := newItems[nome := ""];
        novaCategoria := "";
      } else {
        assert checklists[tipoAtual := d] == checklists;
      }
    }
  }

  /** The shopping scenario on a fresh page: type `texto` under "Padaria", add it,
      tick it. The list then holds the trimmed text, checked, and the buffer is clear. */
  method ShoppingScenario(texto: string)
    requires Trim(texto) != ""
  {
    var s := new ChecklistStore(None);
    assert s.tipoAtual == Compras;
    var d0 := s.Atual();
    assert "Padaria" in d0.items && d0.items["Padaria"] == [] by {
      DefaultChecklistsValid();
      assert d0.categorias == CategoriasPadrao(Compras);
      assert "Padaria" in d0.categorias;
    }
    s.DigitarItem("Padaria", texto);
    s.AddItem("Padaria");
    assert s.Atual().items["Padaria"] == [Item(Trim(texto), false)];
    s.ToggleCheck("Padaria", 0);
    assert s.Atual().items["Padaria"] == [Item(Trim(texto), true)];
    assert s.newItems["Padaria"] == "";
  }
}
