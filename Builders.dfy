/**
 The places where the page builds a fresh object by assigning one key per
 element of a list (`forEach` over categories or over types), as loops.
 */
module Builders {
  import opened Model
  import Transitions

  /** `getEmptyItems`: one empty item list per category name, and no other key. */
  method GetEmptyItems(categorias: seq<string>) returns (obj: map<string, seq<Item>>)
    ensures obj.Keys == Elems(categorias)
    ensures forall c :: c in obj ==> obj[c] == []
    ensures obj == Uniform(categorias, [])
  {
    obj := map[];
    var i := 0;
    while i < |categorias|
      invariant 0 <= i <= |categorias|
      invariant obj.Keys == Elems(categorias[..i])
      invariant forall c :: c in obj ==> obj[c] == []
    {
      assert categorias[..i + 1] == categorias[..i] + [categorias[i]];
      obj := obj[categorias[i] := []];
      i := i + 1;
    }
    assert categorias[..i] == categorias;
  }

  /** `getEmptyNewItems`: one empty input buffer per category name, and no other key. */
  method GetEmptyNewItems(categorias: seq<string>) returns (obj: map<string, string>)
    ensures obj.Keys == Elems(categorias)
    ensures forall c :: c in obj ==> obj[c] == ""
    ensures obj == Uniform(categorias, "")
  {
    obj := map[];
    var i := 0;
    while i < |categorias|
      invariant 0 <= i <= |categorias|
      invariant obj.Keys == Elems(categorias[..i])
      invariant forall c :: c in obj ==> obj[c] == ""
    {
      assert categorias[..i + 1] == categorias[..i] + [categorias[i]];
      obj := obj[categorias[i] := ""];
      i := i + 1;
    }
    assert categorias[..i] == categorias;
  }

  /** The initial store: every type gets a copy of its default categories and an
      empty list under each of them. */
  method InitialChecklists() returns (initial: Checklists)
    ensures initial == DefaultChecklists()
    ensures StoreValid(initial)
    ensures forall t: Tipo :: initial[t].categorias == CategoriasPadrao(t)
    ensures forall t: Tipo, c :: c in initial[t].items ==> initial[t].items[c] == []
  {
    initial := map[];
    var i := 0;
    while i < |Tipos|
      invariant 0 <= i <= |Tipos|
      invariant initial == map t | t in Tipos[..i] :: DefaultData(t)
    {
      var tipo := Tipos[i];
      var items := GetEmptyItems(CategoriasPadrao(tipo));
      assert Tipos[..i + 1] == Tipos[..i] + [tipo];
      initial := initial[tipo := ChecklistData(CategoriasPadrao(tipo), items)];
      i := i + 1;
    }
    assert Tipos[..i] == Tipos;
    DefaultChecklistsValid();
  }

  /** Extending the category list by one name adds that name's entry to the re-keyed map. */
  lemma RekeyAppend<V>(cats: seq<string>, cat: string, m: map<string, V>, antiga: string, novoNome: string, dflt: V)
    ensures Transitions.Rekey(cats + [cat], m, antiga, novoNome, dflt)
         == Transitions.Rekey(cats, m, antiga, novoNome, dflt)[cat := if cat == novoNome then GetOr(m, antiga, dflt) else GetOr(m, cat, dflt)]
  {
    var l := Transitions.Rekey(cats + [cat], m, antiga, novoNome, dflt);
    var r := Transitions.Rekey(cats, m, antiga, novoNome, dflt)[cat := if cat == novoNome then GetOr(m, antiga, dflt) else GetOr(m, cat, dflt)];
    assert l.Keys == r.Keys;
  }

  /** The rename's `forEach` over the new category list: builds the item map and
      the input-buffer map, the new name taking the old name's entries. */
  method RebuildAfterRename(novasCategorias: seq<string>, antiga: string, novoNome: string,
                            items: map<string, seq<Item>>, newItems: map<string, string>)
    returns (novosItems: map<string, seq<Item>>, novosNewItems: map<string, string>)
    ensures novosItems == Transitions.Rekey(novasCategorias, items, antiga, novoNome, [])
    ensures novosNewItems == Transitions.Rekey(novasCategorias, newItems, antiga, novoNome, "")
  {
    novosItems, novosNewItems := map[], map[];
    var i := 0;
    while i < |novasCategorias|
      invariant 0 <= i <= |novasCategorias|
      invariant novosItems == Transitions.Rekey(novasCategorias[..i], items, antiga, novoNome, [])
      invariant novosNewItems == Transitions.Rekey(novasCategorias[..i], newItems, antiga, novoNome, "")
    {
      var cat := novasCategorias[i];
      assert novasCategorias[..i + 1] == novasCategorias[..i] + [cat];
      RekeyAppend(novasCategorias[..i], cat, items, antiga, novoNome, []);
      RekeyAppend(novasCategorias[..i], cat, newItems, antiga, novoNome, "");
      if cat == novoNome {
        novosItems := novosItems[cat := GetOr(items, antiga, [])];
        novosNewItems := novosNewItems[cat := GetOr(newItems, antiga, "")];
      } else {
        novosItems := novosItems[cat := GetOr(items, cat, [])];
        novosNewItems := novosNewItems[cat := GetOr(newItems, cat, "")];
      }
      i := i + 1;
    }
    assert novasCategorias[..i] == novasCategorias;
  }

  /** The body of `salvarNomeCategoria` on the current checklist and the input
      buffers, `novoNome` being the trimmed name field: when the guard accepts the
      name, the category list is mapped and both maps rebuilt; otherwise both are
      returned as they were. */
  method RenameCategoria(d: ChecklistData, newItems: map<string, string>, antiga: string, novoNome: string)
    returns (nd: ChecklistData, nn: map<string, string>)
    ensures nd == Transitions.Rename(d, antiga, novoNome)
    ensures nn == Transitions.RenameInputs(d, newItems, antiga, novoNome)
  {
    if novoNome != "" && novoNome != antiga && novoNome !in d.categorias {
      var novasCategorias := Transitions.Replace(d.categorias, antiga, novoNome);
      var novosItems;
      novosItems, nn := RebuildAfterRename(novasCategorias, antiga, novoNome, d.items, newItems);
      nd := ChecklistData(novasCategorias, novosItems);
    } else {
      nd, nn := d, newItems;
    }
  }
}
