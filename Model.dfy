/** The value stands in for a JavaScript `null`/`undefined` where the component uses one. */
module Wrappers {
  datatype Option<+T> = None | Some(value: T)
}

/**
 The data model of the checklist page: the closed set of checklist types with
 their default categories, items, and the per-type `ChecklistData` record.
 */
module Model {
  import opened Wrappers

  /** `tiposChecklist`: the fixed, closed set of checklist types. */
  datatype Tipo = Compras | Viagem | Domestico | Trabalho | Livre

  /** The types in the order the selector lists them. */
  const Tipos: seq<Tipo> := [Compras, Viagem, Domestico, Trabalho, Livre]

  /** The string each type is stored and displayed as (`tiposChecklist` itself is this list of names). */
  function Name(t: Tipo): (r: string)
  {
    match t
    case Compras => "Compras"
    case Viagem => "Viagem"
    case Domestico => "Doméstico"
    case Trabalho => "Trabalho"
    case Livre => "Livre"
  }

  /** `tiposChecklist`: the type names, in selector order. */
  const Nomes: seq<string> := [Name(Compras), Name(Viagem), Name(Domestico), Name(Trabalho), Name(Livre)]

  /** `categoriasPadrao`: the categories every type starts with. */
  function CategoriasPadrao(t: Tipo): (r: seq<string>)
  {
    match t
    case Compras => ["Bruto", "Padaria", "Carnes", "Produto de Limpeza", "Hortifrut", "Utilidades"]
    case Viagem => ["Documentos", "Roupas", "Higiene", "Eletrônicos", "Saúde", "Outros"]
    case Domestico => ["Limpeza", "Organização", "Manutenção", "Cozinha", "Lavanderia"]
    case Trabalho => ["Prioridades", "Reuniões", "Entregas", "Pendências"]
    case Livre => ["Tarefas"]
  }

  datatype Item = Item(text: string, checked: bool)

  /** One checklist: its ordered category names and the items filed under each name. */
  datatype ChecklistData = ChecklistData(categorias: seq<string>, items: map<string, seq<Item>>)

  /** The whole store: one checklist per type. */
  type Checklists = map<Tipo, ChecklistData>

  /** The item being edited; both halves are `null` when no edit is in progress. */
  datatype Editing = Editing(categoria: Option<string>, index: Option<int>)

  const NotEditing: Editing := Editing(None, None)

  function Elems(cs: seq<string>): (r: set<string>)
  {
    set c | c in cs
  }

  predicate Distinct(cs: seq<string>)
  {
    forall i, j :: 0 <= i < j < |cs| ==> cs[i] != cs[j]
  }

  /** The store's structural invariant: category names are distinct and the
      keys of `items` are exactly the category names. */
  predicate WellFormed(d: ChecklistData)
  {
    Distinct(d.categorias) && d.items.Keys == Elems(d.categorias)
  }

  /** The value under key `k`, or `dflt` when the key is absent (the `m[k] || dflt` idiom). */
  function GetOr<V>(m: map<string, V>, k: string, dflt: V): (r: V)
  {
    if k in m then m[k] else dflt
  }

  /** A map with one entry `v` for every name of `cs`. */
  function Uniform<V>(cs: seq<string>, v: V): (r: map<string, V>)
  {
    map c | c in cs :: v
  }

  /** The checklist a type gets when nothing was saved: its default categories, all empty. */
  function DefaultData(t: Tipo): (r: ChecklistData)
  {
    ChecklistData(CategoriasPadrao(t), Uniform(CategoriasPadrao(t), []))
  }

  function DefaultChecklists(): (r: Checklists)
  {
    map t | t in Tipos :: DefaultData(t)
  }

  /** Every type has an entry and every entry satisfies the invariant. */
  predicate StoreValid(cl: Checklists)
  {
    forall t: Tipo :: t in cl && WellFormed(cl[t])
  }

  /** Replacing one type's checklist by a well-formed one keeps the store valid. */
  lemma StoreValidUpdate(cl: Checklists, t: Tipo, d: ChecklistData)
    requires StoreValid(cl) && WellFormed(d)
    ensures StoreValid(cl[t := d])
  {
  }

  /** The default store covers every type, with the default categories and no items. */
  lemma DefaultChecklistsValid()
    ensures StoreValid(DefaultChecklists())
    ensures forall t: Tipo :: DefaultChecklists()[t].categorias == CategoriasPadrao(t)
    ensures forall t: Tipo, c :: c in DefaultChecklists()[t].items ==> DefaultChecklists()[t].items[c] == []
  {
    forall t: Tipo ensures t in Tipos && WellFormed(DefaultData(t)) {
      CategoriasPadraoDistinct(t);
    }
  }

  /** No type's default list names a category twice. */
  lemma CategoriasPadraoDistinct(t: Tipo)
    ensures Distinct(CategoriasPadrao(t))
  {
    match t
    case Compras =>
    case Viagem =>
    case Domestico =>
    case Trabalho =>
    case Livre =>
  }

  /** Type names are pairwise different, so a stored name identifies one type. */
  lemma NameInjective(t: Tipo, u: Tipo)
    ensures Name(t) == Name(u) ==> t == u
  {
  }

  /** The `tiposChecklist.includes(salvo)` test: the type whose name is `s`, if any. */
  function ParseTipo(s: string): (r: Option<Tipo>)
    ensures r.Some? <==> s in Nomes
    ensures r.Some? ==> Name(r.value) == s
  {
    if s == Name(Compras) then Some(Compras)
    else if s == Name(Viagem) then Some(Viagem)
    else if s == Name(Domestico) then Some(Domestico)
    else if s == Name(Trabalho) then Some(Trabalho)
    else if s == Name(Livre) then Some(Livre)
    else None
  }

  /** The initial type: the saved value when it names a type, `Compras` otherwise
      (also when nothing was saved, or outside a browser). */
  function InitialTipo(saved: Option<string>): (r: Tipo)
    ensures saved.Some? && saved.value in Nomes ==> Name(r) == saved.value
    ensures !(saved.Some? && saved.value in Nomes) ==> r == Compras
  {
    if saved.Some? && ParseTipo(saved.value).Some? then ParseTipo(saved.value).value else Compras
  }

  /** Saving a type's name and restoring it gives the same type back. */
  lemma InitialTipoRoundTrip(t: Tipo)
    ensures InitialTipo(Some(Name(t))) == t
  {
    NameInjective(t, ParseTipo(Name(t)).value);
  }
}
