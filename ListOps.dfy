/**
 The per-list transformations the handlers apply to one category's items:
 `filter` by position (remove), and `map` that rewrites the item at one
 position (toggle, edit).
 */
module ListOps {
  import opened Model

  /** `s.filter((_, i) => i !== index)`: walks the list, dropping the element at
      position `index`. Any other `index` (negative, or past the end) drops nothing. */
  function DropIndex<T>(s: seq<T>, index: int): (r: seq<T>)
    ensures 0 <= index < |s| ==> r == s[..index] + s[index + 1..]
    ensures !(0 <= index < |s|) ==> r == s
  {
    if s == [] then []
    else (if index == 0 then [] else [s[0]]) + DropIndex(s[1..], index - 1)
  }

  /** `s.map((item, i) => i === index ? f(item) : item)`: only the element at
      position `index` is rewritten; an `index` outside the list changes nothing. */
  function UpdateAt<T>(s: seq<T>, index: int, f: T -> T): (r: seq<T>)
    ensures |r| == |s|
    ensures forall k :: 0 <= k < |s| ==> r[k] == if k == index then f(s[k]) else s[k]
  {
    if s == [] then []
    else [if index == 0 then f(s[0]) else s[0]] + UpdateAt(s[1..], index - 1, f)
  }

  function Toggled(it: Item): (r: Item)
  {
    it.(checked := !it.checked)
  }

  /** The `toggleCheck` rewrite of one list. */
  function ToggleAt(s: seq<Item>, index: int): (r: seq<Item>)
  {
    UpdateAt(s, index, Toggled)
  }

  /** The `saveEdit` rewrite of one list: the text is replaced as given. */
  function SetTextAt(s: seq<Item>, index: int, text: string): (r: seq<Item>)
  {
    UpdateAt(s, index, (it: Item) => it.(text := text))
  }

  /** Removing an item in range shortens the list by one and shifts every later
      item down one place; any other index leaves the list as it was. */
  lemma DropIndexShifts<T>(s: seq<T>, index: int)
    ensures 0 <= index < |s| ==> |DropIndex(s, index)| == |s| - 1
    ensures !(0 <= index < |s|) ==> |DropIndex(s, index)| == |s|
    ensures forall k :: 0 <= k < |DropIndex(s, index)| ==>
              DropIndex(s, index)[k] == if 0 <= index <= k then s[k + 1] else s[k]
  {
  }

  /** Toggling flips exactly the `checked` flag at `index`: texts, the other items
      and the length stay as they were. */
  lemma ToggleAtEffect(s: seq<Item>, index: int)
    ensures |ToggleAt(s, index)| == |s|
    ensures forall k :: 0 <= k < |s| ==> ToggleAt(s, index)[k].text == s[k].text
    ensures 0 <= index < |s| ==> ToggleAt(s, index)[index].checked == !s[index].checked
    ensures forall k :: 0 <= k < |s| && k != index ==> ToggleAt(s, index)[k] == s[k]
  {
  }

  /** Toggling the same item twice gives back the original list. */
  lemma ToggleTwice(s: seq<Item>, index: int)
    ensures ToggleAt(ToggleAt(s, index), index) == s
  {
    var r := ToggleAt(ToggleAt(s, index), index);
    assert |r| == |s|;
    forall k | 0 <= k < |s| ensures r[k] == s[k] {
    }
  }

  /** Saving an edit replaces the text at `index` verbatim and keeps its flag;
      every other item and the length are untouched. */
  lemma SetTextAtEffect(s: seq<Item>, index: int, text: string)
    ensures |SetTextAt(s, index, text)| == |s|
    ensures 0 <= index < |s| ==> SetTextAt(s, index, text)[index] == Item(text, s[index].checked)
    ensures forall k :: 0 <= k < |s| && k != index ==> SetTextAt(s, index, text)[k] == s[k]
  {
  }

  /** Appending an item and then removing the last position restores the list. */
  lemma DropLastOfAppend<T>(s: seq<T>, x: T)
    ensures DropIndex(s + [x], |s|) == s
  {
    assert (s + [x])[..|s|] == s;
  }
}
