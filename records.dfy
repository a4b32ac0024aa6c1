/** The flat records the pages hold: a dashboard task, and the library item
    that the documents, tableaux and diagrammes pages share. */
module Records {

  /** A value that may be absent (`T | null`). */
  datatype Option<T> = None | Some(value: T)

  /** `interface Task` (its `progress` is an integer percentage). */
  datatype Task = Task(id: string, name: string, status: string, progress: int, assignee: string)

  /** `interface Document`, `interface Tableau` and `interface Diagram`,
      which have the same fields; the source's `type` field is `kind`. */
  datatype Item = Item(id: string, name: string, category: string, link: string, kind: string)

  /** `items.map(d => d.category)`. */
  function Categories(items: seq<Item>): (cs: seq<string>)
    ensures |cs| == |items|
    ensures forall i :: 0 <= i < |items| ==> cs[i] == items[i].category
  {
    if items == [] then []
    else Categories(items[..|items| - 1]) + [items[|items| - 1].category]
  }

  /** Every item contributes its category. */
  lemma CategoryListed(items: seq<Item>, x: Item)
    requires x in items
    ensures x.category in Categories(items)
  {
    var i :| 0 <= i < |items| && items[i] == x;
    assert Categories(items)[i] == x.category;
  }
}
