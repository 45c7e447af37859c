/** The work-order detail page: a form of named text fields and a table of
    line items whose executed quantity can be edited when it is a number. */
module WorkOrderDetail {
  import opened Wrappers

  /** A quantity cell holds either a number or text (`string | number`). */
  datatype Quantity = Number(amount: real) | Text(text: string)

  datatype Item = Item(
    id: int,
    sifra: string,
    naziv: string,
    jmj: string,
    djelatnik: string,
    kolicinaPlan: Quantity,
    izvrsenaKolicina: Quantity,
    status: string,
    amount: string)

  /** The form state, keyed by the input's `name`. */
  type Form = map<string, string>

  const InitialForm: Form := map[
    "nalog" := "IN/1001/23",
    "korisnik" := "Marko Marković, Tina Ujevića 25",
    "kontakt" := "099 123 45 67",
    "opis" := "Detaljan opis radova na nalogu",
    "stari_vodomjer_podaci" := "",
    "stari_vodomjer_stanje" := "",
    "novi_vodomjer_serijski" := "",
    "novi_vodomjer_stanje" := ""
  ]

  const InitialItems: seq<Item> := [
    Item(1, "32568", "Vijak", "kom", "Ivan", Number(5.0), Number(5.0), "Unpaid", "$2,350.00"),
    Item(2, "34872", "Ugradnja navoja", "kom", "Marko", Number(10.0), Number(10.0), "Pending", "$259.00"),
    Item(3, "23876", "Iskop", "m3", "Ivan", Number(1.5), Number(1.5), "Paid", "$1,259.00"),
    Item(4, "...", "...", "...", "...", Text(".."), Text(".."), "..", "..")
  ]

  /** `{ ...formData, [name]: value }`: the field `name` (added if absent)
      holds `value`; every other field keeps its presence and its value. */
  function UpdateForm(form: Form, name: string, value: string): (r: Form)
    ensures name in r && r[name] == value
    ensures r.Keys == form.Keys + {name}
    ensures forall k :: k in form && k != name ==> r[k] == form[k]
  {
    form[name := value]
  }

  /** The executed quantity is an editable number input exactly when it is a
      number; text quantities are shown read-only. */
  predicate IsEditable(item: Item)
    ensures IsEditable(item) <==> !item.izvrsenaKolicina.Text?
  {
    item.izvrsenaKolicina.Number?
  }

  /** The statuses whose amount cell shows a check mark. */
  const CheckMarkStatuses: set<string> := {"Paid", "Unpaid"}

  /** The amount cell shows a check mark for "Paid" and "Unpaid", an X otherwise. */
  predicate ShowsCheckMark(item: Item)
    ensures ShowsCheckMark(item) <==> item.status in CheckMarkStatuses
  {
    item.status == "Paid" || item.status == "Unpaid"
  }

  /** Item ids are their 1-based positions, the layout the edit relies on. */
  predicate IdsMatchPositions(items: seq<Item>) {
    forall i :: 0 <= i < |items| ==> items[i].id == i + 1
  }

  /** The quantity edit of the item with id `id`: writes `newAmount` into
      `items[id - 1]`'s executed quantity. With `id - 1` outside the list the
      element is `undefined` and the assignment throws, which leaves the state
      as it was: `None`. */
  function SetExecutedQuantity(items: seq<Item>, id: int, newAmount: real): (r: Option<seq<Item>>)
    ensures r.Some? <==> 1 <= id <= |items|
    ensures r.Some? ==> (
      && |r.value| == |items|
      && r.value[id - 1].izvrsenaKolicina == Number(newAmount)
      && r.value[id - 1].(izvrsenaKolicina := items[id - 1].izvrsenaKolicina) == items[id - 1]
      && forall i :: 0 <= i < |items| && i != id - 1 ==> r.value[i] == items[i])
  {
    if 1 <= id <= |items| then
      Some(items[id - 1 := items[id - 1].(izvrsenaKolicina := Number(newAmount))])
    else None
  }

  /** The initial items are numbered by position, so every edit handler
      attached to one of them writes to that same item. */
  lemma InitialItemsAligned()
    ensures IdsMatchPositions(InitialItems)
    ensures forall i :: 0 <= i < |InitialItems| ==> 1 <= InitialItems[i].id <= |InitialItems|
  {
  }

  /** The first three initial items are editable and the fourth is not; the
      check mark shows on the first ("Unpaid") and third ("Paid") only. */
  lemma InitialItemsDisplay()
    ensures IsEditable(InitialItems[0]) && IsEditable(InitialItems[1]) && IsEditable(InitialItems[2])
    ensures !IsEditable(InitialItems[3])
    ensures ShowsCheckMark(InitialItems[0]) && !ShowsCheckMark(InitialItems[1])
    ensures ShowsCheckMark(InitialItems[2]) && !ShowsCheckMark(InitialItems[3])
  {
  }

  /** An edit keeps ids aligned with positions and keeps the edited item editable. */
  lemma EditPreservesLayout(items: seq<Item>, id: int, newAmount: real)
    requires IdsMatchPositions(items) && 1 <= id <= |items|
    ensures var r := SetExecutedQuantity(items, id, newAmount).value;
      IdsMatchPositions(r) && IsEditable(r[id - 1])
      && forall i :: 0 <= i < |r| ==> ShowsCheckMark(r[i]) == ShowsCheckMark(items[i])
  {
  }

  class WorkOrderDetail {
    var formData: Form
    var items: seq<Item>

    constructor ()
      ensures formData == InitialForm && items == InitialItems
    {
      formData := InitialForm;
      items := InitialItems;
    }

    method HandleInputChange(name: string, value: string)
      modifies this`formData
      ensures formData == UpdateForm(old(formData), name, value)
    {
      formData := UpdateForm(formData, name, value);
    }

    /** The `onChange` of the executed-quantity input of the item with id
        `id`; `ok` is false when the handler throws. */
    method HandleQuantityChange(id: int, newAmount: real) returns (ok: bool)
      modifies this`items
      ensures ok <==> 1 <= id <= |old(items)|
      ensures ok ==> items == SetExecutedQuantity(old(items), id, newAmount).value
      ensures !ok ==> items == old(items)
    {
      var r := SetExecutedQuantity(items, id, newAmount);
      if r.None? {
        return false;
      }
      items := r.value;
      ok := true;
    }
  }
}
