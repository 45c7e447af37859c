/** The bulk operations on the work-order table shared by the work-order page
    and the work-order dialog: each is a whole-list transform built from
    `map` and `filter` over records carrying a `selected` flag. */
module WorkOrderList {
  import opened Seqs

  /** One row of the work-order table. */
  datatype WorkOrder = WorkOrder(
    id: string,
    nalog: string,
    vrsta: string,
    korisnik: string,
    kontakt: string,
    planiraniDatum: string,
    dueDate: string,
    status: string,
    selected: bool)

  /** The status the "Završi" action gives to a completed order. */
  const DoneStatus: string := "Završeno"

  predicate IsSelected(o: WorkOrder) { o.selected }

  predicate IsUnselected(o: WorkOrder) { !o.selected }

  /** Two orders that agree on every field except, perhaps, `selected`. */
  predicate SameRecord(a: WorkOrder, b: WorkOrder) {
    a.(selected := false) == b.(selected := false)
  }

  /** `workOrders.filter(order => order.selected).length`. */
  function SelectedCount(orders: seq<WorkOrder>): (n: nat)
    ensures n <= |orders|
    ensures n == 0 <==> forall i :: 0 <= i < |orders| ==> !orders[i].selected
  {
    Count(orders, IsSelected)
  }

  /** The header checkbox: every order gets `selected == checked`, nothing else changes. */
  function SelectAll(orders: seq<WorkOrder>, checked: bool): (r: seq<WorkOrder>)
    ensures |r| == |orders|
    ensures forall i :: 0 <= i < |r| ==> r[i].selected == checked && SameRecord(r[i], orders[i])
  {
    Map(orders, (o: WorkOrder) => o.(selected := checked))
  }

  /** A row checkbox: orders whose id matches get `selected == checked`; every
      other order is returned identical. */
  function SelectOne(orders: seq<WorkOrder>, id: string, checked: bool): (r: seq<WorkOrder>)
    ensures |r| == |orders|
    ensures forall i :: 0 <= i < |r| && orders[i].id == id ==>
      r[i].selected == checked && SameRecord(r[i], orders[i])
    ensures forall i :: 0 <= i < |r| && orders[i].id != id ==> r[i] == orders[i]
  {
    Map(orders, (o: WorkOrder) => if o.id == id then o.(selected := checked) else o)
  }

  /** The "Obriši" action on a non-empty selection: the unselected orders, in
      their order; exactly the selected ones are gone. */
  function RemoveSelected(orders: seq<WorkOrder>): (r: seq<WorkOrder>)
    ensures |r| == |orders| - SelectedCount(orders)
    ensures forall o :: o in r ==> o in orders && !o.selected
    ensures forall o :: o in orders && !o.selected ==> o in r
    ensures Subseq(r, orders)
  {
    CountComplement(orders, IsSelected, IsUnselected);
    FilterIsSubseq(orders, IsUnselected);
    Filter(orders, IsUnselected)
  }

  /** One order under the "Završi" action. */
  function Complete(o: WorkOrder): (r: WorkOrder)
    ensures !r.selected
    ensures o.selected ==> r.status == DoneStatus
    ensures r.(status := o.status, selected := o.selected) == o
    ensures !o.selected ==> r == o
  {
    if o.selected then o.(status := DoneStatus, selected := false) else o
  }

  /** The "Završi" action on a non-empty selection: previously selected orders
      become done and unselected; all other orders, the length and the order
      are unchanged. */
  function CompleteSelected(orders: seq<WorkOrder>): (r: seq<WorkOrder>)
    ensures |r| == |orders|
    ensures forall i :: 0 <= i < |r| && orders[i].selected ==>
      r[i].status == DoneStatus && !r[i].selected
      && r[i].(status := orders[i].status, selected := true) == orders[i]
    ensures forall i :: 0 <= i < |r| && !orders[i].selected ==> r[i] == orders[i]
    ensures SelectedCount(r) == 0
  {
    Map(orders, Complete)
  }

  /** Selecting everything twice with the same flag is selecting it once. */
  lemma SelectAllIdempotent(orders: seq<WorkOrder>, checked: bool)
    ensures SelectAll(SelectAll(orders, checked), checked) == SelectAll(orders, checked)
  {
  }

  /** After the header checkbox, the selection is everything or nothing. */
  lemma SelectAllCount(orders: seq<WorkOrder>, checked: bool)
    ensures SelectedCount(SelectAll(orders, checked)) == if checked then |orders| else 0
  {
    var r := SelectAll(orders, checked);
    if checked {
      assert forall i :: 0 <= i < |r| ==> IsSelected(r[i]);
    }
  }

  /** Neither selection handler touches any field other than `selected`. */
  lemma SelectionKeepsRecords(orders: seq<WorkOrder>, id: string, checked: bool)
    ensures forall i :: 0 <= i < |orders| ==>
      SameRecord(SelectAll(orders, checked)[i], orders[i])
      && SameRecord(SelectOne(orders, id, checked)[i], orders[i])
  {
  }

  /** With nothing selected, the delete filter keeps the whole list. */
  lemma RemoveNoneSelected(orders: seq<WorkOrder>)
    requires SelectedCount(orders) == 0
    ensures RemoveSelected(orders) == orders
  {
    CountComplement(orders, IsSelected, IsUnselected);
    FilterKeepsAll(orders, IsUnselected);
  }

  /** With nothing selected, the complete map changes nothing. */
  lemma CompleteNoneSelected(orders: seq<WorkOrder>)
    requires SelectedCount(orders) == 0
    ensures CompleteSelected(orders) == orders
  {
  }

  /** The delete result is characterised without reference to how it is
      computed: ANY list that keeps the order of the input, holds no selected
      order and is as long as the unselected part of the input is the result. */
  lemma RemoveSelectedUnique(orders: seq<WorkOrder>, kept: seq<WorkOrder>)
    requires Subseq(kept, orders)
    requires forall o :: o in kept ==> !o.selected
    requires |kept| == |orders| - SelectedCount(orders)
    ensures kept == RemoveSelected(orders)
  {
    CountComplement(orders, IsSelected, IsUnselected);
    FilterUnique(orders, IsUnselected, kept);
  }

  /** After a delete, no remaining order is selected. */
  lemma RemoveLeavesNoneSelected(orders: seq<WorkOrder>)
    ensures SelectedCount(RemoveSelected(orders)) == 0
  {
    var r := RemoveSelected(orders);
    forall i | 0 <= i < |r| ensures !r[i].selected {
      assert r[i] in r;
    }
  }

  /** The table both views start with. */
  const InitialOrders: seq<WorkOrder> := [
    WorkOrder("1", "IN/1001/23", "410-RN KW", "Marko Marković, Tina Ujevića 25", "099 123 45 67",
              "2022-01-23", "2022-02-07", "Za odraditi", true),
    WorkOrder("2", "IN/1002/23", "440-RN Vozila", "Tim d.o.o., Zavojna 2b", "098 321 54 98",
              "2022-01-09", "2022-01-21", "Aktivno", true),
    WorkOrder("3", "IN/1003/23", "475-RN Vodomjeri", "Tomislav Horvat, Uska 46", "098 111 22 33, tom@hh.hr",
              "2022-02-11", "2022-02-24", "Završeno", false),
    WorkOrder("4", "...", "", "....", "....", "...", "...", "Završeno", false)
  ]
}
