/** The work-order page: its table state, the search box, the two filter chips
    and the bulk actions of its "Akcija" menu. Each handler is one atomic step
    on the current state. */
module WorkOrdersPage {
  import opened Wrappers
  import opened WorkOrderList

  /** What a bulk action reports to the user (the toast, as a tag). */
  datatype BulkOutcome = NoneSelected | Deleted(count: nat) | Completed(count: nat)

  class WorkOrdersPage {
    var searchQuery: string
    var statusFilter: Option<string>
    var filterType: Option<string>
    var workOrders: seq<WorkOrder>

    constructor ()
      ensures searchQuery == "" && statusFilter == Some("Status") && filterType == None
      ensures workOrders == InitialOrders
    {
      searchQuery := "";
      statusFilter := Some("Status");
      filterType := None;
      workOrders := InitialOrders;
    }

    method HandleSelectAllChange(checked: bool)
      modifies this`workOrders
      ensures workOrders == SelectAll(old(workOrders), checked)
    {
      workOrders := SelectAll(workOrders, checked);
    }

    method HandleSelectChange(id: string, checked: bool)
      modifies this`workOrders
      ensures workOrders == SelectOne(old(workOrders), id, checked)
    {
      workOrders := SelectOne(workOrders, id, checked);
    }

    method HandleSearchChange(value: string)
      modifies this`searchQuery
      ensures searchQuery == value
    {
      searchQuery := value;
    }

    method HandleRemoveStatusFilter()
      modifies this`statusFilter
      ensures statusFilter == None
    {
      statusFilter := None;
    }

    method HandleRemoveFilterType()
      modifies this`filterType
      ensures filterType == None
    {
      filterType := None;
    }

    method HandleFilterTypeSelect(kind: string)
      modifies this`filterType
      ensures filterType == Some(kind)
    {
      filterType := Some(kind);
    }

    /** "Obriši": with nothing selected, report it and change nothing; otherwise
        drop exactly the selected orders and report how many went. */
    method HandleDelete() returns (outcome: BulkOutcome)
      modifies this`workOrders
      ensures SelectedCount(old(workOrders)) == 0 ==>
        outcome == NoneSelected && workOrders == old(workOrders)
      ensures SelectedCount(old(workOrders)) > 0 ==>
        outcome == Deleted(SelectedCount(old(workOrders)))
        && workOrders == RemoveSelected(old(workOrders))
      ensures outcome.Deleted? ==>
        |workOrders| == |old(workOrders)| - outcome.count && SelectedCount(workOrders) == 0
    {
      var n := SelectedCount(workOrders);
      if n == 0 {
        return NoneSelected;
      }
      RemoveLeavesNoneSelected(workOrders);
      workOrders := RemoveSelected(workOrders);
      outcome := Deleted(n);
    }

    /** "Završi": with nothing selected, report it and change nothing; otherwise
        mark the selected orders done, deselect them and report how many. */
    method HandleComplete() returns (outcome: BulkOutcome)
      modifies this`workOrders
      ensures SelectedCount(old(workOrders)) == 0 ==>
        outcome == NoneSelected && workOrders == old(workOrders)
      ensures SelectedCount(old(workOrders)) > 0 ==>
        outcome == Completed(SelectedCount(old(workOrders)))
        && workOrders == CompleteSelected(old(workOrders))
      ensures SelectedCount(workOrders) == 0 || outcome == NoneSelected
    {
      var n := SelectedCount(workOrders);
      if n == 0 {
        return NoneSelected;
      }
      workOrders := CompleteSelected(workOrders);
      outcome := Completed(n);
    }
  }
}
