/** The work-order dialog: the same table as the work-order page with the same
    selection handlers, the search box and the two filter chips. Its
    "Akcija" button has no actions. */
module WorkOrdersDialog {
  import opened Wrappers
  import opened WorkOrderList

  class WorkOrdersDialog {
    var searchQuery: string
    var statusFilter: Option<string>
    var filterType: Option<string>
    var workOrders: seq<WorkOrder>

    constructor ()
      ensures searchQuery == "" && statusFilter == Some("Status") && filterType == None
      ensures workOrders == InitialOrders
    {
      searchQuery := "";
      statusFilter := Some("Status");
      filterType := None;
      workOrders := InitialOrders;
    }

    method HandleSelectAllChange(checked: bool)
      modifies this`workOrders
      ensures workOrders == SelectAll(old(workOrders), checked)
    {
      workOrders := SelectAll(workOrders, checked);
    }

    method HandleSelectChange(id: string, checked: bool)
      modifies this`workOrders
      ensures workOrders == SelectOne(old(workOrders), id, checked)
    {
      workOrders := SelectOne(workOrders, id, checked);
    }

    method HandleSearchChange(value: string)
      modifies this`searchQuery
      ensures searchQuery == value
    {
      searchQuery := value;
    }

    /** The only handler that writes `statusFilter`; none sets it back. */
    method HandleRemoveStatusFilter()
      modifies this`statusFilter
      ensures statusFilter == None
    {
      statusFilter := None;
    }

    method HandleRemoveFilterType()
      modifies this`filterType
      ensures filterType == None
    {
      filterType := None;
    }

    method HandleFilterTypeSelect(kind: string)
      modifies this`filterType
      ensures filterType == Some(kind)
    {
      filterType := Some(kind);
    }
  }
}
